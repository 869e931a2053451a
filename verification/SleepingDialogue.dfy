/** idlewatch/minecraft_adapter.go, HandleSleeping: the conversation with a client who is not proxied to the backend. */
module SleepingDialogue {
  import opened Words
  import opened Wrappers
  import opened ByteStreams
  import VarInt
  import opened Packets
  import Status

  /** The JSON texts, built elsewhere; None when building one failed. */
  datatype Texts = Texts(disconnect: Option<seq<byte>>, status: Option<seq<byte>>)

  /** A login attempt: the first frame is a handshake (id 0) that asks for state 2. */
  predicate AttemptsLogin(s: seq<byte>) {
    match ParseFrame(s)
    case Failed(_, _) => false
    case Parsed(p, _) => p.id == 0 && Status.Parse(p.payload) == Ok(2)
  }

  /** A handshake for any other state, followed by one more frame (the status request). */
  predicate AsksStatus(s: seq<byte>) {
    match ParseFrame(s)
    case Failed(_, _) => false
    case Parsed(p, rest) =>
      p.id == 0 && Status.Parse(p.payload).Ok? && Status.Parse(p.payload) != Ok(2) && ParseFrame(rest).Parsed?
  }

  function TextFrame(text: seq<byte>): seq<byte> {
    Frame(Packet(0, EncodeString(text)))
  }

  /** The third frame of a status conversation, echoed if it is a ping (id 1). */
  function Pong(s: seq<byte>): seq<byte> {
    var third := ParseFrame(s);
    if third.Parsed? && third.value.id == 1 then Frame(Packet(1, third.value.payload)) else []
  }

  /** The answer to a status request at the front of s. */
  function StatusReplies(s: seq<byte>, t: Texts): seq<byte> {
    if ParseFrame(s).Parsed? && t.status.Some? then TextFrame(t.status.value) + Pong(ParseFrame(s).rest) else []
  }

  /** Everything a client that reads to the end is sent. */
  function Replies(s: seq<byte>, t: Texts): seq<byte> {
    if AttemptsLogin(s) then
      if t.disconnect.Some? then TextFrame(t.disconnect.value) else []
    else if AsksStatus(s) then StatusReplies(ParseFrame(s).rest, t)
    else []
  }

  method HandleSleeping(conn: Conn, t: Texts) returns (attemptingLogin: bool)
    requires conn.sent == []
    modifies conn, conn.input
    ensures conn.closed
    ensures attemptingLogin <==> AttemptsLogin(old(conn.input.unread))
    ensures conn.sent == conn.After([], Replies(old(conn.input.unread), t))
  {
    var r := conn.input;
    var first := ReadPacket(r);
    if first.Err? || first.value.id != 0x00 {
      conn.Close();
      return false;
    }
    var nextState := Status.ParseHandshake(first.value.payload);
    if nextState.Err? {
      conn.Close();
      return false;
    }
    if nextState.value == 2 {
      if t.disconnect.Some? {
        var payload := WriteString(t.disconnect.value);
        var _ := WritePacket(conn, 0x00, payload);
      }
      conn.Close();
      return true;
    }
    AnswerStatus(conn, t);
    conn.Close();
    return false;
  }

  /** The second half of HandleSleeping: consume the status request, reply, optionally answer a ping. */
  method AnswerStatus(conn: Conn, t: Texts)
    requires conn.sent == []
    modifies conn`sent, conn.input
    ensures conn.sent == conn.After([], StatusReplies(old(conn.input.unread), t))
  {
    var r := conn.input;
    var request := ReadPacket(r);
    if request.Err? || t.status.None? {
      return;
    }
    var payload := WriteString(t.status.value);
    ghost var onwards := r.unread;
    var ok := WritePacket(conn, 0x00, payload);
    conn.AfterBoth(TextFrame(t.status.value), Pong(onwards));
    if !ok {
      return;
    }
    var ping := ReadPacket(r);
    if ping.Ok? && ping.value.id == 0x01 {
      var _ := WritePacket(conn, 0x01, ping.value.payload);
    }
  }

  // ----- What the client makes of it -----

  /** Room for the packet id and the string length in front of the text. */
  predicate TextFits(text: Option<seq<byte>>) {
    text.Some? ==> FitsInt32(|text.value| + 6)
  }

  lemma TextFrameRead(text: seq<byte>, tail: seq<byte>)
    requires TextFits(Some(text))
    ensures ParseFrame(TextFrame(text) + tail) == Parsed(Packet(0, EncodeString(text)), tail)
    ensures Block(EncodeString(text)) == Parsed(text, [])
  {
    VarInt.EncodedLength(TruncateToInt32(|text|));
    VarInt.EncodedLength(0);
    FrameRoundTrip(Packet(0, EncodeString(text)), tail);
    StringRoundTrip(text, []);
    assert EncodeString(text) + [] == EncodeString(text);
  }

  /** A ping is echoed as a readable frame with the same payload, however its id was spelled. */
  lemma PongRead(s: seq<byte>)
    requires ParseFrame(s).Parsed? && ParseFrame(s).value.id == 1
    ensures ParseFrame(Pong(s)) == Parsed(Packet(1, ParseFrame(s).value.payload), [])
  {
    var p := ParseFrame(s).value;
    FrameConsumes(s);
    BlockConsumes(s);
    VarInt.EncodedLength(1);
    FrameRoundTrip(Packet(1, p.payload), []);
    assert Frame(Packet(1, p.payload)) + [] == Frame(Packet(1, p.payload));
  }

  /** On any input at all, the bytes sent are whole packets: the intended text, then at most the ping's echo. */
  lemma RepliesDecode(s: seq<byte>, t: Texts)
    requires TextFits(t.disconnect) && TextFits(t.status)
    ensures AttemptsLogin(s) && t.disconnect.Some? ==>
      ParseFrames(Replies(s, t), 1) == Parsed([Packet(0, EncodeString(t.disconnect.value))], [])
    ensures AsksStatus(s) && t.status.Some? ==>
      var third := ParseFrame(ParseFrame(ParseFrame(s).rest).rest);
      if third.Parsed? && third.value.id == 1
      then ParseFrames(Replies(s, t), 2) == Parsed([Packet(0, EncodeString(t.status.value)), third.value], [])
      else ParseFrames(Replies(s, t), 1) == Parsed([Packet(0, EncodeString(t.status.value))], [])
    ensures t.disconnect.Some? ==> Block(EncodeString(t.disconnect.value)) == Parsed(t.disconnect.value, [])
    ensures t.status.Some? ==> Block(EncodeString(t.status.value)) == Parsed(t.status.value, [])
    ensures !AttemptsLogin(s) && !AsksStatus(s) ==> Replies(s, t) == []
  {
    if t.disconnect.Some? {
      TextFrameRead(t.disconnect.value, []);
      assert TextFrame(t.disconnect.value) + [] == TextFrame(t.disconnect.value);
      OneFrame(TextFrame(t.disconnect.value));
    }
    if t.status.Some? {
      var onwards := if AsksStatus(s) then ParseFrame(ParseFrame(s).rest).rest else [];
      TextFrameRead(t.status.value, Pong(onwards));
      if ParseFrame(onwards).Parsed? && ParseFrame(onwards).value.id == 1 {
        PongRead(onwards);
        TwoFrames(TextFrame(t.status.value) + Pong(onwards));
      } else {
        OneFrame(TextFrame(t.status.value) + Pong(onwards));
      }
    }
  }

  lemma OneFrame(s: seq<byte>)
    requires ParseFrame(s).Parsed?
    ensures ParseFrames(s, 1) == Parsed([ParseFrame(s).value], ParseFrame(s).rest)
  {
    var p, r := ParseFrame(s).value, ParseFrame(s).rest;
    assert ParseFrames(r, 0) == Parsed([], r);
    assert [p] + [] == [p];
  }

  lemma TwoFrames(s: seq<byte>)
    requires ParseFrame(s).Parsed? && ParseFrame(ParseFrame(s).rest).Parsed?
    ensures var second := ParseFrame(ParseFrame(s).rest);
            ParseFrames(s, 2) == Parsed([ParseFrame(s).value, second.value], second.rest)
  {
    var p, r := ParseFrame(s).value, ParseFrame(s).rest;
    var q := ParseFrame(r).value;
    OneFrame(r);
    assert [p] + [q] == [p, q];
  }

  /** A first packet with any id but 0 is no login and gets no answer, whatever it holds. */
  lemma {:induction false} OtherPacketsUnanswered(p: Packet, onwards: seq<byte>, t: Texts)
    requires FitsInt32(|Body(p)|) && p.id != 0
    ensures !AttemptsLogin(Frame(p) + onwards) && Replies(Frame(p) + onwards, t) == []
  {
    FrameRoundTrip(p, onwards);
  }

  /** For every real handshake the verdict is whether it asks for login, whatever the client sends next. */
  lemma HandshakeVerdict(protocol: int32, address: seq<byte>, portHigh: byte, portLow: byte, next: int32,
                         onwards: seq<byte>)
    requires FitsInt32(|address| + 18)
    ensures var hello := Frame(Packet(0, Status.HandshakePayload(protocol, address, portHigh, portLow, next)));
            && (AttemptsLogin(hello + onwards) <==> next == 2)
            && (AsksStatus(hello + onwards) <==> next != 2 && ParseFrame(onwards).Parsed?)
  {
    var p := Packet(0, Status.HandshakePayload(protocol, address, portHigh, portLow, next));
    VarInt.EncodedLength(protocol);
    VarInt.EncodedLength(TruncateToInt32(|address|));
    VarInt.EncodedLength(next);
    VarInt.EncodedLength(0);
    FrameRoundTrip(p, onwards);
    Status.HandshakeUnderstood(protocol, address, portHigh, portLow, next, []);
    assert p.payload + [] == p.payload;
  }

  /** The whole status conversation of a well-behaved client. */
  lemma StatusConversation(protocol: int32, address: seq<byte>, portHigh: byte, portLow: byte, next: int32,
                           request: Packet, payload: seq<byte>, tail: seq<byte>, t: Texts)
    requires FitsInt32(|address| + 18) && next != 2
    requires FitsInt32(|Body(request)|) && FitsInt32(|payload| + 1)
    requires t.status.Some? && TextFits(t.status) && TextFits(t.disconnect)
    ensures var hello := Frame(Packet(0, Status.HandshakePayload(protocol, address, portHigh, portLow, next)));
            var s := hello + (Frame(request) + (Frame(Packet(1, payload)) + tail));
            && !AttemptsLogin(s)
            && ParseFrames(Replies(s, t), 2) ==
                 Parsed([Packet(0, EncodeString(t.status.value)), Packet(1, payload)], [])
  {
    var p := Packet(0, Status.HandshakePayload(protocol, address, portHigh, portLow, next));
    var ping := Frame(Packet(1, payload)) + tail;
    var onwards := Frame(request) + ping;
    VarInt.EncodedLength(1);
    FrameRoundTrip(Packet(1, payload), tail);
    FrameRoundTrip(request, ping);
    HandshakeVerdict(protocol, address, portHigh, portLow, next, onwards);
    HandshakeFits(protocol, address, portHigh, portLow, next);
    FrameRoundTrip(p, onwards);
    RepliesDecode(Frame(p) + onwards, t);
  }

  lemma HandshakeFits(protocol: int32, address: seq<byte>, portHigh: byte, portLow: byte, next: int32)
    requires FitsInt32(|address| + 18)
    ensures FitsInt32(|Body(Packet(0, Status.HandshakePayload(protocol, address, portHigh, portLow, next)))|)
  {
    VarInt.EncodedLength(protocol);
    VarInt.EncodedLength(TruncateToInt32(|address|));
    VarInt.EncodedLength(next);
    VarInt.EncodedLength(0);
  }
}
