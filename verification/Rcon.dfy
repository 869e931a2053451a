/** internal/rcon/rcon.go: packets, authentication and one-reply commands over one connection. */
module Rcon {
  import opened Words
  import opened Wrappers
  import opened ByteStreams

  const TYPE_AUTH: int32 := 3
  const TYPE_AUTH_RESPONSE: int32 := 2
  const TYPE_COMMAND: int32 := 2
  const TYPE_RESPONSE: int32 := 0
  const COMMAND_ID: int32 := 2

  datatype Packet = Packet(id: int32, typ: int32, body: seq<byte>)

  // ----- Bytes -----

  /** Four bytes, least significant first. */
  function LittleEndian(v: int32): seq<byte> {
    var u0 := ToUnsigned(v);
    var u1, u2, u3 := u0 / 0x100, u0 / 0x100 / 0x100, u0 / 0x100 / 0x100 / 0x100;
    [u0 % 0x100, u1 % 0x100, u2 % 0x100, u3 % 0x100]
  }

  function FromLittleEndian(s: seq<byte>): int32
    requires |s| == 4
  {
    var b0: nat, b1: nat, b2: nat, b3: nat := s[0], s[1], s[2], s[3];
    ToSigned(b0 + 0x100 * (b1 + 0x100 * (b2 + 0x100 * b3)))
  }

  lemma LittleEndianRoundTrip(v: int32)
    ensures FromLittleEndian(LittleEndian(v)) == v
  {
  }

  /** bytes.TrimRight(s, "\x00"). */
  function TrimNuls(s: seq<byte>): (r: seq<byte>)
    ensures r <= s && (r != [] ==> r[|r| - 1] != 0)
    ensures forall i :: |r| <= i < |s| ==> s[i] == 0
  {
    if s != [] && s[|s| - 1] == 0 then TrimNuls(s[..|s| - 1]) else s
  }

  function Payload(p: Packet): seq<byte> {
    LittleEndian(p.id) + LittleEndian(p.typ) + p.body + [0, 0]
  }

  function Encode(p: Packet): seq<byte> {
    LittleEndian(TruncateToInt32(|Payload(p)|)) + Payload(p)
  }

  function Parse(s: seq<byte>): Parsed<Packet> {
    if |s| < 4 then Failed(UnexpectedEof, []) else
    var length := FromLittleEndian(s[..4]);
    if length < 10 || length > 4096 then Failed(InvalidLength, s[4..])
    else if length > |s| - 4 then Failed(UnexpectedEof, [])
    else Parsed(Unpack(s[4..4 + length]), s[4 + length..])
  }

  function Unpack(buf: seq<byte>): Packet
    requires |buf| >= 8
  {
    Packet(FromLittleEndian(buf[0..4]), FromLittleEndian(buf[4..8]), TrimNuls(buf[8..]))
  }

  method ReadPacket(r: Reader) returns (res: Result<Packet, ReadError>)
    modifies r
    ensures match Parse(old(r.unread))
            case Parsed(p, rest) => res == Ok(p) && r.unread == rest
            case Failed(e, rest) => res == Err(e) && r.unread == rest
  {
    var prefix := r.ReadFull(4);
    if prefix == None {
      return Err(UnexpectedEof);
    }
    var length := FromLittleEndian(prefix.value);
    if length < 10 || length > 4096 {
      return Err(InvalidLength);
    }
    var buf := r.ReadFull(length);
    if buf == None {
      return Err(UnexpectedEof);
    }
    assert old(r.unread)[4..][..length] == old(r.unread)[4..4 + length];
    assert old(r.unread)[4..][length..] == old(r.unread)[4 + length..];
    return Ok(Unpack(buf.value));
  }

  lemma TrimAddsNothing(s: seq<byte>)
    ensures TrimNuls(s + [0, 0]) == TrimNuls(s)
  {
    assert (s + [0, 0])[..|s| + 1] == s + [0];
    assert (s + [0])[..|s|] == s;
  }

  /** The packet comes back, its body without trailing NULs, exactly when the body is at most 4086 bytes. */
  lemma PacketRoundTrip(p: Packet, tail: seq<byte>)
    ensures Parse(Encode(p) + tail) == Parsed(p.(body := TrimNuls(p.body)), tail) <==> |p.body| <= 4086
  {
    var n := TruncateToInt32(|Payload(p)|);
    var s := Encode(p) + tail;
    LittleEndianRoundTrip(n);
    assert s[..4] == LittleEndian(n);
    TruncationShrinks(|Payload(p)|);
    if |p.body| <= 4086 {
      assert s[4..4 + n] == Payload(p) && s[4 + n..] == tail;
      UnpackPayload(p);
    } else if 10 <= n <= 4096 {
      assert |s[4 + n..]| > |tail|;
    }
  }

  lemma UnpackPayload(p: Packet)
    ensures Unpack(Payload(p)) == p.(body := TrimNuls(p.body))
  {
    var buf := Payload(p);
    LittleEndianRoundTrip(p.id);
    LittleEndianRoundTrip(p.typ);
    assert buf[0..4] == LittleEndian(p.id) && buf[4..8] == LittleEndian(p.typ) && buf[8..] == p.body + [0, 0];
    TrimAddsNothing(p.body);
  }

  /** A longer body is refused outright, up to where the 32-bit length field wraps around. */
  lemma LongBodiesRejected(p: Packet, tail: seq<byte>)
    requires 4086 < |p.body| < 0x1_0000_0000 - 10
    ensures Parse(Encode(p) + tail) == Failed(InvalidLength, Payload(p) + tail)
  {
    LengthAfter(TruncateToInt32(|Payload(p)|), Payload(p), tail);
    WrapsOutOfRange(|Payload(p)|);
  }

  lemma WrapsOutOfRange(n: nat)
    requires 4096 < n < 0x1_0000_0000
    ensures TruncateToInt32(n) < 10 || TruncateToInt32(n) > 4096
  {
  }

  lemma LengthAfter(n: int32, s: seq<byte>, tail: seq<byte>)
    ensures var whole := LittleEndian(n) + s + tail;
            FromLittleEndian(whole[..4]) == n && whole[4..] == s + tail
  {
    LittleEndianRoundTrip(n);
    assert (LittleEndian(n) + s + tail)[..4] == LittleEndian(n);
  }

  // ----- On the wire -----

  /** The number that the first four bytes denote, least significant first. */
  function Spelled(s: seq<byte>): nat
    requires |s| >= 4
  {
    var b0: nat, b1: nat, b2: nat, b3: nat := s[0], s[1], s[2], s[3];
    b0 + 256 * b1 + 65_536 * b2 + 16_777_216 * b3
  }

  /** Negative numbers are sent as two's complement. */
  lemma {:induction false} LittleEndianSpelled(v: int32)
    ensures |LittleEndian(v)| == 4
    ensures Spelled(LittleEndian(v)) == if v < 0 then v + 4_294_967_296 else v
  {
  }

  lemma {:induction false} FromLittleEndianSpelled(s: seq<byte>)
    requires |s| == 4
    ensures FromLittleEndian(s) == if Spelled(s) < 2_147_483_648 then Spelled(s) else Spelled(s) - 4_294_967_296
  {
  }

  /** A small number is its byte and three zeros, and nothing else is it. */
  lemma {:induction false} SmallNumber(n: byte)
    ensures LittleEndian(n) == [n, 0, 0, 0]
    ensures forall s: seq<byte> :: |s| == 4 ==> (FromLittleEndian(s) == n <==> s == [n, 0, 0, 0])
  {
    forall s: seq<byte> | |s| == 4
      ensures FromLittleEndian(s) == n <==> s == [n, 0, 0, 0]
    {
      FromLittleEndianSpelled(s);
    }
  }

  lemma {:induction false} MinusOne(s: seq<byte>)
    requires |s| == 4
    ensures FromLittleEndian(s) == -1 <==> s == [255, 255, 255, 255]
  {
    FromLittleEndianSpelled(s);
  }

  lemma {:induction false} PacketSpelled(p: Packet)
    ensures Encode(p)[..4] == LittleEndian(TruncateToInt32(|p.body| + 10))
    ensures |Encode(p)| == |p.body| + 14
    ensures Encode(p)[4..8] == LittleEndian(p.id) && Encode(p)[8..12] == LittleEndian(p.typ)
    ensures Encode(p)[12..] == p.body + [0, 0]
  {
  }

  /** A packet is read exactly when its first four bytes are a length from 10 to 4096 and that many follow. */
  lemma {:induction false} ParsesExactly(s: seq<byte>)
    ensures Parse(s).Parsed? <==>
      |s| >= 4 && 10 <= Spelled(s) <= 4096 && Spelled(s) <= |s| - 4
    ensures Parse(s).Parsed? ==>
      && |s| >= 14 && Parse(s).rest == s[4 + Spelled(s)..]
      && Parse(s).value == Packet(FromLittleEndian(s[4..8]), FromLittleEndian(s[8..12]),
                                  TrimNuls(s[12..4 + Spelled(s)]))
  {
    if |s| >= 4 {
      FromLittleEndianSpelled(s[..4]);
      assert Spelled(s[..4]) == Spelled(s);
      var n := FromLittleEndian(s[..4]);
      if 10 <= n <= 4096 && n <= |s| - 4 {
        var buf := s[4..4 + n];
        assert buf[0..4] == s[4..8] && buf[4..8] == s[8..12] && buf[8..] == s[12..4 + n];
      }
    }
  }

  // ----- A server, and the connection to it -----

  /** Whether an empty response packet comes before the answer to an authentication request. */
  datatype AuthShape = SourceStyle | MinecraftStyle

  /** Replies are handed out one a command, in order. */
  datatype Server = Server(shape: AuthShape, password: seq<byte>, authed: bool, replies: seq<seq<byte>>)

  /** What the server becomes, and the bytes it sends, on receiving one write. */
  function React(s: Server, request: seq<byte>): (Server, seq<byte>) {
    match Parse(request)
    case Failed(_, _) => (s, [])
    case Parsed(p, _) =>
      if p.typ == TYPE_AUTH then
        var ok := p.body == s.password;
        var answer := Encode(Packet(if ok then p.id else -1, TYPE_AUTH_RESPONSE, []));
        (s.(authed := ok), (if s.shape.SourceStyle? then Encode(Packet(p.id, TYPE_RESPONSE, [])) else []) + answer)
      else if p.typ == TYPE_COMMAND && s.authed && s.replies != [] then
        (s.(replies := s.replies[1..]), Encode(Packet(p.id, TYPE_RESPONSE, s.replies[0])))
      else (s, [])
  }

  datatype Link = Link(unread: seq<byte>, server: Server)

  function Sent(l: Link, bytes: seq<byte>): Link {
    Link(l.unread + React(l.server, bytes).1, React(l.server, bytes).0)
  }

  class ServerConn {
    const incoming: Reader
    var room: nat // how many bytes the connection still takes; the write that exceeds it breaks off there
    var server: Server

    constructor (server: Server, room: nat)
      ensures Now() == Link([], server) && fresh(incoming) && this.room == room
    {
      incoming := new Reader([]);
      this.room := room;
      this.server := server;
    }

    function Now(): Link
      reads this, incoming
    {
      Link(incoming.unread, server)
    }

    method WritePacket(id: int32, typ: int32, body: seq<byte>) returns (ok: bool)
      modifies this, incoming
      ensures var out := Encode(Packet(id, typ, body));
              && ok == (|out| <= old(room))
              && room == (if ok then old(room) - |out| else 0)
              && Now() == Sent(old(Now()), if ok then out else out[..old(room)])
    {
      var buf := LittleEndian(id);
      buf := buf + LittleEndian(typ);
      buf := buf + body;
      buf := buf + [0];
      buf := buf + [0];
      assert buf == Payload(Packet(id, typ, body));
      var out := LittleEndian(TruncateToInt32(|buf|)) + buf;
      ok := |out| <= room;
      var arrived := if ok then out else out[..room];
      var reaction := React(server, arrived);
      room := room - |arrived|;
      server := reaction.0;
      incoming.unread := incoming.unread + reaction.1;
    }
  }

  // ----- The client -----

  datatype RconError =
    | WriteFailed
    | ReadFailed(error: ReadError)
    | UnexpectedType(typ: int32)
    | UnexpectedId(id: int32)
    | AuthFailed

  /** How the answer to an authentication request is judged, and what stays unread. */
  function JudgeAuth(s: seq<byte>): (Result<(), RconError>, seq<byte>) {
    match Parse(s)
    case Failed(e, rest) => (Err(ReadFailed(e)), rest)
    case Parsed(first, rest) =>
      if first.typ != TYPE_RESPONSE then (JudgeAuthResponse(first), rest) else
      match Parse(rest)
      case Failed(e, rest') => (Err(ReadFailed(e)), rest')
      case Parsed(second, rest') => (JudgeAuthResponse(second), rest')
  }

  function JudgeAuthResponse(p: Packet): Result<(), RconError> {
    if p.typ != TYPE_AUTH_RESPONSE then Err(UnexpectedType(p.typ))
    else if p.id == -1 then Err(AuthFailed)
    else Ok(())
  }

  function JudgeReply(s: seq<byte>): (Result<seq<byte>, RconError>, seq<byte>) {
    match Parse(s)
    case Failed(e, rest) => (Err(ReadFailed(e)), rest)
    case Parsed(p, rest) =>
      if p.typ != TYPE_RESPONSE then (Err(UnexpectedType(p.typ)), rest)
      else if p.id != COMMAND_ID then (Err(UnexpectedId(p.id)), rest)
      else (Ok(p.body), rest)
  }

  function AuthRequest(password: seq<byte>): seq<byte> {
    Encode(Packet(1, TYPE_AUTH, password))
  }

  function CommandRequest(cmd: seq<byte>): seq<byte> {
    Encode(Packet(COMMAND_ID, TYPE_COMMAND, cmd))
  }

  function AuthOn(l: Link, password: seq<byte>): (Result<(), RconError>, Link) {
    var sent := Sent(l, AuthRequest(password));
    var judged := JudgeAuth(sent.unread);
    (judged.0, Link(judged.1, sent.server))
  }

  function CommandOn(l: Link, cmd: seq<byte>): (Result<seq<byte>, RconError>, Link) {
    var sent := Sent(l, CommandRequest(cmd));
    var judged := JudgeReply(sent.unread);
    (judged.0, Link(judged.1, sent.server))
  }

  method Auth(c: ServerConn, password: seq<byte>) returns (res: Result<(), RconError>)
    modifies c, c.incoming
    ensures |AuthRequest(password)| > old(c.room) ==>
      res == Err(WriteFailed) && c.Now() == Sent(old(c.Now()), AuthRequest(password)[..old(c.room)])
    ensures |AuthRequest(password)| <= old(c.room) ==>
      res == AuthOn(old(c.Now()), password).0 && c.Now() == AuthOn(old(c.Now()), password).1
  {
    var ok := c.WritePacket(1, TYPE_AUTH, password);
    if !ok {
      return Err(WriteFailed);
    }
    var first := ReadPacket(c.incoming);
    if first.Err? {
      return Err(ReadFailed(first.error));
    }
    var id, typ := first.value.id, first.value.typ;
    if typ == TYPE_RESPONSE {
      var second := ReadPacket(c.incoming);
      if second.Err? {
        return Err(ReadFailed(second.error));
      }
      id, typ := second.value.id, second.value.typ;
    }
    if typ != TYPE_AUTH_RESPONSE {
      return Err(UnexpectedType(typ));
    }
    if id == -1 {
      return Err(AuthFailed);
    }
    return Ok(());
  }

  method Command(c: ServerConn, cmd: seq<byte>) returns (res: Result<seq<byte>, RconError>)
    modifies c, c.incoming
    ensures |CommandRequest(cmd)| > old(c.room) ==>
      res == Err(WriteFailed) && c.Now() == Sent(old(c.Now()), CommandRequest(cmd)[..old(c.room)])
    ensures |CommandRequest(cmd)| <= old(c.room) ==>
      res == CommandOn(old(c.Now()), cmd).0 && c.Now() == CommandOn(old(c.Now()), cmd).1
  {
    var ok := c.WritePacket(COMMAND_ID, TYPE_COMMAND, cmd);
    if !ok {
      return Err(WriteFailed);
    }
    var reply := ReadPacket(c.incoming);
    if reply.Err? {
      return Err(ReadFailed(reply.error));
    }
    if reply.value.typ != TYPE_RESPONSE {
      return Err(UnexpectedType(reply.value.typ));
    }
    if reply.value.id != COMMAND_ID {
      return Err(UnexpectedId(reply.value.id));
    }
    return Ok(reply.value.body);
  }

  /** Any number of commands on one connection. */
  function SessionOn(l: Link, cmds: seq<seq<byte>>): (seq<Result<seq<byte>, RconError>>, Link)
    decreases |cmds|
  {
    if cmds == [] then ([], l) else
    var first := CommandOn(l, cmds[0]);
    var others := SessionOn(first.1, cmds[1..]);
    ([first.0] + others.0, others.1)
  }

  // ----- What the client sends and accepts, byte by byte -----

  /** The request of a password: the length, then id 1 and type 3, the password and two NULs. */
  lemma {:induction false} AuthRequestSpelled(password: seq<byte>)
    ensures |AuthRequest(password)| == |password| + 14
    ensures AuthRequest(password)[4..12] == [1, 0, 0, 0, 3, 0, 0, 0]
    ensures AuthRequest(password)[12..] == password + [0, 0]
    ensures |password| < 2_147_483_638 ==> Spelled(AuthRequest(password)) == |password| + 10
  {
    RequestSpelled(Packet(1, TYPE_AUTH, password), 1, 3);
  }

  /** The request of a command: the length, then id 2 and type 2, the command and two NULs. */
  lemma {:induction false} CommandRequestSpelled(cmd: seq<byte>)
    ensures |CommandRequest(cmd)| == |cmd| + 14
    ensures CommandRequest(cmd)[4..12] == [2, 0, 0, 0, 2, 0, 0, 0]
    ensures CommandRequest(cmd)[12..] == cmd + [0, 0]
    ensures |cmd| < 2_147_483_638 ==> Spelled(CommandRequest(cmd)) == |cmd| + 10
  {
    RequestSpelled(Packet(COMMAND_ID, TYPE_COMMAND, cmd), 2, 2);
  }

  lemma {:induction false} RequestSpelled(p: Packet, id: byte, typ: byte)
    requires p.id == id && p.typ == typ
    ensures |Encode(p)| == |p.body| + 14 && Encode(p)[12..] == p.body + [0, 0]
    ensures Encode(p)[4..12] == [id, 0, 0, 0, typ, 0, 0, 0]
    ensures |p.body| < 2_147_483_638 ==> Spelled(Encode(p)) == |p.body| + 10
  {
    PacketSpelled(p);
    SmallNumber(id);
    SmallNumber(typ);
    var s := Encode(p);
    assert s[4..12] == s[4..8] + s[8..12];
    var n := TruncateToInt32(|p.body| + 10);
    TruncationShrinks(|p.body| + 10);
    LittleEndianSpelled(n);
    assert Spelled(s[..4]) == Spelled(s);
  }

  /** A command's reply is taken exactly when it is a readable packet with id bytes 2 0 0 0 and type bytes 0 0 0 0. */
  lemma {:induction false} RepliesAccepted(s: seq<byte>)
    ensures JudgeReply(s).0.Ok? <==> Parse(s).Parsed? && s[4..8] == [2, 0, 0, 0] && s[8..12] == [0, 0, 0, 0]
    ensures Parse(s).Parsed? && s[8..12] == [0, 0, 0, 0] && s[4..8] != [2, 0, 0, 0] ==>
      JudgeReply(s).0.error.UnexpectedId?
    ensures Parse(s).Parsed? && s[8..12] != [0, 0, 0, 0] ==> JudgeReply(s).0.error.UnexpectedType?
    ensures JudgeReply(s).0.Ok? ==>
      var end := 4 + Spelled(s);
      12 <= end <= |s| && JudgeReply(s) == (Ok(TrimNuls(s[12..end])), s[end..])
  {
    ParsesExactly(s);
    SmallNumber(0);
    SmallNumber(2);
  }

  /** The verdict on one packet: type bytes 2 0 0 0 are an answer, and id bytes 255 255 255 255 a refusal. */
  lemma {:induction false} AnswersJudged(s: seq<byte>)
    requires Parse(s).Parsed?
    ensures |s| >= 14
    ensures JudgeAuthResponse(Parse(s).value) ==
      if s[8..12] != [2, 0, 0, 0] then Err(UnexpectedType(Parse(s).value.typ))
      else if s[4..8] == [255, 255, 255, 255] then Err(AuthFailed)
      else Ok(())
  {
    ParsesExactly(s);
    SmallNumber(2);
    MinusOne(s[4..8]);
  }

  /** Authentication passes over one packet with type bytes 0 0 0 0, and judges what comes then. */
  lemma {:induction false} AuthAnswersAccepted(s: seq<byte>)
    ensures JudgeAuth(s).0.Ok? ==> Parse(s).Parsed?
    ensures Parse(s).Parsed? ==>
      && |s| >= 14
      && JudgeAuth(s) ==
           var rest := Parse(s).rest;
           if s[8..12] != [0, 0, 0, 0] then (JudgeAuthResponse(Parse(s).value), rest)
           else if Parse(rest).Failed? then (Err(ReadFailed(Parse(rest).error)), Parse(rest).rest)
           else (JudgeAuthResponse(Parse(rest).value), Parse(rest).rest)
  {
    ParsesExactly(s);
    SmallNumber(0);
  }

  // ----- Staying in step -----

  /** A request that breaks off on its way is no request: the server does nothing. */
  lemma CutRequestIgnored(l: Link, p: Packet, k: nat)
    requires |p.body| < 0x1_0000_0000 - 10 && k < |Encode(p)|
    ensures Sent(l, Encode(p)[..k]) == l
  {
    CutPacketFails(p, k);
    assert l.unread + [] == l.unread;
  }

  lemma CutPacketFails(p: Packet, k: nat)
    requires |p.body| < 0x1_0000_0000 - 10 && k < |Encode(p)|
    ensures Parse(Encode(p)[..k]).Failed?
  {
    var n := TruncateToInt32(|Payload(p)|);
    if k >= 4 {
      assert Encode(p)[..k][..4] == LittleEndian(n);
      LittleEndianRoundTrip(n);
      if |Payload(p)| <= 4096 {
        TruncationShrinks(|Payload(p)|);
      } else {
        WrapsOutOfRange(|Payload(p)|);
      }
    }
  }

  /** Both shapes are accepted; the verdict is whether the password matches, and nothing stays unread. */
  lemma AuthInStep(server: Server, password: seq<byte>)
    requires |password| <= 4086
    ensures var matches := TrimNuls(password) == server.password;
            AuthOn(Link([], server), password) ==
              (if matches then Ok(()) else Err(AuthFailed), Link([], server.(authed := matches)))
  {
    PacketRead(Packet(1, TYPE_AUTH, password), []);
    if server.shape.SourceStyle? {
      JudgeSourceStyle(if TrimNuls(password) == server.password then 1 else -1);
    } else {
      JudgeMinecraftStyle(if TrimNuls(password) == server.password then 1 else -1);
    }
  }

  lemma JudgeSourceStyle(id: int32)
    ensures JudgeAuth([] + (Encode(Packet(1, TYPE_RESPONSE, [])) + Encode(Packet(id, TYPE_AUTH_RESPONSE, []))))
      == (if id == -1 then Err(AuthFailed) else Ok(()), [])
  {
    var empty, answer := Packet(1, TYPE_RESPONSE, []), Packet(id, TYPE_AUTH_RESPONSE, []);
    PacketRead(empty, Encode(answer));
    PacketRead(answer, []);
    assert [] + (Encode(empty) + Encode(answer)) == Encode(empty) + Encode(answer);
  }

  lemma JudgeMinecraftStyle(id: int32)
    ensures JudgeAuth([] + ([] + Encode(Packet(id, TYPE_AUTH_RESPONSE, []))))
      == (if id == -1 then Err(AuthFailed) else Ok(()), [])
  {
    var answer := Packet(id, TYPE_AUTH_RESPONSE, []);
    PacketRead(answer, []);
    assert [] + ([] + Encode(answer)) == Encode(answer);
  }

  lemma PacketRead(p: Packet, tail: seq<byte>)
    requires |p.body| <= 4086
    ensures Parse(Encode(p) + tail) == Parsed(p.(body := TrimNuls(p.body)), tail)
    ensures Parse(Encode(p)) == Parse([] + Encode(p)) == Parsed(p.(body := TrimNuls(p.body)), [])
  {
    PacketRoundTrip(p, tail);
    PacketRoundTrip(p, []);
    assert Encode(p) + [] == Encode(p) == [] + Encode(p);
  }

  lemma CommandInStep(l: Link, cmd: seq<byte>)
    requires l.unread == [] && l.server.authed && l.server.replies != []
    requires |cmd| <= 4086 && |l.server.replies[0]| <= 4086
    ensures CommandOn(l, cmd) ==
      (Ok(TrimNuls(l.server.replies[0])), Link([], l.server.(replies := l.server.replies[1..])))
  {
    PacketRead(Packet(COMMAND_ID, TYPE_COMMAND, cmd), []);
    PacketRead(Packet(COMMAND_ID, TYPE_RESPONSE, l.server.replies[0]), []);
  }

  predicate AllFit(bodies: seq<seq<byte>>) {
    forall i :: 0 <= i < |bodies| ==> |bodies[i]| <= 4086
  }

  /** In a session of any length the i-th command returns the i-th reply, and no byte is left over. */
  lemma {:induction false} SessionInStep(l: Link, cmds: seq<seq<byte>>)
    requires l.unread == [] && l.server.authed && |cmds| <= |l.server.replies|
    requires AllFit(cmds) && AllFit(l.server.replies)
    ensures |SessionOn(l, cmds).0| == |cmds|
    ensures forall i :: 0 <= i < |cmds| ==> SessionOn(l, cmds).0[i] == Ok(TrimNuls(l.server.replies[i]))
    ensures SessionOn(l, cmds).1 == Link([], l.server.(replies := l.server.replies[|cmds|..]))
    decreases |cmds|
  {
    var replies := l.server.replies;
    if cmds == [] {
      assert replies[0..] == replies;
    } else {
      CommandInStep(l, cmds[0]);
      var first := CommandOn(l, cmds[0]);
      SessionInStep(first.1, cmds[1..]);
      var others := SessionOn(first.1, cmds[1..]);
      assert replies[1..][|cmds| - 1..] == replies[|cmds|..];
      OneMoreReply(replies, first.0, others.0);
    }
  }

  lemma OneMoreReply(replies: seq<seq<byte>>, first: Result<seq<byte>, RconError>,
                     others: seq<Result<seq<byte>, RconError>>)
    requires |others| < |replies| && first == Ok(TrimNuls(replies[0]))
    requires forall i :: 0 <= i < |others| ==> others[i] == Ok(TrimNuls(replies[1..][i]))
    ensures forall i :: 0 <= i < |others| + 1 ==> ([first] + others)[i] == Ok(TrimNuls(replies[i]))
  {
    forall i | 0 <= i < |others| + 1
      ensures ([first] + others)[i] == Ok(TrimNuls(replies[i]))
    {
      if i > 0 {
        assert others[i - 1] == Ok(TrimNuls(replies[1..][i - 1]));
      }
    }
  }

  /** A client from authentication to its last command: every reply in its place, whichever shape the server uses. */
  lemma ClientInStep(server: Server, password: seq<byte>, cmds: seq<seq<byte>>)
    requires |password| <= 4086 && TrimNuls(password) == server.password
    requires AllFit(cmds) && AllFit(server.replies) && |cmds| <= |server.replies|
    ensures var auth := AuthOn(Link([], server), password);
            var session := SessionOn(auth.1, cmds);
            && auth.0 == Ok(()) && |session.0| == |cmds| && session.1.unread == []
            && forall i :: 0 <= i < |cmds| ==> session.0[i] == Ok(TrimNuls(server.replies[i]))
  {
    AuthInStep(server, password);
    SessionInStep(AuthOn(Link([], server), password).1, cmds);
  }
}
