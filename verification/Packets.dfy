/** internal/mcproto/packet.go: length-prefixed frames and strings over one byte stream. */
module Packets {
  import opened Words
  import opened Wrappers
  import opened ByteStreams
  import VarInt

  datatype Packet = Packet(id: int32, payload: seq<byte>)

  // ----- What is written -----

  function Body(p: Packet): seq<byte> {
    VarInt.Encode(p.id) + p.payload
  }

  function Frame(p: Packet): seq<byte> {
    VarInt.Encode(TruncateToInt32(|Body(p)|)) + Body(p)
  }

  /** Go strings are byte strings. */
  function EncodeString(s: seq<byte>): seq<byte> {
    VarInt.Encode(TruncateToInt32(|s|)) + s
  }

  function Frames(ps: seq<Packet>): seq<byte> {
    if ps == [] then [] else Frame(ps[0]) + Frames(ps[1..])
  }

  // ----- What is read -----

  /** The block of a declared length at the front of s: the prefix and then exactly that many bytes. */
  function Block(s: seq<byte>): Parsed<seq<byte>> {
    match VarInt.Decode(s)
    case Failed(e, rest) => Failed(e, rest)
    case Parsed(n, rest) =>
      if n < 0 then Failed(NegativeLength, rest)
      else if n > |rest| then Failed(UnexpectedEof, [])
      else Parsed(rest[..n], rest[n..])
  }

  function ParseFrame(s: seq<byte>): Parsed<Packet> {
    match Block(s)
    case Failed(e, rest) => Failed(e, rest)
    case Parsed(body, rest) =>
      match VarInt.Decode(body)
      case Failed(e, _) => Failed(e, rest)
      case Parsed(id, payload) => Parsed(Packet(id, payload), rest)
  }

  function ParseFrames(s: seq<byte>, n: nat): Parsed<seq<Packet>>
    decreases n
  {
    if n == 0 then Parsed([], s) else
    match ParseFrame(s)
    case Failed(e, rest) => Failed(e, rest)
    case Parsed(p, rest) =>
      match ParseFrames(rest, n - 1)
      case Failed(e, rest') => Failed(e, rest')
      case Parsed(ps, rest') => Parsed([p] + ps, rest')
  }

  // ----- The functions of the package -----

  method ReadPacket(r: Reader) returns (res: Result<Packet, ReadError>)
    modifies r
    ensures match ParseFrame(old(r.unread))
            case Parsed(p, rest) => res == Ok(p) && r.unread == rest
            case Failed(e, rest) => res == Err(e) && r.unread == rest
  {
    var length := VarInt.ReadVarInt(r);
    if length.Err? {
      return Err(length.error);
    }
    if length.value < 0 {
      return Err(NegativeLength);
    }
    var buf := r.ReadFull(length.value);
    if buf == None {
      return Err(UnexpectedEof);
    }
    var pr := new Reader(buf.value);
    var id := VarInt.ReadVarInt(pr);
    if id.Err? {
      return Err(id.error);
    }
    var rest := pr.ReadAll();
    return Ok(Packet(id.value, rest));
  }

  method WritePacket(w: Conn, id: int32, data: seq<byte>) returns (ok: bool)
    modifies w`sent
    ensures w.sent == w.After(old(w.sent), Frame(Packet(id, data)))
    ensures ok <==> |old(w.sent)| + |Frame(Packet(id, data))| <= w.capacity
  {
    var head := VarInt.WriteVarInt(id);
    var body := head + data;
    var length := VarInt.WriteVarInt(TruncateToInt32(|body|));
    ok := w.Write(length + body);
  }

  method WriteString(s: seq<byte>) returns (bytes: seq<byte>)
    ensures bytes == EncodeString(s)
  {
    var length := VarInt.WriteVarInt(TruncateToInt32(|s|));
    bytes := length + s;
  }

  method ReadString(payload: seq<byte>) returns (res: Result<(seq<byte>, seq<byte>), ReadError>)
    ensures match Block(payload)
            case Parsed(s, rest) => res == Ok((s, rest))
            case Failed(e, _) => res == Err(e)
  {
    var r := new Reader(payload);
    var n := VarInt.ReadVarInt(r);
    if n.Err? {
      return Err(n.error);
    }
    if n.value < 0 {
      return Err(NegativeLength);
    }
    var buf := r.ReadFull(n.value);
    if buf == None {
      return Err(UnexpectedEof);
    }
    var rest := r.ReadAll();
    return Ok((buf.value, rest));
  }

  // ----- Round trips -----

  predicate FitsInt32(n: nat) {
    n < 0x8000_0000
  }

  /** A string comes back, and with it whatever followed it, exactly when its length fits an int32. */
  lemma StringRoundTrip(s: seq<byte>, rest: seq<byte>)
    ensures Block(EncodeString(s) + rest) == Parsed(s, rest) <==> FitsInt32(|s|)
  {
    TruncationShrinks(|s|);
    BlockAfter(TruncateToInt32(|s|), s, rest);
    if FitsInt32(|s|) {
      assert s[..|s|] == s && s[|s|..] + rest == rest;
    }
  }

  /** A declared length n in front of s decides what is taken for the block. */
  lemma BlockAfter(n: int32, s: seq<byte>, rest: seq<byte>)
    requires n <= |s|
    ensures VarInt.Encode(n) + s + rest == VarInt.Encode(n) + (s + rest)
    ensures Block(VarInt.Encode(n) + s + rest) ==
      if n < 0 then Failed(NegativeLength, s + rest) else Parsed(s[..n], s[n..] + rest)
  {
    Reassociate(VarInt.Encode(n), s, rest);
    VarInt.RoundTrip(n, s + rest);
    if n >= 0 {
      assert (s + rest)[..n] == s[..n] && (s + rest)[n..] == s[n..] + rest;
    }
  }

  /** A frame comes back, and with it whatever followed it, exactly when its body length fits an int32. */
  lemma FrameRoundTrip(p: Packet, tail: seq<byte>)
    ensures ParseFrame(Frame(p) + tail) == Parsed(p, tail) <==> FitsInt32(|Body(p)|)
  {
    TruncationShrinks(|Body(p)|);
    var n := TruncateToInt32(|Body(p)|);
    BlockAfter(n, Body(p), tail);
    VarInt.RoundTrip(p.id, p.payload);
    if FitsInt32(|Body(p)|) {
      assert Body(p)[..n] == Body(p) && Body(p)[n..] + tail == tail;
    } else if n >= 0 {
      assert |Body(p)[n..] + tail| > |tail|;
    }
  }

  /** Frames written back to back are recovered one by one, and the bytes after them are untouched. */
  lemma {:induction false} StreamRoundTrip(ps: seq<Packet>, tail: seq<byte>)
    requires forall p :: p in ps ==> FitsInt32(|Body(p)|)
    ensures ParseFrames(Frames(ps) + tail, |ps|) == Parsed(ps, tail)
  {
    if ps == [] {
      assert Frames(ps) + tail == tail;
    } else {
      Reassociate(Frame(ps[0]), Frames(ps[1..]), tail);
      FrameRoundTrip(ps[0], Frames(ps[1..]) + tail);
      StreamRoundTrip(ps[1..], tail);
      assert [ps[0]] + ps[1..] == ps;
    }
  }

  /** A successful read takes the length prefix and exactly the declared number of bytes after it. */
  lemma BlockConsumes(s: seq<byte>)
    requires Block(s).Parsed?
    ensures VarInt.Decode(s).Parsed? && VarInt.Decode(s).value == |Block(s).value|
    ensures var prefix := |s| - |VarInt.Decode(s).rest|;
            1 <= prefix <= VarInt.MAX_BYTES && s == s[..prefix] + Block(s).value + Block(s).rest
  {
    VarInt.ReadsAtMostFive(s);
    var rest, n := VarInt.Decode(s).rest, VarInt.Decode(s).value;
    var k := |s| - |rest|;
    SplitAt(s, k);
    SplitAt(rest, n);
    Reassociate(s[..k], rest[..n], rest[n..]);
  }

  /** Nothing else is taken from the stream: a readable frame is its prefix, its id and its payload. */
  lemma FrameConsumes(s: seq<byte>)
    requires ParseFrame(s).Parsed?
    ensures Block(s).Parsed? && ParseFrame(s).rest == Block(s).rest
    ensures var p, body := ParseFrame(s).value, Block(s).value;
            VarInt.Decode(body) == Parsed(p.id, p.payload) && |p.payload| < |body| <= |p.payload| + VarInt.MAX_BYTES
  {
    VarInt.ReadsAtMostFive(Block(s).value);
  }
}
