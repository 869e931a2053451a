/** internal/mcproto/status.go: the handshake packet. The JSON builders are not part of this model. */
module Status {
  import opened Words
  import opened Wrappers
  import opened ByteStreams
  import VarInt
  import opened Packets

  /** Protocol version, address and port are skipped; what follows the last number is ignored. */
  function Parse(payload: seq<byte>): Result<int32, ReadError> {
    match VarInt.Decode(payload)
    case Failed(e, _) => Err(e)
    case Parsed(_, afterProtocol) => ParseFromAddress(afterProtocol)
  }

  function ParseFromAddress(s: seq<byte>): Result<int32, ReadError> {
    match Block(s)
    case Failed(e, _) => Err(e)
    case Parsed(_, afterAddress) => ParseFromPort(afterAddress)
  }

  function ParseFromPort(s: seq<byte>): Result<int32, ReadError> {
    if |s| < 2 then Err(UnexpectedEof) else
    match VarInt.Decode(s[2..])
    case Failed(e, _) => Err(e)
    case Parsed(next, _) => Ok(next)
  }

  method ParseHandshake(payload: seq<byte>) returns (res: Result<int32, ReadError>)
    ensures res == Parse(payload)
  {
    var r := new Reader(payload);
    var protocol := VarInt.ReadVarInt(r);
    if protocol.Err? {
      return Err(protocol.error);
    }
    var strLen := VarInt.ReadVarInt(r);
    if strLen.Err? {
      return Err(strLen.error);
    }
    if strLen.value < 0 {
      return Err(NegativeLength);
    }
    var address := r.ReadFull(strLen.value);
    if address == None {
      return Err(UnexpectedEof);
    }
    var port := r.ReadFull(2);
    if port == None {
      return Err(UnexpectedEof);
    }
    res := VarInt.ReadVarInt(r);
  }

  /** The handshake a client sends: protocol, address, port (high byte first), next state. */
  function HandshakePayload(protocol: int32, address: seq<byte>, portHigh: byte, portLow: byte, next: int32)
    : seq<byte>
  {
    VarInt.Encode(protocol) + AddressOnwards(address, portHigh, portLow, next)
  }

  function AddressOnwards(address: seq<byte>, portHigh: byte, portLow: byte, next: int32): seq<byte> {
    EncodeString(address) + ([portHigh, portLow] + VarInt.Encode(next))
  }

  /** Every handshake is understood, whatever follows it, when its address fits an int32 length. */
  lemma {:induction false} HandshakeUnderstood(protocol: int32, address: seq<byte>, portHigh: byte, portLow: byte,
                                               next: int32, tail: seq<byte>)
    requires FitsInt32(|address|)
    ensures Parse(HandshakePayload(protocol, address, portHigh, portLow, next) + tail) == Ok(next)
  {
    var afterAddress := [portHigh, portLow] + (VarInt.Encode(next) + tail);
    var afterProtocol := EncodeString(address) + afterAddress;
    TailMovesIn(EncodeString(address), [portHigh, portLow], VarInt.Encode(next), tail);
    Reassociate(VarInt.Encode(protocol), AddressOnwards(address, portHigh, portLow, next), tail);
    VarInt.RoundTrip(protocol, afterProtocol);
    StringRoundTrip(address, afterAddress);
    PortSkipped(portHigh, portLow, next, tail);
  }

  lemma {:induction false} TailMovesIn(a: seq<byte>, b: seq<byte>, c: seq<byte>, tail: seq<byte>)
    ensures a + (b + c) + tail == a + (b + (c + tail))
  {
  }

  lemma {:induction false} PortSkipped(portHigh: byte, portLow: byte, next: int32, tail: seq<byte>)
    ensures ParseFromPort([portHigh, portLow] + (VarInt.Encode(next) + tail)) == Ok(next)
  {
    assert ([portHigh, portLow] + (VarInt.Encode(next) + tail))[2..] == VarInt.Encode(next) + tail;
    VarInt.RoundTrip(next, tail);
  }

  /** A handshake cut anywhere before its last byte is an error, never a wrong next state. */
  lemma TruncatedHandshakeRejected(protocol: int32, address: seq<byte>, portHigh: byte, portLow: byte, next: int32,
                                   cut: nat)
    requires FitsInt32(|address|)
    requires cut < |HandshakePayload(protocol, address, portHigh, portLow, next)|
    ensures Parse(HandshakePayload(protocol, address, portHigh, portLow, next)[..cut]) == Err(UnexpectedEof)
  {
    var p := VarInt.Encode(protocol);
    var onwards := AddressOnwards(address, portHigh, portLow, next);
    CutConcat(p, onwards, cut);
    if cut < |p| {
      CutNumber(protocol, cut);
    } else {
      VarInt.RoundTrip(protocol, onwards[..cut - |p|]);
      CutFromAddress(address, portHigh, portLow, next, cut - |p|);
    }
  }

  lemma CutFromAddress(address: seq<byte>, portHigh: byte, portLow: byte, next: int32, cut: nat)
    requires FitsInt32(|address|)
    requires cut < |AddressOnwards(address, portHigh, portLow, next)|
    ensures ParseFromAddress(AddressOnwards(address, portHigh, portLow, next)[..cut]) == Err(UnexpectedEof)
  {
    var a, onwards := EncodeString(address), [portHigh, portLow] + VarInt.Encode(next);
    CutConcat(a, onwards, cut);
    if cut < |a| {
      CutString(address, cut);
    } else {
      StringRoundTrip(address, onwards[..cut - |a|]);
      if cut - |a| >= 2 {
        assert onwards[..cut - |a|][2..] == VarInt.Encode(next)[..cut - |a| - 2];
        CutNumber(next, cut - |a| - 2);
      }
    }
  }

  lemma CutConcat(a: seq<byte>, b: seq<byte>, cut: nat)
    requires cut <= |a| + |b|
    ensures (a + b)[..cut] == if cut < |a| then a[..cut] else a + b[..cut - |a|]
  {
  }

  lemma CutString(s: seq<byte>, cut: nat)
    requires FitsInt32(|s|) && cut < |EncodeString(s)|
    ensures Block(EncodeString(s)[..cut]) == Failed(UnexpectedEof, [])
  {
    var l := VarInt.Encode(|s|);
    if cut < |l| {
      assert EncodeString(s)[..cut] == l[..cut];
      CutNumber(|s|, cut);
    } else {
      assert EncodeString(s)[..cut] == l + s[..cut - |l|];
      VarInt.RoundTrip(|s|, s[..cut - |l|]);
    }
  }

  lemma CutNumber(v: int32, cut: nat)
    requires cut < |VarInt.Encode(v)|
    ensures VarInt.Decode(VarInt.Encode(v)[..cut]) == Failed(UnexpectedEof, [])
  {
    VarInt.Leb128Shape(ToUnsigned(v));
    VarInt.EncodedLength(v);
    VarInt.ContinuedIs(VarInt.Encode(v)[..cut], cut);
  }
}
