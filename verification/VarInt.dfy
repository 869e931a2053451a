/** internal/mcproto/varint.go: 32-bit VarInts, checked against unsigned LEB128. */
module VarInt {
  import opened Words
  import opened Wrappers
  import opened ByteStreams

  const MAX_BYTES := 5

  // ----- The reference: unsigned LEB128 (section 7.6 of DWARF 5) on unbounded naturals -----

  function Leb128(n: nat): seq<byte> {
    if n < 128 then [n] else [n % 128 + 128] + Leb128(n / 128)
  }

  /** The number that seven-bit groups denote, least significant group first. */
  function LebValue(s: seq<byte>): nat {
    if s == [] then 0 else s[0] % 128 + 128 * LebValue(s[1..])
  }

  /** x moved up by n seven-bit groups. */
  function Groups(x: nat, n: nat): nat {
    if n == 0 then x else 128 * Groups(x, n - 1)
  }

  /** How many bytes at the front of s carry the continuation bit. */
  function Continued(s: seq<byte>): (n: nat)
    ensures n <= |s|
    ensures forall i :: 0 <= i < n ==> s[i] >= 128
    ensures n < |s| ==> s[n] < 128
  {
    if s == [] || s[0] < 128 then 0 else 1 + Continued(s[1..])
  }

  // ----- What the two functions of the codec compute -----

  function Encode(v: int32): seq<byte> {
    Leb128(ToUnsigned(v))
  }

  /** A terminating byte among the first five decides; the value is LEB128 modulo 2^32. */
  function Decode(s: seq<byte>): Parsed<int32> {
    var n := Continued(s);
    if n < |s| && n < MAX_BYTES then Parsed(ToSigned(Low32(LebValue(s[..n + 1]))), s[n + 1..])
    else if n < MAX_BYTES then Failed(UnexpectedEof, [])
    else Failed(VarIntTooBig, s[MAX_BYTES..])
  }

  // ----- The loops -----

  method ReadVarInt(r: Reader) returns (res: Result<int32, ReadError>)
    modifies r
    ensures match Decode(old(r.unread))
            case Parsed(v, rest) => res == Ok(v) && r.unread == rest
            case Failed(e, rest) => res == Err(e) && r.unread == rest
  {
    ghost var s := r.unread;
    ghost var n: nat := 0;
    var value: uint32, position: nat := 0, 0; // value holds the bits of the int32
    while true
      invariant n <= 4 && n <= |s| && position == 7 * n && r.unread == s[n..]
      invariant forall i :: 0 <= i < n ==> s[i] >= 128
      invariant value == LebValue(s[..n])
      decreases 4 - n
    {
      var next := r.ReadByte();
      if next == None {
        ContinuedIs(s, n);
        return Err(UnexpectedEof);
      }
      var b := next.value;
      OrAddsGroup(s, n);
      value := Or(value, ShiftLeft32(b % 128, position));
      if b < 128 {
        ContinuedIs(s, n);
        return Ok(ToSigned(value));
      }
      position := position + 7;
      if position >= 32 {
        ContinuedAtLeast(s, 5);
        return Err(VarIntTooBig);
      }
      n := n + 1;
    }
  }

  method WriteVarInt(value: int32) returns (buf: seq<byte>)
    ensures buf == Encode(value)
  {
    buf := [];
    var uv: nat := ToUnsigned(value);
    while true
      invariant buf + Leb128(uv) == Encode(value)
      decreases uv
    {
      var b := uv % 128;
      var before := uv;
      uv := uv / 128;
      if uv != 0 {
        b := b + 128;
      }
      assert Leb128(before) == [b] + if uv != 0 then Leb128(uv) else [];
      buf := buf + [b];
      if uv == 0 {
        return;
      }
    }
  }

  // ----- Why the loops meet the reference -----

  lemma {:induction false} ContinuedIs(s: seq<byte>, n: nat)
    requires n <= |s| && forall i :: 0 <= i < n ==> s[i] >= 128
    requires n < |s| ==> s[n] < 128
    ensures Continued(s) == n
  {
    if n > 0 {
      ContinuedIs(s[1..], n - 1);
    }
  }

  lemma {:induction false} ContinuedAtLeast(s: seq<byte>, n: nat)
    requires n <= |s| && forall i :: 0 <= i < n ==> s[i] >= 128
    ensures Continued(s) >= n
  {
    if n > 0 {
      ContinuedAtLeast(s[1..], n - 1);
    }
  }

  lemma {:induction false} LebValueAppend(s: seq<byte>, b: byte)
    ensures LebValue(s + [b]) == LebValue(s) + Groups(b % 128, |s|)
  {
    if s == [] {
    } else {
      assert (s + [b])[1..] == s[1..] + [b];
      LebValueAppend(s[1..], b);
    }
  }

  lemma {:induction false} LebValueBound(s: seq<byte>)
    ensures LebValue(s) < Groups(1, |s|)
  {
    if s != [] {
      LebValueBound(s[1..]);
    }
  }

  lemma {:induction false} GroupsAreShifts(x: nat, n: nat)
    ensures Groups(x, n) == ShiftLeft(x, 7 * n)
  {
    if n > 0 {
      GroupsAreShifts(x, n - 1);
      var k := 7 * n;
      assert ShiftLeft(x, k) == 4 * ShiftLeft(x, k - 2);
      assert ShiftLeft(x, k - 2) == 4 * ShiftLeft(x, k - 4);
      assert ShiftLeft(x, k - 4) == 4 * ShiftLeft(x, k - 6);
    }
  }

  lemma FiveGroups(x: nat)
    ensures Groups(x, 1) == 0x80 * x && Groups(x, 2) == 0x4000 * x
    ensures Groups(x, 3) == 0x20_0000 * x && Groups(x, 4) == 0x1000_0000 * x
    ensures Groups(x, 5) == 0x8_0000_0000 * x
  {
    assert Groups(x, 1) == 128 * Groups(x, 0);
    assert Groups(x, 2) == 128 * Groups(x, 1);
    assert Groups(x, 3) == 128 * Groups(x, 2);
    assert Groups(x, 4) == 128 * Groups(x, 3);
  }

  /** One turn of the reading loop: or-ing in the shifted group adds it, modulo 2^32. */
  lemma OrAddsGroup(s: seq<byte>, n: nat)
    requires n <= 4 && n < |s|
    ensures var v := Or(LebValue(s[..n]), ShiftLeft32(s[n] % 128, 7 * n));
            v == Low32(LebValue(s[..n + 1])) && (n < 4 ==> v == LebValue(s[..n + 1]))
  {
    LebValueBound(s[..n]);
    assert s[..n + 1] == s[..n] + [s[n]];
    LebValueAppend(s[..n], s[n]);
    OrGroup(LebValue(s[..n]), s[n] % 128, n);
  }

  lemma OrGroup(low: nat, g: nat, n: nat)
    requires n <= 4 && g < 128 && low < Groups(1, n)
    ensures var sum := low + Groups(g, n);
            Or(low, ShiftLeft32(g, 7 * n)) == Low32(sum) && (n < 4 ==> Low32(sum) == sum)
  {
    FiveGroups(1);
    FiveGroups(g);
    GroupsAreShifts(1, n);
    GroupsAreShifts(g, n);
    if n < 4 {
      Low32Wraps(Groups(g, n), 0, Groups(g, n));
      Low32Wraps(low + Groups(g, n), 0, low + Groups(g, n));
      OrOfDisjointBits(low, g, 7 * n);
    } else {
      OrFifthGroup(low, g);
    }
  }

  lemma OrFifthGroup(low: nat, g: nat)
    requires g < 128 && low < 0x1000_0000
    ensures Or(low, ShiftLeft32(g, 28)) == Low32(low + Groups(g, 4))
  {
    var kept := g % 16; // the other three bits are shifted past bit 31
    FiveGroups(1);
    FiveGroups(g);
    FiveGroups(kept);
    GroupsAreShifts(1, 4);
    GroupsAreShifts(g, 4);
    GroupsAreShifts(kept, 4);
    Low32Wraps(Groups(g, 4), g / 16, Groups(kept, 4));
    Low32Wraps(low + Groups(g, 4), g / 16, low + Groups(kept, 4));
    OrOfDisjointBits(low, kept, 28);
  }

  // ----- What the encoding promises -----

  lemma {:induction false} Leb128Length(n: nat)
    ensures 0 < |Leb128(n)|
    ensures n < Groups(1, |Leb128(n)|)
    ensures |Leb128(n)| > 1 ==> n >= Groups(1, |Leb128(n)| - 1)
  {
    if n >= 128 {
      Leb128Length(n / 128);
    }
  }

  lemma {:induction false} Leb128Value(n: nat)
    ensures 0 < |Leb128(n)|
    ensures forall i :: 0 <= i < |Leb128(n)| - 1 ==> Leb128(n)[i] >= 128
    ensures Leb128(n)[|Leb128(n)| - 1] < 128
    ensures LebValue(Leb128(n)) == n
  {
    if n >= 128 {
      Leb128Value(n / 128);
      assert Leb128(n)[1..] == Leb128(n / 128);
    }
  }

  lemma Leb128Shape(n: nat)
    ensures 0 < |Leb128(n)|
    ensures n < Groups(1, |Leb128(n)|)
    ensures |Leb128(n)| > 1 ==> n >= Groups(1, |Leb128(n)| - 1)
    ensures forall i :: 0 <= i < |Leb128(n)| - 1 ==> Leb128(n)[i] >= 128
    ensures Leb128(n)[|Leb128(n)| - 1] < 128
    ensures LebValue(Leb128(n)) == n
  {
    Leb128Length(n);
    Leb128Value(n);
  }

  /** 1 to 5 bytes, with the length set by the 2^7, 2^14, 2^21 and 2^28 thresholds. */
  lemma EncodedLength(v: int32)
    ensures var u := ToUnsigned(v);
            |Encode(v)| == if u < 0x80 then 1 else if u < 0x4000 then 2
                           else if u < 0x20_0000 then 3 else if u < 0x1000_0000 then 4 else 5
  {
    Leb128Shape(ToUnsigned(v));
    FiveGroups(1);
    var k := |Encode(v)|;
    if k > 5 {
      GroupsMonotone(5, k - 1);
    }
  }

  lemma {:induction false} GroupsMonotone(a: nat, b: nat)
    requires a <= b
    ensures Groups(1, a) <= Groups(1, b)
    decreases b
  {
    if a < b {
      GroupsMonotone(a, b - 1);
    }
  }

  lemma RoundTrip(v: int32, tail: seq<byte>)
    ensures Decode(Encode(v) + tail) == Parsed(v, tail)
  {
    var e := Encode(v);
    var s := e + tail;
    Leb128Shape(ToUnsigned(v));
    EncodedLength(v);
    assert Continued(s) == |e| - 1 by {
      ContinuedIs(s, |e| - 1);
    }
    assert s[..|e|] == e && s[|e|..] == tail;
    SignedOfUnsigned(v);
  }

  /** No encoding is a proper prefix of another, and different numbers have different encodings. */
  lemma PrefixFree(v: int32, w: int32)
    requires Encode(v) <= Encode(w)
    ensures v == w
  {
    var tail := Encode(w)[|Encode(v)|..];
    assert Encode(w) == Encode(v) + tail && Encode(w) + [] == Encode(w);
    RoundTrip(v, tail);
    RoundTrip(w, []);
  }

  /** The reader accepts longer spellings too, never shorter ones. */
  lemma EncodeIsShortest(s: seq<byte>)
    requires Decode(s).Parsed?
    ensures |Encode(Decode(s).value)| <= |s| - |Decode(s).rest| <= MAX_BYTES
  {
    var n := Continued(s);
    var u := Low32(LebValue(s[..n + 1]));
    LebValueBound(s[..n + 1]);
    assert u <= LebValue(s[..n + 1]);
    UnsignedOfSigned(u);
    Leb128Shape(u);
    if |Leb128(u)| > n + 1 {
      GroupsMonotone(n + 1, |Leb128(u)| - 1);
    }
  }

  /** Whatever it answers, the reader takes at most five bytes, and leaves a suffix. */
  lemma ReadsAtMostFive(s: seq<byte>)
    ensures |s| - MAX_BYTES <= |Decode(s).rest| <= |s|
    ensures Decode(s).rest == s[|s| - |Decode(s).rest|..]
  {
  }

  /** A number is read exactly when one of the first five bytes lacks the continuation bit. */
  lemma AcceptsExactly(s: seq<byte>)
    ensures Decode(s).Parsed? <==> exists i :: 0 <= i < |s| && i < MAX_BYTES && s[i] < 128
    ensures Decode(s) == Failed(VarIntTooBig, Decode(s).rest) <==>
      |s| >= MAX_BYTES && forall i :: 0 <= i < MAX_BYTES ==> s[i] >= 128
  {
    var n := Continued(s);
    if n < |s| && n < MAX_BYTES {
      assert s[n] < 128;
    }
  }

  /** One number has several accepted spellings: three bits of the fifth byte are ignored. */
  lemma FifthByteHighBitsIgnored(c: seq<byte>, b: byte, b': byte, tail: seq<byte>)
    requires |c| == 4 && (forall i :: 0 <= i < 4 ==> c[i] >= 128) && b < 128 && b' < 128 && b % 16 == b' % 16
    ensures Decode(c + [b] + tail) == Decode(c + [b'] + tail)
    ensures Decode(c + [b] + tail).Parsed? && Decode(c + [b] + tail).rest == tail
  {
    FifthByte(c, b, tail);
    FifthByte(c, b', tail);
  }

  lemma FifthByte(c: seq<byte>, b: byte, tail: seq<byte>)
    requires |c| == 4 && (forall i :: 0 <= i < 4 ==> c[i] >= 128) && b < 128
    ensures LebValue(c) + b % 16 * 0x1000_0000 < 0x1_0000_0000
    ensures Decode(c + [b] + tail) == Parsed(ToSigned(LebValue(c) + b % 16 * 0x1000_0000), tail)
  {
    var s := c + [b] + tail;
    ContinuedIs(s, 4);
    assert s[..5] == c + [b] && s[5..] == tail;
    FifthByteValue(c, b);
  }

  lemma FifthByteValue(c: seq<byte>, b: byte)
    requires |c| == 4 && b < 128
    ensures LebValue(c) + b % 16 * 0x1000_0000 < 0x1_0000_0000
    ensures Low32(LebValue(c + [b])) == LebValue(c) + b % 16 * 0x1000_0000
  {
    LebValueAppend(c, b);
    LebValueBound(c);
    FiveGroups(1);
    FiveGroups(b);
    Low32Wraps(LebValue(c + [b]), b / 16, LebValue(c) + b % 16 * 0x1000_0000);
  }

  // ----- Which spelling is the written one -----

  /** A last byte that adds something, and a fifth byte that fits the register. */
  predicate Canonical(c: seq<byte>)
    requires c != []
  {
    (|c| > 1 ==> c[|c| - 1] != 0) && (|c| == MAX_BYTES ==> c[MAX_BYTES - 1] < 16)
  }

  /** Of all spellings the reader accepts for a number, exactly the canonical one is what the writer writes. */
  lemma WrittenExactlyWhenCanonical(s: seq<byte>)
    requires Decode(s).Parsed?
    ensures var k := |s| - |Decode(s).rest|;
            0 < k <= |s| && (s[..k] == Encode(Decode(s).value) <==> Canonical(s[..k]))
  {
    var c := s[..Continued(s) + 1];
    assert |s| - |Decode(s).rest| == |c|;
    UnsignedOfSigned(Low32(LebValue(c)));
    SpellingIsWritten(c);
  }

  /** A number's bytes: all but the last carry the continuation bit. */
  predicate Spelling(c: seq<byte>) {
    c != [] && c[|c| - 1] < 128 && forall i :: 0 <= i < |c| - 1 ==> c[i] >= 128
  }

  lemma SpellingIsWritten(c: seq<byte>)
    requires Spelling(c) && |c| <= MAX_BYTES
    ensures c == Leb128(Low32(LebValue(c))) <==> Canonical(c)
  {
    if Canonical(c) {
      CanonicalFits(c);
      CanonicalIsLeb128(c);
    } else {
      OthersDiffer(c);
    }
  }

  lemma LastGroup(c: seq<byte>)
    requires c != []
    ensures LebValue(c) == LebValue(c[..|c| - 1]) + Groups(c[|c| - 1] % 128, |c| - 1)
    ensures LebValue(c[..|c| - 1]) < Groups(1, |c| - 1)
  {
    var front, last := c[..|c| - 1], c[|c| - 1];
    assert c == front + [last];
    LebValueAppend(front, last);
    LebValueBound(front);
  }

  lemma CanonicalFits(c: seq<byte>)
    requires Spelling(c) && |c| <= MAX_BYTES && Canonical(c)
    ensures Low32(LebValue(c)) == LebValue(c)
  {
    FiveGroups(1);
    if |c| == MAX_BYTES {
      LastGroup(c);
      FiveGroups(c[4]);
    } else {
      LebValueBound(c);
      GroupsMonotone(|c|, 4);
    }
    Low32Wraps(LebValue(c), 0, LebValue(c));
  }

  lemma {:induction false} CanonicalIsLeb128(c: seq<byte>)
    requires Spelling(c) && (|c| > 1 ==> c[|c| - 1] != 0)
    ensures Leb128(LebValue(c)) == c && (|c| > 1 || c[0] != 0 ==> LebValue(c) > 0)
  {
    if |c| == 1 {
      assert LebValue(c) == c[0];
    } else {
      CanonicalIsLeb128(c[1..]);
      OneMoreGroup(c[0], LebValue(c[1..]));
      assert c == [c[0]] + c[1..];
    }
  }

  lemma OneMoreGroup(b: byte, more: nat)
    requires b >= 128 && more > 0
    ensures Leb128(b % 128 + 128 * more) == [b] + Leb128(more)
  {
    var n := b % 128 + 128 * more;
    assert n % 128 == b % 128 && n / 128 == more;
  }

  /** Padding with a zero group, or bits shifted past bit 31: the writer would not have produced it. */
  lemma OthersDiffer(c: seq<byte>)
    requires Spelling(c) && |c| <= MAX_BYTES && !Canonical(c)
    ensures c != Leb128(Low32(LebValue(c)))
  {
    var u := Low32(LebValue(c));
    if |c| == MAX_BYTES && c[4] >= 16 {
      TooWide(c, u);
    } else {
      Padded(c, u);
    }
  }

  lemma TooWide(c: seq<byte>, u: uint32)
    requires Spelling(c) && |c| == MAX_BYTES && c[4] >= 16
    ensures c != Leb128(u)
  {
    LastGroup(c);
    FiveGroups(c[4]);
    assert LebValue(c) >= 0x1_0000_0000;
    Leb128Shape(u);
  }

  lemma Padded(c: seq<byte>, u: uint32)
    requires Spelling(c) && |c| > 1 && c[|c| - 1] == 0
    ensures c != Leb128(u)
  {
    LastGroup(c);
    GroupsOfZero(|c| - 1);
    assert LebValue(c) < Groups(1, |c| - 1);
    Leb128Shape(u);
  }

  lemma {:induction false} GroupsOfZero(n: nat)
    ensures Groups(0, n) == 0
  {
    if n > 0 {
      GroupsOfZero(n - 1);
    }
  }
}
