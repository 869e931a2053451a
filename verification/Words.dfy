/** Go's fixed-width integers, with truncation and bitwise "or" written out on naturals. */
module Words {
  type byte = x: int | 0 <= x < 256
  type int32 = x: int | -0x8000_0000 <= x < 0x8000_0000
  type uint32 = x: int | 0 <= x < 0x1_0000_0000

  /** The two's-complement bit pattern: Go's uint32(v). */
  function ToUnsigned(v: int32): uint32 {
    if v < 0 then v + 0x1_0000_0000 else v
  }

  /** The value of a bit pattern: Go's int32(u). */
  function ToSigned(u: uint32): int32 {
    if u < 0x8000_0000 then u else u - 0x1_0000_0000
  }

  /** The bits that a 32-bit register keeps. */
  function Low32(n: nat): uint32 {
    n % 0x1_0000_0000
  }

  lemma Low32Wraps(x: nat, q: nat, r: uint32)
    requires x == r + q * 0x1_0000_0000
    ensures Low32(x) == r
  {
  }

  lemma SignedOfUnsigned(v: int32)
    ensures ToSigned(Low32(ToUnsigned(v))) == v
  {
  }

  lemma UnsignedOfSigned(u: uint32)
    ensures ToUnsigned(ToSigned(u)) == u
  {
  }

  /** Go's int32(n) of a length: keep the low 32 bits, read them as signed. */
  function TruncateToInt32(n: nat): int32 {
    ToSigned(Low32(n))
  }

  /** A length survives the truncation exactly when it fits; otherwise it comes out negative or smaller. */
  lemma TruncationShrinks(n: nat)
    ensures n < 0x8000_0000 ==> TruncateToInt32(n) == n
    ensures n >= 0x8000_0000 ==> TruncateToInt32(n) < n
  {
  }

  function ShiftLeft(x: nat, k: nat): nat {
    if k == 0 then x else 2 * ShiftLeft(x, k - 1)
  }

  /** x << k on a 32-bit register: the bits shifted past bit 31 are lost. */
  function ShiftLeft32(x: nat, k: nat): uint32 {
    Low32(ShiftLeft(x, k))
  }

  /** Bitwise or. */
  function Or(a: nat, b: nat): nat
    decreases a + b
  {
    if a == 0 && b == 0 then 0
    else (if a % 2 == 1 || b % 2 == 1 then 1 else 0) + 2 * Or(a / 2, b / 2)
  }

  /** Or-ing a value below 2^k with one shifted left by k adds them: no bit is set in both. */
  lemma {:induction false} OrOfDisjointBits(a: nat, c: nat, k: nat)
    requires a < ShiftLeft(1, k)
    ensures Or(a, ShiftLeft(c, k)) == a + ShiftLeft(c, k)
    decreases k
  {
    if k == 0 {
      OrZero(c);
    } else {
      OrOfDisjointBits(a / 2, c, k - 1);
      var half := ShiftLeft(c, k - 1);
      if a != 0 || half != 0 {
        assert Or(a, 2 * half) == (if a % 2 == 1 then 1 else 0) + 2 * Or(a / 2, half);
      }
    }
  }

  lemma {:induction false} OrZero(c: nat)
    ensures Or(0, c) == c
  {
    if c > 0 {
      OrZero(c / 2);
    }
  }
}
