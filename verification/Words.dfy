/** A value that may be missing. */
module Options {
  datatype Option<T> = None | Some(value: T)
}

/** Machine words of the simulator: bytes, 16-bit words, and the C `unsigned`. */
module Words {

  type u8 = n: nat | n < 0x100
  type u16 = n: nat | n < 0x1_0000

  const U32_SIZE := 0x1_0000_0000

  /** The value of a byte read as `INT8`. */
  function S8(b: u8): (r: int) { if b >= 0x80 then b - 0x100 else b }

  /** The value of a word read as `INT16`. */
  function S16(w: u16): (r: int) { if w >= 0x8000 then w - 0x1_0000 else w }

  function Wrap8(n: int): u8 { n % 0x100 }

  function Wrap16(n: int): u16 { n % 0x1_0000 }

  /** C arithmetic on `unsigned`: everything is taken modulo 2^32. */
  function Wrap32(n: int): nat { n % U32_SIZE }

  function Hi(w: u16): u8 { w / 0x100 }

  function Lo(w: u16): u8 { w % 0x100 }

  function Join(hi: u8, lo: u8): u16 { hi * 0x100 + lo }
}

/** Bitwise operators of C `unsigned` values, with the bit-by-bit facts the flag words need. */
module Bits {

  function Pow2(k: nat): (r: nat)
    ensures r > 0
  {
    if k == 0 then 1 else 2 * Pow2(k - 1)
  }

  /** Bit k of n is set. */
  predicate Bit(n: nat, k: nat)
    decreases n
  {
    n != 0 && if k == 0 then n % 2 == 1 else Bit(n / 2, k - 1)
  }

  function And(a: nat, b: nat): nat {
    if a == 0 || b == 0 then 0
    else 2 * And(a / 2, b / 2) + (if a % 2 == 1 && b % 2 == 1 then 1 else 0)
  }

  function Or(a: nat, b: nat): nat {
    if a == 0 then b
    else 2 * Or(a / 2, b / 2) + (if a % 2 == 1 || b % 2 == 1 then 1 else 0)
  }

  function Xor(a: nat, b: nat): nat {
    if a == 0 then b
    else 2 * Xor(a / 2, b / 2) + (if a % 2 != b % 2 then 1 else 0)
  }

  /** `n & (1 << k)`. */
  function Mask(n: nat, k: nat): nat {
    if Bit(n, k) then Pow2(k) else 0
  }

  /** The bits of a number by its lowest digit and its half. */
  lemma BitDouble(half: nat, digit: nat, k: nat)
    requires digit <= 1
    ensures Bit(2 * half + digit, k) == if k == 0 then digit == 1 else Bit(half, k - 1)
  {
    assert (2 * half + digit) / 2 == half && (2 * half + digit) % 2 == digit;
  }

  lemma {:induction false} AndBit(a: nat, b: nat, k: nat)
    ensures Bit(And(a, b), k) == (Bit(a, k) && Bit(b, k))
    decreases k
  {
    if a > 0 && b > 0 {
      BitDouble(And(a / 2, b / 2), if a % 2 == 1 && b % 2 == 1 then 1 else 0, k);
      if k > 0 { AndBit(a / 2, b / 2, k - 1); }
    }
  }

  lemma {:induction false} OrBit(a: nat, b: nat, k: nat)
    ensures Bit(Or(a, b), k) == (Bit(a, k) || Bit(b, k))
    decreases k
  {
    if a > 0 {
      BitDouble(Or(a / 2, b / 2), if a % 2 == 1 || b % 2 == 1 then 1 else 0, k);
      if k > 0 { OrBit(a / 2, b / 2, k - 1); }
    }
  }

  lemma {:induction false} XorBit(a: nat, b: nat, k: nat)
    ensures Bit(Xor(a, b), k) == (Bit(a, k) != Bit(b, k))
    decreases k
  {
    if a > 0 {
      BitDouble(Xor(a / 2, b / 2), if a % 2 != b % 2 then 1 else 0, k);
      if k > 0 { XorBit(a / 2, b / 2, k - 1); }
    }
  }

  /** The operators keep k-bit operands inside k bits. */
  lemma {:induction false} OpsBelow(a: nat, b: nat, k: nat)
    requires a < Pow2(k) && b < Pow2(k)
    ensures And(a, b) < Pow2(k) && Or(a, b) < Pow2(k) && Xor(a, b) < Pow2(k)
    decreases k
  {
    if k > 0 { OpsBelow(a / 2, b / 2, k - 1); }
  }

  /** The single-bit masks of the simulator as numbers. */
  lemma Powers()
    ensures Pow2(0) == 1 && Pow2(1) == 2 && Pow2(2) == 4 && Pow2(3) == 8
    ensures Pow2(4) == 16 && Pow2(5) == 32 && Pow2(6) == 64 && Pow2(7) == 128
    ensures Pow2(8) == 256 && Pow2(15) == 0x8000 && Pow2(16) == 0x1_0000
  {
  }

  /** Bits as digits of the quotient by a power of two. */
  lemma {:induction false} BitIsDigit(n: nat, k: nat)
    ensures Bit(n, k) == (n / Pow2(k) % 2 == 1)
    decreases k
  {
    if k > 0 {
      BitIsDigit(n / 2, k - 1);
      HalfQuotient(n, Pow2(k - 1));
    }
  }

  lemma HalfQuotient(n: nat, d: nat)
    requires d > 0
    ensures n / (2 * d) == n / 2 / d
  {
    var q, r := n / 2 / d, n / 2 % d;
    assert n / 2 == d * q + r;
    QuotientIs(n, 2 * d, q, 2 * r + n % 2);
  }

  lemma {:induction false} QuotientIs(n: nat, d: nat, q: nat, r: nat)
    requires 0 < d && r < d && n == d * q + r
    ensures n / d == q
  {
    var p := n / d;
    assert n == d * p + n % d;
    assert p < q ==> d * (p + 1) <= d * q;
    assert q < p ==> d * (q + 1) <= d * p;
  }

  function Digit(b: bool): nat { if b then 1 else 0 }

  /** The number whose binary digits are `bits`, least significant first. */
  function Number(bits: seq<bool>): nat {
    if bits == [] then 0 else Digit(bits[0]) + 2 * Number(bits[1..])
  }

  lemma {:induction false} NumberBits(bits: seq<bool>, k: nat)
    requires k < |bits|
    ensures Bit(Number(bits), k) == bits[k]
    ensures Number(bits) < Pow2(|bits|)
    decreases |bits|
  {
    if k > 0 {
      NumberBits(bits[1..], k - 1);
    } else if |bits| > 1 {
      NumberBits(bits[1..], 0);
    }
  }

  /** A number is determined by its bits. */
  lemma {:induction false} NumberOfBits(n: nat, bits: seq<bool>)
    requires n < Pow2(|bits|)
    requires forall k | 0 <= k < |bits| :: Bit(n, k) == bits[k]
    ensures n == Number(bits)
    decreases |bits|
  {
    if bits != [] {
      forall k | 0 <= k < |bits| - 1 ensures Bit(n / 2, k) == bits[1..][k] { assert Bit(n, k + 1) == bits[k + 1]; }
      NumberOfBits(n / 2, bits[1..]);
    }
  }
}
