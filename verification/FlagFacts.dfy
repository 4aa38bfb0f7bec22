/** Why the simulator's flag words mean what the reference flags mean. */
module FlagFacts {
  import opened Words
  import opened Bits
  import opened Reference

  /** The five words in which the simulator keeps H, N, Z, V and C. */
  datatype FlagWords = FlagWords(
    h: nat,   // half carry in bit 4
    n: nat,   // sign in bit 7
    z: nat,   // zero exactly when the Z flag is set
    ov: nat,  // overflow in bit 7
    c: nat)   // nonzero exactly when the C flag is set

  /** The flags that EFI and the five words stand for. */
  function Meaning(efi: nat, w: FlagWords): Flags {
    Flags(Bit(efi, 7), Bit(efi, 6), Bit(w.h, 4), Bit(efi, 4), Bit(w.n, 7), w.z == 0, Bit(w.ov, 7), w.c != 0)
  }

  /** Filling the low byte of a page address with OR is addition. */
  lemma OrDisjoint(low: u8, page: u8)
    ensures Or(low, 0x100 * page) == Join(page, low)
  {
    Powers();
    OrHigh(low, page, 8);
  }

  lemma {:induction false} OrHigh(low: nat, high: nat, k: nat)
    requires low < Pow2(k)
    ensures Or(low, Pow2(k) * high) == low + Pow2(k) * high
    decreases k
  {
    if k == 0 {
      assert low == 0 && Pow2(0) * high == high;
    } else {
      hide Or;
      PowerTimes(k, high);
      hide Pow2;
      OrHigh(low / 2, high, k - 1);
      OrEven(low, Pow2(k - 1) * high);
    }
  }

  lemma PowerTimes(k: nat, high: nat)
    requires k > 0
    ensures Pow2(k) * high == 2 * (Pow2(k - 1) * high)
    ensures forall n: nat | n < Pow2(k) :: n / 2 < Pow2(k - 1)
  {
    var p := Pow2(k - 1);
    assert Pow2(k) == 2 * p;
  }

  lemma OrEven(low: nat, q: nat)
    ensures Or(low, 2 * q) == low % 2 + 2 * Or(low / 2, q)
  {
    assert 2 * q / 2 == q && 2 * q % 2 == 0;
  }

  // ---------------------------------------------------------------- signs

  lemma SignBit(x: nat)
    requires x < 0x100
    ensures Bit(x, 7) == (x >= 0x80)
  {
    BitIsDigit(x, 7);
    Powers();
  }

  lemma SignBit16(w: nat)
    requires w < 0x1_0000
    ensures Bit(w, 15) == (w >= 0x8000)
  {
    BitIsDigit(w, 15);
    Powers();
  }

  /** The high byte of a word has the word's sign. */
  lemma HighSign(n: nat)
    ensures Bit(n / 0x100, 7) == Bit(n, 15)
  {
    BitIsDigit(n, 15);
    BitIsDigit(n / 0x100, 7);
    Powers();
  }

  /** The complement of a byte has the opposite sign bit. */
  lemma NotSign(x: u8)
    ensures Bit(U32_SIZE - 1 - x, 7) == !(x >= 0x80)
  {
    BitIsDigit(U32_SIZE - 1 - x, 7);
    Powers();
    assert (U32_SIZE - 1 - x) / 0x80 == U32_SIZE / 0x80 - 1 - x / 0x80;
  }

  lemma XorFour(a: nat, b: nat, r: nat, c: nat, k: nat)
    ensures Bit(Xor(Xor(Xor(a, b), r), c), k) == (((Bit(a, k) != Bit(b, k)) != Bit(r, k)) != Bit(c, k))
  {
    XorBit(a, b, k); XorBit(Xor(a, b), r, k); XorBit(Xor(Xor(a, b), r), c, k);
  }

  lemma AndOfXors(a: nat, b: nat, c: nat, d: nat, k: nat)
    ensures Bit(And(Xor(a, b), Xor(c, d)), k) == ((Bit(a, k) != Bit(b, k)) && (Bit(c, k) != Bit(d, k)))
  {
    AndBit(Xor(a, b), Xor(c, d), k); XorBit(a, b, k); XorBit(c, d, k);
  }

  // ---------------------------------------------------------------- addition

  /** `OV = arg ^ val ^ res ^ C` holds the signed overflow in bit 7. */
  lemma AddOverflow(x: u8, y: u8, carryIn: nat)
    requires carryIn <= 1
    ensures
      var r := (x + y + carryIn) % 0x100;
      var carry := if x + y + carryIn >= 0x100 then 0x80 else 0;
      Bit(Xor(Xor(Xor(x, y), r), carry), 7) <==> !(-0x80 <= S8(x) + S8(y) + carryIn < 0x80)
  {
    hide Bit, And, Xor;
    var r := (x + y + carryIn) % 0x100;
    var carry := if x + y + carryIn >= 0x100 then 0x80 else 0;
    XorFour(x, y, r, carry, 7);
    SignBit(x); SignBit(y); SignBit(r); SignBit(carry);
    SignsOfSum(x, y, carryIn);
  }

  lemma SignsOfSum(x: u8, y: u8, carryIn: nat)
    requires carryIn <= 1
    ensures (((x >= 0x80) != (y >= 0x80)) != ((x + y + carryIn) % 0x100 >= 0x80)) != (x + y + carryIn >= 0x100)
      <==> !(-0x80 <= S8(x) + S8(y) + carryIn < 0x80)
  {
  }

  /** The same word holds the half carry in bit 4. */
  lemma AddHalfCarry(x: u8, y: u8, carryIn: nat)
    requires carryIn <= 1
    ensures
      var r := (x + y + carryIn) % 0x100;
      var carry := if x + y + carryIn >= 0x100 then 0x80 else 0;
      Bit(Xor(Xor(Xor(x, y), r), carry), 4) <==> x % 16 + y % 16 + carryIn >= 16
  {
    hide Bit, And, Xor;
    var r := (x + y + carryIn) % 0x100;
    var carry := if x + y + carryIn >= 0x100 then 0x80 else 0;
    XorFour(x, y, r, carry, 4);
    FourthBit(x); FourthBit(y); FourthBit(r); FourthBit(carry);
    DigitsOfSum(x / 16, x % 16, y / 16, y % 16, carryIn, r, r / 16);
  }

  lemma FourthBit(x: nat)
    ensures Bit(x, 4) == (x / 16 % 2 == 1)
  {
    BitIsDigit(x, 4);
    Powers();
  }

  lemma DigitsOfSum(x1: nat, x0: nat, y1: nat, y0: nat, carryIn: nat, r: nat, r1: nat)
    requires x1 < 16 && x0 < 16 && y1 < 16 && y0 < 16 && carryIn <= 1
    requires r == (16 * x1 + x0 + 16 * y1 + y0 + carryIn) % 0x100 && r1 == r / 16
    ensures ((x1 % 2 == 1) != (y1 % 2 == 1)) != (r1 % 2 == 1) <==> x0 + y0 + carryIn >= 16
  {
    var up := Digit(x0 + y0 + carryIn >= 16);
    var r0 := x0 + y0 + carryIn - 16 * up;
    assert r == 16 * (x1 + y1 + up) + r0 || r == 16 * (x1 + y1 + up - 16) + r0;
    Parity(x1, y1, up, r1);
  }

  lemma Parity(p: nat, q: nat, up: nat, r: nat)
    requires up <= 1
    requires r == p + q + up || r == p + q + up - 16
    ensures ((p % 2 == 1) != (q % 2 == 1)) != (r % 2 == 1) <==> up == 1
  {
    var e := p / 2 + q / 2;
    assert p + q + up == 2 * e + p % 2 + q % 2 + up;
  }

  lemma AddOverflow16(x: u16, y: u16)
    ensures
      var r := (x + y) % 0x1_0000;
      Bit(And(Xor(x, r), Xor(y, r)) / 0x100, 7) <==> !(-0x8000 <= S16(x) + S16(y) < 0x8000)
  {
    hide Bit, And, Xor;
    var r := (x + y) % 0x1_0000;
    HighSign(And(Xor(x, r), Xor(y, r)));
    AndOfXors(x, r, y, r, 15);
    SignBit16(x); SignBit16(y); SignBit16(r);
    SignsOfSum16(x, y);
  }

  lemma SignsOfSum16(x: u16, y: u16)
    ensures (x >= 0x8000) != ((x + y) % 0x1_0000 >= 0x8000) && (y >= 0x8000) != ((x + y) % 0x1_0000 >= 0x8000)
      <==> !(-0x8000 <= S16(x) + S16(y) < 0x8000)
  {
  }

  /** `C = res & 0x10000` after ADDD. */
  lemma AddCarry16(sum: nat)
    requires sum < 0x2_0000
    ensures Bit(sum, 16) <==> sum >= 0x1_0000
  {
    BitIsDigit(sum, 16);
    Powers();
  }

  /** `C = (res >> 1) & 0x80` after ADD and ADC. */
  lemma AddCarry(sum: nat)
    requires sum < 0x200
    ensures Bit(sum / 2, 7) <==> sum >= 0x100
  {
    BitIsDigit(sum / 2, 7);
    Powers();
  }

  // ---------------------------------------------------------------- subtraction

  /** `C = res & 0x100` of a 32-bit difference is the borrow. */
  lemma SubBorrow(diff: int)
    requires -0x100 <= diff < 0x100
    ensures Bit(Wrap32(diff), 8) <==> diff < 0
    ensures Wrap32(diff) % 0x100 == diff % 0x100
  {
    BitIsDigit(Wrap32(diff), 8);
    Powers();
    if diff < 0 { assert Wrap32(diff) == U32_SIZE + diff; }
  }

  lemma SubBorrow16(diff: int)
    requires -0x1_0000 < diff < 0x1_0000
    ensures Bit(Wrap32(diff), 16) <==> diff < 0
    ensures Wrap32(diff) % 0x1_0000 == diff % 0x1_0000
  {
    BitIsDigit(Wrap32(diff), 16);
    Powers();
    if diff < 0 { assert Wrap32(diff) == U32_SIZE + diff; }
  }

  /** `OV = (arg ^ val) & (arg ^ res)` holds the signed overflow in bit 7. */
  lemma SubOverflow(x: u8, y: u8, borrowIn: nat)
    requires borrowIn <= 1
    ensures
      var r := (x - y - borrowIn) % 0x100;
      Bit(And(Xor(x, y), Xor(x, r)), 7) <==> !(-0x80 <= S8(x) - S8(y) - borrowIn < 0x80)
  {
    hide Bit, And, Xor;
    var r := (x - y - borrowIn) % 0x100;
    AndOfXors(x, y, x, r, 7);
    SignBit(x); SignBit(y); SignBit(r);
    SignsOfDifference(x, y, borrowIn);
  }

  lemma SignsOfDifference(x: u8, y: u8, borrowIn: nat)
    requires borrowIn <= 1
    ensures (x >= 0x80) != (y >= 0x80) && (x >= 0x80) != ((x - y - borrowIn) % 0x100 >= 0x80)
      <==> !(-0x80 <= S8(x) - S8(y) - borrowIn < 0x80)
  {
  }

  lemma SubOverflow16(x: u16, y: u16)
    ensures
      var r := (x - y) % 0x1_0000;
      Bit(And(Xor(x, y), Xor(x, r)) / 0x100, 7) <==> !(-0x8000 <= S16(x) - S16(y) < 0x8000)
  {
    hide Bit, And, Xor;
    var r := (x - y) % 0x1_0000;
    HighSign(And(Xor(x, y), Xor(x, r)));
    AndOfXors(x, y, x, r, 15);
    SignBit16(x); SignBit16(y); SignBit16(r);
    SignsOfDifference16(x, y);
  }

  lemma SignsOfDifference16(x: u16, y: u16)
    ensures (x >= 0x8000) != (y >= 0x8000) && (x >= 0x8000) != ((x - y) % 0x1_0000 >= 0x8000)
      <==> !(-0x8000 <= S16(x) - S16(y) < 0x8000)
  {
  }

  // ---------------------------------------------------------------- one operand

  /** `OV = arg ^ res` after ASL and ROL. */
  lemma DoubleOverflow(x: u8, carryIn: nat)
    requires carryIn <= 1
    ensures Bit(Xor(x, (2 * x + carryIn) % 0x100), 7) <==> !(-0x80 <= 2 * S8(x) + carryIn < 0x80)
  {
    hide Bit, Xor;
    var r := (2 * x + carryIn) % 0x100;
    assert r == if x >= 0x80 then 2 * x + carryIn - 0x100 else 2 * x + carryIn;
    XorBit(x, r, 7);
    SignBit(x); SignBit(r);
  }

  /** `C = res & 0x100` after ASL and ROL. */
  lemma DoubleCarry(x: u8, carryIn: nat)
    requires carryIn <= 1
    ensures Bit(2 * x + carryIn, 8) <==> x >= 0x80
  {
    BitIsDigit(2 * x + carryIn, 8);
    Powers();
  }

  /** `OV = res & arg` after NEG. */
  lemma NegOverflow(x: u8)
    ensures Bit(And((0 - x) % 0x100, x), 7) <==> x == 0x80
  {
    hide Bit, And, Xor;
    var r := (0 - x) % 0x100;
    assert r == if x == 0 then 0 else 0x100 - x;
    AndBit(r, x, 7);
    SignBit(x); SignBit(r);
  }

  /** `OV = arg & ~res` after DEC. */
  lemma DecOverflow(x: u8)
    ensures Bit(And(x, U32_SIZE - 1 - Wrap8(x - 1)), 7) <==> x == 0x80
  {
    hide Bit, And, Xor;
    AndBit(x, U32_SIZE - 1 - Wrap8(x - 1), 7);
    SignBit(x); NotSign(Wrap8(x - 1));
  }

  /** `OV = ~arg & res` after INC. */
  lemma IncOverflow(x: u8)
    ensures Bit(And(U32_SIZE - 1 - x, Wrap8(x + 1)), 7) <==> x == 0x7f
  {
    hide Bit, And, Xor;
    AndBit(U32_SIZE - 1 - x, Wrap8(x + 1), 7);
    SignBit(Wrap8(x + 1)); NotSign(x);
  }

  /** ASR shifts the sign-extended 32-bit word: `(res >> 1) & 0xff`. */
  lemma ArithmeticShift(x: u8)
    ensures Wrap32(S8(x)) / 2 % 0x100 == Wrap8(S8(x) / 2)
    ensures Wrap32(S8(x)) % 2 == x % 2
  {
    if x >= 0x80 {
      assert Wrap32(S8(x)) == U32_SIZE - 0x100 + x;
      assert (U32_SIZE - 0x100 + x) / 2 == U32_SIZE / 2 - 0x80 + x / 2;
      assert S8(x) / 2 == x / 2 - 0x80;
      assert (U32_SIZE / 2 - 0x80 + x / 2) % 0x100 == x / 2 + 0x80;
    }
  }

  /** `arg ^ 0xff` is the one's complement. */
  function Complement(x: u8): (r: u8)
    ensures r == 0xff - x
  {
    var r := Xor(x, 0xff);
    ComplementBits(x, 8);
    Powers();
    r
  }

  lemma {:induction false} ComplementBits(x: nat, k: nat)
    requires x < Pow2(k)
    ensures Xor(x, Pow2(k) - 1) == Pow2(k) - 1 - x
    decreases k
  {
    if k > 0 {
      ComplementBits(x / 2, k - 1);
      assert (Pow2(k) - 1) / 2 == Pow2(k - 1) - 1;
    }
  }

  /** `C |= (res & 0x100)`: the carry stays set or becomes the bit. */
  lemma OrCarry(c: nat, res: nat)
    requires res < 0x200
    ensures Or(c, Mask(res, 8)) != 0 <==> c != 0 || res / 0x100 % 2 == 1
  {
    BitIsDigit(res, 8);
    Powers();
    OrNonzero(c, Mask(res, 8));
  }

  lemma {:induction false} OrNonzero(x: nat, y: nat)
    ensures Or(x, y) != 0 <==> x != 0 || y != 0
  {
    if x != 0 { OrNonzero(x / 2, y / 2); }
  }

  // ---------------------------------------------------------------- whole flag updates

  /** The words ADD and ADC leave behind stand for the reference flags. */
  lemma AddWords(cc: Flags, x: u8, y: u8, carryIn: nat)
    requires carryIn <= 1
    ensures
      var sum := x + y + carryIn;
      var r := sum % 0x100;
      var carry := Mask(sum / 2, 7);
      var word := Xor(Xor(Xor(x, y), r), carry);
      Result(r, cc.(h := Bit(word, 4), n := Bit(r, 7), z := r == 0, v := Bit(word, 7), c := carry != 0))
        == AddBytes(cc, x, y, carryIn)
  {
    hide Bit, And, Xor;
    var sum := x + y + carryIn;
    AddCarry(sum);
    AddOverflow(x, y, carryIn);
    AddHalfCarry(x, y, carryIn);
    SignBit(sum % 0x100);
    Powers();
  }

  lemma DoubleWords(cc: Flags, x: u8, carryIn: nat)
    requires carryIn <= 1
    ensures
      var wide := 2 * x + carryIn;
      var r := wide % 0x100;
      Result(r, cc.(n := Bit(r, 7), z := r == 0, v := Bit(Xor(x, r), 7), c := Mask(wide, 8) != 0))
        == Doubled(cc, x, carryIn)
  {
    hide Bit, And, Xor;
    DoubleOverflow(x, carryIn);
    DoubleCarry(x, carryIn);
    SignBit((2 * x + carryIn) % 0x100);
  }

  lemma SubWords(cc: Flags, x: u8, y: u8, borrowIn: nat)
    requires borrowIn <= 1
    ensures
      var wide := Wrap32(x - y - borrowIn);
      var r := wide % 0x100;
      Result(r, cc.(n := Bit(r, 7), z := r == 0, v := Bit(And(Xor(x, y), Xor(x, r)), 7), c := Mask(wide, 8) != 0))
        == SubBytes(cc, x, y, borrowIn)
  {
    hide Bit, And, Xor;
    SubBorrow(x - y - borrowIn);
    SubOverflow(x, y, borrowIn);
    SignBit((x - y - borrowIn) % 0x100);
  }

  lemma AddWords16(cc: Flags, x: u16, y: u16)
    ensures
      var sum := x + y;
      var r := sum % 0x1_0000;
      var word := And(Xor(x, r), Xor(y, r)) / 0x100;
      Result16(r, cc.(n := Bit(r / 0x100, 7), z := r == 0, v := Bit(word, 7), c := Mask(sum, 16) != 0))
        == AluWide(ADDW, cc, x, y)
  {
    hide Bit, And, Xor;
    AddOverflow16(x, y);
    AddCarry16(x + y);
    SignBit((x + y) % 0x1_0000 / 0x100);
  }

  lemma SubWords16(cc: Flags, x: u16, y: u16)
    ensures
      var wide := Wrap32(x - y);
      var r := wide % 0x1_0000;
      var word := And(Xor(x, y), Xor(x, r)) / 0x100;
      Result16(r, cc.(n := Bit(r / 0x100, 7), z := r == 0, v := Bit(word, 7), c := Mask(wide, 16) != 0))
        == AluWide(SUBW, cc, x, y)
  {
    hide Bit, And, Xor;
    SubOverflow16(x, y);
    SubBorrow16(x - y);
    SignBit((x - y) % 0x1_0000 / 0x100);
  }

  // ---------------------------------------------------------------- the condition code byte

  lemma CcByteBit(cc: Flags, k: nat)
    requires k < 8
    ensures Bit(CcByte(cc), k) == BitsOf(cc)[k]
  {
    NumberBits(BitsOf(cc), k);
  }

  lemma ByteIsCc(byte: nat, cc: Flags)
    requires byte < 0x100
    requires forall k | 0 <= k < 8 :: Bit(byte, k) == BitsOf(cc)[k]
    ensures byte == CcByte(cc)
  {
    Powers();
    NumberOfBits(byte, BitsOf(cc));
  }

  /** Splitting a condition code byte into flags and packing it again gives the byte back. */
  lemma PackUnpack(byte: u8)
    ensures CcByte(CcOf(byte)) == byte
  {
    hide Bit, And, Xor;
    ByteIsCc(byte, CcOf(byte));
  }

  /** Packing flags and splitting the byte gives the flags back. */
  lemma UnpackPack(cc: Flags)
    ensures CcOf(CcByte(cc)) == cc
  {
    CcByteBit(cc, 0); CcByteBit(cc, 1); CcByteBit(cc, 2); CcByteBit(cc, 3);
    CcByteBit(cc, 4); CcByteBit(cc, 5); CcByteBit(cc, 6); CcByteBit(cc, 7);
  }

  /** A one-bit mask has that bit and no other. */
  lemma {:induction false} OneBit(j: nat, k: nat)
    ensures Bit(Pow2(j), k) == (j == k)
    decreases k
  {
    if j > 0 && k > 0 { OneBit(j - 1, k - 1); }
    assert j > 0 ==> Pow2(j) / 2 == Pow2(j - 1);
    if k > 0 && j == 0 { assert Pow2(0) / 2 == 0; }
  }

  /** `if (flag) res |= mask` adds one bit. */
  lemma OrIf(word: nat, flag: bool, j: nat, k: nat)
    ensures Bit(if flag then Or(word, Pow2(j)) else word, k) == (Bit(word, k) || (flag && j == k))
  {
    OrBit(word, Pow2(j), k);
    OneBit(j, k);
  }

  /** EFI holds no bit besides E, F and I. */
  predicate OnlyEfi(efi: nat) {
    efi < 0x100 && !Bit(efi, 0) && !Bit(efi, 1) && !Bit(efi, 2) && !Bit(efi, 3) && !Bit(efi, 5)
  }

  lemma EfiMask(word: nat, k: nat)
    requires k < 8
    ensures Bit(And(word, 0xd0), k) == (Bit(word, k) && (k == 4 || k == 6 || k == 7))
  {
    hide And, Bit;
    AndBit(word, 0xd0, k);
    EfiMaskBits(k);
  }

  lemma EfiMaskBits(k: nat)
    requires k < 8
    ensures Bit(0xd0, k) == (k == 4 || k == 6 || k == 7)
  {
    BitDouble(0x68, 0, k);
    if k > 0 { BitDouble(0x34, 0, k - 1); }
    if k > 1 { BitDouble(0x1a, 0, k - 2); }
    if k > 2 { BitDouble(0x0d, 0, k - 3); }
    if k > 3 { BitDouble(6, 1, k - 4); }
    if k > 4 { BitDouble(3, 0, k - 5); }
    if k > 5 { BitDouble(1, 1, k - 6); }
    if k > 6 { BitDouble(0, 1, k - 7); }
  }

  lemma EfiOf(arg: u8)
    ensures OnlyEfi(And(arg, 0xd0))
    ensures Bit(And(arg, 0xd0), 4) == Bit(arg, 4)
    ensures Bit(And(arg, 0xd0), 6) == Bit(arg, 6)
    ensures Bit(And(arg, 0xd0), 7) == Bit(arg, 7)
  {
    OpsBelow(arg, 0xd0, 8);
    Powers();
    EfiMask(arg, 0); EfiMask(arg, 1); EfiMask(arg, 2); EfiMask(arg, 3);
    EfiMask(arg, 4); EfiMask(arg, 5); EfiMask(arg, 6); EfiMask(arg, 7);
  }

  /** `if (flag) word |= mask`. */
  function OrWhen(word: nat, flag: bool, mask: nat): nat { if flag then Or(word, mask) else word }

  /** The word `get_cc` assembles. */
  function CcAssembled(efi: nat, w: FlagWords): nat {
    var w1 := OrWhen(And(efi, 0xd0), Bit(w.h, 4), 0x20);
    var w2 := OrWhen(w1, Bit(w.n, 7), 0x08);
    var w3 := OrWhen(w2, w.z == 0, 0x04);
    var w4 := OrWhen(w3, Bit(w.ov, 7), 0x02);
    OrWhen(w4, w.c != 0, 0x01)
  }

  lemma CcAssembledBit(efi: nat, w: FlagWords, k: nat)
    requires efi < 0x100 && k < 8
    ensures CcAssembled(efi, w) < 0x100
    ensures Bit(CcAssembled(efi, w), k) == BitsOf(Meaning(efi, w))[k]
  {
    hide Bit, And, Or, Pow2;
    Powers();
    var cc := Meaning(efi, w);
    var w0 := And(efi, 0xd0);
    var w1 := OrWhen(w0, cc.h, 0x20);
    var w2 := OrWhen(w1, cc.n, 0x08);
    var w3 := OrWhen(w2, cc.z, 0x04);
    var w4 := OrWhen(w3, cc.v, 0x02);
    OpsBelow(efi, 0xd0, 8);
    OpsBelow(w0, 0x20, 8); OpsBelow(w1, 0x08, 8); OpsBelow(w2, 0x04, 8); OpsBelow(w3, 0x02, 8); OpsBelow(w4, 0x01, 8);
    EfiMask(efi, k);
    OrIf(w0, cc.h, 5, k); OrIf(w1, cc.n, 3, k); OrIf(w2, cc.z, 2, k); OrIf(w3, cc.v, 1, k); OrIf(w4, cc.c, 0, k);
  }

  /** It is the condition code byte. */
  lemma CcWord(efi: nat, w: FlagWords)
    requires efi < 0x100
    ensures CcAssembled(efi, w) == CcByte(Meaning(efi, w))
  {
    hide Bit, CcAssembled;
    CcAssembledBit(efi, w, 0);
    forall k | 0 <= k < 8
      ensures Bit(CcAssembled(efi, w), k) == BitsOf(Meaning(efi, w))[k]
    {
      CcAssembledBit(efi, w, k);
    }
    ByteIsCc(CcAssembled(efi, w), Meaning(efi, w));
  }

  /** ORing condition code bytes combines the flags one by one. */
  lemma CcOfOr(cc: Flags, mask: u8)
    ensures Or(CcByte(cc), mask) < 0x100 && CcOf(Or(CcByte(cc), mask)) == OrFlags(cc, CcOf(mask))
  {
    hide Bit, And, Or, CcByte, Pow2;
    var byte := CcByte(cc);
    Powers();
    OpsBelow(byte, mask, 8);
    UnpackPack(cc);
    OrBit(byte, mask, 0); OrBit(byte, mask, 1); OrBit(byte, mask, 2); OrBit(byte, mask, 3);
    OrBit(byte, mask, 4); OrBit(byte, mask, 5); OrBit(byte, mask, 6); OrBit(byte, mask, 7);
  }

  /** And so does ANDing them. */
  lemma CcOfAnd(cc: Flags, mask: u8)
    ensures And(CcByte(cc), mask) < 0x100 && CcOf(And(CcByte(cc), mask)) == AndFlags(cc, CcOf(mask))
  {
    hide Bit, And, Or, CcByte, Pow2;
    var byte := CcByte(cc);
    Powers();
    OpsBelow(byte, mask, 8);
    UnpackPack(cc);
    AndBit(byte, mask, 0); AndBit(byte, mask, 1); AndBit(byte, mask, 2); AndBit(byte, mask, 3);
    AndBit(byte, mask, 4); AndBit(byte, mask, 5); AndBit(byte, mask, 6); AndBit(byte, mask, 7);
  }

  /** `(post ^ (post << 4)) & 0x80`: the top bits of both nibbles, which tell byte registers from words. */
  lemma WidthBits(post: u8)
    ensures Bit(post, 7) == (post / 16 >= 8)
    ensures Bit(post, 3) == (post % 16 >= 8)
  {
    hide Bit, And, Xor;
    SignBit(post);
    BitIsDigit(post, 3);
    assert Pow2(3) == 8;
  }

  lemma LowBit(n: nat)
    ensures Bit(n, 0) == (n % 2 == 1)
  {
  }

  /** The words `set_cc` stores stand for the flags of its argument. */
  lemma CcWords(arg: u8)
    ensures OnlyEfi(And(arg, 0xd0))
    ensures Flags(Bit(And(arg, 0xd0), 7), Bit(And(arg, 0xd0), 6), Bit(if Bit(arg, 5) then 0x10 else 0, 4),
                  Bit(And(arg, 0xd0), 4), Bit(if Bit(arg, 3) then 0x80 else 0, 7),
                  (if Bit(arg, 2) then 0 else 4) == 0, Bit(if Bit(arg, 1) then 0x80 else 0, 7), arg % 2 != 0)
      == CcOf(arg)
  {
    EfiOf(arg);
    LowBit(arg);
    hide Bit, And;
    ConstantBits();
  }

  lemma ConstantBits()
    ensures Bit(0x80, 7) && Bit(0x10, 4) && !Bit(0, 7) && !Bit(0, 4)
  {
  }

  lemma LogicWords(cc: Flags, r: u8)
    ensures cc.(n := Bit(r, 7), z := r == 0, v := Bit(0, 7)) == SetNZ(cc, r, false)
  {
    hide Bit, And, Xor;
    SignBit(r); SignBit(0);
  }

  lemma NegWords(cc: Flags, x: u8)
    ensures
      var r := (0 - x) % 0x100;
      Result(r, cc.(n := Bit(r, 7), z := r == 0, v := Bit(And(r, x), 7), c := r != 0)) == Unary(NEG, cc, x)
  {
    hide Bit, And, Xor;
    NegOverflow(x);
    SignBit((0 - x) % 0x100);
  }

  /** DAA: the sum it builds in steps and the carry it keeps. */
  lemma DaaWords(cc: Flags, a: u8, c: nat, sum: nat)
    requires cc.c == (c != 0)
    requires sum == a + (if a % 16 > 9 || cc.h then 6 else 0) + (if a / 16 * 16 > 0x80 && a % 16 > 9 then 0x60 else 0)
                      + (if a / 16 * 16 > 0x90 || c != 0 then 0x60 else 0)
    ensures
      var r := sum % 0x100;
      Result(r, cc.(n := Bit(r, 7), z := r == 0, v := Bit(0, 7), c := Or(c, Mask(sum, 8)) != 0)) == DecimalAdjust(cc, a)
  {
    hide Bit, Or;
    OrCarry(c, sum);
    LogicWords(cc, sum % 0x100);
  }

  /** The word with the chosen ones of E, F and I. */
  lemma EfiWord(e: bool, f: bool, i: bool)
    ensures
      var word := 0x80 * Digit(e) + 0x40 * Digit(f) + 0x10 * Digit(i);
      OnlyEfi(word) && Bit(word, 7) == e && Bit(word, 6) == f && Bit(word, 4) == i
  {
    var bits := [false, false, false, false, i, false, f, e];
    NumberBits(bits, 0); NumberBits(bits, 1); NumberBits(bits, 2); NumberBits(bits, 3);
    NumberBits(bits, 4); NumberBits(bits, 5); NumberBits(bits, 6); NumberBits(bits, 7);
    Powers();
    EightDigits(bits);
  }

  lemma EightDigits(bits: seq<bool>)
    requires |bits| == 8
    ensures Number(bits) == Digit(bits[0]) + 2 * Digit(bits[1]) + 4 * Digit(bits[2]) + 8 * Digit(bits[3])
                            + 0x10 * Digit(bits[4]) + 0x20 * Digit(bits[5])
                            + 0x40 * Digit(bits[6]) + 0x80 * Digit(bits[7])
  {
    FourDigits(bits);
    FourDigits(bits[4..]);
    assert bits[4..][4..] == [];
  }

  lemma FourDigits(bits: seq<bool>)
    requires |bits| >= 4
    ensures Number(bits) == Digit(bits[0]) + 2 * Digit(bits[1]) + 4 * Digit(bits[2]) + 8 * Digit(bits[3])
      + 0x10 * Number(bits[4..])
  {
    var b1, b2, b3 := bits[1..], bits[2..], bits[3..];
    assert b1[1..] == b2 && b2[1..] == b3 && b3[1..] == bits[4..];
  }

  /** `write_stack16` after lowering the pointer by two is a 16-bit push. */
  lemma Push16Order(m: State, stk: Stk, v: u16)
    ensures
      var addr := Wrap16(Sp(m, stk) - 2);
      Push16(m, stk, v) == SetSp(m, stk, addr).Write8(Wrap16(addr + 1), Lo(v)).Write8(addr, Hi(v))
  {
    assert Wrap16(Wrap16(Sp(m, stk) - 1) - 1) == Wrap16(Sp(m, stk) - 2);
    assert Wrap16(Wrap16(Sp(m, stk) - 2) + 1) == Wrap16(Sp(m, stk) - 1);
  }

  /** The `cond_*` macros, on the flag words. */
  predicate CondWords(cond: Cond, w: FlagWords) {
    match cond
    case RA => true
    case RN => false
    case HI => w.z != 0 && w.c == 0
    case LS => w.z == 0 || w.c != 0
    case HS => w.c == 0
    case LO => w.c != 0
    case NE => w.z != 0
    case EQ => w.z == 0
    case VC => !Bit(w.ov, 7)
    case VS => Bit(w.ov, 7)
    case PL => !Bit(w.n, 7)
    case MI => Bit(w.n, 7)
    case GE => !Bit(Xor(w.n, w.ov), 7)
    case LT => Bit(Xor(w.n, w.ov), 7)
    case GT => !Bit(Xor(w.n, w.ov), 7) && w.z != 0
    case LE => Bit(Xor(w.n, w.ov), 7) || w.z == 0
  }

  /** They decide the reference conditions. */
  lemma CondMeaning(cond: Cond, efi: nat, w: FlagWords)
    ensures CondWords(cond, w) == Holds(cond, Meaning(efi, w))
  {
    XorBit(w.n, w.ov, 7);
    hide Bit, Xor;
  }

  /** A five-bit offset, sign-extended by OR. */
  lemma ShortOffset(r: u16, post: u8)
    ensures
      Wrap16(r + if post / 16 % 2 == 1 then 0xfff0 + post % 16 else post % 16)
        == Wrap16(r + if post % 32 >= 16 then post % 32 - 32 else post % 32)
  {
    assert post % 32 == post / 16 % 2 * 16 + post % 16;
  }

  lemma ExtensionOfShort(post: u8)
    ensures post < 0x80 ==> ExtensionLen(post) == 0 && ValidPost(post)
  {
  }
}
