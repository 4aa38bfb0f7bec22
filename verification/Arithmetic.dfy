/**
 What programs build from byte arithmetic: numbers of any length, order tests
 after a comparison, and packed decimal addition.
 */
module Arithmetic {
  import opened Words
  import opened Bits
  import opened Reference

  // ---------------------------------------------------------------- order after a comparison

  /** After CMP or SUB every branch condition decides the order its name says. */
  lemma CompareDecides(cc: Flags, x: u8, y: u8)
    ensures
      var f := Alu8(CMP, cc, x, y).cc;
      && (Holds(EQ, f) <==> x == y) && (Holds(NE, f) <==> x != y)
      && (Holds(HI, f) <==> x > y) && (Holds(LS, f) <==> x <= y)
      && (Holds(HS, f) <==> x >= y) && (Holds(LO, f) <==> x < y)
      && (Holds(GT, f) <==> S8(x) > S8(y)) && (Holds(LE, f) <==> S8(x) <= S8(y))
      && (Holds(GE, f) <==> S8(x) >= S8(y)) && (Holds(LT, f) <==> S8(x) < S8(y))
  {
    hide S8, Alu8;
    CompareFlags(cc, x, y);
    SignOfDifference(x, y, 0);
    DifferenceZero(x, y);
  }

  lemma CompareFlags(cc: Flags, x: u8, y: u8)
    ensures
      var f, r := Alu8(CMP, cc, x, y).cc, (x - y) % 0x100;
      f.c == (x < y) && f.z == (r == 0) && f.n == (r >= 0x80) && f.v == !(-0x80 <= S8(x) - S8(y) < 0x80)
  {
    hide S8;
  }

  lemma DifferenceZero(x: u8, y: u8)
    ensures (x - y) % 0x100 == 0 <==> x == y
    ensures S8(x) == S8(y) <==> x == y
  {
  }

  /** The sign flag corrected by the overflow flag is the sign of the true difference. */
  lemma SignOfDifference(x: u8, y: u8, borrow: nat)
    requires borrow <= 1
    ensures
      var d := S8(x) - S8(y) - borrow;
      var r := (x - y - borrow) % 0x100;
      (r >= 0x80) != !(-0x80 <= d < 0x80) <==> d < 0
  {
  }

  /** And after CMPD, CMPX, CMPY, CMPU, CMPS or SUBD. */
  lemma CompareWideDecides(cc: Flags, x: u16, y: u16, wide: Alu16)
    requires wide.CMPW? || wide.SUBW?
    ensures
      var f := AluWide(wide, cc, x, y).cc;
      && (Holds(EQ, f) <==> x == y) && (Holds(NE, f) <==> x != y)
      && (Holds(HI, f) <==> x > y) && (Holds(LS, f) <==> x <= y)
      && (Holds(HS, f) <==> x >= y) && (Holds(LO, f) <==> x < y)
      && (Holds(GT, f) <==> S16(x) > S16(y)) && (Holds(LE, f) <==> S16(x) <= S16(y))
      && (Holds(GE, f) <==> S16(x) >= S16(y)) && (Holds(LT, f) <==> S16(x) < S16(y))
  {
    hide S16, AluWide;
    CompareWideFlags(cc, x, y, wide);
    SignOfDifference16(x, y);
    DifferenceZero16(x, y);
  }

  lemma CompareWideFlags(cc: Flags, x: u16, y: u16, wide: Alu16)
    requires wide.CMPW? || wide.SUBW?
    ensures
      var f, r := AluWide(wide, cc, x, y).cc, (x - y) % 0x1_0000;
      f.c == (x < y) && f.z == (r == 0) && f.n == (r >= 0x8000) && f.v == !(-0x8000 <= S16(x) - S16(y) < 0x8000)
  {
    hide S16;
  }

  lemma DifferenceZero16(x: u16, y: u16)
    ensures (x - y) % 0x1_0000 == 0 <==> x == y
    ensures S16(x) == S16(y) <==> x == y
  {
    assert (x - y) % 0x1_0000 == if x >= y then x - y else x - y + 0x1_0000;
  }

  lemma SignOfDifference16(x: u16, y: u16)
    ensures
      var d := S16(x) - S16(y);
      var r := (x - y) % 0x1_0000;
      (r >= 0x8000) != !(-0x8000 <= d < 0x8000) <==> d < 0
  {
  }

  // ---------------------------------------------------------------- numbers of n bytes

  /** The value of bytes, least significant first. */
  function Val(bs: seq<u8>): nat { if bs == [] then 0 else bs[0] + 0x100 * Val(bs[1..]) }

  /** Their value as a two's complement number. */
  function Signed(bs: seq<u8>): int
    requires bs != []
  {
    if |bs| == 1 then S8(bs[0]) else bs[0] + 0x100 * Signed(bs[1..])
  }

  function Pow256(n: nat): (r: nat)
    ensures r > 0
  {
    if n == 0 then 1 else 0x100 * Pow256(n - 1)
  }

  /** Half the range of n-byte numbers. */
  function HalfRange(n: nat): int
    requires n > 0
  {
    if n == 1 then 0x80 else 0x100 * HalfRange(n - 1)
  }

  datatype Chain = Chain(bytes: seq<u8>, cc: Flags)

  /** LDA x; op y */
  function LoadedOp(op: Alu, cc: Flags, x: u8, y: u8): Result { Alu8(op, SetNZ(cc, x, false), x, y) }

  /**
   * LDA x; op y; STA for each byte from the least significant up: `first` on the
   * lowest byte, `more` on the others. The final flags are those of the last op.
   */
  function RunChain(first: Alu, more: Alu, cc: Flags, xs: seq<u8>, ys: seq<u8>): Chain
    requires |xs| == |ys| && xs != []
    decreases |xs|
  {
    var r := LoadedOp(first, cc, xs[0], ys[0]);
    if |xs| == 1 then Chain([r.val], r.cc)
    else
      var stored := SetNZ(r.cc, r.val, false);
      var rest := RunChain(more, more, stored, xs[1..], ys[1..]);
      Chain([r.val] + rest.bytes, rest.cc)
  }

  /** The borrow or carry that the first operation of a chain consumes. */
  function CarryInto(first: Alu, cc: Flags): nat { if first.ADC? || first.SBC? then Digit(cc.c) else 0 }

  /** 256^n if the carry is set: what the carry stands for. */
  function CarryValue(c: bool, n: nat): nat { if c then Pow256(n) else 0 }

  /** n bytes and their flags are the difference d, unsigned d0, of two n-byte numbers. */
  predicate IsDifference(n: nat, ch: Chain, d0: int, d: int)
    requires n > 0
  {
    && |ch.bytes| == n
    && d0 == Val(ch.bytes) - CarryValue(ch.cc.c, n)
    && (ch.cc.v <==> !(-HalfRange(n) <= d < HalfRange(n)))
    && ((ch.cc.n != ch.cc.v) <==> d < 0)
  }

  lemma DifferenceStep(n: nat, r: u8, c: bool, ch: Chain, low: int, d0: int, d: int)
    requires n > 0 && low == r - 0x100 * Digit(c)
    requires IsDifference(n, ch, d0 - Digit(c), d - Digit(c))
    ensures IsDifference(n + 1, Chain([r] + ch.bytes, ch.cc), low + 0x100 * d0, low + 0x100 * d)
  {
    assert ([r] + ch.bytes)[1..] == ch.bytes;
  }

  /** The first operation of such a chain, and the borrow it leaves through STA and LDA for the next one. */
  lemma SubOp(first: Alu, cc: Flags, x: u8, y: u8)
    requires first.SUB? || first.SBC?
    ensures
      var b := CarryInto(first, cc);
      var r := LoadedOp(first, cc, x, y);
      var d := S8(x) - S8(y) - b;
      && x - y - b == r.val - 0x100 * Digit(r.cc.c)
      && (r.cc.v <==> !(-0x80 <= d < 0x80))
      && ((r.cc.n != r.cc.v) <==> d < 0)
      && CarryInto(SBC, SetNZ(r.cc, r.val, false)) == Digit(r.cc.c)
  {
    hide SubBytes, S8;
    var b := CarryInto(first, cc);
    assert LoadedOp(first, cc, x, y) == SubBytes(SetNZ(cc, x, false), x, y, b);
    hide LoadedOp;
    SubByteDiffers(SetNZ(cc, x, false), x, y, b);
  }

  lemma {:induction false} SubChainDiffers(first: Alu, cc: Flags, xs: seq<u8>, ys: seq<u8>)
    requires |xs| == |ys| && xs != [] && (first.SUB? || first.SBC?)
    ensures
      var b := CarryInto(first, cc);
      IsDifference(|xs|, RunChain(first, SBC, cc, xs, ys), Val(xs) - Val(ys) - b, Signed(xs) - Signed(ys) - b)
    decreases |xs|
  {
    hide S8, LoadedOp, SetNZ, CarryInto, RunChain, IsDifference, Val, Signed;
    if |xs| > 1 {
      var r := LoadedOp(first, cc, xs[0], ys[0]);
      SubChainDiffers(SBC, SetNZ(r.cc, r.val, false), xs[1..], ys[1..]);
      SubMore(first, cc, xs, ys);
    } else {
      SubOne(first, cc, xs, ys);
    }
  }

  lemma SubOne(first: Alu, cc: Flags, xs: seq<u8>, ys: seq<u8>)
    requires |xs| == |ys| == 1 && (first.SUB? || first.SBC?)
    ensures
      var b := CarryInto(first, cc);
      IsDifference(1, RunChain(first, SBC, cc, xs, ys), Val(xs) - Val(ys) - b, Signed(xs) - Signed(ys) - b)
  {
    hide S8, LoadedOp, SetNZ, CarryInto, Val, Signed, RunChain;
    SubOp(first, cc, xs[0], ys[0]);
    var r := LoadedOp(first, cc, xs[0], ys[0]);
    ChainOfOne(first, SBC, cc, xs, ys);
    OneByte(xs[0]); OneByte(ys[0]); OneByte(r.val);
    assert xs == [xs[0]] && ys == [ys[0]];
  }

  lemma SubMore(first: Alu, cc: Flags, xs: seq<u8>, ys: seq<u8>)
    requires |xs| == |ys| > 1 && (first.SUB? || first.SBC?)
    requires
      var r := LoadedOp(first, cc, xs[0], ys[0]);
      var stored, tx, ty := SetNZ(r.cc, r.val, false), xs[1..], ys[1..];
      var c := CarryInto(SBC, stored);
      IsDifference(|tx|, RunChain(SBC, SBC, stored, tx, ty), Val(tx) - Val(ty) - c, Signed(tx) - Signed(ty) - c)
    ensures
      var b := CarryInto(first, cc);
      IsDifference(|xs|, RunChain(first, SBC, cc, xs, ys), Val(xs) - Val(ys) - b, Signed(xs) - Signed(ys) - b)
  {
    hide S8, LoadedOp, SetNZ, CarryInto, IsDifference, Val, Signed, RunChain;
    SubOp(first, cc, xs[0], ys[0]);
    var r, tx, ty := LoadedOp(first, cc, xs[0], ys[0]), xs[1..], ys[1..];
    var rest := RunChain(SBC, SBC, SetNZ(r.cc, r.val, false), tx, ty);
    ChainUnfolds(first, SBC, cc, xs, ys);
    HeadAndTail(xs);
    HeadAndTail(ys);
    assert CarryInto(SBC, SetNZ(r.cc, r.val, false)) == Digit(r.cc.c);
    hide CarryInto, Digit;
    var b: int := CarryInto(first, cc);
    var low: int, high: int, top: int := xs[0] as int - ys[0] - b, Val(tx) as int - Val(ty), Signed(tx) - Signed(ty);
    assert Val(xs) - Val(ys) - b == low + 0x100 * high && Signed(xs) - Signed(ys) - b == low + 0x100 * top;
    DifferenceStep(|tx|, r.val, r.cc.c, rest, low, high, top);
  }

  lemma ChainUnfolds(first: Alu, next: Alu, cc: Flags, xs: seq<u8>, ys: seq<u8>)
    requires |xs| == |ys| > 1
    ensures
      var r := LoadedOp(first, cc, xs[0], ys[0]);
      var rest := RunChain(next, next, SetNZ(r.cc, r.val, false), xs[1..], ys[1..]);
      RunChain(first, next, cc, xs, ys) == Chain([r.val] + rest.bytes, rest.cc)
  {
    hide LoadedOp, SetNZ;
  }

  lemma HeadAndTail(xs: seq<u8>)
    requires |xs| > 1
    ensures Val(xs) == xs[0] + 0x100 * Val(xs[1..]) && Signed(xs) == xs[0] + 0x100 * Signed(xs[1..])
  {
  }

  lemma ChainOfOne(first: Alu, next: Alu, cc: Flags, xs: seq<u8>, ys: seq<u8>)
    requires |xs| == |ys| == 1
    ensures var r := LoadedOp(first, cc, xs[0], ys[0]); RunChain(first, next, cc, xs, ys) == Chain([r.val], r.cc)
  {
    hide LoadedOp, SetNZ;
  }

  lemma OneByte(x: u8)
    ensures Val([x]) == x && Signed([x]) == S8(x) && Pow256(1) == 0x100
  {
  }

  lemma SubByteDiffers(cc: Flags, x: u8, y: u8, b: nat)
    requires b <= 1
    ensures
      var r := SubBytes(cc, x, y, b);
      var d := S8(x) - S8(y) - b;
      && x - y - b == r.val - 0x100 * Digit(r.cc.c)
      && (r.cc.v <==> !(-0x80 <= d < 0x80))
      && ((r.cc.n != r.cc.v) <==> d < 0)
  {
    SignOfDifference(x, y, b);
    hide S8;
  }

  /** For every length: SUB then SBC subtracts n-byte numbers modulo 256^n, and the final flags order them. */
  lemma SubChainSubtracts(cc: Flags, xs: seq<u8>, ys: seq<u8>)
    requires |xs| == |ys| && xs != []
    ensures
      var ch := RunChain(SUB, SBC, cc, xs, ys);
      && |ch.bytes| == |xs|
      && Val(ch.bytes) == (Val(xs) - Val(ys)) % Pow256(|xs|)
      && (Holds(LO, ch.cc) <==> Val(xs) < Val(ys))
      && (Holds(HS, ch.cc) <==> Val(xs) >= Val(ys))
      && (Holds(VS, ch.cc) <==> !(-HalfRange(|xs|) <= Signed(xs) - Signed(ys) < HalfRange(|xs|)))
      && (Holds(LT, ch.cc) <==> Signed(xs) < Signed(ys))
      && (Holds(GE, ch.cc) <==> Signed(xs) >= Signed(ys))
  {
    hide RunChain, Signed, Val, Pow256, HalfRange;
    SubChainDiffers(SUB, cc, xs, ys);
    var ch := RunChain(SUB, SBC, cc, xs, ys);
    ValBelow(ch.bytes); ValBelow(xs); ValBelow(ys);
    ModIs(Val(xs) - Val(ys), Pow256(|xs|), if ch.cc.c then -1 else 0, Val(ch.bytes));
  }

  lemma {:induction false} ValBelow(bs: seq<u8>)
    ensures Val(bs) < Pow256(|bs|)
  {
    if bs != [] { ValBelow(bs[1..]); }
  }

  lemma ModIs(n: int, p: nat, k: int, r: nat)
    requires p > 0 && r < p && n == k * p + r
    ensures n % p == r
  {
    var t := n / p - k;
    assert n == p * (n / p) + n % p;
    assert p * t == r - n % p by { assert p * t == p * (n / p) - k * p; }
    assert t >= 1 ==> p * t >= p;
    assert t <= -1 ==> p * t + p <= 0;
  }

  lemma SignOfSum(x: u8, y: u8, carry: nat)
    requires carry <= 1
    ensures
      var d := S8(x) + S8(y) + carry;
      var r := (x + y + carry) % 0x100;
      (r >= 0x80) != !(-0x80 <= d < 0x80) <==> d < 0
  {
  }

  lemma AddByteAdds(cc: Flags, x: u8, y: u8, c: nat)
    requires c <= 1
    ensures
      var r := AddBytes(cc, x, y, c);
      var d := S8(x) + S8(y) + c;
      && x + y + c == r.val + 0x100 * Digit(r.cc.c)
      && (r.cc.v <==> !(-0x80 <= d < 0x80))
      && ((r.cc.n != r.cc.v) <==> d < 0)
  {
    SignOfSum(x, y, c);
    hide S8;
  }

  /** n bytes and their flags are the sum d, unsigned d0, of two n-byte numbers. */
  predicate IsSum(n: nat, ch: Chain, d0: int, d: int)
    requires n > 0
  {
    && |ch.bytes| == n
    && d0 == Val(ch.bytes) + CarryValue(ch.cc.c, n)
    && (ch.cc.v <==> !(-HalfRange(n) <= d < HalfRange(n)))
    && ((ch.cc.n != ch.cc.v) <==> d < 0)
  }

  lemma SumStep(n: nat, r: u8, c: bool, ch: Chain, low: int, d0: int, d: int)
    requires n > 0 && low == r + 0x100 * Digit(c)
    requires IsSum(n, ch, d0 + Digit(c), d + Digit(c))
    ensures IsSum(n + 1, Chain([r] + ch.bytes, ch.cc), low + 0x100 * d0, low + 0x100 * d)
  {
    assert ([r] + ch.bytes)[1..] == ch.bytes;
  }

  /** The first operation of such a chain, and the carry it leaves through STA and LDA for the next one. */
  lemma AddOp(first: Alu, cc: Flags, x: u8, y: u8)
    requires first.ADD? || first.ADC?
    ensures
      var b := CarryInto(first, cc);
      var r := LoadedOp(first, cc, x, y);
      var d := S8(x) + S8(y) + b;
      && x + y + b == r.val + 0x100 * Digit(r.cc.c)
      && (r.cc.v <==> !(-0x80 <= d < 0x80))
      && ((r.cc.n != r.cc.v) <==> d < 0)
      && CarryInto(ADC, SetNZ(r.cc, r.val, false)) == Digit(r.cc.c)
  {
    hide AddBytes, S8;
    var b := CarryInto(first, cc);
    assert LoadedOp(first, cc, x, y) == AddBytes(SetNZ(cc, x, false), x, y, b);
    hide LoadedOp;
    AddByteAdds(SetNZ(cc, x, false), x, y, b);
  }

  lemma {:induction false} AddChainSums(first: Alu, cc: Flags, xs: seq<u8>, ys: seq<u8>)
    requires |xs| == |ys| && xs != [] && (first.ADD? || first.ADC?)
    ensures
      var b := CarryInto(first, cc);
      IsSum(|xs|, RunChain(first, ADC, cc, xs, ys), Val(xs) + Val(ys) + b, Signed(xs) + Signed(ys) + b)
    decreases |xs|
  {
    hide S8, LoadedOp, SetNZ, CarryInto, RunChain, IsSum, Val, Signed;
    if |xs| > 1 {
      var r := LoadedOp(first, cc, xs[0], ys[0]);
      AddChainSums(ADC, SetNZ(r.cc, r.val, false), xs[1..], ys[1..]);
      AddMore(first, cc, xs, ys);
    } else {
      AddOne(first, cc, xs, ys);
    }
  }

  lemma AddOne(first: Alu, cc: Flags, xs: seq<u8>, ys: seq<u8>)
    requires |xs| == |ys| == 1 && (first.ADD? || first.ADC?)
    ensures
      var b := CarryInto(first, cc);
      IsSum(1, RunChain(first, ADC, cc, xs, ys), Val(xs) + Val(ys) + b, Signed(xs) + Signed(ys) + b)
  {
    hide S8, LoadedOp, SetNZ, CarryInto, Val, Signed, RunChain;
    AddOp(first, cc, xs[0], ys[0]);
    var r := LoadedOp(first, cc, xs[0], ys[0]);
    ChainOfOne(first, ADC, cc, xs, ys);
    OneByte(xs[0]); OneByte(ys[0]); OneByte(r.val);
    assert xs == [xs[0]] && ys == [ys[0]];
  }

  lemma AddMore(first: Alu, cc: Flags, xs: seq<u8>, ys: seq<u8>)
    requires |xs| == |ys| > 1 && (first.ADD? || first.ADC?)
    requires
      var r := LoadedOp(first, cc, xs[0], ys[0]);
      var stored, tx, ty := SetNZ(r.cc, r.val, false), xs[1..], ys[1..];
      var c := CarryInto(ADC, stored);
      IsSum(|tx|, RunChain(ADC, ADC, stored, tx, ty), Val(tx) + Val(ty) + c, Signed(tx) + Signed(ty) + c)
    ensures
      var b := CarryInto(first, cc);
      IsSum(|xs|, RunChain(first, ADC, cc, xs, ys), Val(xs) + Val(ys) + b, Signed(xs) + Signed(ys) + b)
  {
    hide S8, LoadedOp, SetNZ, CarryInto, IsSum, Val, Signed, RunChain;
    AddOp(first, cc, xs[0], ys[0]);
    var r, tx, ty := LoadedOp(first, cc, xs[0], ys[0]), xs[1..], ys[1..];
    var rest := RunChain(ADC, ADC, SetNZ(r.cc, r.val, false), tx, ty);
    ChainUnfolds(first, ADC, cc, xs, ys);
    HeadAndTail(xs);
    HeadAndTail(ys);
    assert CarryInto(ADC, SetNZ(r.cc, r.val, false)) == Digit(r.cc.c);
    hide CarryInto, Digit;
    var b: int := CarryInto(first, cc);
    var low: int, high: int, top: int := xs[0] as int + ys[0] + b, Val(tx) as int + Val(ty), Signed(tx) + Signed(ty);
    assert Val(xs) + Val(ys) + b == low + 0x100 * high && Signed(xs) + Signed(ys) + b == low + 0x100 * top;
    SumStep(|tx|, r.val, r.cc.c, rest, low, high, top);
  }

  /** For every length: ADD then ADC adds n-byte numbers, with the n-byte carry and signed overflow in C and V. */
  lemma AddChainAdds(cc: Flags, xs: seq<u8>, ys: seq<u8>)
    requires |xs| == |ys| && xs != []
    ensures
      var ch := RunChain(ADD, ADC, cc, xs, ys);
      && |ch.bytes| == |xs|
      && Val(ch.bytes) == (Val(xs) + Val(ys)) % Pow256(|xs|)
      && (ch.cc.c <==> Val(xs) + Val(ys) >= Pow256(|xs|))
      && (ch.cc.v <==> !(-HalfRange(|xs|) <= Signed(xs) + Signed(ys) < HalfRange(|xs|)))
  {
    hide RunChain, Signed, Val, Pow256, HalfRange;
    AddChainSums(ADD, cc, xs, ys);
    var ch := RunChain(ADD, ADC, cc, xs, ys);
    ValBelow(ch.bytes);
    ModIs(Val(xs) + Val(ys), Pow256(|xs|), Digit(ch.cc.c), Val(ch.bytes));
  }

  // ---------------------------------------------------------------- packed decimal

  predicate IsBcd(x: u8) { x / 16 <= 9 && x % 16 <= 9 }

  function Decimal(x: u8): nat { 10 * (x / 16) + x % 16 }

  /** Both nibbles of the binary sum are above 9: the case in which DAA adds 0x60 twice. */
  predicate DoubleAdjust(x: u8, y: u8, carry: nat)
    requires carry <= 1
  {
    var sum := (x + y + carry) % 0x100;
    sum / 16 > 9 && sum % 16 > 9
  }

  function AddDecimal(cc: Flags, x: u8, y: u8, carry: nat): Result
    requires carry <= 1
  {
    var r := AddBytes(cc, x, y, carry);
    DecimalAdjust(r.cc, r.val)
  }

  predicate DecimalRight(cc: Flags, x: u8, y: u8, carry: nat)
    requires carry <= 1
  {
    var r := AddDecimal(cc, x, y, carry);
    IsBcd(r.val) && Decimal(r.val) + 100 * Digit(r.cc.c) == Decimal(x) + Decimal(y) + carry
  }

  /** What DAA makes of a sum byte with digits s1 and s0. */
  lemma AdjustDigits(cc: Flags, s1: nat, s0: nat)
    requires s1 < 16 && s0 < 16
    ensures
      var low := if s0 > 9 || cc.h then 6 else 0;
      var mid := if s1 > 8 && s0 > 9 then 6 else 0;
      var high := if s1 > 9 || cc.c then 6 else 0;
      var sum := 16 * (s1 + mid + high) + s0 + low;
      var r := DecimalAdjust(cc, 16 * s1 + s0);
      r.val == sum % 0x100 && r.cc.c == (cc.c || sum / 0x100 % 2 == 1)
  {
    assert (16 * s1 + s0) / 16 == s1 && (16 * s1 + s0) % 16 == s0;
  }

  /** ADD and ADC of digit pairs: lo and hi are the sums of the low and high digits. */
  lemma SumDigits(cc: Flags, x: u8, y: u8, carry: nat, hi: nat, lo: nat)
    requires carry <= 1 && lo == x % 16 + y % 16 + carry && hi == x / 16 + y / 16
    ensures
      var up := Digit(lo >= 16);
      var r := AddBytes(cc, x, y, carry);
      && r.val == 16 * ((hi + up) % 16) + (lo - 16 * up)
      && r.cc.h == (lo >= 16) && r.cc.c == (hi + up >= 16)
  {
    hide S8;
    var up := Digit(lo >= 16);
    assert x + y + carry == 16 * (hi + up) + (lo - 16 * up);
    TwoDigits(hi + up, lo - 16 * up, x + y + carry);
  }

  lemma TwoDigits(high: nat, low: nat, sum: nat)
    requires low < 16 && sum == 16 * high + low && sum < 0x200
    ensures sum % 0x100 == 16 * (high % 16) + low && (sum >= 0x100 <==> high >= 16)
  {
    if high >= 16 { assert high % 16 == high - 16; }
  }

  /** A byte with these digits. */
  lemma BcdOf(v: nat, d1: nat, d0: nat)
    requires d1 < 16 && d0 < 16 && v == 16 * d1 + d0
    ensures v < 0x100 && v / 16 == d1 && v % 16 == d0
  {
  }

  /**
   * ADD or ADC followed by DAA adds packed decimal bytes, and is 60 too high in the
   * doubled case, with the same carry.
   */
  lemma DaaAdds(cc: Flags, x: u8, y: u8, carry: nat)
    requires IsBcd(x) && IsBcd(y) && carry <= 1
    ensures
      var r := AddDecimal(cc, x, y, carry);
      && (!DoubleAdjust(x, y, carry) ==> IsBcd(r.val))
      && Decimal(r.val) + 100 * Digit(r.cc.c) == Decimal(x) + Decimal(y) + carry + Excess(x, y, carry)
  {
    hide AddBytes, DecimalAdjust, IsBcd, Decimal, DoubleAdjust;
    var lo := x % 16 + y % 16 + carry;
    var hi := x / 16 + y / 16;
    OperandDigits(x, y, carry);
    SumDigits(cc, x, y, carry, hi, lo);
    DoubledDigits(cc, x, y, carry);
    var up := Digit(lo >= 16);
    var sum := AddBytes(cc, x, y, carry);
    AdjustDigits(sum.cc, (hi + up) % 16, lo - 16 * up);
    var r := AddDecimal(cc, x, y, carry);
    hide AddDecimal;
    AdjustedDigits(hi, lo, r.val, r.cc.c);
  }

  lemma OperandDigits(x: u8, y: u8, carry: nat)
    requires IsBcd(x) && IsBcd(y) && carry <= 1
    ensures
      var hi, lo := x / 16 + y / 16, x % 16 + y % 16 + carry;
      hi <= 18 && lo <= 19 && Decimal(x) + Decimal(y) + carry == 10 * hi + lo
  {
  }

  lemma DoubledDigits(cc: Flags, x: u8, y: u8, carry: nat)
    requires carry <= 1 && x % 16 + y % 16 + carry <= 19
    ensures
      var hi, lo := x / 16 + y / 16, x % 16 + y % 16 + carry;
      DoubleAdjust(x, y, carry) <==> (hi + Digit(lo >= 16)) % 16 > 9 && lo - 16 * Digit(lo >= 16) > 9
  {
    hide AddBytes;
    var hi, lo := x / 16 + y / 16, x % 16 + y % 16 + carry;
    var up := Digit(lo >= 16);
    SumDigits(cc, x, y, carry, hi, lo);
    SumOfBytes(cc, x, y, carry);
    BcdOf(AddBytes(cc, x, y, carry).val, (hi + up) % 16, lo - 16 * up);
  }

  lemma SumOfBytes(cc: Flags, x: u8, y: u8, carry: nat)
    requires carry <= 1
    ensures AddBytes(cc, x, y, carry).val == (x + y + carry) % 0x100
  {
  }

  /** What the second 0x60 adds to the result, read as decimal digits. */
  function Excess(x: u8, y: u8, carry: nat): nat
    requires carry <= 1
  {
    if DoubleAdjust(x, y, carry) then 60 else 0
  }

  /** So DAA gives the right byte and carry exactly when that case does not arise. */
  lemma DaaExactly(cc: Flags, x: u8, y: u8, carry: nat)
    requires IsBcd(x) && IsBcd(y) && carry <= 1
    ensures DecimalRight(cc, x, y, carry) <==> !DoubleAdjust(x, y, carry)
  {
    DaaAdds(cc, x, y, carry);
    hide AddDecimal, DoubleAdjust, IsBcd, Decimal;
  }

  /** 55 + 55 comes out as 170. */
  lemma DaaExample(cc: Flags)
    ensures AddDecimal(cc, 0x55, 0x55, 0).val == 0x70 && AddDecimal(cc, 0x55, 0x55, 0).cc.c
    ensures !DecimalRight(cc, 0x55, 0x55, 0)
  {
    hide S8;
    var r := AddBytes(cc, 0x55, 0x55, 0);
    assert r.val == 0xaa && !r.cc.h && !r.cc.c;
  }

  /** The adjusted byte v and carry c for digit sums hi and lo, by cases. */
  lemma AdjustedDigits(hi: nat, lo: nat, v: u8, c: bool)
    requires hi <= 18 && lo <= 19
    requires
      var up := Digit(lo >= 16);
      var s1, s0 := (hi + up) % 16, lo - 16 * up;
      var low := if s0 > 9 || lo >= 16 then 6 else 0;
      var mid := if s1 > 8 && s0 > 9 then 6 else 0;
      var high := if s1 > 9 || hi + up >= 16 then 6 else 0;
      var sum := 16 * (s1 + mid + high) + s0 + low;
      v == sum % 0x100 && c == (hi + up >= 16 || sum / 0x100 % 2 == 1)
    ensures
      var doubled := (hi + Digit(lo >= 16)) % 16 > 9 && lo - 16 * Digit(lo >= 16) > 9;
      && (!doubled ==> IsBcd(v))
      && Decimal(v) + 100 * Digit(c) == 10 * hi + lo + if doubled then 60 else 0
  {
    var ones := if lo > 9 then lo - 10 else lo;
    var tens := if lo > 9 then hi + 1 else hi;
    if 9 < lo < 16 && 10 <= hi < 16 {
      AdjustedTwice(hi, lo, v, c);
      BcdOf(v, tens - 4, ones);
    } else {
      var d1 := if tens > 9 then tens - 10 else tens;
      AdjustedOnce(hi, lo, v, c);
      BcdOf(v, d1, ones);
    }
  }

  lemma AdjustedTwice(hi: nat, lo: nat, v: u8, c: bool)
    requires 9 < lo < 16 && 10 <= hi < 16
    requires
      var up := Digit(lo >= 16);
      var s1, s0 := (hi + up) % 16, lo - 16 * up;
      var low := if s0 > 9 || lo >= 16 then 6 else 0;
      var mid := if s1 > 8 && s0 > 9 then 6 else 0;
      var high := if s1 > 9 || hi + up >= 16 then 6 else 0;
      var sum := 16 * (s1 + mid + high) + s0 + low;
      v == sum % 0x100 && c == (hi + up >= 16 || sum / 0x100 % 2 == 1)
    ensures v == 16 * (hi - 3) + lo - 10 && c
  {
    assert 16 * (hi + 12) + lo + 6 == 0x100 + (16 * (hi - 3) + lo - 10);
  }

  lemma AdjustedOnce(hi: nat, lo: nat, v: u8, c: bool)
    requires hi <= 18 && lo <= 19 && !(9 < lo < 16 && 10 <= hi < 16)
    requires
      var up := Digit(lo >= 16);
      var s1, s0 := (hi + up) % 16, lo - 16 * up;
      var low := if s0 > 9 || lo >= 16 then 6 else 0;
      var mid := if s1 > 8 && s0 > 9 then 6 else 0;
      var high := if s1 > 9 || hi + up >= 16 then 6 else 0;
      var sum := 16 * (s1 + mid + high) + s0 + low;
      v == sum % 0x100 && c == (hi + up >= 16 || sum / 0x100 % 2 == 1)
    ensures
      var ones := if lo > 9 then lo - 10 else lo;
      var tens := if lo > 9 then hi + 1 else hi;
      v == 16 * (if tens > 9 then tens - 10 else tens) + ones && c == (tens > 9)
  {
  }

  // ---------------------------------------------------------------- packed decimal numbers

  function DecimalVal(bs: seq<u8>): nat { if bs == [] then 0 else Decimal(bs[0]) + 100 * DecimalVal(bs[1..]) }

  function Pow100(n: nat): nat { if n == 0 then 1 else 100 * Pow100(n - 1) }

  /** The flags that one byte of the chain leaves for the next. */
  function HandedOn(first: Alu, cc: Flags, x: u8, y: u8): Flags {
    var r := LoadedOp(first, cc, x, y);
    var d := DecimalAdjust(r.cc, r.val);
    SetNZ(d.cc, d.val, false)
  }

  /** LDA; ADD or ADC; DAA; STA for each byte from the least significant up. */
  function DecimalChain(first: Alu, cc: Flags, xs: seq<u8>, ys: seq<u8>): Chain
    requires |xs| == |ys|
    decreases |xs|
  {
    if xs == [] then Chain([], cc)
    else
      var r := LoadedOp(first, cc, xs[0], ys[0]);
      var d := DecimalAdjust(r.cc, r.val);
      var rest := DecimalChain(ADC, HandedOn(first, cc, xs[0], ys[0]), xs[1..], ys[1..]);
      Chain([d.val] + rest.bytes, rest.cc)
  }

  /** No byte of the chain meets the case in which DAA adds 0x60 twice. */
  predicate ChainAvoids(first: Alu, cc: Flags, xs: seq<u8>, ys: seq<u8>)
    requires |xs| == |ys|
    decreases |xs|
  {
    xs == [] ||
    (!DoubleAdjust(xs[0], ys[0], CarryInto(first, cc))
     && ChainAvoids(ADC, HandedOn(first, cc, xs[0], ys[0]), xs[1..], ys[1..]))
  }

  /** How much too high the chain comes out: 60 at the place of each doubled byte. */
  function ChainExcess(first: Alu, cc: Flags, xs: seq<u8>, ys: seq<u8>): nat
    requires |xs| == |ys|
    decreases |xs|
  {
    if xs == [] then 0
    else Excess(xs[0], ys[0], CarryInto(first, cc))
         + 100 * ChainExcess(ADC, HandedOn(first, cc, xs[0], ys[0]), xs[1..], ys[1..])
  }

  lemma {:induction false} ExcessExactly(first: Alu, cc: Flags, xs: seq<u8>, ys: seq<u8>)
    requires |xs| == |ys|
    ensures ChainExcess(first, cc, xs, ys) == 0 <==> ChainAvoids(first, cc, xs, ys)
    decreases |xs|
  {
    hide HandedOn, DoubleAdjust, CarryInto;
    if xs != [] { ExcessExactly(ADC, HandedOn(first, cc, xs[0], ys[0]), xs[1..], ys[1..]); }
  }

  /** One decimal byte of the chain, and the carry it hands on. */
  lemma DecimalOp(first: Alu, cc: Flags, x: u8, y: u8)
    requires first.ADD? || first.ADC?
    requires IsBcd(x) && IsBcd(y)
    ensures
      var r := LoadedOp(first, cc, x, y);
      var d := DecimalAdjust(r.cc, r.val);
      var carry := CarryInto(first, cc);
      && (!DoubleAdjust(x, y, carry) ==> IsBcd(d.val))
      && Decimal(d.val) + 100 * Digit(d.cc.c) == Decimal(x) + Decimal(y) + carry + Excess(x, y, carry)
      && HandedOn(first, cc, x, y).c == d.cc.c
      && CarryInto(ADC, HandedOn(first, cc, x, y)) == Digit(d.cc.c)
  {
    hide AddBytes, DecimalAdjust, DoubleAdjust, IsBcd, Decimal;
    var carry := CarryInto(first, cc);
    var loaded := SetNZ(cc, x, false);
    assert LoadedOp(first, cc, x, y) == AddBytes(loaded, x, y, carry);
    DaaAdds(loaded, x, y, carry);
  }

  predicate AllBcd(bs: seq<u8>) { forall i | 0 <= i < |bs| :: IsBcd(bs[i]) }

  /** For every length the chain adds packed decimal numbers, with the decimal carry in C, but for its excess. */
  lemma {:induction false} DecimalChainIs(first: Alu, cc: Flags, xs: seq<u8>, ys: seq<u8>)
    requires |xs| == |ys| && xs != [] && (first.ADD? || first.ADC?)
    requires AllBcd(xs) && AllBcd(ys)
    ensures
      var ch := DecimalChain(first, cc, xs, ys);
      && |ch.bytes| == |xs|
      && (ChainAvoids(first, cc, xs, ys) ==> AllBcd(ch.bytes))
      && DecimalVal(ch.bytes) + (if ch.cc.c then Pow100(|xs|) else 0)
         == DecimalVal(xs) + DecimalVal(ys) + CarryInto(first, cc) + ChainExcess(first, cc, xs, ys)
    decreases |xs|
  {
    hide LoadedOp, DecimalAdjust, DoubleAdjust, Excess, IsBcd, Decimal, SetNZ, CarryInto, HandedOn;
    DecimalOp(first, cc, xs[0], ys[0]);
    var tx, ty := xs[1..], ys[1..];
    DecimalChainUnfolds(first, cc, xs, ys);
    if tx == [] {
      OneDecimal(first, cc, xs, ys);
    } else {
      DecimalChainIs(ADC, HandedOn(first, cc, xs[0], ys[0]), tx, ty);
    }
  }

  lemma DecimalChainUnfolds(first: Alu, cc: Flags, xs: seq<u8>, ys: seq<u8>)
    requires |xs| == |ys| && xs != []
    ensures
      var r := LoadedOp(first, cc, xs[0], ys[0]);
      var rest := DecimalChain(ADC, HandedOn(first, cc, xs[0], ys[0]), xs[1..], ys[1..]);
      DecimalChain(first, cc, xs, ys) == Chain([DecimalAdjust(r.cc, r.val).val] + rest.bytes, rest.cc)
  {
    hide LoadedOp, DecimalAdjust, SetNZ;
  }

  lemma OneDecimal(first: Alu, cc: Flags, xs: seq<u8>, ys: seq<u8>)
    requires |xs| == |ys| == 1 && (first.ADD? || first.ADC?)
    requires AllBcd(xs) && AllBcd(ys)
    ensures
      var ch := DecimalChain(first, cc, xs, ys);
      && |ch.bytes| == 1
      && (ChainAvoids(first, cc, xs, ys) ==> AllBcd(ch.bytes))
      && DecimalVal(ch.bytes) + (if ch.cc.c then 100 else 0)
         == DecimalVal(xs) + DecimalVal(ys) + CarryInto(first, cc) + ChainExcess(first, cc, xs, ys)
      && Pow100(1) == 100
  {
    hide LoadedOp, DecimalAdjust, DoubleAdjust, Excess, IsBcd, Decimal, SetNZ, CarryInto, HandedOn;
    DecimalOp(first, cc, xs[0], ys[0]);
    DecimalChainUnfolds(first, cc, xs, ys);
  }

  /** So its bytes are the packed decimal sum, with the carry in C, exactly when no byte meets the doubled case. */
  lemma DecimalChainAdds(first: Alu, cc: Flags, xs: seq<u8>, ys: seq<u8>)
    requires |xs| == |ys| && xs != [] && (first.ADD? || first.ADC?)
    requires AllBcd(xs) && AllBcd(ys)
    ensures
      var ch := DecimalChain(first, cc, xs, ys);
      && |ch.bytes| == |xs|
      && (AllBcd(ch.bytes)
          && DecimalVal(ch.bytes) + (if ch.cc.c then Pow100(|xs|) else 0)
             == DecimalVal(xs) + DecimalVal(ys) + CarryInto(first, cc)
          <==> ChainAvoids(first, cc, xs, ys))
  {
    hide DecimalChain, ChainExcess, ChainAvoids, DecimalVal, AllBcd, Pow100, CarryInto;
    DecimalChainIs(first, cc, xs, ys);
    ExcessExactly(first, cc, xs, ys);
  }
}
