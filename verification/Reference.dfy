/**
 The reference 6809: a machine on plain values that keeps one condition code
 register of eight flags. Flags are given by their arithmetic meaning (signed
 overflow, carry, half carry), not by the word encodings the simulator uses.
 */
module Reference {
  import opened Options
  import opened Words
  import opened Bits

  // ---------------------------------------------------------------- registers

  datatype Flags = Flags(e: bool, f: bool, h: bool, i: bool, n: bool, z: bool, v: bool, c: bool)

  /** The flags as bits of the condition code byte, C in bit 0 and E in bit 7. */
  function BitsOf(cc: Flags): seq<bool> { [cc.c, cc.v, cc.z, cc.n, cc.i, cc.h, cc.f, cc.e] }

  function CcByte(cc: Flags): u8 {
    NumberBits(BitsOf(cc), 0);
    assert Pow2(8) == 0x100;
    Number(BitsOf(cc))
  }

  function CcOf(b: u8): Flags {
    Flags(Bit(b, 7), Bit(b, 6), Bit(b, 5), Bit(b, 4), Bit(b, 3), Bit(b, 2), Bit(b, 1), Bit(b, 0))
  }

  type Memory = m: seq<u8> | |m| == 0x1_0000 witness seq(0x1_0000, i => 0)

  datatype State = State(
    a: u8, b: u8, dp: u8, x: u16, y: u16, u: u16, s: u16,
    pc: nat,             // the simulator does not mask PC
    cc: Flags,
    ccChanged: bool,     // set_cc ran since the last interrupt check
    irqs: set<nat>, firqs: set<nat>,  // sources waiting, a bit each in the simulator
    clk: int,            // cycles left in the current slice
    mem: Memory)
  {
    function D(): u16 { Join(a, b) }

    function Word(addr: u16): u16 { Join(mem[addr], mem[Wrap16(addr + 1)]) }

    function Spend(cycles: int): State { this.(clk := clk - cycles) }

    function SetD(w: u16): State { this.(a := Hi(w), b := Lo(w)) }

    function SetCc(flags: Flags): State { this.(cc := flags, ccChanged := true) }

    function Write8(addr: u16, v: u8): State { this.(mem := mem[addr := v]) }

    /** High byte first, then low byte at the next address modulo 64K. */
    function Write16(addr: u16, w: u16): State { Write8(addr, Hi(w)).Write8(Wrap16(addr + 1), Lo(w)) }
  }

  // ---------------------------------------------------------------- operations

  datatype Acc = AccA | AccB
  datatype Reg16 = RegD | RegX | RegY | RegU | RegS
  datatype Stk = SysStack | UserStack
  datatype Mode = Immediate | Direct | Indexed | Extended
  datatype Cond = RA | RN | HI | LS | HS | LO | NE | EQ | VC | VS | PL | MI | GE | LT | GT | LE
  datatype Rmw = NEG | COM | LSR | ROR | ASR | ASL | ROL | DEC | INC | TST | CLR
  datatype Alu = SUB | CMP | SBC | AND | BIT | LD | EOR | ADC | OR | ADD
  datatype Alu16 = ADDW | SUBW | CMPW | LDW

  datatype Op =
    | RmwAcc(rmw: Rmw, acc: Acc)
    | RmwMem(rmw: Rmw, mode: Mode)
    | Arith8(alu: Alu, acc: Acc, mode: Mode)
    | Store8(acc: Acc, mode: Mode)
    | Arith16(wide: Alu16, reg: Reg16, mode: Mode, paged: bool)
    | Store16(reg: Reg16, mode: Mode, paged: bool)
    | Lea(reg: Reg16)
    | Jump(mode: Mode)
    | Call(mode: Mode)
    | ShortBranch(cond: Cond)
    | LongBranch(cond: Cond)
    | LongAlways
    | ShortCall
    | LongCall
    | Push(stk: Stk)
    | Pull(stk: Stk)
    | Exchange
    | Transfer
    | OrCc
    | AndCc
    | Nop | Daa | Sex | Abx | Mul
    | ReturnSub
    | ReturnInt
    | Soft(level: nat)

  // ---------------------------------------------------------------- 8-bit arithmetic

  datatype Result = Result(val: u8, cc: Flags)

  function SetNZ(cc: Flags, val: u8, v: bool): Flags {
    cc.(n := val >= 0x80, z := val == 0, v := v)
  }

  function AddBytes(cc: Flags, x: u8, y: u8, carryIn: nat): Result
    requires carryIn <= 1
  {
    var sum := x + y + carryIn;
    var overflow := !(-0x80 <= S8(x) + S8(y) + carryIn < 0x80);
    Result(sum % 0x100, SetNZ(cc, sum % 0x100, overflow).(c := sum >= 0x100, h := x % 16 + y % 16 + carryIn >= 16))
  }

  function SubBytes(cc: Flags, x: u8, y: u8, borrowIn: nat): Result
    requires borrowIn <= 1
  {
    var diff := x - y - borrowIn;
    var overflow := !(-0x80 <= S8(x) - S8(y) - borrowIn < 0x80);
    Result(diff % 0x100, SetNZ(cc, diff % 0x100, overflow).(c := diff < 0))
  }

  function ByteOp(alu: Alu, x: u8, y: u8): u8 {
    OpsBelow(x, y, 8);
    match alu
    case AND => And(x, y)
    case BIT => And(x, y)
    case OR => Or(x, y)
    case EOR => Xor(x, y)
    case _ => y
  }

  function Alu8(alu: Alu, cc: Flags, x: u8, y: u8): Result {
    match alu
    case ADD => AddBytes(cc, x, y, 0)
    case ADC => AddBytes(cc, x, y, Digit(cc.c))
    case SUB => SubBytes(cc, x, y, 0)
    case CMP => SubBytes(cc, x, y, 0)
    case SBC => SubBytes(cc, x, y, Digit(cc.c))
    case _ => var r := ByteOp(alu, x, y); Result(r, SetNZ(cc, r, false))
  }

  /** CMP and BIT only set flags. */
  predicate KeepsResult(alu: Alu) { !alu.CMP? && !alu.BIT? }

  function Unary(rmw: Rmw, cc: Flags, x: u8): Result {
    match rmw
    case NEG => SubBytes(cc, 0, x, 0)
    case COM => Result(0xff - x, SetNZ(cc, 0xff - x, false).(c := true))
    case LSR => Result(x / 2, SetNZ(cc, x / 2, cc.v).(c := x % 2 == 1))
    case ROR => var r := x / 2 + 0x80 * Digit(cc.c); Result(r, SetNZ(cc, r, cc.v).(c := x % 2 == 1))
    case ASR => var r := Wrap8(S8(x) / 2); Result(r, SetNZ(cc, r, cc.v).(c := x % 2 == 1))
    case ASL => Doubled(cc, x, 0)
    case ROL => Doubled(cc, x, Digit(cc.c))
    case DEC => Result(Wrap8(x - 1), SetNZ(cc, Wrap8(x - 1), x == 0x80))
    case INC => Result(Wrap8(x + 1), SetNZ(cc, Wrap8(x + 1), x == 0x7f))
    case TST => Result(x, SetNZ(cc, x, false))
    case CLR => Result(0, SetNZ(cc, 0, false).(c := false))
  }

  function Doubled(cc: Flags, x: u8, carryIn: nat): Result
    requires carryIn <= 1
  {
    var r := Wrap8(2 * x + carryIn);
    Result(r, SetNZ(cc, r, !(-0x80 <= 2 * S8(x) + carryIn < 0x80)).(c := x >= 0x80))
  }

  /** DAA as the simulator does it: 0x60 can be added twice. */
  function DecimalAdjust(cc: Flags, a: u8): Result {
    var low := if a % 16 > 9 || cc.h then 6 else 0;
    var mid := if a / 16 > 8 && a % 16 > 9 then 0x60 else 0;
    var high := if a / 16 > 9 || cc.c then 0x60 else 0;
    var sum := a + low + mid + high;
    Result(Wrap8(sum), SetNZ(cc, Wrap8(sum), false).(c := cc.c || sum / 0x100 % 2 == 1))
  }

  // ---------------------------------------------------------------- 16-bit arithmetic

  datatype Result16 = Result16(val: u16, cc: Flags)

  function SetNZ16(cc: Flags, val: u16, v: bool): Flags {
    cc.(n := val >= 0x8000, z := val == 0, v := v)
  }

  function AluWide(wide: Alu16, cc: Flags, x: u16, y: u16): Result16 {
    match wide
    case ADDW =>
      var overflow := !(-0x8000 <= S16(x) + S16(y) < 0x8000);
      Result16(Wrap16(x + y), SetNZ16(cc, Wrap16(x + y), overflow).(c := x + y >= 0x1_0000))
    case LDW => Result16(y, SetNZ16(cc, y, false))
    case _ =>
      Result16(Wrap16(x - y), SetNZ16(cc, Wrap16(x - y), !(-0x8000 <= S16(x) - S16(y) < 0x8000)).(c := x < y))
  }

  // ---------------------------------------------------------------- conditions

  predicate Holds(cond: Cond, cc: Flags) {
    match cond
    case RA => true
    case RN => false
    case HI => !cc.z && !cc.c
    case LS => cc.z || cc.c
    case HS => !cc.c
    case LO => cc.c
    case NE => !cc.z
    case EQ => cc.z
    case VC => !cc.v
    case VS => cc.v
    case PL => !cc.n
    case MI => cc.n
    case GE => cc.n == cc.v
    case LT => cc.n != cc.v
    case GT => cc.n == cc.v && !cc.z
    case LE => cc.n != cc.v || cc.z
  }

  // ---------------------------------------------------------------- register access

  function GetAcc(m: State, acc: Acc): u8 { if acc.AccA? then m.a else m.b }

  function SetAcc(m: State, acc: Acc, v: u8): State { if acc.AccA? then m.(a := v) else m.(b := v) }

  function Get16(m: State, reg: Reg16): u16 {
    match reg
    case RegD => m.D()
    case RegX => m.x
    case RegY => m.y
    case RegU => m.u
    case RegS => m.s
  }

  function Set16(m: State, reg: Reg16, w: u16): State {
    match reg
    case RegD => m.SetD(w)
    case RegX => m.(x := w)
    case RegY => m.(y := w)
    case RegU => m.(u := w)
    case RegS => m.(s := w)
  }

  /** Register numbers of TFR and EXG; a number that names no register reads as 0xff. */
  function GetReg(m: State, nro: nat): u16 {
    match nro
    case 0 => m.D()
    case 1 => m.x
    case 2 => m.y
    case 3 => m.u
    case 4 => m.s
    case 5 => Wrap16(m.pc)
    case 8 => m.a
    case 9 => m.b
    case 10 => CcByte(m.cc)
    case 11 => m.dp
    case _ => 0xff
  }

  function SetReg(m: State, nro: nat, val: u16): State {
    match nro
    case 0 => m.SetD(val)
    case 1 => m.(x := val)
    case 2 => m.(y := val)
    case 3 => m.(u := val)
    case 4 => m.(s := val)
    case 5 => m.(pc := val)
    case 8 => m.(a := Wrap8(val))
    case 9 => m.(b := Wrap8(val))
    case 10 => m.SetCc(CcOf(Wrap8(val)))
    case 11 => m.(dp := Wrap8(val))
    case _ => m
  }

  /** Both nibbles of a TFR/EXG postbyte name registers of the same width. */
  predicate SameWidth(post: u8) { (post / 16 >= 8) == (post % 16 >= 8) }

  function TransferReg(m: State, post: u8): State {
    SetReg(m, post % 16, if SameWidth(post) then GetReg(m, post / 16) else 0xff)
  }

  function ExchangeReg(m: State, post: u8): State {
    var first := if SameWidth(post) then GetReg(m, post / 16) else 0xff;
    var second := if SameWidth(post) then GetReg(m, post % 16) else 0xff;
    SetReg(SetReg(m, post % 16, first), post / 16, second)
  }

  // ---------------------------------------------------------------- stacks

  function Sp(m: State, stk: Stk): u16 { if stk.SysStack? then m.s else m.u }

  function SetSp(m: State, stk: Stk, w: u16): State { if stk.SysStack? then m.(s := w) else m.(u := w) }

  function Push8(m: State, stk: Stk, v: u8): State {
    var sp := Wrap16(Sp(m, stk) - 1);
    SetSp(m, stk, sp).Write8(sp, v)
  }

  function Push16(m: State, stk: Stk, w: u16): State { Push8(Push8(m, stk, Lo(w)), stk, Hi(w)) }

  function Top8(m: State, stk: Stk): u8 { m.mem[Sp(m, stk)] }

  function Top16(m: State, stk: Stk): u16 { m.Word(Sp(m, stk)) }

  function Drop(m: State, stk: Stk, n: nat): State { SetSp(m, stk, Wrap16(Sp(m, stk) + n)) }

  function Other(m: State, stk: Stk): u16 { if stk.SysStack? then m.u else m.s }

  function SetOther(m: State, stk: Stk, w: u16): State { if stk.SysStack? then m.(u := w) else m.(s := w) }

  function PushWordRegs(m: State, stk: Stk, mask: u8): State {
    var m7 := if Bit(mask, 7) then Push16(m, stk, Wrap16(m.pc)).Spend(2) else m;
    var m6 := if Bit(mask, 6) then Push16(m7, stk, Other(m7, stk)).Spend(2) else m7;
    var m5 := if Bit(mask, 5) then Push16(m6, stk, m6.y).Spend(2) else m6;
    if Bit(mask, 4) then Push16(m5, stk, m5.x).Spend(2) else m5
  }

  function PushByteRegs(m: State, stk: Stk, mask: u8): State {
    var m3 := if Bit(mask, 3) then Push8(m, stk, m.dp).Spend(1) else m;
    var m2 := if Bit(mask, 2) then Push8(m3, stk, m3.b).Spend(1) else m3;
    var m1 := if Bit(mask, 1) then Push8(m2, stk, m2.a).Spend(1) else m2;
    if Bit(mask, 0) then Push8(m1, stk, CcByte(m1.cc)).Spend(1) else m1
  }

  /** The registers selected by a PSH postbyte, PC first and CC last. */
  function PushMask(m: State, stk: Stk, mask: u8): State {
    PushByteRegs(PushWordRegs(m, stk, mask), stk, mask)
  }

  function PullCc(m: State, stk: Stk): State { Drop(m, stk, 1).SetCc(CcOf(Top8(m, stk))) }

  function PullA(m: State, stk: Stk): State { Drop(m, stk, 1).(a := Top8(m, stk)) }

  function PullB(m: State, stk: Stk): State { Drop(m, stk, 1).(b := Top8(m, stk)) }

  function PullDp(m: State, stk: Stk): State { Drop(m, stk, 1).(dp := Top8(m, stk)) }

  function PullX(m: State, stk: Stk): State { Drop(m, stk, 2).(x := Top16(m, stk)) }

  function PullY(m: State, stk: Stk): State { Drop(m, stk, 2).(y := Top16(m, stk)) }

  /** U from the system stack or S from the user stack. */
  function PullOther(m: State, stk: Stk): State { SetOther(Drop(m, stk, 2), stk, Top16(m, stk)) }

  function PullPc(m: State, stk: Stk): State { Drop(m, stk, 2).(pc := Top16(m, stk)) }

  function PullByteRegs(m: State, stk: Stk, mask: u8): State {
    var m0 := if Bit(mask, 0) then PullCc(m.Spend(1), stk) else m;
    var m1 := if Bit(mask, 1) then PullA(m0.Spend(1), stk) else m0;
    var m2 := if Bit(mask, 2) then PullB(m1.Spend(1), stk) else m1;
    if Bit(mask, 3) then PullDp(m2.Spend(1), stk) else m2
  }

  function PullWordRegs(m: State, stk: Stk, mask: u8): State {
    var m4 := if Bit(mask, 4) then PullX(m.Spend(2), stk) else m;
    var m5 := if Bit(mask, 5) then PullY(m4.Spend(2), stk) else m4;
    var m6 := if Bit(mask, 6) then PullOther(m5.Spend(2), stk) else m5;
    if Bit(mask, 7) then PullPc(m6.Spend(2), stk) else m6
  }

  /** The registers selected by a PUL postbyte, CC first and PC last. */
  function PullMask(m: State, stk: Stk, mask: u8): State {
    PullWordRegs(PullByteRegs(m, stk, mask), stk, mask)
  }

  // ---------------------------------------------------------------- interrupts and calls

  /** Push PC, U, Y, X, DP, B, A, CC on the system stack. */
  function PushEntireState(m: State): State {
    var p1 := Push16(m, SysStack, Wrap16(m.pc));
    var p2 := Push16(p1, SysStack, p1.u);
    var p3 := Push16(p2, SysStack, p2.y);
    var p4 := Push16(p3, SysStack, p3.x);
    var p5 := Push8(p4, SysStack, p4.dp);
    var p6 := Push8(p5, SysStack, p5.b);
    var p7 := Push8(p6, SysStack, p6.a);
    Push8(p7, SysStack, CcByte(p7.cc))
  }

  const VECTOR_SWI3: u16 := 0xfff2
  const VECTOR_SWI2: u16 := 0xfff4
  const VECTOR_FIRQ: u16 := 0xfff6
  const VECTOR_IRQ: u16 := 0xfff8
  const VECTOR_SWI: u16 := 0xfffa

  function Vectored(m: State, vector: u16): State { m.(pc := m.Word(vector)) }

  /** Taking an IRQ costs no cycles and clears the whole pending word. */
  function Irq(m: State): State {
    var p := PushEntireState(m.(cc := m.cc.(e := true)));
    Vectored(p.(cc := p.cc.(i := true)), VECTOR_IRQ).(irqs := {})
  }

  /** FIRQ stacks only PC and CC. */
  function PushFastState(m: State): State {
    var p := Push16(m, SysStack, Wrap16(m.pc));
    Push8(p, SysStack, CcByte(p.cc))
  }

  function Firq(m: State): State {
    var p := PushFastState(m.(cc := m.cc.(e := false)));
    Vectored(p.(cc := p.cc.(i := true, f := true)), VECTOR_FIRQ).(firqs := {})
  }

  function SoftInt(m: State, level: nat): State {
    var e := m.Spend(if level == 1 then 19 else 20);
    var p := PushEntireState(e.(cc := e.cc.(e := true)));
    if level == 1 then Vectored(p.(cc := p.cc.(i := true, f := true)), VECTOR_SWI)
    else Vectored(p, if level == 2 then VECTOR_SWI2 else VECTOR_SWI3)
  }

  predicate FirqDeliverable(m: State) { m.firqs != {} && !m.cc.f }

  predicate IrqDeliverable(m: State) { m.irqs != {} && !m.cc.i }

  /** The check made after an instruction that changed CC. */
  function CcModified(m: State): State {
    var r := if FirqDeliverable(m) then Firq(m) else if IrqDeliverable(m) then Irq(m) else m;
    r.(ccChanged := false)
  }

  /** A request is taken at once unless it is masked. */
  function RequestIrq(m: State, source: nat): State {
    var p := m.(irqs := m.irqs + {source});
    if m.cc.i then p else Irq(p)
  }

  function RequestFirq(m: State, source: nat): State {
    var p := m.(firqs := m.firqs + {source});
    if m.cc.f then p else Firq(p)
  }

  function ReleaseIrq(m: State, source: nat): State { m.(irqs := m.irqs - {source}) }

  function ReleaseFirq(m: State, source: nat): State { m.(firqs := m.firqs - {source}) }

  function CallTo(m: State, target: nat): State { Push16(m, SysStack, Wrap16(m.pc)).(pc := target) }

  function ReturnFromSub(m: State): State { PullPc(m, SysStack) }

  /** RTI pulls the whole register set only when the stacked CC has E set. */
  function ReturnFromInt(m: State): State {
    var m0 := PullCc(m.Spend(6), SysStack);
    if m0.cc.e then ReturnFromSub(PullEntireState(m0.Spend(9))) else ReturnFromSub(m0)
  }

  function PullEntireState(m: State): State {
    PullOther(PullY(PullX(PullDp(PullB(PullA(m, SysStack), SysStack), SysStack), SysStack), SysStack), SysStack)
  }

  // ---------------------------------------------------------------- addressing

  /** The three bytes that follow the opcode; what lies past 0xffff reads as 0 and is never used. */
  datatype Tail = Tail(b0: u8, b1: u8, b2: u8)

  function ByteAt(mem: Memory, p: nat): u8 { if p < 0x1_0000 then mem[p] else 0 }

  function TailAt(mem: Memory, p: nat): Tail { Tail(ByteAt(mem, p), ByteAt(mem, p + 1), ByteAt(mem, p + 2)) }

  /** The bytes at PC, read as operands. */
  function Operands(m: State): Tail { TailAt(m.mem, m.pc) }

  function Past(m: State, n: nat): State { m.(pc := m.pc + n) }

  function IndexReg(post: u8): Reg16 {
    match post / 32 % 4
    case 0 => RegX
    case 1 => RegY
    case 2 => RegU
    case _ => RegS
  }

  /** What an indexed postbyte asks for: indirection is bit 4 of the long forms. */
  predicate IsIndirect(post: u8) { post >= 0x80 && post / 16 % 2 == 1 }

  predicate ValidPost(post: u8) {
    post < 0x80 ||
    var form := post % 16;
    form != 7 && form != 10 && form != 14 &&
    (if IsIndirect(post) then form != 0 && form != 2 else form != 15)
  }

  /** Extension bytes after the postbyte. */
  function ExtensionLen(post: u8): nat {
    if post < 0x80 then 0
    else match post % 16
      case 8 => 1
      case 12 => 1
      case 9 => 2
      case 13 => 2
      case 15 => if IsIndirect(post) then 2 else 0
      case _ => 0
  }

  datatype Address = Address(m: State, ea: u16)

  /** A signed five-bit offset. */
  function ShortBase(m: State, post: u8): Address {
    var offset := if post % 32 >= 16 then post % 32 - 32 else post % 32;
    Address(m.Spend(5), Wrap16(Get16(m, IndexReg(post)) + offset))
  }

  /** Auto increment after, or decrement before, by one or two. */
  function AutoBase(m: State, post: u8): Address {
    var reg := IndexReg(post);
    var r := Get16(m, reg);
    var form := post % 16;
    var step := if form == 0 || form == 2 then 1 else 2;
    if form < 2 then Address(Set16(m, reg, Wrap16(r + step)).Spend(5 + step), r)
    else Address(Set16(m, reg, Wrap16(r - step)).Spend(5 + step), Wrap16(r - step))
  }

  /** No offset, or an accumulator as offset. */
  function RegisterBase(m: State, post: u8): Address {
    var r := Get16(m, IndexReg(post));
    match post % 16
    case 4 => Address(m.Spend(4), r)
    case 5 => Address(m.Spend(5), Wrap16(r + S8(m.b)))
    case 6 => Address(m.Spend(5), Wrap16(r + S8(m.a)))
    case _ => Address(m.Spend(8), Wrap16(r + m.D()))
  }

  /** An offset from the register in the extension bytes. */
  function OffsetBase(m: State, t: Tail): Address {
    var r := Get16(m, IndexReg(t.b0));
    if t.b0 % 16 == 8 then Address(m.Spend(5), Wrap16(r + S8(t.b1)))
    else Address(m.Spend(8), Wrap16(r + Join(t.b1, t.b2)))
  }

  /** An offset from PC, or an absolute address. */
  function PcBase(m: State, t: Tail): Address {
    match t.b0 % 16
    case 12 => Address(m.Spend(5), Wrap16(m.pc + S8(t.b1)))
    case 13 => Address(m.Spend(9), Wrap16(m.pc + Join(t.b1, t.b2)))
    case _ => Address(m.Spend(6), Join(t.b1, t.b2))
  }

  /** The address before indirection; m.pc is already past the whole instruction. */
  function IndexedBase(m: State, t: Tail): Address {
    var form := t.b0 % 16;
    if t.b0 < 0x80 then ShortBase(m, t.b0)
    else if form < 4 then AutoBase(m, t.b0)
    else if form < 7 || form == 11 then RegisterBase(m, t.b0)
    else if form < 10 then OffsetBase(m, t)
    else PcBase(m, t)
  }

  function IndexedAddress(m: State, t: Tail): Address {
    var base := IndexedBase(m, t);
    if IsIndirect(t.b0) then Address(base.m.Spend(3), base.m.Word(base.ea)) else base
  }

  function EffectiveAddress(m: State, mode: Mode, t: Tail): Address {
    match mode
    case Direct => Address(m, Join(m.dp, t.b0))
    case Extended => Address(m, Join(t.b0, t.b1))
    case Indexed => IndexedAddress(m, t)
    case Immediate => Address(m, 0)
  }

  /** Cycles charged for the mode besides those of the indexed address itself. */
  function ModeCost(mode: Mode): nat {
    match mode
    case Immediate => 2
    case Direct => 4
    case Indexed => 0
    case Extended => 5
  }

  // ---------------------------------------------------------------- execution

  /** Read, modify and, unless it is TST, write back. */
  function ApplyRmw(m: State, rmw: Rmw, ea: u16, cost: nat): State {
    var r := Unary(rmw, m.cc, m.mem[ea]);
    var done := m.(cc := r.cc).Spend(cost);
    if rmw.TST? then done else done.Write8(ea, r.val)
  }

  function ExecRmwMem(m: State, rmw: Rmw, mode: Mode, t: Tail): State {
    var at := EffectiveAddress(m, mode, t);
    ApplyRmw(at.m, rmw, at.ea, ModeCost(mode) + 2)
  }

  function ApplyAlu8(m: State, alu: Alu, acc: Acc, operand: u8, cost: nat): State {
    var r := Alu8(alu, m.cc, GetAcc(m, acc), operand);
    var done := m.(cc := r.cc).Spend(cost);
    if KeepsResult(alu) then SetAcc(done, acc, r.val) else done
  }

  function ExecArith8(m: State, alu: Alu, acc: Acc, mode: Mode, t: Tail): State {
    var at := EffectiveAddress(m, mode, t);
    ApplyAlu8(at.m, alu, acc, if mode.Immediate? then t.b0 else at.m.mem[at.ea], ModeCost(mode))
  }

  function ExecStore8(m: State, acc: Acc, mode: Mode, t: Tail): State {
    var at := EffectiveAddress(m, mode, t);
    var v := GetAcc(at.m, acc);
    at.m.(cc := SetNZ(at.m.cc, v, false)).Spend(ModeCost(mode)).Write8(at.ea, v)
  }

  /** Loads are one cycle cheaper than adds and compares; page 2 and 3 opcodes one dearer. */
  function Cost16(wide: Alu16, mode: Mode, paged: bool): nat {
    ModeCost(mode) + (if wide.LDW? then 1 else 2) + Digit(paged)
  }

  function ApplyAlu16(m: State, wide: Alu16, reg: Reg16, operand: u16, cost: nat): State {
    var r := AluWide(wide, m.cc, Get16(m, reg), operand);
    var done := m.(cc := r.cc).Spend(cost);
    if wide.CMPW? then done else Set16(done, reg, r.val)
  }

  function ExecArith16(m: State, wide: Alu16, reg: Reg16, mode: Mode, paged: bool, t: Tail): State {
    var at := EffectiveAddress(m, mode, t);
    var operand := if mode.Immediate? then Join(t.b0, t.b1) else at.m.Word(at.ea);
    ApplyAlu16(at.m, wide, reg, operand, Cost16(wide, mode, paged))
  }

  function ExecStore16(m: State, reg: Reg16, mode: Mode, paged: bool, t: Tail): State {
    var at := EffectiveAddress(m, mode, t);
    ApplyStore16(at.m, at.ea, Get16(at.m, reg), ModeCost(mode) + 1 + Digit(paged))
  }

  function ApplyStore16(m: State, ea: u16, w: u16, cost: nat): State {
    m.(cc := SetNZ16(m.cc, w, false)).Spend(cost).Write16(ea, w)
  }

  /** LEAX and LEAY set Z, LEAS and LEAU leave the flags alone. */
  function ApplyLea(m: State, reg: Reg16, ea: u16): State {
    var r := Set16(m, reg, ea);
    if reg.RegX? || reg.RegY? then r.(cc := r.cc.(z := ea == 0)) else r
  }

  function ExecLea(m: State, reg: Reg16, t: Tail): State {
    var at := IndexedAddress(m, t);
    ApplyLea(at.m, reg, at.ea)
  }

  function Product(x: u8, y: u8): u16 {
    assert x * y <= 0xff * 0xff;
    x * y
  }

  function ExecMul(m: State): State {
    var r := Product(m.a, m.b);
    m.SetD(r).(cc := m.cc.(z := r == 0, c := Bit(r, 7))).Spend(11)
  }

  function ExecSex(m: State): State {
    m.(a := if m.b >= 0x80 then 0xff else 0, cc := m.cc.(n := m.b >= 0x80, z := m.b == 0)).Spend(2)
  }

  function ExecRmwAcc(m: State, rmw: Rmw, acc: Acc): State {
    var r := Unary(rmw, m.cc, GetAcc(m, acc));
    SetAcc(m.(cc := r.cc), acc, r.val).Spend(2)
  }

  function ExecJump(m: State, mode: Mode, t: Tail): State {
    var at := EffectiveAddress(m, mode, t);
    at.m.(pc := at.ea).Spend(ModeCost(mode) - 1)
  }

  function ExecCall(m: State, mode: Mode, t: Tail): State {
    var at := EffectiveAddress(m, mode, t);
    CallTo(at.m.Spend(ModeCost(mode) + 3), at.ea)
  }

  function ExecBranch(m: State, cond: Cond, t: Tail): State {
    (if Holds(cond, m.cc) then m.(pc := Wrap32(m.pc + S8(t.b0))) else m).Spend(3)
  }

  function ExecLongJump(m: State, t: Tail, cost: nat): State {
    m.(pc := Wrap32(m.pc + S16(Join(t.b0, t.b1)))).Spend(cost)
  }

  function ExecLongBranch(m: State, cond: Cond, t: Tail): State {
    if Holds(cond, m.cc) then ExecLongJump(m, t, 6) else m.Spend(5)
  }

  function ExecShortCall(m: State, t: Tail): State { CallTo(m.Spend(7), Wrap32(m.pc + S8(t.b0))) }

  function ExecLongCall(m: State, t: Tail): State { CallTo(m.Spend(9), Wrap32(m.pc + S16(Join(t.b0, t.b1)))) }

  function ExecAbx(m: State): State { m.(x := Wrap16(m.x + m.b)).Spend(3) }

  function ExecDaa(m: State): State {
    var r := DecimalAdjust(m.cc, m.a);
    m.(a := r.val, cc := r.cc).Spend(2)
  }

  /** Operations that address memory through a mode or an indexed postbyte. */
  predicate IsMemoryOp(op: Op) {
    op.RmwMem? || op.Arith8? || op.Store8? || op.Arith16? || op.Store16? || op.Lea? || op.Jump? || op.Call?
  }

  function ExecMemory(m: State, op: Op, t: Tail): State
    requires IsMemoryOp(op)
  {
    match op
    case RmwMem(rmw, mode) => ExecRmwMem(m, rmw, mode, t)
    case Arith8(alu, acc, mode) => ExecArith8(m, alu, acc, mode, t)
    case Store8(acc, mode) => ExecStore8(m, acc, mode, t)
    case Arith16(wide, reg, mode, paged) => ExecArith16(m, wide, reg, mode, paged, t)
    case Store16(reg, mode, paged) => ExecStore16(m, reg, mode, paged, t)
    case Lea(reg) => ExecLea(m, reg, t)
    case Jump(mode) => ExecJump(m, mode, t)
    case Call(mode) => ExecCall(m, mode, t)
  }

  predicate IsControlOp(op: Op) {
    op.ShortBranch? || op.LongBranch? || op.LongAlways? || op.ShortCall? || op.LongCall?
    || op.ReturnSub? || op.ReturnInt? || op.Soft?
  }

  function ExecControl(m: State, op: Op, t: Tail): State
    requires IsControlOp(op)
  {
    match op
    case ShortBranch(cond) => ExecBranch(m, cond, t)
    case LongBranch(cond) => ExecLongBranch(m, cond, t)
    case LongAlways => ExecLongJump(m, t, 5)
    case ShortCall => ExecShortCall(m, t)
    case LongCall => ExecLongCall(m, t)
    case ReturnSub => ReturnFromSub(m.Spend(5))
    case ReturnInt => ReturnFromInt(m)
    case Soft(level) => SoftInt(m, level)
  }

  function ExecRegister(m: State, op: Op, t: Tail): State
    requires !IsMemoryOp(op) && !IsControlOp(op)
  {
    match op
    case RmwAcc(rmw, acc) => ExecRmwAcc(m, rmw, acc)
    case Push(stk) => PushMask(m.Spend(5), stk, t.b0)
    case Pull(stk) => PullMask(m.Spend(5), stk, t.b0)
    case Exchange => ExchangeReg(m, t.b0).Spend(8)
    case Transfer => TransferReg(m, t.b0).Spend(6)
    case OrCc => m.SetCc(OrFlags(m.cc, CcOf(t.b0))).Spend(3)
    case AndCc => m.SetCc(AndFlags(m.cc, CcOf(t.b0))).Spend(3)
    case Nop => m.Spend(2)
    case Daa => ExecDaa(m)
    case Sex => ExecSex(m)
    case Abx => ExecAbx(m)
    case Mul => ExecMul(m)
  }

  /** The effect of an operation; m.pc is past the instruction, t holds its operand bytes. */
  function Exec(m: State, op: Op, t: Tail): State {
    if IsMemoryOp(op) then ExecMemory(m, op, t)
    else if IsControlOp(op) then ExecControl(m, op, t)
    else ExecRegister(m, op, t)
  }

  function OrFlags(x: Flags, y: Flags): Flags {
    Flags(x.e || y.e, x.f || y.f, x.h || y.h, x.i || y.i, x.n || y.n, x.z || y.z, x.v || y.v, x.c || y.c)
  }

  function AndFlags(x: Flags, y: Flags): Flags {
    Flags(x.e && y.e, x.f && y.f, x.h && y.h, x.i && y.i, x.n && y.n, x.z && y.z, x.v && y.v, x.c && y.c)
  }

  // ---------------------------------------------------------------- decoding

  function RmwOf(lo: nat): Option<Rmw> {
    match lo
    case 0 => Some(NEG)
    case 3 => Some(COM)
    case 4 => Some(LSR)
    case 6 => Some(ROR)
    case 7 => Some(ASR)
    case 8 => Some(ASL)
    case 9 => Some(ROL)
    case 10 => Some(DEC)
    case 12 => Some(INC)
    case 13 => Some(TST)
    case 15 => Some(CLR)
    case _ => None
  }

  function CondOf(lo: nat): Cond {
    match lo
    case 0 => RA
    case 1 => RN
    case 2 => HI
    case 3 => LS
    case 4 => HS
    case 5 => LO
    case 6 => NE
    case 7 => EQ
    case 8 => VC
    case 9 => VS
    case 10 => PL
    case 11 => MI
    case 12 => GE
    case 13 => LT
    case 14 => GT
    case _ => LE
  }

  function AluOf(lo: nat): Option<Alu> {
    match lo
    case 0 => Some(SUB)
    case 1 => Some(CMP)
    case 2 => Some(SBC)
    case 4 => Some(AND)
    case 5 => Some(BIT)
    case 6 => Some(LD)
    case 8 => Some(EOR)
    case 9 => Some(ADC)
    case 10 => Some(OR)
    case 11 => Some(ADD)
    case _ => None
  }

  function ModeOf(hi: nat): Mode {
    match hi % 4
    case 0 => Immediate
    case 1 => Direct
    case 2 => Indexed
    case _ => Extended
  }

  function MiscOf(opcode: u8): Option<Op> {
    match opcode
    case 0x12 => Some(Nop)
    case 0x16 => Some(LongAlways)
    case 0x17 => Some(LongCall)
    case 0x19 => Some(Daa)
    case 0x1a => Some(OrCc)
    case 0x1c => Some(AndCc)
    case 0x1d => Some(Sex)
    case 0x1e => Some(Exchange)
    case 0x1f => Some(Transfer)
    case 0x30 => Some(Lea(RegX))
    case 0x31 => Some(Lea(RegY))
    case 0x32 => Some(Lea(RegS))
    case 0x33 => Some(Lea(RegU))
    case 0x34 => Some(Push(SysStack))
    case 0x35 => Some(Pull(SysStack))
    case 0x36 => Some(Push(UserStack))
    case 0x37 => Some(Pull(UserStack))
    case 0x39 => Some(ReturnSub)
    case 0x3a => Some(Abx)
    case 0x3b => Some(ReturnInt)
    case 0x3d => Some(Mul)
    case 0x3f => Some(Soft(1))
    case _ => None
  }

  function MemOp(lo: nat, mode: Mode): Option<Op> {
    if lo == 14 then Some(Jump(mode))
    else match RmwOf(lo)
      case Some(rmw) => Some(RmwMem(rmw, mode))
      case None => None
  }

  function AccOp(lo: nat, acc: Acc): Option<Op> {
    match RmwOf(lo)
    case Some(rmw) => Some(RmwAcc(rmw, acc))
    case None => None
  }

  function StoreUnlessImmediate(op: Op, mode: Mode): Option<Op> {
    if mode.Immediate? then None else Some(op)
  }

  function ArithRow(lo: nat, acc: Acc, mode: Mode): Option<Op> {
    match AluOf(lo)
    case Some(alu) => Some(Arith8(alu, acc, mode))
    case None =>
      match (lo, acc)
      case (3, AccA) => Some(Arith16(SUBW, RegD, mode, false))
      case (3, AccB) => Some(Arith16(ADDW, RegD, mode, false))
      case (7, _) => StoreUnlessImmediate(Store8(acc, mode), mode)
      case (12, AccA) => Some(Arith16(CMPW, RegX, mode, false))
      case (12, AccB) => Some(Arith16(LDW, RegD, mode, false))
      case (13, AccA) => Some(if mode.Immediate? then ShortCall else Call(mode))
      case (13, AccB) => StoreUnlessImmediate(Store16(RegD, mode, false), mode)
      case (14, AccA) => Some(Arith16(LDW, RegX, mode, false))
      case (14, AccB) => Some(Arith16(LDW, RegU, mode, false))
      case (15, AccA) => StoreUnlessImmediate(Store16(RegX, mode, false), mode)
      case (15, AccB) => StoreUnlessImmediate(Store16(RegU, mode, false), mode)
      case _ => None
  }

  function OpPage1(opcode: u8): Option<Op> {
    var hi, lo := opcode / 16, opcode % 16;
    match hi
    case 0 => MemOp(lo, Direct)
    case 2 => Some(ShortBranch(CondOf(lo)))
    case 4 => AccOp(lo, AccA)
    case 5 => AccOp(lo, AccB)
    case 6 => MemOp(lo, Indexed)
    case 7 => MemOp(lo, Extended)
    case _ => if hi < 8 then MiscOf(opcode) else ArithRow(lo, if hi < 12 then AccA else AccB, ModeOf(hi))
  }

  /** Opcodes behind the prefix 0x10. */
  function OpPage2(opcode: u8): Option<Op> {
    var hi, lo := opcode / 16, opcode % 16;
    var mode := ModeOf(hi);
    if hi == 2 then (if lo == 0 then None else Some(LongBranch(CondOf(lo))))
    else if opcode == 0x3f then Some(Soft(2))
    else if 8 <= hi < 12 then
      match lo
      case 3 => Some(Arith16(CMPW, RegD, mode, true))
      case 12 => Some(Arith16(CMPW, RegY, mode, true))
      case 14 => Some(Arith16(LDW, RegY, mode, true))
      case 15 => StoreUnlessImmediate(Store16(RegY, mode, true), mode)
      case _ => None
    else if 12 <= hi then
      match lo
      case 14 => Some(Arith16(LDW, RegS, mode, true))
      case 15 => StoreUnlessImmediate(Store16(RegS, mode, true), mode)
      case _ => None
    else None
  }

  /** Opcodes behind the prefix 0x11. */
  function OpPage3(opcode: u8): Option<Op> {
    var hi, lo := opcode / 16, opcode % 16;
    if opcode == 0x3f then Some(Soft(3))
    else if 8 <= hi < 12 then
      match lo
      case 3 => Some(Arith16(CMPW, RegU, ModeOf(hi), true))
      case 12 => Some(Arith16(CMPW, RegS, ModeOf(hi), true))
      case _ => None
    else None
  }

  /** Operand bytes of an operation, given the byte after the opcode. */
  function OperandLen(op: Op, post: u8): nat {
    match op
    case RmwMem(_, mode) => AddressLen(mode, post)
    case Arith8(_, _, mode) => if mode.Immediate? then 1 else AddressLen(mode, post)
    case Store8(_, mode) => AddressLen(mode, post)
    case Arith16(_, _, mode, _) => if mode.Immediate? then 2 else AddressLen(mode, post)
    case Store16(_, mode, _) => AddressLen(mode, post)
    case Lea(_) => AddressLen(Indexed, post)
    case Jump(mode) => AddressLen(mode, post)
    case Call(mode) => AddressLen(mode, post)
    case ShortBranch(_) => 1
    case LongBranch(_) => 2
    case LongAlways => 2
    case ShortCall => 1
    case LongCall => 2
    case Push(_) => 1
    case Pull(_) => 1
    case Exchange => 1
    case Transfer => 1
    case OrCc => 1
    case AndCc => 1
    case _ => 0
  }

  function AddressLen(mode: Mode, post: u8): nat {
    match mode
    case Immediate => 0
    case Direct => 1
    case Indexed => 1 + ExtensionLen(post)
    case Extended => 2
  }

  predicate UsesIndexed(op: Op) {
    match op
    case RmwMem(_, mode) => mode.Indexed?
    case Arith8(_, _, mode) => mode.Indexed?
    case Store8(_, mode) => mode.Indexed?
    case Arith16(_, _, mode, _) => mode.Indexed?
    case Store16(_, mode, _) => mode.Indexed?
    case Lea(_) => true
    case Jump(mode) => mode.Indexed?
    case Call(mode) => mode.Indexed?
    case _ => false
  }

  /** What every decoded operation satisfies: only loads and arithmetic are immediate. */
  predicate WellFormed(op: Op) {
    match op
    case RmwMem(_, mode) => !mode.Immediate?
    case Store8(_, mode) => !mode.Immediate?
    case Store16(_, mode, _) => !mode.Immediate?
    case Jump(mode) => !mode.Immediate?
    case Call(mode) => !mode.Immediate?
    case Soft(level) => 1 <= level <= 3
    case _ => true
  }

  lemma DecodedWellFormed(opcode: u8)
    ensures OpPage1(opcode).Some? ==> WellFormed(OpPage1(opcode).value)
    ensures OpPage2(opcode).Some? ==> WellFormed(OpPage2(opcode).value)
    ensures OpPage3(opcode).Some? ==> WellFormed(OpPage3(opcode).value)
  {
  }

  // ---------------------------------------------------------------- the step

  datatype Fetched =
    | Insn(op: Op, len: nat, t: Tail)  // a valid instruction and its length
    | Illegal                          // the simulator reports an error and ends the run
    | PastEnd                          // the instruction runs past address 0xffff

  predicate IsPrefix(opcode: u8) { opcode == 0x10 || opcode == 0x11 }

  function OpAt(mem: Memory, pc: nat): Option<Op>
    requires pc < 0x1_0000
  {
    if mem[pc] == 0x10 then OpPage2(ByteAt(mem, pc + 1))
    else if mem[pc] == 0x11 then OpPage3(ByteAt(mem, pc + 1))
    else OpPage1(mem[pc])
  }

  function Fetch(mem: Memory, pc: nat): Fetched {
    if pc >= 0x1_0000 || (IsPrefix(mem[pc]) && pc + 1 >= 0x1_0000) then PastEnd
    else match OpAt(mem, pc)
      case None => Illegal
      case Some(op) =>
        var start := pc + 1 + Digit(IsPrefix(mem[pc]));
        var t := TailAt(mem, start);
        var len := start - pc + OperandLen(op, t.b0);
        if pc + len > 0x1_0000 then PastEnd
        else if UsesIndexed(op) && !ValidPost(t.b0) then Illegal
        else Insn(op, len, t)
  }

  datatype Outcome = Next(m: State) | SimError | OffEnd

  /** The instruction without the interrupt check that ends it. */
  function Body(m: State): Outcome {
    match Fetch(m.mem, m.pc)
    case Insn(op, len, t) => Next(Exec(m.(pc := m.pc + len), op, t))
    case Illegal => SimError
    case PastEnd => OffEnd
  }

  function EndOfInsn(m: State): State { if m.ccChanged then CcModified(m) else m }

  function Step(m: State): Outcome {
    match Body(m)
    case Next(r) => Next(EndOfInsn(r))
    case stop => stop
  }
}
