/** How many cycles instructions and slices take. */
module Cycles {
  import opened Words
  import opened Bits
  import opened Reference

  /** Writing a register, a push or a pull takes no cycles by itself. */
  lemma SettersAreFree()
    ensures forall m: State, reg: Reg16, w: u16 :: Set16(m, reg, w).clk == m.clk
    ensures forall m: State, acc: Acc, v: u8 :: SetAcc(m, acc, v).clk == m.clk
    ensures forall m: State, stk: Stk, w: u16 :: Push16(m, stk, w).clk == m.clk
    ensures forall m: State, stk: Stk, v: u8 :: Push8(m, stk, v).clk == m.clk
    ensures forall m: State, stk: Stk, n: nat :: Drop(m, stk, n).clk == m.clk
  {
  }

  lemma AddressCost(m: State, mode: Mode, t: Tail)
    ensures
      var spent := m.clk - EffectiveAddress(m, mode, t).m.clk;
      if mode.Indexed? then 4 <= spent <= 12 else spent == 0
  {
    if mode.Indexed? { BaseCost(m, t); }
  }

  lemma BaseCost(m: State, t: Tail)
    ensures 4 <= m.clk - IndexedBase(m, t).m.clk <= 9
  {
  }

  lemma RmwMemCost(m: State, rmw: Rmw, mode: Mode, t: Tail)
    requires !mode.Immediate?
    ensures 6 <= m.clk - ExecRmwMem(m, rmw, mode, t).clk <= 14
  {
    hide EffectiveAddress, Unary;
    AddressCost(m, mode, t);
  }

  lemma Arith8Cost(m: State, alu: Alu, acc: Acc, mode: Mode, t: Tail)
    ensures 2 <= m.clk - ExecArith8(m, alu, acc, mode, t).clk <= 12
  {
    SettersAreFree();
    hide EffectiveAddress, Alu8, SetAcc, GetAcc;
    AddressCost(m, mode, t);
  }

  lemma StoreCost(m: State, acc: Acc, reg: Reg16, mode: Mode, paged: bool, t: Tail)
    requires !mode.Immediate?
    ensures 4 <= m.clk - ExecStore8(m, acc, mode, t).clk <= 12
    ensures 5 <= m.clk - ExecStore16(m, reg, mode, paged, t).clk <= 14
  {
    hide EffectiveAddress, Get16;
    AddressCost(m, mode, t);
  }

  lemma Arith16Cost(m: State, wide: Alu16, reg: Reg16, mode: Mode, paged: bool, t: Tail)
    ensures 3 <= m.clk - ExecArith16(m, wide, reg, mode, paged, t).clk <= 15
  {
    SettersAreFree();
    hide EffectiveAddress, AluWide, Set16, Get16;
    AddressCost(m, mode, t);
  }

  lemma JumpCost(m: State, mode: Mode, t: Tail)
    requires !mode.Immediate?
    ensures 3 <= m.clk - ExecJump(m, mode, t).clk <= 11
    ensures 7 <= m.clk - ExecCall(m, mode, t).clk <= 15
  {
    hide EffectiveAddress;
    AddressCost(m, mode, t);
  }

  lemma MemoryCost(m: State, op: Op, t: Tail)
    requires IsMemoryOp(op) && WellFormed(op)
    ensures 2 <= m.clk - ExecMemory(m, op, t).clk <= 15
  {
    hide ExecRmwMem, ExecArith8, ExecStore8, ExecArith16, ExecStore16, ExecLea, ExecJump, ExecCall;
    match op
    case RmwMem(rmw, mode) => RmwMemCost(m, rmw, mode, t);
    case Arith8(alu, acc, mode) => Arith8Cost(m, alu, acc, mode, t);
    case Store8(acc, mode) => StoreCost(m, acc, RegD, mode, false, t);
    case Arith16(wide, reg, mode, paged) => Arith16Cost(m, wide, reg, mode, paged, t);
    case Store16(reg, mode, paged) => StoreCost(m, AccA, reg, mode, paged, t);
    case Lea(reg) => LeaCost(m, reg, t);
    case Jump(mode) => JumpCost(m, mode, t);
    case Call(mode) => JumpCost(m, mode, t);
  }

  lemma LeaCost(m: State, reg: Reg16, t: Tail)
    ensures 4 <= m.clk - ExecLea(m, reg, t).clk <= 12
  {
    BaseCost(m, t);
    SettersAreFree();
    hide IndexedBase, Set16;
  }

  lemma ControlCost(m: State, op: Op, t: Tail)
    requires IsControlOp(op)
    ensures 3 <= m.clk - ExecControl(m, op, t).clk <= 20
  {
    SettersAreFree();
    PullsAreFree();
    hide Bit, Holds, CcByte, Push8, Push16, PullCc, PullA, PullB, PullDp, PullX, PullY, PullOther, PullPc;
  }

  lemma PushWordsCost(m: State, stk: Stk, mask: u8)
    ensures 0 <= m.clk - PushWordRegs(m, stk, mask).clk <= 8
  {
    SettersAreFree();
    hide Bit, Push16, Other;
  }

  lemma PushBytesCost(m: State, stk: Stk, mask: u8)
    ensures 0 <= m.clk - PushByteRegs(m, stk, mask).clk <= 4
  {
    SettersAreFree();
    hide Bit, Push8, CcByte;
  }

  lemma PushCost(m: State, stk: Stk, mask: u8)
    ensures 0 <= m.clk - PushMask(m, stk, mask).clk <= 12
  {
    PushWordsCost(m, stk, mask);
    PushBytesCost(PushWordRegs(m, stk, mask), stk, mask);
    hide PushWordRegs, PushByteRegs;
  }

  lemma PullsAreFree()
    ensures forall m: State, stk: Stk :: PullCc(m, stk).clk == m.clk
    ensures forall m: State, stk: Stk :: PullA(m, stk).clk == m.clk
    ensures forall m: State, stk: Stk :: PullB(m, stk).clk == m.clk
    ensures forall m: State, stk: Stk :: PullDp(m, stk).clk == m.clk
    ensures forall m: State, stk: Stk :: PullX(m, stk).clk == m.clk
    ensures forall m: State, stk: Stk :: PullY(m, stk).clk == m.clk
    ensures forall m: State, stk: Stk :: PullOther(m, stk).clk == m.clk
    ensures forall m: State, stk: Stk :: PullPc(m, stk).clk == m.clk
  {
  }

  lemma PullBytesCost(m: State, stk: Stk, mask: u8)
    ensures 0 <= m.clk - PullByteRegs(m, stk, mask).clk <= 4
  {
    PullsAreFree();
    hide Bit, PullCc, PullA, PullB, PullDp;
  }

  lemma PullWordsCost(m: State, stk: Stk, mask: u8)
    ensures 0 <= m.clk - PullWordRegs(m, stk, mask).clk <= 8
  {
    PullsAreFree();
    hide Bit, PullX, PullY, PullOther, PullPc;
  }

  lemma PullCost(m: State, stk: Stk, mask: u8)
    ensures 0 <= m.clk - PullMask(m, stk, mask).clk <= 12
  {
    PullBytesCost(m, stk, mask);
    PullWordsCost(PullByteRegs(m, stk, mask), stk, mask);
    hide PullByteRegs, PullWordRegs;
  }

  lemma RegisterCost(m: State, op: Op, t: Tail)
    requires !IsMemoryOp(op) && !IsControlOp(op)
    ensures 2 <= m.clk - ExecRegister(m, op, t).clk <= 17
  {
    SettersAreFree();
    hide PushMask, PullMask, Unary, CcOf, CcByte, Bit, Product, DecimalAdjust, GetReg, SetAcc;
    match op
    case Push(stk) => PushCost(m.Spend(5), stk, t.b0);
    case Pull(stk) => PullCost(m.Spend(5), stk, t.b0);
    case _ =>
  }

  /** Taking an interrupt is free. */
  lemma InterruptCost(m: State)
    ensures CcModified(m).clk == m.clk
  {
  }

  /** Every valid instruction costs between 2 and 20 cycles, whatever its operands. */
  lemma StepCost(m: State)
    ensures match Step(m) case Next(r) => 2 <= m.clk - r.clk <= 20 case _ => true
  {
    hide OpPage1, OpPage2, OpPage3, ExecMemory, ExecControl, ExecRegister, CcModified, OperandLen, UsesIndexed,
      ValidPost, WellFormed;
    match Fetch(m.mem, m.pc)
    case Insn(op, len, t) =>
      FetchedWellFormed(m.mem, m.pc);
      var p := m.(pc := m.pc + len);
      if IsMemoryOp(op) {
        MemoryCost(p, op, t);
      } else if IsControlOp(op) {
        ControlCost(p, op, t);
      } else {
        RegisterCost(p, op, t);
      }
      InterruptCost(Exec(p, op, t));
    case _ =>
  }

  lemma FetchedWellFormed(mem: Memory, pc: nat)
    ensures match Fetch(mem, pc) case Insn(op, len, t) => WellFormed(op) && 1 <= len case _ => true
  {
    hide OpPage1, OpPage2, OpPage3, OperandLen, UsesIndexed, ValidPost, WellFormed;
    if pc < 0x1_0000 {
      DecodedWellFormed(mem[pc]);
      DecodedWellFormed(ByteAt(mem, pc + 1));
    }
  }

  // ---------------------------------------------------------------- slices

  /** The do/while loop of `cpu_execute`: at least one instruction, then until the budget is spent. */
  function Slice(m: State): Outcome
    decreases if m.clk > 0 then m.clk else 0
  {
    StepCost(m);
    match Step(m)
    case Next(r) => if r.clk > 0 then Slice(r) else Next(r)
    case stop => stop
  }

  /** A slice of n cycles consumes at least n and overshoots by at most 19. */
  lemma {:induction false} SliceBudget(m: State)
    requires m.clk >= 1
    ensures match Slice(m) case Next(r) => -19 <= r.clk <= 0 case _ => true
    decreases m.clk
  {
    StepCost(m);
    match Step(m)
    case Next(r) => if r.clk > 0 { SliceBudget(r); }
    case _ =>
  }

  /** `get_cycles`. */
  function CycleCount(total: int, period: int, clk: int): int { total + period - clk }

  /** The states at the instruction boundaries of a slice, in order. */
  function Boundaries(m: State): seq<State>
    decreases if m.clk > 0 then m.clk else 0
  {
    StepCost(m);
    match Step(m)
    case Next(r) => if r.clk > 0 then [r] + Boundaries(r) else [r]
    case _ => []
  }

  /** The cycle counts at the given boundaries exceed `start` and strictly grow. */
  ghost predicate CountsUp(total: int, period: int, start: int, bs: seq<State>) {
    && (forall i :: 0 <= i < |bs| ==> start < CycleCount(total, period, bs[i].clk))
    && (forall i, j :: 0 <= i < j < |bs| ==>
      CycleCount(total, period, bs[i].clk) < CycleCount(total, period, bs[j].clk))
  }

  /**
   * Across the boundaries of a slice the cycle count strictly grows from its
   * value at the start.
   */
  lemma {:induction false} CountGrows(m: State, total: int, period: int)
    ensures CountsUp(total, period, CycleCount(total, period, m.clk), Boundaries(m))
    decreases if m.clk > 0 then m.clk else 0
  {
    StepCost(m);
    hide Step;
    match Step(m)
    case Next(r) =>
      if r.clk > 0 {
        CountGrows(r, total, period);
        var bs := Boundaries(r);
        assert Boundaries(m) == [r] + bs;
        assert forall i :: 0 <= i < |bs| ==> ([r] + bs)[i + 1] == bs[i];
      }
    case _ =>
  }

  /** The last boundary is where the slice ends. */
  lemma {:induction false} LastBoundary(m: State)
    ensures
      var bs := Boundaries(m);
      match Slice(m)
      case Next(r) => bs != [] && bs[|bs| - 1] == r
      case _ => true
    decreases if m.clk > 0 then m.clk else 0
  {
    StepCost(m);
    hide Step;
    match Step(m)
    case Next(r) => if r.clk > 0 { LastBoundary(r); }
    case _ =>
  }

  function CountsAt(total: int, period: int, bs: seq<State>): (counts: seq<int>)
    ensures |counts| == |bs|
  {
    seq(|bs|, i requires 0 <= i < |bs| => CycleCount(total, period, bs[i].clk))
  }

  /**
   * The cycle counts at all instruction boundaries of successive calls, each begun
   * in any state whatever the devices made of it; each call's cycles are added to the total.
   */
  function RunCounts(total: int, starts: seq<State>): seq<int>
    decreases |starts|
  {
    if starts == [] then []
    else
      var m := starts[0];
      var here := CountsAt(total, m.clk, Boundaries(m));
      match Slice(m)
      case Next(r) => here + RunCounts(total + m.clk - r.clk, starts[1..])
      case _ => here
  }

  ghost predicate Grows(start: int, counts: seq<int>) {
    && (forall i | 0 <= i < |counts| :: start < counts[i])
    && (forall i, j | 0 <= i < j < |counts| :: counts[i] < counts[j])
  }

  /** Across calls too the count strictly grows from one boundary to the next. */
  lemma {:induction false} CountsGrowAcrossCalls(total: int, starts: seq<State>)
    ensures Grows(total, RunCounts(total, starts))
    decreases |starts|
  {
    hide Slice, Boundaries, Grows, Step;
    if starts == [] { EmptyGrows(total); } else {
      var m := starts[0];
      var here := CountsAt(total, m.clk, Boundaries(m));
      SliceGrows(m, total);
      LastBoundary(m);
      match Slice(m)
      case Next(r) =>
        var after := total + m.clk - r.clk;
        assert here[|here| - 1] == after;
        hide CountsAt;
        CountsGrowAcrossCalls(after, starts[1..]);
        GrowsOn(total, here, RunCounts(after, starts[1..]));
      case _ =>
    }
  }

  lemma EmptyGrows(start: int)
    ensures Grows(start, [])
  {
  }

  lemma SliceGrows(m: State, total: int)
    ensures Grows(total, CountsAt(total, m.clk, Boundaries(m)))
  {
    CountGrows(m, total, m.clk);
    hide Boundaries, Slice;
  }

  lemma GrowsOn(start: int, here: seq<int>, more: seq<int>)
    requires here != [] && Grows(start, here) && Grows(here[|here| - 1], more)
    ensures Grows(start, here + more)
  {
    assert forall i | 0 <= i < |here| :: here[i] <= here[|here| - 1];
  }
}
