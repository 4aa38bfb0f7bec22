/** The interrupt protocol: requests, masks and the check at the end of an instruction. */
module Interrupts {
  import opened Words
  import opened Bits
  import opened Reference

  /** No source is both pending and unmasked. */
  predicate Quiet(m: State) { !FirqDeliverable(m) && !IrqDeliverable(m) }

  /** Between checks, a deliverable interrupt has its check already scheduled. */
  predicate Scheduled(m: State) { Quiet(m) || m.ccChanged }

  // ---------------------------------------------------------------- instructions

  /** An instruction leaves both pending words alone; it unmasks only by way of `set_cc`. */
  predicate KeepsMasks(m: State, r: State) {
    && r.irqs == m.irqs
    && r.firqs == m.firqs
    && (m.ccChanged ==> r.ccChanged)
    && (r.ccChanged || ((m.cc.i ==> r.cc.i) && (m.cc.f ==> r.cc.f)))
  }

  /** Setters, pushes and pulls other than of CC change neither masks nor pending words. */
  predicate SameMasks(m: State, r: State) {
    r.irqs == m.irqs && r.firqs == m.firqs && r.ccChanged == m.ccChanged && r.cc.i == m.cc.i && r.cc.f == m.cc.f
  }

  lemma SettersKeep()
    ensures forall m: State, reg: Reg16, w: u16 :: SameMasks(m, Set16(m, reg, w))
    ensures forall m: State, acc: Acc, v: u8 :: SameMasks(m, SetAcc(m, acc, v))
    ensures forall m: State, stk: Stk, v: u8 :: SameMasks(m, Push8(m, stk, v))
    ensures forall m: State, stk: Stk, w: u16 :: SameMasks(m, Push16(m, stk, w))
    ensures forall m: State, stk: Stk, n: nat :: SameMasks(m, Drop(m, stk, n))
  {
  }

  lemma BaseKeeps(m: State, t: Tail)
    ensures SameMasks(m, IndexedBase(m, t).m)
  {
    SettersKeep();
    hide Set16, Get16, IndexReg;
  }

  lemma AddressKeeps(m: State, mode: Mode, t: Tail)
    ensures SameMasks(m, EffectiveAddress(m, mode, t).m)
    ensures SameMasks(m, IndexedAddress(m, t).m)
  {
    BaseKeeps(m, t);
    hide IndexedBase, IsIndirect;
  }

  predicate SameEfi(p: Flags, q: Flags) { p.e == q.e && p.f == q.f && p.i == q.i }

  lemma AluKeeps(alu: Alu, cc: Flags, x: u8, y: u8)
    ensures SameEfi(Alu8(alu, cc, x, y).cc, cc)
  {
    hide ByteOp;
  }

  lemma UnaryKeeps(rmw: Rmw, cc: Flags, x: u8)
    ensures SameEfi(Unary(rmw, cc, x).cc, cc)
  {
  }

  lemma AluWideKeeps(wide: Alu16, cc: Flags, v: u16, w: u16)
    ensures SameEfi(AluWide(wide, cc, v, w).cc, cc)
  {
  }

  lemma ArithKeeps(m: State, alu: Alu, acc: Acc, mode: Mode, t: Tail)
    ensures SameMasks(m, ExecArith8(m, alu, acc, mode, t))
  {
    AddressKeeps(m, mode, t);
    var at := EffectiveAddress(m, mode, t);
    AluKeeps(alu, at.m.cc, GetAcc(at.m, acc), if mode.Immediate? then t.b0 else at.m.mem[at.ea]);
    SettersKeep();
    hide EffectiveAddress, Alu8, SetAcc, GetAcc;
  }

  lemma RmwKeeps(m: State, rmw: Rmw, mode: Mode, t: Tail)
    ensures SameMasks(m, ExecRmwMem(m, rmw, mode, t))
  {
    AddressKeeps(m, mode, t);
    var at := EffectiveAddress(m, mode, t);
    UnaryKeeps(rmw, at.m.cc, at.m.mem[at.ea]);
    hide EffectiveAddress, Unary;
  }

  lemma WideKeeps(m: State, wide: Alu16, reg: Reg16, mode: Mode, paged: bool, t: Tail)
    ensures SameMasks(m, ExecArith16(m, wide, reg, mode, paged, t))
  {
    AddressKeeps(m, mode, t);
    var at := EffectiveAddress(m, mode, t);
    AluWideKeeps(wide, at.m.cc, Get16(at.m, reg), if mode.Immediate? then Join(t.b0, t.b1) else at.m.Word(at.ea));
    SettersKeep();
    hide EffectiveAddress, AluWide, Set16, Get16;
  }

  lemma MemoryKeeps(m: State, op: Op, t: Tail)
    requires IsMemoryOp(op)
    ensures SameMasks(m, ExecMemory(m, op, t))
  {
    hide ExecRmwMem, ExecArith8, ExecArith16, EffectiveAddress, IndexedAddress, Set16, Get16, Push16;
    SettersKeep();
    match op
    case RmwMem(rmw, mode) => RmwKeeps(m, rmw, mode, t);
    case Arith8(alu, acc, mode) => ArithKeeps(m, alu, acc, mode, t);
    case Store8(_, mode) => AddressKeeps(m, mode, t);
    case Arith16(wide, reg, mode, paged) => WideKeeps(m, wide, reg, mode, paged, t);
    case Store16(_, mode, _) => AddressKeeps(m, mode, t);
    case Lea(_) => AddressKeeps(m, Indexed, t);
    case Jump(mode) => AddressKeeps(m, mode, t);
    case Call(mode) => AddressKeeps(m, mode, t);
  }

  lemma PullsKeep()
    ensures forall m: State, stk: Stk :: KeepsMasks(m, PullCc(m, stk)) && PullCc(m, stk).ccChanged
    ensures forall m: State, stk: Stk :: SameMasks(m, PullA(m, stk))
    ensures forall m: State, stk: Stk :: SameMasks(m, PullB(m, stk))
    ensures forall m: State, stk: Stk :: SameMasks(m, PullDp(m, stk))
    ensures forall m: State, stk: Stk :: SameMasks(m, PullX(m, stk))
    ensures forall m: State, stk: Stk :: SameMasks(m, PullY(m, stk))
    ensures forall m: State, stk: Stk :: SameMasks(m, PullOther(m, stk))
    ensures forall m: State, stk: Stk :: SameMasks(m, PullPc(m, stk))
  {
  }

  lemma PushWordsKeep(m: State, stk: Stk, mask: u8)
    ensures SameMasks(m, PushWordRegs(m, stk, mask))
  {
    SettersKeep();
    hide Push8, Push16, Bit, Other;
  }

  lemma PushBytesKeep(m: State, stk: Stk, mask: u8)
    ensures SameMasks(m, PushByteRegs(m, stk, mask))
  {
    SettersKeep();
    hide Push8, Push16, Bit, CcByte;
  }

  lemma PushEntireKeeps(m: State)
    ensures SameMasks(m, PushEntireState(m))
  {
    SettersKeep();
    hide Push8, Push16, CcByte;
  }

  lemma PullMaskKeeps(m: State, stk: Stk, mask: u8)
    ensures KeepsMasks(m, PullByteRegs(m, stk, mask))
    ensures SameMasks(m, PullWordRegs(m, stk, mask))
    ensures SameMasks(m, PullEntireState(m))
  {
    PullsKeep();
    hide PullCc, PullA, PullB, PullDp, PullX, PullY, PullOther, PullPc, Bit;
  }

  lemma ControlKeeps(m: State, op: Op, t: Tail)
    requires IsControlOp(op)
    ensures KeepsMasks(m, ExecControl(m, op, t))
  {
    SettersKeep();
    PullsKeep();
    hide PushEntireState, PullEntireState, Push16, PullCc, PullPc, Holds;
    match op
    case Soft(level) => PushEntireKeeps(m.Spend(if level == 1 then 19 else 20).(cc := m.cc.(e := true)));
    case ReturnInt => PullMaskKeeps(PullCc(m.Spend(6), SysStack).Spend(9), SysStack, 0);
    case _ =>
  }

  lemma SetRegKeeps(m: State, nro: nat, val: u16)
    ensures KeepsMasks(m, SetReg(m, nro, val))
  {
    hide CcOf;
  }

  lemma ExchangeKeeps(m: State, post: u8)
    ensures KeepsMasks(m, ExchangeReg(m, post))
  {
    hide SetReg, GetReg;
    var v1 := if SameWidth(post) then GetReg(m, post / 16) else 0xff;
    var v2 := if SameWidth(post) then GetReg(m, post % 16) else 0xff;
    SetRegKeeps(m, post % 16, v1);
    SetRegKeeps(SetReg(m, post % 16, v1), post / 16, v2);
  }

  lemma RegisterKeeps(m: State, op: Op, t: Tail)
    requires !IsMemoryOp(op) && !IsControlOp(op)
    ensures KeepsMasks(m, ExecRegister(m, op, t))
  {
    hide PushWordRegs, PushByteRegs, PullByteRegs, PullWordRegs, Unary, SetReg, GetReg, CcOf, Bit, Product, SetAcc,
      GetAcc, Alu8, AluWide, ExchangeReg;
    match op
    case RmwAcc(rmw, acc) =>
      UnaryKeeps(rmw, m.cc, GetAcc(m, acc));
      SettersKeep();
    case Push(stk) =>
      PushWordsKeep(m.Spend(5), stk, t.b0);
      PushBytesKeep(PushWordRegs(m.Spend(5), stk, t.b0), stk, t.b0);
    case Pull(stk) =>
      PullMaskKeeps(m.Spend(5), stk, t.b0);
      PullMaskKeeps(PullByteRegs(m.Spend(5), stk, t.b0), stk, t.b0);
    case Exchange =>
      ExchangeKeeps(m, t.b0);
    case Transfer => SetRegKeeps(m, t.b0 % 16, if SameWidth(t.b0) then GetReg(m, t.b0 / 16) else 0xff);
    case _ =>
  }

  /** Every instruction keeps the pending words, and masks stay set unless CC was written. */
  lemma BodyKeeps(m: State)
    ensures match Body(m) case Next(r) => KeepsMasks(m, r) case _ => true
  {
    hide Fetch, ExecMemory, ExecControl, ExecRegister;
    match Fetch(m.mem, m.pc)
    case Insn(op, len, t) =>
      var p := m.(pc := m.pc + len);
      if IsMemoryOp(op) {
        MemoryKeeps(p, op, t);
      } else if IsControlOp(op) {
        ControlKeeps(p, op, t);
      } else {
        RegisterKeeps(p, op, t);
      }
    case _ =>
  }

  // ---------------------------------------------------------------- interrupt entry

  lemma PushFastKeeps(m: State)
    ensures SameMasks(m, PushFastState(m))
  {
    SettersKeep();
    hide Push8, Push16, CcByte;
  }

  /** Entering an IRQ clears its pending word, sets I and leaves F and the FIRQ word alone. */
  lemma IrqMasks(m: State)
    ensures
      var r := Irq(m);
      r.irqs == {} && r.firqs == m.firqs && r.cc.i && r.cc.f == m.cc.f && r.ccChanged == m.ccChanged
  {
    PushEntireKeeps(m.(cc := m.cc.(e := true)));
    hide PushEntireState;
  }

  /** Entering a FIRQ clears its pending word, sets F and I and leaves the IRQ word alone. */
  lemma FirqMasks(m: State)
    ensures var r := Firq(m); r.firqs == {} && r.irqs == m.irqs && r.cc.i && r.cc.f && r.ccChanged == m.ccChanged
  {
    PushFastKeeps(m.(cc := m.cc.(e := false)));
    hide PushFastState;
  }

  /** After the end-of-instruction check nothing is both pending and unmasked. */
  lemma CheckQuiets(m: State)
    ensures Quiet(CcModified(m)) && !CcModified(m).ccChanged
  {
    IrqMasks(m);
    FirqMasks(m);
    hide Irq, Firq;
  }

  /** When both are deliverable FIRQ is entered, and the IRQ stays pending behind its mask. */
  lemma FirqFirst(m: State)
    requires FirqDeliverable(m) && IrqDeliverable(m)
    ensures CcModified(m) == Firq(m).(ccChanged := false)
    ensures CcModified(m).irqs == m.irqs && CcModified(m).cc.i
  {
    IrqMasks(m);
    FirqMasks(m);
    hide Irq, Firq;
  }

  // ---------------------------------------------------------------- runs

  /** An instruction, its closing check, or what devices and the main loop do to the lines, in any interleaving. */
  datatype Event =
    | Instruction
    | Check
    | RaiseIrq(source: nat)
    | RaiseFirq(source: nat)
    | LowerIrq(source: nat)
    | LowerFirq(source: nat)

  function Happen(m: State, e: Event): Outcome {
    match e
    case Instruction => Body(m)
    case Check => Next(EndOfInsn(m))
    case RaiseIrq(source) => Next(RequestIrq(m, source))
    case RaiseFirq(source) => Next(RequestFirq(m, source))
    case LowerIrq(source) => Next(ReleaseIrq(m, source))
    case LowerFirq(source) => Next(ReleaseFirq(m, source))
  }

  function RunEvents(m: State, events: seq<Event>): Outcome
    decreases |events|
  {
    if events == [] then Next(m)
    else match Happen(m, events[0])
      case Next(r) => RunEvents(r, events[1..])
      case stop => stop
  }

  lemma EventSchedules(m: State, e: Event)
    requires Scheduled(m)
    ensures match Happen(m, e) case Next(r) => Scheduled(r) && (e.Check? ==> Quiet(r)) case _ => true
  {
    hide Body, Irq, Firq;
    match e
    case Instruction => BodyKeeps(m);
    case Check => CheckQuiets(m);
    case RaiseIrq(source) => IrqMasks(m.(irqs := m.irqs + {source}));
    case RaiseFirq(source) => FirqMasks(m.(firqs := m.firqs + {source}));
    case _ =>
  }

  /**
   * In every run from a state with nothing deliverable, whatever the order of
   * instructions, checks, requests and releases: a deliverable interrupt always
   * has its check scheduled, and after a check nothing is deliverable.
   */
  lemma {:induction false} RunsStayScheduled(m: State, events: seq<Event>)
    requires Scheduled(m)
    ensures
      match RunEvents(m, events)
      case Next(r) => Scheduled(r) && (events != [] && events[|events| - 1].Check? ==> Quiet(r))
      case _ => true
    decreases |events|
  {
    hide Happen, Quiet, Scheduled;
    if events != [] {
      EventSchedules(m, events[0]);
      match Happen(m, events[0])
      case Next(r) =>
        RunsStayScheduled(r, events[1..]);
        assert |events| > 1 ==> events[1..][|events| - 2] == events[|events| - 1];
        if |events| == 1 { assert RunEvents(r, events[1..]) == Next(r); }
      case _ =>
    }
  }
}
