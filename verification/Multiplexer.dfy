/** The interrupt multiplexer: several edge-triggered signals behind one CPU line. */
module Multiplexer {
  import opened Words
  import opened Reference
  import opened Interrupts

  /** Enabled and pending signals as sets of bit numbers; line 1 is IRQ, any other FIRQ. */
  datatype Mux = Mux(enabled: set<nat>, pending: set<nat>, src: nat)

  datatype Joint = Joint(x: Mux, m: State)

  const ENABLE_REG := 0
  const PENDING_REG := 1

  predicate Asserting(x: Mux) { x.pending * x.enabled != {} }

  /** The mux's own bit in the CPU's pending word. */
  predicate LineUp(x: Mux, m: State) { if x.src == 1 then 1 in m.irqs else x.src in m.firqs }

  function Raise(x: Mux, m: State): State { if x.src == 1 then RequestIrq(m, 1) else RequestFirq(m, x.src) }

  function Lower(x: Mux, m: State): State { if x.src == 1 then ReleaseIrq(m, 1) else ReleaseFirq(m, x.src) }

  function Refreshed(x: Mux, m: State): Joint { Joint(x, if Asserting(x) then Raise(x, m) else Lower(x, m)) }

  /** A register write: enables are replaced, pending bits written as one are acknowledged. */
  function WriteReg(x: Mux, m: State, addr: nat, val: set<nat>): Joint {
    var y := if addr == ENABLE_REG then x.(enabled := val)
             else if addr == PENDING_REG then x.(pending := x.pending - val)
             else x;
    Refreshed(y, m)
  }

  function Signal(x: Mux, m: State, sig: nat): Joint { Refreshed(x.(pending := x.pending + {sig}), m) }

  // ---------------------------------------------------------------- agreement over runs

  /** The CPU is never told of a signal that is not both pending and enabled. */
  predicate Agrees(x: Mux, m: State) { LineUp(x, m) ==> Asserting(x) }

  datatype MuxEvent = OnCpu(e: Event) | OnWrite(addr: nat, val: set<nat>) | OnSignal(sig: nat)

  /** Other devices use other lines. */
  predicate Foreign(x: Mux, e: Event) {
    match e
    case RaiseIrq(source) => x.src == 1 ==> source != 1
    case RaiseFirq(source) => x.src != 1 ==> source != x.src
    case _ => true
  }

  datatype JointOutcome = Going(j: Joint) | Stopped

  function MuxHappen(x: Mux, m: State, e: MuxEvent): JointOutcome {
    match e
    case OnCpu(e) => (match Happen(m, e) case Next(r) => Going(Joint(x, r)) case _ => Stopped)
    case OnWrite(addr, val) => Going(WriteReg(x, m, addr, val))
    case OnSignal(sig) => Going(Signal(x, m, sig))
  }

  function MuxRun(x: Mux, m: State, events: seq<MuxEvent>): JointOutcome
    decreases |events|
  {
    if events == [] then Going(Joint(x, m))
    else match MuxHappen(x, m, events[0])
      case Going(j) => MuxRun(j.x, j.m, events[1..])
      case Stopped => Stopped
  }

  lemma RefreshAgrees(x: Mux, m: State)
    ensures var j := Refreshed(x, m); j.x == x && Agrees(x, j.m)
    ensures Asserting(x) ==> LineUp(x, Refreshed(x, m).m) || Refreshed(x, m).m == TakenNow(x, m)
    ensures !Asserting(x) ==> !LineUp(x, Refreshed(x, m).m)
  {
    hide Irq, Firq;
  }

  /** The state in which the mux's interrupt has just been entered. */
  function TakenNow(x: Mux, m: State): State {
    if x.src == 1 then Irq(m.(irqs := m.irqs + {1})) else Firq(m.(firqs := m.firqs + {x.src}))
  }

  lemma CpuEventAgrees(x: Mux, m: State, e: Event)
    requires Agrees(x, m) && Foreign(x, e)
    ensures match Happen(m, e) case Next(r) => Agrees(x, r) case _ => true
  {
    hide Body, Irq, Firq;
    match e
    case Instruction => BodyKeeps(m);
    case Check => IrqMasks(m); FirqMasks(m);
    case RaiseIrq(source) => IrqMasks(m.(irqs := m.irqs + {source}));
    case RaiseFirq(source) => FirqMasks(m.(firqs := m.firqs + {source}));
    case _ =>
  }

  /**
   * From creation on, in every run that mixes CPU events, register writes and
   * signals, the CPU's pending bit for the mux implies an enabled pending signal.
   */
  lemma {:induction false} RunsAgree(x: Mux, m: State, events: seq<MuxEvent>)
    requires Agrees(x, m)
    requires forall i | 0 <= i < |events| :: events[i].OnCpu? ==> Foreign(x, events[i].e)
    ensures match MuxRun(x, m, events) case Going(j) => Agrees(j.x, j.m) && j.x.src == x.src case Stopped => true
    decreases |events|
  {
    hide Happen, Refreshed, Agrees;
    if events != [] {
      match events[0] {
        case OnCpu(e) =>
          CpuEventAgrees(x, m, e);
        case OnWrite(addr, val) =>
          RefreshAgrees(WriteReg(x, m, addr, val).x, m);
          RefreshKeepsMux(x, m, addr, val, 0);
        case OnSignal(sig) =>
          RefreshAgrees(Signal(x, m, sig).x, m);
          RefreshKeepsMux(x, m, 0, {}, sig);
      }
      match MuxHappen(x, m, events[0])
      case Going(j) =>
        assert forall i | 0 <= i < |events| - 1 :: events[1..][i] == events[i + 1];
        RunsAgree(j.x, j.m, events[1..]);
      case Stopped =>
    }
  }

  lemma RefreshKeepsMux(x: Mux, m: State, addr: nat, val: set<nat>, sig: nat)
    ensures var j := WriteReg(x, m, addr, val); j == Refreshed(j.x, m) && j.x.src == x.src
    ensures var j := Signal(x, m, sig); j == Refreshed(j.x, m) && j.x.src == x.src
  {
    hide Raise, Lower;
  }

  // ---------------------------------------------------------------- handlers

  /** The mask of the line. */
  predicate Masked(x: Mux, m: State) { if x.src == 1 then m.cc.i else m.cc.f }

  /** The CPU enters the interrupt of the line. */
  function Entry(x: Mux, m: State): State { if x.src == 1 then Irq(m) else Firq(m) }

  /** A device on another line, which leaves this one alone. */
  predicate Elsewhere(x: Mux, e: Event) {
    match e
    case RaiseIrq(source) => x.src == 1 ==> source != 1
    case LowerIrq(source) => x.src == 1 ==> source != 1
    case RaiseFirq(source) => x.src != 1 ==> source != x.src
    case LowerFirq(source) => x.src != 1 ==> source != x.src
    case _ => true
  }

  /**
   * Part of an interrupt handler, with whatever devices do meanwhile: the line is masked
   * whenever interrupts are checked, requested or the multiplexer refreshed.
   */
  predicate Handler(x: Mux, m: State, events: seq<MuxEvent>)
    decreases |events|
  {
    events == [] ||
    (&& (events[0].OnCpu? ==> Elsewhere(x, events[0].e))
     && (events[0] == OnCpu(Instruction) || Masked(x, m))
     && match MuxHappen(x, m, events[0])
        case Going(j) => Handler(j.x, j.m, events[1..])
        case Stopped => true)
  }

  /** The handler writes a register of the multiplexer, or a signal arrives. */
  predicate Touches(events: seq<MuxEvent>) { exists i :: 0 <= i < |events| && !events[i].OnCpu? }

  /** The pending word of the line. */
  function Word(x: Mux, m: State): set<nat> { if x.src == 1 then m.irqs else m.firqs }

  /** While the line is masked the CPU by itself, instructions and checks, leaves its whole pending word alone. */
  lemma {:induction false} MaskedKeepsPending(x: Mux, m: State, events: seq<MuxEvent>)
    requires Handler(x, m, events)
    requires forall i | 0 <= i < |events| :: events[i] == OnCpu(Instruction) || events[i] == OnCpu(Check)
    ensures match MuxRun(x, m, events) case Going(j) => j.x == x && Word(x, j.m) == Word(x, m) case Stopped => true
    decreases |events|
  {
    hide Happen;
    if events != [] {
      CodeKeepsWord(x, m, events[0].e);
      hide Word, Masked;
      var rest := events[1..];
      assert forall i | 0 <= i < |rest| :: rest[i] == events[i + 1];
      match MuxHappen(x, m, events[0])
      case Going(j) => MaskedKeepsPending(j.x, j.m, rest);
      case Stopped =>
    }
  }

  lemma CodeKeepsWord(x: Mux, m: State, e: Event)
    requires e == Instruction || (e == Check && Masked(x, m))
    ensures match Happen(m, e) case Next(r) => Word(x, r) == Word(x, m) case _ => true
  {
    hide Body, Irq, Firq;
    if e == Instruction { BodyKeeps(m); } else { IrqMasks(m); FirqMasks(m); }
  }

  lemma CpuEventKeepsLine(x: Mux, m: State, e: Event)
    requires Elsewhere(x, e) && (e == Instruction || Masked(x, m))
    ensures match Happen(m, e) case Next(r) => LineUp(x, r) == LineUp(x, m) case _ => true
  {
    hide Body, Irq, Firq;
    match e
    case Instruction => BodyKeeps(m);
    case Check => IrqMasks(m); FirqMasks(m);
    case RaiseIrq(source) => IrqMasks(m.(irqs := m.irqs + {source}));
    case RaiseFirq(source) => FirqMasks(m.(firqs := m.firqs + {source}));
    case _ =>
  }

  lemma MaskedRefresh(x: Mux, m: State)
    requires Masked(x, m)
    ensures LineUp(x, Refreshed(x, m).m) == Asserting(x)
  {
    hide Irq, Firq;
  }

  /** The line follows the multiplexer from the first register write or signal on; before, it stays as it was. */
  lemma {:induction false} LineFollows(x: Mux, m: State, events: seq<MuxEvent>)
    requires Handler(x, m, events)
    ensures
      match MuxRun(x, m, events)
      case Going(j) =>
        && j.x.src == x.src
        && LineUp(j.x, j.m) == (if Touches(events) then Asserting(j.x) else LineUp(x, m))
        && (!Touches(events) ==> j.x == x)
      case Stopped => true
    decreases |events|
  {
    hide Happen, Refreshed, LineUp, Asserting, Masked;
    if events != [] {
      var rest := events[1..];
      assert forall i | 0 <= i < |rest| :: rest[i] == events[i + 1];
      assert Touches(events) == (!events[0].OnCpu? || Touches(rest));
      match events[0] {
        case OnCpu(e) => CpuEventKeepsLine(x, m, e);
        case OnWrite(addr, val) =>
          RefreshKeepsMux(x, m, addr, val, 0);
          MaskBySource(x, WriteReg(x, m, addr, val).x, m);
          MaskedRefresh(WriteReg(x, m, addr, val).x, m);
        case OnSignal(sig) =>
          RefreshKeepsMux(x, m, 0, {}, sig);
          MaskBySource(x, Signal(x, m, sig).x, m);
          MaskedRefresh(Signal(x, m, sig).x, m);
      }
      match MuxHappen(x, m, events[0])
      case Going(j) => LineFollows(j.x, j.m, rest);
      case Stopped =>
    }
  }

  lemma MaskBySource(x: Mux, y: Mux, m: State)
    requires x.src == y.src
    ensures Masked(x, m) == Masked(y, m)
  {
  }

  // ---------------------------------------------------------------- the return

  /** The state RTI returns to, before the check. */
  function ReturnState(g: State): State { ReturnFromInt(g.(pc := g.pc + 1)) }

  predicate AtRti(g: State) { Fetch(g.mem, g.pc) == Insn(ReturnInt, 1, TailAt(g.mem, g.pc + 1)) }

  lemma RtiChangesCc(m: State)
    ensures ReturnFromInt(m).ccChanged
  {
    PullsKeep();
    PullMaskKeeps(PullCc(m.Spend(6), SysStack).Spend(9), SysStack, 0);
    hide PullCc, PullEntireState, PullPc;
  }

  /** RTI keeps the pending words and ends in the interrupt check. */
  lemma RtiChecks(g: State)
    requires AtRti(g)
    ensures
      var b := ReturnState(g);
      Step(g) == Next(CcModified(b)) && b.irqs == g.irqs && b.firqs == g.firqs
  {
    hide Fetch, CcModified, ReturnFromInt, ExecMemory, ExecRegister;
    BodyKeeps(g);
    assert Body(g) == Next(ReturnState(g));
    RtiChangesCc(g.(pc := g.pc + 1));
    hide ReturnState;
  }

  /**
   * With the line up, RTI to unmasked code enters the interrupt of the line again before
   * another instruction; before an IRQ a FIRQ that is due, behind which the IRQ waits.
   */
  lemma RtiReenters(x: Mux, g: State)
    requires AtRti(g) && LineUp(x, g) && !Masked(x, ReturnState(g))
    ensures
      var b := ReturnState(g);
      if x.src == 1 && FirqDeliverable(b) then
        Step(g) == Next(Firq(b).(ccChanged := false)) && LineUp(x, Firq(b))
      else Step(g) == Next(Entry(x, b).(ccChanged := false))
  {
    hide AtRti, Step, Irq, Firq, ReturnState;
    RtiChecks(g);
    FirqMasks(ReturnState(g));
  }

  /** No other source and not the other line would be taken. */
  predicate Alone(x: Mux, b: State) {
    if x.src == 1 then b.irqs <= {1} && !FirqDeliverable(b) else b.firqs <= {x.src} && !IrqDeliverable(b)
  }

  /** With the line down and nothing else due, RTI resumes the interrupted code. */
  lemma RtiResumes(x: Mux, g: State)
    requires AtRti(g) && !LineUp(x, g) && Alone(x, ReturnState(g))
    ensures Step(g) == Next(ReturnState(g).(ccChanged := false))
  {
    hide AtRti, Step, Irq, Firq, ReturnState;
    RtiChecks(g);
    var b := ReturnState(g);
    if x.src == 1 { assert b.irqs == {}; } else { assert b.firqs == {}; }
  }

  /**
   * A handler in which a register write or a signal happens and that leaves a signal
   * asserted is entered again by its RTI.
   */
  lemma HandlerReenters(x: Mux, h: State, events: seq<MuxEvent>, j: Joint)
    requires Handler(x, h, events) && MuxRun(x, h, events) == Going(j)
    requires Touches(events) && Asserting(j.x)
    requires AtRti(j.m) && !Masked(x, ReturnState(j.m))
    ensures
      var b := ReturnState(j.m);
      if x.src == 1 && FirqDeliverable(b) then
        Step(j.m) == Next(Firq(b).(ccChanged := false)) && LineUp(j.x, Firq(b))
      else Step(j.m) == Next(Entry(x, b).(ccChanged := false))
  {
    hide Handler, MuxRun, Touches, AtRti, Step, Irq, Firq, ReturnState;
    LineFollows(x, h, events);
    RtiReenters(j.x, j.m);
  }

  /**
   * Entering the interrupt at a refresh clears the CPU's pending word: the line is down although
   * a signal is asserted.
   */
  lemma EntryDropsLine(x: Mux, m: State)
    requires Asserting(x) && !Masked(x, m)
    ensures var j := Refreshed(x, m); j == Joint(x, TakenNow(x, m)) && !LineUp(x, j.m) && Masked(x, j.m)
  {
    hide Irq, Firq;
    IrqMasks(m.(irqs := m.irqs + {1}));
    FirqMasks(m.(firqs := m.firqs + {x.src}));
  }

  /**
   * A handler that never writes a register of the multiplexer, with no new signal, loses
   * what is asserted: its RTI resumes the interrupted code, the signals still pending and
   * enabled and the line down.
   */
  lemma SilentHandlerReturns(x: Mux, m: State, events: seq<MuxEvent>, j: Joint)
    requires Asserting(x) && !Masked(x, m)
    requires Handler(x, Refreshed(x, m).m, events) && MuxRun(x, Refreshed(x, m).m, events) == Going(j)
    requires !Touches(events)
    requires AtRti(j.m) && Alone(x, ReturnState(j.m))
    ensures
      var b := ReturnState(j.m);
      Step(j.m) == Next(b.(ccChanged := false)) && j.x == x && Asserting(j.x) && !LineUp(j.x, b)
  {
    hide Handler, MuxRun, Touches, AtRti, Step, Irq, Firq, ReturnState, Refreshed;
    EntryDropsLine(x, m);
    LineFollows(x, Refreshed(x, m).m, events);
    RtiResumes(x, j.m);
    RtiChecks(j.m);
  }

  /**
   * A handler entered for the multiplexer, alone and returning to unmasked code, is entered
   * again by its RTI exactly when a register write or a signal happened in it and a signal
   * is asserted; otherwise the interrupted code resumes.
   */
  lemma ReentersExactly(x: Mux, m: State, events: seq<MuxEvent>, j: Joint)
    requires Asserting(x) && !Masked(x, m)
    requires Handler(x, Refreshed(x, m).m, events) && MuxRun(x, Refreshed(x, m).m, events) == Going(j)
    requires AtRti(j.m) && Alone(x, ReturnState(j.m)) && !Masked(x, ReturnState(j.m))
    ensures
      var b := ReturnState(j.m);
      && (Step(j.m) == Next(Entry(x, b).(ccChanged := false)) <==> Touches(events) && Asserting(j.x))
      && (Step(j.m) == Next(b.(ccChanged := false)) <==> !(Touches(events) && Asserting(j.x)))
  {
    hide Handler, MuxRun, Touches, AtRti, Step, Irq, Firq, ReturnState, Refreshed, LineUp, Asserting;
    EntryDropsLine(x, m);
    LineFollows(x, Refreshed(x, m).m, events);
    var b := ReturnState(j.m);
    EntryMasks(x, b);
    if Touches(events) && Asserting(j.x) { RtiReenters(j.x, j.m); } else { RtiResumes(j.x, j.m); }
  }

  lemma EntryMasks(x: Mux, b: State)
    requires !Masked(x, b)
    ensures Masked(x, Entry(x, b)) && Entry(x, b).(ccChanged := false) != b.(ccChanged := false)
  {
    hide Irq, Firq;
    IrqMasks(b);
    FirqMasks(b);
  }
}
