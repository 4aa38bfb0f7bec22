/** The reloading hardware timer and the main loop that feeds it CPU cycles. */
module Timers {
  import opened Options
  import opened Words
  import opened Bits
  import opened Reference
  import opened Cycles
  import opened Multiplexer

  /** `armed` is an attached interrupt device with the interrupt flag set. */
  datatype Timer = Timer(count: int, reload: nat, armed: bool)

  datatype Tick = Tick(t: Timer, asserted: bool, reloaded: bool, failed: bool)

  /** `hwtimer_decrement`; `failed` is its error branch, a count still negative after the reload. */
  function Decrement(t: Timer, cycles: nat): Tick {
    if t.count == 0 && t.reload == 0 then Tick(t, false, false, false)
    else
      var left := t.count - cycles;
      if left > 0 then Tick(t.(count := left), false, false, false)
      else if left < 0 && t.reload > 0 then Tick(t.(count := left + t.reload), t.armed, true, left + t.reload < 0)
      else Tick(t.(count := 0), t.armed, false, false)
  }

  datatype Tally = Tally(t: Timer, total: nat, asserts: nat, reloads: nat, landings: nat, failed: bool)

  /** A sequence of updates, counting interrupts, reloads and updates that land exactly on zero. */
  function Updates(t: Timer, ds: seq<nat>): Tally {
    if ds == [] then Tally(t, 0, 0, 0, 0, false)
    else
      var before := Updates(t, ds[..|ds| - 1]);
      var d := ds[|ds| - 1];
      var k := Decrement(before.t, d);
      Tally(k.t, before.total + d, before.asserts + Count(k.asserted), before.reloads + Count(k.reloaded),
            before.landings + Count(before.t.count == d && (d != 0 || t.reload != 0)), before.failed || k.failed)
  }

  function Count(b: bool): nat { if b then 1 else 0 }

  /** max(0, ceil((elapsed - init) / reload)): how often a timer wraps. */
  function Wraps(init: nat, reload: nat, elapsed: nat): nat
    requires reload > 0
  {
    if elapsed <= init then 0 else (elapsed - init + reload - 1) / reload
  }

  /** After `elapsed` cycles and k wraps the count is `count`, inside the period. */
  predicate InWrap(init: nat, reload: nat, elapsed: nat, k: nat, count: int) {
    count == init - elapsed + reload * k && if k == 0 then elapsed <= init else 0 <= count < reload
  }

  /** The wrap count is the only k that brings the remaining time into range. */
  lemma WrapsUnique(init: nat, reload: nat, elapsed: nat, k: nat, count: int)
    requires reload > 0 && InWrap(init, reload, elapsed, k, count)
    ensures Wraps(init, reload, elapsed) == k
  {
    if k > 0 {
      assert reload * k >= reload * 1;
      var n := elapsed - init + reload - 1;
      QuotientIs(n, reload, k, n - reload * k);
    }
  }

  lemma WrapStep(init: nat, reload: nat, elapsed: nat, k: nat, count: int, d: nat)
    requires InWrap(init, reload, elapsed, k, count) && d <= reload && count >= 0
    ensures
      if count >= d then InWrap(init, reload, elapsed + d, k, count - d)
      else InWrap(init, reload, elapsed + d, k + 1, count - d + reload)
  {
    assert reload * (k + 1) == reload * k + reload;
  }

  lemma {:induction false} CountIsInWrap(t: Timer, ds: seq<nat>)
    requires t.reload > 0 && 0 <= t.count <= t.reload
    requires forall i | 0 <= i < |ds| :: ds[i] <= t.reload
    ensures
      var r := Updates(t, ds);
      && InWrap(t.count, t.reload, r.total, r.reloads, r.t.count)
      && r.t == t.(count := r.t.count)
      && 0 <= r.t.count <= t.reload
      && !r.failed
      && r.asserts == (if t.armed then r.reloads + r.landings else 0)
  {
    if ds != [] {
      var prefix, d := ds[..|ds| - 1], ds[|ds| - 1];
      CountIsInWrap(t, prefix);
      var before := Updates(t, prefix);
      WrapStep(t.count, t.reload, before.total, before.reloads, before.t.count, d);
      hide InWrap;
      assert d <= t.reload;
    }
  }

  /**
   * With a reload above zero, a start inside the period and updates no longer
   * than it: the count depends only on the total, not on how it was split, it
   * stays in range, the error branch is never reached, and an armed timer
   * interrupts once per wrap and once per update that lands exactly on zero.
   */
  lemma ClosedForm(t: Timer, ds: seq<nat>)
    requires t.reload > 0 && 0 <= t.count <= t.reload
    requires forall i | 0 <= i < |ds| :: ds[i] <= t.reload
    ensures
      var r := Updates(t, ds);
      var wraps := Wraps(t.count, t.reload, r.total);
      && r.t == t.(count := t.count - r.total + t.reload * wraps)
      && 0 <= r.t.count <= t.reload
      && !r.failed
      && r.reloads == wraps
      && r.asserts == (if t.armed then wraps + r.landings else 0)
  {
    CountIsInWrap(t, ds);
    var r := Updates(t, ds);
    WrapsUnique(t.count, t.reload, r.total, r.reloads, r.t.count);
  }

  /** How a total was split into updates does not show in the count. */
  lemma SplitInvariant(t: Timer, ds: seq<nat>, es: seq<nat>)
    requires t.reload > 0 && 0 <= t.count <= t.reload
    requires forall i | 0 <= i < |ds| :: ds[i] <= t.reload
    requires forall i | 0 <= i < |es| :: es[i] <= t.reload
    requires Updates(t, ds).total == Updates(t, es).total
    ensures Updates(t, ds).t == Updates(t, es).t && Updates(t, ds).reloads == Updates(t, es).reloads
  {
    ClosedForm(t, ds);
    ClosedForm(t, es);
  }

  /**
   * Without a reload an armed timer fires exactly once, in the update that reaches its count,
   * and then stays at zero.
   */
  lemma {:induction false} OneShot(t: Timer, ds: seq<nat>)
    requires t.reload == 0 && t.count > 0
    ensures
      var r := Updates(t, ds);
      && r.t == t.(count := if r.total < t.count then t.count - r.total else 0)
      && r.asserts == Count(t.armed && r.total >= t.count)
      && !r.failed
  {
    if ds != [] { OneShot(t, ds[..|ds| - 1]); }
  }

  /** A single update fails exactly when it is longer than the count and one period together. */
  lemma FailsExactly(t: Timer, cycles: nat)
    requires t.count >= 0
    ensures Decrement(t, cycles).failed <==> t.reload > 0 && cycles > t.count + t.reload
  {
  }

  // ---------------------------------------------------------------- the main loop

  const SLICE := 1024
  const OSCILLATOR_RELOAD := 2048

  /** CPU, multiplexer and oscillator with the cycle totals of the main loop. */
  datatype World = World(m: State, x: Mux, t: Timer, line: nat, total: nat, prev: nat)

  datatype Round = Round(w: World) | Halted | TimerError

  /** Run one slice, add its cycles to the total, then update the timer with the difference. */
  function MainRound(w: World, slice: nat): (r: Round)
    requires slice >= 1 && w.prev <= w.total
    ensures r.Round? ==> r.w.prev == r.w.total && r.w.t.reload == w.t.reload
  {
    SliceBudget(w.m.(clk := slice));
    match Slice(w.m.(clk := slice))
    case Next(r) =>
      var used := slice - r.clk;
      var total := w.total + used;
      var k := Decrement(w.t, total - w.prev);
      if k.failed then TimerError
      else
        var m := r.(clk := used);
        var j := if k.asserted then Signal(w.x, m, w.line) else Joint(w.x, m);
        Round(World(j.m, j.x, k.t, w.line, total, total))
    case _ => Halted
  }

  function MainLoop(w: World, slice: nat, rounds: nat): Round
    requires slice >= 1 && w.prev <= w.total
    decreases rounds
  {
    if rounds == 0 then Round(w)
    else match MainRound(w, slice)
      case Round(v) => MainLoop(v, slice, rounds - 1)
      case stop => stop
  }

  /** The state of the oscillator between rounds. */
  predicate InPeriod(w: World) {
    w.prev == w.total && 0 <= w.t.count <= w.t.reload
  }

  /** The main loop is still inside the period, or the CPU stopped; the timer did not fail. */
  predicate Survives(reload: nat, r: Round) {
    match r
    case Round(v) => InPeriod(v) && v.t.reload == reload
    case Halted => true
    case TimerError => false
  }

  lemma RoundInPeriod(w: World, slice: nat)
    requires slice >= 1 && InPeriod(w) && slice + 19 <= w.t.reload
    ensures Survives(w.t.reload, MainRound(w, slice))
    ensures
      match MainRound(w, slice)
      case Round(v) => w.total + slice <= v.total <= w.total + slice + 19
      case _ => true
  {
    SliceBudget(w.m.(clk := slice));
    hide Slice, Signal;
  }

  /**
   * When a slice and the worst overshoot fit into one period, the main loop never
   * reaches the timer's error branch, and the count stays within the period.
   */
  lemma {:induction false} TimerNeverFails(w: World, slice: nat, rounds: nat)
    requires slice >= 1 && InPeriod(w) && slice + 19 <= w.t.reload
    ensures Survives(w.t.reload, MainLoop(w, slice, rounds))
    decreases rounds
  {
    if rounds == 0 {
      assert MainLoop(w, slice, 0) == Round(w);
    } else {
      RoundInPeriod(w, slice);
      var r := MainRound(w, slice);
      hide MainRound;
      if r.Round? {
        TimerNeverFails(r.w, slice, rounds - 1);
        assert MainLoop(w, slice, rounds) == MainLoop(r.w, slice, rounds - 1);
      }
    }
  }

  /** At 1 MHz, 1024-cycle slices keep the 2048-cycle oscillator out of its error branch for ever. */
  lemma OscillatorSafe(w: World, rounds: nat)
    requires InPeriod(w) && w.t.reload == OSCILLATOR_RELOAD
    ensures !MainLoop(w, SLICE, rounds).TimerError?
  {
    TimerNeverFails(w, SLICE, rounds);
  }

  // ---------------------------------------------------------------- slices as long as the period

  /** The cycles the slices of the main loop consume, up to the round that stops it. */
  function Used(w: World, slice: nat, rounds: nat): seq<nat>
    requires slice >= 1 && w.prev <= w.total
    decreases rounds
  {
    if rounds == 0 then []
    else
      SliceBudget(w.m.(clk := slice));
      match Slice(w.m.(clk := slice))
      case Next(r) =>
        [slice - r.clk] + (match MainRound(w, slice) case Round(v) => Used(v, slice, rounds - 1) case _ => [])
      case _ => []
  }

  /** By how much slices overshoot altogether. */
  function Overshoot(used: seq<nat>, slice: nat): int {
    if used == [] then 0 else used[0] - slice + Overshoot(used[1..], slice)
  }

  /**
   * What the count can absorb: nothing once a slice took it from a full period exactly to zero,
   * where it is not reloaded.
   */
  function Slack(count: int, used: seq<nat>, slice: nat): int {
    if count == slice && used != [] && used[0] == slice then 0 else count
  }

  /** One round with a slice as long as the period. */
  lemma RoundAtPeriod(w: World, slice: nat)
    requires slice >= 1 && InPeriod(w) && w.t.reload == slice
    ensures
      match Slice(w.m.(clk := slice))
      case Next(r) =>
        var used := slice - r.clk;
        used >= slice &&
        (match MainRound(w, slice)
         case Round(v) =>
           && InPeriod(v) && v.t.reload == slice
           && v.t.count == (if w.t.count == slice == used then 0 else w.t.count - (used - slice))
           && used - slice <= w.t.count
         case TimerError => used - slice > w.t.count
         case Halted => false)
      case _ => MainRound(w, slice) == Halted
  {
    SliceBudget(w.m.(clk := slice));
    hide Slice, Signal;
  }

  /**
   * When a slice is as long as the period, the main loop reaches the timer's error
   * branch exactly when the overshoots exceed the count it started with, or exceed
   * nothing if the first slice took a full count exactly to zero.
   */
  lemma {:induction false} FailsAtPeriodExactly(w: World, slice: nat, rounds: nat)
    requires slice >= 1 && InPeriod(w) && w.t.reload == slice
    ensures
      var used := Used(w, slice, rounds);
      MainLoop(w, slice, rounds).TimerError? <==> Overshoot(used, slice) > Slack(w.t.count, used, slice)
    decreases rounds
  {
    hide Slice, MainRound;
    if rounds > 0 {
      RoundAtPeriod(w, slice);
      match MainRound(w, slice) {
        case Round(v) =>
          FailsAtPeriodExactly(v, slice, rounds - 1);
          assert Used(w, slice, rounds)[1..] == Used(v, slice, rounds - 1);
          assert MainLoop(w, slice, rounds) == MainLoop(v, slice, rounds - 1);
        case TimerError => assert |Used(w, slice, rounds)[1..]| == 0;
        case Halted => assert Used(w, slice, rounds) == [];
      }
    }
  }

  // ---------------------------------------------------------------- a program that fails it

  /** `BRA *` with both interrupts masked, as after a reset. */
  predicate Spinning(m: State) {
    && m.pc + 1 < 0x1_0000 && m.mem[m.pc] == 0x20 && m.mem[m.pc + 1] == 0xfe
    && m.cc.i && m.cc.f
  }

  lemma SpinStep(m: State)
    requires Spinning(m)
    ensures Step(m) == Next(m.(clk := m.clk - 3, ccChanged := false))
  {
    hide OpPage2, OpPage3, Bit;
    assert OpAt(m.mem, m.pc) == Some(ShortBranch(RA));
    assert TailAt(m.mem, m.pc + 1).b0 == 0xfe;
    assert Fetch(m.mem, m.pc) == Insn(ShortBranch(RA), 2, TailAt(m.mem, m.pc + 1));
    hide Fetch;
    assert S8(0xfe) == -2;
    assert Body(m) == Next(m.(clk := m.clk - 3));
  }

  /** A slice runs the three-cycle loop until the budget is spent. */
  lemma {:induction false} SpinSlice(m: State)
    requires Spinning(m) && m.clk >= 1
    ensures Slice(m) == Next(m.(clk := -((-m.clk) % 3), ccChanged := false))
    decreases m.clk
  {
    hide Step;
    SpinStep(m);
    hide Spinning;
    if m.clk > 3 { SpinSlice(m.(clk := m.clk - 3, ccChanged := false)); }
  }

  const DOUBLE_SLICE := 2 * SLICE

  lemma SpinRound(w: World)
    requires Spinning(w.m) && w.prev <= w.total
    ensures Slice(w.m.(clk := DOUBLE_SLICE)) == Next(w.m.(clk := -1, ccChanged := false))
    ensures match MainRound(w, DOUBLE_SLICE) case Round(v) => Spinning(v.m) case _ => true
  {
    hide Slice, Signal, Step;
    SpinSlice(w.m.(clk := DOUBLE_SLICE));
    assert (-DOUBLE_SLICE) % 3 == 1;
    SignalKeepsSpinning(w.x, w.m.(clk := DOUBLE_SLICE + 1, ccChanged := false), w.line);
    hide Decrement;
  }

  /** With both interrupts masked a signal only marks its line pending. */
  lemma SignalKeepsSpinning(x: Mux, m: State, sig: nat)
    requires Spinning(m)
    ensures Spinning(Signal(x, m, sig).m)
  {
    hide Irq, Firq;
  }

  lemma {:induction false} SpinUses(w: World, rounds: nat)
    requires Spinning(w.m) && InPeriod(w) && w.t.reload == DOUBLE_SLICE
    ensures
      var used := Used(w, DOUBLE_SLICE, rounds);
      && (used != [] ==> used[0] == DOUBLE_SLICE + 1)
      && Overshoot(used, DOUBLE_SLICE) == if rounds <= w.t.count then rounds else w.t.count + 1
    decreases rounds
  {
    hide Slice, MainRound, Spinning;
    if rounds > 0 {
      SpinRound(w);
      RoundAtPeriod(w, DOUBLE_SLICE);
      match MainRound(w, DOUBLE_SLICE) {
        case Round(v) => SpinUses(v, rounds - 1);
        case _ =>
      }
    }
  }

  /**
   * At 2 MHz a slice is 2048 cycles, the oscillator's period. A program that only
   * branches to itself overshoots by one cycle in every slice, so it reaches the
   * error branch exactly when there are more rounds than the count left.
   */
  lemma TwoMegahertzFails(w: World, rounds: nat)
    requires Spinning(w.m) && InPeriod(w) && w.t.reload == OSCILLATOR_RELOAD
    ensures MainLoop(w, DOUBLE_SLICE, rounds).TimerError? <==> rounds > w.t.count
  {
    SpinUses(w, rounds);
    FailsAtPeriodExactly(w, DOUBLE_SLICE, rounds);
    hide MainLoop, Used, Overshoot;
  }
}
