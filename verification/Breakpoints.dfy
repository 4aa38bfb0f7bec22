/** The breakpoint table, its fast-path counter and the per-instruction hook. */
module Breakpoints {
  import opened Options

  const MAX_BREAKS := 32

  datatype Break = Break(
    used: bool, enabled: bool, id: nat, conditional: bool, keepRunning: bool, temp: bool, ignoreCount: nat,
    onExecute: bool, onRead: bool, onWrite: bool, addr: nat)

  const UNUSED := Break(false, false, 0, false, false, false, 0, false, false, false, 0)

  type Table = seq<Break>

  /** The lowest free slot from n on. */
  function FreeFrom(t: Table, n: nat): (r: Option<nat>)
    requires n <= |t|
    ensures r.Some? ==> n <= r.value < |t| && !t[r.value].used && forall i | n <= i < r.value :: t[i].used
    ensures r.None? ==> forall i | n <= i < |t| :: t[i].used
    decreases |t| - n
  {
    if n == |t| then None else if !t[n].used then Some(n) else FreeFrom(t, n + 1)
  }

  /** The lowest slot from n on that holds the address, used or not. */
  function FirstFrom(t: Table, addr: nat, n: nat): (r: Option<nat>)
    requires n <= |t|
    ensures r.Some? ==>
      n <= r.value < |t| && t[r.value].addr == addr && forall i | n <= i < r.value :: t[i].addr != addr
    ensures r.None? ==> forall i | n <= i < |t| :: t[i].addr != addr
    decreases |t| - n
  {
    if n == |t| then None else if t[n].addr == addr then Some(n) else FirstFrom(t, addr, n + 1)
  }

  function First(t: Table, addr: nat): Option<nat> { FirstFrom(t, addr, 0) }

  function Allocated(t: Table, k: nat): Table
    requires k < |t|
  {
    t[k := t[k].(used := true, enabled := true, id := k, conditional := false, keepRunning := false,
                 ignoreCount := 0, temp := false)]
  }

  function Freed(t: Table, k: nat): Table
    requires k < |t|
  {
    t[k := t[k].(used := false, enabled := false)]
  }

  function CountEnabled(t: Table): nat {
    if t == [] then 0 else CountEnabled(t[..|t| - 1]) + if t[|t| - 1].enabled then 1 else 0
  }

  /** What a command asks of the slot it was given. */
  datatype Kind =
    | Execute(conditional: bool, ignoreCount: nat)
    | Temporary
    | Watch(onRead: bool, onWrite: bool, keepRunning: bool, conditional: bool)

  const WATCH_BOTH := Watch(true, true, false, false)

  /** The flags of the other kinds stay as the slot's last occupant left them. */
  function Dressed(b: Break, addr: nat, kind: Kind): Break {
    match kind
    case Execute(cond, count) => b.(addr := addr, onExecute := true, conditional := cond, ignoreCount := count)
    case Temporary => b.(addr := addr, onExecute := true, temp := true)
    case Watch(r, w, keep, cond) =>
      b.(addr := addr, onRead := r, onWrite := w, keepRunning := keep, conditional := cond)
  }

  /** With no slot free the command has nothing to write to; the table stays. */
  function Placed(t: Table, addr: nat, kind: Kind): (r: Table)
    ensures |r| == |t|
  {
    match FreeFrom(t, 0)
    case Some(k) => Allocated(t, k)[k := Dressed(Allocated(t, k)[k], addr, kind)]
    case None => t
  }

  function TempsFreed(t: Table, n: nat): (r: Table)
    requires n <= |t|
    ensures |r| == |t| && forall i | 0 <= i < |t| ::
      r[i] == if i < n && t[i].used && t[i].temp then t[i].(used := false, enabled := false) else t[i]
  {
    if n == 0 then t
    else
      var s := TempsFreed(t, n - 1);
      if s[n - 1].used && s[n - 1].temp then Freed(s, n - 1) else s
  }

  function AllFreed(t: Table, n: nat): (r: Table)
    requires n <= |t|
    ensures |r| == |t| && forall i | 0 <= i < |t| ::
      r[i] == if i < n then t[i].(used := false, enabled := false) else t[i]
  {
    if n == 0 then t else Freed(AllFreed(t, n - 1), n - 1)
  }

  datatype Debugger = Debugger(table: Table, monitorOn: bool)

  /** `breakpoint_hit`; cond is the value of the breakpoint's condition. */
  function Hit(d: Debugger, k: nat, cond: bool): (r: Debugger)
    requires k < |d.table|
    ensures |r.table| == |d.table|
  {
    var b := d.table[k];
    if b.conditional && !cond then d
    else if b.ignoreCount > 0 then d.(table := d.table[k := b.(ignoreCount := b.ignoreCount - 1)])
    else d.(monitorOn := !b.keepRunning)
  }

  /** `command_insn_hook` without its fast path */
  function Fetched(d: Debugger, addr: nat, cond: bool): (r: Debugger)
    ensures |r.table| == |d.table|
  {
    match First(d.table, addr)
    case Some(k) =>
      if d.table[k].enabled && d.table[k].onExecute then
        var e := Hit(d, k, cond);
        if e.monitorOn && e.table[k].temp then e.(table := Freed(e.table, k)) else e
      else d
    case None => d
  }

  // ---------------------------------------------------------------- histories

  datatype Event =
    | Place(addr: nat, kind: Kind)
    | Delete(slot: nat)
    | DeleteAll
    | EnterMonitor
    | LeaveMonitor
    | Fetch(addr: nat, cond: bool)

  function After(d: Debugger, e: Event): (r: Debugger)
    ensures |r.table| == |d.table|
  {
    match e
    case Place(addr, kind) => d.(table := Placed(d.table, addr, kind))
    case Delete(k) => if k < |d.table| && d.table[k].used then d.(table := Freed(d.table, k)) else d
    case DeleteAll => d.(table := AllFreed(d.table, |d.table|))
    case EnterMonitor => d.(table := TempsFreed(d.table, |d.table|))
    case LeaveMonitor => d.(monitorOn := false)
    case Fetch(addr, cond) => Fetched(d, addr, cond)
  }

  /** The zeroed table. */
  function Start(): Debugger { Debugger(seq(MAX_BREAKS, _ => UNUSED), false) }

  function AfterAll(es: seq<Event>): (r: Debugger)
    ensures |r.table| == MAX_BREAKS
  {
    if es == [] then Start() else After(AfterAll(es[..|es| - 1]), es[|es| - 1])
  }

  // ---------------------------------------------------------------- the counter

  ghost predicate Sound(t: Table) { forall i | 0 <= i < |t| :: t[i].enabled == t[i].used }

  lemma {:induction false} CountChanges(t: Table, k: nat, b: Break)
    requires k < |t|
    ensures CountEnabled(t[k := b]) ==
      CountEnabled(t) + (if b.enabled then 1 else 0) - (if t[k].enabled then 1 else 0)
  {
    var u, n := t[k := b], |t| - 1;
    if k == n { assert u[..n] == t[..n]; } else {
      assert u[..n] == t[..n][k := b];
      CountChanges(t[..n], k, b);
    }
  }

  lemma {:induction false} NoneEnabled(t: Table)
    ensures CountEnabled(t) == 0 <==> forall i | 0 <= i < |t| :: !t[i].enabled
  {
    if t != [] { NoneEnabled(t[..|t| - 1]); }
  }

  lemma StepSound(d: Debugger, e: Event)
    requires Sound(d.table)
    ensures Sound(After(d, e).table)
  {
    match e
    case Fetch(addr, cond) => FetchedSound(d, addr, cond);
    case _ =>
  }

  lemma FetchedSound(d: Debugger, addr: nat, cond: bool)
    requires Sound(d.table)
    ensures Sound(Fetched(d, addr, cond).table)
  {
  }

  /** In every history an entry is enabled exactly when it is used. */
  lemma {:induction false} EnabledIsUsed(es: seq<Event>)
    ensures Sound(AfterAll(es).table)
  {
    if es != [] {
      EnabledIsUsed(es[..|es| - 1]);
      StepSound(AfterAll(es[..|es| - 1]), es[|es| - 1]);
    }
  }

  // ---------------------------------------------------------------- finding by address

  predicate Live(t: Table, j: int) { 0 <= j < |t| && t[j].used }

  /** A search for the address of a live entry gives a live entry. */
  ghost predicate Reachable(t: Table) {
    forall j | Live(t, j) :: Live(t, First(t, t[j].addr).value)
  }

  ghost predicate Distinct(t: Table) {
    forall i, j | Live(t, i) && Live(t, j) && i != j :: t[i].addr != t[j].addr
  }

  lemma FirstIs(t: Table, addr: nat, k: nat)
    requires k < |t| && t[k].addr == addr && forall i | 0 <= i < k :: t[i].addr != addr
    ensures First(t, addr) == Some(k)
  {
  }

  /**
   * The lowest free slot lies behind live entries only, so placing never hides a live entry,
   * even a second one at its address.
   */
  lemma PlacingKeeps(t: Table, addr: nat, kind: Kind)
    requires Reachable(t)
    ensures Reachable(Placed(t, addr, kind))
  {
    var u := Placed(t, addr, kind);
    if u != t {
      var k := FreeFrom(t, 0).value;
      forall j | Live(u, j) ensures Live(u, First(u, u[j].addr).value) {
        if u[k].addr == u[j].addr {
          assert First(u, u[j].addr).value <= k;
        } else {
          var was := First(t, t[j].addr).value;
          assert Live(t, j) && Live(t, was);
          FirstIs(u, u[j].addr, was);
        }
      }
    }
  }

  lemma SameFirst(t: Table, u: Table, addr: nat)
    requires |u| == |t| && forall i | 0 <= i < |t| :: u[i].addr == t[i].addr
    ensures First(u, addr) == First(t, addr)
  {
    if First(t, addr).Some? { FirstIs(u, addr, First(t, addr).value); }
  }

  /** The entry is the one found for its address, and another live entry has that address. */
  ghost predicate Hides(t: Table, k: nat)
    requires k < |t|
  {
    First(t, t[k].addr) == Some(k) && exists j :: Live(t, j) && j != k && t[j].addr == t[k].addr
  }

  /** Placing at another address in the slot of a freed entry uncovers what it hid. */
  lemma ReuseUncovers(t: Table, a: nat, k: nat, j: nat, c: nat, kind: Kind)
    requires First(t, a) == Some(k) && FreeFrom(t, 0) == Some(k) && c != a
    requires k < j < |t| && t[j].addr == a && forall i | k < i < j :: t[i].addr != a
    ensures First(Placed(t, c, kind), a) == Some(j)
  {
    FirstIs(Placed(t, c, kind), a, j);
  }

  /**
   * Freeing a live entry keeps the others reachable exactly unless it hides one: the
   * freed slot keeps its address and goes on standing before the other.
   */
  lemma FreeingKeepsExactly(t: Table, k: nat)
    requires Reachable(t) && Live(t, k)
    ensures Reachable(Freed(t, k)) <==> !Hides(t, k)
  {
    FreeingExactly(t, Freed(t, k), k);
  }

  lemma FreeingExactly(t: Table, u: Table, k: nat)
    requires Reachable(t) && Live(t, k) && |u| == |t| && !u[k].used
    requires forall i | 0 <= i < |t| :: u[i].addr == t[i].addr && (i != k ==> u[i].used == t[i].used)
    ensures Reachable(u) <==> !Hides(t, k)
  {
    var a := t[k].addr;
    if Hides(t, k) {
      var j :| Live(t, j) && j != k && t[j].addr == a;
      SameFirst(t, u, a);
      assert Live(u, j) && u[j].addr == a && !Live(u, k);
    } else {
      forall j | Live(u, j) ensures Live(u, First(u, u[j].addr).value) {
        SameFirst(t, u, u[j].addr);
        assert Live(t, j) && Live(t, First(t, t[j].addr).value);
      }
    }
  }

  lemma SameAddrs(t: Table, u: Table)
    requires |u| == |t| && forall i | 0 <= i < |t| :: u[i].addr == t[i].addr && (u[i].used ==> t[i].used)
    requires Reachable(t) && Distinct(t)
    ensures Reachable(u) && Distinct(u)
  {
    forall j | Live(u, j) ensures First(u, u[j].addr) == Some(j) {
      FoundIsIt(t, j);
      FirstIs(u, u[j].addr, j);
    }
  }

  /** With distinct live addresses the entry found is the live entry itself. */
  lemma FoundIsIt(t: Table, j: nat)
    requires Reachable(t) && Distinct(t) && Live(t, j)
    ensures First(t, t[j].addr) == Some(j)
  {
    assert Live(t, First(t, t[j].addr).value);
  }

  lemma FetchedAddrs(d: Debugger, addr: nat, cond: bool)
    ensures forall i | 0 <= i < |d.table| :: var b := Fetched(d, addr, cond).table[i];
      b.addr == d.table[i].addr && (b.used ==> d.table[i].used)
  {
    if First(d.table, addr).Some? {
      var k := First(d.table, addr).value;
      HitKeepsPlace(d, k, cond);
      hide Hit;
    }
  }

  lemma HitKeepsPlace(d: Debugger, k: nat, cond: bool)
    requires k < |d.table|
    ensures
      var e := Hit(d, k, cond);
      && e.table[k].addr == d.table[k].addr && e.table[k].used == d.table[k].used
      && e.table == d.table[k := e.table[k]]
  {
  }

  lemma StepKeeps(d: Debugger, e: Event)
    requires Reachable(d.table) && Distinct(d.table)
    ensures Reachable(After(d, e).table)
    ensures !e.Place? ==> Distinct(After(d, e).table)
  {
    match e
    case Place(addr, kind) => PlacingKeeps(d.table, addr, kind);
    case Fetch(addr, cond) =>
      FetchedAddrs(d, addr, cond);
      SameAddrs(d.table, Fetched(d, addr, cond).table);
    case _ => SameAddrs(d.table, After(d, e).table);
  }

  /**
   * In every history in which no two live entries ever share an address, a search for
   * the address of a live entry finds that entry: no freed slot stands before it.
   */
  lemma {:induction false} LiveIsFound(es: seq<Event>, j: nat)
    requires forall n | 0 <= n <= |es| :: Distinct(AfterAll(es[..n]).table)
    ensures Reachable(AfterAll(es).table)
    ensures Live(AfterAll(es).table, j) ==> First(AfterAll(es).table, AfterAll(es).table[j].addr) == Some(j)
  {
    assert es[..|es|] == es;
    if es != [] {
      var was := es[..|es| - 1];
      assert forall n | 0 <= n <= |was| :: was[..n] == es[..n];
      LiveIsFound(was, j);
      StepKeeps(AfterAll(was), es[|es| - 1]);
    }
    if Live(AfterAll(es).table, j) { FoundIsIt(AfterAll(es).table, j); }
  }

  /** It is enough that no command places at an address that is live. */
  lemma {:induction false} FreshPlacesStayDistinct(es: seq<Event>)
    requires forall n | 0 <= n < |es| && es[n].Place? ::
      forall j | Live(AfterAll(es[..n]).table, j) :: AfterAll(es[..n]).table[j].addr != es[n].addr
    ensures Reachable(AfterAll(es).table) && Distinct(AfterAll(es).table)
  {
    if es != [] {
      var last := |es| - 1;
      var was := es[..last];
      assert forall n | 0 <= n < last :: was[..n] == es[..n] && was[n] == es[n];
      FreshPlacesStayDistinct(was);
      assert AfterAll(es) == After(AfterAll(was), es[last]);
      hide AfterAll, Placed, Fetched, Reachable, Distinct;
      StepKeeps(AfterAll(was), es[last]);
      if es[last].Place? { PlacingFresh(AfterAll(was).table, es[last].addr, es[last].kind); }
    }
  }

  lemma PlacingFresh(t: Table, addr: nat, kind: Kind)
    requires Distinct(t) && forall j | Live(t, j) :: t[j].addr != addr
    ensures Distinct(Placed(t, addr, kind))
  {
    var u := Placed(t, addr, kind);
    forall i, j | Live(u, i) && Live(u, j) && i != j ensures u[i].addr != u[j].addr {
      assert u[i] != t[i] || Live(t, i);
      assert u[j] != t[j] || Live(t, j);
    }
  }

  ghost predicate Stops(b: Break, cond: bool) {
    b.onExecute && (b.conditional ==> cond) && b.ignoreCount == 0 && !b.keepRunning
  }

  /** A fetch turns the monitor on exactly when a live entry for executing that address asks for it. */
  lemma FetchStops(d: Debugger, addr: nat, cond: bool)
    requires Sound(d.table) && Reachable(d.table) && Distinct(d.table) && !d.monitorOn
    ensures Fetched(d, addr, cond).monitorOn <==>
      exists j :: Live(d.table, j) && d.table[j].addr == addr && Stops(d.table[j], cond)
  {
    forall j | Live(d.table, j) && d.table[j].addr == addr ensures First(d.table, addr) == Some(j) {
      FoundIsIt(d.table, j);
    }
  }

  function Fetches(d: Debugger, addr: nat, n: nat): (r: Debugger)
    ensures |r.table| == |d.table|
    decreases n
  {
    if n == 0 then d else Fetches(Fetched(d, addr, true), addr, n - 1)
  }

  /** An entry with ignore count n lets exactly n fetches pass. */
  lemma {:induction false} IgnoresExactly(d: Debugger, addr: nat, n: nat)
    requires !d.monitorOn && First(d.table, addr).Some?
    requires var b := d.table[First(d.table, addr).value];
      b.enabled && b.onExecute && !b.keepRunning && b.ignoreCount == n
    ensures forall m | 0 <= m <= n :: !Fetches(d, addr, m).monitorOn
    ensures Fetches(d, addr, n + 1).monitorOn
    decreases n
  {
    if n == 0 {
      assert Fetches(d, addr, 1) == Fetched(d, addr, true);
    } else {
      var e := Fetched(d, addr, true);
      var k := First(d.table, addr).value;
      FirstIs(e.table, addr, k);
      IgnoresExactly(e, addr, n - 1);
      forall m | 0 <= m <= n ensures !Fetches(d, addr, m).monitorOn {
        if m > 0 { assert Fetches(d, addr, m) == Fetches(e, addr, m - 1); }
      }
    }
  }

  // ---------------------------------------------------------------- what freed slots leave behind

  function Landed(es: seq<Event>, k: nat): bool {
    if es == [] then false
    else
      var was, e := es[..|es| - 1], es[|es| - 1];
      Landed(was, k) || (e.Place? && !e.kind.Watch? && FreeFrom(AfterAll(was).table, 0) == Some(k))
  }

  lemma StepExecutes(d: Debugger, e: Event, k: nat)
    requires k < |d.table|
    ensures After(d, e).table[k].onExecute ==
      (d.table[k].onExecute || (e.Place? && !e.kind.Watch? && FreeFrom(d.table, 0) == Some(k)))
  {
    match e
    case Place(addr, kind) =>
    case Fetch(addr, cond) => FetchKeepsKinds(d, addr, cond, k);
    case _ =>
  }

  lemma FetchKeepsKinds(d: Debugger, addr: nat, cond: bool, k: nat)
    requires k < |d.table|
    ensures Fetched(d, addr, cond).table[k].onExecute == d.table[k].onExecute
  {
  }

  /** A slot stops execution once any execution breakpoint ever landed in it, whatever it holds now. */
  lemma {:induction false} ExecutesExactly(es: seq<Event>, k: nat)
    requires k < MAX_BREAKS
    ensures AfterAll(es).table[k].onExecute == Landed(es, k)
  {
    if es != [] {
      ExecutesExactly(es[..|es| - 1], k);
      StepExecutes(AfterAll(es[..|es| - 1]), es[|es| - 1], k);
    }
  }

  /** A watchpoint in the slot of a deleted breakpoint also stops execution at its address. */
  lemma WatchStopsExecution(a: nat, b: nat, d: Debugger)
    requires |d.table| > 0 && !d.table[0].used && !d.monitorOn
    ensures
      var e := After(After(After(d, Place(a, Execute(false, 0))), Delete(0)), Place(b, WATCH_BOTH));
      Fetched(e, b, true).monitorOn
  {
    assert FreeFrom(d.table, 0) == Some(0);
    var d1 := After(d, Place(a, Execute(false, 0)));
    var d2 := After(d1, Delete(0));
    assert FreeFrom(d2.table, 0) == Some(0);
    var e := After(d2, Place(b, WATCH_BOTH));
    assert First(e.table, b) == Some(0);
  }

  lemma Unrolled(es: seq<Event>, e: Event)
    ensures AfterAll(es + [e]) == After(AfterAll(es), e)
  {
    assert (es + [e])[..|es|] == es;
  }

  /**
   * A temporary entry landing before a user's entry for the same address takes its
   * one stop, and its freed slot then hides the user's entry.
   */
  lemma TemporaryHides(a: nat, b: nat)
    requires a != b
    ensures
      var es := [Place(a, Execute(false, 0)), Place(b, Execute(false, 0)), Delete(0), Place(b, Temporary),
                 Fetch(b, true), LeaveMonitor];
      var d := AfterAll(es);
      Live(d.table, 1) && d.table[1].addr == b && Stops(d.table[1], true) && !Fetched(d, b, true).monitorOn
  {
    var e1, e2, e3 := Place(a, Execute(false, 0)), Place(b, Execute(false, 0)), Delete(0);
    var e4, e5, e6 := Place(b, Temporary), Fetch(b, true), LeaveMonitor;
    assert [e1, e2] == [e1] + [e2] && [e1, e2, e3] == [e1, e2] + [e3] && [e1] == [] + [e1];
    assert [e1, e2, e3, e4] == [e1, e2, e3] + [e4] && [e1, e2, e3, e4, e5] == [e1, e2, e3, e4] + [e5];
    assert [e1, e2, e3, e4, e5, e6] == [e1, e2, e3, e4, e5] + [e6];
    Unrolled([], e1); Unrolled([e1], e2); Unrolled([e1, e2], e3); Unrolled([e1, e2, e3], e4);
    Unrolled([e1, e2, e3, e4], e5); Unrolled([e1, e2, e3, e4, e5], e6);
    TwoPlaced(a, b);
    TemporaryTakes(AfterAll([e1, e2]), b);
  }

  lemma TwoPlaced(a: nat, b: nat)
    ensures
      var d := After(After(Start(), Place(a, Execute(false, 0))), Place(b, Execute(false, 0)));
      Live(d.table, 0) && Live(d.table, 1) && d.table[0].addr == a && d.table[1].addr == b
      && Stops(d.table[1], true) && d.table[1].enabled && !d.monitorOn
  {
    var d1 := After(Start(), Place(a, Execute(false, 0)));
    assert d1.table[0].used && !d1.table[1].used;
    assert FreeFrom(d1.table, 0) == Some(1);
  }

  lemma TemporaryTakes(d: Debugger, b: nat)
    requires |d.table| >= 2 && Live(d.table, 0) && Live(d.table, 1) && !d.monitorOn
    requires d.table[1].addr == b && Stops(d.table[1], true)
    ensures
      var e := After(After(After(After(d, Delete(0)), Place(b, Temporary)), Fetch(b, true)), LeaveMonitor);
      Live(e.table, 1) && e.table[1].addr == b && Stops(e.table[1], true) && !Fetched(e, b, true).monitorOn
  {
    var d1 := After(d, Delete(0));
    var d2 := After(d1, Place(b, Temporary));
    assert FreeFrom(d1.table, 0) == Some(0);
    assert First(d2.table, b) == Some(0);
    var d3 := After(d2, Fetch(b, true));
    assert First(d3.table, b) == Some(0);
  }

  // ---------------------------------------------------------------- the table in place

  class BreakTable {
    const breaktab: array<Break>
    var activeCount: nat
    var monitorOn: bool

    ghost predicate Valid()
      reads this, breaktab
    {
      breaktab.Length == MAX_BREAKS && Sound(breaktab[..]) && activeCount == CountEnabled(breaktab[..])
    }

    ghost function Model(): Debugger
      reads this, breaktab
    {
      Debugger(breaktab[..], monitorOn)
    }

    constructor ()
      ensures Valid() && fresh(breaktab) && Model() == Start()
    {
      breaktab := new Break[MAX_BREAKS](_ => UNUSED);
      activeCount := 0;
      monitorOn := false;
      new;
      assert breaktab[..] == Start().table;
      NoneEnabled(breaktab[..]);
    }

    /** `brk_enable` */
    method Enable(n: nat, flag: bool)
      requires n < breaktab.Length && activeCount == CountEnabled(breaktab[..])
      modifies breaktab, this`activeCount
      ensures breaktab[..] == old(breaktab[..])[n := old(breaktab[n]).(enabled := flag)]
      ensures activeCount == CountEnabled(breaktab[..])
    {
      CountChanges(breaktab[..], n, breaktab[n].(enabled := flag));
      if breaktab[n].enabled != flag {
        breaktab[n] := breaktab[n].(enabled := flag);
        if flag {
          activeCount := activeCount + 1;
        } else {
          activeCount := activeCount - 1;
        }
      }
    }

    /** `brkalloc` */
    method Alloc() returns (r: Option<nat>)
      requires Valid()
      modifies breaktab, this`activeCount
      ensures Valid()
      ensures r == FreeFrom(old(breaktab[..]), 0)
      ensures breaktab[..] == if r.Some? then Allocated(old(breaktab[..]), r.value) else old(breaktab[..])
    {
      ghost var t := breaktab[..];
      for n := 0 to MAX_BREAKS
        invariant breaktab[..] == t && Valid()
        invariant FreeFrom(t, 0) == FreeFrom(t, n)
      {
        if !breaktab[n].used {
          ghost var b := breaktab[n].(used := true, id := n, conditional := false, keepRunning := false,
            ignoreCount := 0, temp := false);
          CountChanges(t, n, b);
          breaktab[n] := breaktab[n].(used := true, id := n, conditional := false, keepRunning := false,
            ignoreCount := 0, temp := false);
          assert breaktab[..] == t[n := b];
          Enable(n, true);
          return Some(n);
        }
      }
      return None;
    }

    /** `brkfree` */
    method Free(n: nat)
      requires Valid() && n < MAX_BREAKS
      modifies breaktab, this`activeCount
      ensures Valid() && breaktab[..] == Freed(old(breaktab[..]), n)
    {
      Enable(n, false);
      CountChanges(breaktab[..], n, breaktab[n].(used := false));
      ghost var t := breaktab[..];
      breaktab[n] := breaktab[n].(used := false);
      assert breaktab[..] == t[n := t[n].(used := false)];
    }

    /** `brkfree_temps` */
    method FreeTemps()
      requires Valid()
      modifies breaktab, this`activeCount
      ensures Valid() && Model() == After(old(Model()), EnterMonitor)
    {
      ghost var t := breaktab[..];
      for n := 0 to MAX_BREAKS
        invariant Valid() && breaktab[..] == TempsFreed(t, n)
      {
        if breaktab[n].used && breaktab[n].temp { Free(n); }
      }
    }

    /** `cmd_delete` of one entry */
    method DeleteEntry(n: nat)
      requires Valid() && n < MAX_BREAKS
      modifies breaktab, this`activeCount
      ensures Valid() && Model() == After(old(Model()), Delete(n))
    {
      if breaktab[n].used { Free(n); }
    }

    /** `cmd_delete` without an argument */
    method DeleteEverything()
      requires Valid()
      modifies breaktab, this`activeCount
      ensures Valid() && Model() == After(old(Model()), DeleteAll)
    {
      ghost var t := breaktab[..];
      for n := 0 to MAX_BREAKS
        invariant Valid() && breaktab[..] == AllFreed(t, n)
      {
        Free(n);
      }
    }

    /** `brkfind_by_addr` */
    method FindByAddr(addr: nat) returns (r: Option<nat>)
      requires Valid()
      ensures r == First(breaktab[..], addr)
    {
      for n := 0 to MAX_BREAKS
        invariant First(breaktab[..], addr) == FirstFrom(breaktab[..], addr, n)
      {
        if breaktab[n].addr == addr { return Some(n); }
      }
      return None;
    }

    /** The commands that place an entry: `cmd_break`, `cmd_next`, `cmd_watch1`. */
    method PlaceEntry(addr: nat, kind: Kind) returns (placed: bool)
      requires Valid()
      modifies breaktab, this`activeCount
      ensures Valid() && Model() == After(old(Model()), Place(addr, kind))
      ensures placed == exists k :: 0 <= k < MAX_BREAKS && !old(breaktab[k]).used
    {
      ghost var t := breaktab[..];
      var r := Alloc();
      placed := r.Some?;
      if placed {
        var k := r.value;
        ghost var u := breaktab[..];
        CountChanges(u, k, Dressed(u[k], addr, kind));
        breaktab[k] := Dressed(breaktab[k], addr, kind);
        assert breaktab[..] == u[k := Dressed(u[k], addr, kind)];
        assert !t[k].used;
      } else {
        assert forall k | 0 <= k < MAX_BREAKS :: t[k].used;
      }
    }

    /** `command_insn_hook`: the counter only saves the search. */
    method InsnHook(addr: nat, cond: bool)
      requires Valid()
      modifies this, breaktab
      ensures Valid() && Model() == After(old(Model()), Fetch(addr, cond))
    {
      if activeCount == 0 {
        NoneEnabled(breaktab[..]);
        return;
      }
      var r := FindByAddr(addr);
      if r.None? || !breaktab[r.value].enabled || !breaktab[r.value].onExecute { return; }
      var k := r.value;
      BreakpointHit(k, cond);
      if !monitorOn { return; }
      if breaktab[k].temp { Free(k); }
    }

    method BreakpointHit(k: nat, cond: bool)
      requires Valid() && k < MAX_BREAKS
      modifies breaktab, this`monitorOn
      ensures Valid() && Model() == Hit(old(Model()), k, cond)
    {
      var b := breaktab[k];
      if b.conditional && !cond { return; }
      if b.ignoreCount > 0 {
        ghost var t := breaktab[..];
        CountChanges(t, k, b.(ignoreCount := b.ignoreCount - 1));
        breaktab[k] := b.(ignoreCount := b.ignoreCount - 1);
        assert breaktab[..] == t[k := b.(ignoreCount := b.ignoreCount - 1)];
        return;
      }
      monitorOn := !b.keepRunning;
    }
  }
}
