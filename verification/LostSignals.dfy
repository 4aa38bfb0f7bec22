/** The simplest handler that loses a signal: one that only returns. */
module LostSignals {
  import opened Options
  import opened Words
  import opened Reference
  import opened Frames
  import opened Interrupts
  import opened Multiplexer

  // ---------------------------------------------------------------- what an entry leaves in place

  /** The address lies outside the n bytes below S. */
  predicate Clear(m: State, n: nat, a: nat) { n <= m.s && (a < m.s - n || m.s <= a) }

  lemma Push8Clear(m: State, v: u8, n: nat, a: u16)
    requires n >= 1 && Clear(m, n, a)
    ensures
      var p := Push8(m, SysStack, v);
      p.mem[a] == m.mem[a] && p.s == m.s - 1 && (n == 1 || Clear(p, n - 1, a))
  {
  }

  lemma Push16Clear(m: State, w: u16, n: nat, a: u16)
    requires n >= 2 && Clear(m, n, a)
    ensures
      var p := Push16(m, SysStack, w);
      p.mem[a] == m.mem[a] && p.s == m.s - 2 && (n == 2 || Clear(p, n - 2, a))
  {
    Push8Clear(m, Lo(w), n, a);
    Push8Clear(Push8(m, SysStack, Lo(w)), Hi(w), n - 1, a);
  }

  lemma EntireClear(m: State, a: u16)
    requires Clear(m, 12, a)
    ensures PushEntireState(m).mem[a] == m.mem[a]
  {
    hide Push8, Push16, CcByte, Clear;
    var p1 := Push16(m, SysStack, Wrap16(m.pc));
    var p2 := Push16(p1, SysStack, p1.u);
    var p3 := Push16(p2, SysStack, p2.y);
    var p4 := Push16(p3, SysStack, p3.x);
    var p5 := Push8(p4, SysStack, p4.dp);
    var p6 := Push8(p5, SysStack, p5.b);
    var p7 := Push8(p6, SysStack, p6.a);
    Push16Clear(m, Wrap16(m.pc), 12, a);
    Push16Clear(p1, p1.u, 10, a);
    Push16Clear(p2, p2.y, 8, a);
    Push16Clear(p3, p3.x, 6, a);
    Push8Clear(p4, p4.dp, 4, a);
    Push8Clear(p5, p5.b, 3, a);
    Push8Clear(p6, p6.a, 2, a);
    Push8Clear(p7, CcByte(p7.cc), 1, a);
  }

  /** The IRQ vector points to an RTI, and the stack meets neither. */
  predicate BareHandler(m: State) {
    var h := m.Word(VECTOR_IRQ);
    m.mem[h] == 0x3b && Clear(m, 12, h) && Clear(m, 12, VECTOR_IRQ) && Clear(m, 12, VECTOR_IRQ + 1)
  }

  lemma BareEntry(m: State)
    requires BareHandler(m)
    ensures AtRti(Irq(m))
  {
    hide PushEntireState, Clear;
    var e := m.(cc := m.cc.(e := true));
    var h := m.Word(VECTOR_IRQ);
    ClearByStack(m, e, h);
    ClearByStack(m, e, VECTOR_IRQ);
    ClearByStack(m, e, VECTOR_IRQ + 1);
    EntireClear(e, h);
    EntireClear(e, VECTOR_IRQ);
    EntireClear(e, VECTOR_IRQ + 1);
    var g := Irq(m);
    assert g.pc == h && g.mem[h] == 0x3b;
    RtiFetched(g);
  }

  lemma ClearByStack(m: State, e: State, a: nat)
    requires m.s == e.s && Clear(m, 12, a)
    ensures Clear(e, 12, a)
  {
  }

  lemma RtiFetched(g: State)
    requires g.pc < 0x1_0000 && g.mem[g.pc] == 0x3b
    ensures AtRti(g)
  {
    hide OpPage2, OpPage3;
    assert OpAt(g.mem, g.pc) == Some(ReturnInt);
  }

  // ---------------------------------------------------------------- the lost signal

  /**
   * With such a handler a signal that is asserted while IRQ is unmasked interrupts once:
   * the interrupted code resumes with every register, the signal still asserted, and the
   * line down, so nothing will interrupt it again until the multiplexer is touched.
   */
  lemma BareHandlerLoses(x: Mux, m: State)
    requires x.src == 1 && Asserting(x) && BareHandler(m)
    requires !m.cc.i && m.pc < 0x1_0000 && m.irqs == {} && m.firqs == {}
    ensures
      var g := Refreshed(x, m).m;
      && AtRti(g)
      && Step(g) == Next(ReturnState(g).(ccChanged := false))
      && Restored(IrqFrame, m, ReturnState(g)) && ReturnState(g).pc == m.pc
      && Asserting(x) && !LineUp(x, ReturnState(g))
  {
    hide AtRti, Step, ReturnState, BareHandler, Restored, Refreshed, Asserting, LineUp, Irq, Alone;
    var t := m.(irqs := {1});
    BareTaken(x, m);
    BareByMemory(m, t);
    BareEntry(t);
    EntryRestored(t);
    BareRestored(m, t);
    BareReturn(t);
    AloneAfter(x, ReturnState(Irq(t)));
    SilentReturn(x, m);
  }

  lemma BareTaken(x: Mux, m: State)
    requires x.src == 1 && Asserting(x) && !m.cc.i && m.irqs == {}
    ensures Refreshed(x, m) == Joint(x, Irq(m.(irqs := {1})))
  {
    hide Irq;
    EntryDropsLine(x, m);
    assert m.irqs + {1} == {1};
  }

  lemma AloneAfter(x: Mux, b: State)
    requires x.src == 1 && b.irqs == {} && b.firqs == {}
    ensures Alone(x, b) && !LineUp(x, b)
  {
  }

  /** The handler is nothing but the RTI. */
  lemma SilentReturn(x: Mux, m: State)
    requires x.src == 1 && Asserting(x) && !m.cc.i && Refreshed(x, m).x == x
    requires AtRti(Refreshed(x, m).m) && Alone(x, ReturnState(Refreshed(x, m).m))
    ensures Step(Refreshed(x, m).m) == Next(ReturnState(Refreshed(x, m).m).(ccChanged := false))
  {
    hide AtRti, Step, ReturnState, Refreshed, Asserting, LineUp, Irq, Alone;
    var j := Refreshed(x, m);
    assert MuxRun(x, j.m, []) == Going(j);
    SilentHandlerReturns(x, m, [], j);
  }

  lemma BareByMemory(m: State, t: State)
    requires BareHandler(m) && t.mem == m.mem && t.s == m.s
    ensures BareHandler(t)
  {
  }

  /** The RTI gives back what the entry saved. */
  lemma EntryRestored(t: State)
    ensures Restored(IrqFrame, t, ReturnState(Irq(t)))
  {
    hide StackBytes, Image, LayoutOf, ReturnFromInt, Restored;
    var g := Irq(t);
    hide Irq;
    FullImage(Saved(IrqFrame, t));
    SameStack(g, g.(pc := g.pc + 1), 12);
    var to := g.(pc := g.pc + 1);
    assert Disciplined(to, [], 12);
    assert [Work(to)][1..] == [];
    assert Play(to, []) == to;
    FramesRestore(t, IrqFrame, [Work(to)], 0);
  }

  lemma BareRestored(m: State, t: State)
    requires t == m.(irqs := {1}) && m.pc < 0x1_0000 && Restored(IrqFrame, t, ReturnState(Irq(t)))
    ensures Restored(IrqFrame, m, ReturnState(Irq(t))) && ReturnState(Irq(t)).pc == m.pc
    ensures ReturnState(Irq(t)).cc == m.cc.(e := true)
  {
    hide ReturnState, Irq;
  }

  /** No FIRQ is due, and no IRQ is left pending. */
  lemma BareReturn(t: State)
    requires t.firqs == {} && AtRti(Irq(t))
    ensures ReturnState(Irq(t)).irqs == {} && ReturnState(Irq(t)).firqs == {}
  {
    hide AtRti, Step, ReturnState, Irq;
    IrqMasks(t);
    RtiChecks(Irq(t));
  }

  /** One such machine: an RTI at 0x100, the stack below 0x8000, running at 0x200. */
  function ExampleState(): State {
    State(0, 0, 0, 0, 0, 0, 0x8000, 0x200,
          Flags(false, false, false, false, false, false, false, false), false, {}, {}, 0,
          seq(0x1_0000, a => if a == 0x100 then 0x3b else if a == VECTOR_IRQ then 1 else 0))
  }

  lemma LostExample()
    ensures
      var x, m := Mux({0}, {0}, 1), ExampleState();
      var g := Refreshed(x, m).m;
      Step(g) == Next(ReturnState(g).(ccChanged := false)) && ReturnState(g).pc == 0x200
      && Asserting(x) && !LineUp(x, ReturnState(g))
  {
    hide Step, ReturnState, Irq;
    var x, m := Mux({0}, {0}, 1), ExampleState();
    assert 0 in x.pending * x.enabled;
    assert m.Word(VECTOR_IRQ) == 0x100;
    BareHandlerLoses(x, m);
  }
}
