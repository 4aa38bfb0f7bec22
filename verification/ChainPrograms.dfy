/**
 * The chains of byte operations as instructions: LDA, the operation, DAA if decimal, and STA
 * for each byte in memory.
 */
module ChainPrograms {
  import opened Words
  import opened Bits
  import opened Reference
  import opened Arithmetic

  /** Where the operand bytes and the result byte lie. */
  datatype Cells = Cells(x: u16, y: u16, z: u16)

  /** Extended addressing. */
  function At(a: u16): Tail { Tail(Hi(a), Lo(a), 0) }

  /** LDA x; op y */
  function Operated(m: State, op: Alu, c: Cells): State {
    Exec(Exec(m, Arith8(LD, AccA, Extended), At(c.x)), Arith8(op, AccA, Extended), At(c.y))
  }

  function Kept(m: State, a: u16): State { Exec(m, Store8(AccA, Extended), At(a)) }

  /** LDA x; op y; STA z */
  function Triple(m: State, op: Alu, c: Cells): State { Kept(Operated(m, op, c), c.z) }

  /** LDA x; op y; DAA; STA z */
  function Quadruple(m: State, op: Alu, c: Cells): State { Kept(Exec(Operated(m, op, c), Daa, Tail(0, 0, 0)), c.z) }

  lemma JoinedAt(a: u16)
    ensures Join(At(a).b0, At(a).b1) == a
  {
  }

  /** Executed in memory, a load and an operation are one operation of the chain. */
  lemma OperatedIs(m: State, op: Alu, c: Cells)
    requires KeepsResult(op)
    ensures
      var e := Operated(m, op, c);
      var r := LoadedOp(op, m.cc, m.mem[c.x], m.mem[c.y]);
      e.a == r.val && e.cc == r.cc && e.mem == m.mem
  {
    JoinedAt(c.x);
    JoinedAt(c.y);
    hide At, AddBytes, SubBytes, SetNZ;
  }

  lemma KeptIs(m: State, a: u16)
    ensures Kept(m, a).mem == m.mem[a := m.a] && Kept(m, a).cc == SetNZ(m.cc, m.a, false)
  {
    JoinedAt(a);
    hide At, SetNZ;
  }

  lemma TripleIs(m: State, op: Alu, c: Cells)
    requires KeepsResult(op)
    ensures
      var r := LoadedOp(op, m.cc, m.mem[c.x], m.mem[c.y]);
      Triple(m, op, c).mem == m.mem[c.z := r.val] && Triple(m, op, c).cc == SetNZ(r.cc, r.val, false)
  {
    hide Operated, Kept, LoadedOp, SetNZ;
    OperatedIs(m, op, c);
    KeptIs(Operated(m, op, c), c.z);
  }

  lemma QuadrupleIs(m: State, op: Alu, c: Cells)
    requires KeepsResult(op)
    ensures
      var r := LoadedOp(op, m.cc, m.mem[c.x], m.mem[c.y]);
      && Quadruple(m, op, c).mem == m.mem[c.z := DecimalAdjust(r.cc, r.val).val]
      && Quadruple(m, op, c).cc == HandedOn(op, m.cc, m.mem[c.x], m.mem[c.y])
  {
    hide Operated, Kept, LoadedOp, SetNZ, DecimalAdjust;
    OperatedIs(m, op, c);
    KeptIs(Exec(Operated(m, op, c), Daa, Tail(0, 0, 0)), c.z);
  }

  // ---------------------------------------------------------------- programs

  function RunTriples(m: State, first: Alu, more: Alu, cells: seq<Cells>): State
    decreases |cells|
  {
    if cells == [] then m else RunTriples(Triple(m, first, cells[0]), more, more, cells[1..])
  }

  /** The state whose flags a branch would test: before the last STA. */
  function BeforeLastStore(m: State, first: Alu, more: Alu, cells: seq<Cells>): State
    requires cells != []
    decreases |cells|
  {
    if |cells| == 1 then Operated(m, first, cells[0])
    else BeforeLastStore(Triple(m, first, cells[0]), more, more, cells[1..])
  }

  function RunQuadruples(m: State, first: Alu, cells: seq<Cells>): State
    decreases |cells|
  {
    if cells == [] then m else RunQuadruples(Quadruple(m, first, cells[0]), ADC, cells[1..])
  }

  /** No result overwrites a later operand or result. */
  predicate Apart(cells: seq<Cells>) {
    forall i, j | 0 <= i < j < |cells| ::
      cells[i].z != cells[j].x && cells[i].z != cells[j].y && cells[i].z != cells[j].z
  }

  function Xs(mem: Memory, cells: seq<Cells>): (bs: seq<u8>)
    ensures |bs| == |cells|
  {
    seq(|cells|, i requires 0 <= i < |cells| => mem[cells[i].x])
  }

  function Ys(mem: Memory, cells: seq<Cells>): (bs: seq<u8>)
    ensures |bs| == |cells|
  {
    seq(|cells|, i requires 0 <= i < |cells| => mem[cells[i].y])
  }

  /** The results hold the bytes, and nothing else changed. */
  ghost predicate Holding(before: Memory, after: Memory, cells: seq<Cells>, bytes: seq<u8>) {
    && |bytes| == |cells|
    && (forall i | 0 <= i < |cells| :: after[cells[i].z] == bytes[i])
    && (forall a: u16 | forall i | 0 <= i < |cells| :: cells[i].z != a :: after[a] == before[a])
  }

  /** A result stored first, the later operands unread by it. */
  lemma LaterOperands(mem: Memory, cells: seq<Cells>, v: u8)
    requires cells != [] && Apart(cells)
    ensures
      var after := mem[cells[0].z := v];
      && Apart(cells[1..])
      && Xs(mem, cells)[0] == mem[cells[0].x] && Ys(mem, cells)[0] == mem[cells[0].y]
      && Xs(after, cells[1..]) == Xs(mem, cells)[1..] && Ys(after, cells[1..]) == Ys(mem, cells)[1..]
  {
    var rest := cells[1..];
    assert forall i | 0 <= i < |rest| :: rest[i] == cells[i + 1];
  }

  lemma HoldingMore(mem: Memory, after: Memory, cells: seq<Cells>, v: u8, bytes: seq<u8>)
    requires cells != [] && Apart(cells) && Holding(mem[cells[0].z := v], after, cells[1..], bytes)
    ensures Holding(mem, after, cells, [v] + bytes)
  {
    var rest := cells[1..];
    assert forall i | 0 <= i < |rest| :: rest[i] == cells[i + 1];
    forall a: u16 | forall i | 0 <= i < |cells| :: cells[i].z != a
      ensures after[a] == mem[a]
    {
      assert cells[0].z != a;
    }
    assert after[cells[0].z] == v by {
      assert forall i | 0 <= i < |rest| :: rest[i].z != cells[0].z;
    }
  }

  /** The program leaves the bytes of the chain in memory, and its flags before the last STA are those of the chain. */
  lemma {:induction false} TriplesRunChain(m: State, first: Alu, more: Alu, cells: seq<Cells>)
    requires cells != [] && Apart(cells) && KeepsResult(first) && KeepsResult(more)
    ensures
      var ch := RunChain(first, more, m.cc, Xs(m.mem, cells), Ys(m.mem, cells));
      && Holding(m.mem, RunTriples(m, first, more, cells).mem, cells, ch.bytes)
      && BeforeLastStore(m, first, more, cells).cc == ch.cc
    decreases |cells|
  {
    hide Triple, Operated, LoadedOp, SetNZ, Xs, Ys, Holding, Apart;
    var c := cells[0];
    var xs, ys := Xs(m.mem, cells), Ys(m.mem, cells);
    var r := LoadedOp(first, m.cc, m.mem[c.x], m.mem[c.y]);
    TripleIs(m, first, c);
    OperatedIs(m, first, c);
    LaterOperands(m.mem, cells, r.val);
    var n := Triple(m, first, c);
    if |cells| == 1 {
      assert RunTriples(n, more, more, cells[1..]) == n;
      assert RunChain(first, more, m.cc, xs, ys) == Chain([r.val] + [], r.cc);
      NothingHeld(n.mem, cells[1..]);
      HoldingMore(m.mem, n.mem, cells, r.val, []);
    } else {
      TriplesRunChain(n, more, more, cells[1..]);
      var rest := RunChain(more, more, n.cc, xs[1..], ys[1..]);
      ChainUnfolds(first, more, m.cc, xs, ys);
      hide RunChain;
      HoldingMore(m.mem, RunTriples(n, more, more, cells[1..]).mem, cells, r.val, rest.bytes);
    }
  }

  lemma NothingHeld(mem: Memory, cells: seq<Cells>)
    requires cells == []
    ensures Holding(mem, mem, cells, [])
  {
  }

  /** The decimal program leaves the bytes and the flags of the decimal chain. */
  lemma {:induction false} QuadruplesRunChain(m: State, first: Alu, cells: seq<Cells>)
    requires Apart(cells) && KeepsResult(first)
    ensures
      var ch := DecimalChain(first, m.cc, Xs(m.mem, cells), Ys(m.mem, cells));
      var r := RunQuadruples(m, first, cells);
      Holding(m.mem, r.mem, cells, ch.bytes) && r.cc == ch.cc
    decreases |cells|
  {
    hide Quadruple, LoadedOp, DecimalAdjust, HandedOn, Xs, Ys, Holding, Apart;
    if cells == [] {
      NothingHeld(m.mem, cells);
    } else {
      var c := cells[0];
      var xs, ys := Xs(m.mem, cells), Ys(m.mem, cells);
      var r := LoadedOp(first, m.cc, m.mem[c.x], m.mem[c.y]);
      var v := DecimalAdjust(r.cc, r.val).val;
      QuadrupleIs(m, first, c);
      LaterOperands(m.mem, cells, v);
      var n := Quadruple(m, first, c);
      QuadruplesRunChain(n, ADC, cells[1..]);
      DecimalChainUnfolds(first, m.cc, xs, ys);
      var rest := DecimalChain(ADC, n.cc, xs[1..], ys[1..]);
      hide DecimalChain;
      HoldingMore(m.mem, RunQuadruples(n, ADC, cells[1..]).mem, cells, v, rest.bytes);
    }
  }

  // ---------------------------------------------------------------- what the programs compute

  /** The bytes at the result cells. */
  function Zs(mem: Memory, cells: seq<Cells>): (bs: seq<u8>)
    ensures |bs| == |cells|
  {
    seq(|cells|, i requires 0 <= i < |cells| => mem[cells[i].z])
  }

  /**
   * LDA, SUBA or SBCA, STA over any number of bytes in memory leave the difference modulo
   * 256^n, and branches before the last STA decide the order of the two numbers.
   */
  lemma SubtractProgram(m: State, cells: seq<Cells>)
    requires cells != [] && Apart(cells)
    ensures
      var xs, ys := Xs(m.mem, cells), Ys(m.mem, cells);
      var f := BeforeLastStore(m, SUB, SBC, cells).cc;
      && Val(Zs(RunTriples(m, SUB, SBC, cells).mem, cells)) == (Val(xs) - Val(ys)) % Pow256(|cells|)
      && (Holds(LO, f) <==> Val(xs) < Val(ys)) && (Holds(HS, f) <==> Val(xs) >= Val(ys))
      && (Holds(LT, f) <==> Signed(xs) < Signed(ys)) && (Holds(GE, f) <==> Signed(xs) >= Signed(ys))
  {
    hide RunTriples, BeforeLastStore, RunChain, Xs, Ys, Val, Signed, Pow256, HalfRange, Apart;
    TriplesRunChain(m, SUB, SBC, cells);
    SubChainSubtracts(m.cc, Xs(m.mem, cells), Ys(m.mem, cells));
    var ch := RunChain(SUB, SBC, m.cc, Xs(m.mem, cells), Ys(m.mem, cells));
    assert Zs(RunTriples(m, SUB, SBC, cells).mem, cells) == ch.bytes;
  }

  /**
   * LDA, ADD or ADC, DAA, STA over packed decimal bytes leave their decimal sum and carry
   * exactly when no byte is adjusted twice.
   */
  lemma DecimalProgram(m: State, cells: seq<Cells>)
    requires cells != [] && Apart(cells) && AllBcd(Xs(m.mem, cells)) && AllBcd(Ys(m.mem, cells))
    ensures
      var xs, ys, r := Xs(m.mem, cells), Ys(m.mem, cells), RunQuadruples(m, ADD, cells);
      AllBcd(Zs(r.mem, cells))
      && DecimalVal(Zs(r.mem, cells)) + (if r.cc.c then Pow100(|cells|) else 0) == DecimalVal(xs) + DecimalVal(ys)
      <==> ChainAvoids(ADD, m.cc, xs, ys)
  {
    hide RunQuadruples, DecimalChain, Xs, Ys, DecimalVal, Pow100, Apart, AllBcd, ChainAvoids;
    QuadruplesRunChain(m, ADD, cells);
    DecimalChainAdds(ADD, m.cc, Xs(m.mem, cells), Ys(m.mem, cells));
    var ch := DecimalChain(ADD, m.cc, Xs(m.mem, cells), Ys(m.mem, cells));
    assert Zs(RunQuadruples(m, ADD, cells).mem, cells) == ch.bytes;
  }
}
