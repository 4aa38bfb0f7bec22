/**
 Stack frames nest. Interrupts, calls and register pushes open a frame on the
 system stack; RTI, RTS and PULS close it. However deeply frames nest, and
 whatever the code between does to registers and to memory outside the live
 frames, every closing step restores what its opening step saved.
 */
module Frames {
  import opened Words
  import opened Bits
  import opened Reference
  import opened FlagFacts

  // ---------------------------------------------------------------- the stack as a list

  /** The n bytes from S upwards, addresses taken modulo 64K. */
  function StackBytes(m: State, n: nat): (bytes: seq<u8>)
    ensures |bytes| == n
  {
    seq(n, i requires 0 <= i < n => m.mem[Wrap16(m.s + i)])
  }

  lemma Push8Stacks(m: State, v: u8, n: nat)
    requires n < 0x1_0000
    ensures StackBytes(Push8(m, SysStack, v), n + 1) == [v] + StackBytes(m, n)
    ensures Push8(m, SysStack, v).s == Wrap16(m.s - 1)
  {
    var p := Push8(m, SysStack, v);
    var after, before := StackBytes(p, n + 1), StackBytes(m, n);
    forall i | 0 <= i < n + 1
      ensures after[i] == ([v] + before)[i]
    {
      StackStep(m.s, i);
      if i > 0 { assert after[i] == m.mem[Wrap16(m.s + (i - 1))]; } else { assert after[i] == p.mem[p.s]; }
    }
  }

  /** The i-th cell above the lowered pointer is the one before the i-th above the old pointer, or the new cell. */
  lemma StackStep(s: u16, i: nat)
    requires i <= 0xffff
    ensures Wrap16(Wrap16(s - 1) + i) == Wrap16(s - 1 + i)
    ensures i > 0 ==> Wrap16(s - 1 + i) != Wrap16(s - 1)
    ensures i == 0 ==> Wrap16(s - 1 + i) == Wrap16(s - 1)
  {
  }

  lemma Push16Stacks(m: State, w: u16, n: nat)
    requires n + 1 < 0x1_0000
    ensures StackBytes(Push16(m, SysStack, w), n + 2) == [Hi(w), Lo(w)] + StackBytes(m, n)
    ensures Push16(m, SysStack, w).s == Wrap16(m.s - 2)
  {
    Push8Stacks(m, Lo(w), n);
    Push8Stacks(Push8(m, SysStack, Lo(w)), Hi(w), n + 1);
    assert [Hi(w)] + ([Lo(w)] + StackBytes(m, n)) == [Hi(w), Lo(w)] + StackBytes(m, n);
  }

  lemma DropStacks(m: State, k: nat, n: nat)
    ensures StackBytes(Drop(m, SysStack, k), n) == StackBytes(m, k + n)[k..]
  {
    var d := Drop(m, SysStack, k);
    forall i | 0 <= i < n
      ensures StackBytes(d, n)[i] == StackBytes(m, k + n)[k..][i]
    {
      assert Wrap16(d.s + i) == Wrap16(m.s + (k + i));
    }
  }

  // ---------------------------------------------------------------- fields

  datatype Field = FCc | FA | FB | FDp | FX | FY | FU | FPc

  function WordBytes(w: u16): seq<u8> { [Hi(w), Lo(w)] }

  /** A register as the bytes a frame holds for it. */
  function FieldBytes(m: State, f: Field): seq<u8> {
    match f
    case FCc => [CcByte(m.cc)]
    case FA => [m.a]
    case FB => [m.b]
    case FDp => [m.dp]
    case FX => WordBytes(m.x)
    case FY => WordBytes(m.y)
    case FU => WordBytes(m.u)
    case FPc => WordBytes(Wrap16(m.pc))
  }

  function PushField(m: State, f: Field): State {
    match f
    case FCc => Push8(m, SysStack, CcByte(m.cc))
    case FA => Push8(m, SysStack, m.a)
    case FB => Push8(m, SysStack, m.b)
    case FDp => Push8(m, SysStack, m.dp)
    case FX => Push16(m, SysStack, m.x)
    case FY => Push16(m, SysStack, m.y)
    case FU => Push16(m, SysStack, m.u)
    case FPc => Push16(m, SysStack, Wrap16(m.pc))
  }

  function PullField(m: State, f: Field): State {
    match f
    case FCc => PullCc(m, SysStack)
    case FA => PullA(m, SysStack)
    case FB => PullB(m, SysStack)
    case FDp => PullDp(m, SysStack)
    case FX => PullX(m, SysStack)
    case FY => PullY(m, SysStack)
    case FU => PullOther(m, SysStack)
    case FPc => PullPc(m, SysStack)
  }

  lemma PushFieldStacks(m: State, f: Field, n: nat)
    requires n + |FieldBytes(m, f)| <= 0x1_0000
    ensures StackBytes(PushField(m, f), n + |FieldBytes(m, f)|) == FieldBytes(m, f) + StackBytes(m, n)
    ensures PushField(m, f).s == Wrap16(m.s - |FieldBytes(m, f)|)
    ensures forall g :: FieldBytes(PushField(m, f), g) == FieldBytes(m, g)
  {
    hide CcByte, StackBytes, FieldBytes, PushField;
    forall g ensures FieldBytes(PushField(m, f), g) == FieldBytes(m, g) { PushFieldKeeps(m, f, g); }
    PushFieldTops(m, f, n);
  }

  lemma PushFieldKeeps(m: State, f: Field, g: Field)
    ensures FieldBytes(PushField(m, f), g) == FieldBytes(m, g)
  {
    hide CcByte;
  }

  lemma PushFieldTops(m: State, f: Field, n: nat)
    requires n + |FieldBytes(m, f)| <= 0x1_0000
    ensures StackBytes(PushField(m, f), n + |FieldBytes(m, f)|) == FieldBytes(m, f) + StackBytes(m, n)
    ensures PushField(m, f).s == Wrap16(m.s - |FieldBytes(m, f)|)
  {
    hide CcByte, StackBytes, Push8, Push16, Hi, Lo;
    match f
    case FCc => Push8Stacks(m, CcByte(m.cc), n);
    case FA => Push8Stacks(m, m.a, n);
    case FB => Push8Stacks(m, m.b, n);
    case FDp => Push8Stacks(m, m.dp, n);
    case FX => Push16Stacks(m, m.x, n);
    case FY => Push16Stacks(m, m.y, n);
    case FU => Push16Stacks(m, m.u, n);
    case FPc => Push16Stacks(m, Wrap16(m.pc), n);
  }

  lemma TopOfStack(m: State, n: nat)
    requires n > 0
    ensures StackBytes(m, n)[0] == Top8(m, SysStack)
    ensures n > 1 ==> Join(StackBytes(m, n)[0], StackBytes(m, n)[1]) == Top16(m, SysStack)
  {
    assert Wrap16(m.s + 0) == m.s;
    if n > 1 { assert StackBytes(m, n)[1] == m.mem[Wrap16(m.s + 1)]; }
  }

  /** Pulling a field uncovers what is below it and touches no other field. */
  lemma PullFieldUncovers(m: State, f: Field, n: nat)
    ensures
      var k := |FieldBytes(m, f)|;
      var p := PullField(m, f);
      && p.s == Wrap16(m.s + k)
      && StackBytes(p, n) == StackBytes(m, k + n)[k..]
      && (forall g | g != f :: FieldBytes(p, g) == FieldBytes(m, g))
  {
    hide FieldBytes, PullField, StackBytes;
    var k := |FieldBytes(m, f)|;
    DropStacks(m, k, n);
    PullFieldDrops(m, f);
    SameStack(Drop(m, SysStack, k), PullField(m, f), n);
    forall g | g != f ensures FieldBytes(PullField(m, f), g) == FieldBytes(m, g) {
      PullFieldKeeps(m, f, g);
    }
  }

  lemma PullFieldDrops(m: State, f: Field)
    ensures PullField(m, f).s == Wrap16(m.s + |FieldBytes(m, f)|) && PullField(m, f).mem == m.mem
  {
    hide CcByte, CcOf;
  }

  lemma PullFieldKeeps(m: State, f: Field, g: Field)
    requires g != f
    ensures FieldBytes(PullField(m, f), g) == FieldBytes(m, g)
  {
    hide CcByte, CcOf;
  }

  lemma SameStack(m: State, p: State, n: nat)
    requires p.s == m.s && p.mem == m.mem
    ensures StackBytes(p, n) == StackBytes(m, n)
  {
  }

  /** The pulled register holds the bytes that were on top. */
  lemma PullFieldReads(saved: State, m: State, f: Field, n: nat)
    requires n > 0 && (|FieldBytes(saved, f)| == 2 ==> n > 1)
    requires StackBytes(m, n)[..|FieldBytes(saved, f)|] == FieldBytes(saved, f)
    ensures FieldBytes(PullField(m, f), f) == FieldBytes(saved, f)
  {
    var bytes := StackBytes(m, n);
    var top := bytes[..|FieldBytes(saved, f)|];
    TopOfStack(m, n);
    assert top[0] == bytes[0] && (|top| == 2 ==> top[1] == bytes[1]);
    hide CcByte, StackBytes, CcOf;
    if |top| == 1 { PullByteReads(saved, m, f); } else { PullWordReads(saved, m, f); }
  }

  lemma PullByteReads(saved: State, m: State, f: Field)
    requires FieldBytes(saved, f) == [Top8(m, SysStack)]
    ensures FieldBytes(PullField(m, f), f) == FieldBytes(saved, f)
  {
    PackUnpack(Top8(m, SysStack));
    hide CcByte, CcOf;
  }

  lemma PullWordReads(saved: State, m: State, f: Field)
    requires |FieldBytes(saved, f)| == 2
    requires Join(FieldBytes(saved, f)[0], FieldBytes(saved, f)[1]) == Top16(m, SysStack)
    ensures FieldBytes(PullField(m, f), f) == FieldBytes(saved, f)
  {
    PulledWord(m, f);
    var w := Top16(m, SysStack);
    SplitJoined(FieldBytes(saved, f)[0], FieldBytes(saved, f)[1]);
    hide CcByte, CcOf, Top16, PullField;
    assert FieldBytes(saved, f) == WordBytes(w);
  }

  lemma PulledWord(m: State, f: Field)
    requires |FieldBytes(m, f)| == 2
    ensures FieldBytes(PullField(m, f), f) == WordBytes(Top16(m, SysStack))
  {
    hide CcByte, CcOf, Top16, Hi, Lo;
  }

  lemma SplitJoined(hi: u8, lo: u8)
    ensures WordBytes(Join(hi, lo)) == [hi, lo]
  {
  }

  /** Pulling a field whose bytes are on top gives the register back and uncovers the rest. */
  lemma PullFieldUnstacks(saved: State, m: State, f: Field, rest: seq<u8>)
    requires StackBytes(m, |FieldBytes(saved, f)| + |rest|) == FieldBytes(saved, f) + rest
    ensures
      var p := PullField(m, f);
      && StackBytes(p, |rest|) == rest
      && p.s == Wrap16(m.s + |FieldBytes(saved, f)|)
      && FieldBytes(p, f) == FieldBytes(saved, f)
      && (forall g | g != f :: FieldBytes(p, g) == FieldBytes(m, g))
  {
    var k := |FieldBytes(saved, f)|;
    assert k == |FieldBytes(m, f)| && 1 <= k <= 2;
    assert (FieldBytes(saved, f) + rest)[k..] == rest && (FieldBytes(saved, f) + rest)[..k] == FieldBytes(saved, f);
    hide FieldBytes, StackBytes, PullField;
    PullFieldUncovers(m, f, |rest|);
    PullFieldReads(saved, m, f, k + |rest|);
  }

  // ---------------------------------------------------------------- layouts

  /** Push the fields of a layout; the first one ends on top. */
  function PushFields(m: State, fs: seq<Field>): State {
    if fs == [] then m else PushField(PushFields(m, fs[1..]), fs[0])
  }

  function PullFields(m: State, fs: seq<Field>): State
    decreases |fs|
  {
    if fs == [] then m else PullFields(PullField(m, fs[0]), fs[1..])
  }

  /** The bytes a frame of this layout occupies, from S upwards. */
  function Image(m: State, fs: seq<Field>): seq<u8> {
    if fs == [] then [] else FieldBytes(m, fs[0]) + Image(m, fs[1..])
  }

  predicate Distinct(fs: seq<Field>) { forall i, j :: 0 <= i < j < |fs| ==> fs[i] != fs[j] }

  lemma {:induction false} PushFieldsStack(m: State, fs: seq<Field>, n: nat)
    requires n + |Image(m, fs)| <= 0x1_0000
    ensures
      var p := PushFields(m, fs);
      && StackBytes(p, n + |Image(m, fs)|) == Image(m, fs) + StackBytes(m, n)
      && p.s == Wrap16(m.s - |Image(m, fs)|)
      && (forall g :: FieldBytes(p, g) == FieldBytes(m, g))
  {
    hide FieldBytes, StackBytes, PushField;
    if fs == [] {
      assert Image(m, fs) + StackBytes(m, n) == StackBytes(m, n);
    } else {
      PushFieldsStack(m, fs[1..], n);
      PushOnTop(m, PushFields(m, fs[1..]), fs[0], Image(m, fs[1..]), n);
    }
  }

  /** One more field on top of what was pushed so far. */
  lemma PushOnTop(m: State, p: State, f: Field, below: seq<u8>, n: nat)
    requires n + |below| + |FieldBytes(m, f)| <= 0x1_0000
    requires StackBytes(p, n + |below|) == below + StackBytes(m, n) && p.s == Wrap16(m.s - |below|)
    requires forall g :: FieldBytes(p, g) == FieldBytes(m, g)
    ensures
      var q, all := PushField(p, f), FieldBytes(m, f) + below;
      && StackBytes(q, n + |all|) == all + StackBytes(m, n)
      && q.s == Wrap16(m.s - |all|)
      && (forall g :: FieldBytes(q, g) == FieldBytes(m, g))
  {
    hide FieldBytes, StackBytes, PushField;
    assert FieldBytes(p, f) == FieldBytes(m, f);
    PushFieldStacks(p, f, n + |below|);
    WrapTwice(m.s, |below|, |FieldBytes(m, f)|);
    assert FieldBytes(m, f) + (below + StackBytes(m, n)) == (FieldBytes(m, f) + below) + StackBytes(m, n);
  }

  lemma WrapTwice(s: int, j: int, k: int)
    ensures Wrap16(Wrap16(s - j) - k) == Wrap16(s - (j + k))
  {
  }

  lemma PulledPc(m: State, f: Field)
    ensures if f.FPc? then PullField(m, f).pc < 0x1_0000 else PullField(m, f).pc == m.pc
  {
    hide CcByte, CcOf;
  }

  lemma {:induction false} PulledPcs(m: State, fs: seq<Field>)
    requires FPc in fs || m.pc < 0x1_0000
    ensures PullFields(m, fs).pc < 0x1_0000
    decreases |fs|
  {
    if fs != [] {
      PulledPc(m, fs[0]);
      hide PullField;
      PulledPcs(PullField(m, fs[0]), fs[1..]);
    }
  }

  /** Pulling a layout off its image restores every field of it and leaves the others alone. */
  lemma {:induction false} PullFieldsRestore(saved: State, m: State, fs: seq<Field>, rest: seq<u8>)
    requires Distinct(fs)
    requires StackBytes(m, |Image(saved, fs)| + |rest|) == Image(saved, fs) + rest
    ensures
      var p := PullFields(m, fs);
      && StackBytes(p, |rest|) == rest
      && p.s == Wrap16(m.s + |Image(saved, fs)|)
      && (forall g :: FieldBytes(p, g) == FieldBytes(if g in fs then saved else m, g))
    decreases |fs|
  {
    hide FieldBytes, StackBytes, PullField;
    if fs == [] {
      assert Image(saved, fs) + rest == rest;
    } else {
      var f, more := fs[0], fs[1..];
      var under := Image(saved, more) + rest;
      assert Image(saved, fs) + rest == FieldBytes(saved, f) + under;
      PullFieldUnstacks(saved, m, f, under);
      PullFieldsRestore(saved, PullField(m, f), more, rest);
      assert forall g :: g in fs <==> g == f || g in more;
    }
  }

  // ---------------------------------------------------------------- register masks as layouts

  function Picked(flag: bool, f: Field, rest: seq<Field>): seq<Field> { if flag then [f] + rest else rest }

  function WordLayout(mask: u8): seq<Field> {
    Picked(Bit(mask, 4), FX, Picked(Bit(mask, 5), FY, Picked(Bit(mask, 6), FU, Picked(Bit(mask, 7), FPc, []))))
  }

  /** The fields a PSHS postbyte selects, from the top of the stack down. */
  function LayoutOf(mask: u8): seq<Field> {
    Picked(Bit(mask, 0), FCc,
      Picked(Bit(mask, 1), FA, Picked(Bit(mask, 2), FB, Picked(Bit(mask, 3), FDp, WordLayout(mask)))))
  }

  lemma PickedMembers(flag: bool, f: Field, rest: seq<Field>)
    requires Distinct(rest) && f !in rest
    ensures Distinct(Picked(flag, f, rest))
    ensures forall g :: g in Picked(flag, f, rest) <==> (flag && g == f) || g in rest
  {
    var fs := [f] + rest;
    forall i, j | 0 <= i < j < |fs|
      ensures fs[i] != fs[j]
    {
      assert fs[j] == rest[j - 1];
      assert i > 0 ==> fs[i] == rest[i - 1];
    }
  }

  lemma WordLayoutMembers(mask: u8)
    ensures Distinct(WordLayout(mask))
    ensures forall f :: f in WordLayout(mask) <==>
      (f == FX && Bit(mask, 4)) || (f == FY && Bit(mask, 5)) || (f == FU && Bit(mask, 6)) || (f == FPc && Bit(mask, 7))
  {
    hide Bit;
    var w7 := Picked(Bit(mask, 7), FPc, []);
    var w6 := Picked(Bit(mask, 6), FU, w7);
    var w5 := Picked(Bit(mask, 5), FY, w6);
    PickedMembers(Bit(mask, 7), FPc, []);
    PickedMembers(Bit(mask, 6), FU, w7);
    PickedMembers(Bit(mask, 5), FY, w6);
    PickedMembers(Bit(mask, 4), FX, w5);
    hide Picked, Distinct;
  }

  lemma LayoutMembers(mask: u8)
    ensures Distinct(LayoutOf(mask))
    ensures forall f :: f in LayoutOf(mask) <==> Bit(mask, FieldBit(f))
  {
    hide Bit;
    var w4 := WordLayout(mask);
    var w3 := Picked(Bit(mask, 3), FDp, w4);
    var w2 := Picked(Bit(mask, 2), FB, w3);
    var w1 := Picked(Bit(mask, 1), FA, w2);
    WordLayoutMembers(mask);
    PickedMembers(Bit(mask, 3), FDp, w4);
    PickedMembers(Bit(mask, 2), FB, w3);
    PickedMembers(Bit(mask, 1), FA, w2);
    PickedMembers(Bit(mask, 0), FCc, w1);
    hide Picked, Distinct, WordLayout;
  }

  function FieldBit(f: Field): nat {
    match f
    case FCc => 0
    case FA => 1
    case FB => 2
    case FDp => 3
    case FX => 4
    case FY => 5
    case FU => 6
    case FPc => 7
  }

  /** Equal but for the cycle counter. */
  predicate Like(p: State, q: State) { p.(clk := 0) == q.(clk := 0) }

  /** A conditional push step is one more picked field. */
  lemma PushPicked(m: State, p: State, flag: bool, f: Field, rest: seq<Field>, cost: nat)
    requires Like(p, PushFields(m, rest))
    ensures Like(if flag then PushField(p, f).Spend(cost) else p, PushFields(m, Picked(flag, f, rest)))
  {
    var q := PushFields(m, rest);
    assert ([f] + rest)[1..] == rest;
    assert p == q.(clk := p.clk);
    PushFieldLike(q, f, p.clk);
    hide PushField;
  }

  lemma PushFieldLike(q: State, f: Field, clk: int)
    ensures PushField(q.(clk := clk), f) == PushField(q, f).(clk := clk)
  {
    hide CcByte, Push8;
    match f
    case FCc => Push8Like(q, CcByte(q.cc), clk);
    case FA => Push8Like(q, q.a, clk);
    case FB => Push8Like(q, q.b, clk);
    case FDp => Push8Like(q, q.dp, clk);
    case FX => Push16Like(q, q.x, clk);
    case FY => Push16Like(q, q.y, clk);
    case FU => Push16Like(q, q.u, clk);
    case FPc => Push16Like(q, Wrap16(q.pc), clk);
  }

  lemma Push8Like(q: State, v: u8, clk: int)
    ensures Push8(q.(clk := clk), SysStack, v) == Push8(q, SysStack, v).(clk := clk)
  {
  }

  lemma Push16Like(q: State, w: u16, clk: int)
    ensures Push16(q.(clk := clk), SysStack, w) == Push16(q, SysStack, w).(clk := clk)
  {
    hide Push8;
    Push8Like(q, Lo(w), clk);
    Push8Like(Push8(q, SysStack, Lo(w)), Hi(w), clk);
  }

  /** A conditional pull step consumes one picked field. */
  lemma PullPicked(m: State, flag: bool, f: Field, rest: seq<Field>, cost: nat)
    ensures
      var p := if flag then PullField(m.Spend(cost), f) else m;
      Like(PullFields(p, rest), PullFields(m, Picked(flag, f, rest)))
  {
    hide PullField;
    assert ([f] + rest)[1..] == rest;
    if flag {
      var p := PullField(m, f);
      PullFieldLike(m, f, m.clk - cost);
      PullFieldsLike(p, rest, m.clk - cost);
      assert PullField(m.Spend(cost), f) == p.(clk := m.clk - cost);
      assert PullFields(m, [f] + rest) == PullFields(p, rest);
    }
  }

  lemma PullFieldLike(q: State, f: Field, clk: int)
    ensures PullField(q.(clk := clk), f) == PullField(q, f).(clk := clk)
  {
    hide CcOf, Drop, Top8, Top16;
    DropLike(q, 1, clk);
    DropLike(q, 2, clk);
  }

  lemma DropLike(q: State, n: nat, clk: int)
    ensures Drop(q.(clk := clk), SysStack, n) == Drop(q, SysStack, n).(clk := clk)
    ensures Top8(q.(clk := clk), SysStack) == Top8(q, SysStack)
    ensures Top16(q.(clk := clk), SysStack) == Top16(q, SysStack)
  {
  }

  lemma {:induction false} PullFieldsLike(q: State, fs: seq<Field>, clk: int)
    ensures PullFields(q.(clk := clk), fs) == PullFields(q, fs).(clk := clk)
    decreases |fs|
  {
    hide PullField;
    if fs != [] {
      PullFieldLike(q, fs[0], clk);
      PullFieldsLike(PullField(q, fs[0]), fs[1..], clk);
    }
  }

  lemma PushWordsIsLayout(m: State, mask: u8)
    ensures Like(PushWordRegs(m, SysStack, mask), PushFields(m, WordLayout(mask)))
  {
    hide Bit;
    var w7 := Picked(Bit(mask, 7), FPc, []);
    var w6 := Picked(Bit(mask, 6), FU, w7);
    var w5 := Picked(Bit(mask, 5), FY, w6);
    var m7 := if Bit(mask, 7) then PushField(m, FPc).Spend(2) else m;
    var m6 := if Bit(mask, 6) then PushField(m7, FU).Spend(2) else m7;
    var m5 := if Bit(mask, 5) then PushField(m6, FY).Spend(2) else m6;
    var m4 := if Bit(mask, 4) then PushField(m5, FX).Spend(2) else m5;
    assert PushWordRegs(m, SysStack, mask) == m4 by { hide Push16; }
    hide PushField, PushWordRegs, Picked;
    PushPicked(m, m, Bit(mask, 7), FPc, [], 2);
    PushPicked(m, m7, Bit(mask, 6), FU, w7, 2);
    PushPicked(m, m6, Bit(mask, 5), FY, w6, 2);
    PushPicked(m, m5, Bit(mask, 4), FX, w5, 2);
  }

  lemma PushMaskIsLayout(m: State, mask: u8)
    ensures Like(PushMask(m, SysStack, mask), PushFields(m, LayoutOf(mask)))
  {
    hide Bit, WordLayout, PushWordRegs, CcByte;
    var w4 := WordLayout(mask);
    var w3 := Picked(Bit(mask, 3), FDp, w4);
    var w2 := Picked(Bit(mask, 2), FB, w3);
    var w1 := Picked(Bit(mask, 1), FA, w2);
    var m4 := PushWordRegs(m, SysStack, mask);
    var m3 := if Bit(mask, 3) then PushField(m4, FDp).Spend(1) else m4;
    var m2 := if Bit(mask, 2) then PushField(m3, FB).Spend(1) else m3;
    var m1 := if Bit(mask, 1) then PushField(m2, FA).Spend(1) else m2;
    var m0 := if Bit(mask, 0) then PushField(m1, FCc).Spend(1) else m1;
    assert PushByteRegs(m4, SysStack, mask) == m0 by { hide Push8; }
    hide PushField, PushByteRegs, Picked;
    PushWordsIsLayout(m, mask);
    PushPicked(m, m4, Bit(mask, 3), FDp, w4, 1);
    PushPicked(m, m3, Bit(mask, 2), FB, w3, 1);
    PushPicked(m, m2, Bit(mask, 1), FA, w2, 1);
    PushPicked(m, m1, Bit(mask, 0), FCc, w1, 1);
  }

  lemma PullWordsIsLayout(m: State, mask: u8)
    ensures Like(PullWordRegs(m, SysStack, mask), PullFields(m, WordLayout(mask)))
  {
    hide Bit, PullX, PullY, PullOther, PullPc;
    var w7 := Picked(Bit(mask, 7), FPc, []);
    var w6 := Picked(Bit(mask, 6), FU, w7);
    var w5 := Picked(Bit(mask, 5), FY, w6);
    var m4 := if Bit(mask, 4) then PullField(m.Spend(2), FX) else m;
    var m5 := if Bit(mask, 5) then PullField(m4.Spend(2), FY) else m4;
    var m6 := if Bit(mask, 6) then PullField(m5.Spend(2), FU) else m5;
    var m7 := if Bit(mask, 7) then PullField(m6.Spend(2), FPc) else m6;
    assert PullWordRegs(m, SysStack, mask) == m7;
    hide PullField, PullWordRegs, Picked;
    PullPicked(m, Bit(mask, 4), FX, w5, 2);
    PullPicked(m4, Bit(mask, 5), FY, w6, 2);
    PullPicked(m5, Bit(mask, 6), FU, w7, 2);
    PullPicked(m6, Bit(mask, 7), FPc, [], 2);
    assert PullFields(m7, []) == m7;
  }

  lemma PullMaskIsLayout(m: State, mask: u8)
    ensures Like(PullMask(m, SysStack, mask), PullFields(m, LayoutOf(mask)))
  {
    hide Bit, WordLayout, PullWordRegs, CcOf;
    var w4 := WordLayout(mask);
    var w3 := Picked(Bit(mask, 3), FDp, w4);
    var w2 := Picked(Bit(mask, 2), FB, w3);
    var w1 := Picked(Bit(mask, 1), FA, w2);
    var m0 := if Bit(mask, 0) then PullField(m.Spend(1), FCc) else m;
    var m1 := if Bit(mask, 1) then PullField(m0.Spend(1), FA) else m0;
    var m2 := if Bit(mask, 2) then PullField(m1.Spend(1), FB) else m1;
    var m3 := if Bit(mask, 3) then PullField(m2.Spend(1), FDp) else m2;
    assert PullByteRegs(m, SysStack, mask) == m3 by { hide PullCc, PullA, PullB, PullDp; }
    hide PullField, PullByteRegs, Picked;
    PullPicked(m, Bit(mask, 0), FCc, w1, 1);
    PullPicked(m0, Bit(mask, 1), FA, w2, 1);
    PullPicked(m1, Bit(mask, 2), FB, w3, 1);
    PullPicked(m2, Bit(mask, 3), FDp, w4, 1);
    PullWordsIsLayout(m3, mask);
  }

  // ---------------------------------------------------------------- frames

  /** What opens a frame: an interrupt, a software interrupt, a call, or PSHS with a mask. */
  datatype Frame =
    | IrqFrame
    | FirqFrame
    | SoftFrame(level: nat)
    | CallFrame(target: nat)
    | RegFrame(mask: u8)

  function Open(k: Frame, m: State): State {
    match k
    case IrqFrame => Irq(m)
    case FirqFrame => Firq(m)
    case SoftFrame(level) => SoftInt(m, level)
    case CallFrame(target) => CallTo(m, target)
    case RegFrame(mask) => PushMask(m, SysStack, mask)
  }

  /** RTI, RTS, or PULS with the same mask. */
  function Close(k: Frame, m: State): State {
    match k
    case CallFrame(_) => ReturnFromSub(m)
    case RegFrame(mask) => PullMask(m, SysStack, mask)
    case _ => ReturnFromInt(m)
  }

  function MaskOf(k: Frame): u8 {
    match k
    case FirqFrame => 0x81
    case CallFrame(_) => 0x80
    case RegFrame(mask) => mask
    case _ => 0xff
  }

  /** The state whose registers the frame holds: interrupts first mark E. */
  function Saved(k: Frame, m: State): State {
    match k
    case IrqFrame => m.(cc := m.cc.(e := true))
    case SoftFrame(_) => m.(cc := m.cc.(e := true))
    case FirqFrame => m.(cc := m.cc.(e := false))
    case _ => m
  }

  function FrameImage(k: Frame, m: State): seq<u8> { Image(Saved(k, m), LayoutOf(MaskOf(k))) }

  /** The registers a mask selects agree. */
  predicate MaskRestored(mask: u8, e: State, r: State) {
    && (Bit(mask, 0) ==> r.cc == e.cc)
    && (Bit(mask, 1) ==> r.a == e.a)
    && (Bit(mask, 2) ==> r.b == e.b)
    && (Bit(mask, 3) ==> r.dp == e.dp)
    && (Bit(mask, 4) ==> r.x == e.x)
    && (Bit(mask, 5) ==> r.y == e.y)
    && (Bit(mask, 6) ==> r.u == e.u)
    && (Bit(mask, 7) ==> r.pc == Wrap16(e.pc))
  }

  /** What the closing step must bring back, in plain registers. */
  predicate Restored(k: Frame, m: State, r: State) {
    && r.s == m.s
    && match k
       case FirqFrame => r.pc == Wrap16(m.pc) && r.cc == m.cc.(e := false)
       case CallFrame(_) => r.pc == Wrap16(m.pc)
       case RegFrame(mask) => MaskRestored(mask, m, r)
       case _ =>
         && r.a == m.a && r.b == m.b && r.dp == m.dp && r.x == m.x && r.y == m.y && r.u == m.u
         && r.pc == Wrap16(m.pc) && r.cc == m.cc.(e := true)
  }

  lemma FixedMaskBits()
    ensures forall k | 0 <= k < 8 :: Bit(0xff, k)
    ensures forall k | 0 <= k < 8 :: Bit(0x81, k) == (k == 0 || k == 7)
    ensures forall k | 0 <= k < 8 :: Bit(0x80, k) == (k == 7)
  {
    forall k | 0 <= k < 8
      ensures Bit(0xff, k) && Bit(0x81, k) == (k == 0 || k == 7) && Bit(0x80, k) == (k == 7)
    {
      assert Bit(0xff, 0) && Bit(0xff, 1) && Bit(0xff, 2) && Bit(0xff, 3) && Bit(0xff, 4) && Bit(0xff, 5)
        && Bit(0xff, 6) && Bit(0xff, 7);
      assert Bit(0x81, 0) && !Bit(0x81, 1) && !Bit(0x81, 2) && !Bit(0x81, 3) && !Bit(0x81, 4) && !Bit(0x81, 5)
        && !Bit(0x81, 6) && Bit(0x81, 7);
      assert !Bit(0x80, 0) && !Bit(0x80, 1) && !Bit(0x80, 2) && !Bit(0x80, 3) && !Bit(0x80, 4) && !Bit(0x80, 5)
        && !Bit(0x80, 6) && Bit(0x80, 7);
    }
  }

  /** The interrupt and call sequences push what PSHS would push with a fixed mask. */
  lemma FixedPushes(m: State)
    ensures Like(PushEntireState(m), PushMask(m, SysStack, 0xff))
    ensures Like(PushFastState(m), PushMask(m, SysStack, 0x81))
    ensures Like(Push16(m, SysStack, Wrap16(m.pc)), PushMask(m, SysStack, 0x80))
  {
    EntireIsMask(m);
    FixedMaskBits();
    var p := Push16(m, SysStack, Wrap16(m.pc));
    hide Bit, Push16, CcByte;
    assert PushWordRegs(m, SysStack, 0x81) == p.Spend(2);
    assert PushWordRegs(m, SysStack, 0x80) == p.Spend(2);
    PushFieldLike(p, FCc, p.clk - 2);
    hide Push8;
  }

  lemma EntireIsMask(m: State)
    ensures Like(PushEntireState(m), PushMask(m, SysStack, 0xff))
  {
    FixedMaskBits();
    PushMaskIsLayout(m, 0xff);
    var full := [FCc, FA, FB, FDp, FX, FY, FU, FPc];
    assert LayoutOf(0xff) == full by { hide Bit; }
    EntireIsFields(m);
    hide PushMask, PushEntireState, LayoutOf, PushFields, Bit;
  }

  lemma EntireIsFields(m: State)
    ensures PushEntireState(m) == PushFields(m, [FCc, FA, FB, FDp, FX, FY, FU, FPc])
  {
    hide Push8, Push16, CcByte, PushFields;
    var f7 := [FPc] + [];
    var f6 := [FU] + f7;
    var f5 := [FY] + f6;
    var f4 := [FX] + f5;
    var f3 := [FDp] + f4;
    var f2 := [FB] + f3;
    var f1 := [FA] + f2;
    assert [FCc] + f1 == [FCc, FA, FB, FDp, FX, FY, FU, FPc];
    PushMore(m, FPc, []); PushMore(m, FU, f7); PushMore(m, FY, f6); PushMore(m, FX, f5);
    PushMore(m, FDp, f4); PushMore(m, FB, f3); PushMore(m, FA, f2); PushMore(m, FCc, f1);
  }

  lemma PushMore(m: State, f: Field, fs: seq<Field>)
    ensures PushFields(m, [f] + fs) == PushField(PushFields(m, fs), f)
    ensures PushFields(m, []) == m
  {
    assert ([f] + fs)[1..] == fs;
  }

  /** Opening a frame puts its image on top of everything that was on the stack. */
  lemma OpenStacks(k: Frame, m: State, n: nat)
    requires n + |FrameImage(k, m)| <= 0x1_0000
    ensures StackBytes(Open(k, m), n + |FrameImage(k, m)|) == FrameImage(k, m) + StackBytes(m, n)
    ensures Open(k, m).s == Wrap16(m.s - |FrameImage(k, m)|)
  {
    hide PushFields, LayoutOf, StackBytes, Open, Image, MaskOf;
    var e := Saved(k, m);
    var p := PushFields(e, LayoutOf(MaskOf(k)));
    SameStack(m, e, n);
    PushFieldsStack(e, LayoutOf(MaskOf(k)), n);
    OpenIsPush(k, m);
    SameStack(p, Open(k, m), n + |FrameImage(k, m)|);
  }

  lemma OpenIsPush(k: Frame, m: State)
    ensures
      var p := PushFields(Saved(k, m), LayoutOf(MaskOf(k)));
      Open(k, m).s == p.s && Open(k, m).mem == p.mem
  {
    var e := Saved(k, m);
    PushMaskIsLayout(e, MaskOf(k));
    FixedPushes(e);
    hide PushFields, LayoutOf, PushMask, PushEntireState, PushFastState, Push16;
    match k
    case SoftFrame(level) => SoftPush(m, level);
    case _ =>
  }

  lemma SoftPush(m: State, level: nat)
    ensures
      var p := PushEntireState(m.(cc := m.cc.(e := true)));
      SoftInt(m, level).s == p.s && SoftInt(m, level).mem == p.mem
  {
    var e := m.(cc := m.cc.(e := true));
    EntireLike(e, m.clk - (if level == 1 then 19 else 20));
    hide PushEntireState;
  }

  lemma EntireLike(m: State, clk: int)
    ensures PushEntireState(m.(clk := clk)) == PushEntireState(m).(clk := clk)
  {
    EntireIsFields(m);
    EntireIsFields(m.(clk := clk));
    PushFieldsLike(m, [FCc, FA, FB, FDp, FX, FY, FU, FPc], clk);
    hide PushEntireState, PushFields;
  }

  lemma {:induction false} PushFieldsLike(q: State, fs: seq<Field>, clk: int)
    ensures PushFields(q.(clk := clk), fs) == PushFields(q, fs).(clk := clk)
  {
    hide PushField;
    if fs != [] {
      PushFieldsLike(q, fs[1..], clk);
      PushFieldLike(PushFields(q, fs[1..]), fs[0], clk);
    }
  }

  lemma PullMore(m: State, f: Field, fs: seq<Field>)
    ensures PullFields(m, [f] + fs) == PullFields(PullField(m, f), fs)
    ensures PullFields(m, []) == m
  {
    assert ([f] + fs)[1..] == fs;
  }

  /** The fields RTI pulls after CC when E is set. */
  const REST: seq<Field> := [FA, FB, FDp, FX, FY, FU, FPc]

  lemma RestIsEntire(m: State)
    ensures PullFields(m, REST) == PullPc(PullEntireState(m), SysStack)
  {
    hide PullA, PullB, PullDp, PullX, PullY, PullOther, PullPc, PullFields;
    var f7 := [FPc] + [];
    var f6 := [FU] + f7;
    var f5 := [FY] + f6;
    var f4 := [FX] + f5;
    var f3 := [FDp] + f4;
    var f2 := [FB] + f3;
    assert [FA] + f2 == REST;
    var m1 := PullField(m, FA);
    var m2 := PullField(m1, FB);
    var m3 := PullField(m2, FDp);
    var m4 := PullField(m3, FX);
    var m5 := PullField(m4, FY);
    var m6 := PullField(m5, FU);
    PullMore(m, FA, f2); PullMore(m1, FB, f3); PullMore(m2, FDp, f4); PullMore(m3, FX, f5);
    PullMore(m4, FY, f6); PullMore(m5, FU, f7); PullMore(m6, FPc, []);
    PullMore(PullField(m6, FPc), FPc, []);
  }

  /** RTI pulls the whole layout when the stacked CC has E set and only CC and PC otherwise. */
  lemma RtiIsLayout(m: State)
    ensures Like(ReturnFromInt(m), PullFields(m, if CcOf(Top8(m, SysStack)).e then [FCc] + REST else [FCc, FPc]))
  {
    hide PullEntireState, CcOf, PullFields, PullPc;
    var c := PullCc(m, SysStack);
    PullFieldLike(m, FCc, m.clk - 6);
    var m0 := PullCc(m.Spend(6), SysStack);
    assert m0 == c.(clk := m.clk - 6);
    hide PullCc;
    PullMore(m, FCc, REST);
    PullMore(m, FCc, [FPc]);
    assert [FCc] + [FPc] == [FCc, FPc];
    RestIsEntire(m0.Spend(9));
    PullFieldsLike(c, REST, m.clk - 15);
    assert [FPc] + [] == [FPc];
    PullMore(m0, FPc, []);
    PullMore(PullField(m0, FPc), FPc, []);
    PullFieldsLike(c, [FPc], m.clk - 6);
  }

  lemma FixedLayouts()
    ensures LayoutOf(0xff) == [FCc] + REST
    ensures LayoutOf(0x81) == [FCc, FPc]
    ensures LayoutOf(0x80) == [FPc]
  {
    FixedMaskBits();
    hide Bit;
  }

  lemma RtsIsLayout(m: State)
    ensures ReturnFromSub(m) == PullFields(m, [FPc])
  {
    PullMore(m, FPc, []);
    PullMore(PullField(m, FPc), FPc, []);
    assert [FPc] + [] == [FPc];
    hide PullPc;
  }

  lemma CloseIsPull(k: Frame, m: State)
    requires k.IrqFrame? || k.SoftFrame? ==> CcOf(Top8(m, SysStack)).e
    requires k.FirqFrame? ==> !CcOf(Top8(m, SysStack)).e
    ensures Like(Close(k, m), PullFields(m, LayoutOf(MaskOf(k))))
  {
    FixedLayouts();
    hide LayoutOf, PullFields, ReturnFromInt, ReturnFromSub, PullMask, CcOf;
    match k
    case CallFrame(_) => RtsIsLayout(m);
    case RegFrame(mask) => PullMaskIsLayout(m, mask);
    case _ => RtiIsLayout(m);
  }

  /** Equal field bytes mean equal registers. */
  lemma SameBytes(m: State, r: State, f: Field)
    requires FieldBytes(r, f) == FieldBytes(m, f)
    ensures
      match f
      case FCc => r.cc == m.cc
      case FA => r.a == m.a
      case FB => r.b == m.b
      case FDp => r.dp == m.dp
      case FX => r.x == m.x
      case FY => r.y == m.y
      case FU => r.u == m.u
      case FPc => Wrap16(r.pc) == Wrap16(m.pc)
  {
    UnpackPack(r.cc);
    UnpackPack(m.cc);
    hide CcByte, CcOf;
    assert FieldBytes(r, f)[0] == FieldBytes(m, f)[0];
    if |FieldBytes(r, f)| == 2 { assert FieldBytes(r, f)[1] == FieldBytes(m, f)[1]; }
  }

  lemma LayoutRestored(mask: u8, e: State, r: State)
    requires FPc in LayoutOf(mask) ==> r.pc < 0x1_0000
    requires forall f | f in LayoutOf(mask) :: FieldBytes(r, f) == FieldBytes(e, f)
    ensures MaskRestored(mask, e, r)
  {
    LayoutMembers(mask);
    hide LayoutOf, FieldBytes, Bit;
    if Bit(mask, FieldBit(FCc)) { SameBytes(e, r, FCc); }
    if Bit(mask, FieldBit(FA)) { SameBytes(e, r, FA); }
    if Bit(mask, FieldBit(FB)) { SameBytes(e, r, FB); }
    if Bit(mask, FieldBit(FDp)) { SameBytes(e, r, FDp); }
    if Bit(mask, FieldBit(FX)) { SameBytes(e, r, FX); }
    if Bit(mask, FieldBit(FY)) { SameBytes(e, r, FY); }
    if Bit(mask, FieldBit(FU)) { SameBytes(e, r, FU); }
    if Bit(mask, FieldBit(FPc)) { SameBytes(e, r, FPc); }
  }

  lemma MaskMeansRestored(k: Frame, m: State, r: State)
    requires r.s == m.s && MaskRestored(MaskOf(k), Saved(k, m), r)
    ensures Restored(k, m, r)
  {
    FixedMaskBits();
    hide Bit;
  }

  lemma StackedCc(k: Frame, m: State, b: State, rest: seq<u8>)
    requires StackBytes(b, |FrameImage(k, m)| + |rest|) == FrameImage(k, m) + rest
    ensures k.IrqFrame? || k.SoftFrame? ==> CcOf(Top8(b, SysStack)).e
    ensures k.FirqFrame? ==> !CcOf(Top8(b, SysStack)).e
  {
    hide StackBytes, CcOf, CcByte, Image, LayoutOf;
    if k.IrqFrame? || k.SoftFrame? || k.FirqFrame? {
      var e := Saved(k, m);
      CcFirst(k, m);
      TopOfStack(b, |FrameImage(k, m)| + |rest|);
      UnpackPack(e.cc);
    }
  }

  lemma CcFirst(k: Frame, m: State)
    requires k.IrqFrame? || k.SoftFrame? || k.FirqFrame?
    ensures FrameImage(k, m) != [] && FrameImage(k, m)[0] == CcByte(Saved(k, m).cc)
  {
    FixedLayouts();
    hide LayoutOf, CcByte;
  }

  /** Closing a frame whose image is on top restores its registers and uncovers the rest of the stack. */
  lemma CloseRestores(k: Frame, m: State, b: State, rest: seq<u8>)
    requires StackBytes(b, |FrameImage(k, m)| + |rest|) == FrameImage(k, m) + rest
    requires b.s == Wrap16(m.s - |FrameImage(k, m)|)
    ensures Restored(k, m, Close(k, b))
    ensures StackBytes(Close(k, b), |rest|) == rest
  {
    hide LayoutOf, PullFields, Close, FieldBytes, Restored, MaskRestored, Image, StackBytes, MaskOf, CcOf;
    var fs := LayoutOf(MaskOf(k));
    var p := PullFields(b, fs);
    var r := Close(k, b);
    StackedCc(k, m, b, rest);
    CloseIsPull(k, b);
    LikeFields(p, r);
    SameStack(p, r, |rest|);
    PulledLayout(MaskOf(k), Saved(k, m), b, rest);
    WrapBack(m.s, |FrameImage(k, m)|);
    LikeMask(MaskOf(k), Saved(k, m), p, r);
    MaskMeansRestored(k, m, r);
  }

  lemma LikeMask(mask: u8, e: State, p: State, r: State)
    requires Like(p, r) && MaskRestored(mask, e, p)
    ensures MaskRestored(mask, e, r)
  {
    hide Bit;
    assert p == r.(clk := p.clk);
  }

  lemma PulledLayout(mask: u8, saved: State, b: State, rest: seq<u8>)
    requires
      var image := Image(saved, LayoutOf(mask));
      StackBytes(b, |image| + |rest|) == image + rest
    ensures
      var p := PullFields(b, LayoutOf(mask));
      MaskRestored(mask, saved, p) && StackBytes(p, |rest|) == rest
        && p.s == Wrap16(b.s + |Image(saved, LayoutOf(mask))|)
  {
    var fs := LayoutOf(mask);
    LayoutMembers(mask);
    hide LayoutOf, PullFields, FieldBytes, MaskRestored, Image, StackBytes, Distinct;
    PullFieldsRestore(saved, b, fs, rest);
    if FPc in fs { PulledPcs(b, fs); }
    LayoutRestored(mask, saved, PullFields(b, fs));
  }

  lemma WrapBack(s: u16, k: nat)
    ensures Wrap16(Wrap16(s - k) + k) == s
  {
  }

  lemma LikeFields(p: State, r: State)
    requires Like(p, r)
    ensures forall f :: FieldBytes(p, f) == FieldBytes(r, f)
    ensures p.s == r.s && p.mem == r.mem && p.pc == r.pc
  {
    assert p == r.(clk := p.clk);
    hide CcByte;
  }

  // ---------------------------------------------------------------- nested runs

  /** One part of a properly nested run: arbitrary work, or a frame around a run. */
  datatype Act = Work(to: State) | Nested(frame: Frame, inner: seq<Act>)

  function Play(m: State, acts: seq<Act>): State
    decreases acts
  {
    if acts == [] then m
    else match acts[0]
      case Work(to) => Play(to, acts[1..])
      case Nested(k, inner) => Play(Close(k, Play(Open(k, m), inner)), acts[1..])
  }

  /**
   * Work may change any register but S, and any memory but the `depth` bytes of
   * live frames above S; frames never cover more than the 64K of memory.
   */
  ghost predicate Disciplined(m: State, acts: seq<Act>, depth: nat)
    decreases acts
  {
    if acts == [] then true
    else match acts[0]
      case Work(to) => to.s == m.s && StackBytes(to, depth) == StackBytes(m, depth) && Disciplined(to, acts[1..], depth)
      case Nested(k, inner) =>
        var deeper := depth + |FrameImage(k, m)|;
        && deeper <= 0x1_0000
        && Disciplined(Open(k, m), inner, deeper)
        && Disciplined(Close(k, Play(Open(k, m), inner)), acts[1..], depth)
  }

  /** A nested run gives back S and leaves every live frame below it intact. */
  lemma {:induction false} NestedRunsBalance(m: State, acts: seq<Act>, depth: nat)
    requires depth <= 0x1_0000 && Disciplined(m, acts, depth)
    ensures Play(m, acts).s == m.s && StackBytes(Play(m, acts), depth) == StackBytes(m, depth)
    decreases acts, 1
  {
    hide StackBytes, Open, Close, FrameImage;
    if acts != [] {
      match acts[0]
      case Work(to) => NestedRunsBalance(to, acts[1..], depth);
      case Nested(k, inner) =>
        FramesRestore(m, k, inner, depth);
        NestedRunsBalance(Close(k, Play(Open(k, m), inner)), acts[1..], depth);
    }
  }

  /** At every nesting depth, the closing step restores what the opening step saved. */
  lemma {:induction false} FramesRestore(m: State, k: Frame, inner: seq<Act>, depth: nat)
    requires depth + |FrameImage(k, m)| <= 0x1_0000
    requires Disciplined(Open(k, m), inner, depth + |FrameImage(k, m)|)
    ensures
      var r := Close(k, Play(Open(k, m), inner));
      Restored(k, m, r) && r.s == m.s && StackBytes(r, depth) == StackBytes(m, depth)
    decreases inner, 2
  {
    hide StackBytes, Open, Close, FrameImage;
    var d := depth + |FrameImage(k, m)|;
    OpenStacks(k, m, depth);
    NestedRunsBalance(Open(k, m), inner, d);
    CloseRestores(k, m, Play(Open(k, m), inner), StackBytes(m, depth));
  }

  lemma ImageMore(m: State, f: Field, fs: seq<Field>)
    ensures |Image(m, [f] + fs)| == |FieldBytes(m, f)| + |Image(m, fs)|
    ensures Image(m, []) == []
  {
    assert ([f] + fs)[1..] == fs;
  }

  lemma FullImage(m: State)
    ensures |Image(m, LayoutOf(0xff))| == 12
  {
    FixedLayouts();
    hide LayoutOf, CcByte, Image;
    var f7 := [FPc] + [];
    var f6 := [FU] + f7;
    var f5 := [FY] + f6;
    var f4 := [FX] + f5;
    var f3 := [FDp] + f4;
    var f2 := [FB] + f3;
    var f1 := [FA] + f2;
    assert f1 == REST;
    ImageMore(m, FPc, []); ImageMore(m, FU, f7); ImageMore(m, FY, f6); ImageMore(m, FX, f5);
    ImageMore(m, FDp, f4); ImageMore(m, FB, f3); ImageMore(m, FA, f2); ImageMore(m, FCc, f1);
  }
}
