/** The debugger's expressions: text, its parse, its meaning, and the evaluator that cuts the text in place. */
module Expressions {
  import opened Options
  import opened Words
  import Reference
  import opened Symbols
  import Bus
  import opened MemoryAccess

  // ---------------------------------------------------------------- text

  const U64_SIZE := 0x1_0000_0000_0000_0000

  function Wrap64(n: int): nat { n % U64_SIZE }

  /** The text of an ASCII literal. */
  function Text(s: string): (r: Name)
    requires forall i | 0 <= i < |s| :: 0 < s[i] as int < 0x80
    ensures |r| == |s| && forall i | 0 <= i < |s| :: r[i] == s[i] as int
  {
    seq(|s|, i requires 0 <= i < |s| => s[i] as int)
  }

  predicate IsDigit(c: int) { '0' as int <= c <= '9' as int }

  predicate IsAlpha(c: int) { 'A' as int <= c <= 'Z' as int || 'a' as int <= c <= 'z' as int }

  /** `strchr`, as an index. */
  function IndexOfChar(s: Name, c: int): (r: Option<nat>)
    ensures r.Some? ==> r.value < |s| && s[r.value] == c && forall j | 0 <= j < r.value :: s[j] != c
    ensures r.None? ==> forall j | 0 <= j < |s| :: s[j] != c
  {
    if s == [] then None
    else if s[0] == c then Some(0)
    else match IndexOfChar(s[1..], c)
      case Some(i) => Some(i + 1)
      case None => None
  }

  predicate PairAt(s: Name, j: int, c: int, d: int) { 0 <= j < |s| - 1 && s[j] == c && s[j + 1] == d }

  /** `strstr` for two characters. */
  function IndexOfPair(s: Name, c: int, d: int): (r: Option<nat>)
    ensures r.Some? ==> PairAt(s, r.value, c, d) && forall j | 0 <= j < r.value :: !PairAt(s, j, c, d)
    ensures r.None? ==> forall j | 0 <= j < |s| :: !PairAt(s, j, c, d)
  {
    if |s| < 2 then None
    else if s[0] == c && s[1] == d then Some(0)
    else match IndexOfPair(s[1..], c, d)
      case Some(i) =>
        assert forall j | 0 < j < i + 1 :: PairAt(s, j, c, d) == PairAt(s[1..], j - 1, c, d);
        Some(i + 1)
      case None =>
        assert forall j | 0 < j < |s| :: PairAt(s, j, c, d) == PairAt(s[1..], j - 1, c, d);
        None
  }

  // ---------------------------------------------------------------- numerals

  predicate IsBlank(c: int) { c == ' ' as int || 9 <= c <= 13 }

  function SkipBlanks(s: Name): (r: Name)
    ensures |r| <= |s|
  {
    if s != [] && IsBlank(s[0]) then SkipBlanks(s[1..]) else s
  }

  function DigitValue(c: int): nat {
    if IsDigit(c) then c - '0' as int
    else if 'a' as int <= c <= 'z' as int then c - 'a' as int + 10
    else if 'A' as int <= c <= 'Z' as int then c - 'A' as int + 10
    else 99
  }

  function Digits(s: Name, base: nat, acc: nat): nat {
    if s != [] && DigitValue(s[0]) < base then Digits(s[1..], base, acc * base + DigitValue(s[0])) else acc
  }

  /** `strtoul` for base 10, or 0 to go by the prefix: saturating, and negating modulo 2^64 after a minus sign. */
  function Strtoul(s: Name, base: nat): nat {
    var t := SkipBlanks(s);
    var negative := t != [] && t[0] == '-' as int;
    var u := if t != [] && (negative || t[0] == '+' as int) then t[1..] else t;
    var v :=
      if base == 0 && |u| > 2 && u[0] == '0' as int && (u[1] == 'x' as int || u[1] == 'X' as int)
        && DigitValue(u[2]) < 16
      then Digits(u[2..], 16, 0)
      else if base == 0 && |u| > 0 && u[0] == '0' as int then Digits(u, 8, 0)
      else Digits(u, 10, 0);
    if v >= U64_SIZE then U64_SIZE - 1 else if negative then Wrap64(-v) else v
  }

  // ---------------------------------------------------------------- syntax

  datatype Operator = Same | Differs | Becomes | Plus | Minus | Times | Over

  datatype Expr =
    | Operation(op: Operator, left: Expr, right: Expr)
    | Assign(target: Target, value: Expr)
    | Recent(back: nat)     // $, $$n: so many values before the next one
    | Numbered(id: nat)     // $n
    | Virtual(name: Name)
    | Address(place: Place)
    | Load(place: Place)
    | Numeral(value64: nat)

  datatype Target = Variable(name: Name) | Store(place: Place)

  datatype Place = Located(device: Expr, offset: Expr) | Symbolic(name: Name) | ThroughMap(address: Expr)

  /** Where the text is cut in two, and for which operator. */
  datatype Cut = Cut(op: Operator, at: nat)

  function Width(op: Operator): nat { if op.Same? || op.Differs? then 2 else 1 }

  /** An arithmetic operator in first place is a sign, and hides the later ones. */
  function BinaryCut(s: Name, op: Operator, c: int): (r: Option<Cut>)
    requires Width(op) == 1
    ensures r.Some? ==> r.value.op == op && 0 < r.value.at < |s|
  {
    match IndexOfChar(s, c)
    case Some(i) => if i == 0 then None else Some(Cut(op, i))
    case None => None
  }

  /** Comparisons first, then assignment, then the arithmetic operators one by one, each at its first occurrence. */
  function CutOf(s: Name): (r: Option<Cut>)
    ensures r.Some? ==> r.value.at + Width(r.value.op) <= |s|
  {
    if IndexOfPair(s, '=' as int, '=' as int).Some? then Some(Cut(Same, IndexOfPair(s, '=' as int, '=' as int).value))
    else if IndexOfPair(s, '!' as int, '=' as int).Some? then
      Some(Cut(Differs, IndexOfPair(s, '!' as int, '=' as int).value))
    else if IndexOfChar(s, '=' as int).Some? then Some(Cut(Becomes, IndexOfChar(s, '=' as int).value))
    else if BinaryCut(s, Plus, '+' as int).Some? then BinaryCut(s, Plus, '+' as int)
    else if BinaryCut(s, Minus, '-' as int).Some? then BinaryCut(s, Minus, '-' as int)
    else if BinaryCut(s, Times, '*' as int).Some? then BinaryCut(s, Times, '*' as int)
    else BinaryCut(s, Over, '/' as int)
  }

  predicate Alphabetic(s: Name) { s != [] && IsAlpha(s[0]) }

  predicate Dollar(s: Name) { s != [] && s[0] == '$' as int }

  predicate Ampersand(s: Name) { s != [] && s[0] == '&' as int }

  /**
   * `eval` and `eval_mem` can pass the same text to each other, but only `eval` passes
   * alphabetic text on and only `eval_mem` other text, so the rank falls when the length does not.
   */
  function EvalRank(s: Name): nat { if Alphabetic(s) then 3 else 1 }

  function Parse(s: Name): Expr
    decreases |s|, EvalRank(s)
  {
    match CutOf(s)
    case Some(Cut(op, i)) =>
      if op == Becomes then Assign(ParseTarget(s[..i]), Parse(s[i + 1..]))
      else Operation(op, Parse(s[..i]), Parse(s[i + Width(op)..]))
    case None =>
      if Dollar(s) then DollarTerm(s)
      else if Ampersand(s) then Address(ParsePlace(s[1..]))
      else if Alphabetic(s) then Load(ParsePlace(s))
      else Numeral(Strtoul(s, 0))
  }

  function DollarTerm(s: Name): Expr
    requires Dollar(s)
  {
    if CharAt(s, 1) == '$' as int then Recent(Strtoul(s[2..], 10))
    else if IsDigit(CharAt(s, 1)) then Numbered(Strtoul(s[1..], 10))
    else if |s| == 1 then Numbered(0)
    else Virtual(s[1..])
  }

  function ParseTarget(s: Name): Target
    decreases |s|, 3
  {
    if Dollar(s) then Variable(s[1..]) else Store(ParsePlace(s))
  }

  function ParsePlace(s: Name): Place
    decreases |s|, 2
  {
    match IndexOfChar(s, ':' as int)
    case Some(i) => Located(Parse(s[..i]), Parse(s[i + 1..]))
    case None => if Alphabetic(s) then Symbolic(s) else ThroughMap(Parse(s))
  }

  // ---------------------------------------------------------------- meaning

  const MAX_HISTORY := 10

  type History = h: seq<nat> | |h| == MAX_HISTORY witness seq(MAX_HISTORY, i => 0)

  datatype World = World(
    cpu: Reference.State, memory: Mem,
    history: History, historyCount: nat,
    program: Table, internals: Table,
    cycles: nat, lastCycles: nat,    // get_cycles(), and its value when $et was last used
    irqLoad: nat, thread: nat)

  /** Stuck: a division by zero, or an access outside the devices or the bus map. */
  datatype Outcome = Got(val: nat, world: World) | Stuck

  /** The automatic variables that are registers, by transfer number. */
  function RegisterNamed(name: Name): Option<nat> {
    if name == Text("pc") then Some(5)
    else if name == Text("x") then Some(1)
    else if name == Text("y") then Some(2)
    else if name == Text("u") then Some(3)
    else if name == Text("s") then Some(4)
    else if name == Text("d") then Some(0)
    else if name == Text("a") then Some(8)
    else if name == Text("b") then Some(9)
    else if name == Text("dp") then Some(11)
    else if name == Text("cc") then Some(10)
    else None
  }

  /** `eval_virtual` */
  function ReadVirtual(name: Name, w: World): Outcome {
    if RegisterNamed(name).Some? then Got(Reference.GetReg(w.cpu, RegisterNamed(name).value), w)
    else if name == Text("cycles") then Got(w.cycles, w)
    else if name == Text("et") then Got(Wrap64(w.cycles - w.lastCycles), w.(lastCycles := w.cycles))
    else if name == Text("irqload") then Got(w.irqLoad, w)
    else
      match FindValue(w.internals, name)
      case Some(v) => Got(v, w)
      case None => Got(0, w)
  }

  /** `assign_virtual` */
  function WriteVirtual(name: Name, v: nat, w: World): World {
    if RegisterNamed(name).Some? then w.(cpu := Reference.SetReg(w.cpu, RegisterNamed(name).value, Wrap16(v)))
    else if name == Text("et") then w.(lastCycles := w.cycles)
    else if name == Text("cycles") || name == Text("irqload") then w
    else
      var w1 := w.(internals := Assigned(w.internals, name, v, 0));
      if name == Text("thread_current") then w1.(thread := v) else w1
  }

  function DeviceOf(addr: nat): nat { Wrap32(addr / Bus.DEVICE_SPACE) }

  predicate Present(m: Mem, addr: nat) {
    DeviceOf(addr) < |m.bufs| && addr % Bus.DEVICE_SPACE < |m.bufs[DeviceOf(addr)]|
  }

  /** `abs_read8` */
  function AbsRead(addr: nat, w: World): Outcome {
    if Present(w.memory, addr) then Got(w.memory.bufs[DeviceOf(addr)][addr % Bus.DEVICE_SPACE], w) else Stuck
  }

  /** `abs_write8`, giving the value assigned. */
  function AbsWrite(addr: nat, v: nat, w: World): Outcome {
    if Present(w.memory, addr) then
      Got(v, w.(memory := w.memory.(bufs := Stored(w.memory.bufs, DeviceOf(addr), addr % Bus.DEVICE_SPACE, Wrap8(v)))))
    else Stuck
  }

  /** `to_absolute`; an address past the map has no entry. */
  function AbsOf(addr: nat, w: World): Outcome {
    if Wrap32(addr) >= 0x1_0000 then Stuck
    else
      var e := w.memory.table[Bus.UnitOf(Wrap32(addr))];
      if e.devid == Bus.INVALID_DEVID || e.devid >= |w.memory.bufs| then Stuck
      else Got(Bus.ToAbsolute(w.memory.table, Wrap32(addr)), w)
  }

  function Apply(op: Operator, a: nat, b: nat, w: World): Outcome {
    match op
    case Same => Got(if a == b then 1 else 0, w)
    case Differs => Got(if a != b then 1 else 0, w)
    case Plus => Got(Wrap64(a + b), w)
    case Minus => Got(Wrap64(a - b), w)
    case Times => Got(Wrap64(a * b), w)
    case Over => if b == 0 then Stuck else Got(a / b, w)
    case Becomes => Got(b, w)
  }

  function Meaning(e: Expr, w: World): Outcome {
    match e
    case Operation(op, left, right) =>
      (match Meaning(left, w)
       case Got(a, w1) =>
         (match Meaning(right, w1)
          case Got(b, w2) => Apply(op, a, b, w2)
          case Stuck => Stuck)
       case Stuck => Stuck)
    case Assign(target, value) =>
      (match Meaning(value, w)
       case Got(v, w1) => AssignMeaning(target, v, w1)
       case Stuck => Stuck)
    case Recent(back) => Got(w.history[Wrap32(w.historyCount - back) % MAX_HISTORY], w)
    case Numbered(id) => Got(w.history[Wrap32(id) % MAX_HISTORY], w)
    case Virtual(name) => ReadVirtual(name, w)
    case Address(place) => PlaceMeaning(place, w)
    case Load(place) =>
      (match PlaceMeaning(place, w)
       case Got(a, w1) => AbsRead(a, w1)
       case Stuck => Stuck)
    case Numeral(v) => Got(v, w)
  }

  function AssignMeaning(t: Target, v: nat, w: World): Outcome {
    match t
    case Variable(name) => Got(v, WriteVirtual(name, v, w))
    case Store(place) =>
      (match PlaceMeaning(place, w)
       case Got(a, w1) => AbsWrite(a, v, w1)
       case Stuck => Stuck)
  }

  function PlaceMeaning(p: Place, w: World): Outcome {
    match p
    case Located(device, offset) =>
      (match Meaning(device, w)
       case Got(d, w1) =>
         (match Meaning(offset, w1)
          case Got(a, w2) => Got(Wrap64(d * Bus.DEVICE_SPACE + a), w2)
          case Stuck => Stuck)
       case Stuck => Stuck)
    case Symbolic(name) =>
      (match FindValue(w.program, name)
       case Some(v) => Got(v, w)
       case None => Got(0, w))
    case ThroughMap(address) =>
      (match Meaning(address, w)
       case Got(a, w1) => AbsOf(a, w1)
       case Stuck => Stuck)
  }

  function Value(s: Name, w: World): Outcome { Meaning(Parse(s), w) }

  // ---------------------------------------------------------------- what is left of the text

  /** The text that a buffer holds after it was evaluated. */
  function Residue(s: Name): (r: Name)
    ensures |r| <= |s|
    decreases |s|, EvalRank(s)
  {
    match CutOf(s)
    case Some(Cut(op, i)) => if op == Becomes then TargetResidue(s[..i]) else Residue(s[..i])
    case None =>
      if Dollar(s) then s
      else if Ampersand(s) then s[..1] + PlaceResidue(s[1..])
      else if Alphabetic(s) then PlaceResidue(s)
      else s
  }

  function TargetResidue(s: Name): (r: Name)
    ensures |r| <= |s|
    decreases |s|, 3
  {
    if Dollar(s) then s else PlaceResidue(s)
  }

  function PlaceResidue(s: Name): (r: Name)
    ensures |r| <= |s|
    decreases |s|, 2
  {
    match IndexOfChar(s, ':' as int)
    case Some(i) => Residue(s[..i])
    case None => if Alphabetic(s) then s else Residue(s)
  }

  // ---------------------------------------------------------------- evaluation in place

  /** The buffer holds the text from `at`, terminated. */
  ghost predicate TextAt(buf: array<int>, at: nat, s: Name)
    reads buf
  {
    at + |s| < buf.Length && buf[at + |s|] == 0 && forall j | 0 <= j < |s| :: buf[at + j] == s[j]
  }

  /** The cells of two states of the buffer agree outside [from, to). */
  ghost predicate SameOutside(before: seq<int>, after: seq<int>, from: int, to: int) {
    |before| == |after| && forall k | 0 <= k < |before| && !(from <= k < to) :: after[k] == before[k]
  }

  /** A method's answer and the world it left are those of the outcome; a stuck run has ended. */
  ghost predicate Answers(o: Outcome, r: Access<nat>, w: World) {
    match o
    case Got(v, w1) => r == Done(v) && w == w1
    case Stuck => r.Fault?
  }

  method StrChr(buf: array<int>, at: nat, c: int, ghost s: Name) returns (r: Option<nat>)
    requires TextAt(buf, at, s) && c != 0
    ensures r == IndexOfChar(s, c)
  {
    var i := 0;
    while buf[at + i] != 0
      invariant i <= |s| && (i < |s| ==> buf[at + i] == s[i])
      invariant forall j | 0 <= j < i :: s[j] != c
      decreases |s| - i
    {
      if buf[at + i] == c { return Some(i); }
      i := i + 1;
    }
    return None;
  }

  method StrStr(buf: array<int>, at: nat, c: int, d: int, ghost s: Name) returns (r: Option<nat>)
    requires TextAt(buf, at, s) && c != 0 && d != 0
    ensures r == IndexOfPair(s, c, d)
  {
    var i := 0;
    while buf[at + i] != 0
      invariant i <= |s| && (i < |s| ==> buf[at + i] == s[i])
      invariant forall j | 0 <= j < i :: !PairAt(s, j, c, d)
      decreases |s| - i
    {
      if buf[at + i] == c && buf[at + i + 1] == d {
        assert PairAt(s, i, c, d);
        return Some(i);
      }
      i := i + 1;
    }
    return None;
  }

  /** The string at a place of the buffer, as the library functions read it. */
  method StringAt(buf: array<int>, at: nat, ghost s: Name) returns (t: Name)
    requires TextAt(buf, at, s)
    ensures t == s
  {
    t := [];
    while buf[at + |t|] != 0
      invariant |t| <= |s| && t == s[..|t|] && (|t| < |s| ==> buf[at + |t|] == s[|t|])
      decreases |s| - |t|
    {
      assert buf[at + |t|] == s[|t|];
      t := t + [buf[at + |t|]];
    }
  }

  class Evaluator {
    var world: World

    constructor (start: World)
      ensures world == start
    {
      world := start;
    }

    /** `match_binary`: the text is cut at the operator, and the place of the second half returned. */
    method MatchBinary(buf: array<int>, at: nat, c: int, d: int, ghost s: Name) returns (second: Option<nat>)
      requires TextAt(buf, at, s) && c != 0 && d != 0
      modifies buf
      ensures
        match IndexOfPair(s, c, d)
        case Some(i) => second == Some(at + i + 2) && TextAt(buf, at, s[..i]) && TextAt(buf, at + i + 2, s[i + 2..])
        case None => second == None && buf[..] == old(buf[..])
      ensures SameOutside(old(buf[..]), buf[..], at, at + |s|)
    {
      var p := StrStr(buf, at, c, d, s);
      match p {
        case None => second := None;
        case Some(i) =>
          assert PairAt(s, i, c, d);
          buf[at + i] := 0;
          second := Some(at + i + 2);
      }
    }

    /** Both halves of a cut text, the first half first, and then the operator. */
    method EvalHalves(buf: array<int>, at: nat, op: Operator, i: nat, ghost s: Name) returns (r: Access<nat>)
      requires i + Width(op) <= |s| && TextAt(buf, at, s[..i]) && TextAt(buf, at + i + Width(op), s[i + Width(op)..])
      modifies this, buf
      ensures Answers(Meaning(Operation(op, Parse(s[..i]), Parse(s[i + Width(op)..])), old(world)), r, world)
      ensures SameOutside(old(buf[..]), buf[..], at, at + |s|)
      ensures r.Done? ==> TextAt(buf, at, Residue(s[..i]))
      decreases |s|, 0, 0
    {
      hide Parse, Residue, Apply;
      var a := Eval(buf, at, s[..i]);
      if a.Fault? { return Fault; }
      var b := Eval(buf, at + i + Width(op), s[i + Width(op)..]);
      if b.Fault? { return Fault; }
      match Apply(op, a.value, b.value, world) {
        case Got(v, _) => r := Done(v);
        case Stuck => r := Fault;
      }
      ApplyKeeps(op, a.value, b.value, world);
    }

    /** `fold_comparisons` */
    method FoldComparisons(buf: array<int>, at: nat, ghost s: Name) returns (folded: bool, r: Access<nat>)
      requires TextAt(buf, at, s)
      modifies this, buf
      ensures folded <==> CutOf(s).Some? && (CutOf(s).value.op.Same? || CutOf(s).value.op.Differs?)
      ensures SameOutside(old(buf[..]), buf[..], at, at + |s|)
      ensures folded ==> Answers(Value(s, old(world)), r, world)
      ensures folded && r.Done? ==> TextAt(buf, at, Residue(s))
      ensures !folded ==> buf[..] == old(buf[..]) && world == old(world)
      decreases |s|, 0, 1
    {
      hide Meaning, Parse, Residue;
      if CutOf(s).Some? { CutParses(s); }
      folded, r := true, Fault;
      var p := MatchBinary(buf, at, '=' as int, '=' as int, s);
      if p.Some? {
        r := EvalHalves(buf, at, Same, p.value - 2 - at, s);
        return;
      }
      p := MatchBinary(buf, at, '!' as int, '=' as int, s);
      if p.Some? {
        r := EvalHalves(buf, at, Differs, p.value - 2 - at, s);
        return;
      }
      folded := false;
    }

    /** `fold_binary` */
    method FoldBinary(buf: array<int>, at: nat, op: Operator, c: int, ghost s: Name)
      returns (folded: bool, r: Access<nat>)
      requires TextAt(buf, at, s) && Width(op) == 1 && c != 0
      modifies this, buf
      ensures folded == BinaryCut(s, op, c).Some?
      ensures SameOutside(old(buf[..]), buf[..], at, at + |s|)
      ensures folded ==>
        var i := BinaryCut(s, op, c).value.at;
        Answers(Meaning(Operation(op, Parse(s[..i]), Parse(s[i + 1..])), old(world)), r, world)
        && (r.Done? ==> TextAt(buf, at, Residue(s[..i])))
      ensures !folded ==> buf[..] == old(buf[..]) && world == old(world)
      decreases |s|, 0, 1
    {
      hide Meaning, Parse, Residue;
      folded, r := false, Fault;
      var p := StrChr(buf, at, c, s);
      if p.None? || p.value == 0 { return; }
      buf[at + p.value] := 0;
      folded := true;
      r := EvalHalves(buf, at, op, p.value, s);
    }

    /** `eval_assign` */
    method EvalAssign(buf: array<int>, at: nat, v: nat, ghost s: Name) returns (r: Access<nat>)
      requires TextAt(buf, at, s)
      modifies this, buf
      ensures Answers(AssignMeaning(ParseTarget(s), v, old(world)), r, world)
      ensures SameOutside(old(buf[..]), buf[..], at, at + |s|)
      ensures r.Done? ==> TextAt(buf, at, TargetResidue(s))
      decreases |s|, 3, 0
    {
      hide ParsePlace, PlaceMeaning, PlaceResidue, WriteVirtual, AbsWrite;
      if buf[at] == '$' as int {
        var name := StringAt(buf, at + 1, s[1..]);
        world := WriteVirtual(name, v, world);
        return Done(v);
      }
      var a := EvalMem(buf, at, s);
      if a.Fault? { return Fault; }
      AbsWriteGives(a.value, v, world);
      match AbsWrite(a.value, v, world) {
        case Got(_, w) =>
          world := w;
          r := Done(v);
        case Stuck => r := Fault;
      }
    }

    /** A device number and an offset in it. */
    method EvalLocated(buf: array<int>, at: nat, i: nat, ghost s: Name) returns (r: Access<nat>)
      requires TextAt(buf, at, s) && i < |s|
      modifies this, buf
      ensures Answers(PlaceMeaning(Located(Parse(s[..i]), Parse(s[i + 1..])), old(world)), r, world)
      ensures SameOutside(old(buf[..]), buf[..], at, at + |s|)
      ensures r.Done? ==> TextAt(buf, at, Residue(s[..i]))
      decreases |s|, 0, 1
    {
      hide Parse, Residue, Wrap64;
      buf[at + i] := 0;
      var d := Eval(buf, at, s[..i]);
      if d.Fault? { return Fault; }
      var a := Eval(buf, at + i + 1, s[i + 1..]);
      if a.Fault? { return Fault; }
      r := Done(Wrap64(d.value * Bus.DEVICE_SPACE + a.value));
    }

    /** `eval_mem` for an lvalue. */
    method EvalMem(buf: array<int>, at: nat, ghost s: Name) returns (r: Access<nat>)
      requires TextAt(buf, at, s)
      modifies this, buf
      ensures Answers(PlaceMeaning(ParsePlace(s), old(world)), r, world)
      ensures SameOutside(old(buf[..]), buf[..], at, at + |s|)
      ensures r.Done? ==> TextAt(buf, at, PlaceResidue(s))
      decreases |s|, 2, 0
    {
      hide Parse, Residue, Meaning, AbsOf, FindValue;
      var p := StrChr(buf, at, ':' as int, s);
      if p.Some? {
        r := EvalLocated(buf, at, p.value, s);
        return;
      }
      if IsAlpha(buf[at]) {
        var name := StringAt(buf, at, s);
        match FindValue(world.program, name) {
          case Some(v) => r := Done(v);
          case None => r := Done(0);
        }
        return;
      }
      var a := Eval(buf, at, s);
      if a.Fault? { return Fault; }
      match AbsOf(a.value, world) {
        case Got(v, _) => r := Done(v);
        case Stuck => r := Fault;
      }
      AbsOfKeeps(a.value, world);
    }

    /** `eval` */
    method Eval(buf: array<int>, at: nat, ghost s: Name) returns (r: Access<nat>)
      requires TextAt(buf, at, s)
      modifies this, buf
      ensures Answers(Value(s, old(world)), r, world)
      ensures SameOutside(old(buf[..]), buf[..], at, at + |s|)
      ensures r.Done? ==> TextAt(buf, at, Residue(s))
      decreases |s|, EvalRank(s), 2
    {
      hide Parse, Residue, TargetResidue, Meaning;
      if CutOf(s).Some? { CutParses(s); }
      var folded;
      folded, r := FoldComparisons(buf, at, s);
      if folded { return; }
      var p := StrChr(buf, at, '=' as int, s);
      if p.Some? {
        r := EvalAssignment(buf, at, p.value, s);
        return;
      }
      r := EvalArithmetic(buf, at, s);
    }

    /** The arithmetic operators of `eval`, one after the other. */
    method EvalArithmetic(buf: array<int>, at: nat, ghost s: Name) returns (r: Access<nat>)
      requires TextAt(buf, at, s) && IndexOfChar(s, '=' as int).None?
      requires IndexOfPair(s, '=' as int, '=' as int).None? && IndexOfPair(s, '!' as int, '=' as int).None?
      modifies this, buf
      ensures Answers(Value(s, old(world)), r, world)
      ensures SameOutside(old(buf[..]), buf[..], at, at + |s|)
      ensures r.Done? ==> TextAt(buf, at, Residue(s))
      decreases |s|, EvalRank(s), 1
    {
      hide Parse, Residue, TargetResidue, Meaning, BinaryCut;
      if CutOf(s).Some? { CutParses(s); }
      var folded;
      folded, r := FoldBinary(buf, at, Plus, '+' as int, s);
      if folded { return; }
      folded, r := FoldBinary(buf, at, Minus, '-' as int, s);
      if folded { return; }
      folded, r := FoldBinary(buf, at, Times, '*' as int, s);
      if folded { return; }
      folded, r := FoldBinary(buf, at, Over, '/' as int, s);
      if folded { return; }
      r := EvalTerm(buf, at, s);
    }

    method EvalAssignment(buf: array<int>, at: nat, i: nat, ghost s: Name) returns (r: Access<nat>)
      requires TextAt(buf, at, s) && i < |s|
      modifies this, buf
      ensures Answers(Meaning(Assign(ParseTarget(s[..i]), Parse(s[i + 1..])), old(world)), r, world)
      ensures SameOutside(old(buf[..]), buf[..], at, at + |s|)
      ensures r.Done? ==> TextAt(buf, at, TargetResidue(s[..i]))
      decreases |s|, 0, 1
    {
      hide Parse, ParseTarget, TargetResidue, Residue, AssignMeaning;
      buf[at + i] := 0;
      var v := Eval(buf, at + i + 1, s[i + 1..]);
      if v.Fault? { return Fault; }
      r := EvalAssign(buf, at, v.value, s[..i]);
    }

    /** The last branches of `eval`: a text that is not cut at an operator. */
    method EvalTerm(buf: array<int>, at: nat, ghost s: Name) returns (r: Access<nat>)
      requires TextAt(buf, at, s) && CutOf(s).None?
      modifies this, buf
      ensures Answers(Value(s, old(world)), r, world)
      ensures SameOutside(old(buf[..]), buf[..], at, at + |s|)
      ensures r.Done? ==> TextAt(buf, at, Residue(s))
      decreases |s|, EvalRank(s), 0
    {
      hide CutOf, Parse, ParsePlace, PlaceMeaning, Residue, PlaceResidue, DollarTerm, Strtoul;
      TermParses(s);
      if buf[at] == '$' as int {
        r := EvalDollar(buf, at, s);
      } else if buf[at] == '&' as int {
        r := EvalMem(buf, at + 1, s[1..]);
      } else if IsAlpha(buf[at]) {
        r := EvalByte(buf, at, s);
      } else {
        var t := StringAt(buf, at, s);
        r := Done(Strtoul(t, 0));
      }
    }

    /** `eval_mem` for an rvalue. */
    method EvalByte(buf: array<int>, at: nat, ghost s: Name) returns (r: Access<nat>)
      requires TextAt(buf, at, s)
      modifies this, buf
      ensures Answers(Meaning(Load(ParsePlace(s)), old(world)), r, world)
      ensures SameOutside(old(buf[..]), buf[..], at, at + |s|)
      ensures r.Done? ==> TextAt(buf, at, PlaceResidue(s))
      decreases |s|, 2, 1
    {
      hide ParsePlace, PlaceMeaning, PlaceResidue, AbsRead;
      var a := EvalMem(buf, at, s);
      if a.Fault? { return Fault; }
      match AbsRead(a.value, world) {
        case Got(v, _) => r := Done(v);
        case Stuck => r := Fault;
      }
      AbsReadKeeps(a.value, world);
    }

    method EvalDollar(buf: array<int>, at: nat, ghost s: Name) returns (r: Access<nat>)
      requires TextAt(buf, at, s) && Dollar(s)
      modifies this
      ensures Answers(Meaning(DollarTerm(s), old(world)), r, world)
    {
      hide Strtoul, ReadVirtual;
      if buf[at + 1] == '$' as int {
        var t := StringAt(buf, at + 2, s[2..]);
        return Done(world.history[Wrap32(world.historyCount - Strtoul(t, 10)) % MAX_HISTORY]);
      }
      var t := StringAt(buf, at + 1, s[1..]);
      if IsDigit(buf[at + 1]) {
        return Done(world.history[Wrap32(Strtoul(t, 10)) % MAX_HISTORY]);
      }
      if buf[at + 1] == 0 { return Done(world.history[0]); }
      var o := ReadVirtual(t, world);
      ReadVirtualGives(t, world);
      world := o.world;
      r := Done(o.val);
    }
  }

  lemma CutParses(s: Name)
    requires CutOf(s).Some?
    ensures
      var op, i := CutOf(s).value.op, CutOf(s).value.at;
      if op == Becomes then Parse(s) == Assign(ParseTarget(s[..i]), Parse(s[i + 1..]))
        && Residue(s) == TargetResidue(s[..i])
      else Parse(s) == Operation(op, Parse(s[..i]), Parse(s[i + Width(op)..])) && Residue(s) == Residue(s[..i])
  {
  }

  lemma TermParses(s: Name)
    requires CutOf(s).None?
    ensures Dollar(s) ==> Parse(s) == DollarTerm(s) && Residue(s) == s
    ensures Ampersand(s) ==> Parse(s) == Address(ParsePlace(s[1..])) && Residue(s) == s[..1] + PlaceResidue(s[1..])
    ensures Alphabetic(s) ==> Parse(s) == Load(ParsePlace(s)) && Residue(s) == PlaceResidue(s)
    ensures !Dollar(s) && !Ampersand(s) && !Alphabetic(s) ==> Parse(s) == Numeral(Strtoul(s, 0)) && Residue(s) == s
  {
    hide CutOf, ParsePlace, PlaceResidue, DollarTerm, Strtoul;
  }

  lemma ApplyKeeps(op: Operator, a: nat, b: nat, w: World)
    ensures Apply(op, a, b, w).Got? ==> Apply(op, a, b, w).world == w
  {
  }

  lemma AbsWriteGives(addr: nat, v: nat, w: World)
    ensures AbsWrite(addr, v, w).Got? ==> AbsWrite(addr, v, w).val == v
  {
  }

  lemma AbsOfKeeps(addr: nat, w: World)
    ensures AbsOf(addr, w).Got? ==> AbsOf(addr, w).world == w
  {
  }

  lemma AbsReadKeeps(addr: nat, w: World)
    ensures AbsRead(addr, w).Got? ==> AbsRead(addr, w).world == w
  {
  }

  lemma ReadVirtualGives(name: Name, w: World)
    ensures ReadVirtual(name, w).Got?
  {
  }
}
