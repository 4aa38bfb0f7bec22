/** What evaluating an expression does to its text and to the machine, and how chains of operators group. */
module ExpressionFacts {
  import opened Options
  import opened Words
  import opened Symbols
  import opened MemoryAccess
  import opened Expressions
  import Reference
  import FlagFacts

  predicate Has(s: Name, c: int) { exists j :: 0 <= j < |s| && s[j] == c }

  /** The character is missing, or in first place. */
  predicate OnlyFirst(s: Name, c: int) { !Has(s, c) || s[0] == c }

  /** No equals sign, and no arithmetic operator behind another character. */
  predicate Whole(s: Name) {
    !Has(s, '=' as int)
    && OnlyFirst(s, '+' as int) && OnlyFirst(s, '-' as int) && OnlyFirst(s, '*' as int) && OnlyFirst(s, '/' as int)
  }

  lemma NoPairs(s: Name)
    requires !Has(s, '=' as int)
    ensures IndexOfPair(s, '=' as int, '=' as int).None? && IndexOfPair(s, '!' as int, '=' as int).None?
  {
  }

  /** A binary operator is found exactly where a character of it stands behind another character first. */
  lemma BinaryExactly(s: Name, op: Operator, c: int)
    requires Width(op) == 1
    ensures BinaryCut(s, op, c).None? <==> OnlyFirst(s, c)
  {
    if IndexOfChar(s, c).Some? { assert s[IndexOfChar(s, c).value] == c; }
  }

  lemma WholeExactly(s: Name)
    ensures CutOf(s).None? <==> Whole(s)
  {
    if !Has(s, '=' as int) { NoPairs(s); }
    if IndexOfChar(s, '=' as int).Some? { assert s[IndexOfChar(s, '=' as int).value] == '=' as int; }
    BinaryExactly(s, Plus, '+' as int);
    BinaryExactly(s, Minus, '-' as int);
    BinaryExactly(s, Times, '*' as int);
    BinaryExactly(s, Over, '/' as int);
  }

  // ---------------------------------------------------------------- the text after evaluation

  lemma TailWhole(s: Name)
    requires Ampersand(s) && Whole(s)
    ensures Whole(s[1..])
  {
    assert forall j | 0 <= j < |s[1..]| :: s[1..][j] == s[j + 1];
  }

  /**
   * Evaluation leaves the text as it was exactly when the text has no operator to be
   * cut at and no device offset is reached; a stored text with either means something else next time.
   */
  lemma {:induction false} IntactExactly(s: Name)
    ensures Residue(s) == s <==> Whole(s) && !((Ampersand(s) || Alphabetic(s)) && Has(s, ':' as int))
    decreases |s|
  {
    WholeExactly(s);
    if CutOf(s).None? && !Dollar(s) {
      if Ampersand(s) {
        var t := s[1..];
        assert forall j | 0 <= j < |t| :: t[j] == s[j + 1];
        assert s == s[..1] + t;
        PlaceIntact(t);
        TailWhole(s);
        IntactExactly(t);
      } else if Alphabetic(s) {
        PlaceIntact(s);
      }
    }
  }

  lemma PlaceIntact(s: Name)
    ensures PlaceResidue(s) == s <==> !Has(s, ':' as int) && (Alphabetic(s) || Residue(s) == s)
  {
    hide Residue;
    if IndexOfChar(s, ':' as int).Some? { assert s[IndexOfChar(s, ':' as int).value] == ':' as int; }
  }

  function EqualsText(l: Name, r: Name): Name { l + Text("==") + r }

  lemma FirstPair(s: Name, c: int, d: int, i: nat)
    requires PairAt(s, i, c, d) && forall j | 0 <= j < i :: !PairAt(s, j, c, d)
    ensures IndexOfPair(s, c, d) == Some(i)
  {
  }

  /** A comparison compares its sides, and leaves of its text what evaluating the left side leaves. */
  lemma ComparisonDecays(l: Name, r: Name)
    requires !Has(l, '=' as int)
    ensures Parse(EqualsText(l, r)) == Operation(Same, Parse(l), Parse(r))
    ensures Residue(EqualsText(l, r)) == Residue(l)
  {
    var s := EqualsText(l, r);
    assert forall j | 0 <= j < |l| :: s[j] == l[j];
    assert PairAt(s, |l|, '=' as int, '=' as int);
    FirstPair(s, '=' as int, '=' as int, |l|);
    assert s[..|l|] == l && s[|l| + 2..] == r;
  }

  /**
   * A breakpoint's condition on a register is checked once; from then on the breakpoint
   * asks whether the register is nonzero.
   */
  lemma ConditionDecays(name: Name, r: Name, w: World)
    requires RegisterNamed(name).Some?
    requires Value(r, w).Got? && Value(r, w).world == w
    ensures
      var s, reg := EqualsText(Text("$") + name, r), Reference.GetReg(w.cpu, RegisterNamed(name).value);
      && Value(s, w) == Got(if reg == Value(r, w).val then 1 else 0, w)
      && Value(Residue(s), w) == Got(reg, w)
  {
    hide Parse, Residue, RegisterNamed;
    var x := Text("$") + name;
    RegisterNamesPlain(name);
    DollarHasNoEquals(name);
    ComparisonDecays(x, r);
    DollarParses(name);
    IntactExactly(x);
    assert Value(x, w) == Got(Reference.GetReg(w.cpu, RegisterNamed(name).value), w);
    assert Value(EqualsText(x, r), w) == Apply(Same, Value(x, w).val, Value(r, w).val, w);
  }

  predicate Letters(name: Name) { name != [] && forall j | 0 <= j < |name| :: IsAlpha(name[j]) }

  lemma RegisterNamesPlain(name: Name)
    requires RegisterNamed(name).Some?
    ensures Letters(name)
  {
  }

  lemma DollarHasNoEquals(name: Name)
    requires Letters(name)
    ensures !Has(Text("$") + name, '=' as int) && !Has(Text("$") + name, ':' as int) && Whole(Text("$") + name)
    ensures !Has(name, '=' as int) && !Has(name, '+' as int) && !Has(name, '-' as int)
    ensures !Has(name, '*' as int) && !Has(name, '/' as int)
  {
    var x := Text("$") + name;
    assert x[0] == '$' as int;
    assert forall j | 0 < j < |x| :: x[j] == name[j - 1];
  }

  // ---------------------------------------------------------------- evaluation without assignment

  /** Nothing changed but the time at which $et was read. */
  predicate Undisturbed(w: World, o: Outcome) { o.Stuck? || o.world == w.(lastCycles := o.world.lastCycles) }

  lemma PartHas(s: Name, i: nat, j: nat, c: int)
    requires i <= j <= |s| && !Has(s, c)
    ensures !Has(s[i..j], c)
  {
  }

  /** Evaluating a text without an equals sign changes no register, memory byte or variable. */
  lemma {:induction false} LooksWithoutTouching(s: Name, w: World)
    requires !Has(s, '=' as int)
    ensures Undisturbed(w, Value(s, w))
    decreases |s|, EvalRank(s)
  {
    hide Parse, Meaning, ParsePlace;
    NoPairs(s);
    match CutOf(s)
    case Some(Cut(op, i)) =>
      var left, right := s[..i], s[i + Width(op)..];
      CutParses(s);
      assert op != Becomes;
      PartHas(s, 0, i, '=' as int);
      PartHas(s, i + Width(op), |s|, '=' as int);
      LooksWithoutTouching(left, w);
      if Value(left, w).Got? { LooksWithoutTouching(right, Value(left, w).world); }
      OperationUndisturbed(op, Parse(left), Parse(right), w);
    case None =>
      if Ampersand(s) {
        PartHas(s, 1, |s|, '=' as int);
        PlaceUndisturbed(s[1..], w);
      } else if Alphabetic(s) {
        PlaceUndisturbed(s, w);
      }
      TermUndisturbed(s, w);
  }

  lemma OperationUndisturbed(op: Operator, left: Expr, right: Expr, w: World)
    requires Undisturbed(w, Meaning(left, w))
    requires Meaning(left, w).Got? ==> Undisturbed(Meaning(left, w).world, Meaning(right, Meaning(left, w).world))
    ensures Undisturbed(w, Meaning(Operation(op, left, right), w))
  {
    hide Apply;
    var o := Meaning(left, w);
    if o.Got? && Meaning(right, o.world).Got? {
      ApplyKeeps(op, o.val, Meaning(right, o.world).val, Meaning(right, o.world).world);
    }
  }

  lemma TermUndisturbed(s: Name, w: World)
    requires CutOf(s).None?
    requires Ampersand(s) ==> Undisturbed(w, PlaceMeaning(ParsePlace(s[1..]), w))
    requires Alphabetic(s) ==> Undisturbed(w, PlaceMeaning(ParsePlace(s), w))
    ensures Undisturbed(w, Value(s, w))
  {
    hide AbsRead, ParsePlace, PlaceMeaning, CutOf, Strtoul;
    if Alphabetic(s) {
      var o := PlaceMeaning(ParsePlace(s), w);
      if o.Got? { AbsReadKeeps(o.val, o.world); }
    }
  }

  lemma {:induction false} PlaceUndisturbed(s: Name, w: World)
    requires !Has(s, '=' as int)
    ensures Undisturbed(w, PlaceMeaning(ParsePlace(s), w))
    decreases |s|, 2
  {
    hide AbsOf, Parse;
    match IndexOfChar(s, ':' as int)
    case Some(i) =>
      PartHas(s, 0, i, '=' as int);
      PartHas(s, i + 1, |s|, '=' as int);
      LooksWithoutTouching(s[..i], w);
      if Value(s[..i], w).Got? { LooksWithoutTouching(s[i + 1..], Value(s[..i], w).world); }
    case None =>
      if !Alphabetic(s) {
        LooksWithoutTouching(s, w);
        var o := Value(s, w);
        if o.Got? { AbsOfKeeps(o.val, o.world); }
      }
  }

  // ---------------------------------------------------------------- variables

  /** What a variable gives back after v was assigned to it. */
  function ReadBack(name: Name, v: nat, w: World): nat {
    if RegisterNamed(name).Some? then (if RegisterNamed(name).value < 8 then Wrap16(v) else Wrap8(v))
    else if name == Text("et") then 0
    else if name == Text("cycles") then w.cycles
    else if name == Text("irqload") then w.irqLoad
    else v
  }

  /** An assigned variable reads back as assigned; a register keeps what fits its width. */
  lemma VariableReadsBack(name: Name, v: nat, w: World)
    ensures ReadVirtual(name, WriteVirtual(name, v, w)).val == ReadBack(name, v, w)
  {
    if RegisterNamed(name).Some? {
      RegisterReadsBack(w.cpu, RegisterNamed(name).value, v);
    } else {
      WriteShows(w.internals, Set(name, v, 0), name);
    }
  }

  lemma RegisterReadsBack(m: Reference.State, nro: nat, v: nat)
    requires nro <= 5 || 8 <= nro <= 11
    ensures Reference.GetReg(Reference.SetReg(m, nro, Wrap16(v)), nro) == if nro < 8 then Wrap16(v) else Wrap8(v)
  {
    hide Reference.CcByte, Reference.CcOf;
    if nro == 10 { FlagFacts.PackUnpack(Wrap8(v)); }
    assert Wrap8(Wrap16(v)) == Wrap8(v);
  }

  function AssignText(name: Name, r: Name): Name { Text("$") + name + Text("=") + r }

  /** Assigning and then reading, as texts. */
  lemma AssignThenRead(name: Name, r: Name, w: World)
    requires name != [] && name[0] != '$' as int && !IsDigit(name[0])
    requires !Has(name, '=' as int) && name[|name| - 1] != '!' as int && !Has(r, '=' as int)
    requires !Has(name, '+' as int) && !Has(name, '-' as int) && !Has(name, '*' as int) && !Has(name, '/' as int)
    ensures
      match Value(AssignText(name, r), w)
      case Got(v, w1) => Value(r, w).Got? && v == Value(r, w).val
                         && Value(Text("$") + name, w1).Got? && Value(Text("$") + name, w1).val == ReadBack(name, v, w1)
      case Stuck => Value(r, w).Stuck?
  {
    hide ReadVirtual, WriteVirtual, ReadBack, Parse, Wrap64;
    var s, x := AssignText(name, r), Text("$") + name;
    AssignParses(name, r);
    DollarParses(name);
    var o := Value(r, w);
    AssignMeans(name, Parse(r), w);
    if o.Got? {
      assert Value(s, w) == Got(o.val, WriteVirtual(name, o.val, o.world));
      assert Value(x, WriteVirtual(name, o.val, o.world)) == ReadVirtual(name, WriteVirtual(name, o.val, o.world));
      VariableReadsBack(name, o.val, o.world);
      ReadBackKept(name, o.val, o.world);
      ReadVirtualGives(name, WriteVirtual(name, o.val, o.world));
    }
  }

  lemma AssignMeans(name: Name, e: Expr, w: World)
    ensures Meaning(Assign(Variable(name), e), w) ==
      match Meaning(e, w)
      case Got(v, w1) => Got(v, WriteVirtual(name, v, w1))
      case Stuck => Stuck
  {
  }

  lemma ReadBackKept(name: Name, v: nat, w: World)
    ensures ReadBack(name, v, WriteVirtual(name, v, w)) == ReadBack(name, v, w)
  {
  }

  lemma DollarParses(name: Name)
    requires name != [] && name[0] != '$' as int && !IsDigit(name[0]) && !Has(name, '=' as int)
    requires !Has(name, '+' as int) && !Has(name, '-' as int) && !Has(name, '*' as int) && !Has(name, '/' as int)
    ensures Parse(Text("$") + name) == Virtual(name)
  {
    var x := Text("$") + name;
    assert forall j | 0 < j < |x| :: x[j] == name[j - 1];
    WholeExactly(x);
    hide CutOf, Parse;
    TermParses(x);
    assert CharAt(x, 1) == name[0];
    assert x[1..] == name;
  }

  lemma AssignParses(name: Name, r: Name)
    requires name != [] && !Has(name, '=' as int) && name[|name| - 1] != '!' as int && !Has(r, '=' as int)
    ensures Parse(AssignText(name, r)) == Assign(Variable(name), Parse(r))
  {
    var s, i := AssignText(name, r), |name| + 1;
    assert forall j | 0 < j < i :: s[j] == name[j - 1];
    assert forall j | i < j < |s| :: s[j] == r[j - i - 1];
    assert s[i] == '=' as int;
    assert forall j | 0 <= j < |s| && s[j] == '=' as int :: j == i;
    NoPair(s, '=' as int, i);
    NoPair(s, '!' as int, i);
    assert CutOf(s) == Some(Cut(Becomes, i));
    assert s[..i][1..] == name && s[i + 1..] == r;
    assert Dollar(s[..i]);
  }

  lemma NoPair(s: Name, c: int, i: nat)
    requires 0 < i < |s| && s[i - 1] != c
    requires forall j | 0 <= j < |s| && s[j] == '=' as int :: j == i
    ensures IndexOfPair(s, c, '=' as int).None?
  {
  }

  // ---------------------------------------------------------------- numerals

  /** A text that starts with a digit and has no operator. */
  predicate Unsigned(s: Name) {
    s != [] && IsDigit(s[0]) && !Has(s, '=' as int)
    && !Has(s, '+' as int) && !Has(s, '-' as int) && !Has(s, '*' as int) && !Has(s, '/' as int)
  }

  predicate AllUnsigned(os: seq<Name>) { forall i | 0 <= i < |os| :: Unsigned(os[i]) }

  lemma UnsignedValue(s: Name, w: World)
    requires Unsigned(s)
    ensures Value(s, w) == Got(Strtoul(s, 0), w)
  {
    WholeExactly(s);
  }

  function Decimal(n: nat): (s: Name)
    ensures s != [] && forall j | 0 <= j < |s| :: IsDigit(s[j])
    ensures n > 0 ==> s[0] != '0' as int
  {
    if n < 10 then ['0' as int + n] else Decimal(n / 10) + ['0' as int + n % 10]
  }

  lemma {:induction false} MoreDigits(s: Name, d: Char8, acc: nat)
    requires IsDigit(d) && forall j | 0 <= j < |s| :: IsDigit(s[j])
    ensures Digits(s + [d], 10, acc) == Digits(s, 10, acc) * 10 + DigitValue(d)
    decreases |s|
  {
    if s == [] {
      assert Digits([d][1..], 10, acc * 10 + DigitValue(d)) == acc * 10 + DigitValue(d);
    } else {
      assert (s + [d])[1..] == s[1..] + [d];
      MoreDigits(s[1..], d, acc * 10 + DigitValue(s[0]));
    }
  }

  lemma {:induction false} DecimalDigits(n: nat)
    ensures Digits(Decimal(n), 10, 0) == n
  {
    if n < 10 { MoreDigits([], Decimal(n)[0], 0); assert [] + Decimal(n) == Decimal(n); }
    else {
      DecimalDigits(n / 10);
      MoreDigits(Decimal(n / 10), '0' as int + n % 10, 0);
    }
  }

  /** The decimal text of a 64-bit number evaluates to the number. */
  lemma DecimalEvaluates(n: nat, w: World)
    requires n < U64_SIZE
    ensures Unsigned(Decimal(n)) && Value(Decimal(n), w) == Got(n, w)
  {
    DecimalDigits(n);
    UnsignedValue(Decimal(n), w);
    if n == 0 { assert Decimal(0) == ['0' as int]; assert Digits(Decimal(0), 8, 0) == Digits([], 8, 0); }
  }

  // ---------------------------------------------------------------- chains of differences

  /** The operands joined by minus signs. */
  function Differences(os: seq<Name>): Name
    requires os != []
  {
    if |os| == 1 then os[0] else os[0] + ['-' as int] + Differences(os[1..])
  }

  function Worth(o: Name): nat { Strtoul(o, 0) }

  function SumOf(os: seq<Name>): nat { if os == [] then 0 else Worth(os[0]) + SumOf(os[1..]) }

  /** Grouped to the right: the signs alternate. */
  function Alternating(os: seq<Name>): int { if os == [] then 0 else Worth(os[0]) - Alternating(os[1..]) }

  /** The operands at even positions behind the first. */
  function Regained(os: seq<Name>): nat { if |os| < 3 then 0 else Worth(os[2]) + Regained(os[2..]) }

  lemma {:induction false} DifferencesHave(os: seq<Name>)
    requires os != [] && AllUnsigned(os)
    ensures
      var s := Differences(os);
      s != [] && !Has(s, '=' as int) && !Has(s, '+' as int) && !Has(s, '*' as int) && !Has(s, '/' as int)
  {
    if |os| > 1 {
      DifferencesHave(os[1..]);
      var s, t := Differences(os), Differences(os[1..]);
      assert forall j | 0 <= j < |os[0]| :: s[j] == os[0][j];
      assert forall j | |os[0]| < j < |s| :: s[j] == t[j - |os[0]| - 1];
    }
  }

  /** A chain of differences groups to the right. */
  lemma {:induction false} DifferencesAlternate(os: seq<Name>, w: World)
    requires os != [] && AllUnsigned(os)
    ensures Value(Differences(os), w) == Got(Wrap64(Alternating(os)), w)
  {
    hide Strtoul, Parse, Wrap64, Unsigned;
    if |os| == 1 {
      UnsignedValue(os[0], w);
      WorthWraps(os[0]);
      assert Alternating(os) == Worth(os[0]) - Alternating([]);
    } else {
      var s, t := Differences(os), Differences(os[1..]);
      DifferencesAlternate(os[1..], w);
      UnsignedValue(os[0], w);
      DifferenceParses(os);
      WrapDifference(Worth(os[0]), Alternating(os[1..]));
    }
  }

  lemma WorthWraps(o: Name)
    ensures Wrap64(Worth(o)) == Worth(o)
  {
  }

  lemma WrapDifference(a: int, b: int)
    ensures Wrap64(a - Wrap64(b)) == Wrap64(a - b)
  {
    var q := b / U64_SIZE;
    assert a - Wrap64(b) == a - b + q * U64_SIZE;
    ModShift(a - b, q);
  }

  lemma {:induction false} ModShift(a: int, q: int)
    ensures (a + q * U64_SIZE) % U64_SIZE == a % U64_SIZE
    decreases if q < 0 then -q else q
  {
    if q > 0 { ModShift(a, q - 1); } else if q < 0 { ModShift(a, q + 1); }
  }

  lemma DifferenceParses(os: seq<Name>)
    requires |os| > 1 && AllUnsigned(os)
    ensures Parse(Differences(os)) == Operation(Minus, Parse(os[0]), Parse(Differences(os[1..])))
  {
    hide Parse;
    var s, i := Differences(os), |os[0]|;
    DifferencesHave(os);
    assert Unsigned(os[0]);
    assert forall j | 0 <= j < i :: s[j] == os[0][j];
    MinusCut(s, i);
    CutParses(s);
    assert s[..i] == os[0] && s[i + 1..] == Differences(os[1..]);
  }

  lemma MinusCut(s: Name, i: nat)
    requires 0 < i < |s| && s[i] == '-' as int && !Has(s[..i], '-' as int)
    requires !Has(s, '=' as int) && !Has(s, '+' as int)
    ensures CutOf(s) == Some(Cut(Minus, i))
  {
    NoPairs(s);
    assert forall j | 0 <= j < i :: s[..i][j] == s[j];
    BinaryExactly(s, Plus, '+' as int);
  }

  lemma {:induction false} AlternatingIs(os: seq<Name>)
    requires os != []
    ensures Alternating(os) == Worth(os[0]) - SumOf(os[1..]) + 2 * Regained(os)
    decreases |os|
  {
    if |os| == 1 { assert SumOf(os[1..]) == 0; }
    else if |os| == 2 {
      assert os[1..][1..] == [] && os[1..][0] == os[1];
      assert Alternating(os[1..]) == Worth(os[1]) - Alternating([]);
      assert SumOf(os[1..]) == Worth(os[1]) + SumOf([]);
    } else {
      var rest := os[2..];
      assert os[1..][1..] == rest && os[1..][0] == os[1] && rest[0] == os[2];
      AlternatingIs(rest);
      assert SumOf(os[1..]) == Worth(os[1]) + SumOf(rest);
      assert SumOf(rest) == Worth(os[2]) + SumOf(rest[1..]);
    }
  }

  /** So it is the difference a reader expects exactly when twice the operands it adds back vanish modulo 2^64. */
  lemma DifferencesExactly(os: seq<Name>, w: World)
    requires os != [] && AllUnsigned(os)
    ensures Value(Differences(os), w) == Got(Wrap64(Worth(os[0]) - SumOf(os[1..])), w) <==>
      2 * Regained(os) % U64_SIZE == 0
  {
    hide Wrap64, Value, Differences, Alternating, SumOf, Regained, Worth, Unsigned;
    DifferencesAlternate(os, w);
    AlternatingIs(os);
    SameWrap(Worth(os[0]) - SumOf(os[1..]), 2 * Regained(os));
  }

  lemma SameWrap(a: int, d: int)
    ensures Wrap64(a + d) == Wrap64(a) <==> d % U64_SIZE == 0
  {
    var q, p := a / U64_SIZE, (a + d) / U64_SIZE;
    if Wrap64(a + d) == Wrap64(a) {
      assert d == (p - q) * U64_SIZE;
      ModShift(0, p - q);
    }
    if d % U64_SIZE == 0 {
      assert d == d / U64_SIZE * U64_SIZE;
      ModShift(a, d / U64_SIZE);
    }
  }

  /** a-b-c is evaluated as a-b+c: 5-3-1 is 3. */
  lemma ThreeNumbers(a: nat, b: nat, c: nat, w: World)
    requires a < U64_SIZE && b < U64_SIZE && c < U64_SIZE
    ensures Value(Differences([Decimal(a), Decimal(b), Decimal(c)]), w) == Got(Wrap64(a - b + c), w)
    ensures a == 5 && b == 3 && c == 1 ==> Wrap64(a - b + c) == 3
  {
    hide Decimal, Differences, Strtoul, Value, Unsigned;
    var os: seq<Name> := [Decimal(a), Decimal(b), Decimal(c)];
    DecimalWorth(a, w);
    DecimalWorth(b, w);
    DecimalWorth(c, w);
    DifferencesAlternate(os, w);
    AlternatingThree(Decimal(a), Decimal(b), Decimal(c));
  }

  lemma AlternatingThree(x: Name, y: Name, z: Name)
    ensures Alternating([x, y, z]) == Worth(x) - Worth(y) + Worth(z)
  {
    hide Worth;
    var s3: seq<Name>, s2: seq<Name>, s1: seq<Name> := [x, y, z], [y, z], [z];
    assert s3[1..] == s2 && s2[1..] == s1 && |s1[1..]| == 0;
    assert Alternating(s1) == Worth(z) - Alternating(s1[1..]);
    assert Alternating(s2) == Worth(y) - Alternating(s1);
    assert Alternating(s3) == Worth(x) - Alternating(s2);
  }

  lemma DecimalWorth(n: nat, w: World)
    requires n < U64_SIZE
    ensures Unsigned(Decimal(n)) && Worth(Decimal(n)) == n
  {
    hide Decimal, Strtoul, Value;
    DecimalEvaluates(n, w);
    UnsignedValue(Decimal(n), w);
  }
}
