/** The debugger's symbol table: two hashed chain indexes over the same symbols. */
module Symbols {
  import opened Options

  const BUCKETS := 1009
  const U32 := 0x1_0000_0000

  /** A nonzero C `char`. */
  type Char8 = c: int | -0x80 <= c < 0x80 && c != 0 witness 1

  type Name = seq<Char8>

  /** Characters past the end read as the terminating zero. */
  function CharAt(name: Name, i: nat): int { if i < |name| then name[i] else 0 }

  /** `sym_hash_name`: at most the first three characters, in unsigned arithmetic. */
  function HashName(name: Name): (h: nat)
    ensures h < BUCKETS
  {
    var h0 := CharAt(name, 0) % 32;
    var h1 := if CharAt(name, 0) == 0 then h0 else (h0 * 0x800 + 544 * CharAt(name, 1)) % U32;
    var h2 := if CharAt(name, 0) == 0 || CharAt(name, 1) == 0 then h1 else (h1 * 32 + 17 * CharAt(name, 2)) % U32;
    h2 % BUCKETS
  }

  function HashValue(value: nat): (h: nat)
    ensures h < BUCKETS
  {
    value % BUCKETS
  }

  // ---------------------------------------------------------------- the table as a list

  /** A symbol; `added` is the value under which it was filed in the value index. */
  datatype Sym = Sym(name: Name, value: nat, kind: nat, added: nat)

  /** All symbols, the latest first. */
  type Table = seq<Sym>

  /** Index of the first symbol with the name. */
  function IndexOf(t: Table, name: Name): (r: Option<nat>)
    ensures r.Some? ==> r.value < |t| && t[r.value].name == name && forall j | 0 <= j < r.value :: t[j].name != name
    ensures r.None? ==> forall j | 0 <= j < |t| :: t[j].name != name
  {
    if t == [] then None
    else if t[0].name == name then Some(0)
    else match IndexOf(t[1..], name)
      case Some(i) => Some(i + 1)
      case None => None
  }

  /** `sym_find1`: the first symbol of that name, if its type fits; type 0 fits all. */
  function Find(t: Table, name: Name, kind: nat): (r: Option<nat>)
    ensures r.Some? ==> r.value < |t|
  {
    match IndexOf(t, name)
    case Some(i) => if kind != 0 && t[i].kind != kind then None else Some(i)
    case None => None
  }

  function Added(t: Table, name: Name, value: nat, kind: nat): Table { [Sym(name, value, kind, value)] + t }

  /** `sym_set` */
  function Assigned(t: Table, name: Name, value: nat, kind: nat): Table {
    match Find(t, name, kind)
    case Some(i) => t[i := t[i].(value := value)]
    case None => Added(t, name, value, kind)
  }

  /** `sym_lookup` sees the symbols filed under the hash of the value. */
  function Lookup(t: Table, value: nat): (r: Option<nat>)
    ensures r.Some? ==> r.value < |t|
  {
    if t == [] then None
    else if t[0].value == value && HashValue(t[0].added) == HashValue(value) then Some(0)
    else match Lookup(t[1..], value)
      case Some(i) => Some(i + 1)
      case None => None
  }

  // ---------------------------------------------------------------- histories

  datatype Write = Add(name: Name, value: nat, kind: nat) | Set(name: Name, value: nat, kind: nat)

  function Applied(t: Table, w: Write): Table {
    match w
    case Add(name, value, kind) => Added(t, name, value, kind)
    case Set(name, value, kind) => Assigned(t, name, value, kind)
  }

  function AppliedAll(ws: seq<Write>): Table {
    if ws == [] then [] else Applied(AppliedAll(ws[..|ws| - 1]), ws[|ws| - 1])
  }

  /** The value of the latest write to the name. */
  function LatestWrite(ws: seq<Write>, name: Name): Option<nat> {
    if ws == [] then None
    else if ws[|ws| - 1].name == name then Some(ws[|ws| - 1].value)
    else LatestWrite(ws[..|ws| - 1], name)
  }

  /** `sym_find` with type 0, storing the value. */
  function FindValue(t: Table, name: Name): Option<nat> {
    match Find(t, name, 0)
    case Some(i) => Some(t[i].value)
    case None => None
  }

  lemma FirstIndex(t: Table, name: Name, i: nat)
    requires i < |t| && t[i].name == name && forall j | 0 <= j < i :: t[j].name != name
    ensures IndexOf(t, name) == Some(i)
  {
  }

  lemma WriteShows(t: Table, w: Write, name: Name)
    ensures FindValue(Applied(t, w), name) == if w.name == name then Some(w.value) else FindValue(t, name)
  {
    var r := Applied(t, w);
    var added := Added(t, w.name, w.value, w.kind);
    if r == added {
      if w.name == name { FirstIndex(r, name, 0); }
      else {
        match IndexOf(t, name)
        case Some(i) =>
          assert forall j | 0 < j <= i :: r[j] == t[j - 1];
          FirstIndex(r, name, i + 1);
        case None =>
          assert forall j | 0 < j < |r| :: r[j] == t[j - 1];
      }
    } else {
      assert w.Set?;
      var k := Find(t, w.name, w.kind).value;
      assert r == t[k := t[k].(value := w.value)];
      if w.name == name { FirstIndex(r, name, k); }
      else {
        match IndexOf(t, name)
        case Some(i) => FirstIndex(r, name, i);
        case None =>
      }
    }
  }

  /** In every history of additions and assignments, finding a name gives the value of the latest write to it. */
  lemma {:induction false} FindsLatestWrite(ws: seq<Write>, name: Name)
    ensures FindValue(AppliedAll(ws), name) == LatestWrite(ws, name)
  {
    if ws != [] {
      FindsLatestWrite(ws[..|ws| - 1], name);
      WriteShows(AppliedAll(ws[..|ws| - 1]), ws[|ws| - 1], name);
    }
  }

  /** The name of the latest addition with the value. */
  function LatestAdded(ws: seq<Write>, value: nat): Option<Name> {
    if ws == [] then None
    else if ws[|ws| - 1].value == value then Some(ws[|ws| - 1].name)
    else LatestAdded(ws[..|ws| - 1], value)
  }

  function LookupName(t: Table, value: nat): Option<Name> {
    match Lookup(t, value)
    case Some(i) => Some(t[i].name)
    case None => None
  }

  /** In every history of additions alone, looking a value up gives the name of the latest symbol added with it. */
  lemma {:induction false} LooksUpLatest(ws: seq<Write>, value: nat)
    requires forall i | 0 <= i < |ws| :: ws[i].Add?
    ensures LookupName(AppliedAll(ws), value) == LatestAdded(ws, value)
  {
    if ws != [] {
      var before := AppliedAll(ws[..|ws| - 1]);
      LooksUpLatest(ws[..|ws| - 1], value);
      assert AppliedAll(ws)[1..] == before;
    }
  }

  /** The first symbol that holds the value now. */
  function FirstHolding(t: Table, value: nat): (r: Option<nat>)
    ensures r.Some? ==> r.value < |t|
  {
    if t == [] then None
    else if t[0].value == value then Some(0)
    else match FirstHolding(t[1..], value)
      case Some(i) => Some(i + 1)
      case None => None
  }

  /**
   * After assignments the value index is stale: a lookup finds the latest symbol
   * holding the value exactly when there is none or it was filed under the same hash.
   */
  lemma {:induction false} LookupExactly(t: Table, value: nat)
    ensures Lookup(t, value) == FirstHolding(t, value) <==>
      match FirstHolding(t, value)
      case None => true
      case Some(i) => HashValue(t[i].added) == HashValue(value)
  {
    if t != [] && t[0].value != value { LookupExactly(t[1..], value); }
  }

  /** A symbol assigned a new value is not found under it. */
  lemma StaleExample(name: Name)
    ensures LookupName(AppliedAll([Add(name, 1, 0), Set(name, 2, 0)]), 2) == None
    ensures FindValue(AppliedAll([Add(name, 1, 0), Set(name, 2, 0)]), name) == Some(2)
  {
    var ws := [Add(name, 1, 0), Set(name, 2, 0)];
    assert ws[..1] == [Add(name, 1, 0)] && ws[..1][..0] == [];
    assert AppliedAll([]) == [];
    assert AppliedAll(ws[..1]) == Applied([], Add(name, 1, 0));
    var t1 := AppliedAll(ws[..1]);
    assert t1 == [Sym(name, 1, 0, 1)];
    assert AppliedAll(ws) == [Sym(name, 2, 0, 1)];
  }

  // ---------------------------------------------------------------- the linked chains

  class Symbol {
    const name: Name
    var value: nat
    const kind: nat
    const nameNext: Symbol?
    const valueNext: Symbol?
    ghost const added: nat

    constructor (name: Name, value: nat, kind: nat, nameNext: Symbol?, valueNext: Symbol?)
      ensures this.name == name && this.value == value && this.kind == kind && added == value
      ensures this.nameNext == nameNext && this.valueNext == valueNext
    {
      this.name, this.value, this.kind, this.nameNext, this.valueNext := name, value, kind, nameNext, valueNext;
      added := value;
    }
  }

  ghost function Head(chain: seq<Symbol>): Symbol? { if chain == [] then null else chain[0] }

  /** Each element of a chain points to the next, the last one nowhere. */
  ghost predicate NameLinked(chain: seq<Symbol>) {
    forall i :: 0 <= i < |chain| ==> chain[i].nameNext == Head(chain[i + 1..])
  }

  ghost predicate ValueLinked(chain: seq<Symbol>) {
    forall i :: 0 <= i < |chain| ==> chain[i].valueNext == Head(chain[i + 1..])
  }

  /** The symbols of a list whose names hash to h, in order. */
  ghost function ByName(log: seq<Symbol>, h: nat): seq<Symbol> {
    if log == [] then []
    else if HashName(log[0].name) == h then [log[0]] + ByName(log[1..], h) else ByName(log[1..], h)
  }

  ghost function ByValue(log: seq<Symbol>, h: nat): seq<Symbol> {
    if log == [] then []
    else if HashValue(log[0].added) == h then [log[0]] + ByValue(log[1..], h) else ByValue(log[1..], h)
  }

  ghost function SymOf(s: Symbol): Sym
    reads s
  {
    Sym(s.name, s.value, s.kind, s.added)
  }

  ghost function TableOf(log: seq<Symbol>): Table
    reads log
  {
    seq(|log|, i requires 0 <= i < |log| reads log => SymOf(log[i]))
  }

  class SymTab {
    const symsByName: array<Symbol?>
    const symsByValue: array<Symbol?>
    ghost var log: seq<Symbol>  // every symbol, the latest first

    ghost predicate Valid()
      reads this, symsByName, symsByValue
    {
      && symsByName.Length == BUCKETS && symsByValue.Length == BUCKETS && symsByName != symsByValue
      && (forall h :: 0 <= h < BUCKETS ==> symsByName[h] == Head(ByName(log, h)) && NameLinked(ByName(log, h)))
      && (forall h :: 0 <= h < BUCKETS ==> symsByValue[h] == Head(ByValue(log, h)) && ValueLinked(ByValue(log, h)))
      && (forall i, j :: 0 <= i < j < |log| ==> log[i] != log[j])
    }

    ghost function Model(): Table
      reads this, log
    {
      TableOf(log)
    }

    /** `symtab_init` */
    constructor ()
      ensures Valid() && Model() == [] && log == [] && fresh(symsByName) && fresh(symsByValue)
    {
      symsByName := new Symbol?[BUCKETS](_ => null);
      symsByValue := new Symbol?[BUCKETS](_ => null);
      log := [];
    }

    /** `sym_find1`, over one table. */
    method FindSymbol(name: Name, kind: nat) returns (s: Symbol?)
      requires Valid()
      ensures
        match Find(Model(), name, kind)
        case Some(i) => s == log[i]
        case None => s == null
    {
      var chain := symsByName[HashName(name)];
      ghost var all := ByName(log, HashName(name));
      ghost var i := 0;
      while chain != null
        invariant i <= |all| && chain == Head(all[i..])
        invariant forall j | 0 <= j < i :: all[j].name != name
        decreases |all| - i
      {
        if chain.name == name {
          assert chain == all[i];
          FirstInChain(log, name, i);
          if kind != 0 && chain.kind != kind { return null; }
          return chain;
        }
        chain := chain.nameNext;
        i := i + 1;
      }
      assert all[i..] == [];
      NoneInChain(log, name);
      s := null;
    }

    /** `sym_lookup`, over one table. */
    method LookupSymbol(value: nat) returns (s: Symbol?)
      requires Valid()
      ensures
        match Lookup(Model(), value)
        case Some(i) => s == log[i]
        case None => s == null
    {
      var chain := symsByValue[HashValue(value)];
      ghost var all := ByValue(log, HashValue(value));
      ghost var i := 0;
      while chain != null
        invariant i <= |all| && chain == Head(all[i..])
        invariant forall j | 0 <= j < i :: all[j].value != value
        decreases |all| - i
      {
        if chain.value == value {
          assert chain == all[i];
          FirstValued(log, value, i);
          return chain;
        }
        chain := chain.valueNext;
        i := i + 1;
      }
      assert all[i..] == [];
      NoneValued(log, value);
      s := null;
    }

    /** `sym_add` */
    method AddSymbol(name: Name, value: nat, kind: nat) returns (s: Symbol)
      requires Valid()
      modifies this, symsByName, symsByValue
      ensures Valid() && fresh(s) && log == [s] + old(log)
      ensures Model() == Added(old(Model()), name, value, kind)
    {
      var h := HashName(name);
      var v := HashValue(value);
      ghost var was := log;
      s := new Symbol(name, value, kind, symsByName[h], symsByValue[v]);
      symsByName[h] := s;
      symsByValue[v] := s;
      log := [s] + was;
      assert log[1..] == was;
      LinkedMore(ByName(was, h), ByValue(was, v), s);
      assert forall g | 0 <= g < BUCKETS && g != h :: ByName(log, g) == ByName(was, g);
      assert forall g | 0 <= g < BUCKETS && g != v :: ByValue(log, g) == ByValue(was, g);
      assert TableOf(log) == Added(old(TableOf(log)), name, value, kind);
    }

    /** `sym_set` */
    method SetSymbol(name: Name, value: nat, kind: nat)
      requires Valid()
      modifies this, symsByName, symsByValue, log
      ensures Valid()
      ensures Model() == Assigned(old(Model()), name, value, kind)
    {
      var s := FindSymbol(name, kind);
      if s != null {
        s.value := value;
        assert TableOf(log) == Assigned(old(TableOf(log)), name, value, kind);
      } else {
        s := AddSymbol(name, value, kind);
      }
    }
  }

  // ---------------------------------------------------------------- chains against the list

  lemma LinkedMore(names: seq<Symbol>, values: seq<Symbol>, s: Symbol)
    requires NameLinked(names) && s.nameNext == Head(names)
    requires ValueLinked(values) && s.valueNext == Head(values)
    ensures NameLinked([s] + names) && ValueLinked([s] + values)
  {
    forall i | 0 <= i < |[s] + names|
      ensures ([s] + names)[i].nameNext == Head(([s] + names)[i + 1..])
    {
      assert ([s] + names)[i + 1..] == names[i..];
    }
    forall i | 0 <= i < |[s] + values|
      ensures ([s] + values)[i].valueNext == Head(([s] + values)[i + 1..])
    {
      assert ([s] + values)[i + 1..] == values[i..];
    }
  }

  lemma TailTable(log: seq<Symbol>)
    requires log != []
    ensures TableOf(log)[1..] == TableOf(log[1..]) && TableOf(log)[0] == SymOf(log[0])
  {
  }

  /** The first match along a name chain is the first match in the list. */
  lemma {:induction false} FirstInChain(log: seq<Symbol>, name: Name, i: nat)
    requires
      var chain := ByName(log, HashName(name));
      i < |chain| && chain[i].name == name && forall j | 0 <= j < i :: chain[j].name != name
    ensures
      var r := IndexOf(TableOf(log), name);
      r.Some? && log[r.value] == ByName(log, HashName(name))[i]
    decreases |log|
  {
    TailTable(log);
    var h := HashName(name);
    if log[0].name != name {
      if HashName(log[0].name) == h {
        assert ByName(log[1..], h) == ByName(log, h)[1..];
        FirstInChain(log[1..], name, i - 1);
      } else {
        FirstInChain(log[1..], name, i);
      }
    } else {
      assert ByName(log, h)[0] == log[0];
    }
  }

  ghost predicate NoneNamed(chain: seq<Symbol>, name: Name) {
    forall j | 0 <= j < |chain| :: chain[j].name != name
  }

  ghost predicate NoneValuedIn(chain: seq<Symbol>, value: nat)
    reads chain
  {
    forall j | 0 <= j < |chain| :: chain[j].value != value
  }

  lemma {:induction false} NoneInChain(log: seq<Symbol>, name: Name)
    requires NoneNamed(ByName(log, HashName(name)), name)
    ensures IndexOf(TableOf(log), name).None?
    decreases |log|
  {
    hide HashName;
    if log != [] {
      TailTable(log);
      var h := HashName(name);
      var chain, rest := ByName(log, h), ByName(log[1..], h);
      if HashName(log[0].name) == h {
        assert chain == [log[0]] + rest;
        assert chain[0].name != name;
        assert forall j | 0 <= j < |rest| :: rest[j] == chain[j + 1];
      } else {
        assert rest == chain;
      }
      NoneInChain(log[1..], name);
    }
  }

  lemma {:induction false} FirstValued(log: seq<Symbol>, value: nat, i: nat)
    requires
      var chain := ByValue(log, HashValue(value));
      i < |chain| && chain[i].value == value && forall j | 0 <= j < i :: chain[j].value != value
    ensures
      var r := Lookup(TableOf(log), value);
      r.Some? && log[r.value] == ByValue(log, HashValue(value))[i]
    decreases |log|
  {
    TailTable(log);
    var h := HashValue(value);
    if HashValue(log[0].added) == h {
      assert ByValue(log, h)[0] == log[0];
      if log[0].value != value {
        assert ByValue(log[1..], h) == ByValue(log, h)[1..];
        FirstValued(log[1..], value, i - 1);
      }
    } else {
      FirstValued(log[1..], value, i);
    }
  }

  lemma {:induction false} NoneValued(log: seq<Symbol>, value: nat)
    requires NoneValuedIn(ByValue(log, HashValue(value)), value)
    ensures Lookup(TableOf(log), value).None?
    decreases |log|
  {
    hide HashValue;
    if log != [] {
      TailTable(log);
      var h := HashValue(value);
      var chain, rest := ByValue(log, h), ByValue(log[1..], h);
      if HashValue(log[0].added) == h {
        assert chain == [log[0]] + rest;
        assert chain[0].value != value;
        assert forall j | 0 <= j < |rest| :: rest[j] == chain[j + 1];
      } else {
        assert rest == chain;
      }
      NoneValued(log[1..], value);
    }
  }

  // ---------------------------------------------------------------- interned names

  const SPACE_SIZE := 32000

  /** A copy made by the string space: where it starts and what was copied. */
  datatype Interned = Interned(space: array<int>, start: nat, text: Name)

  /** The bytes of a terminated string. */
  function Terminated(text: Name): (bytes: seq<int>)
    ensures |bytes| == |text| + 1
  {
    seq(|text| + 1, i requires 0 <= i <= |text| => CharAt(text, i))
  }

  /** The copy is still there, terminating zero included. */
  ghost predicate Intact(c: Interned)
    reads c.space
  {
    && c.space.Length == SPACE_SIZE
    && c.start + |c.text| < SPACE_SIZE
    && c.space[c.start..c.start + |c.text| + 1] == Terminated(c.text)
  }

  /** `strcpy` */
  method CopyString(text: Name, space: array<int>, start: nat)
    requires start + |text| < space.Length
    modifies space
    ensures space[start..start + |text| + 1] == Terminated(text)
    ensures forall k | 0 <= k < space.Length && !(start <= k <= start + |text|) :: space[k] == old(space[k])
  {
    var i := 0;
    while i <= |text|
      invariant i <= |text| + 1
      invariant forall k | 0 <= k < i :: space[start + k] == Terminated(text)[k]
      invariant forall k | 0 <= k < space.Length && !(start <= k < start + i) :: space[k] == old(space[k])
    {
      space[start + i] := CharAt(text, i);
      i := i + 1;
    }
  }

  class StringSpace {
    var space: array<int>   // the current space; full ones are kept, never reused
    var used: nat
    ghost var interned: seq<Interned>
    ghost var spaces: set<array<int>>

    ghost predicate Valid()
      reads this, spaces
    {
      && space in spaces && space.Length == SPACE_SIZE && used <= SPACE_SIZE
      && (forall i :: 0 <= i < |interned| ==> interned[i].space in spaces && Intact(interned[i]))
      && (forall i :: 0 <= i < |interned| && interned[i].space == space ==>
        interned[i].start + |interned[i].text| < used)
    }

    constructor ()
      ensures Valid() && interned == [] && fresh(spaces)
    {
      space := new int[SPACE_SIZE];
      used, interned, spaces := 0, [], {space};
    }

    /**
     * `stringspace_copy`. Every earlier copy stays where it is, and stays intact
     * by Valid(). A longer name than fits a whole space would be written past it.
     */
    method Copy(text: Name) returns (result: array<int>, start: nat)
      requires Valid() && |text| < SPACE_SIZE
      modifies this, space
      ensures Valid() && interned == old(interned) + [Interned(result, start, text)]
      ensures old(spaces) <= spaces && fresh(spaces - old(spaces))
      ensures old(used) + |text| < SPACE_SIZE ==> result == old(space) && start == old(used)
    {
      var len := |text| + 1;
      if used + len > SPACE_SIZE { Renew(); }
      result, start := space, used;
      Append(text);
    }

    /** A fresh space, when the current one has no room. */
    method Renew()
      requires Valid()
      modifies this
      ensures Valid() && fresh(space) && used == 0 && interned == old(interned) && spaces == old(spaces) + {space}
    {
      space := new int[SPACE_SIZE];
      used := 0;
      spaces := spaces + {space};
    }

    /** A copy behind the used part, which every earlier copy survives. */
    method Append(text: Name)
      requires Valid() && used + |text| < SPACE_SIZE
      modifies this`used, this`interned, space
      ensures Valid() && interned == old(interned) + [Interned(space, old(used), text)]
    {
      CopyString(text, space, used);
      forall i | 0 <= i < |interned| ensures Intact(interned[i]) {
        ghost var c := interned[i];
        ghost var from, to := c.start, c.start + |c.text| + 1;
        assert old(Intact(interned[i]));
        assert c.space[from..to] == old(c.space[from..to]);
      }
      ghost var copied := Interned(space, used, text);
      assert Intact(copied);
      used := used + |text| + 1;
      interned := interned + [copied];
    }
  }
}
