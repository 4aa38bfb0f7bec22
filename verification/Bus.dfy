/** The bus map: 512 units of 128 bytes, each pointing into a device. */
module Bus {
  import opened Words
  import opened Bits

  const UNIT := 0x80
  const UNITS := 0x200
  const MAP_READABLE: u8 := 1
  const MAP_WRITABLE: u8 := 2
  const MAP_READWRITE: u8 := MAP_READABLE + MAP_WRITABLE
  const MAP_FIXED: u8 := 4
  const INVALID_DEVID := 0xff

  datatype Entry = Entry(devid: nat, offset: nat, flags: u8)

  /** One call of `bus_map`. */
  datatype MapCall = MapCall(addr: nat, devid: nat, offset: nat, len: nat, flags: u8)

  type Table = t: seq<Entry> | |t| == UNITS witness seq(UNITS, i => Entry(INVALID_DEVID, 0, 0))

  predicate IsFixed(flags: u8) { flags / 4 % 2 == 1 }

  /** The number of units needed to hold n bytes. */
  function UnitsFor(n: nat): nat { (n + UNIT - 1) / UNIT }

  function FirstUnit(c: MapCall): nat { UnitsFor(c.addr) }

  predicate Covers(c: MapCall, u: nat) { FirstUnit(c) <= u < FirstUnit(c) + UnitsFor(c.len) }

  /** The call stays inside the table; past it the simulator writes out of bounds after a warning. */
  predicate InRange(c: MapCall) { FirstUnit(c) + UnitsFor(c.len) <= UNITS }

  function EntryFor(c: MapCall, u: nat): Entry
    requires FirstUnit(c) <= u
  {
    Entry(c.devid, UNIT * (UnitsFor(c.offset) + (u - FirstUnit(c))), c.flags)
  }

  function Mapped(t: Table, c: MapCall): Table {
    seq(UNITS, u requires 0 <= u < UNITS => if Covers(c, u) && !IsFixed(t[u].flags) then EntryFor(c, u) else t[u])
  }

  class BusMap {
    const maps: array<Entry>

    ghost predicate Valid()
    {
      maps.Length == UNITS
    }

    constructor ()
      ensures Valid() && fresh(maps)
      ensures forall u | 0 <= u < UNITS :: maps[u] == Entry(INVALID_DEVID, 0, 0)
    {
      maps := new Entry[UNITS](_ => Entry(INVALID_DEVID, 0, 0));
    }

    /** `bus_map` */
    method Map(addr: nat, devid: nat, offset: nat, len: nat, flags: u8)
      requires Valid() && InRange(MapCall(addr, devid, offset, len, flags))
      modifies maps
      ensures maps[..] == Mapped(old(maps[..]), MapCall(addr, devid, offset, len, flags))
    {
      var start := UnitsFor(addr);
      var count: nat := UnitsFor(len);
      var off := UnitsFor(offset) * UNIT;
      ghost var c := MapCall(addr, devid, offset, len, flags);
      ghost var before := maps[..];
      var i := start;
      while count > 0
        invariant start <= i && i + count == start + UnitsFor(len)
        invariant off == UNIT * (UnitsFor(offset) + (i - start))
        invariant forall u | 0 <= u < UNITS ::
          maps[u] == if start <= u < i && !IsFixed(before[u].flags) then EntryFor(c, u) else before[u]
      {
        if !IsFixed(maps[i].flags) {
          maps[i] := Entry(devid, off, flags);
        }
        count := count - 1;
        i := i + 1;
        off := off + UNIT;
      }
      forall u | 0 <= u < UNITS
        ensures maps[..][u] == Mapped(before, c)[u]
      {
        assert Covers(c, u) <==> start <= u < i;
      }
    }
  }

  // ---------------------------------------------------------------- histories

  function MappedAll(t: Table, calls: seq<MapCall>): Table {
    if calls == [] then t else Mapped(MappedAll(t, calls[..|calls| - 1]), calls[|calls| - 1])
  }

  /** Call i pins unit u: it covers it and carries MAP_FIXED. */
  predicate Pins(calls: seq<MapCall>, i: nat, u: nat)
    requires i < |calls|
  {
    Covers(calls[i], u) && IsFixed(calls[i].flags)
  }

  /** The first call that pins a unit decides it for good. */
  lemma {:induction false} FirstPinDecides(t: Table, calls: seq<MapCall>, u: nat, i: nat)
    requires u < UNITS && !IsFixed(t[u].flags)
    requires i < |calls| && Pins(calls, i, u) && forall j | 0 <= j < i :: !Pins(calls, j, u)
    ensures MappedAll(t, calls)[u] == EntryFor(calls[i], u)
  {
    var n := |calls| - 1;
    var prefix := calls[..n];
    assert forall j | 0 <= j < n :: Pins(prefix, j, u) == Pins(calls, j, u);
    if i < n { FirstPinDecides(t, prefix, u, i); } else { UnpinnedStays(t, prefix, u); }
  }

  lemma {:induction false} UnpinnedStays(t: Table, calls: seq<MapCall>, u: nat)
    requires u < UNITS && !IsFixed(t[u].flags)
    requires forall j | 0 <= j < |calls| :: !Pins(calls, j, u)
    ensures !IsFixed(MappedAll(t, calls)[u].flags)
  {
    if calls != [] {
      var prefix := calls[..|calls| - 1];
      assert forall j | 0 <= j < |prefix| :: Pins(prefix, j, u) == Pins(calls, j, u);
      UnpinnedStays(t, prefix, u);
      assert !Pins(calls, |calls| - 1, u);
    }
  }

  /** With no pin, the last call that covers a unit decides it. */
  lemma {:induction false} LastCoverDecides(t: Table, calls: seq<MapCall>, u: nat, i: nat)
    requires u < UNITS && !IsFixed(t[u].flags)
    requires forall j | 0 <= j < |calls| :: !Pins(calls, j, u)
    requires i < |calls| && Covers(calls[i], u) && forall j | i < j < |calls| :: !Covers(calls[j], u)
    ensures MappedAll(t, calls)[u] == EntryFor(calls[i], u)
  {
    var n := |calls| - 1;
    var prefix := calls[..n];
    assert forall j | 0 <= j < n :: Pins(prefix, j, u) == Pins(calls, j, u);
    assert forall j | 0 <= j < n :: prefix[j] == calls[j];
    UnpinnedStays(t, prefix, u);
    if i < n { LastCoverDecides(t, prefix, u, i); }
  }

  lemma {:induction false} UncoveredStays(t: Table, calls: seq<MapCall>, u: nat)
    requires u < UNITS && forall j | 0 <= j < |calls| :: !Covers(calls[j], u)
    ensures MappedAll(t, calls)[u] == t[u]
  {
    if calls != [] {
      var prefix := calls[..|calls| - 1];
      assert forall j | 0 <= j < |prefix| :: prefix[j] == calls[j];
      UncoveredStays(t, prefix, u);
      assert !Covers(calls[|calls| - 1], u);
    }
  }

  predicate NeverPinned(calls: seq<MapCall>, u: nat) { forall j | 0 <= j < |calls| :: !Pins(calls, j, u) }

  /** The earliest call that fixes the unit. */
  predicate FirstPin(calls: seq<MapCall>, i: int, u: nat) {
    0 <= i < |calls| && Pins(calls, i, u) && forall j | 0 <= j < i :: !Pins(calls, j, u)
  }

  /** The latest call that covers the unit. */
  predicate LastCover(calls: seq<MapCall>, i: int, u: nat) {
    0 <= i < |calls| && Covers(calls[i], u) && forall j | i < j < |calls| :: !Covers(calls[j], u)
  }

  /**
   * What a unit holds after any history of calls, for a unit not fixed at the
   * start: the entry of the first call that pinned it, else of the last call that
   * covered it, else what it held before.
   */
  lemma HistoryDecides(t: Table, calls: seq<MapCall>, u: nat)
    requires u < UNITS && !IsFixed(t[u].flags)
    ensures forall i | FirstPin(calls, i, u) :: MappedAll(t, calls)[u] == EntryFor(calls[i], u)
    ensures NeverPinned(calls, u) ==>
      forall i | LastCover(calls, i, u) :: MappedAll(t, calls)[u] == EntryFor(calls[i], u)
    ensures (forall j | 0 <= j < |calls| :: !Covers(calls[j], u)) ==> MappedAll(t, calls)[u] == t[u]
  {
    hide MappedAll, EntryFor;
    forall i | FirstPin(calls, i, u) ensures MappedAll(t, calls)[u] == EntryFor(calls[i], u) {
      FirstPinDecides(t, calls, u, i);
    }
    if NeverPinned(calls, u) {
      forall i | LastCover(calls, i, u) ensures MappedAll(t, calls)[u] == EntryFor(calls[i], u) {
        LastCoverDecides(t, calls, u, i);
      }
    }
    if forall j | 0 <= j < |calls| :: !Covers(calls[j], u) { UncoveredStays(t, calls, u); }
  }

  /** A fixed entry survives every history. */
  lemma {:induction false} FixedForever(t: Table, calls: seq<MapCall>, u: nat)
    requires u < UNITS && IsFixed(t[u].flags)
    ensures MappedAll(t, calls)[u] == t[u]
  {
    if calls != [] { FixedForever(t, calls[..|calls| - 1], u); }
  }

  // ---------------------------------------------------------------- absolute addresses

  const DEVICE_SPACE := 0x1000_0000

  function UnitOf(addr: u16): nat { addr / UNIT }

  function Physical(t: Table, addr: u16): nat { t[UnitOf(addr)].offset + addr % UNIT }

  /** `to_absolute` */
  function ToAbsolute(t: Table, addr: u16): nat { t[UnitOf(addr)].devid * DEVICE_SPACE + Physical(t, addr) }

  /**
   * In the window of the call that decides a unit, the first to fix it or else the last
   * to cover it, CPU addresses run through the device from its rounded offset.
   */
  lemma WindowIsLinear(t: Table, calls: seq<MapCall>, i: nat, addr: u16)
    requires !IsFixed(t[UnitOf(addr)].flags)
    requires FirstPin(calls, i, UnitOf(addr)) || (NeverPinned(calls, UnitOf(addr)) && LastCover(calls, i, UnitOf(addr)))
    ensures
      var c := calls[i];
      ToAbsolute(MappedAll(t, calls), addr)
        == c.devid * DEVICE_SPACE + UNIT * UnitsFor(c.offset) + (addr - UNIT * FirstUnit(c))
  {
    HistoryDecides(t, calls, UnitOf(addr));
    hide MappedAll;
  }
}

/** The EON memory management unit, which rewrites the bus map a 4K page at a time. */
module Mmu {
  import opened Words
  import opened Bits
  import opened Bus

  const PAGE_SIZE := 0x1000
  const PAGES := 16
  const PAGE_UNITS := 32

  /** Four registers per page: device, 4K block, permissions, unused. */
  type Regs = r: seq<u8> | |r| == 64 witness seq(64, i => 0)

  datatype State = State(regs: Regs, table: Table)

  function PageCall(regs: Regs, page: nat): MapCall
    requires page < PAGES
  {
    MapCall(page * PAGE_SIZE, regs[4 * page], regs[4 * page + 1] * PAGE_SIZE, PAGE_SIZE, regs[4 * page + 2] % 4)
  }

  function Written(s: State, addr: nat, val: u8): State {
    var page, reg := addr / 4 % PAGES, addr % 4;
    var regs := s.regs[4 * page + reg := val];
    State(regs, Mapped(s.table, PageCall(regs, page)))
  }

  /** What the registers of a page say about one of its units. */
  function Promised(regs: Regs, u: nat): Entry
    requires u < UNITS
  {
    var page := u / PAGE_UNITS;
    Entry(regs[4 * page], regs[4 * page + 1] * PAGE_SIZE + UNIT * (u % PAGE_UNITS), regs[4 * page + 2] % 4)
  }

  /** Registers and table agree on every unit of the page that is not fixed. */
  ghost predicate Agrees(s: State, page: nat)
    requires page < PAGES
  {
    forall u :: PAGE_UNITS * page <= u < PAGE_UNITS * page + PAGE_UNITS && !IsFixed(s.table[u].flags) ==>
      s.table[u] == Promised(s.regs, u)
  }

  lemma PageCallCovers(regs: Regs, page: nat, u: nat)
    requires page < PAGES && u < UNITS
    ensures InRange(PageCall(regs, page))
    ensures Covers(PageCall(regs, page), u) <==> u / PAGE_UNITS == page
    ensures u / PAGE_UNITS == page ==> EntryFor(PageCall(regs, page), u) == Promised(regs, u)
  {
    var c := PageCall(regs, page);
    UnitsOfPages(page);
    UnitsOfPages(regs[4 * page + 1]);
    UnitsOfPages(1);
  }

  lemma UnitsOfPages(n: nat)
    ensures UnitsFor(n * PAGE_SIZE) == n * PAGE_UNITS
  {
  }

  class MmuDevice {
    const regs: array<u8>
    const bus: BusMap

    ghost predicate Valid()
    {
      regs.Length == 64 && bus.Valid()
    }

    ghost function Model(): State
      requires Valid()
      reads regs, bus.maps
    {
      State(regs[..], bus.maps[..])
    }

    constructor (target: BusMap)
      requires target.Valid()
      ensures Valid() && bus == target && fresh(regs)
    {
      regs := new u8[64](_ => 0);
      bus := target;
    }

    /** `mmu_write` */
    method Write(addr: nat, val: u8)
      requires Valid()
      modifies regs, bus.maps
      ensures Model() == Written(old(Model()), addr, val)
    {
      var page, reg := addr / 4 % PAGES, addr % 4;
      regs[4 * page + reg] := val;
      assert regs[..] == old(regs[..])[4 * page + reg := val];
      PageCallCovers(regs[..], page, 0);
      bus.Map(page * PAGE_SIZE, regs[4 * page], regs[4 * page + 1] * PAGE_SIZE, PAGE_SIZE, regs[4 * page + 2] % 4);
    }

    /** `mmu_reset_complete`: read the registers back from the fifth unit of each page. */
    method ResetComplete()
      requires Valid()
      modifies regs
      ensures Model() == State(Synced(old(Model())), old(bus.maps[..]))
    {
      var page := 0;
      while page < PAGES
        invariant 0 <= page <= PAGES
        invariant forall k | 0 <= k < 64 ::
          regs[k] == if k < 4 * page && k % 4 < 3 then SyncedReg(bus.maps[..], k) else old(regs[k])
      {
        var entry := bus.maps[4 + page * PAGE_UNITS];
        regs[4 * page] := entry.devid % 0x100;
        regs[4 * page + 1] := entry.offset / PAGE_SIZE % 0x100;
        regs[4 * page + 2] := entry.flags % 4;
        page := page + 1;
      }
      assert regs[..] == Synced(old(Model()));
    }
  }

  function SyncedReg(table: Table, k: nat): u8
    requires k < 64 && k % 4 < 3
  {
    var entry := table[4 + k / 4 * PAGE_UNITS];
    if k % 4 == 0 then entry.devid % 0x100 else if k % 4 == 1 then entry.offset / PAGE_SIZE % 0x100 else entry.flags % 4
  }

  function Synced(s: State): Regs {
    seq(64, k requires 0 <= k < 64 => if k % 4 < 3 then SyncedReg(s.table, k) else s.regs[k])
  }

  // ---------------------------------------------------------------- agreement over runs

  datatype RegWrite = RegWrite(addr: nat, val: u8)

  function WrittenAll(s: State, writes: seq<RegWrite>): State {
    if writes == [] then s
    else
      var w := writes[|writes| - 1];
      Written(WrittenAll(s, writes[..|writes| - 1]), w.addr, w.val)
  }

  lemma WriteAgrees(s: State, addr: nat, val: u8)
    ensures Agrees(Written(s, addr, val), addr / 4 % PAGES)
    ensures forall page | 0 <= page < PAGES && Agrees(s, page) :: Agrees(Written(s, addr, val), page)
    ensures forall u | 0 <= u < UNITS ::
      && IsFixed(Written(s, addr, val).table[u].flags) == IsFixed(s.table[u].flags)
      && (IsFixed(s.table[u].flags) ==> Written(s, addr, val).table[u] == s.table[u])
  {
    var page := addr / 4 % PAGES;
    var w := Written(s, addr, val);
    forall u | 0 <= u < UNITS
      ensures w.table[u] ==
        if u / PAGE_UNITS == page && !IsFixed(s.table[u].flags) then Promised(w.regs, u) else s.table[u]
      ensures u / PAGE_UNITS != page ==> Promised(w.regs, u) == Promised(s.regs, u)
    {
      PageCallCovers(w.regs, page, u);
    }
    hide Written, Promised;
  }

  predicate Touches(w: RegWrite, page: nat) { w.addr / 4 % PAGES == page }

  /**
   * In every run of MMU writes a page agrees from its first register write on,
   * or from the start if it agreed there.
   */
  lemma {:induction false} RunsAgree(s: State, writes: seq<RegWrite>, page: nat)
    requires page < PAGES
    requires Agrees(s, page) || exists i :: 0 <= i < |writes| && Touches(writes[i], page)
    ensures Agrees(WrittenAll(s, writes), page)
  {
    hide Written, Agrees;
    if writes != [] {
      var n := |writes| - 1;
      var before := writes[..n];
      WriteAgrees(WrittenAll(s, before), writes[n].addr, writes[n].val);
      if !Touches(writes[n], page) {
        assert forall i | 0 <= i < n :: before[i] == writes[i];
        RunsAgree(s, before, page);
      }
    }
  }

  /** Fixed units, such as the window of the MMU itself, are never remapped by MMU writes. */
  lemma {:induction false} FixedUnitsStay(s: State, writes: seq<RegWrite>, u: nat)
    requires u < UNITS && IsFixed(s.table[u].flags)
    ensures WrittenAll(s, writes).table[u] == s.table[u]
  {
    hide Written, Agrees;
    if writes != [] {
      var n := |writes| - 1;
      FixedUnitsStay(s, writes[..n], u);
      WriteAgrees(WrittenAll(s, writes[..n]), writes[n].addr, writes[n].val);
    }
  }

  // ---------------------------------------------------------------- the EON machine

  const MMU_ADDR := 0xe000
  const RAM_DEV := 2

  /** The maps `eon_init` defines, in order: MMU, RAM, ROM, console twice, disk. */
  function EonCalls(): seq<MapCall> {
    [MapCall(MMU_ADDR, 1, 0, UNIT, MAP_READWRITE + MAP_FIXED),
     MapCall(0, RAM_DEV, 0, 0x1_0000, MAP_READWRITE),
     MapCall(0xe400, 3, 0, 0x1c00, MAP_READABLE),
     MapCall(0xe100, 4, 0, UNIT, MAP_READWRITE),
     MapCall(0xff00, 4, 0, UNIT, MAP_READWRITE),
     MapCall(0xe200, 5, 0, UNIT, MAP_READWRITE)]
  }

  /** After the start of an EON, whatever the reset mapped before, units below 0xe000 are RAM in order. */
  lemma EonRam(t: Table, u: nat)
    requires u < 0xe000 / UNIT && !IsFixed(t[u].flags)
    ensures MappedAll(t, EonCalls())[u] == Entry(RAM_DEV, UNIT * u, MAP_READWRITE)
  {
    var calls := EonCalls();
    assert Covers(calls[1], u) && !Covers(calls[0], u) && !Covers(calls[2], u) && !Covers(calls[3], u)
      && !Covers(calls[4], u) && !Covers(calls[5], u);
    assert forall j | 1 < j < |calls| :: !Covers(calls[j], u);
    assert forall j | 0 <= j < |calls| :: !Pins(calls, j, u);
    assert EntryFor(calls[1], u) == Entry(RAM_DEV, UNIT * u, MAP_READWRITE);
    hide MappedAll, EonCalls;
    LastCoverDecides(t, calls, u, 1);
  }

  /** So pages 0 to 13 of an EON start in agreement, and its MMU window is fixed. */
  lemma EonStartsInAgreement(t: Table, regs: Regs, page: nat)
    requires page < 14 && forall u | 0 <= u < UNITS :: !IsFixed(t[u].flags)
    ensures
      var table := MappedAll(t, EonCalls());
      Agrees(State(Synced(State(regs, table)), table), page)
  {
    var table := MappedAll(t, EonCalls());
    var synced := Synced(State(regs, table));
    hide EonCalls, MappedAll, Promised, Synced;
    forall u | PAGE_UNITS * page <= u < PAGE_UNITS * page + PAGE_UNITS
      ensures table[u] == Promised(synced, u)
    {
      EonUnit(t, regs, page, u);
    }
  }

  lemma EonUnit(t: Table, regs: Regs, page: nat, u: nat)
    requires page < 14 && PAGE_UNITS * page <= u < PAGE_UNITS * page + PAGE_UNITS
    requires forall v | 0 <= v < UNITS :: !IsFixed(t[v].flags)
    ensures var table := MappedAll(t, EonCalls()); table[u] == Promised(Synced(State(regs, table)), u)
  {
    hide EonCalls, MappedAll;
    EonRam(t, 4 + page * PAGE_UNITS);
    EonRam(t, u);
    SyncedPage(regs, MappedAll(t, EonCalls()), page);
    hide Synced, Promised;
    PromisedRam(Synced(State(regs, MappedAll(t, EonCalls()))), page, u);
  }

  lemma PromisedRam(regs: Regs, page: nat, u: nat)
    requires page < 14 && PAGE_UNITS * page <= u < PAGE_UNITS * page + PAGE_UNITS
    requires regs[4 * page] == RAM_DEV && regs[4 * page + 1] == page && regs[4 * page + 2] % 4 == MAP_READWRITE
    ensures Promised(regs, u) == Entry(RAM_DEV, UNIT * u, MAP_READWRITE)
  {
    PageOf(page, u);
  }

  lemma PageOf(page: nat, u: nat)
    requires PAGE_UNITS * page <= u < PAGE_UNITS * page + PAGE_UNITS
    ensures u / PAGE_UNITS == page && UNIT * u == page * PAGE_SIZE + UNIT * (u % PAGE_UNITS)
  {
  }

  /** What the sync reads from the fifth unit of a page of RAM. */
  lemma SyncedPage(regs: Regs, table: Table, page: nat)
    requires page < 14
    requires table[4 + page * PAGE_UNITS] == Entry(RAM_DEV, UNIT * (4 + page * PAGE_UNITS), MAP_READWRITE)
    ensures
      var synced := Synced(State(regs, table));
      synced[4 * page] == RAM_DEV && synced[4 * page + 1] == page && synced[4 * page + 2] % 4 == MAP_READWRITE
  {
    assert UNIT * (4 + page * PAGE_UNITS) / PAGE_SIZE == page;
  }

  /** The first unit of 0xe000 is pinned to the MMU. */
  lemma EonMmuWindow(t: Table)
    requires !IsFixed(t[MMU_ADDR / UNIT].flags)
    ensures MappedAll(t, EonCalls())[MMU_ADDR / UNIT] == Entry(1, 0, MAP_READWRITE + MAP_FIXED)
  {
    var calls := EonCalls();
    assert Pins(calls, 0, MMU_ADDR / UNIT)
      && EntryFor(calls[0], MMU_ADDR / UNIT) == Entry(1, 0, MAP_READWRITE + MAP_FIXED);
    hide MappedAll, EonCalls;
    FirstPinDecides(t, calls, MMU_ADDR / UNIT, 0);
  }

  /** So from the start of an EON, no run of MMU writes takes pages 0 to 13 out of agreement or unmaps the MMU. */
  lemma EonRuns(t: Table, regs: Regs, writes: seq<RegWrite>, page: nat)
    requires page < 14 && forall u | 0 <= u < UNITS :: !IsFixed(t[u].flags)
    ensures
      var table := MappedAll(t, EonCalls());
      var r := WrittenAll(State(Synced(State(regs, table)), table), writes);
      Agrees(r, page) && r.table[MMU_ADDR / UNIT] == Entry(1, 0, MAP_READWRITE + MAP_FIXED)
  {
    var table := MappedAll(t, EonCalls());
    var start := State(Synced(State(regs, table)), table);
    EonStartsInAgreement(t, regs, page);
    EonMmuWindow(t);
    hide MappedAll, EonCalls, WrittenAll, Synced, Agrees;
    RunsAgree(start, writes, page);
    FixedUnitsStay(start, writes, MMU_ADDR / UNIT);
  }
}

/** The small MMU of the second EON, which maps slots of one device through a select register. */
module SmallMmu {
  import opened Words
  import opened Bits
  import opened Bus

  const PAGE_SIZE := 0x1000
  const SLOTS := 16
  const SLOT_UNITS := 32
  const SELECT := 0
  const GLOBAL_REGS := 6
  const PAGE_REG := 6
  const FLAGS_REG := 7

  type Globals = g: seq<u8> | |g| == 8 witness seq(8, i => 0)
  type Slots = p: seq<(u8, u8)> | |p| == SLOTS witness seq(SLOTS, i => (0, 0))

  /** Global registers, a page and a flags register per slot, the device behind the slots, and the bus table. */
  datatype State = State(globals: Globals, slots: Slots, devid: nat, table: Table)

  function SlotCall(s: State, slot: nat): MapCall
    requires slot < SLOTS
  {
    MapCall(slot * PAGE_SIZE, s.devid, s.slots[slot].0 * PAGE_SIZE, PAGE_SIZE, s.slots[slot].1 % 4)
  }

  /** The selected slot exists; past it the simulator would index outside its registers. */
  predicate Selected(s: State) { s.globals[SELECT] < SLOTS }

  /** `small_mmu_write` */
  function Written(s: State, addr: nat, val: u8): State
    requires addr < 8 && (addr >= GLOBAL_REGS ==> Selected(s))
  {
    if addr < GLOBAL_REGS then s.(globals := s.globals[addr := val])
    else
      var slot := s.globals[SELECT];
      var was := s.slots[slot];
      var r := s.(slots := s.slots[slot := if addr == PAGE_REG then (val, was.1) else (was.0, val)]);
      r.(table := Mapped(r.table, SlotCall(r, slot)))
  }

  /** `small_mmu_read` */
  function Read(s: State, addr: nat): u8
    requires addr < 8 && (addr >= GLOBAL_REGS ==> Selected(s))
  {
    if addr < GLOBAL_REGS then s.globals[addr]
    else if addr == PAGE_REG then s.slots[s.globals[SELECT]].0
    else s.slots[s.globals[SELECT]].1
  }

  function Promised(s: State, u: nat): Entry
    requires u < UNITS
  {
    var slot := s.slots[u / SLOT_UNITS];
    Entry(s.devid, slot.0 * PAGE_SIZE + UNIT * (u % SLOT_UNITS), slot.1 % 4)
  }

  ghost predicate Agrees(s: State, slot: nat)
    requires slot < SLOTS
  {
    forall u :: SLOT_UNITS * slot <= u < SLOT_UNITS * slot + SLOT_UNITS && !IsFixed(s.table[u].flags) ==>
      s.table[u] == Promised(s, u)
  }

  lemma SlotCallCovers(s: State, slot: nat, u: nat)
    requires slot < SLOTS && u < UNITS
    ensures InRange(SlotCall(s, slot))
    ensures Covers(SlotCall(s, slot), u) <==> u / SLOT_UNITS == slot
    ensures u / SLOT_UNITS == slot ==> EntryFor(SlotCall(s, slot), u) == Promised(s, u)
  {
    UnitsOfPages(slot);
    UnitsOfPages(s.slots[slot].0);
    UnitsOfPages(1);
  }

  lemma UnitsOfPages(n: nat)
    ensures UnitsFor(n * PAGE_SIZE) == n * SLOT_UNITS
  {
  }

  /** A register write makes the selected slot agree if it maps, and disturbs no other slot. */
  lemma WriteAgrees(s: State, addr: nat, val: u8)
    requires addr < 8 && (addr >= GLOBAL_REGS ==> Selected(s))
    ensures addr >= GLOBAL_REGS ==> Agrees(Written(s, addr, val), s.globals[SELECT])
    ensures forall slot | 0 <= slot < SLOTS && Agrees(s, slot) :: Agrees(Written(s, addr, val), slot)
  {
    if addr >= GLOBAL_REGS {
      var slot := s.globals[SELECT];
      var w := Written(s, addr, val);
      forall u | 0 <= u < UNITS
        ensures w.table[u] ==
          if u / SLOT_UNITS == slot && !IsFixed(s.table[u].flags) then Promised(w, u) else s.table[u]
        ensures u / SLOT_UNITS != slot ==> Promised(w, u) == Promised(s, u)
      {
        SlotCallCovers(w, slot, u);
      }
      hide Written, Promised;
    }
  }

  /** What was written is what is read back, while the same slot is selected. */
  lemma WriteReadBack(s: State, addr: nat, val: u8)
    requires addr < 8 && Selected(s) && (addr == SELECT ==> val < SLOTS)
    ensures Read(Written(s, addr, val), addr) == val
    ensures forall a | 0 < a < 8 && a != addr && addr != SELECT :: Read(Written(s, addr, val), a) == Read(s, a)
  {
  }

  class SmallMmuDevice {
    const globals: array<u8>
    const pages: array<u8>
    const flags: array<u8>
    const devid: nat
    const bus: BusMap

    ghost predicate Valid()
    {
      globals.Length == 8 && pages.Length == SLOTS && flags.Length == SLOTS && bus.Valid()
      && globals != pages && globals != flags && pages != flags
    }

    ghost function Model(): State
      requires Valid()
      reads globals, pages, flags, bus.maps
    {
      State(globals[..], seq(SLOTS, i requires 0 <= i < SLOTS reads pages, flags => (pages[i], flags[i])), devid,
        bus.maps[..])
    }

    constructor (dev: nat, target: BusMap)
      requires target.Valid()
      ensures Valid() && bus == target && devid == dev && fresh(globals) && fresh(pages) && fresh(flags)
    {
      globals := new u8[8](_ => 0);
      pages := new u8[SLOTS](_ => 0);
      flags := new u8[SLOTS](_ => 0);
      devid, bus := dev, target;
    }

    method Write(addr: nat, val: u8)
      requires Valid() && addr < 8 && (addr >= GLOBAL_REGS ==> Selected(Model()))
      modifies globals, pages, flags, bus.maps
      ensures Model() == Written(old(Model()), addr, val)
    {
      if addr < GLOBAL_REGS {
        globals[addr] := val;
        assert globals[..] == old(globals[..])[addr := val];
      } else {
        var slot := globals[SELECT];
        if addr == PAGE_REG { pages[slot] := val; } else { flags[slot] := val; }
        ghost var r := Model();
        SlotCallCovers(r, slot, 0);
        bus.Map(slot * PAGE_SIZE, devid, pages[slot] * PAGE_SIZE, PAGE_SIZE, flags[slot] % 4);
      }
      assert Model().slots == Written(old(Model()), addr, val).slots;
    }

    /** `small_mmu_reset` leaves every slot in agreement, each mapping its own page read-write. */
    method Reset()
      requires Valid()
      modifies globals, pages, flags, bus.maps
      ensures forall slot | 0 <= slot < SLOTS :: Agrees(Model(), slot) && Model().slots[slot] == (slot, MAP_READWRITE)
    {
      var page: nat := 0;
      while page < SLOTS
        invariant page <= SLOTS
        invariant forall slot | 0 <= slot < page ::
          Agrees(Model(), slot) && Model().slots[slot] == (slot, MAP_READWRITE)
      {
        hide Agrees, Mapped;
        WriteAgrees(Model(), SELECT, page);
        Write(SELECT, page);
        WriteAgrees(Model(), PAGE_REG, page);
        Write(PAGE_REG, page);
        WriteAgrees(Model(), FLAGS_REG, MAP_READWRITE);
        Write(FLAGS_REG, MAP_READWRITE);
        page := page + 1;
      }
    }
  }

  datatype RegWrite = RegWrite(addr: nat, val: u8)

  function WrittenAll(s: State, writes: seq<RegWrite>): State
    requires Selected(s)
    requires forall i | 0 <= i < |writes| ::
      writes[i].addr < 8 && (writes[i].addr == SELECT ==> writes[i].val < SLOTS)
    ensures Selected(WrittenAll(s, writes))
  {
    if writes == [] then s
    else
      var w := writes[|writes| - 1];
      Written(WrittenAll(s, writes[..|writes| - 1]), w.addr, w.val)
  }

  /** A slot that agrees, as all do after reset, agrees after every run of register writes. */
  lemma {:induction false} RunsAgree(s: State, writes: seq<RegWrite>, slot: nat)
    requires Selected(s)
    requires forall i | 0 <= i < |writes| ::
      writes[i].addr < 8 && (writes[i].addr == SELECT ==> writes[i].val < SLOTS)
    requires slot < SLOTS && Agrees(s, slot)
    ensures Agrees(WrittenAll(s, writes), slot)
  {
    hide Written, Agrees;
    if writes != [] {
      var n := |writes| - 1;
      RunsAgree(s, writes[..n], slot);
      WriteAgrees(WrittenAll(s, writes[..n]), writes[n].addr, writes[n].val);
    }
  }
}
