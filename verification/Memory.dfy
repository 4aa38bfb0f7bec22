/** CPU reads and writes through the bus map to RAM and ROM buffers. */
module MemoryAccess {
  import opened Options
  import opened Words
  import opened Bits
  import opened Bus

  /** The bus table and the buffer of each device, indexed by device id. */
  datatype Mem = Mem(table: Table, bufs: seq<seq<u8>>)

  /** A fault ends the run; so does, in this model, an access past the end of a device's buffer. */
  datatype Access<T> = Done(value: T) | Fault

  function EntryAt(m: Mem, addr: u16): Entry { m.table[UnitOf(addr)] }

  predicate Readable(flags: u8) { flags % 2 == 1 }

  predicate Writable(flags: u8) { flags / 2 % 2 == 1 }

  /** A device answers at the address. */
  predicate Backed(m: Mem, addr: u16) {
    var e := EntryAt(m, addr);
    e.devid != INVALID_DEVID && e.devid < |m.bufs| && Physical(m.table, addr) < |m.bufs[e.devid]|
  }

  /** Devices are no larger than the space an absolute address reserves for one. */
  ghost predicate Sized(m: Mem) { forall i | 0 <= i < |m.bufs| :: |m.bufs[i]| <= DEVICE_SPACE }

  function Read8(m: Mem, addr: u16): Access<u8> {
    if Backed(m, addr) && Readable(EntryAt(m, addr).flags) then
      Done(m.bufs[EntryAt(m, addr).devid][Physical(m.table, addr)])
    else Fault
  }

  function Stored(bufs: seq<seq<u8>>, dev: nat, phys: nat, v: u8): seq<seq<u8>>
    requires dev < |bufs| && phys < |bufs[dev]|
  {
    var buf: seq<u8> := bufs[dev][phys := v];
    bufs[dev := buf]
  }

  function Write8(m: Mem, addr: u16, v: u8): Access<Mem> {
    if Backed(m, addr) && Writable(EntryAt(m, addr).flags) then
      Done(m.(bufs := Stored(m.bufs, EntryAt(m, addr).devid, Physical(m.table, addr), v)))
    else Fault
  }

  /** `cpu_read16`: both bytes from the device found for the first. */
  function Read16(m: Mem, addr: u16): Access<u16> {
    var e := EntryAt(m, addr);
    var phys := Physical(m.table, addr);
    if Backed(m, addr) && Readable(e.flags) && phys + 1 < |m.bufs[e.devid]| then
      Done(Join(m.bufs[e.devid][phys], m.bufs[e.devid][phys + 1]))
    else Fault
  }

  /** `RDMEM16`: two byte reads at consecutive addresses modulo 64K. */
  function ReadTwice(m: Mem, addr: u16): Access<u16> {
    match (Read8(m, addr), Read8(m, Wrap16(addr + 1)))
    case (Done(hi), Done(lo)) => Done(Join(hi, lo))
    case _ => Fault
  }

  class MemoryBus {
    const bus: BusMap
    const bufs: seq<array<u8>>

    ghost predicate Valid()
    {
      bus.Valid() && forall i, j | 0 <= i < j < |bufs| :: bufs[i] != bufs[j]
    }

    ghost function Model(): Mem
      requires Valid()
      reads bus.maps, bufs
    {
      Mem(bus.maps[..], seq(|bufs|, i requires 0 <= i < |bufs| reads bufs => bufs[i][..]))
    }

    constructor (target: BusMap, devices: seq<array<u8>>)
      requires target.Valid() && forall i, j | 0 <= i < j < |devices| :: devices[i] != devices[j]
      ensures Valid() && bus == target && bufs == devices
    {
      bus, bufs := target, devices;
    }

    method CpuRead8(addr: u16) returns (r: Access<u8>)
      requires Valid()
      ensures r == Read8(Model(), addr)
    {
      var e := bus.maps[addr / UNIT];
      var phys := e.offset + addr % UNIT;
      if e.devid == INVALID_DEVID || e.devid >= |bufs| || !Readable(e.flags) || phys >= bufs[e.devid].Length {
        return Fault;
      }
      r := Done(bufs[e.devid][phys]);
    }

    method CpuRead16(addr: u16) returns (r: Access<u16>)
      requires Valid()
      ensures r == Read16(Model(), addr)
    {
      var e := bus.maps[addr / UNIT];
      var phys := e.offset + addr % UNIT;
      if e.devid == INVALID_DEVID || e.devid >= |bufs| || !Readable(e.flags) || phys + 1 >= bufs[e.devid].Length {
        return Fault;
      }
      r := Done(Join(bufs[e.devid][phys], bufs[e.devid][phys + 1]));
    }

    method CpuWrite8(addr: u16, v: u8) returns (ok: bool)
      requires Valid()
      modifies bufs
      ensures
        match Write8(old(Model()), addr, v)
        case Done(m) => ok && Model() == m
        case Fault => !ok && Model() == old(Model())
    {
      var e := bus.maps[addr / UNIT];
      var phys := e.offset + addr % UNIT;
      if e.devid == INVALID_DEVID || e.devid >= |bufs| || !Writable(e.flags) || phys >= bufs[e.devid].Length {
        assert Model().bufs == old(Model()).bufs;
        return false;
      }
      ghost var before := Model();
      bufs[e.devid][phys] := v;
      forall i | 0 <= i < |bufs|
        ensures Model().bufs[i] == Stored(before.bufs, e.devid, phys, v)[i]
      {
      }
      assert Model().bufs == Stored(before.bufs, e.devid, phys, v);
      ok := true;
    }
  }

  // ---------------------------------------------------------------- coherence

  /** Two backed addresses share a byte exactly when their absolute addresses are equal. */
  lemma SameAbsolute(m: Mem, a: u16, b: u16)
    requires Sized(m) && Backed(m, a) && Backed(m, b)
    ensures ToAbsolute(m.table, a) == ToAbsolute(m.table, b) <==>
      EntryAt(m, a).devid == EntryAt(m, b).devid && Physical(m.table, a) == Physical(m.table, b)
  {
    var d1, d2 := EntryAt(m, a).devid, EntryAt(m, b).devid;
    assert |m.bufs[d1]| <= DEVICE_SPACE && |m.bufs[d2]| <= DEVICE_SPACE;
    assert d1 < d2 ==> (d1 + 1) * DEVICE_SPACE <= d2 * DEVICE_SPACE;
    assert d2 < d1 ==> (d2 + 1) * DEVICE_SPACE <= d1 * DEVICE_SPACE;
  }

  /**
   * After a write every address that maps to the same absolute address reads the
   * new byte, through whatever window, and every other address reads as before.
   */
  lemma WritesAreCoherent(m: Mem, a: u16, v: u8, b: u16)
    requires Sized(m) && Write8(m, a, v).Done?
    ensures
      var after := Read8(Write8(m, a, v).value, b);
      if Read8(m, b).Done? && ToAbsolute(m.table, b) == ToAbsolute(m.table, a) then after == Done(v)
      else after == Read8(m, b)
  {
    if Read8(m, b).Done? { SameAbsolute(m, a, b); }
    hide ToAbsolute;
  }

  /** Writes never move the map. */
  lemma WritesKeepMap(m: Mem, a: u16, v: u8, b: u16)
    requires Write8(m, a, v).Done?
    ensures Write8(m, a, v).value.table == m.table
    ensures ToAbsolute(Write8(m, a, v).value.table, b) == ToAbsolute(m.table, b)
    ensures Sized(m) ==> Sized(Write8(m, a, v).value)
  {
    var r := Write8(m, a, v).value;
    assert forall i | 0 <= i < |m.bufs| :: |r.bufs[i]| == |m.bufs[i]|;
  }

  datatype Write = Write(addr: u16, val: u8)

  /** A run of writes that reach writable memory. */
  function WriteAll(m: Mem, ws: seq<Write>): Access<Mem> {
    if ws == [] then Done(m)
    else match WriteAll(m, ws[..|ws| - 1])
      case Done(r) => Write8(r, ws[|ws| - 1].addr, ws[|ws| - 1].val)
      case Fault => Fault
  }

  /** What the latest write to the same absolute address left, if there was one. */
  function LatestAt(t: Table, ws: seq<Write>, b: u16): Option<u8> {
    if ws == [] then None
    else if ToAbsolute(t, ws[|ws| - 1].addr) == ToAbsolute(t, b) then Some(ws[|ws| - 1].val)
    else LatestAt(t, ws[..|ws| - 1], b)
  }

  /**
   * After any run of writes an address reads the latest byte written to its absolute address,
   * else what it read before.
   */
  lemma {:induction false} RunsAreCoherent(m: Mem, ws: seq<Write>, b: u16)
    requires Sized(m) && WriteAll(m, ws).Done?
    ensures WriteAll(m, ws).value.table == m.table && Sized(WriteAll(m, ws).value)
    ensures
      var after := Read8(WriteAll(m, ws).value, b);
      match LatestAt(m.table, ws, b)
      case Some(v) => after == if Read8(m, b).Done? then Done(v) else Fault
      case None => after == Read8(m, b)
  {
    hide Read8, Write8, ToAbsolute, Sized;
    if ws != [] {
      var last := ws[|ws| - 1];
      RunsAreCoherent(m, ws[..|ws| - 1], b);
      var r := WriteAll(m, ws[..|ws| - 1]).value;
      WritesAreCoherent(r, last.addr, last.val, b);
      WritesKeepMap(r, last.addr, last.val, b);
    }
  }

  /** The byte at the next CPU address lies behind the first on the same device. */
  predicate Adjacent(t: Table, a: u16) {
    var next := Wrap16(a + 1);
    t[UnitOf(next)].devid == t[UnitOf(a)].devid && Physical(t, next) == Physical(t, a) + 1
  }

  /**
   * Where the two bytes lie next to each other, the 16-bit read equals two byte reads
   * exactly unless only the first unit may be read: its flags alone are tested.
   */
  lemma WordReadsAgree(m: Mem, a: u16)
    requires Adjacent(m.table, a)
    ensures Read16(m, a) == ReadTwice(m, a) <==>
      (Read16(m, a).Done? ==> Readable(EntryAt(m, Wrap16(a + 1)).flags))
  {
  }

  /** The two bytes of a word inside one unit are adjacent. */
  lemma InsideUnit(m: Mem, a: u16)
    requires a % UNIT != UNIT - 1
    ensures Adjacent(m.table, a)
    ensures ToAbsolute(m.table, Wrap16(a + 1)) == ToAbsolute(m.table, a) + 1
    ensures EntryAt(m, Wrap16(a + 1)) == EntryAt(m, a)
  {
    NextInUnit(a);
  }

  lemma NextInUnit(a: u16)
    requires a % UNIT != UNIT - 1
    ensures UnitOf(Wrap16(a + 1)) == UnitOf(a) && Wrap16(a + 1) % UNIT == a % UNIT + 1
  {
    QuotientIs(a + 1, UNIT, a / UNIT, a % UNIT + 1);
  }

  /** Across units they are adjacent exactly when the next unit continues the same device. */
  lemma AcrossUnits(m: Mem, a: u16)
    requires a % UNIT == UNIT - 1
    ensures
      var e, next := EntryAt(m, a), EntryAt(m, Wrap16(a + 1));
      Adjacent(m.table, a) <==> next.devid == e.devid && next.offset == e.offset + UNIT
    ensures Adjacent(m.table, a) ==> ToAbsolute(m.table, Wrap16(a + 1)) == ToAbsolute(m.table, a) + 1
  {
    assert Wrap16(a + 1) % UNIT == 0;
  }

  /** The same map and the same device sizes, whatever the bytes. */
  ghost predicate SameShape(k: Mem, m: Mem) {
    && k.table == m.table && |k.bufs| == |m.bufs|
    && forall i | 0 <= i < |m.bufs| :: |k.bufs[i]| == |m.bufs[i]|
  }

  /** A byte read at the address is answered. */
  predicate ByteAnswered(m: Mem, a: u16) { Backed(m, a) && Readable(EntryAt(m, a).flags) }

  /** A word read is: the second byte must lie on the device, but its own unit is not consulted. */
  predicate WordAnswered(m: Mem, a: u16) {
    ByteAnswered(m, a) && Physical(m.table, a) + 1 < |m.bufs[EntryAt(m, a).devid]|
  }

  /**
   * On a given map the two reads agree whatever the devices hold exactly when both are
   * answered or neither is and, if they are, the two bytes are adjacent.
   */
  lemma PartedUnitsDiffer(m: Mem, a: u16)
    ensures
      var next := Wrap16(a + 1);
      (forall k: Mem | SameShape(k, m) :: Read16(k, a) == ReadTwice(k, a)) <==>
        && (WordAnswered(m, a) <==> ByteAnswered(m, a) && ByteAnswered(m, next))
        && (WordAnswered(m, a) ==> Adjacent(m.table, a))
  {
    var next := Wrap16(a + 1);
    if WordAnswered(m, a) && ByteAnswered(m, next) && !Adjacent(m.table, a) {
      var k := Parted(m, a);
      assert SameShape(k, m);
      PartedReads(m, a);
    } else if WordAnswered(m, a) != (ByteAnswered(m, a) && ByteAnswered(m, next)) {
      assert SameShape(m, m);
    }
  }

  /** The map with 0 behind the first byte on its device and 1 at the next CPU address. */
  function Parted(m: Mem, a: u16): Mem
    requires WordAnswered(m, a) && ByteAnswered(m, Wrap16(a + 1))
  {
    var next := Wrap16(a + 1);
    var low := Stored(m.bufs, EntryAt(m, a).devid, Physical(m.table, a) + 1, 0);
    m.(bufs := Stored(low, EntryAt(m, next).devid, Physical(m.table, next), 1))
  }

  lemma PartedReads(m: Mem, a: u16)
    requires WordAnswered(m, a) && ByteAnswered(m, Wrap16(a + 1)) && !Adjacent(m.table, a)
    ensures Read16(Parted(m, a), a) != ReadTwice(Parted(m, a), a)
  {
    var k, next := Parted(m, a), Wrap16(a + 1);
    hide Physical, UnitOf, Wrap16;
    var e, f := EntryAt(m, a), EntryAt(m, next);
    assert k.bufs[e.devid][Physical(m.table, a) + 1] == 0;
    assert k.bufs[f.devid][Physical(m.table, next)] == 1;
  }

  /** Two devices in neighbouring units. */
  function TwoDevices(): Mem {
    Mem(seq(UNITS, u => if u == 1 then Entry(1, 0, MAP_READWRITE) else Entry(0, 0, MAP_READWRITE)),
        [seq(2 * UNIT, _ => 0), [1]])
  }

  /** The two reads of the word that begins with the last byte of the first one differ. */
  lemma PartedExample()
    ensures Read16(TwoDevices(), UNIT - 1) == Done(0)
    ensures ReadTwice(TwoDevices(), UNIT - 1) == Done(1)
  {
    var m := TwoDevices();
    assert EntryAt(m, UNIT - 1) == Entry(0, 0, MAP_READWRITE) && EntryAt(m, UNIT) == Entry(1, 0, MAP_READWRITE);
    assert Read8(m, UNIT - 1) == Done(0);
    assert Read8(m, UNIT) == Done(1);
  }
}
