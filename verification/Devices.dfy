/** The multiplexer and timer devices, updated in place and driving the CPU's interrupt lines. */
module Devices {
  import opened Words
  import opened Reference
  import opened Multiplexer
  import opened Timers
  import opened Simulator

  class Imux {
    var enabled: set<nat>
    var pending: set<nat>
    const src: nat
    const cpu: Cpu

    function Model(): Mux
      reads this
    {
      Mux(enabled, pending, src)
    }

    /** Creation resets the device; nothing is pending, so it agrees with any CPU whose line is down. */
    constructor (line: nat, target: Cpu)
      ensures src == line && cpu == target && Model() == Mux({}, {}, line)
    {
      enabled, pending := {}, {};
      src, cpu := line, target;
    }

    /** `imux_refresh` */
    method Refresh()
      requires cpu.Valid()
      modifies cpu, cpu.ram
      ensures cpu.Valid()
      ensures Joint(Model(), cpu.View()) == Refreshed(old(Model()), old(cpu.View()))
    {
      hide RequestIrq, RequestFirq, ReleaseIrq, ReleaseFirq;
      if pending * enabled != {} {
        if src == 1 { cpu.RequestIrqLine(src); } else { cpu.RequestFirqLine(src); }
      } else {
        if src == 1 { cpu.ReleaseIrqLine(src); } else { cpu.ReleaseFirqLine(src); }
      }
    }

    /** `imux_write`; the value is the set of bits written as one. */
    method Write(addr: nat, val: set<nat>)
      requires cpu.Valid()
      modifies this, cpu, cpu.ram
      ensures cpu.Valid()
      ensures Joint(Model(), cpu.View()) == WriteReg(old(Model()), old(cpu.View()), addr, val)
    {
      hide Refreshed;
      if addr == ENABLE_REG {
        enabled := val;
      } else if addr == PENDING_REG {
        pending := pending - val;
      }
      Refresh();
    }

    /** `imux_assert` */
    method Assert(sig: nat)
      requires cpu.Valid()
      modifies this, cpu, cpu.ram
      ensures cpu.Valid()
      ensures Joint(Model(), cpu.View()) == Signal(old(Model()), old(cpu.View()), sig)
    {
      hide Refreshed;
      pending := pending + {sig};
      Refresh();
    }
  }

  const COUNT_REG := 0
  const RELOAD_REG := 1
  const FLAGS_REG := 2
  const HWTF_INT := 0x80

  class HwTimer {
    var count: int
    var reload: nat
    var resolution: nat
    var interrupting: bool  // the HWTF_INT bit of the flags
    var prevCycles: nat
    const mux: Imux?
    const line: nat

    function Model(): Timer
      reads this
    {
      Timer(count, reload, mux != null && interrupting)
    }

    /** `hwtimer_create` and the reset that attaching does: stopped, without a reload. */
    constructor Plain(target: Imux?, signal: nat, now: nat)
      ensures mux == target && line == signal && prevCycles == now && resolution == 128
      ensures Model() == Timer(0, 0, false)
    {
      count, reload, resolution, prevCycles, interrupting := 0, 0, 128, now, false;
      mux, line := target, signal;
    }

    /** `oscillator_create` and its reset: full, and armed if there is a multiplexer to signal. */
    constructor Oscillator(target: Imux?, signal: nat, now: nat)
      ensures mux == target && line == signal && prevCycles == now && resolution == 128
      ensures Model() == Timer(OSCILLATOR_RELOAD, OSCILLATOR_RELOAD, target != null)
    {
      count, reload, resolution, prevCycles := OSCILLATOR_RELOAD, OSCILLATOR_RELOAD, 128, now;
      interrupting := target != null;
      mux, line := target, signal;
    }

    /** `hwtimer_write` */
    method Write(addr: nat, val: u8)
      modifies this
      ensures Model() == Timer(if addr == COUNT_REG then val * resolution else old(count),
                               if addr == RELOAD_REG then val * resolution else old(reload),
                               if addr == FLAGS_REG then mux != null && val >= HWTF_INT else old(Model()).armed)
      ensures resolution == old(resolution) && prevCycles == old(prevCycles)
    {
      if addr == COUNT_REG { count := val * resolution; }
      else if addr == RELOAD_REG { reload := val * resolution; }
      else if addr == FLAGS_REG { interrupting := val >= HWTF_INT; }
    }

    /** `hwtimer_decrement`; a true result is the call of `sim_error`. */
    method Decrement(cycles: nat) returns (failed: bool)
      requires mux != null ==> mux.cpu.Valid()
      modifies this, if mux != null then {mux, mux.cpu, mux.cpu.ram} else {}
      ensures mux != null ==> mux.cpu.Valid()
      ensures
        var k := Timers.Decrement(old(Model()), cycles);
        && Model() == k.t && failed == k.failed
        && (mux != null ==>
              Joint(mux.Model(), mux.cpu.View())
                == if k.asserted then Signal(old(mux.Model()), old(mux.cpu.View()), line)
                   else Joint(old(mux.Model()), old(mux.cpu.View())))
      ensures prevCycles == old(prevCycles)
    {
      hide Signal;
      failed := false;
      if count == 0 && reload == 0 { return; }
      count := count - cycles;
      if count <= 0 {
        if mux != null && interrupting { mux.Assert(line); }
        if count < 0 {
          if reload > 0 {
            count := count + reload;
            if count < 0 { failed := true; }
          } else {
            count := 0;
          }
        }
      }
    }

    /** `hwtimer_update`, given the current cycle count. */
    method Update(cycles: nat) returns (failed: bool)
      requires cycles >= prevCycles
      requires mux != null ==> mux.cpu.Valid()
      modifies this, if mux != null then {mux, mux.cpu, mux.cpu.ram} else {}
      ensures mux != null ==> mux.cpu.Valid()
      ensures
        var k := Timers.Decrement(old(Model()), cycles - old(prevCycles));
        && Model() == k.t && failed == k.failed
        && (mux != null ==>
              Joint(mux.Model(), mux.cpu.View())
                == if k.asserted then Signal(old(mux.Model()), old(mux.cpu.View()), line)
                   else Joint(old(mux.Model()), old(mux.cpu.View())))
      ensures prevCycles == cycles
    {
      hide Signal, Timers.Decrement;
      failed := Decrement(cycles - prevCycles);
      prevCycles := cycles;
    }
  }
}
