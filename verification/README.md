# A verified model of the Portable 6809 Simulator

The simulator runs Motorola 6809 programs on a CPU written as a set of global
registers, connects it to devices through a table of map units, and offers a
debugger. This project models its four connected parts and proves what each of
them promises, over every input or every run.

**The CPU.** The simulator keeps no condition code register. It keeps H, N, Z, V
and C in five words with odd encodings (zero is *set* when its word is 0, the
carry may sit in bit 0, 7, 8 or 16, overflow is bit 7 of an XOR), and E, F and I
in a sixth. `Reference.dfy` defines a 6809 on plain values with eight flags given
by their arithmetic meaning. `Cpu.dfy` is the simulator's CPU, a class changed
in place; every method is proved against the reference through `View`, which
rebuilds the flags from the words, up to the fetch/execute loop with its cycle
budget (`Simulator.Cpu.StepOnce`, `Simulator.Cpu.Execute`). Two CPUs with equal
registers, memory, pending words and `get_cc` have equal views, whatever their
words, so every run keeps them equal. `FlagFacts.dfy` holds the bitwise facts. What is then proved about all
instruction sequences is proved on the reference step: cycle counts
(`Cycles.dfy`), nesting of stack frames (`Frames.dfy`), numbers of any length
and decimal numbers (`Arithmetic.dfy`, as programs in `ChainPrograms.dfy`), and
the lengths the disassembler reports (`Disassembler.dfy`).

**Interrupts and time.** `Interrupts.dfy` states the boundary invariant over all
runs; `Multiplexer.dfy` composes the interrupt multiplexer with the CPU's
pending word; `Timers.dfy` gives the reloading timer a closed form and bounds the
main loop against it, for every program; `LostSignals.dfy` is a machine that
loses a signal; `Devices.dfy` holds the two devices as classes that drive a CPU.

**The bus.** `Bus.dfy` models the table of 512 units, the EON's MMU and the small
MMU; `Memory.dfy` models reads and writes through the table.

**The debugger's tables.** `Symbols.dfy` relates the doubly indexed chains to a
list and keeps interned names intact; `Breakpoints.dfy` models the breakpoint
table, its fast-path counter and the instruction hook; `Expressions.dfy` parses
and evaluates expression texts, in place, as the debugger does, and
`ExpressionFacts.dfy` says what that means for a user.

`Words.dfy` holds machine words and bitwise operators with their bit-by-bit facts.

## Where the code does not do what its text says

The model follows the code. Each of these is proved, with a concrete case and the
exact condition under which the code does keep the promise.

- DAA adds 0x60 twice when both nibbles of the sum byte exceed 9 (6809.c:894-897): `Arithmetic.DaaExactly`, `Arithmetic.DecimalChainAdds`, `Arithmetic.DaaExample`.
- A handler that touches no multiplexer register loses the signals it leaves asserted, because entry clears the whole pending word (6809.c:1526): `Multiplexer.ReentersExactly`, `Multiplexer.SilentHandlerReturns`, `LostSignals.LostExample`.
- The oscillator's error branch is unreachable with 1024-cycle slices, but at 2 MHz a slice equals the reload (main.c:424), and a program that branches to itself fails it: `Timers.FailsAtPeriodExactly`, `Timers.TwoMegahertzFails`.
- `cpu_read16` reads the second byte from the device of the first and tests the flags of the first unit alone: `MemoryAccess.PartedUnitsDiffer`, `MemoryAccess.PartedExample`.
- An assigned symbol stays filed under its first value (symtab.c:193): `Symbols.LookupExactly`, `Symbols.StaleExample`.
- Freeing a breakpoint leaves its address behind, and a freed slot before a live one at the same address hides it until the slot is used for another address; `next` can do that to a user's breakpoint (command.c:1416-1417): `Breakpoints.FreeingKeepsExactly`, `Breakpoints.TemporaryHides`, `Breakpoints.ReuseUncovers`.
- Allocating a breakpoint slot does not clear its execute flag, so a watchpoint in a used slot also stops execution (command.c:413-421): `Breakpoints.ExecutesExactly`, `Breakpoints.WatchStopsExecution`.
- `eval` cuts the text it is given, and a breakpoint's condition is evaluated where it is stored (command.c:1374), so it means something else the second time: `ExpressionFacts.IntactExactly`, `ExpressionFacts.ComparisonDecays`, `ExpressionFacts.ConditionDecays`.
- Chains of `-` group to the right: `5-3-1` is 3: `ExpressionFacts.DifferencesExactly`, `ExpressionFacts.ThreeNumbers`.

## Model

| member | source | states |
|---|---|---|
| `Simulator.Cpu.StepOnce` | 6809.c:1772-3137 | one turn of the fetch/execute loop leaves, through `View`, exactly the state the reference machine steps to, for every opcode on all three pages; an invalid opcode or postbyte is the simulator error; register widths, DP as a whole page and EFI within E, F and I hold after every instruction (`Valid`) |
| `Simulator.Cpu.Execute` | 6809.c:1766-3143 | refines the slice on values, terminates, and for n >= 1 returns a number of cycles in [n, n+19]; the counter ends equal to the period |
| `Simulator.Cpu.Dispatch` | 6809.c:1785-3132 | each operation has the effect of the reference operation of its family, and fails exactly on an invalid indexed postbyte |
| `Simulator.Cpu.DecodeOp` | 6809.c:1783-1785 | the opcode byte, with its page prefix, selects the operation of the reference tables and PC moves past it |
| `Simulator.Cpu.IndexedAddr` | 6809.c:254-402 | every indexed form, indirect ones included, gives the reference address, the reference register update and the reference cycles, and stays below 65536 |
| `Simulator.Cpu.DirectAddress` | 6809.c:246-252 | the OR of the page and the operand byte is the 16-bit address page*256+byte, below 65536 |
| `Simulator.Cpu.Add8` | 6809.c:796-806 | the five flag words left by ADD stand for the carry, signed overflow, half carry, sign and zero of the sum |
| `Simulator.Cpu.AddCarry8` | 6809.c:784-794 | the same for ADC with the carry coming in from the lazy word |
| `Simulator.Cpu.Sub8` | 6809.c:1069-1079 | the words left by SUB and CMP stand for borrow, signed overflow, sign and zero of the difference |
| `Simulator.Cpu.SubCarry8` | 6809.c:1046-1056 | the same for SBC |
| `Simulator.Cpu.DecimalAdjustA` | 6809.c:885-904 | DAA on the words has the arithmetic effect with its second 0x60, and keeps the carry |
| `Simulator.Cpu.GetCc` | 6809.c:624-641 | the byte assembled from the five words and EFI is the condition code byte of the reference flags |
| `Simulator.Cpu.SetCcFrom` | 6809.c:643-653 | after storing a byte the words stand for the flags of exactly that byte, and a check is scheduled |
| `Simulator.Cpu.TransferRegs` | 6809.c:1091-1106 | TFR, with 0xff when the widths differ |
| `Simulator.Cpu.ExchangeRegs` | 6809.c:929-946 | EXG writes the second register first, with 0xff both ways when the widths differ |
| `Simulator.Cpu.PushRegs` | 6809.c:1212-1324 | PSHS/PSHU store the masked registers in the documented order, pointer modulo 64K, one cycle a byte |
| `Simulator.Cpu.PullRegs` | 6809.c:1326-1442 | PULS/PULU load them in the opposite order |
| `Simulator.Cpu.TakeIrq` | 6809.c:1501-1528 | entry saves the entire state with E set, masks I, clears the whole pending word and costs no cycles |
| `Simulator.Cpu.TakeFirq` | 6809.c:1531-1545 | entry saves CC and PC with E clear, masks F and I, clears its whole pending word and costs no cycles |
| `Simulator.Cpu.SoftwareInterrupt` | 6809.c:1548-1622 | SWI, SWI2 and SWI3 save the entire state with E set; only SWI masks |
| `Simulator.Cpu.ReturnInterrupt` | 6809.c:1461-1489 | RTI pulls CC and then, by its E flag, the entire state or PC alone |
| `Simulator.Cpu.CheckInterrupts` | 6809.c:656-665 | the end-of-instruction check takes an unmasked FIRQ first, else an unmasked IRQ, and clears the schedule |
| `Simulator.Cpu.RequestIrqLine` | 6809.c:63-72 | a request is taken at once when unmasked and is pending otherwise |
| `Simulator.Cpu.RequestFirqLine` | 6809.c:80-89 | the same for FIRQ |
| `Simulator.Cpu.ReleaseIrqLine` | 6809.c:74-77 | a release clears one source |
| `Simulator.Cpu.ReleaseFirqLine` | 6809.c:91-94 | the same for FIRQ |
| `Simulator.Cpu.Branch` | 6809.c:1699-1715 | a condition decided on the flag words branches as it does on the reference flags |
| `Simulator.Cpu.BranchLong` | 6809.c:1717-1737 | the same for long branches, one cycle more when taken |
| `Simulator.Cpu.Reset` | 6809.c:3145-3159 | reset clears the registers, masks both interrupts, clears every other flag and loads PC from the vector |
| `Simulator.EqualBytesEqualViews` | 6809.c:624-653 | two CPUs with equal registers and equal `get_cc` have equal views whatever their flag words hold, so every instruction keeps them equal |
| `FlagFacts.PackUnpack` | 6809.c:624-653 | `get_cc` after `set_cc` gives back every byte |
| `FlagFacts.UnpackPack` | 6809.c:624-653 | `set_cc` after `get_cc` gives back every combination of flags |
| `FlagFacts.CcWord` | 6809.c:624-641 | the OR of the flag bits taken from the odd words is the condition code byte |
| `FlagFacts.CcWords` | 6809.c:643-653 | the words `set_cc` stores stand for the flags of its argument |
| `FlagFacts.AddWords` | 6809.c:784-806 | carry from `res >> 1`, overflow and half carry from one XOR word, against their arithmetic meaning |
| `FlagFacts.SubWords` | 6809.c:1046-1079 | overflow of a difference from the AND of two XOR words, borrow from bit 8 of the wrapped result |
| `FlagFacts.AddWords16` | 6809.c:1115-1125 | the same for ADDD |
| `FlagFacts.SubWords16` | 6809.c:1197-1208 | the same for SUBD and the 16-bit compares |
| `FlagFacts.DoubleWords` | 6809.c:819-829 | the words of ASL and ROL stand for the overflow and carry of doubling |
| `FlagFacts.DaaWords` | 6809.c:885-904 | the ORed carry word of DAA is the old carry or bit 8 of the adjusted sum |
| `FlagFacts.CondMeaning` | 6809.c:1684-1697 | all sixteen condition macros on the words decide the conditions on the flags |
| `FlagFacts.CcOfOr` | 6809.c:1664-1671 | ORCC combines the flags one by one |
| `FlagFacts.CcOfAnd` | 6809.c:1673-1680 | ANDCC combines the flags one by one |
| `Cycles.StepCost` | 6809.c:1785-3135 | every valid instruction with any operand costs between 2 and 20 cycles, interrupt entry included |
| `Cycles.SliceBudget` | 6809.c:1766-3143 | a slice of n >= 1 cycles that runs to its end consumes between n and n+19 |
| `Cycles.CountGrows` | 6809.c:129-133 | across all instruction boundaries of a slice `get_cycles` strictly grows |
| `Cycles.CountsGrowAcrossCalls` | 6809.c:129-133 | it also grows strictly from boundary to boundary across any number of calls, whatever the devices do to the state between them |
| `Cycles.LastBoundary` | 6809.c:3137-3143 | the last of those boundaries is the state in which the slice ends |
| `Frames.FramesRestore` | 6809.c:1212-1383 | at every nesting depth, whatever the properly nested body does outside live frames and however S wraps, the closing step brings back S, the return PC and every register of the frame; CC exactly for PSHS/PULS, with E set after IRQ and SWI*, with E clear after FIRQ |
| `Frames.NestedRunsBalance` | 6809.c:1452-1622 | a properly nested run of any shape gives back S and leaves the bytes of all live frames as they were |
| `Frames.OpenStacks` | 6809.c:1501-1622 | interrupt entry, software interrupts, calls and PSHS put their frame image on top of the untouched stack |
| `Frames.CloseRestores` | 6809.c:1461-1499 | RTI, RTS and PULS restore from an image on top and uncover the rest of the stack |
| `Frames.EntireIsMask` | 6809.c:1505-1520 | the entire state is pushed as PSHS with mask 0xff would push it |
| `Frames.RtiIsLayout` | 6809.c:1461-1489 | the E flag of the stacked CC byte decides which layout RTI pulls |
| `Interrupts.RunsStayScheduled` | 6809.c:63-94 | in every interleaving of requests, releases, instructions and checks, a source both pending and unmasked has its check scheduled, and after the check there is none |
| `Interrupts.CheckQuiets` | 6809.c:656-665 | after the check no IRQ or FIRQ source is both pending and unmasked |
| `Interrupts.FirqFirst` | 6809.c:656-665 | when both are deliverable FIRQ is entered, IRQ stays pending and is masked |
| `Interrupts.BodyKeeps` | 6809.c:1785-3132 | no instruction touches the pending words, and masks are lowered only by a write of CC that schedules the check |
| `Interrupts.IrqMasks` | 6809.c:1501-1528 | entering an IRQ leaves nothing deliverable on its own line |
| `Interrupts.FirqMasks` | 6809.c:1531-1545 | entering a FIRQ masks both lines |
| `Multiplexer.RunsAgree` | imux.c:39-117 | from creation on, in every run of CPU events, register writes and signals, the pending bit of the multiplexer in the CPU implies an enabled pending signal |
| `Multiplexer.RefreshAgrees` | imux.c:39-55 | after a refresh with a signal asserted the bit is set or the interrupt was just entered |
| `Multiplexer.LineFollows` | imux.c:39-117 | in every handler run with its line masked, IRQ or FIRQ, and whatever other devices do: from the first register write or signal on the line bit is up if and only if a signal is asserted, and before it stays as it was |
| `Multiplexer.RtiReenters` | 6809.c:1461-1489 | with the line up, IRQ or FIRQ, RTI to unmasked code enters again before another instruction; before an IRQ a FIRQ that is due, behind which the IRQ waits |
| `Multiplexer.RtiResumes` | 6809.c:1461-1489 | with the line down and nothing else due, RTI resumes the interrupted code |
| `Multiplexer.EntryDropsLine` | 6809.c:1525-1527 | entering the interrupt at a refresh leaves the line down although a signal is asserted |
| `Multiplexer.ReentersExactly` | imux.c:39-117 | a handler entered for the multiplexer, alone and returning to unmasked code, is entered again by its RTI if and only if a register write or signal happened in it and a signal is asserted; otherwise the interrupted code resumes |
| `Multiplexer.HandlerReenters` | imux.c:82-117 | a handler run of any events, on either line, in which a register write or signal happens and that leaves a signal asserted is entered again by its RTI |
| `Multiplexer.MaskedKeepsPending` | 6809.c:656-665 | while the line is masked instructions and checks leave its whole pending word alone |
| `Multiplexer.SilentHandlerReturns` | 6809.c:1525-1527 | entered by a refresh with a signal asserted, a handler that touches no multiplexer register gets no second entry: its RTI resumes the interrupted code, the signal still asserted and the line down |
| `LostSignals.BareHandlerLoses` | 6809.c:1501-1528 | with a handler that is one RTI, every machine and multiplexer loses the signal: all registers are restored, the signal is asserted and the line is down |
| `LostSignals.LostExample` | 6809.c:1525-1527 | one machine and one multiplexer for which this happens |
| `Devices.Imux.Refresh` | imux.c:39-55 | the device and CPU state after a refresh are those of the joint model |
| `Devices.Imux.Write` | imux.c:82-97 | enable is replaced, pending bits written as one are cleared, and the line is refreshed |
| `Devices.Imux.Assert` | imux.c:112-117 | a signal is added and the line refreshed |
| `Timers.ClosedForm` | timer.c:46-84 | with 0 <= count <= reload > 0 and updates of at most one period: count = start - total + reload*ceil((total-start)/reload), it stays in range, the error branch is not reached, and an armed timer asserts once a wrap and once an exact landing on zero |
| `Timers.SplitInvariant` | timer.c:46-92 | how the total was split into updates does not show |
| `Timers.OneShot` | timer.c:46-84 | with reload 0 an armed timer asserts exactly once, when the total first reaches the count |
| `Timers.FailsExactly` | timer.c:66-77 | one update reaches the error branch if and only if it is longer than count and reload together |
| `Timers.TimerNeverFails` | main.c:418-427 | when a slice plus the worst overshoot fits one period, no number of main loop rounds reaches the error branch, for any program |
| `Timers.OscillatorSafe` | timer.c:171-178 | so 1024-cycle slices never fail the 2048-cycle oscillator |
| `Timers.FailsAtPeriodExactly` | main.c:418-427 | with slices as long as the period, for every program and any number of rounds, the main loop reaches the error branch if and only if the overshoots exceed the starting count, or exceed 0 when the first slice takes a full count exactly to zero |
| `Timers.SpinSlice` | 6809.c:1699-1715 | a program that branches to itself spends a slice three cycles at a time |
| `Timers.TwoMegahertzFails` | main.c:424-427 | at 2 MHz, where a slice is the reload of 2048, that program under masked interrupts reaches the error branch if and only if there are more rounds than the count left |
| `Devices.HwTimer.Decrement` | timer.c:46-84 | count, multiplexer and CPU change as the model of one update says; the result tells the error branch |
| `Devices.HwTimer.Update` | timer.c:86-92 | the update uses the cycles since the last one and remembers the new count |
| `Devices.HwTimer.Write` | timer.c:109-124 | count and reload are set in units of the resolution, the flags register arms |
| `Devices.HwTimer.Plain` | timer.c:126-160 | a plain timer starts stopped, with reload 0 |
| `Devices.HwTimer.Oscillator` | timer.c:135-178 | an oscillator starts full with reload 2048, armed if it has a multiplexer |
| `Arithmetic.CompareDecides` | 6809.c:862-870 | after CMP or SUB the ten ordering branches decide unsigned and signed order of the bytes, both ways |
| `Arithmetic.CompareWideDecides` | 6809.c:1128-1137 | the same for the 16-bit compares and SUBD |
| `Arithmetic.SubChainSubtracts` | 6809.c:1046-1079 | for every n, SUB then SBC with loads and stores between gives the n-byte difference modulo 256^n, C the borrow, V the signed overflow, so LO/HS and LT/GE decide n-byte order |
| `Arithmetic.AddChainAdds` | 6809.c:784-806 | for every n, ADD then ADC gives the n-byte sum modulo 256^n with n-byte carry and signed overflow |
| `Arithmetic.DaaExactly` | 6809.c:885-904 | after adding packed BCD bytes DAA gives the BCD byte and carry if and only if the binary sum byte does not have both nibbles above 9 |
| `Arithmetic.DaaAdds` | 6809.c:885-904 | after adding packed BCD bytes DAA is right, or 60 too high with the right carry when both nibbles of the sum exceed 9 |
| `Arithmetic.DecimalChainIs` | 6809.c:885-904 | for every n, the chain leaves the n-byte decimal sum plus 60 at the place of each doubled byte, with the decimal carry in C |
| `Arithmetic.DecimalChainAdds` | 6809.c:885-904 | for every n, the chain leaves the n-byte decimal sum and carry if and only if no byte meets that case |
| `ChainPrograms.TriplesRunChain` | 6809.c:1785-3132 | LDA, an operation and STA executed for any number of bytes in memory leave the bytes of the chain and change nothing else, and the flags before the last STA are those of the chain |
| `ChainPrograms.QuadruplesRunChain` | 6809.c:1785-3132 | the same with DAA and the decimal chain |
| `ChainPrograms.SubtractProgram` | 6809.c:1046-1079 | the executed SUBA/SBCA program leaves the n-byte difference modulo 256^n, and branches before its last STA decide n-byte unsigned and signed order |
| `ChainPrograms.DecimalProgram` | 6809.c:885-904 | the executed ADDA/ADCA and DAA program leaves the n-byte decimal sum and carry if and only if no byte is adjusted twice |
| `Disassembler.LengthsAgree` | monitor.c:894-1077 | for every valid instruction on all three pages and every valid postbyte, the bytes the CPU consumes are the length `dasm` returns |
| `Disassembler.Dasm` | monitor.c:894-1077 | the walk over the bytes returns the length of the tables |
| `Disassembler.Page1Agrees` | monitor.c:100-357 | the first-page table fetches the operand bytes the CPU fetches |
| `Disassembler.Page2Agrees` | monitor.c:359-616 | the same for page 0x10 |
| `Disassembler.Page3Agrees` | monitor.c:618-875 | the same for page 0x11 |
| `Disassembler.IndexedAgrees` | monitor.c:946-1031 | indexed postbytes take the same extension bytes in both |
| `Disassembler.FallsThrough` | command.c:883-893 | straight instructions and branches not taken continue at PC plus the `dasm` length |
| `Disassembler.CallsReturnHere` | 6809.c:1739-1761 | JSR, BSR and LBSR stack PC plus the `dasm` length |
| `Disassembler.SoftwareInterruptsReturnHere` | 6809.c:1548-1622 | a software interrupt with a properly nested handler resumes at PC plus the `dasm` length |
| `Bus.BusMap.Map` | machine.c:95-134 | the loop over the units leaves every unit not fixed and covered with its entry, and every other unit as it was |
| `Bus.HistoryDecides` | machine.c:95-134 | after any history of calls a unit holds the entry of the first call that fixed it, else of the last call that covered it, else what it held |
| `Bus.FirstPinDecides` | machine.c:124-129 | the first fixing call decides a unit for good |
| `Bus.LastCoverDecides` | machine.c:121-133 | without one the last covering call decides |
| `Bus.FixedForever` | machine.c:124-129 | a fixed entry survives every history |
| `Bus.WindowIsLinear` | machine.c:276-283 | `to_absolute` of an address in the deciding window, the first to fix its unit or else the last to cover it, is that device at offset plus distance |
| `Mmu.MmuDevice.Write` | machine.c:480-491 | a register write stores the register and remaps its page from the registers |
| `Mmu.MmuDevice.ResetComplete` | machine.c:504-521 | the registers are read back from the fifth unit of each page |
| `Mmu.WriteAgrees` | machine.c:480-491 | a write to any register of a page makes its non-fixed units equal what its registers say and disturbs no other page |
| `Mmu.RunsAgree` | machine.c:480-491 | in every run of writes a page agrees from its first write on |
| `Mmu.FixedUnitsStay` | machine.c:124-129 | no run of MMU writes changes a fixed unit |
| `Mmu.EonStartsInAgreement` | eon.c:26-50 | pages 0 to 13 of an EON start in agreement |
| `Mmu.EonMmuWindow` | eon.c:32-33 | the window of the MMU itself is fixed at start |
| `Mmu.EonRuns` | eon.c:26-50 | no run of MMU writes takes those pages out of agreement or unmaps the MMU |
| `SmallMmu.SmallMmuDevice.Write` | mmu.c:58-80 | a global or slot register is stored, and page and flags writes remap the selected slot |
| `SmallMmu.SmallMmuDevice.Reset` | mmu.c:82-93 | after reset every slot agrees and maps its own page |
| `SmallMmu.WriteAgrees` | mmu.c:58-80 | a page or flags write makes the selected slot agree; no write disturbs another slot |
| `SmallMmu.WriteReadBack` | mmu.c:49-65 | what was written is read back while the same slot is selected |
| `SmallMmu.RunsAgree` | mmu.c:58-93 | a slot that agrees, as all do after reset, agrees after every run of writes |
| `MemoryAccess.WritesAreCoherent` | machine.c:221-263 | after a write, addresses with the same absolute address read the new byte through whatever window, and all others read as before |
| `MemoryAccess.RunsAreCoherent` | machine.c:221-263 | after any run of writes an address reads the latest byte written to its absolute address, else what it read before |
| `MemoryAccess.SameAbsolute` | machine.c:196-200 | two backed addresses share a byte if and only if their absolute addresses are equal |
| `MemoryAccess.WordReadsAgree` | machine.c:234-246 | where the two bytes are adjacent on one device, `cpu_read16` equals the two byte reads of `RDMEM16` if and only if the second unit may be read too whenever the first may: only the first is tested |
| `MemoryAccess.InsideUnit` | machine.c:234-246 | the bytes of a word inside a unit are adjacent |
| `MemoryAccess.AcrossUnits` | machine.c:234-246 | across units they are adjacent if and only if the next unit continues the same device |
| `MemoryAccess.PartedUnitsDiffer` | machine.c:213-246 | on a given map and device sizes the two reads agree for all contents if and only if both are answered or neither is and, if they are, the bytes are adjacent |
| `MemoryAccess.MemoryBus.CpuRead8` | machine.c:221-232 | the byte of the mapped device, or a fault |
| `MemoryAccess.MemoryBus.CpuRead16` | machine.c:234-246 | two bytes of the device found for the first address, or a fault |
| `MemoryAccess.MemoryBus.CpuWrite8` | machine.c:252-263 | one byte of one buffer changes, or a fault leaves all as it was |
| `Symbols.FindsLatestWrite` | symtab.c:97-127 | in every history of additions and assignments of any types, finding a name with type 0 gives the value of the latest write to it |
| `Symbols.LooksUpLatest` | symtab.c:142-158 | in every history of additions looking a value up gives the name of the latest symbol added with it |
| `Symbols.LookupExactly` | symtab.c:188-196 | with assignments a lookup finds the latest symbol holding the value if and only if there is none or it was filed under the same hash |
| `Symbols.StaleExample` | symtab.c:191-193 | a symbol assigned a new value is not found under it |
| `Symbols.SymTab.FindSymbol` | symtab.c:97-127 | the walk along a hash chain finds the first symbol of that name in the whole list |
| `Symbols.SymTab.LookupSymbol` | symtab.c:142-158 | the walk along the value chain gives the list lookup |
| `Symbols.SymTab.AddSymbol` | symtab.c:161-185 | a symbol goes to the head of both chains, so both indexes hold the same symbols (`Valid`) |
| `Symbols.SymTab.SetSymbol` | symtab.c:188-196 | an assignment overwrites the found symbol or adds one |
| `Symbols.StringSpace.Copy` | symtab.c:56-68 | names of up to 31999 characters are copied behind the used part or into a fresh space, and every earlier copy stays intact |
| `Breakpoints.EnabledIsUsed` | command.c:393-445 | in every history an entry is enabled if and only if it is used |
| `Breakpoints.LiveIsFound` | command.c:448-456 | in every history in which no two live entries share an address, a search for a live address finds that entry |
| `Breakpoints.FreshPlacesStayDistinct` | command.c:406-425 | which holds when no command places at a live address |
| `Breakpoints.PlacingKeeps` | command.c:406-425 | placing in the lowest free slot never hides a live entry |
| `Breakpoints.FreeingKeepsExactly` | command.c:428-433 | freeing an entry keeps the others reachable if and only if it is not the one found for an address that another live entry has |
| `Breakpoints.ReuseUncovers` | command.c:406-425 | placing at another address in the slot of a freed entry uncovers the entry it hid |
| `Breakpoints.FetchStops` | command.c:1396-1421 | a fetch turns the monitor on if and only if a live execution entry at that address asks for it |
| `Breakpoints.IgnoresExactly` | command.c:1378-1384 | an ignore count of n lets exactly n fetches pass |
| `Breakpoints.ExecutesExactly` | command.c:413-421 | a slot stops execution if and only if an execution breakpoint ever landed in it: the flag outlives its breakpoint |
| `Breakpoints.TemporaryHides` | command.c:1416-1417 | a temporary entry in a lower slot, once freed, hides a user breakpoint at the same address |
| `Breakpoints.BreakTable.Enable` | command.c:393-403 | the counter stays the number of enabled entries |
| `Breakpoints.BreakTable.Alloc` | command.c:406-425 | the lowest free slot, reset and enabled, or none |
| `Breakpoints.BreakTable.Free` | command.c:428-433 | the entry is neither used nor enabled, and the counter follows |
| `Breakpoints.BreakTable.FreeTemps` | command.c:436-445 | exactly the used temporary entries are freed |
| `Breakpoints.BreakTable.FindByAddr` | command.c:448-456 | the lowest slot with the address, used or not |
| `Breakpoints.BreakTable.PlaceEntry` | command.c:788-812 | an entry is placed if and only if a slot is free |
| `Breakpoints.BreakTable.InsnHook` | command.c:1396-1421 | the fast path on the counter changes nothing: the hook does what the search alone would do |
| `Expressions.Evaluator.Eval` | command.c:348-390 | evaluation that cuts its text in place terminates on every text and gives the value, and leaves the machine, of the parsed expression; it writes nothing outside the text and leaves its residue there |
| `Expressions.Evaluator.EvalMem` | command.c:308-337 | the address part: device and offset, a program symbol, or a CPU address through the bus map |
| `Expressions.Evaluator.EvalAssign` | command.c:182-194 | assignment to a variable or to a memory byte |
| `Expressions.Evaluator.FoldComparisons` | command.c:263-274 | a comparison is folded if and only if the text has one, before any other operator |
| `Expressions.Evaluator.FoldBinary` | command.c:277-303 | an operator is folded at its first occurrence if and only if that is not the first character |
| `Expressions.Evaluator.MatchBinary` | command.c:249-260 | the text is cut in two at the first occurrence, or left alone |
| `ExpressionFacts.IntactExactly` | command.c:348-390 | evaluation leaves its text as it was if and only if the text has no equals sign, no arithmetic operator behind another character, and no device offset that is reached |
| `ExpressionFacts.ComparisonDecays` | command.c:1372-1376 | after one evaluation the text of a comparison is what its left side leaves, so a stored condition is checked once |
| `ExpressionFacts.ConditionDecays` | command.c:1372-1376 | a condition on any register becomes a test of the register for nonzero |
| `ExpressionFacts.LooksWithoutTouching` | command.c:348-390 | a text without an equals sign changes no register, memory byte or variable |
| `ExpressionFacts.AssignThenRead` | command.c:130-194 | assigning to a variable and reading it back gives the value, for registers what fits their width |
| `ExpressionFacts.VariableReadsBack` | command.c:130-179 | the same for the variable handlers alone, through the symbol table |
| `ExpressionFacts.DecimalEvaluates` | command.c:384-387 | the decimal text of every 64-bit number evaluates to it |
| `ExpressionFacts.DifferencesAlternate` | command.c:277-303 | a chain of any length of differences groups to the right, so its signs alternate |
| `ExpressionFacts.DifferencesExactly` | command.c:277-303 | it gives the difference read from the left if and only if twice the operands it adds back vanish modulo 2^64 |
| `Simulator.Cpu.And8` | 6809.c:808-817 | AND, and BIT without its result: sign, zero and a cleared V in the words |
| `Simulator.Cpu.Or8` | 6809.c:1008-1017 | OR likewise |
| `Simulator.Cpu.Eor8` | 6809.c:918-927 | EOR likewise |
| `Simulator.Cpu.Neg8` | 6809.c:996-1006 | NEG is the subtraction from zero with its flags |
| `Simulator.Cpu.Com8` | 6809.c:872-883 | COM complements and sets C |
| `Simulator.Cpu.Lsr8` | 6809.c:971-982 | LSR, C from bit 0 |
| `Simulator.Cpu.Ror8` | 6809.c:1032-1044 | ROR through the lazy carry |
| `Simulator.Cpu.Asr8` | 6809.c:832-842 | ASR halves the signed byte |
| `Simulator.Cpu.Asl8` | 6809.c:819-830 | ASL doubles with carry and signed overflow |
| `Simulator.Cpu.Rol8` | 6809.c:1019-1030 | ROL doubles and adds the lazy carry |
| `Simulator.Cpu.Dec8` | 6809.c:906-916 | DEC overflows at 0x80 alone and keeps C |
| `Simulator.Cpu.Inc8` | 6809.c:948-958 | INC overflows at 0x7f alone and keeps C |
| `Simulator.Cpu.Clr8` | 6809.c:853-860 | CLR |
| `Simulator.Cpu.Add16` | 6809.c:1115-1125 | ADDD with 16-bit carry and signed overflow |
| `Simulator.Cpu.Sub16` | 6809.c:1197-1208 | SUBD and the wide compares with 16-bit borrow and signed overflow |
| `Simulator.Cpu.Multiply` | 6809.c:984-994 | MUL: the product in D, zero from the product, C from bit 7 of B |
| `Simulator.Cpu.SignExtend` | 6809.c:1162-1173 | SEX |
| `Simulator.Cpu.AddBToX` | 6809.c:1108-1113 | ABX |
| `Simulator.Cpu.OrCcImm` | 6809.c:1664-1671 | ORCC on the packed byte sets exactly the named flags |
| `Simulator.Cpu.AndCcImm` | 6809.c:1673-1680 | ANDCC keeps exactly the named flags |
| `Simulator.Cpu.ReadReg` | 6809.c:667-723 | registers by transfer number, 0xff for none |
| `Simulator.Cpu.WriteReg` | 6809.c:725-780 | the named register takes the value at its width |
| `Simulator.Cpu.WriteStack16` | 6809.c:233-238 | low byte at the next address modulo 64K, then high byte |
| `Simulator.Cpu.PushWord` | 6809.c:1219-1260 | a word push lowers the pointer by two modulo 64K and stores it high byte on top |
| `Simulator.Cpu.ReturnSubroutine` | 6809.c:1491-1499 | RTS takes PC from the stack |
| `Simulator.Cpu.CallShort` | 6809.c:1751-1761 | BSR stacks the PC behind it and jumps relative to it |
| `Simulator.Cpu.CallLong` | 6809.c:1739-1749 | LBSR likewise |
| `Arithmetic.DaaExample` | 6809.c:885-904 | adding packed 55 and 55 gives 70 with carry |
| `MemoryAccess.PartedExample` | machine.c:234-246 | two devices in neighbouring units make the two word reads differ |
| `Breakpoints.WatchStopsExecution` | command.c:815-826 | a watchpoint in the slot of a deleted breakpoint also stops execution |
| `ExpressionFacts.ThreeNumbers` | command.c:277-303 | a-b-c is a-b+c for all 64-bit numbers, so 5-3-1 is 3 |

## Left out

CPU and time:

- The build with `H6309`, and `monitor_call`/`monitor_return` with `CALL_STACK`: not configured.
- `cwai` and `sync`: the simulator reports them as unsupported; here they are invalid operations like any other.
- Memory of the CPU model is a flat 64K of RAM. The bus is modelled by itself; a device access from inside an instruction is modelled as an event right after the instruction body and before its closing check (`Interrupts.Event`).
- PC is not masked by the code. A run stops in the model (`OffEnd`) when an instruction would be fetched past 0xffff, where the simulator indexes past its bus map.
- `sim_error` ends the run, as it does with debugging off; an invalid opcode reached with debugging on, and the monitor hooks inside the loop (command_insn_hook, check_break, monitor6809), are not part of the CPU model.
- The pending, enable and multiplexer words are sets of bit numbers; sources of 32 and above, where the C shift is undefined, are not distinguished.
- `irq_start_time` and the average interrupt load are not modelled.
- The timer's `count` is an unbounded integer; the C `int` cannot overflow with updates of one slice.
- hwtimer_read and imux_read: plain getters.
- The main loop branch with cycles_per_irq (main.c:429-443), idle_loop and the cycle limit: operating-system pacing.

Bus:

- `bus_map` past the end of the table writes out of bounds after a warning; calls are required to stay inside (`Bus.InRange`).
- `bus_unmap` copies the start-up table back, fixed units included; nothing calls it in a run.
- Device ids 32 and above, and accesses past a device's buffer, are undefined in C; here they are faults (`Access`). After a fault the run ends.
- `small_mmu_update_slot`, `_current` and `_all` are never called; a small MMU whose selected slot is 16 or above indexes outside its registers and is required not to.
- ioexpand.c (a dispatch by slot), serial.c, wpc.c, wpclib.c, disk.c, fileio.c, the console and the null device: input and output.
- Debugger hooks during memory accesses are no-ops here, and `system_running` is taken as set, so an access to an unmapped unit or against its permissions always faults.

Disassembler:

- The text `dasm` prints; only the bytes it consumes are modelled.
- Addresses beyond 0xffff while disassembling read as zero bytes.

Debugger:

- Parent symbol tables: no code sets `parent`.
- Names longer than 31999 characters overflow a string space; `Symbols.StringSpace.Copy` requires shorter ones.
- Automatic variables are recognised by name instead of by handler pointers stored as symbol values; they act on the registers of the reference CPU. `unsigned long` is 64 bits wide.
- Operands that C evaluates in unspecified order (both sides of a comparison, device and offset) are evaluated from the left.
- Expression memory is the device buffers; reads of devices with side effects are not modelled. A division by zero or an access outside devices or the map makes evaluation stuck.
- The history ring is read, not written, by expressions; do_print's save_value is not modelled.
- A breakpoint command with no free slot dereferences a null pointer; in the model the table stays as it is.
- Breakpoint deletion by an id of 32 or above indexes outside the table; ids are required to be below.
- Write masks of watchpoints, threads (`threaded` is never set), and the read and write hooks beside the instruction hook.
- The command parser, terminal handling, displays, stack and trace dumps, and the S19 and hex loaders: user interface and `FILE*` semantics.
