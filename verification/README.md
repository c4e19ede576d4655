# z80e in Dafny

z80e emulates the Z80 processor, counting cycles, and the hardware of the TI calculators around it. This
project models the parts of it with the most state and proves properties of every run of the model.

Each component of the source that works by changing fields or arrays in place is a class with those fields and
arrays. Its methods go through the source's own steps and are proved against functions from state to
state, and the theorems are about those functions.

- `Wrappers.dfy`, `Bytes.dfy`, `Bitwise.dfy`, `Bitmasks.dfy`, `Registers.dfy`, `Parity.dfy`: options, machine integers
  with their wrap-around, their bits, the register file, the flag macros and the parity loop.
- `Z80.dfy`: the processor as separate tables, as a manual has them: length, time, effect, jump target and
  control effect of an instruction. `Pass` is one turn of the loop in `cpu_execute`, `Cost` what it costs.
- `Cpu.dfy`: the processor as the source has it, one loop that edits registers, prefix and cycle count and
  moves PC back and forth over displacement bytes, proved equal to those tables for every
  combination of prefix and opcode.
- `Invariants.dfy`, `Runs.dfy`: what every pass keeps, time slicing, termination and overshoot of a call.
- `CpuInterrupts.dfy`, `BlockOps.dfy`, `Renaming.dfy`, `Arithmetic.dfy`: interrupts over whole runs, LDIR and
  CPIR and their mirror images run to completion, DD and FD as a renaming of registers, and binary and decimal
  arithmetic of any length built from single ALU steps.
- `Steps.dfy`, `Operands.dfy`: one instruction run from between instructions, and its byte operands.
- `Jumps.dfy`, `Logic.dfy`, `Shifts.dfy`, `Loads.dfy`, `Extended.dfy`, `Devices.dfy`, `Indexed.dfy`: what runs of single
  instructions and of small programs do, told by the bytes at PC, the bits of A and F and plain arithmetic, without
  the tables: comparing and branching, calling and returning, decimal sums, delay loops, blocks of output.
- `Timing.dfy`: the cycle counts against those of the Z80 CPU User Manual.
- `Disassembler.dfy`: the disassembler's own cursor arithmetic and its agreement with the processor.
- `Timers.dfy`, `RunLoop.dfy`: the timer table, and the planning and dispatch of timer ticks in between runs of
  the processor.
- `Expressions.dfy`: the debugger's two-stack expression evaluator against a recursive meaning.
- `Flash.dfy`, `MemoryMapping.dfy`: the flash command recogniser behind the banked memory, and the paging ports.
- `Lcd.dfy`: the packed LCD memory with its moving pointer and buffered reads.
- `InterruptController.dfy`, `Link.dfy`: the interrupt controller with its two timers, and the link assist.

## What the proofs found

- A register operand under DD CB or FD CB leaves PC on the opcode byte, one byte short of the instruction's
  end. Both decoders do it, so they agree (`Z80.IndexedCBLength`, `Disassembler.DecodersAgree`).
- Before an ED instruction, DD or FD makes the disassembler take the opcode one byte too far on, because it
  steps over a displacement that is not there. `Disassembler.DecodersAgree` states exactly when the length
  comes out right all the same.
- `cpu_execute` does not return if it meets a memory of nothing but DD and FD; `Runs.Termination` shows that
  this is the only way not to.
- In interrupt mode 0 an accepted interrupt stops the processor for as long as the line is up
  (`CpuInterrupts.Mode0Stalls`).
- LDIR onto an overlapping destination above the source repeats the bytes between the two; it is a move
  exactly when the source has that period anyway (`BlockOps.IsMove`).
- The cycle counts differ from the Z80 CPU User Manual in INC (HL), DEC (HL), the immediate ALU operations, RETN,
  RETI, bit operations in memory, and storing, counting and bit operations near an index register (`Timing.dfy`).
- Operators of equal precedence group to the right in the debugger (`Expressions.GroupsRight`).
- The command that erases the whole flash chip can never be recognised (`Flash.ChipEraseIsShadowed`).
- The clamp for memory pages that do not exist lets some through: exactly those whose number has all the bits
  of the page count, such as page 64 of 64 (`MemoryMapping.ReloadSafe`, `MemoryMapping.ClampLetsThrough`).
- Disabling a pending cause by the direct call leaves it pending and the line up
  (`InterruptController.PendingStaysEnabled`).
- Reading the link assist's receive port lowers the interrupt line only while nothing is being transmitted,
  because it tests the transmitter's bit (`Link.ReadDropsLine`). That is the one step by which a program can miss
  that there is room to write (`Link.RoomUnheard`); a received byte is never missed (`Link.NoByteUnheard`).
- The LCD pointer does not come back from the very end of its column count (`Lcd.StepsCancel`).

## Model

| member | source | states |
|---|---|---|
| Invariants.PassKeepsInv | libz80e/src/core/cpu.c:893-1539 | every pass of the loop keeps: the prefix is one of its seven legal values, a halted CPU has no prefix pending, IFF1 equals IFF2 |
| Invariants.ControlPrefix | libz80e/src/core/cpu.c:927-974 | the prefix state machine: which prefix follows each opcode fetch from each legal prefix |
| Invariants.CostBounds | libz80e/src/core/cpu.c:893-1539 | a pass costs 1 to 22 cycles, at most 19 without a prefix, so every pass makes progress |
| Runs.RunKeepsInv | libz80e/src/core/cpu.c:893-1539 | the invariant holds after any number of passes, for any memory and device answers |
| Runs.SpentGrows | libz80e/src/core/cpu.c:1532-1537 | `n` passes use up at least `n` cycles |
| Runs.TimeSlicing | libz80e/src/core/cpu.c:893-1539 | a call with a+b leaves the loop after exactly the passes of a call with a followed by a call with b and the remainder, with the same state and the same result: slicing the budget cannot be observed |
| Runs.ExitsOnce | libz80e/src/core/cpu.c:896-897 | the number of passes of a call is determined, and a longer budget never stops earlier |
| Runs.ExitState | libz80e/src/core/cpu.c:896-897 | a call ends with no prefix pending and a result that is not positive; without budget or prefix it does nothing |
| Runs.Termination | libz80e/src/core/cpu.c:893-1539 | a call returns if and only if it never runs into a memory of nothing but DD and FD bytes with one of them pending |
| Runs.StuckForever | libz80e/src/core/cpu.c:1492-1508 | a stuck CPU stays stuck: no later pass completes an instruction |
| Runs.Overshoot | libz80e/src/core/cpu.c:893-1539 | without stacked index prefixes a positive budget is overshot by at most 29 cycles |
| Runs.LastInstruction | libz80e/src/core/cpu.c:893-1539 | whatever prefixes pile up, the overshoot is less than the cost of the last instruction, which began within the budget |
| Runs.PrefixFetch | libz80e/src/core/cpu.c:1432-1509 | fetching a prefix byte changes nothing but PC, R, the prefix and the EI delay, and costs 4 cycles |
| CpuInterrupts.AcceptedOnlyBetweenInstructions | libz80e/src/core/cpu.c:897-912 | over every run an interrupt is taken only with IFF1 and IFF2 set, no prefix pending and no EI delay; in modes 1 and 2 none follows directly |
| CpuInterrupts.EiDelay | libz80e/src/core/cpu.c:1461-1466 | after EI at least one whole further instruction, prefixes included, completes before an interrupt is taken |
| CpuInterrupts.ReturnsWhereInterrupted | libz80e/src/core/cpu.c:866-891 | in modes 1 and 2 the pushed word is the PC found, popping it restores SP, and only SP and PC of the registers change |
| CpuInterrupts.InterruptedBlock | libz80e/src/core/cpu.c:666-851 | an unfinished block instruction leaves PC on its own ED byte, so an interrupt between rounds pushes the address that restarts it |
| CpuInterrupts.InterruptedHalt | libz80e/src/core/cpu.c:914-917 | HALT waits with PC behind it at 4 cycles a pass, for any number of passes, and an interrupt resumes there |
| CpuInterrupts.Mode0Stalls | libz80e/src/core/cpu.c:866-891 | in interrupt mode 0 an accepted interrupt executes nothing at all, pass after pass, at one cycle each |
| BlockOps.LdirRun | libz80e/src/core/cpu.c:744-758 | LDIR and LDDR run to completion equal n sequential byte copies (0 means 65536): BC = 0, PV clear, HL and DE moved by n, all other registers, flags and control state as before, 21n-5 cycles, and a call with exactly that budget returns 0 |
| BlockOps.CopiedBytes | libz80e/src/core/cpu.c:744-758 | closed form of n sequential copies, 16-bit wrap included: the destination shows the source with the distance between the two as period, and nothing else changes |
| BlockOps.IsMove | libz80e/src/core/cpu.c:797-811 | the copy is a correct move if and only if the source has that period, which it always has when the destination does not start inside the source |
| BlockOps.IsFill | libz80e/src/core/cpu.c:744-758 | with the destination one byte ahead the first byte fills the block |
| BlockOps.MissesItself | libz80e/src/core/cpu.c:744-758 | a destination that misses the instruction's own two bytes keeps it intact, as `LdirRun` asks |
| BlockOps.CpirRun | libz80e/src/core/cpu.c:759-771 | CPIR and CPDR stop at the first byte equal to A or after BC bytes: Z iff some byte in reach matches, HL one past the last byte examined, BC what is left, PV = (BC != 0), carry and memory unchanged, 21k-5 cycles for k bytes |
| BlockOps.Examined | libz80e/src/core/cpu.c:812-825 | the number of bytes a search examines: none before it matches, and it matches unless all were examined |
| Renaming.PrefixIsRenaming | libz80e/src/core/cpu.c:284-345 | one step under DD (FD) of a main-table opcode without (HL) operand equals: swap HL with IX (IY), step without prefix, swap back; registers, flags, memory, devices, PC, control state and cycles |
| Renaming.MainSwap | libz80e/src/core/cpu.c:382-490 | the same for what such an opcode does to registers and memory |
| Renaming.ShapeSwap | libz80e/src/core/cpu.c:1137-1525 | under the prefix such an opcode is no longer and no slower |
| Disassembler.DecodersAgree | libz80e/src/disassembler/disassemble.c:454-911 | for every memory and PC with no stacked DD/FD, the length the disassembler returns ends exactly where the CPU's reading does, DD CB forms and wrap-around included; before ED the two agree exactly when the opcode and the byte after it are both LD rp,(nn) forms or both not |
| Disassembler.StackedPrefixDisagrees | libz80e/src/disassembler/disassemble.c:467-483 | a second index prefix is always a disagreement: the disassembler ends after two bytes, the CPU still has a prefix pending |
| Disassembler.TargetsAgree | libz80e/src/disassembler/disassemble.c:206-209 | the target printed for DJNZ, JR and JR cc is the CPU's target modulo 2^16 |
| Disassembler.ReachesOpcode | libz80e/src/core/cpu.c:927-948 | the CPU gets to the opcode proper after as many passes as there are prefix bytes, with the memory untouched |
| Disassembler.Listing.ParseInstruction | libz80e/src/disassembler/disassemble.c:454-911 | the cursor moves by the specified length, the same is returned, and a relative jump prints the specified target |
| Disassembler.Listing.ParsePrefixes | libz80e/src/disassembler/disassemble.c:465-486 | prefixes and opcode found, and where the cursor is left |
| Disassembler.Listing.ParseMain | libz80e/src/disassembler/disassemble.c:606-905 | over the main table the cursor moves by the instruction length of the CPU's table |
| Disassembler.Listing.ParseED | libz80e/src/disassembler/disassemble.c:511-605 | likewise over the ED table |
| Disassembler.Listing.ParseR | libz80e/src/disassembler/disassemble.c:242-265 | a displacement byte is consumed exactly for an indexed memory operand |
| Disassembler.Listing.ParseRwR | libz80e/src/disassembler/disassemble.c:267-280 | with two operands the displacement is consumed once, whichever side the memory operand is on |
| Disassembler.Listing.ParseNN | libz80e/src/disassembler/disassemble.c:211-216 | a little-endian word is read |
| Arithmetic.ChainValue | libz80e/src/core/cpu.c:532-568 | ADC (SBC) over byte strings of any length gives the sum (difference) modulo 256^n, the final carry being the carry (borrow) out |
| Arithmetic.ChainOverflow | libz80e/src/core/cpu.c:532-568 | the final PV is the signed overflow of the whole number |
| Arithmetic.FirstStep | libz80e/src/core/cpu.c:534-563 | ADD and SUB are ADC and SBC with the carry clear |
| Arithmetic.WideIsChain | libz80e/src/core/cpu.c:1008-1028 | ADC HL,rp and SBC HL,rp give the result and every flag of the two-byte chain, but for Z, which looks at all 16 bits |
| Arithmetic.DecimalChainValue | libz80e/src/core/cpu.c:507-530 | ADC;DAA (SBC;DAA) over packed BCD of any length gives the packed digits of the decimal sum (difference) modulo 100^n, every byte valid BCD, with the decimal carry (borrow) |
| Arithmetic.DecimalAdd | libz80e/src/core/cpu.c:507-530 | one byte of it: valid BCD and the exact decimal sum with carry |
| Arithmetic.DecimalSubtract | libz80e/src/core/cpu.c:507-530 | one byte of it: valid BCD and the exact decimal difference with borrow |
| Cpu.AddMacros | libz80e/include/z80e/core/registers.h:101-118 | the carry and half-carry macros on a sum say whether the byte and its low digit overflow |
| Cpu.SubMacros | libz80e/include/z80e/core/registers.h:102-119 | on a difference, possibly negative, they say whether a borrow occurs |
| Cpu.AddMacros16 | libz80e/include/z80e/core/registers.h:101-120 | likewise for 16-bit sums |
| Cpu.SubMacros16 | libz80e/include/z80e/core/registers.h:101-121 | likewise for 16-bit differences |
| Registers.ExchangesUndo | libz80e/src/core/registers.c:5-22 | EX AF,AF', EX DE,HL and EXX each undo themselves, the flag byte included |
| Registers.FlagsRoundTrip | libz80e/include/z80e/core/registers.h:9-30 | the F byte and its eight flag bits determine each other |
| Parity.ParityOf | libz80e/src/core/registers.c:24-29 | the folding computes the number of one bits modulo 2 |
| Cpu.Cpu.Execute | libz80e/src/core/cpu.c:893-1539 | a call that returns at all leaves the state of the specified number of passes, the first to use up the budget with no prefix pending, and returns the budget minus their cost |
| Cpu.Cpu.Pass | libz80e/src/core/cpu.c:897-1537 | one turn of the loop is one specified pass, and its cost is charged |
| Cpu.Cpu.Fetch | libz80e/src/core/cpu.c:919-1530 | one opcode fetch and execution is the specified step with the specified time, through all three tables |
| Cpu.Cpu.HandleInterrupt | libz80e/src/core/cpu.c:866-891 | an accepted interrupt pushes PC, clears both flip-flops and goes to the mode's vector |
| Cpu.Cpu.ExecuteCB | libz80e/src/core/cpu.c:934-972 | with PC stepped back onto the displacement and read twice, the effect and length are those of the table |
| Cpu.Cpu.ExecuteRot | libz80e/src/core/cpu.c:599-664 | rotates and shifts of registers and memory operands, re-reading the displacement for the write |
| Cpu.Cpu.ExecuteBit | libz80e/src/core/cpu.c:942-950 | BIT, with its undocumented flags from WZ or the operand |
| Cpu.Cpu.ExecuteResSet | libz80e/src/core/cpu.c:951-968 | RES and SET, re-reading the displacement for the write |
| Cpu.Cpu.ExecuteED | libz80e/src/core/cpu.c:973-1136 | the ED table, with its jumps, and the invalid opcodes that delay interrupts |
| Cpu.Cpu.ExecuteED1 | libz80e/src/core/cpu.c:975-1122 | the second quarter of the ED table |
| Cpu.Cpu.ExecuteED17 | libz80e/src/core/cpu.c:1066-1121 | the transfers between A, I and R, RRD and RLD |
| Cpu.Cpu.ExecuteBli | libz80e/src/core/cpu.c:666-851 | a block instruction does one step and steps PC back exactly when it is to go round again |
| Cpu.Cpu.CopyStep | libz80e/src/core/cpu.c:672-680 | one LDI or LDD step |
| Cpu.Cpu.CompareStep | libz80e/src/core/cpu.c:681-690 | one CPI or CPD step |
| Cpu.Cpu.InStep | libz80e/src/core/cpu.c:691-697 | one INI or IND step |
| Cpu.Cpu.OutStep | libz80e/src/core/cpu.c:698-704 | one OUTI or OUTD step |
| Cpu.Cpu.ExecuteMain | libz80e/src/core/cpu.c:1137-1525 | the main table, its jumps and its control effects |
| Cpu.Cpu.Execute0 | libz80e/src/core/cpu.c:1138-1369 | the first quarter of the main table |
| Cpu.Cpu.Execute1 | libz80e/src/core/cpu.c:1370-1378 | LD r,r and HALT |
| Cpu.Cpu.Execute2 | libz80e/src/core/cpu.c:1379-1381 | the arithmetic group on registers and memory |
| Cpu.Cpu.Execute3 | libz80e/src/core/cpu.c:1382-1523 | the last quarter but for prefixes, EI and DI |
| Cpu.Cpu.Control3 | libz80e/src/core/cpu.c:1432-1509 | the prefixes, EI and DI change only control state |
| Cpu.Cpu.Branch | libz80e/src/core/cpu.c:1141-1175 | EX AF,AF', DJNZ and the relative jumps |
| Cpu.Cpu.StoreImmediate | libz80e/src/core/cpu.c:1279-1295 | LD (IX+d),n reads the bytes after the opcode in the order displacement, operand, whatever PC does in between |
| Cpu.Cpu.ReadR | libz80e/src/core/cpu.c:382-406 | the operand read, with the index prefix taken into account |
| Cpu.Cpu.WriteR | libz80e/src/core/cpu.c:408-433 | the operand written, with the index prefix taken into account |
| Cpu.Cpu.ReadWriteR | libz80e/src/core/cpu.c:435-450 | LD r,r' with a memory operand on one side uses plain H and L on the other |
| Cpu.Cpu.ExecuteAlu | libz80e/src/core/cpu.c:532-597 | the eight ALU operations, result and every flag |
| Cpu.Cpu.Daa | libz80e/src/core/cpu.c:507-530 | DAA, result and every flag |
| Cpu.Cpu.Adc16 | libz80e/src/core/cpu.c:1018-1028 | ADC HL,rp, result and every flag |
| Cpu.Cpu.Sbc16 | libz80e/src/core/cpu.c:1008-1017 | SBC HL,rp, result and every flag |
| Cpu.Cpu.Add16 | libz80e/src/core/cpu.c:1183-1193 | ADD HL,rp, which leaves S, Z and PV |
| Cpu.Cpu.Push | libz80e/src/core/cpu.c:259-262 | a push, with SP and addresses wrapping at 2^16 |
| Cpu.Cpu.Pop | libz80e/src/core/cpu.c:264-268 | a pop |
| Cpu.Cpu.PortIn | libz80e/src/core/cpu.c:241-249 | a port read, 0 where no device answers |
| Timers.TimerTable.Add | libz80e/src/ti/asic.c:131-154 | a timer goes into the first free slot, the table growing by ten when there is none |
| Timers.TimerTable.Remove | libz80e/src/ti/asic.c:156-158 | a timer is removed by freeing its slot |
| Timers.AddKeepsOthers | libz80e/src/ti/asic.c:131-154 | adding hands out a slot nobody uses and leaves every timer in use as it was, through growth |
| RunLoop.TimesExact | libz80e/src/runloop/runloop.c:168-184 | the planned times of a timer are exactly c0 + k*p up to the end of the window |
| RunLoop.PlanExact | libz80e/src/runloop/runloop.c:156-190 | a tick is planned if and only if its slot is in use, first ticks before the window ends, and its time is a whole number of periods on and within the window |
| RunLoop.Loop.PlanWindow | libz80e/src/runloop/runloop.c:156-188 | the planning loop leaves that plan in the array, reloads the timers that tick and counts the others down |
| RunLoop.QSort | libz80e/src/runloop/runloop.c:88-93 | what is used of the sort: an ascending permutation |
| RunLoop.Loop.Dispatch | libz80e/src/runloop/runloop.c:192-217 | ticks fire in order, each at most once, none early and none more than K late; those missed lie within K of the window's end; run plus spare cycles equal the request |
| RunLoop.Loop.TickCycles | libz80e/src/runloop/runloop.c:156-217 | all of that for a whole window, the plan being an ascending permutation of all planned ticks |
| Expressions.EvaluatesTree | libz80e/src/debugger/commands/commands.c:130-254 | for every grammatical tree that fits the stacks and divides by no zero, evaluating its printed tokens gives its value modulo 2^16, and neither stack underflows or overflows |
| Expressions.BracketedIsGrammatical | libz80e/src/debugger/commands/commands.c:75-95 | every tree can be printed with brackets so that the grammar reads it, with the same value |
| Expressions.ReadsTree | libz80e/src/debugger/commands/commands.c:145-222 | reading a printed tree anywhere leaves exactly its right edge pending on the stacks |
| Expressions.Collapses | libz80e/src/debugger/commands/commands.c:151-245 | whatever reduces a pending tree, an operator, a bracket or the end, first reduces it to its value |
| Expressions.GroupsRight | libz80e/src/debugger/commands/commands.c:192-209 | a - b - c is read as a - (b - c) |
| Expressions.Evaluator.Evaluate | libz80e/src/debugger/commands/commands.c:130-254 | the evaluator over its two 20-slot arrays computes that outcome |
| Expressions.Evaluator.Feed | libz80e/src/debugger/commands/commands.c:145-216 | one token |
| Expressions.Evaluator.Unwind | libz80e/src/debugger/commands/commands.c:193-207 | applying operators that bind tighter |
| Expressions.Evaluator.Close | libz80e/src/debugger/commands/commands.c:151-167 | a right parenthesis |
| Flash.SectorsPartition | libz80e/src/ti/memory.c:67-88 | the erase sectors partition the chip: each address is in its own, every address of a sector has that sector, all within the chip |
| Flash.PendingIsShort | libz80e/src/ti/memory.c:159-196 | the writes held are at most five and begin some command without completing one |
| Flash.ApplyKeepsValid | libz80e/src/ti/memory.c:95-196 | every operation keeps bank pages in range and the writes held a proper prefix of a command |
| Flash.SinceReset | libz80e/src/ti/memory.c:159-196 | over every run the writes held are exactly the unlocked flash writes since some reset, with no flash read and no command since |
| Flash.CommandRuns | libz80e/src/ti/memory.c:118-196 | a command runs exactly when those writes and the new one spell an entry, and it is the first such entry in table order |
| Flash.ChipEraseIsShadowed | libz80e/src/ti/memory.c:129-152 | the whole-chip erase is never chosen: the sector erase's wildcard takes its last write |
| Flash.ReadAborts | libz80e/src/ti/memory.c:59-61 | a read from a flash bank aborts the command and changes nothing else |
| Flash.BitsOnlyClear | libz80e/src/ti/memory.c:63-65 | in any run with no sector erase flash bits only go from 1 to 0 |
| Flash.FlashChangesOnlyByCommand | libz80e/src/ti/memory.c:159-196 | with flash locked no flash byte changes; a program command changes its own byte only, an erase exactly its own sector, to 0xFF |
| Flash.Mmu.ReadByte | libz80e/src/ti/memory.c:95-110 | the byte the banks show, and the reset of the recogniser |
| Flash.Mmu.WriteByte | libz80e/src/ti/memory.c:159-196 | the whole write path, over the arrays of the source |
| Flash.Mmu.Recognise | libz80e/src/ti/memory.c:170-194 | the matching loop finds the first entry spelled, and keeps the writes exactly when they could still become one |
| Flash.Mmu.Erase | libz80e/src/ti/memory.c:87 | exactly the given stretch becomes 0xFF |
| MemoryMapping.ReloadSafe | libz80e/src/ti/hardware/memorymapping.c:10-55 | after a reload every bank shows a page that exists if and only if no wanted page has all the bits of its kind's page count |
| MemoryMapping.ClampLetsThrough | libz80e/src/ti/hardware/memorymapping.c:45-54 | page 64 of a 64-page chip is let through by the clamp |
| MemoryMapping.FlashSafe | libz80e/src/ti/hardware/memorymapping.c:102-120 | with 128 flash pages or more, a port cannot ask for one that does not exist |
| MemoryMapping.WideWindow | libz80e/src/ti/hardware/memorymapping.c:30-39 | in wide mode banks 1 and 2 are one 32K window on the chip |
| MemoryMapping.PagingReadsBack | libz80e/src/ti/hardware/memorymapping.c:87-120 | a paging port reads back what was written, but for the bits the TI-83+ ignores |
| MemoryMapping.Ports.ReloadMapping | libz80e/src/ti/hardware/memorymapping.c:10-55 | the four banks are rewritten as specified |
| MemoryMapping.Ports.WriteBankAPort | libz80e/src/ti/hardware/memorymapping.c:102-120 | page and kind are taken from the byte and the banks reloaded |
| MemoryMapping.Ports.WriteBankBPort | libz80e/src/ti/hardware/memorymapping.c:137-155 | likewise for bank B |
| Lcd.RowRoundTrip | libz80e/src/ti/hardware/t6a04.c:174-222 | write any words that fit the row, restore Y, discard one buffered read and read back: the words return (low six bits in 6-bit mode) and no other pixel changes |
| Lcd.WritesRow | libz80e/src/ti/hardware/t6a04.c:194-222 | after the writes the row shows every word, most significant bit first, and all else is unchanged |
| Lcd.ReadsRow | libz80e/src/ti/hardware/t6a04.c:174-192 | reads move the pointer along the row and buffer the word passed |
| Lcd.After | libz80e/src/ti/hardware/t6a04.c:86-222 | X stays in 0..63 and Y in 0..31 after any sequence of commands, writes and reads |
| Lcd.PutPixels | libz80e/src/ti/hardware/t6a04.c:205-212 | the bit loop sets exactly the word's pixels |
| Lcd.CollectedBits | libz80e/src/ti/hardware/t6a04.c:182-186 | the read loop collects exactly the word's pixels |
| Lcd.Controller.DataWritePort | libz80e/src/ti/hardware/t6a04.c:194-222 | the data write, over the packed array |
| Lcd.Controller.DataReadPort | libz80e/src/ti/hardware/t6a04.c:174-192 | the data read, returning the buffered word |
| Lcd.Controller.StatusWrite | libz80e/src/ti/hardware/t6a04.c:86-132 | the command byte, told by its highest bit |
| Lcd.Controller.AdvancePointer | libz80e/src/ti/hardware/t6a04.c:144-172 | the pointer and its wrap-around |
| Lcd.Controller.WriteScreen | libz80e/src/ti/hardware/t6a04.c:49-57 | one pixel is set, and the result tells whether the byte changed |
| Lcd.Controller.ReadScreen | libz80e/src/ti/hardware/t6a04.c:44-47 | one pixel is read |
| InterruptController.EveryHistory | libz80e/src/ti/hardware/interrupts.c:6-261 | for every history the line is up iff a cause is pending; the two timer ids, when not -1, name different slots in use; and while enables change only through port 3 whatever is pending is enabled |
| InterruptController.ApplyKeeps | libz80e/src/ti/hardware/interrupts.c:6-261 | one operation: the line follows the causes pending, and the ids name their own timers |
| InterruptController.PendingStaysEnabled | libz80e/src/ti/hardware/interrupts.c:70-105 | an operation leaves a pending cause not enabled if and only if it is the direct call disabling a pending one |
| InterruptController.RetimeKeeps | libz80e/src/ti/hardware/interrupts.c:237-261 | re-speeding a timer gives it a slot of its own, through table growth, and leaves the other's alone |
| InterruptController.PackedPicked | libz80e/src/ti/hardware/interrupts.c:155-195 | a port byte is determined by the causes and bit 3 |
| InterruptController.PickedPacked | libz80e/src/ti/hardware/interrupts.c:155-195 | and determines them |
| InterruptController.MaskReadsBack | libz80e/src/ti/hardware/interrupts.c:155-182 | port 3 reads back what was written |
| InterruptController.Controller.Interrupt | libz80e/src/ti/hardware/interrupts.c:20-68 | raising causes |
| InterruptController.Controller.SetInterruptEnabled | libz80e/src/ti/hardware/interrupts.c:70-105 | the direct enable call |
| InterruptController.Controller.AcknowledgeInterrupt | libz80e/src/ti/hardware/interrupts.c:107-144 | acknowledging causes, and lowering the line when none is left |
| InterruptController.Controller.WriteMask | libz80e/src/ti/hardware/interrupts.c:168-182 | port 3 |
| InterruptController.Controller.WriteAcknowledged | libz80e/src/ti/hardware/interrupts.c:197-208 | port 2 |
| InterruptController.Controller.ReadInterruptingDevice | libz80e/src/ti/hardware/interrupts.c:184-195 | the causes pending and the ON key |
| InterruptController.Controller.SetFirstTimerFrequency | libz80e/src/ti/hardware/interrupts.c:237-248 | the first timer is removed and added anew |
| InterruptController.Controller.SetSecondTimerFrequency | libz80e/src/ti/hardware/interrupts.c:250-261 | likewise the second |
| InterruptController.Controller.WriteTimerSpeed | libz80e/src/ti/hardware/interrupts.c:216-223 | both timers take the speed in bits 1 and 2 |
| Link.ExactlyOnce | libz80e/src/ti/hardware/link.c:72-183 | for every interleaving of host and calculator the bytes accepted into each mailbox are delivered exactly once and in order, at most one on its way; tx_ready = not tx_active and each interrupt bit equals its ready bit |
| Link.NothingLost | libz80e/src/ti/hardware/link.c:127-132 | from reset, what was delivered is what was accepted, short of at most the last byte |
| Link.StatusIsTrue | libz80e/src/ti/hardware/link.c:97-106 | bits 4, 5 and 7 of port 9 tell exactly whether a read gets a byte, a write is taken, and the host has one to take |
| Link.ReadDropsLine | libz80e/src/ti/hardware/link.c:82-84 | reading the received byte lowers the interrupt line exactly when nothing is being transmitted |
| Link.Assist.ReadRxPort | libz80e/src/ti/hardware/link.c:72-91 | the receive port |
| Link.Assist.WriteTxPort | libz80e/src/ti/hardware/link.c:116-125 | the transmit port, which drops a byte while the last one is pending |
| Link.Assist.ReceiveByte | libz80e/src/ti/hardware/link.c:156-170 | the host's send, refused while a byte is pending |
| Link.Assist.ReadTxBuffer | libz80e/src/ti/hardware/link.c:172-183 | the host's take |
| Link.Assist.WriteEnablePort | libz80e/src/ti/hardware/link.c:55-70 | the interrupt mask and what it does to the line |
| Jumps.JumpIf | libz80e/src/core/cpu.c:1419-1424 | JP cc,nn lands on nn exactly when the bit of the F byte that cc names has the value its low bit asks for, else behind itself; only PC and R change, 10 cycles |
| Jumps.JumpRelativeIf | libz80e/src/core/cpu.c:1164-1174 | the same of JR cc,d, with the target a signed byte away and left in WZ; 12 cycles or 7 |
| Jumps.CallIf | libz80e/src/core/cpu.c:1469-1476 | the same of CALL cc,nn, which when taken leaves the address behind itself on the stack, high byte first; 17 cycles or 10 |
| Jumps.ReturnIf | libz80e/src/core/cpu.c:1384-1390 | the same of RET cc, which when taken goes where the word on top of the stack points; 11 cycles or 5 |
| Jumps.CondHolds | libz80e/src/core/cpu.c:492-505 | which bit of F, with which value, each of the eight conditions is |
| Jumps.ReturnsBehindCall | libz80e/src/core/cpu.c:1469-1482 | a RET, of any kind that is taken, at the bottom of a called routine that kept SP and the two stack bytes lands behind the CALL or RST with SP as before |
| Jumps.Restart | libz80e/src/core/cpu.c:1517-1521 | RST calls the address its three middle bits name |
| Logic.LogicBits | libz80e/src/core/cpu.c:576-587 | after AND, XOR and OR, bit by bit of A: both, exactly one, either; each of the eight conditions on F follows the new A (PE an even number of ones, M the top bit), carry is clear, and nothing else changes but PC and R |
| Logic.WithItself | libz80e/src/core/cpu.c:576-587 | XOR A gives 0 with Z and PE set, AND A and OR A keep A; carry is clear after all three |
| Logic.XorTwice | libz80e/src/core/cpu.c:580-583 | XOR with the same byte twice restores A |
| Logic.CompareHolds | libz80e/src/core/cpu.c:588-596 | after CP each condition on F tells the order of A and the operand: C below, NC not below, Z equal, NZ different; A and the rest unchanged |
| Logic.SignedLess | libz80e/src/core/cpu.c:588-596 | after CP, S differs from PV exactly when A is below the operand as two's complement numbers |
| Logic.CompareThenBranch | libz80e/src/core/cpu.c:492-505 | CP and a conditional JP, JR, CALL or RET behind it: taken exactly when the order of A and the operand is what the condition names |
| Logic.LogicThenBranch | libz80e/src/core/cpu.c:492-505 | the same behind AND, XOR and OR, by zero, parity and top bit of the result |
| Logic.AddsExactly | libz80e/src/core/cpu.c:534-575 | ADD, ADC, SUB, SBC: A and carry are together the exact sum or difference, PV tells whether the signed result fits, Z and S are those of A |
| Shifts.ShiftStep | libz80e/src/core/cpu.c:599-664 | RLC, RRC, RL, RR, SLA, SRA, SLL and SRL on every operand: where each bit of the result comes from, carry the bit shifted out, and the conditions of the result |
| Shifts.AccumulatorStep | libz80e/src/core/cpu.c:1299-1338 | RLCA, RRCA, RLA and RRA move the bits of A likewise and keep S, Z and PV |
| Shifts.BitStep | libz80e/src/core/cpu.c:942-950 | BIT sets Z exactly when the bit is clear and changes only F |
| Shifts.ResSetStep | libz80e/src/core/cpu.c:951-968 | RES and SET make the one bit what they say, leave the other seven, and no flag changes |
| Shifts.LeftDoubles | libz80e/src/core/cpu.c:626-631 | RL over byte strings of any length, low byte first, doubles the number and adds the carry, with the exact carry out |
| Shifts.RightHalves | libz80e/src/core/cpu.c:632-637 | RR over byte strings, high byte first, halves it, the remainder in carry |
| Loads.Load | libz80e/src/core/cpu.c:1374-1377 | LD r,r', LD r,(HL) and LD (HL),r copy one operand and change nothing else |
| Loads.LoadByte | libz80e/src/core/cpu.c:1279-1295 | LD r,n and LD (HL),n |
| Loads.Count | libz80e/src/core/cpu.c:1255-1278 | INC and DEC on every operand: one more or less modulo 256, PV on the signed overflow, carry kept |
| Loads.CountAndJump | libz80e/src/core/cpu.c:1150-1158 | DJNZ counts B down and jumps while it is not 0 |
| Loads.Delay | libz80e/src/core/cpu.c:1150-1158 | a DJNZ onto itself goes round B times, 256 for 0, and takes 13 B - 5 cycles |
| Loads.LoadWord | libz80e/src/core/cpu.c:1179-1182 | LD rp,nn, low byte first |
| Loads.CountWord | libz80e/src/core/cpu.c:1243-1254 | INC rp and DEC rp, modulo 2^16, no flag touched |
| Loads.AddWord | libz80e/src/core/cpu.c:1183-1193 | ADD HL,rp: HL and carry are together the exact sum; S, Z and PV stay |
| Loads.AbsoluteStep | libz80e/src/core/cpu.c:1207-1240 | LD (nn),HL, LD HL,(nn), LD (nn),A and LD A,(nn) |
| Loads.AbsoluteBack | libz80e/src/core/cpu.c:1207-1240 | what LD (nn),HL stored, LD HL,(nn) loads |
| Loads.ThroughPair | libz80e/src/core/cpu.c:1199-1228 | LD (BC),A, LD (DE),A and their inverses |
| Loads.PushStep | libz80e/src/core/cpu.c:1480-1483 | PUSH, high byte at the higher address |
| Loads.PopStep | libz80e/src/core/cpu.c:1393-1396 | POP, which takes that word |
| Loads.PopGetsPushed | libz80e/src/core/cpu.c:259-268 | POP of one pair behind PUSH of another copies the word, AF included, and restores SP |
| Loads.Exchanges | libz80e/src/core/cpu.c:1146-1149 | EX AF,AF', EXX, EX DE,HL, LD SP,HL and JP (HL), register by register |
| Loads.SwapsWithStack | libz80e/src/core/cpu.c:1446-1451 | EX (SP),HL swaps HL with the word on top of the stack |
| Loads.AccumulatorOnly | libz80e/src/core/cpu.c:1344-1366 | CPL, SCF and CCF |
| Operands.HeldWith | libz80e/src/core/cpu.c:382-433 | an operand is what was put there, and no other operand moves |
| Registers.FlagPlaces | libz80e/include/z80e/core/registers.h:9-30 | which bit of F each flag is |
| Extended.AddWithCarry | libz80e/src/core/cpu.c:1007-1028 | ADC HL,rp and SBC HL,rp: HL and carry are together the exact sum or difference, Z of all sixteen bits, PV on the signed overflow |
| Extended.Negate | libz80e/src/core/cpu.c:1040-1049 | NEG: old and new A add up to 0 modulo 256; carry, Z, S and PV |
| Extended.MoveWord | libz80e/src/core/cpu.c:1029-1039 | LD (nn),rp and LD rp,(nn), low byte at nn |
| Extended.TurnDigits | libz80e/src/core/cpu.c:1093-1116 | RLD and RRD turn the low digit of A and the two digits at HL round |
| Extended.DigitsComeRound | libz80e/src/core/cpu.c:1093-1116 | RRD undoes RLD, and three RLDs undo each other |
| Extended.DecimalProgram | libz80e/src/core/cpu.c:507-530 | the program ADC, DAA (SBC, DAA), any operand, run in place: A and carry are together the exact decimal sum or difference |
| Extended.SpecialLoads | libz80e/src/core/cpu.c:1067-1092 | LD I,A, LD R,A, LD A,I and LD A,R, with IFF2 in PV |
| Extended.SetsMode | libz80e/src/core/cpu.c:1063-1066 | IM 0, 1 and 2 under each of their opcodes |
| Extended.InterruptReturn | libz80e/src/core/cpu.c:1050-1062 | RETN and RETI return and change no flip-flop |
| Devices.DirectPort | libz80e/src/core/cpu.c:1438-1445 | OUT (n),A and IN A,(n): port, byte and order of the events, no flag touched |
| Devices.InputC | libz80e/src/core/cpu.c:977-994 | IN r,(C) |
| Devices.AnswersMean | libz80e/src/core/cpu.c:977-994 | what it leaves: the byte in the register, S, Z and parity of the byte, carry kept |
| Devices.OutputC | libz80e/src/core/cpu.c:995-1006 | OUT (C),r, with 0xFF for the register that is not there |
| Devices.BlockTransfer | libz80e/src/core/cpu.c:691-850 | INI, IND, OUTI, OUTD and their repeating forms: one byte between port C and the byte at HL, B counted down |
| Devices.OutputBlock | libz80e/src/core/cpu.c:784-794 | OTIR and OTDR run to completion: B bytes (256 for 0) from HL on appear at port C in order, with the wrap of HL, Z set, 21 B - 5 cycles |
| Indexed.IndexedWorks | libz80e/src/core/cpu.c:382-433 | INC, DEC and the ALU operations under DD (FD) do near IX (IY) what the plain opcode, run from a state with HL aimed there, does at HL; HL stays |
| Indexed.LoadsNear | libz80e/src/core/cpu.c:435-450 | LD r,(IX+d) and LD (IX+d),r, with H and L themselves as the register |
| Indexed.StoresNear | libz80e/src/core/cpu.c:1279-1295 | LD (IX+d),n |
| Indexed.BitsNear | libz80e/src/core/cpu.c:934-972 | the CB table under DD and FD, likewise |
| Timing.MainCycles | libz80e/src/core/cpu.c:1137-1525 | the cycles charged are those of the Z80 CPU User Manual, taken and not taken, but for INC (HL), DEC (HL) and the immediate ALU operations, with the exact difference |
| Timing.ExtendedCycles | libz80e/src/core/cpu.c:973-1136 | likewise behind ED, but for RETN and RETI |
| Timing.BitCycles | libz80e/src/core/cpu.c:934-972 | likewise behind CB, but for operands at HL |
| Timing.IndexedCycles | libz80e/src/core/cpu.c:346-378 | likewise near an index register, but for the forms that write |
| Timing.IndexedBitCycles | libz80e/src/core/cpu.c:934-972 | behind DD CB none of the counts is the manual's |
| RunLoop.CountsDown | libz80e/src/runloop/runloop.c:168-188 | over any windows a timer whose countdown has not run out has it shortened by exactly their cycles, and a free slot stays as it is |
| RunLoop.FirstTick | libz80e/src/runloop/runloop.c:168-188 | over any windows a timer is first planned in the one in which the cycles so far pass its countdown, at exactly the remaining distance, in no earlier one, and has its whole period again when that window ends; a free slot is never planned |
| RunLoop.LaterOn | libz80e/src/runloop/runloop.c:156-190 | going on after some windows is going on from the table they leave, so the same holds of every later tick |
| Expressions.WholeOutcome | libz80e/src/debugger/commands/commands.c:113-128 | a printed tree over + - * evaluates to its value over the unbounded integers, modulo 2^16 |
| Expressions.Division | libz80e/src/debugger/commands/commands.c:121-124 | the outcomes q of a / b and r of a % b satisfy a = q b + r with r < b; there is none exactly for b = 0 |
| Expressions.MixedPrecedence | libz80e/src/debugger/commands/commands.c:192-209 | a + b * c, a * b + c and a + b / c, in plain arithmetic |
| Flash.ProgramsItsByte | libz80e/src/ti/memory.c:63-65 | after a program command a bit of its byte is set exactly when it was set before and is set in the byte written; an erased byte becomes that byte |
| Flash.FourWritesProgram | libz80e/src/ti/memory.c:118-196 | end to end: the four writes of the program command, from rest, program the last byte at the last address and nothing else |
| Flash.SixWritesErase | libz80e/src/ti/memory.c:118-196 | end to end: the six writes of the sector erase set the sector of the last address to 0xFF and nothing else |
| Flash.StoresInRam | libz80e/src/ti/memory.c:159-168 | a store to RAM reads back at every address its byte shows at, and every other address reads as before |
| MemoryMapping.LastWins | libz80e/src/ti/hardware/memorymapping.c:57-155 | after any port writes each port holds what was last written to it |
| MemoryMapping.NarrowWindows | libz80e/src/ti/hardware/memorymapping.c:10-55 | in narrow mode the bytes last written to the two paging ports and the RAM port each pick their window of 16K, page by page; the first window is flash page 0 |
| Lcd.Commands | libz80e/src/ti/hardware/t6a04.c:99-131 | which field each command byte sets, to what, and that it sets nothing else |
| Lcd.Plots | libz80e/src/ti/hardware/t6a04.c:86-222 | from any state, word length, X, Y and direction set by commands and one word written: it shows at row X and column Y and nowhere else, and the pointer is one word or row on or back |
| Lcd.StepsCancel | libz80e/src/ti/hardware/t6a04.c:144-172 | a pointer step and one back cancel if and only if Y is not at its very end |
| InterruptController.SevenLatches | libz80e/src/ti/hardware/interrupts.c:6-261 | for every history the bits of ports 3 and 4 are seven latches that know nothing of each other, each set by its cause while enabled and cleared by acknowledging or disabling it, and the line is up exactly when one is pending |
| InterruptController.LatchStep | libz80e/src/ti/hardware/interrupts.c:20-208 | one operation, bit by bit of the two ports |
| Link.NoByteUnheard | libz80e/src/ti/hardware/link.c:55-91 | for every interleaving: while a byte waits that the enable byte asks to hear of, the line is up |
| Link.RoomUnheard | libz80e/src/ti/hardware/link.c:82-84 | the same of room to write holds but for one step, given exactly: reading a received byte while there is room |

## Left out

- Logging, hooks (none are installed, so a hook call changes nothing), SDL, TUI and browser front ends, readline, sockets, `poll` and the wall clock in `runloop_tick`.
- The memory callbacks of the processor are a flat 64K map, and its port devices a list of answers, each a byte and the level of the interrupt line afterwards; the banked memory is a model of its own.
- Cycle counts of a pass are unbounded integers; they stay below 256, where the source's own type holds them.
- `cpu_read_register_word` and its siblings, and `print_state`, which only serve the debugger.
- Aliasing inside the processor: its register file and its memory are values that the class reassigns, and a register pair is one word whose bytes are read and replaced.
- The seven like tests of each interrupt handler are one method called for each cause, and the causes are a set.
- Non-maskable interrupts, which the source does not have.
- Cpu.Cpu.Execute: assumes that the call returns; `Runs.Termination` gives the exact condition.
- Runs.Overshoot: assumes that no second index prefix follows a pending one; `Runs.LastInstruction` bounds the overshoot without that assumption, by the cost of the last instruction.
- BlockOps.LdirRun: assumes that the copies leave the instruction's own two bytes as they were and that no interrupt is accepted on the way; `CpuInterrupts.InterruptedBlock` covers an interrupt between rounds.
- BlockOps.CpirRun: assumes that no interrupt is accepted on the way.
- The theorems about single instructions start between instructions, with no interrupt about to be taken (`Steps.Quiet`); which interrupts are taken when is `CpuInterrupts.dfy`.
- Devices.OutputBlock: assumes that interrupts are off. INIR and INDR are covered byte by byte (`Devices.BlockTransfer`), since their bytes may land on the instruction itself.
- Indexed.IndexedWorks: covers the forms that work on the operand in place or add it to A; the loads are `Indexed.LoadsNear` and `Indexed.StoresNear`.
- Disassembler.DecodersAgree: does not cover a second DD or FD; `Disassembler.StackedPrefixDisagrees` shows that the two then never agree.
- The printed mnemonics of the disassembler, source maps, symbols and the KnightOS calls; the external object library is not part of this model.
- Timer frequencies are whole periods in cycles, at least 1; the frequencies themselves are floating point in the source. `WriteTimerSpeed` takes the eight periods as parameters for the same reason.
- RunLoop.Loop.TickCycles: the processor enters as a bound on how far each call overshoots (29, by `Runs.Overshoot`, without stacked prefixes); tick handlers that add, remove or re-speed timers within a window are not modelled.
- RunLoop.Loop.Dispatch: claims nothing about lateness after the last tick, where the source reads slots beyond the plan; those slots hold arbitrary values here.
- RunLoop.QSort: stands for the C library's sort, of which only an ascending permutation is used.
- The phase of a timer over several windows: the reload forgets the rest of the window.
- `asic_set_clock_rate`, which is not a rescaling.
- Characters, spaces and operands of expressions (the model starts from tokens), dereferences in braces, and malformed expressions, on which the source does not leave its loops. A product is taken modulo 2^16; the source's intermediate `int` may overflow.
- Expressions.Evaluator.Evaluate: assumes that the tokens have an outcome, that is, that they neither hang the source, overrun its stacks nor divide by zero; `Expressions.EvaluatesTree` shows that printed trees have one.
- Flash.Mmu.WriteByte: assumes that bank pages are in range; `MemoryMapping.ReloadSafe` gives the exact condition under which the paging ports keep them so.
- The effect of the device status port on the timers is `InterruptController.Controller.WriteTimerSpeed`; the port itself only switches the mapping mode here.
- The TI-84+ C Silver Edition's colour LCD, the LCD's status read, its reset line and what is drawn from its memory.
- The interrupt line is followed for the controller's own operations; the link assist writes to the same line, and `Link.dfy` models what it writes.
- InterruptController.EveryHistory: assumes that no other device removes the controller's timers.
- Crystal timers, the keyboard, speed, status and link-line ports.
