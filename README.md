# Gochip-8 interpreter core in Dafny

This project models the interpreter core of Gochip-8, a CHIP-8 emulator written in Go (`chip/chip.go`). The machine has:

- 4096 bytes of memory;
- a 32×64 monochrome display;
- sixteen byte registers V0..VF;
- the 16-bit registers `pc`, `I` and `sp`;
- the delay and sound timers;
- a `redraw` flag.

The core is what one machine step does:

- fetch a big-endian word at `pc`;
- decode it into one of 34 instruction kinds, or INVALID;
- execute it;
- test the new `pc` against a list of breakpoints.

Beside the step there are the 60 Hz timer tick and the initial layout built by `NewChip`.

The project has four modules:

- `Instructions` (`instructions.dfy`): the instruction word, its operand fields, the `Instruction` record, and `decode` as a total function. It also holds the opcode table (`00E0`, `8XY4`, `FX33`, …), which is proved to classify words exactly as `decode` does.
- `Semantics` (`semantics.dfy`): the reference semantics. It has the machine state as a value, and one function per operation and per instruction kind. Out-of-range memory accesses are a Go runtime panic; they appear as preconditions (`CanFetch`, `ExecSafe`, `StepSafe`). A jump to its own address and an INVALID word end the step with a `Status` instead of a panic.
- `Machine` (`chip.dfy`): the `Chip` struct as a class. Memory, registers and display are arrays updated in place, and `pc`, `I`, `sp`, the timers and `redraw` are fields. `execute`'s single switch is split by instruction group over `Execute`, `ExecuteEffect`, `ExecuteFlow`, `ExecuteRegisters`, `ExecuteSpecial`, `ExecuteMemory`, `Arithmetic`, `ArithmeticWithFlag` and `Shift`, and DXYN's loops over `DrawSprite`, `DrawRow` and `DrawPixel`. Within them the statements and loops are Go's, except that 8XY4's if/else on the flag is written as one assignment `V[0xF] := Flag(…)`. Each is proved to leave the machine in the state the reference semantics gives for the old state (`Abs() == Exec(old(Abs()), …).next`). The DXYN sprite loops carry invariants stating which pixels have been flipped and whether a collision has been seen.
- `Properties` (`properties.dfy`): what the semantics promise. It covers:
  - fetch/decode addressing;
  - the skips and the self-jump halt;
  - CALL/RET round trips, and what a step does on a 2NNN or 00EE word;
  - the flag behaviour of 8XYn;
  - clipping, XOR and collision for DXYN, and that drawing twice restores the screen;
  - BCD digits;
  - the FX55/FX65 round trip;
  - saturating timers;
  - the `NewChip` layout;
  - which instructions may touch the screen, memory and timers.

Some of the source's behaviour departs from the usual CHIP-8 description. The model keeps the behaviour as written and pins it down with lemmas:

- 8XY4 never sets the carry, because the comparison is on the wrapped byte.
- 8XY5 sets VF to 1 whether or not it borrows.
- 8XY7 adds Vy to Vx.
- 8XYE stores 0x80 rather than 1 in VF.
- In 8XYn, VF is written before Vx is computed. With x = F the result then overwrites the flag, and with y = F the operand is the flag just written, so the four statements above hold for x, y ≠ F.
- DXYN never clears VF.
- FX29 multiplies the whole of Vx by 5.
- EX9E and EXA1 do nothing.
- 5XYN accepts any N.
- A timer tick changes only the two timers. The timer goroutine follows each tick with a call to `Draw`, which renders only when `redraw` is set and then clears it; no tick requests a redraw.

Bytes and words are the integer subtypes `u8` and `u16`. Every `uint8` and `uint16` wrap is written out as `% 0x100` or `% 0x1_0000`. The bitwise operations `And8`, `Or8` and `Xor8` are defined bit by bit by a recursive `Bitwise`. `Shl8` multiplies by a power of two modulo 256, and `Shr1` halves. The operand getters are written with division and remainder, which equal the source's mask-and-shift on unsigned words.

## Model

| member | source | states |
|---|---|---|
| Instructions.Group | chip/chip.go:91-93 | the high nibble of the word, below 0x10 |
| Instructions.X | chip/chip.go:94-96 | the second nibble, below 0x10 |
| Instructions.Y | chip/chip.go:97-99 | the third nibble, below 0x10 |
| Instructions.N | chip/chip.go:100-102 | the low nibble, below 0x10 |
| Instructions.NNN | chip/chip.go:106-108 | the low twelve bits, below 0x1000 |
| Instructions.NN | chip/chip.go:103-105 | the low byte of the word; FieldsRecompose proves it is y·16 + n and the low part of NNN |
| Instructions.FieldsRecompose | chip/chip.go:91-108 | group, x, y and n put back together give the word; NN is y·16+n and NNN is x·256+NN |
| Instructions.NibblesOfBytes | chip/chip.go:91-102 | the group and x are the two nibbles of the word's high byte, y and n those of its low byte |
| Instructions.BitOfBitwise | chip/chip.go:392-397 | bit m of the and, or and xor of two values is the operation applied to their bits m, for every bit below the width; above it the bit is clear |
| Instructions.AndSingleBit | chip/chip.go:413 | masking with a single bit 2^m keeps exactly that bit: the result is 2^m when bit m is set and 0 otherwise |
| Instructions.TopBit | chip/chip.go:423 | the top bit of an m+1-bit number is set exactly when the number is at least 2^m |
| Instructions.ShiftLeftByOne | chip/chip.go:424 | `a << 1` on a byte is 2·a mod 256 |
| Instructions.And8 | chip/chip.go:394-395 | Go's `&` on bytes; BitOfBitwise proves each bit is the and of the operands' bits, and AndSingleBit, LowBit and HighBit state what a one-bit mask keeps |
| Instructions.Or8 | chip/chip.go:392-393 | Go's bitwise or on bytes; BitOfBitwise proves each bit is the or of the operands' bits |
| Instructions.Xor8 | chip/chip.go:396-397 | Go's `^` on bytes; BitOfBitwise proves each bit is set exactly when the operands' bits differ |
| Instructions.Shl8 | chip/chip.go:423-424 | `a << k` on a byte, the bits past bit 7 lost; ShiftLeftByOne gives k = 1 as 2·a mod 256 |
| Instructions.Shr1 | chip/chip.go:413-414 | `a >> 1` on a byte, the low bit lost; ShrFlagIsLowBit pairs it with the flag |
| Instructions.Decode | chip/chip.go:254-255 | the instruction keeps the raw word and is stamped with the address two below `pc`, the address the word was fetched from |
| Instructions.KindOf | chip/chip.go:256-344 | the switch of `decode` on group, x, n and the low byte; DecodeFollowsTable and DecodeInvalidExactly prove it classifies exactly as the opcode table |
| Instructions.DecodeFollowsTableByGroup | chip/chip.go:256-344 | the table agreement for the kinds fixed by the high nibble (1NNN..7XNN, ANNN..DXYN) |
| Instructions.DecodeFollowsTableByNibble | chip/chip.go:256-344 | the table agreement for groups 8 and 9, told apart by the low nibble |
| Instructions.DecodeFollowsTableByByte | chip/chip.go:256-344 | the table agreement for groups 0 and E, told apart by the low byte |
| Instructions.DecodeFollowsTableByTimerByte | chip/chip.go:256-344 | the table agreement for FX07, FX0A, FX15 and FX18 |
| Instructions.DecodeFollowsTableByIndexByte | chip/chip.go:256-344 | the table agreement for FX1E and FX29 |
| Instructions.DecodeFollowsTableByMemoryByte | chip/chip.go:256-344 | the table agreement for FX33, FX55 and FX65 |
| Instructions.DecodeFollowsTable | chip/chip.go:254-344 | for every valid kind, decode yields that kind exactly when the word matches its opcode pattern (fixed hex digits equal, X/Y/N digits free) |
| Instructions.DecodeInvalidExactly | chip/chip.go:254-344 | decode is INVALID exactly when the word matches no pattern, and otherwise the matching pattern is unique and is that of the decoded kind |
| Semantics.FetchWord | chip/chip.go:245-252 | the fetched word's high byte is `memory[pc]` and its low byte is `memory[pc+1]` |
| Semantics.Cleared | chip/chip.go:353-355 | 00E0: every pixel is off, a redraw is requested, nothing else changes |
| Semantics.Digits | chip/chip.go:480-483 | the three values computed for FX33 are decimal digits that spell Vx (100h + 10t + o = Vx) |
| Semantics.Exec | chip/chip.go:346-500 | `execute`: INVALID gives an error carrying the word, a jump to its own address halts, and in both cases the state is unchanged |
| Semantics.Effect | chip/chip.go:346-500 | the case of `execute` for every kind that completes, one reference state per kind; ExecFrame states which parts of the state each kind may change |
| Semantics.CopyBytes | chip/chip.go:141-142 | Go's `copy` into a slice of memory; CopyBytesAt states it element by element |
| Semantics.Initial | chip/chip.go:133-146 | the machine `NewChip` builds; InitialLayout and InitialRegisters state its memory and registers |
| Semantics.Ticked | chip/chip.go:236-243 | `timer_int`: each timer drops by one only when positive |
| Semantics.TickedTimes | chip/chip.go:236-243 | k calls of `timer_int`; TicksSaturate proves they leave each timer at max(0, t − k) |
| Semantics.Fetched | chip/chip.go:245-252 | the state `fetch` leaves: `pc` advanced by two as a `uint16`; FetchThenDecode proves nothing else changes |
| Semantics.Returned | chip/chip.go:356-360 | 00EE: `pc` read big-endian from the two bytes at `sp`, `sp` raised by two; CallThenReturn pairs it with Called |
| Semantics.Called | chip/chip.go:368-373 | 2NNN: the return address pushed low byte first below `sp`, then `pc` = NNN; CallThenReturn proves RET undoes it |
| Semantics.SkipIf | chip/chip.go:374-385 | the skip of 3XNN, 4XNN, 5XYN and 9XY0 (lines 425-428); SkipsExactlyWhenConditionHolds proves when it advances `pc` |
| Semantics.Arith | chip/chip.go:390-424 | 8XY0..8XYE with VF written before Vx is computed; the flag lemmas and ArithFrame state what each leaves in Vx and VF |
| Semantics.RowsDrawn | chip/chip.go:439-460 | the sprite rows DXYN draws before its bottom-edge break |
| Semantics.ColsDrawn | chip/chip.go:442-457 | the sprite columns DXYN draws before its right-edge break |
| Semantics.SpriteBit | chip/chip.go:445-446 | the Go mask test on bit 7 − col of a sprite row; SpriteBitIsBit proves it holds exactly when that bit is set |
| Semantics.Under | chip/chip.go:440-446 | a screen pixel lies under a set bit of the clipped sprite |
| Semantics.Collides | chip/chip.go:447-449 | some lit pixel lies under a set sprite bit; DrawFlagMeansErased proves this is exactly when a pixel is switched off |
| Semantics.Drawn | chip/chip.go:436-462 | DXYN as one value: pixels under set bits flipped, VF set on a collision, `redraw` set; DrawStaysInRectangle, DrawFlagMeansErased and DrawTwiceRestoresScreen state its properties |
| Semantics.BcdStored | chip/chip.go:480-487 | FX33: the digits of Vx written at I..I+2; BcdFrame proves nothing else changes |
| Semantics.RegsStored | chip/chip.go:488-491 | FX55: V0..Vx written at I..I+x; StoreRegistersFrame states it |
| Semantics.RegsLoaded | chip/chip.go:492-495 | FX65: V0..Vx read from I..I+x; StoreThenLoadRegisters pairs it with RegsStored |
| Semantics.Next | chip/chip.go:602-604 | the instruction a step decodes: the word at `pc`, decoded at `pc` + 2 |
| Semantics.Stepped | chip/chip.go:602-610 | `step` up to its error check: fetch, decode, execute; StepOnCall, StepOnReturn and StepOnInvalidWord state it on those words |
| Semantics.AtBreakpoint | chip/chip.go:611-616 | the breakpoint test after a completed step; Chip.Step and Chip.OnBreakpoint compute it with the source's loop |
| Machine.Chip.constructor | chip/chip.go:133-146 | `NewChip`: the new machine equals the initial state for the ROM bytes |
| Machine.Chip.CopyIntoMemory | chip/chip.go:141-142 | Go's `copy` into memory: as many bytes as fit, the rest untouched |
| Machine.Chip.TimerTick | chip/chip.go:236-243 | `timer_int` updates the timers as the saturating tick does |
| Machine.Chip.Fetch | chip/chip.go:245-252 | returns the big-endian word at `pc` and advances `pc` by two |
| Machine.Chip.ClearDisplay | chip/chip.go:353-355 | 00E0 on the display array |
| Machine.Chip.ClearedIsBlank | chip/chip.go:354 | a display array with every pixel off is the blank screen |
| Machine.Chip.Return | chip/chip.go:356-360 | 00EE on `pc` and `sp` |
| Machine.Chip.Call | chip/chip.go:368-373 | 2NNN: two stack bytes and `sp`, then `pc` |
| Machine.Chip.Arithmetic | chip/chip.go:390-424 | 8XY0..8XYE on the register array, VF written before Vx |
| Machine.Chip.ArithmeticWithFlag | chip/chip.go:398-421 | 8XY4, 8XY5 and 8XY7: VF written from the comparison, then Vx |
| Machine.Chip.Shift | chip/chip.go:412-414 | 8XY6 and 8XYE (lines 422-424): VF gets the masked bit, then Vx is shifted |
| Machine.Chip.DrawSprite | chip/chip.go:436-462 | DXYN: the row loop with its bottom-edge break leaves display, VF and `redraw` as the reference draw says |
| Machine.Chip.DrawRow | chip/chip.go:440-460 | one sprite row: the bit loop with its right-edge break flips the pixels under set bits and sets VF on a collision |
| Machine.Chip.DrawPixel | chip/chip.go:443-453 | one pixel: flipped when its sprite bit is set, VF set to 1 when it was on, every other pixel and register kept |
| Machine.Chip.PaintedIsDrawn | chip/chip.go:436-462 | once every drawn row is painted, the display and VF are those of the reference draw |
| Machine.CoordinateNoWrap | chip/chip.go:441-443 | the `uint8` coordinate sums do not wrap for pixels on the screen |
| Machine.Chip.StoreDigits | chip/chip.go:480-487 | FX33 on memory |
| Machine.Chip.StoreRegisters | chip/chip.go:488-491 | FX55: the register loop stores V0..Vx at I.. |
| Machine.Chip.LoadRegisters | chip/chip.go:492-495 | FX65: the register loop loads V0..Vx from I.. |
| Machine.Chip.Execute | chip/chip.go:346-500 | `execute`: status and new state are those of the reference semantics |
| Machine.Chip.ExecuteEffect | chip/chip.go:346-500 | the kinds that always complete, each handed to the method for its group, give the reference effect |
| Machine.Chip.ExecuteFlow | chip/chip.go:353-385 | the control-flow cases of `execute` (00E0, 00EE, 2NNN, skips, BNNN, EX9E, EXA1) |
| Machine.Chip.ExecuteRegisters | chip/chip.go:386-471 | the cases that write one register (6XNN, 7XNN, 8XYn, CXNN, FX07, FX0A) |
| Machine.Chip.ExecuteSpecial | chip/chip.go:429-479 | the cases that set `I` or a timer (ANNN, FX15, FX18, FX1E, FX29) |
| Machine.Chip.ExecuteMemory | chip/chip.go:436-495 | DXYN, FX33, FX55 and FX65 |
| Machine.Chip.OnBreakpoint | chip/chip.go:611-616 | true exactly when `pc` is in the breakpoint list |
| Machine.Chip.Step | chip/chip.go:602-617 | `step`: fetch, decode, execute; a breakpoint is reported exactly when the instruction completed and the new `pc` is a breakpoint |
| Properties.LowBit | chip/chip.go:413 | `Vx & 0x01` is Vx mod 2 |
| Properties.HighBit | chip/chip.go:423 | `Vx & 0x80` is 0x80 or 0 according to the high bit |
| Properties.SpriteBitIsBit | chip/chip.go:445-446 | `bits & (0x01 << (7 - col)) > 0` holds exactly when bit 7 − col of the sprite byte is set |
| Properties.FetchThenDecode | chip/chip.go:245-255 | fetch moves `pc` by exactly 2 and changes nothing else; the operand fields come from the two bytes; the decoded address is the old `pc` |
| Properties.DecodeExamples | chip/chip.go:256-342 | 0000, 01E0, 8XY8, 9XY1 and EX9F are INVALID; 5XY7 is SE Vx, Vy |
| Properties.StepOnInvalidWord | chip/chip.go:496-497 | an INVALID word ends the step with an error carrying that word, with no breakpoint reported |
| Properties.SkipsExactlyWhenConditionHolds | chip/chip.go:374-385 | 3XNN, 4XNN, 5XYN and 9XY0 skip the next word exactly when their condition holds and change nothing else |
| Properties.KeySkipsDoNothing | chip/chip.go:463-466 | EX9E and EXA1 never skip and change nothing |
| Properties.JumpHaltsExactlyOnSelfLoop | chip/chip.go:361-367 | 1NNN halts exactly when NNN + 2 equals `pc`; otherwise only `pc` changes, to NNN |
| Properties.StepHaltsOnJumpToItself | chip/chip.go:361-367 | a step on a 1NNN stored at address NNN halts with only `pc` advanced |
| Properties.JumpPlusV0 | chip/chip.go:431-432 | BNNN sets `pc` to V0 + NNN, without wrapping |
| Properties.CallThenReturn | chip/chip.go:356-373 | CALL stores the return address big-endian below `sp`; a following RET restores `pc` and `sp`, and only the two stack bytes differ |
| Properties.StepOnCall | chip/chip.go:368-373 | a step on a word whose high nibble is 2 is the CALL of its low twelve bits, made from the address after the word |
| Properties.StepOnReturn | chip/chip.go:356-360 | a step on a 00EE word is the RET |
| Properties.ExecCallThenReturn | chip/chip.go:356-373 | executing a CALL and then a RET brings `pc` and `sp` back; registers, I, timers and screen are unchanged |
| Properties.ArithFrame | chip/chip.go:390-424 | 8XYn changes only Vx and VF; the logic ops and 8XY0 change only Vx |
| Properties.AddNeverCarries | chip/chip.go:398-404 | 8XY4 with x, y ≠ F: VF is 0 for every pair of values and Vx is the sum mod 256 |
| Properties.AddCarryExample | chip/chip.go:398-404 | 0xFF + 0x01 gives Vx = 0 with VF = 0 |
| Properties.SubAlwaysSetsFlag | chip/chip.go:405-411 | 8XY5 with x, y ≠ F: VF is 1 for every pair of values and Vx is the difference mod 256 |
| Properties.SubnAdds | chip/chip.go:415-421 | 8XY7 with x, y ≠ F: VF is 1 exactly when Vy > Vx, and Vx becomes (Vx + Vy) mod 256 |
| Properties.ShrFlagIsLowBit | chip/chip.go:412-414 | 8XY6 with x ≠ F: VF is the low bit of Vx, and Vx is halved (x = F is FlagThenResultWhenXIsF and FlagOpsOnFlagRegister) |
| Properties.ShlFlagIsHighBitMask | chip/chip.go:422-424 | 8XYE with x ≠ F: VF is 0x80 or 0, and Vx is doubled mod 256 (x = F is FlagThenResultWhenXIsF and FlagOpsOnFlagRegister) |
| Properties.FlagThenResultWhenXIsF | chip/chip.go:398-424 | with x = F and y ≠ F the result overwrites the flag: 8FY6 and 8FYE leave VF = 0, 8FY4 leaves Vy, 8FY5 leaves 1 − Vy, 8FY7 leaves Vy plus the flag it computed |
| Properties.OperandIsFlagWhenYIsF | chip/chip.go:398-421 | with y = F and x ≠ F the operand is the flag just written: 8XF4 leaves Vx unchanged with VF = 0, 8XF5 leaves Vx − 1 with VF = 1, 8XF7 adds its own flag to Vx |
| Properties.FlagOpsOnFlagRegister | chip/chip.go:398-424 | with x = y = F, 8FF4, 8FF5, 8FF6, 8FF7 and 8FFE all leave VF = 0 |
| Properties.DrawStaysInRectangle | chip/chip.go:436-462 | only pixels inside the clipped sprite rectangle change; the sprite never wraps round |
| Properties.DrawFlagMeansErased | chip/chip.go:436-462 | a lit pixel is switched off exactly when the sprite collides; a collision sets VF to 1, and without one every register keeps its value; no register but VF ever changes; `redraw` is set |
| Properties.DrawTwiceRestoresScreen | chip/chip.go:436-462 | with x, y ≠ F, drawing the same sprite twice gives back the original screen; with x or y = F a collision rewrites the coordinate register, so the second draw may land elsewhere |
| Properties.SolidRowBits | chip/chip.go:445-446 | every column of a 0xFF sprite row is drawn |
| Properties.BlankNeverCollides | chip/chip.go:447-450 | a sprite drawn on a blank screen never collides |
| Properties.SolidRowExample | chip/chip.go:436-462 | a 0xFF row on a blank screen lights eight pixels without touching VF; drawing it again switches them off and gives VF = 1 |
| Properties.FontAddress | chip/chip.go:478-479 | FX29 sets I to 5·Vx with no masking: a hex digit's glyph for Vx < 16, past the font otherwise |
| Properties.DigitsExamples | chip/chip.go:480-487 | 195 → 1, 9, 5; 7 → 0, 0, 7; 255 → 2, 5, 5 |
| Properties.DigitsAreDecimal | chip/chip.go:480-483 | the FX33 digits are the unique decimal digits of Vx |
| Properties.BcdFrame | chip/chip.go:480-487 | FX33 writes the three digits at I, I+1 and I+2 and nothing else |
| Properties.StoreThenLoadRegisters | chip/chip.go:488-495 | FX65 over bytes written by FX55 restores V0..Vx and keeps Vx+1..VF |
| Properties.LoadAfterStoreIsIdentity | chip/chip.go:488-495 | FX65 right after FX55 changes nothing; neither moves I |
| Properties.StoreRegistersFrame | chip/chip.go:488-491 | FX55 writes V0..Vx at I..I+x and nothing else |
| Properties.TicksSaturate | chip/chip.go:236-243 | k ticks leave each timer at max(0, t − k) and change nothing else |
| Properties.CopyBytesAt | chip/chip.go:141-142 | Go's `copy`, element by element |
| Properties.InitialFont | chip/chip.go:141 | the font is at 0..79 |
| Properties.InitialRom | chip/chip.go:142 | the ROM is at 0x200 on, truncated at the end of memory |
| Properties.InitialZeros | chip/chip.go:133-146 | every other byte is zero |
| Properties.InitialLayout | chip/chip.go:133-146 | the font at 0..79 and the ROM from 0x200, truncated at the end of memory; zeros elsewhere |
| Properties.InitialRegisters | chip/chip.go:133-146 | `pc` = `sp` = 0x200; registers, I and timers zero; a blank screen; `redraw` set |
| Properties.ExecFrame | chip/chip.go:346-500 | only 00E0 and DXYN change the screen; only 2NNN, FX33 and FX55 change memory; only FX15 and FX18 change the timers |
| Properties.RedrawNeverCleared | chip/chip.go:143 | `NewChip` sets `redraw`, and no instruction of `execute` clears it |

## Left out

- `Draw`, `show_regs`, `show_mem` and `dump` render to the terminal and are not modelled. `Draw` also clears `redraw` after rendering (chip/chip.go:224); the model never clears it, so `redraw` stays true from `NewChip` on (chip/chip.go:143), whether or not 00E0 or DXYN has run (RedrawNeverCleared).
- The timer goroutine (`startTimer`, `go startTimer(c)`) is concurrency with `time.Sleep`. `TimerTick` is a separate operation a caller may run between steps.
- CXNN's time-seeded random number is an input: the random byte is a parameter of `Execute` and `Step`.
- FX0A's line read from standard input is an input: the parsed key byte is a parameter.
- `NewChip` reading the ROM file and exiting on an I/O error: the constructor takes the ROM bytes.
- `Run` is an unbounded loop of `step` and adds nothing beyond it. `main.go` is not part of this model.
- The panics become values: the halt on a jump to its own address is `Halt`, and an INVALID word is `InvalidInstruction(word)`. The `dump` before the panic is output and is not modelled.
- Semantics.Exec: on a jump to its own address the source calls `Draw` before it panics (chip/chip.go:364), and `Draw` clears `redraw` when it was set; `Exec` returns `Halt` with the state unchanged, `redraw` included.
- Machine.Chip.Execute: an instruction whose memory access would fall outside the 4096 bytes (a Go index panic) is excluded by a precondition (`ExecSafe`) rather than modelled as a panic.
- Machine.Chip.Step: the same holds for fetching at `pc` ≥ 0xFFF (`StepSafe`).
- Machine.Chip.Fetch: the same holds here, via `CanFetch`.
- Under these preconditions the `uint16` address sums `I + k` and `sp + 1` cannot wrap, so they are computed as plain integers.
