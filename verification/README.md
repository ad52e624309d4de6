# A verified model of the emulator core

This project models, in Dafny, the parts of the Photo Play emulator whose correctness is hardest to see
by reading: two peripheral chips, the port dispatcher, the analysis of the picture cipher, and two small
parsers and clocks. Each source file has its own modules. Code that updates state in place is a class, an
array algorithm or a loop, proved against a function on its state; the results are proved about those
functions, over every input, every run or every reachable state.

* **Timer** (`src/pit_exact.c`): `Pit` holds the device and its channels, `PitRuns` the invariant of all
  runs and the isolation of latched counts, `PitWaves` the closed waveforms of modes 0 to 3 in binary and
  BCD, `PitStrobe` those of modes 4 and 5, `PitFreeze` when a square wave stops; `PitPrograms` goes from the
  bytes a driver writes to what OUT does and to the bytes it reads back.
* **DMA controller** (`src/dma.c`, the XT state machine): `Dma` holds the state and every operation,
  `DmaController` the class that runs them, `DmaArbitration` priority and ownership, `DmaFairness` waiting
  over whole runs, `DmaRefresh` the refresh latch, `DmaTransfers` and `DmaUnits` whole transfers of a
  peripheral, `DmaPeripheral` the ideal machine such a channel refines, `DmaData` what its transfers carry,
  `DmaBlock` those that software starts; `DmaPrograms` goes from the bytes written to the registers to addresses,
  result codes and memory.
* **Port dispatcher** (`src/io.c`): `IoPorts` holds the linked handler chains on the heap and the accesses
  that walk them, `IoLanes` which callback is called for which byte lanes.
* **Cipher analysis** (`scratchpad/chaintest.py`, `scratchpad/oracle5.py`): `Gf2` is linear algebra over
  GF(2), `Feistel` the unkeyed stages and the half-block solver, `Rotations` when that solver can fail,
  `ChainTest` the test of a chaining mode. The keyed round is an arbitrary function throughout.
* **Codecs** (`scratchpad/decodedata.py`, `scratchpad/softround.py`): `HaspRound`, `HaspBuffer`, `SoftRound`, and
  `HaspScript` and `SoftScript`, the same rounds on numbers.
* **Settings file** (`src/photoplay_ident.c`): `MainSet`. **Calendar** (`src/nvr.c`): `Rtc`.
* `Words` are machine words as their bits, least significant first; `Numbers` says what each operation on them does
  to the number they stand for; `Arith` counts round a cycle.

The operations are stated twice over: as functions on the state, and, at the edge where drivers, devices and files
meet them, in plain numbers and bits that share none of those functions -- a mode byte and its bits, the fields a
device registered, the fourteen steps of the block cipher, the arithmetic of the scripts.

Where the code departs from what its comments or the chip's data sheet say, the model follows the code, and
the departure is a theorem:

* A gate drop between the terminal count and the reload of an odd 8254 square wave leaves its toggle pending,
  so the next trigger starts low: `PitWaves.TriggerRestartsHigh` says exactly when, `PendingToggleReachable`
  gives the events.
* An even count written over an odd element makes the 8253's square wave step past zero and never toggle:
  `PitFreeze.FreezesExactly` says exactly when, `FrozenReached` gives the events.
* The first byte 1 of a two-byte count can be loaded before the second comes. The 8254 then counts a whole
  modulus for each half and the 8253 is high for one tick only. The OUT traces of the chips differ for this
  count, and if only one of them loads with a toggle pending, and never else: `PitWaves.ChipsAgree`. An 8253 has
  none pending (`NeverPendingOn8253`).
* The strobes of modes 4 and 5 come again every modulus + 1 ticks: `PitStrobe.StrobesRepeat`.
* Rotating priority does not keep refresh from starving: a peripheral's call is served whoever the pick is
  (`DmaFairness.Starves`). A unit brings a waiting channel nearer if and only if its own channel's turn came before
  (`DmaArbitration.UnitBringsNearer`), and the wait is at most three units while all units are such
  (`DmaFairness.AtMostThreeOthers`).
* A deferred read issued while another completion is pending still moves a unit after the last one, where
  an ordinary read refuses: `DmaData.DeferredPastEnd` says exactly when the two differ, `PastEndHappens` shows it.
  The deferred read is an exported routine that no device of the repository calls.
* Handlers registered twice: removing takes the older copy, so the device also moves to the end of the calling
  order (`IoPorts.RemoveAfterAppend`); byte lanes are served once each exactly under the condition of
  `IoLanes.EveryLaneOnce`.
* The remark that every output of the keyed round lies in a 23-dimensional subspace
  (`scratchpad/oracle5.py:3-10`) argues that only 23 branch bits reach the output. The polynomial has bit 31 set, so
  32 do (`HaspRound.BranchesRecoverable`) and their sums are all words (`EveryWordIsABranchSum`): the argument
  fails. Which of those words one table and password produce is not claimed.
* The half-block solver fails for some targets exactly when the number of rotations leaves remainder 2 on
  division by 3, whatever the rotations are (`Rotations.SolverIsTotal`); the six rotations in use are safe, so
  the tables of the chaining test can always be built (`ChainTest.BuildTables`).
* The clock's reset state has day 0 of January 1980, not day 1: `Rtc.ResetIsDayZero`.

## Model

| member | source | states |
|---|---|---|
| Pit.Device.constructor | src/pit_exact.c:134-137 | A fresh device has three power-on channels. |
| Pit.Device.Reset | src/pit_exact.c:121-145 | Reset puts all three channels and the last control word back to power-on, for the chip given. |
| Pit.Device.SetElement | src/pit_exact.c:30-34 | A new element shows in the output latch unless a count is latched; other channels unchanged. |
| Pit.Device.DecrementOnce | src/pit_exact.c:36-61 | One decrement in binary or BCD, zero wrapping to the top. |
| Pit.Device.DecrementTimes | src/pit_exact.c:63-67 | n decrements one after the other. |
| Pit.Device.LoadCountingElement | src/pit_exact.c:74-119 | The load: element, null-count flag, OUT and phase by mode, gate and pending toggle. |
| Pit.Device.LatchCountOf | src/pit_exact.c:147-156 | A count latch takes the visible count once; a second one before it is read does nothing. |
| Pit.Device.LatchStatusOf | src/pit_exact.c:158-166 | The status byte is latched once: OUT, null count and the control bits. |
| Pit.Device.Program | src/pit_exact.c:168-187 | A control word resets phases, latches and OUT and selects mode, byte order and BCD. |
| Pit.Device.ControlWrite | src/pit_exact.c:189-215 | Which of read-back, latch and program each of the three channels sees, for every byte written. |
| Pit.Device.CompleteWrite | src/pit_exact.c:217-246 | A complete count arms the channel and chooses its next phase; divisor 1 becomes 2 or 0 in modes 2 and 3. |
| Pit.Device.DataWriteTo | src/pit_exact.c:248-283 | A data write as low, high or first/second byte; channels past the third are ignored. |
| Pit.Device.DataRead | src/pit_exact.c:285-321 | The byte returned (status, latched count, live count, half-written complement) and what the read consumes. |
| Pit.Device.ChangeGate | src/pit_exact.c:323-360 | Gate edges: triggers in modes 1 and 5, restart and OUT high in modes 2 and 3. |
| Pit.Device.CountSquareWave | src/pit_exact.c:362-397 | One tick of the square wave on each chip. |
| Pit.Device.CountDown | src/pit_exact.c:433-484 | One counting tick in each of the six modes. |
| Pit.Device.TickChannel | src/pit_exact.c:399-484 | One clock of one channel in every phase, the others unchanged. |
| Pit.Device.TickAll | src/pit_exact.c:486-490 | One clock of the device is one clock of each channel. |
| PitRuns.StepKeepsGood | src/pit_exact.c:121-484 | Every event keeps the invariant: ranges, and which phases go with which modes, gate levels and OUT. |
| PitRuns.RunKeepsGood | src/pit_exact.c:121-484 | The invariant holds after every sequence of events. |
| PitRuns.PowerOnIsGood | src/pit_exact.c:121-132 | It holds at power-on. |
| PitRuns.ChannelsAreIndependent | src/pit_exact.c:189-215 | After every sequence of device commands each channel is as its own events alone make it. |
| PitRuns.DeviceKeepsGood | src/pit_exact.c:134-490 | Every channel of a device satisfies the invariant after every sequence of commands from reset. |
| PitRuns.CountRead | src/pit_exact.c:285-321 | A read of a latched count returns its next pending byte and leaves the others. |
| PitRuns.LatchedBytesCome | src/pit_exact.c:285-321 | Whatever ticks, edges, writes, latches and status reads intervene, a latched channel returns its pending bytes in order. |
| PitRuns.LatchedCountIsolated | src/pit_exact.c:147-156 | The count bytes read after a latch command are those of the element at latch time until they have all been read or the mode is rewritten. |
| PitRuns.DeviceBytesAreOwn | src/pit_exact.c:285-321 | Over every sequence of device commands the count bytes returned for a channel are those its own events give: neither writes to the other channels nor reads of them show in any byte. |
| PitRuns.DeviceLatchIsolated | src/pit_exact.c:189-215 | From power-on, after any commands, once a latch or read-back command latches a channel, the bytes the device returns for it are those of its element at that moment until it is read completely or reprogrammed, whatever goes to this channel and the others. |
| PitWaves.BcdDecrementValue | src/pit_exact.c:36-48 | On every nonzero word the BCD decrement lowers the decimal value by exactly one. |
| PitWaves.BcdDecrementDigits | src/pit_exact.c:36-48 | It keeps all four digits decimal. |
| PitWaves.DecrementValue | src/pit_exact.c:50-61 | A decrement is minus one modulo 65536, or modulo 10000 in BCD. |
| PitWaves.Mode0Waveform | src/pit_exact.c:434-440 | Under every gate sequence OUT is low until exactly N gated ticks after the load, then high; the count is N less those ticks, wrapping. |
| PitWaves.Mode0Rewrite | src/pit_exact.c:248-283 | A count write takes OUT low: at once for the first of two bytes, at the next tick for a complete count. |
| PitWaves.Mode1Waveform | src/pit_exact.c:441-450 | Under every gate sequence the channel is an ideal one-shot: OUT low for exactly N ticks after each load, a retrigger starting the full N again. |
| PitWaves.Mode2Waveform | src/pit_exact.c:451-459 | After any load, OUT is low exactly when n mod N = N - 1, n ticks on, and the count is N - (n mod N), in binary and BCD; a half-written count of 1 has period modulus + 1. |
| PitWaves.NoUnitDivisor | src/pit_exact.c:217-246 | A complete count never leaves divisor 1 in modes 2 and 3. |
| PitWaves.HalfWrittenReached | src/pit_exact.c:248-283 | In modes 2 and 3 alike the first byte 1 of a two-byte count reaches the register while a load is due; this run gets there. |
| PitWaves.Mode3Waveform | src/pit_exact.c:362-397 | After any load OUT is high in the first High ticks of each period and low in the other Low ones: ceil(N/2) and floor(N/2) for every complete count on both chips, with the element's value at each position; also the lengths a half-written 1 gives on each chip. |
| PitWaves.ChipsAgree | src/pit_exact.c:362-397 | For the same count the OUT traces of the 8253 and the 8254 coincide for ever if and only if the count is not a half-written 1 and neither or both load with a toggle pending. |
| PitWaves.NeverPendingOn8253 | src/pit_exact.c:366-384 | No run of an 8253 ever leaves a toggle pending, so the second condition is about the 8254's alone. |
| PitWaves.DutyCycle | src/pit_exact.c:362-397 | Any N consecutive ticks of the square wave hold exactly ceil(N/2) high ones. |
| PitWaves.TriggerRestartsHigh | src/pit_exact.c:100-102 | The load after a trigger drives OUT high if and only if no toggle is pending. |
| PitWaves.PendingToggleReachable | src/pit_exact.c:348-355 | A run from power-on in which the 8254 restarts low and the 8253 high. |
| PitFreeze.OddElementFreezes | src/pit_exact.c:385-396 | An odd element that is counted down by twos stays odd for ever and OUT never toggles. |
| PitFreeze.FreezesExactly | src/pit_exact.c:362-397 | With the gate high and nothing written OUT toggles again if and only if the element is even, or the count is odd and the chip an 8253. |
| PitFreeze.RunKeepsEven | src/pit_exact.c:74-98 | No run of an 8254 counts an odd element in mode 3. |
| PitFreeze.Never8254 | src/pit_exact.c:362-397 | So no run from power-on freezes an 8254. |
| PitFreeze.FrozenReached | src/pit_exact.c:385-396 | A run from power-on that freezes the 8253: count 3 loaded, then count 2 written. |
| PitStrobe.StrobeWaveform | src/pit_exact.c:464-481 | In modes 4 and 5, under every gate sequence, OUT is low for exactly the one tick after the count runs out, a mode 5 trigger starting it again. |
| PitStrobe.StrobesRepeat | src/pit_exact.c:410-481 | With the gate high OUT is low exactly at ticks N, N + (modulus + 1), N + 2(modulus + 1), ... |
| PitPrograms.Programmed | src/pit_exact.c:168-283 | After any control word and the count bytes its bits 4 and 5 call for, on any reachable channel: the mode is bits 1 to 3 with 6 and 7 as 2 and 3, the divisor is low + 256 * high, in four decimal digits under bit 0, 0 being the whole range and 1 becoming 2 or the whole range in modes 2 and 3. |
| PitPrograms.ProgrammedMode0 | src/pit_exact.c:217-283 | So in mode 0 OUT is low until that many gated ticks have come after the loading one. |
| PitPrograms.ProgrammedMode1 | src/pit_exact.c:323-360 | In mode 1, after a rising gate, OUT is the ideal one-shot of that divisor. |
| PitPrograms.ProgrammedMode2 | src/pit_exact.c:217-283 | In mode 2 OUT is low on the last tick of each period of that divisor. |
| PitPrograms.ProgrammedMode3 | src/pit_exact.c:217-283 | In mode 3, on both chips, OUT is high for the larger half of that divisor and low for the smaller. |
| PitPrograms.ProgrammedMode4 | src/pit_exact.c:217-283 | In mode 4 OUT is the ideal strobe of that divisor, under every gate sequence. |
| PitPrograms.ProgrammedMode5 | src/pit_exact.c:323-360 | In mode 5 the same after a rising gate. |
| PitPrograms.PowerOnHeld | src/pit_exact.c:121-132 | From power-on a channel of mode 2 or 3 stays high until its gate is raised. |
| PitPrograms.GateHolds | src/pit_exact.c:323-360 | In modes 2 and 3 a low gate holds OUT high under any ticks, reads and latches, a load with a pending toggle excepted. |
| PitPrograms.GateRestarts | src/pit_exact.c:323-360 | When the gate comes back the next tick loads the count in the register. |
| PitPrograms.RewriteWaits | src/pit_exact.c:238-246 | A new count does not disturb the period or one-shot under way. |
| PitPrograms.RewriteReloads | src/pit_exact.c:238-246 | In modes 0 and 4 a complete count is loaded by the next tick. |
| PitPrograms.InterruptedWrite | src/pit_exact.c:234-246 | A load between the two bytes of a count makes the second force another load. |
| PitPrograms.ShowsThree | src/pit_exact.c:416-422 | Before its first trigger a channel of mode 1 or 5 shows 3. |
| PitPrograms.ElementShows | src/pit_exact.c:30-34 | While no count is latched the output latch follows the element; a load makes the count defined. |
| PitPrograms.StatusRead | src/pit_exact.c:158-166 | A latched status reads as 128 * OUT + 64 * null count + the low six bits of the last control word, after any run. |
| PitPrograms.StatusStays | src/pit_exact.c:158-166 | It stays as it was until it is read, whatever else happens. |
| PitPrograms.NullCount | src/pit_exact.c:158-166 | The null-count flag is up from the count write to the tick that loads it. |
| PitPrograms.LiveRead | src/pit_exact.c:285-321 | With nothing latched, reads give the low, the high, or both bytes of the count. |
| PitPrograms.HalfWrittenRead | src/pit_exact.c:298-301 | Between the two bytes of a count a read gives the complement of the first. |
| PitPrograms.ClocksCounted | src/pit_exact.c:399-404 | The clock counter counts all ticks modulo 2^64. |
| DmaController.Controller.constructor | src/dma.c:1622-1653 | A new controller is in the reset state, its adapter idle. |
| DmaController.Controller.Reset | src/dma.c:1727-1749 | Reset clears programs, counts, registers, latch and buffer and masks all four channels. |
| DmaController.Controller.ResetMachine | src/cpu/808x_marty_86box.c:4717-4744 | A machine reset is the controller's reset followed by the CPU's, which drops the request its adapter holds. |
| DmaController.Controller.PriorityPick | src/dma.c:151-186 | The loops compute the pick: owners first, then rotating or fixed order. |
| DmaController.Controller.CanService | src/dma.c:188-225 | Whether a channel may be served now. |
| DmaController.Controller.ReleaseOwner | src/dma.c:227-238 | The channel gives up ownership and acknowledge and, when rotating, becomes the last served. |
| DmaController.Controller.BeginService | src/dma.c:240-252 | Acknowledge, and ownership in demand and block mode. |
| DmaController.Controller.AdvanceAddress | src/dma.c:270-281 | The address moves by one inside its masked page. |
| DmaController.Controller.FinishTransfer | src/dma.c:283-321 | Count, terminal count, status, re-initialisation or mask, and release; returns whether it was the last. |
| DmaController.Controller.MasterClear | src/dma.c:323-343 | Everything the clear resets, with the refresh line kept up while the latch is set. |
| DmaController.Controller.SetDrq | src/dma.c:451-473 | A request line changes, a demand owner is released, refresh is reconciled if latched. |
| DmaController.Controller.SetEop | src/dma.c:475-488 | The external end-of-process line. |
| DmaController.Controller.RefreshDack | src/dma.c:2084-2112 | DACK0: the address-only transfer, then the latch is cleared before its line falls. |
| DmaController.Controller.TrySchedule | src/dma.c:2114-2129 | A serviceable latched request is offered to the adapter, or served on the spot without one. |
| DmaController.Controller.Reconcile | src/dma.c:2131-2146 | Schedule what is serviceable, cancel what is not. |
| DmaController.Controller.RefreshRequest | src/dma.c:2148-2160 | A timer edge sets the latch or finds it set. |
| DmaController.Controller.AdapterDack | src/dma.c:2119-2122 | The adapter acknowledges only a request it holds, and forgets it. |
| DmaController.Controller.ReadOnly | src/dma.c:2162-2196 | A unit read with its completion deferred. |
| DmaController.Controller.Advance | src/dma.c:2198-2218 | A deferred completion, and whether it was the last. |
| DmaController.Controller.Read | src/dma.c:2220-2263 | A unit read: data or verify marker, the over flag on the last, no data when refused. |
| DmaController.Controller.Write | src/dma.c:2265-2300 | A unit written to memory, the over flag on the last, no data when refused. |
| DmaController.Controller.BlockTransfer | src/dma.c:519-542 | The software-started loop over the base count, against the buffer. |
| DmaController.Controller.MemToMem | src/dma.c:1999-2051 | The memory-to-memory loop, with its re-entry and enable checks. |
| DmaController.Controller.WriteProgram | src/dma.c:1013-1044 | Address and count registers a byte at a time through the flip-flop. |
| DmaController.Controller.WriteRegister | src/dma.c:867-954 | The whole effect of every register write, ending in a reconciliation. |
| DmaArbitration.PickSpec | src/dma.c:151-186 | The pick is -1 exactly when disabled or nothing is eligible; otherwise a requesting, enabled, unmasked channel, an owner if one is eligible, else the lowest or the nearest after the last served. |
| DmaArbitration.ServiceableExactly | src/dma.c:188-225 | Channel 0, and with it a latched refresh, can be served if and only if it is enabled, unmasked and asking, and owns the bus, or no eligible channel owns it and, when rotating, none is nearer to its turn. |
| DmaArbitration.UnitTurns | src/dma.c:283-321 | A completed unit turns the order to its channel exactly under rotation and in single mode or on its last unit; one that is not the last changes nothing else of the order or of ownership. |
| DmaArbitration.UnitBringsNearer | src/dma.c:173-178 | A unit of a single-mode channel brings a waiting one nearer to its turn if and only if its own turn came before. |
| DmaArbitration.PickIsNearest | src/dma.c:173-178 | With nobody owning the bus the pick's turn comes before that of every other eligible channel. |
| DmaFairness.Starves | src/dma.c:202-222 | Rotation alone starves: from such a state, however many units channel 2's device moves, each is served while channel 0 stays eligible, latched and unscheduled, channel 3 being the pick. |
| DmaFairness.StarvedIsStarving | src/dma.c:202-222 | Such a state exists and satisfies the latch protocol. |
| DmaFairness.LastMoves | src/dma.c:867-954 | Which channels each event can turn the order to; commands and master clear aside, nothing else ever does. |
| DmaFairness.MaskWriteTurns | src/dma.c:906-915 | A mask-set write turns the order without a unit being moved, unless refresh is then served on the spot. |
| DmaFairness.AtMostThreeOthers | src/dma.c:151-252 | With all channels in single mode, over every run of calls, acknowledges, edges, lines, EOPs and register writes in which the order turns only to channels whose turn comes first, a channel asking throughout sees at most three units of others, no more than its distance from the last served, before its own. |
| DmaFairness.ThreeOthersHappen | src/dma.c:151-252 | The bound is met: channels 1, 2 and 3 each move a unit before channel 0. |
| DmaArbitration.OwnershipBegins | src/dma.c:240-252 | After a unit that is not its last, a picked demand or block channel owns the bus and is picked again. |
| DmaArbitration.OwnerKeepsPick | src/dma.c:451-473 | Under any change of a request line: a block owner stays the pick; a demand owner does if and only if its own line does not fall, or software also asks for it and it need give way to nobody. |
| DmaArbitration.SetDrqKeepsPick | src/dma.c:451-473 | The reconciliation that follows does not move the pick, unless channel 0 is served on the spot. |
| DmaArbitration.LastUnitReleases | src/dma.c:296-313 | The last unit withdraws ownership, acknowledge and software request. |
| DmaArbitration.FallingLineReleases | src/dma.c:463-466 | A falling line ends a demand channel's claim on the bus. |
| DmaArbitration.ClearSilences | src/dma.c:323-343 | After a master clear no channel is served; a latched refresh keeps its line up. |
| DmaRefresh.StepKeeps | src/dma.c:2084-2160 | Every event keeps the latch protocol: scheduled implies latched, the adapter holds exactly the scheduled request, settings are services plus the one latched. |
| DmaRefresh.RunKeeps | src/dma.c:2084-2160 | Over every interleaving of edges, acknowledges, lines, transfers and register writes: the protocol holds, and the edges that found the latch clear are exactly the services plus what is latched. |
| DmaRefresh.EdgeKeeps | src/dma.c:2148-2160 | An edge sets the latch only if it was clear, so edges never accumulate. |
| DmaRefresh.WriteReconciles | src/dma.c:867-954 | After every register write a serviceable request is scheduled unless the adapter, asked during the write, refused; an unserviceable one is unscheduled unless it would not cancel. |
| DmaRefresh.ReconcileAsks | src/dma.c:2131-2146 | A reconciliation asks the adapter exactly if schedule and serviceability disagree, and they agree afterwards exactly if it was not asked or said yes. |
| DmaRefresh.AdvanceReconciles | src/dma.c:2198-2218 | An advance with nothing pending retries a latched refresh. |
| DmaRefresh.MachineResetRestores | src/cpu/x86.c:404-420 | A machine reset restores the latch protocol from every state, and no acknowledge comes after it. |
| DmaTransfers.ForeignLeaves | src/dma.c:867-954 | Whatever does not address a channel -- register writes, refresh, other channels' calls and lines -- leaves its program, address, count, mask, status, line, software request and ownership alone; its own line leaves all but line and ownership. |
| DmaUnits.ServedExactly | src/dma.c:202-222 | Outside software transfers a peripheral channel is served if and only if it asks, is enabled, unmasked and not a cascade: never outranked. |
| DmaUnits.OwnUnit | src/dma.c:2220-2300 | One unit in any service mode: its address, whether it is flagged, the status bit, and the next position, re-initialised start or mask. |
| DmaUnits.RefusedUnit | src/dma.c:2220-2300 | A call with the request down, or past the end, is refused and changes nothing. |
| DmaUnits.WholeTransfer | src/dma.c:2220-2300 | In single, demand and block mode, with the request line rising and falling at any moment and any foreign traffic between: a call is served exactly when the channel asks and has units left; the i-th unit served is at base ± i modulo 65536 in its page, exactly the (count + 1)-th is flagged over, then the round repeats for ever or nothing more is served; the status bit is set exactly when a unit was flagged. |
| DmaUnits.SamePage | src/dma.c:270-281 | All units stay in the programmed 64 KB page. |
| DmaPeripheral.StepRefines | src/dma.c:2220-2300 | Every event keeps a peripheral channel in step with an ideal machine of unit number, line, software request, bus ownership and EOP: a call is refused exactly when neither line, software nor ownership asks, or the round has ended; it is the last at the base count or under EOP; demand and block channels come to own the bus after a unit that is not the last, and a demand channel loses it when its line falls. |
| DmaPeripheral.PeripheralRefines | src/dma.c:2220-2300 | Over every run of the whole controller, in single, demand and block mode, the answers to a device -- refused, or a unit, its address and whether it is the last -- are those of the ideal machine that sees only the device's calls, its line and its EOP. |
| DmaPeripheral.LoadedIsIdeal | src/dma.c:1013-1044 | A channel its driver has just programmed is that machine at unit 0, owning nothing. |
| DmaPeripheral.OwnerRunsOn | src/dma.c:240-252 | Once such a channel owns the bus every call is served at consecutive addresses to the last unit: in block mode whatever its line does, in demand mode while it does not fall. |
| DmaPeripheral.DemandWaits | src/dma.c:463-466 | A demand channel whose line is down and for which software does not ask is refused until the line rises. |
| DmaData.DataLands | src/dma.c:2265-2300 | Over any such run, through any number of rounds, the bytes of the served calls land in memory at the program's addresses, unit j at position j modulo base count + 1 when the channel re-initialises itself. |
| DmaData.LandedLast | src/dma.c:270-281 | Through all rounds each byte of memory is the last one sent there. |
| DmaData.LandedElsewhere | src/dma.c:270-281 | No other byte of memory changes. |
| DmaData.LandedAt | src/dma.c:270-281 | Within a round each byte is found at its address and no other byte of memory changes, up to 65536 units. |
| DmaData.DataFetched | src/dma.c:2220-2263 | Over any such run every unit read returns the byte at its address. |
| DmaData.WrittenThenRead | src/dma.c:2220-2300 | What one channel wrote in one run, another reading from the same base in the same direction gets back in a later one. |
| DmaData.DeferredRead | src/dma.c:2162-2218 | A deferred read followed by its advance is a read, in state and in result. |
| DmaData.DeferredPastEnd | src/dma.c:2162-2263 | With a completion pending, a deferred read always moves a unit; a read refuses exactly when that completion is the last and the channel does not re-initialise itself or its line is down -- for channel 0 also when it then loses the bus; otherwise they agree. |
| DmaData.PastEndHappens | src/dma.c:2162-2263 | A state in which the read refuses and the deferred read moves a second unit of a one-unit program. |
| DmaData.LoadedIsReady | src/dma.c:1013-1044 | Any mode but cascade, flip-flop clear, address, count, unmask: with the controller enabled and no completion pending, whatever was programmed and wherever the line stands, the channel is then at unit 0 of exactly that program. |
| DmaPrograms.ProgrammedTransfer | src/dma.c:270-321 | Mode byte, address A and count C written, then any traffic: unit k served is at A + i, or A - i under bit 5 of the mode, modulo 65536 in the page, i being k, or k mod (C + 1) under bit 4; it is flagged over exactly when i = C; without bit 4 at most C + 1 are served. |
| DmaPrograms.ProgrammedWrites | src/dma.c:2265-2300 | With type 1 in bits 2 and 3, byte k is in memory at that place until the round comes back to it, and no other byte of memory changes. |
| DmaPrograms.ProgrammedReads | src/dma.c:2220-2263 | With type 2 unit k returns the byte at that place. |
| DmaPrograms.UnitCode | src/dma.c:2220-2300 | The code a served call returns: the byte read, 0 for a write, 0x20000 for a verifying read, plus 0x10000 on the last unit. |
| DmaPrograms.UnitSeen | src/dma.c:2220-2300 | A served unit is seen in the request status. |
| DmaPrograms.ByteWritten | src/dma.c:1013-1044 | One byte written to an address or count register replaces the low or high byte, as the flip-flop says, of program and current value, and turns the flip-flop over. |
| DmaPrograms.MaskWritten | src/dma.c:906-946 | Registers 10, 14 and 15: which channels are masked afterwards, by the bits of the value. |
| DmaPrograms.MaskingReleases | src/dma.c:906-946 | A channel masked through register 10 or 15 loses the bus. |
| DmaPrograms.CommandWritten | src/dma.c:881-888 | Register 8 is the command; with bit 2 nothing is served and nobody owns the bus. |
| DmaPrograms.ClearWritten | src/dma.c:931-933 | Register 13: the whole state afterwards but programs, addresses and the latched refresh. |
| DmaPrograms.RequestWithdrawn | src/dma.c:890-904 | Register 9 without bit 2 withdraws one software request, and a demand claim with it. |
| DmaPrograms.SoftwareRequest | src/dma.c:519-542 | Register 9 with bit 2, for a block-mode channel that is the pick: every byte of the buffer and of memory afterwards, in both directions. |
| DmaPrograms.CopyRequest | src/dma.c:1999-2051 | With command bit 0 the same request for channel 0 copies memory. |
| DmaPrograms.CopyRefused | src/dma.c:1999-2008 | A copy does not begin inside another, without that bit, or unserved. |
| DmaPrograms.CopyStopped | src/dma.c:2024-2047 | An external end of process ends a copy with the byte being copied. |
| DmaPrograms.RefreshCounts | src/dma.c:2084-2112 | DACK0 moves one refresh unit, after completing one left pending. |
| DmaPrograms.ResetIsProgrammable | src/dma.c:1727-1749 | After a reset nothing is served, channel 0 is first in the order, and every channel can be programmed. |
| DmaBlock.SoftwareBlock | src/dma.c:519-542 | A software request for a block-mode channel that is the pick, whatever else is asking and refresh latched or not, moves exactly base count + 1 bytes from the buffer to the program's addresses or from there to the buffer, sets terminal count and withdraws the request. |
| DmaBlock.FilledAt | src/dma.c:534-540 | What each byte of the buffer is after a transfer into it. |
| DmaBlock.MemoryCopied | src/dma.c:1999-2051 | A block-mode memory-to-memory request copies exactly channel 1's base count + 1 bytes, one after the other. |
| DmaBlock.SingleCopied | src/dma.c:1999-2051 | In single mode a request copies one byte and gives the bus back. |
| DmaBlock.CarriedAt | src/dma.c:2016-2023 | Without overlap the destination holds the source's bytes (one byte repeated when channel 0 is held) and nothing else changes. |
| IoPorts.Ports.constructor | src/io.c:80-90 | All chains start empty. |
| IoPorts.Ports.Append | src/io.c:122-148 | A handler is linked at the tail of one port's chain; all other chains are untouched. |
| IoPorts.Ports.SetHandler | src/io.c:110-149 | Exactly the ports base, base + step, ... get the handler appended. |
| IoPorts.Ports.Unlink | src/io.c:170-179 | One node is unlinked from head, tail and neighbours. |
| IoPorts.Ports.RemoveAt | src/io.c:163-184 | The first fully matching entry of one chain is removed, if there is one. |
| IoPorts.Ports.RemoveHandler | src/io.c:151-186 | Exactly the ports base, base + step, ... lose their first matching entry; every other chain is as it was. |
| IoPorts.Ports.Init | src/io.c:80-108 | Every chain is emptied. |
| IoPorts.RemoveAfterAppend | src/io.c:151-186 | Removing undoes registering, unless the same handler was already there: then the older one goes. |
| IoPorts.Ports.WritePass | src/io.c:477-490 | One walk of one chain sends the written lanes to exactly the handlers the pass wants, in order. |
| IoPorts.Ports.ReadPass | src/io.c:417-430 | One walk of one chain ANDs the answers of the wanted handlers into their lanes. |
| IoPorts.Ports.Outb | src/io.c:448-505 | The deliveries of an 8-bit write, by the functions the devices registered. |
| IoPorts.Ports.Outw | src/io.c:578-648 | A 16-bit write calls, in this order, outw of every device of the port that has one, and then outb of those of either port that have no outw, each with its lanes. |
| IoPorts.Ports.Outl | src/io.c:753-840 | A 32-bit write: every outl of the port, then at offsets 0 and 2 outw of the devices without outl, then at each port outb of those with neither. |
| IoPorts.Ports.Inb | src/io.c:388-446 | An 8-bit read calls every inb; a bit is set if and only if all answers have it set. |
| IoPorts.Ports.Inw | src/io.c:507-576 | A 16-bit read calls inw, and inb of the devices without one; a bit is set if and only if every call whose lanes hold it answered it set. |
| IoPorts.Ports.Inl | src/io.c:650-751 | A 32-bit read likewise with inl, inw and inb. |
| IoPorts.AccessIsSends | src/io.c:388-840 | Every access, either direction and any width, delivers exactly what the fields of the registrations say, function by function and in order. |
| IoPorts.ReadIsAnswers | src/io.c:388-751 | What a read returns, bit by bit, from the calls made and their answers. |
| IoLanes.CallsSpec | src/io.c:753-840 | A call is made if and only if it is through the entry's widest callback that fits, at an offset that width divides. |
| IoLanes.NobodyCalledTwice | src/io.c:507-840 | No registration is called twice in one access. |
| IoLanes.LaneConservation | src/io.c:507-840 | How often a device receives a byte lane: as often as it is registered on the port its widest callback starts at. |
| IoLanes.EveryLaneOnce | src/io.c:507-840 | A device receives every lane exactly once if and only if it is registered once on each port its widest callback starts at; so always if registered once on every port. |
| IoLanes.MergedBit | src/io.c:650-751 | A bit of a read is set exactly when every call covering it answered with that bit set. |
| Numbers.RolValue | scratchpad/chaintest.py:36-38 | A left rotation is v * 2^k mod 2^32 + v div 2^(32-k). |
| Numbers.XorValue | scratchpad/chaintest.py:41-50 | Exclusive or of words is exclusive or of their numbers. |
| Numbers.UnpackValue | scratchpad/decodedata.py:99 | Four bytes are read little-endian. |
| Gf2.ApplyMat | scratchpad/chaintest.py:53-59 | The bit-clearing loop is the matrix-vector product over GF(2). |
| Gf2.ApplyIsAdditive | scratchpad/chaintest.py:53-59 | The product is additive. |
| Gf2.BuildBasis | scratchpad/oracle5.py:39-48 | Elimination builds an echelon basis of exactly the span. |
| Gf2.InSpanTest | scratchpad/oracle5.py:51-57 | The span test answers yes exactly for sums of the given words, for any list of words. |
| Gf2.Invert | scratchpad/chaintest.py:62-87 | Fails if and only if the columns are dependent; otherwise returns the two-sided inverse. |
| Gf2.Preimage | scratchpad/oracle5.py:80-100 | Finds a preimage whenever one exists, and fails only when none does. |
| Feistel.Forward | scratchpad/oracle5.py:65-68 | The rounds as a loop: the result is the only state that a chain of bit-by-bit rounds leads to, for any constant and rotations. |
| Feistel.Inverse | scratchpad/oracle5.py:71-74 | The inverse rounds: the result is the only state from which such a chain leads to the input. |
| Feistel.RoundExactly | scratchpad/oracle5.py:60-68 | One round bit by bit: bit i of the left half and of the constant goes into bit i + k, round the word, of the new left half. |
| Feistel.TurnedValue | scratchpad/oracle5.py:60-68 | The same round in numbers: x * 2^k mod 2^32 + x div 2^(32-k). |
| Feistel.LeadsExactly | scratchpad/oracle5.py:65-68 | Chains of such rounds lead exactly where the stage does. |
| Feistel.BlockIsNetwork | scratchpad/decodedata.py:98-137 | The block transform is one network of fourteen steps, rotations by 25, 20, ..., 0, the keyed round, 10, 8, ..., 0, the keyed round; decoding is it forwards and encoding backwards. |
| Feistel.StageUndone | scratchpad/oracle5.py:65-74 | The two undo each other, both ways. |
| Feistel.BlockUndone | scratchpad/decodedata.py:98-137 | A block decoded and encoded, or encoded and decoded, is itself, for an arbitrary keyed round. |
| Feistel.InvAffine | scratchpad/chaintest.py:12-18 | The stage is affine: the sum of two inputs maps to the sum of an image and a linear image. |
| Feistel.MatrixIsLinear | scratchpad/oracle5.py:78-79 | The thirty-two computed columns are the matrix of the stage's linear part. |
| Feistel.Solve | scratchpad/oracle5.py:77-100 | Finds x such that some chain of rounds leads from a state with the wanted right half to the given left half and x, whenever there is one, and nothing only when there is none. |
| Rotations.OddSumInvertible | scratchpad/oracle5.py:71-79 | A sum of an odd number of rotations is a bijection of 32-bit words. |
| Rotations.EvenSumMisses | scratchpad/oracle5.py:71-79 | A sum of an even number of rotations misses some word. |
| Rotations.LinearIsRotSum | scratchpad/oracle5.py:71-79 | The linear half of the stage is a sum of rotations, odd in number exactly when the round count does not leave 2 modulo 3. |
| Rotations.SolverIsTotal | scratchpad/oracle5.py:77-100 | Such a chain exists for every target if and only if the number of rotations does not leave 2 modulo 3. |
| ChainTest.BuildTables | scratchpad/chaintest.py:90-95 | The five tables can always be built; the inversion never raises. |
| ChainTest.ObserveBlock | scratchpad/chaintest.py:124-129 | The two observations of a block, by table look-up. |
| ChainTest.BlockExplained | scratchpad/chaintest.py:124-129 | A keyed round deciphers the block to the chained plaintext if and only if it fits both observations. |
| ChainTest.AgreementIsFit | scratchpad/chaintest.py:129-134 | All collisions agree if and only if some function fits all observations. |
| ChainTest.Run | scratchpad/chaintest.py:98-135 | Over any entries: agree == hits if and only if some keyed round enciphered every block under the mode -- the text, the text plus the ciphertext before it, plus the text before that too, or plus the text before alone -- so the right mode is never refuted; agree counts the repeated first answers; it fails exactly when a whole block lies outside a file or the mode is unknown. |
| ChainTest.BlocksAreEnciphered | scratchpad/chaintest.py:103-122 | The blocks the test looks at are there if and only if they lie in the files, and a keyed round explains them if and only if it enciphered them under the mode. |
| HaspRound.OneStep | scratchpad/decodedata.py:78-94 | One step of the keyed round on words. |
| HaspRound.TransformWord | scratchpad/decodedata.py:68-95 | The 39-step loop on words computes what the script computes on numbers. |
| HaspRound.TransformIs | scratchpad/decodedata.py:68-95 | The whole round on words is the round on numbers: register start, table bits, feedback as a sum modulo two, shift and polynomial. |
| HaspRound.SecIs | scratchpad/decodedata.py:58-65 | The table bit in its four layouts, as quotient and remainder of a table byte. |
| HaspRound.OutputIsBranchSum | scratchpad/decodedata.py:78-95 | For any table, password and layout the output is the XOR of the polynomial shifted by the later steps, over the branches taken; only the last 32 count. |
| HaspRound.BranchesRecoverable | scratchpad/decodedata.py:78-95 | The last 32 branch choices are read off the output. |
| HaspRound.EveryWordIsABranchSum | scratchpad/oracle5.py:3-10 | Every 32-bit word is the sum of some branch choices: the shifts that reach the output span 32 dimensions, not 23. |
| HaspBuffer.Store | scratchpad/decodedata.py:105 | A word stored little-endian changes its four bytes only. |
| HaspBuffer.DecodeBlock | scratchpad/decodedata.py:98-116 | One block decoded in place, with the two words a chained mode passes on. |
| HaspBuffer.EncodeBlock | scratchpad/decodedata.py:119-137 | One block encoded in place, likewise. |
| HaspBuffer.ProcessBlocks | scratchpad/decodedata.py:149-156 | The block loop with its chaining and early stop. |
| HaspBuffer.TransformBuffer | scratchpad/decodedata.py:140-157 | The whole call: what every mode makes of every block and byte of the buffer, under the password it is to use. |
| HaspBuffer.TransformedIsMeant | scratchpad/decodedata.py:140-157 | Modes 1, 4, 12, 13 decode and 2, 5, 8, 9 encode each block alone; 7, 14, 15, 18 and 6, 10, 11 use only the first block, each handing its two keyed-round outputs to the next, mode 18 leaving the last as handed; all others keep the buffer; tail bytes stay. |
| HaspBuffer.PasswordIs | scratchpad/decodedata.py:50-55 | The password of each mode, bit by bit. |
| HaspBuffer.BlocksAreIndependent | scratchpad/decodedata.py:149-156 | Unchained, every block is worked on alone and the tail bytes are untouched. |
| HaspBuffer.UnchainedUndone | scratchpad/decodedata.py:140-157 | Unchained encoding and decoding undo each other for any keyed round and any buffer length. |
| HaspBuffer.BufferRestored | scratchpad/decodedata.py:140-157 | Modes 2, 5, 8 and 9 against 1, 4, 12 and 13 restore every buffer, both ways, when they use the same password. |
| HaspBuffer.PasswordForms | scratchpad/decodedata.py:50-55 | Two modes use the same password for all arguments if and only if they are of the same form. |
| SoftRound.SoftDecode | scratchpad/softround.py:47-68 | The loop on words is the script's on numbers: twelve turns and the whitening. |
| SoftRound.DecodeIs | scratchpad/softround.py:47-68 | Each turn in numbers: subtract or add the key modulo 2^32, rotate by a field of the other half, exclusive or. |
| SoftRound.SoftEncode | scratchpad/softround.py:71-83 | The encoding loop: decoding its result, in numbers, gives the input back. |
| SoftRound.DecodeEncode | scratchpad/softround.py:71-83 | For any key schedule the two undo each other, both ways. |
| SoftRound.BuildSchedule | scratchpad/softround.py:25-44 | The in-place loop is the script's on numbers; entries from 2 on are an arithmetic progression from the once-updated entry 1, which collects all rotations. |
| MainSet.MaskedTwice | src/photoplay_ident.c:277-286 | Masking with the restarting keystream is its own inverse. |
| MainSet.Decrypt | src/photoplay_ident.c:277-286 | Each byte of the stretch, and no other, is combined with the top byte of the next state of the generator x * 0x08088405 + 1 mod 2^32. |
| MainSet.MaskedEnciphers | src/photoplay_ident.c:277-286 | Masking is enciphering with that generator, and nothing else is. |
| MainSet.ReadHeader | src/photoplay_ident.c:294-303 | The three header words, the keystream restarting for each. |
| MainSet.Search | src/photoplay_ident.c:321-343 | The walk of the key block, on any bytes whatever, in bounds and terminating. |
| MainSet.CopyOut | src/photoplay_ident.c:331-338 | The value is copied up to its end, cut to leave room for the terminator. |
| MainSet.Lookup | src/photoplay_ident.c:289-349 | On every file and key: found or not, and the whole contents of the caller's buffer afterwards. |
| MainSet.FindFinds | src/photoplay_ident.c:289-349 | In every file whose bytes decipher, section by section from 0x16295, to a count, two sizes, a key block and a pool, the first counted entry with the key and an offset inside the pool is found, and its string returned. |
| MainSet.EncodedIsLaidOut | src/photoplay_ident.c:289-349 | The writer lays files out so. |
| MainSet.TableSurvives | src/photoplay_ident.c:289-349 | Every table of keys and values survives being laid out, encrypted and looked up. |
| Rtc.YearLength | src/nvr.c:85-97 | The leap-year test agrees with the closed form of days before a year. |
| Rtc.MonthsFormula | src/nvr.c:99-111 | The month table agrees with the 153-day pattern. |
| Rtc.Clock.constructor | src/nvr.c:170-178 | The state without time synchronisation. |
| Rtc.Clock.Tick | src/nvr.c:113-134 | One second on all six fields. |
| Rtc.TickAdvances | src/nvr.c:113-134 | A tick keeps a valid time valid and advances the absolute second count by one. |
| Rtc.TicksReach | src/nvr.c:113-134 | k ticks lead to a valid time if and only if it is k seconds later: the calendar neither repeats nor skips. |
| Rtc.CycleOf400Years | src/nvr.c:113-134 | 146097 days of ticks show the same date and time 400 years on. |
| Rtc.ResetIsDayZero | src/nvr.c:170-178 | The reset state is no date; the clock spends a whole day before 1 January 1980. |

## Left out

- DmaController.Controller.WriteRegister: with base count 0xFFFF the source's 16-bit index never exceeds the bound and a software request never returns; the method requires a smaller base count there.
- DmaController.Controller.RefreshDack: the acknowledge re-enters the read and line routines, always for channel 0 with a clear latch; they are modelled by the non-recursive parts they then reduce to.
- DmaRefresh.RunKeeps: the clocked CPU adapter is an oracle that accepts or refuses requests and cancels and acknowledges only requests it holds; its own timing is not modelled.
- DmaController.Controller.BlockTransfer: base count 0xFFFF likewise.
- DmaBlock.SoftwareBlock: base count 0xFFFF likewise; channels not in block mode, and verify transfers, are only in DmaController.Controller.BlockTransfer.
- DmaUnits.WholeTransfer: an EOP of the channel itself is not among the events (it is in DmaPeripheral.PeripheralRefines); deferred reads enter it through DmaData.DeferredRead.
- DmaPeripheral.PeripheralRefines: commands, master clear, whole-mask writes and software requests for the channel in the middle of its transfer, and deferred reads and pending advances of its own, are not among the events.
- DmaFairness.LastMoves: a software-started transfer is only confined to its own channel and channel 0.
- DmaFairness.AtMostThreeOthers: all four channels are in single mode with no completion pending, and commands, software requests, master clear, deferred reads and deferred advances are not among the events.
- IoPorts.Ports.Init: freeing of nodes is not modelled; unlinked nodes simply stop being reachable.
- IoPorts.Ports.SetHandler: port ranges past 65535, which the source lets run off its arrays, are excluded.
- IoPorts.Ports.RemoveHandler: port ranges past 65535 likewise.
- IoPorts.Ports.Inl: handlers answer from a given sequence of values and cannot edit chains during a callback; traps, tracing and cycle counts are not part of this model.
- HaspBuffer.UnchainedUndone: chained modes overwrite the next block and do not round-trip; their exact effect is in HaspBuffer.TransformBuffer.
- MainSet.CopyOut: an output size of zero is excluded; there the source's size minus one wraps and the copy is unbounded. Its callers pass arrays of fixed size.
- MainSet.Search: an output size of zero likewise.
- MainSet.Lookup: an output size of zero likewise.
- Rtc.Clock.Tick: years are unbounded integers.
- The PS/2, EISA and AT sides of `src/dma.c`: scatter/gather, page registers, the 16-bit controller, `dma_read`, cycle charges and the shadow of the registers.
- The PCI configuration windows of `src/io.c` are taken as off.
- Physical memory outside what the controller wrote reads as 0xFF; the memory system is not part of this model.
- The disk walk of `src/photoplay_ident.c` (partition, FAT, directory and chain reading) and the naming of versions: files are byte sequences here.
- `src/nvr_at.c` and the set/get conversions of `src/nvr.c`.
- The null checks of failed allocations in `pp_set_lookup`.
- Configuration, startup, logging, device registry and machine profiles: plumbing over layers that are not part of this model.
- The brute-force searches, key scans and disk-image scripts of `scratchpad/`.
