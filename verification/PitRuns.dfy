/** Runs of the timer: what every reachable channel state satisfies, how device commands act
    on each channel alone, and that a latched count is isolated until it has been read. */
module PitRuns {
  import opened Pit

  /** What can happen to one channel. */
  datatype Event = Program(control: int) | CountLatch | StatusLatch | Write(value: int) | Read | Gate(level: bool) | Clock

  ghost predicate ValidEvent(e: Event) {
    match e
    case Program(control) => 0 <= control < 256 && control / 16 % 4 != 0
    case Write(value) => 0 <= value < 256
    case _ => true
  }

  function Step(c: Channel, e: Event): Channel {
    match e
    case Program(control) => ProgramMode(c, control)
    case CountLatch => LatchCount(c)
    case StatusLatch => LatchStatus(c)
    case Write(value) => DataWrite(c, value)
    case Read => AfterRead(c)
    case Gate(level) => SetGate(c, level)
    case Clock => Tick(c)
  }

  function Run(c: Channel, evs: seq<Event>): Channel
    decreases |evs|
  {
    if evs == [] then c else Run(Step(c, evs[0]), evs[1..])
  }

  ghost predicate ValidEvents(evs: seq<Event>) {
    forall i :: 0 <= i < |evs| ==> ValidEvent(evs[i])
  }

  lemma {:induction false} RunAppend(c: Channel, a: seq<Event>, b: seq<Event>)
    ensures Run(c, a + b) == Run(Run(c, a), b)
    decreases |a|
  {
    hide Step;
    if a == [] {
      assert a + b == b;
    } else {
      assert (a + b)[0] == a[0] && (a + b)[1..] == a[1..] + b;
      RunAppend(Step(c, a[0]), a[1..], b);
    }
  }

  // ----- the invariant -----

  ghost predicate InRange(c: Channel) {
    && 0 <= c.setup.control < 256 && 0 <= c.setup.mode <= 5 && 1 <= c.setup.rwMode <= 3
    && 0 <= c.latch.readPhase <= 1 && 0 <= c.latch.outputLatch < 0x1_0000 && 0 <= c.latch.statusLatch < 256
    && 0 <= c.load.writePhase <= 1 && 0 <= c.load.countRegister < 0x1_0000
    && 0 <= c.ctr.element <= 0x1_0000
  }

  /** Which phases go with which modes and gate levels. */
  ghost predicate PhaseFits(k: Counter, mode: int, gate: bool) {
    && (k.phase == ReloadNext ==> (mode == 2 || mode == 3) && gate)
    && (k.phase == WaitGate ==> (mode == 2 || mode == 3) && !gate)
    && (k.phase == Counting && (mode == 2 || mode == 3) ==> gate)
    && (k.phase == StrobeRecover ==> (mode == 4 || mode == 5) && !k.output)
    && (k.phase == WaitTrigger ==> mode == 1 || mode == 5)
    && k.phase != Done
    && (mode == 2 && !gate ==> k.output)
    && (mode == 1 && k.phase == LoadNext ==> k.armed)
    && (k.toggleOnReload ==> mode == 3 && k.output && k.phase in {ReloadNext, WaitGate, LoadNext})
  }

  ghost predicate Good(c: Channel) {
    && InRange(c)
    && (c.load.writePhase == 1 ==> c.setup.rwMode == 3)
    && PhaseFits(c.ctr, c.setup.mode, c.gate)
  }

  lemma DecrementedRange(bcd: bool, e: int)
    requires 0 <= e <= 0x1_0000
    ensures 0 <= Decremented(bcd, e) < 0x1_0000
  {
  }

  lemma {:induction false} DecrementedByRange(bcd: bool, e: int, n: nat)
    requires 0 <= e <= 0x1_0000
    ensures 0 <= DecrementedBy(bcd, e, n) <= 0x1_0000
  {
  }

  lemma ElementKeepsGood(c: Channel, e: int)
    requires Good(c) && 0 <= e <= 0x1_0000
    ensures var d := WithElement(c, e);
            && Good(d) && d.ctr == c.ctr.(element := e)
            && d.setup == c.setup && d.load == c.load && d.gate == c.gate && d.chip == c.chip
  {
  }

  lemma OutputKeepsGood(c: Channel, output: bool)
    requires Good(c) && c.setup.mode == 3 && c.ctr.phase == Counting
    ensures Good(WithOutput(c, output, Counting)) && WithOutput(c, output, Counting).load == c.load
  {
  }

  lemma SquareWaveKeepsGood(c: Channel)
    requires Good(c) && c.ctr.phase == Counting && c.setup.mode == 3 && c.gate
    ensures Good(CountMode3(c))
  {
    hide Decremented, DecrementedBy, WithElement, WithOutput, InRange;
    var bcd, e := c.setup.bcd, c.ctr.element;
    var n := if Odd(c) && c.chip == I8253 && e % 2 == 1 then (if c.ctr.output then 1 else 3) else 2;
    assert 0 <= e <= 0x1_0000 && 0 <= ReloadValue(c.load) <= 0x1_0000 by { RangesOf(c); }
    DecrementedByRange(bcd, e, n);
    var d := WithElement(c, DecrementedBy(bcd, e, n));
    ElementKeepsGood(c, DecrementedBy(bcd, e, n));
    OutputKeepsGood(d, !d.ctr.output);
    if VisibleCount(d.ctr.element) == 0 {
      if Odd(c) && c.chip == I8254 && d.ctr.output {
        ToggleKeepsGood(d);
      } else if Odd(c) && c.chip == I8254 {
        ElementKeepsGood(WithOutput(d, true, Counting), ReloadValue(c.load) - 1);
      } else {
        ElementKeepsGood(WithOutput(d, !d.ctr.output, Counting), ReloadValue(c.load));
      }
    }
  }

  lemma RangesOf(c: Channel)
    requires InRange(c)
    ensures 0 <= c.ctr.element <= 0x1_0000 && 1 <= ReloadValue(c.load) <= 0x1_0000
  {
  }

  lemma ToggleKeepsGood(c: Channel)
    requires Good(c) && c.setup.mode == 3 && c.gate && c.ctr.output
    ensures Good(c.(ctr := c.ctr.(toggleOnReload := true, phase := ReloadNext)))
  {
  }

  lemma CountKeepsGood(c: Channel)
    requires Good(c) && c.ctr.phase == Counting
    ensures Good(Count(c))
  {
    hide Decremented, CountMode3;
    DecrementedRange(c.setup.bcd, c.ctr.element);
    if c.setup.mode == 3 {
      SquareWaveKeepsGood(c);
    }
  }

  lemma LoadKeepsGood(c: Channel)
    requires Good(c) && (c.ctr.phase == LoadNext || c.ctr.phase == ReloadNext)
    ensures Good(Load(c))
  {
  }

  lemma TickKeepsGood(c: Channel)
    requires Good(c)
    ensures Good(Tick(c))
  {
    hide Count, Load;
    var d := c.(clocks := (c.clocks + 1) % 0x1_0000_0000_0000_0000);
    assert Good(d);
    match c.ctr.phase
    case Counting => CountKeepsGood(d);
    case LoadNext => LoadKeepsGood(d);
    case ReloadNext => LoadKeepsGood(d);
    case _ =>
  }

  lemma FinalizeKeepsGood(c: Channel)
    requires Good(c)
    ensures Good(FinalizeWrite(c))
  {
  }

  lemma RegisterKeepsGood(c: Channel, register: int, writePhase: int)
    requires Good(c) && 0 <= register < 0x1_0000
    requires writePhase == 0 || writePhase == c.load.writePhase || (writePhase == 1 && c.setup.rwMode == 3)
    ensures Good(WithRegister(c, register, writePhase)) && WithRegister(c, register, writePhase).setup == c.setup
  {
  }

  lemma BytesInRange(r: int, value: int)
    requires 0 <= r < 0x1_0000 && 0 <= value < 256
    ensures 0 <= r / 256 * 256 + value < 0x1_0000 && 0 <= r % 256 + value * 256 < 0x1_0000
  {
  }

  lemma WriteKeepsGood(c: Channel, value: int)
    requires Good(c) && 0 <= value < 256
    ensures Good(DataWrite(c, value))
  {
    hide FinalizeWrite, WithRegister;
    var r, phase := c.load.countRegister, c.load.writePhase;
    BytesInRange(r, value);
    RegisterKeepsGood(c, value, phase);
    RegisterKeepsGood(c, value * 256, phase);
    RegisterKeepsGood(c, r % 256 + value * 256, 0);
    FinalizeKeepsGood(WithRegister(c, value, phase));
    FinalizeKeepsGood(WithRegister(c, value * 256, phase));
    FinalizeKeepsGood(WithRegister(c, r % 256 + value * 256, 0));
    if c.setup.rwMode == 3 && phase == 0 {
      RegisterKeepsGood(c, r / 256 * 256 + value, 1);
      FirstByteStops(WithRegister(c, r / 256 * 256 + value, 1));
    }
  }

  lemma FirstByteStops(c: Channel)
    requires Good(c)
    ensures c.setup.mode == 0 ==> Good(WithOutput(c, false, WaitCount))
  {
  }

  lemma StepKeepsGood(c: Channel, e: Event)
    requires Good(c) && ValidEvent(e)
    ensures Good(Step(c, e))
  {
    hide Tick, DataWrite;
    match e
    case Clock => TickKeepsGood(c);
    case Write(value) => WriteKeepsGood(c, value);
    case Program(control) =>
    case _ =>
  }

  /** Every state a channel can reach satisfies the invariant. */
  lemma {:induction false} RunKeepsGood(c: Channel, evs: seq<Event>)
    requires Good(c) && ValidEvents(evs)
    ensures Good(Run(c, evs))
    decreases |evs|
  {
    hide Step, Good;
    if evs == [] {
    } else {
      StepKeepsGood(c, evs[0]);
      RunKeepsGood(Step(c, evs[0]), evs[1..]);
    }
  }

  lemma PowerOnIsGood(chip: Chip)
    ensures Good(PowerOn(chip))
  {
  }

  // ----- the device acts on each channel alone -----

  datatype Command = Control(byte: int) | DataIn(to: int, byte: int) | DataOut(from: int) | GateTo(to: int, level: bool)
                   | ClockOne(which: int) | ClockAll

  function DeviceStep(p: Pins, m: Command): Pins {
    match m
    case Control(v) => p.(channels := MapChannels(p.channels, (c, i) => ControlOn(p.chip, c, v, i)), lastControl := v)
    case DataIn(to, v) => p.(channels := MapChannels(p.channels, (c, i) => if i == to then DataWrite(c, v) else c))
    case DataOut(from) => p.(channels := MapChannels(p.channels, (c, i) => if i == from then AfterRead(c) else c))
    case GateTo(to, level) => p.(channels := MapChannels(p.channels, (c, i) => if i == to then SetGate(c, level) else c))
    case ClockOne(which) => p.(channels := MapChannels(p.channels, (c, i) => if i == which then Tick(c) else c))
    case ClockAll => p.(channels := MapChannels(p.channels, (c, i) => Tick(c)))
  }

  function MapChannels(cs: seq<Channel>, f: (Channel, int) -> Channel): (r: seq<Channel>)
    ensures |r| == |cs| && forall i :: 0 <= i < |cs| ==> r[i] == f(cs[i], i)
  {
    seq(|cs|, i requires 0 <= i < |cs| => f(cs[i], i))
  }

  /** What a device command means for channel i. */
  function EventsOn(chip: Chip, m: Command, i: int): seq<Event> {
    match m
    case Control(v) =>
      if v / 64 == 3 then
        if chip == I8254 && (if i == 0 then v / 2 else if i == 1 then v / 4 else v / 8) % 2 == 1 then
          (if v / 32 % 2 == 0 then [CountLatch] else []) + (if v / 16 % 2 == 0 then [StatusLatch] else [])
        else []
      else if v / 64 != i then []
      else if v / 16 % 4 == 0 then [CountLatch]
      else [Program(v)]
    case DataIn(to, v) => if i == to then [Write(v)] else []
    case DataOut(from) => if i == from then [Read] else []
    case GateTo(to, level) => if i == to then [Gate(level)] else []
    case ClockOne(which) => if i == which then [Clock] else []
    case ClockAll => [Clock]
  }

  function DeviceRun(p: Pins, ms: seq<Command>): Pins
    decreases |ms|
  {
    if ms == [] then p else DeviceRun(DeviceStep(p, ms[0]), ms[1..])
  }

  function AllEventsOn(chip: Chip, ms: seq<Command>, i: int): seq<Event> {
    if ms == [] then [] else EventsOn(chip, ms[0], i) + AllEventsOn(chip, ms[1..], i)
  }

  lemma RunOne(c: Channel, e: Event)
    ensures Run(c, [e]) == Step(c, e) && Run(c, []) == c
  {
  }

  lemma RunTwo(c: Channel, e: Event, f: Event)
    ensures Run(c, [e] + [f]) == Step(Step(c, e), f)
  {
    RunAppend(c, [e], [f]);
    RunOne(c, e);
    RunOne(Step(c, e), f);
  }

  lemma CommandIsLocal(p: Pins, m: Command, i: int)
    requires 0 <= i < |p.channels|
    ensures DeviceStep(p, m).channels[i] == Run(p.channels[i], EventsOn(p.chip, m, i))
    ensures DeviceStep(p, m).chip == p.chip && |DeviceStep(p, m).channels| == |p.channels|
  {
    hide LatchCount, LatchStatus, ProgramMode, DataWrite, AfterRead, SetGate, Tick, Run;
    var c := p.channels[i];
    RunTwo(c, CountLatch, StatusLatch);
    RunOne(c, CountLatch);
    RunOne(c, StatusLatch);
    RunOne(c, Clock);
    RunOne(c, Read);
    match m
    case Control(v) =>
      RunOne(c, Program(v));
      var none: seq<Event> := [];
      assert [CountLatch] + none == [CountLatch] && none + [StatusLatch] == [StatusLatch] && none + none == none;
    case DataIn(to, v) => RunOne(c, Write(v));
    case GateTo(to, level) => RunOne(c, Gate(level));
    case _ =>
  }

  /** Whatever commands the device receives, a channel ends where its own events take it;
      commands for the other channels leave it alone. */
  lemma {:induction false} ChannelsAreIndependent(p: Pins, ms: seq<Command>, i: int)
    requires 0 <= i < |p.channels|
    ensures |DeviceRun(p, ms).channels| == |p.channels|
    ensures DeviceRun(p, ms).channels[i] == Run(p.channels[i], AllEventsOn(p.chip, ms, i))
    decreases |ms|
  {
    hide DeviceStep, Run, EventsOn;
    if ms == [] {
      RunOne(p.channels[i], Clock);
    } else {
      CommandIsLocal(p, ms[0], i);
      ChannelsAreIndependent(DeviceStep(p, ms[0]), ms[1..], i);
      RunAppend(p.channels[i], EventsOn(p.chip, ms[0], i), AllEventsOn(p.chip, ms[1..], i));
    }
  }

  ghost predicate ValidCommand(m: Command) {
    match m
    case Control(v) => 0 <= v < 256
    case DataIn(_, v) => 0 <= v < 256
    case _ => true
  }

  lemma {:induction false} CommandsAreValidEvents(chip: Chip, ms: seq<Command>, i: int)
    requires forall k :: 0 <= k < |ms| ==> ValidCommand(ms[k])
    ensures ValidEvents(AllEventsOn(chip, ms, i))
  {
    if ms == [] {
    } else {
      CommandsAreValidEvents(chip, ms[1..], i);
      assert ValidEvents(EventsOn(chip, ms[0], i));
    }
  }

  /** From power-on, every channel satisfies the invariant after any sequence of commands. */
  lemma DeviceKeepsGood(chip: Chip, ms: seq<Command>, i: int)
    requires 0 <= i < 3 && forall k :: 0 <= k < |ms| ==> ValidCommand(ms[k])
    ensures var p := DeviceRun(Pins(chip, [PowerOn(chip), PowerOn(chip), PowerOn(chip)], 0), ms);
            |p.channels| == 3 && Good(p.channels[i])
  {
    hide DeviceRun, Run, Good;
    var p := Pins(chip, [PowerOn(chip), PowerOn(chip), PowerOn(chip)], 0);
    ChannelsAreIndependent(p, ms, i);
    CommandsAreValidEvents(chip, ms, i);
    PowerOnIsGood(chip);
    RunKeepsGood(PowerOn(chip), AllEventsOn(chip, ms, i));
  }

  // ----- a latched count is isolated -----

  /** The count bytes returned by the reads of a run; reads of a latched status are left out. */
  function CountBytes(c: Channel, evs: seq<Event>): seq<int>
    decreases |evs|
  {
    if evs == [] then []
    else
      var rest := CountBytes(Step(c, evs[0]), evs[1..]);
      if evs[0] == Read && !c.latch.statusLatched then [ReadByte(c)] + rest else rest
  }

  /** The bytes a count is read as. */
  function BytesOf(rwMode: int, count: int): seq<int> {
    if rwMode == 1 then [count % 256] else if rwMode == 2 then [count / 256] else [count % 256, count / 256]
  }

  /** The bytes of the latched count that have not been read yet. */
  function Pending(c: Channel): seq<int> {
    var bytes := BytesOf(c.setup.rwMode, c.latch.outputLatch);
    if c.setup.rwMode == 3 && c.latch.readPhase == 1 then bytes[1..] else bytes
  }

  ghost predicate NoReprogramming(evs: seq<Event>) {
    forall i :: 0 <= i < |evs| ==> !evs[i].Program?
  }

  /** One sequence begins with the other. */
  ghost predicate Agree(a: seq<int>, b: seq<int>) {
    a <= b || b <= a
  }

  /** Nothing but a read of the count, or a mode write, touches the latched count. */
  lemma OtherEventsKeepLatch(c: Channel, e: Event)
    requires Good(c) && c.latch.countLatched && !e.Program?
    requires e == Read ==> c.latch.statusLatched
    ensures var d := Step(c, e);
            && d.latch.countLatched && d.setup == c.setup
            && d.latch.outputLatch == c.latch.outputLatch && d.latch.readPhase == c.latch.readPhase
  {
    hide Decremented, DecrementedBy;
  }

  lemma {:induction false} LatchedBytesCome(c: Channel, evs: seq<Event>)
    requires Good(c) && c.latch.countLatched && ValidEvents(evs) && NoReprogramming(evs)
    ensures Agree(CountBytes(c, evs), Pending(c))
    decreases |evs|
  {
    if evs == [] {
    } else {
      hide Step, DataWrite, SetGate, Tick;
      var e, d := evs[0], Step(c, evs[0]);
      StepKeepsGood(c, e);
      if e == Read && !c.latch.statusLatched {
        CountRead(c);
        if |Pending(c)| == 2 {
          LatchedBytesCome(d, evs[1..]);
        }
      } else {
        OtherEventsKeepLatch(c, e);
        LatchedBytesCome(d, evs[1..]);
      }
    }
  }

  lemma CountRead(c: Channel)
    requires Good(c) && c.latch.countLatched && !c.latch.statusLatched
    ensures Step(c, Read).latch.countLatched == (|Pending(c)| == 2)
    ensures Pending(c)[0] == ReadByte(c)
    ensures |Pending(c)| == 2 ==> Pending(Step(c, Read)) == Pending(c)[1..]
  {
  }

  /** After a latch command the count bytes read are those of the counting element at that
      moment, until it has been read completely: ticks, gate edges, count writes, further latch
      commands and status reads in between make no difference. */
  lemma LatchedCountIsolated(c: Channel, evs: seq<Event>)
    requires Good(c) && !c.latch.countLatched && ValidEvents(evs) && NoReprogramming(evs)
    ensures Agree(CountBytes(LatchCount(c), evs), BytesOf(c.setup.rwMode, VisibleCount(c.ctr.element)))
  {
    StepKeepsGood(c, CountLatch);
    LatchedBytesCome(LatchCount(c), evs);
  }

  // ----- the same on the whole device -----

  /** The count bytes that data reads of channel i return over a run of the device, latched status bytes left out. */
  function DeviceBytes(p: Pins, ms: seq<Command>, i: int): seq<int>
    requires 0 <= i < |p.channels|
    decreases |ms|
  {
    if ms == [] then []
    else
      var rest := DeviceBytes(DeviceStep(p, ms[0]), ms[1..], i);
      if ms[0] == DataOut(i) && !p.channels[i].latch.statusLatched then [ReadByte(p.channels[i])] + rest else rest
  }

  lemma {:induction false} CountBytesAppend(c: Channel, a: seq<Event>, b: seq<Event>)
    ensures CountBytes(c, a + b) == CountBytes(c, a) + CountBytes(Run(c, a), b)
    decreases |a|
  {
    hide Step, ReadByte;
    if a == [] {
      assert a + b == b;
    } else {
      assert (a + b)[0] == a[0] && (a + b)[1..] == a[1..] + b;
      CountBytesAppend(Step(c, a[0]), a[1..], b);
    }
  }

  lemma CommandBytes(c: Channel, chip: Chip, m: Command, i: int)
    ensures CountBytes(c, EventsOn(chip, m, i)) ==
            if m == DataOut(i) && !c.latch.statusLatched then [ReadByte(c)] else []
  {
    hide Step, ReadByte;
    var evs := EventsOn(chip, m, i);
    assert |evs| <= 2 && (Read in evs ==> evs == [Read]);
    assert |evs| == 2 ==> CountBytes(Step(c, evs[0]), evs[1..]) == [];
  }

  /** The bytes a device returns for a channel are those of that channel's own events: no traffic of the others,
      and no read of them, is seen in what it answers. */
  lemma {:induction false} DeviceBytesAreOwn(p: Pins, ms: seq<Command>, i: int)
    requires 0 <= i < |p.channels|
    ensures DeviceBytes(p, ms, i) == CountBytes(p.channels[i], AllEventsOn(p.chip, ms, i))
    decreases |ms|
  {
    hide DeviceStep, EventsOn, Run, ReadByte;
    if ms == [] {
    } else {
      var c, own := p.channels[i], EventsOn(p.chip, ms[0], i);
      CommandIsLocal(p, ms[0], i);
      CommandBytes(c, p.chip, ms[0], i);
      DeviceBytesAreOwn(DeviceStep(p, ms[0]), ms[1..], i);
      CountBytesAppend(c, own, AllEventsOn(p.chip, ms[1..], i));
    }
  }

  predicate Reprograms(m: Command, i: int) {
    m.Control? && m.byte / 64 == i && m.byte / 16 % 4 != 0
  }

  lemma {:induction false} NotReprogrammed(chip: Chip, ms: seq<Command>, i: int)
    requires i < 3 && forall k :: 0 <= k < |ms| ==> !Reprograms(ms[k], i)
    ensures NoReprogramming(AllEventsOn(chip, ms, i))
  {
    if ms == [] {
    } else {
      NotReprogrammed(chip, ms[1..], i);
      assert NoReprogramming(EventsOn(chip, ms[0], i));
    }
  }

  /** From power-on, after any commands: once a latch or read-back command latches the count of a channel, the bytes
      the device returns for it are those of its element at that moment, until it has been read completely or its
      mode is rewritten, whatever commands go to this channel and the others. */
  lemma DeviceLatchIsolated(chip: Chip, before: seq<Command>, latch: Command, after: seq<Command>, i: int)
    requires 0 <= i < 3 && CountLatch in EventsOn(chip, latch, i)
    requires forall k :: 0 <= k < |before| ==> ValidCommand(before[k])
    requires forall k :: 0 <= k < |after| ==> ValidCommand(after[k]) && !Reprograms(after[k], i)
    requires var p := DeviceRun(Pins(chip, [PowerOn(chip), PowerOn(chip), PowerOn(chip)], 0), before);
             i < |p.channels| && !p.channels[i].latch.countLatched
    ensures var p := DeviceRun(Pins(chip, [PowerOn(chip), PowerOn(chip), PowerOn(chip)], 0), before);
            Agree(DeviceBytes(DeviceStep(p, latch), after, i),
                  BytesOf(p.channels[i].setup.rwMode, VisibleCount(p.channels[i].ctr.element)))
  {
    hide DeviceRun, DeviceStep, EventsOn, Run, Good, LatchCount, BytesOf, Agree, PowerOn;
    var p := DeviceRun(Pins(chip, [PowerOn(chip), PowerOn(chip), PowerOn(chip)], 0), before);
    DeviceKeepsGood(chip, before, i);
    KeepsChip(Pins(chip, [PowerOn(chip), PowerOn(chip), PowerOn(chip)], 0), before);
    CommandIsLocal(p, latch, i);
    DeviceBytesAreOwn(DeviceStep(p, latch), after, i);
    var c, evs := p.channels[i], AllEventsOn(chip, after, i);
    CommandsAreValidEvents(chip, after, i);
    NotReprogrammed(chip, after, i);
    LatchedThen(c, chip, latch, i, evs);
  }

  lemma {:induction false} KeepsChip(p: Pins, ms: seq<Command>)
    ensures DeviceRun(p, ms).chip == p.chip
    decreases |ms|
  {
    if ms == [] {
    } else {
      KeepsChip(DeviceStep(p, ms[0]), ms[1..]);
    }
  }

  /** The command's own events: the count latch, and possibly a status latch after it. */
  lemma LatchedThen(c: Channel, chip: Chip, latch: Command, i: int, evs: seq<Event>)
    requires CountLatch in EventsOn(chip, latch, i)
    requires Good(c) && !c.latch.countLatched && ValidEvents(evs) && NoReprogramming(evs)
    ensures Agree(CountBytes(Run(c, EventsOn(chip, latch, i)), evs), BytesOf(c.setup.rwMode, VisibleCount(c.ctr.element)))
  {
    hide Run, Good, LatchCount, BytesOf, Agree;
    var own := EventsOn(chip, latch, i);
    RunOne(c, CountLatch);
    RunTwo(c, CountLatch, StatusLatch);
    if own == [CountLatch] {
      LatchedCountIsolated(c, evs);
    } else {
      assert own == [CountLatch] + [StatusLatch];
      LatchedCountIsolated(c, [StatusLatch] + evs);
      assert ([StatusLatch] + evs)[1..] == evs;
    }
  }
}
