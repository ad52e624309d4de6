/** From the control word and the count bytes a driver writes to what OUT does, in numbers only: which mode, which
    byte order, which divisor; and what the status byte and the count bytes it reads back say. */
module PitPrograms {
  import opened Arith
  import opened Pit
  import opened PitRuns
  import opened PitWaves
  import opened PitStrobe

  // ----- what is written -----

  /** Bits 1 to 3 of a control word, 6 and 7 standing for 2 and 3. */
  function ModeOf(control: int): int {
    var m := control / 2 % 8;
    if m == 6 then 2 else if m == 7 then 3 else m
  }

  /** The count bytes a driver sends after a control word: bits 4 and 5 say low, high, or low and then high. */
  function CountWrites(control: int, lo: int, hi: int): seq<Event> {
    if control / 16 % 4 == 1 then [Write(lo)]
    else if control / 16 % 4 == 2 then [Write(hi)]
    else [Write(lo), Write(hi)]
  }

  function Full(control: int): (m: int)
    ensures m == 10000 || m == 65536
  {
    if control % 2 == 1 then 10000 else 65536
  }

  /** The divisor meant: four decimal digits under bit 0 of the control word, 0 standing for all of them or for
      65536; the rate generator takes 2 for 1 and the square wave the whole range. */
  function Meant(control: int, lo: int, hi: int): int {
    var n := if control / 16 % 4 == 1 then lo else if control / 16 % 4 == 2 then 256 * hi else lo + 256 * hi;
    if n == 0 || (n == 1 && ModeOf(control) == 3) then Full(control)
    else if n == 1 && ModeOf(control) == 2 then 2
    else if control % 2 == 1 then n / 4096 * 1000 + n / 256 % 16 * 100 + n / 16 % 16 * 10 + n % 16
    else n
  }

  predicate Control(control: int, lo: int, hi: int) {
    0 <= control < 256 && control / 16 % 4 != 0 && 0 <= lo < 256 && 0 <= hi < 256
  }

  /** A channel just programmed, with its count written: nothing loaded yet. */
  ghost predicate Ready(d: Channel, c: Channel, control: int, lo: int, hi: int) {
    && Good(d) && d.gate == c.gate && d.chip == c.chip && d.setup.mode == ModeOf(control)
    && d.setup.bcd == (control % 2 == 1) && d.setup.control == control
    && Divisor(d) == Meant(control, lo, hi) && Modulus(d.setup.bcd) == Full(control)
    && !d.ctr.toggleOnReload && d.load.nullCount && d.load.writePhase == 0
    && (ModeOf(control) in {2, 3} ==> d.load.countRegister != 1)
    && d.ctr.phase == (if ModeOf(control) in {1, 5} then WaitTrigger else LoadNext)
    && d.ctr.armed && d.ctr.ceUndefined
    && d.ctr.output == (ModeOf(control) != 0)
    && !d.latch.countLatched && !d.latch.statusLatched && d.latch.readPhase == 0
  }

  /** What a data write does to the register, in numbers. */
  lemma RegisterWritten(c: Channel, lo: int, hi: int)
    requires 0 <= lo < 256 && 0 <= hi < 256 && 0 <= c.load.countRegister
    requires c.load.writePhase == 0 && c.setup.rwMode == 3 && c.setup.mode != 0
    ensures var d := WithRegister(c, c.load.countRegister / 256 * 256 + lo, 1);
            && DataWrite(c, lo) == d
            && DataWrite(d, hi) == FinalizeWrite(WithRegister(d, lo + 256 * hi, 0))
  {
    var r := c.load.countRegister / 256 * 256 + lo;
    assert r % 256 == lo;
    hide FinalizeWrite;
  }

  lemma RegisterWritten0(c: Channel, lo: int, hi: int)
    requires 0 <= lo < 256 && 0 <= hi < 256 && 0 <= c.load.countRegister
    requires c.load.writePhase == 0 && c.setup.rwMode == 3 && c.setup.mode == 0
    ensures var d := WithOutput(WithRegister(c, c.load.countRegister / 256 * 256 + lo, 1), false, WaitCount);
            && DataWrite(c, lo) == d
            && DataWrite(d, hi) == FinalizeWrite(WithRegister(d, lo + 256 * hi, 0))
  {
    var r := c.load.countRegister / 256 * 256 + lo;
    assert r % 256 == lo;
    hide FinalizeWrite;
  }

  lemma ModeIs(control: int)
    requires 0 <= control < 256
    ensures CanonicalMode(control / 2 % 8) == ModeOf(control) && 0 <= ModeOf(control) <= 5
  {
  }

  /** The channel after the control word and the count. */
  lemma Programmed(c: Channel, control: int, lo: int, hi: int)
    requires Good(c) && Control(control, lo, hi)
    ensures Ready(Run(c, [Program(control)] + CountWrites(control, lo, hi)), c, control, lo, hi)
  {
    var evs := [Program(control)] + CountWrites(control, lo, hi);
    RunKeepsGood(c, evs);
    var p := ProgramMode(c, control);
    ModeIs(control);
    ProgramFields(c, control);
    var d := Run(c, evs);
    RunCons(c, Program(control), CountWrites(control, lo, hi));
    if control / 16 % 4 == 1 {
      RunOne(p, Write(lo));
      Completed(p, lo, control, lo, hi);
    } else if control / 16 % 4 == 2 {
      RunOne(p, Write(hi));
      Completed(p, hi * 256, control, lo, hi);
    } else {
      RunTwo(p, Write(lo), Write(hi));
      assert CountWrites(control, lo, hi) == [Write(lo)] + [Write(hi)];
      TwoBytes(p, control, lo, hi);
    }
    hide Run, ProgramMode, DataWrite, FinalizeWrite, Good;
  }

  lemma ProgramFields(c: Channel, control: int)
    requires InRange(c) && 0 <= control < 256
    ensures var p := ProgramMode(c, control);
            && p.gate == c.gate && p.chip == c.chip && p.setup.mode == ModeOf(control)
            && p.setup.rwMode == control / 16 % 4 && p.setup.bcd == (control % 2 == 1) && p.setup.control == control
            && p.load == Loading(0, c.load.countRegister, true, true, false) && !p.ctr.toggleOnReload
            && p.ctr.output == (ModeOf(control) != 0) && p.ctr.phase == WaitCount
            && !p.latch.countLatched && !p.latch.statusLatched && p.latch.readPhase == 0 && p.ctr.ceUndefined
  {
    ModeIs(control);
  }

  /** Completing the count n on a channel that has just been programmed. */
  lemma Completed(p: Channel, n: int, control: int, lo: int, hi: int)
    requires Control(control, lo, hi) && p.setup.mode == ModeOf(control) && p.setup.bcd == (control % 2 == 1)
    requires p.load.initialLoad && 0 <= n < 65536
    requires n == if control / 16 % 4 == 1 then lo else if control / 16 % 4 == 2 then 256 * hi else lo + 256 * hi
    ensures var d := FinalizeWrite(WithRegister(p, n, p.load.writePhase));
            && Divisor(d) == Meant(control, lo, hi) && Modulus(d.setup.bcd) == Full(control)
            && d.load.nullCount && d.load.writePhase == p.load.writePhase && d.gate == p.gate && d.chip == p.chip
            && d.setup == p.setup && d.ctr.toggleOnReload == p.ctr.toggleOnReload && d.ctr.output == p.ctr.output
            && (ModeOf(control) in {2, 3} ==> d.load.countRegister != 1)
            && d.ctr.phase == (if ModeOf(control) in {1, 5} then WaitTrigger else LoadNext)
            && d.latch == p.latch && d.ctr.armed && d.ctr.ceUndefined == p.ctr.ceUndefined && d.ctr.element == p.ctr.element
  {
  }

  lemma TwoBytes(p: Channel, control: int, lo: int, hi: int)
    requires Control(control, lo, hi) && p.setup.mode == ModeOf(control) && p.setup.bcd == (control % 2 == 1)
    requires p.setup.rwMode == 3 == control / 16 % 4 && p.load.initialLoad && 0 <= p.load.countRegister
    requires p.load.writePhase == 0 && p.ctr.output == (ModeOf(control) != 0)
    ensures var d := DataWrite(DataWrite(p, lo), hi);
            && Divisor(d) == Meant(control, lo, hi) && Modulus(d.setup.bcd) == Full(control)
            && d.load.nullCount && d.load.writePhase == 0 && d.gate == p.gate && d.chip == p.chip
            && d.setup == p.setup && d.ctr.toggleOnReload == p.ctr.toggleOnReload && d.ctr.output == p.ctr.output
            && (ModeOf(control) in {2, 3} ==> d.load.countRegister != 1)
            && d.ctr.phase == (if ModeOf(control) in {1, 5} then WaitTrigger else LoadNext)
            && d.latch == p.latch && d.ctr.armed && d.ctr.ceUndefined == p.ctr.ceUndefined && d.ctr.element == p.ctr.element
  {
    hide FinalizeWrite, DataWrite, Divisor, Meant, Modulus;
    var r := p.load.countRegister / 256 * 256 + lo;
    if ModeOf(control) == 0 {
      RegisterWritten0(p, lo, hi);
      var d := WithOutput(WithRegister(p, r, 1), false, WaitCount);
      Completed(WithRegister(d, 0, 0), lo + 256 * hi, control, lo, hi);
      assert WithRegister(WithRegister(d, 0, 0), lo + 256 * hi, 0) == WithRegister(d, lo + 256 * hi, 0);
    } else {
      RegisterWritten(p, lo, hi);
      var d := WithRegister(p, r, 1);
      Completed(WithRegister(d, 0, 0), lo + 256 * hi, control, lo, hi);
      assert WithRegister(WithRegister(d, 0, 0), lo + 256 * hi, 0) == WithRegister(d, lo + 256 * hi, 0);
    }
  }

  // ----- what OUT then does -----

  lemma ThenClock(c: Channel, a: seq<Event>, evs: seq<Event>)
    ensures Run(c, a + [Clock] + evs) == Run(Tick(Run(c, a)), evs)
  {
    hide Run, Tick;
    RunAppend(c, a + [Clock], evs);
    RunAppend(c, a, [Clock]);
    RunOne(Run(c, a), Clock);
    ClockIsTick(Run(c, a));
  }

  /** Mode 0: low until exactly as many ticks as were meant have come with the gate high after the loading one. */
  lemma ProgrammedMode0(c: Channel, control: int, lo: int, hi: int, evs: seq<Event>)
    requires Good(c) && Control(control, lo, hi) && ModeOf(control) == 0 && AllQuiet(evs)
    ensures Run(c, [Program(control)] + CountWrites(control, lo, hi) + [Clock] + evs).ctr.output
            <==> GateTicks(c.gate, evs) >= Meant(control, lo, hi)
  {
    hide Run, CountWrites, Meant, Divisor, Modulus, Good, GateTicks;
    var a := [Program(control)] + CountWrites(control, lo, hi);
    Programmed(c, control, lo, hi);
    ThenClock(c, a, evs);
    Mode0Waveform(Run(c, a), evs);
  }

  /** Mode 2: one tick low in every period of the divisor meant. */
  lemma ProgrammedMode2(c: Channel, control: int, lo: int, hi: int, evs: seq<Event>)
    requires Good(c) && c.gate && Control(control, lo, hi) && ModeOf(control) == 2 && AllQuietHigh(evs)
    ensures Meant(control, lo, hi) >= 2
    ensures Run(c, [Program(control)] + CountWrites(control, lo, hi) + [Clock] + evs).ctr.output
            <==> Ticks(evs) % Meant(control, lo, hi) != Meant(control, lo, hi) - 1
  {
    hide Run, CountWrites, Meant, Divisor, Modulus, Good, Ticks, RateValue;
    var a := [Program(control)] + CountWrites(control, lo, hi);
    Programmed(c, control, lo, hi);
    ThenClock(c, a, evs);
    Mode2Waveform(Run(c, a), evs);
  }

  /** Mode 3, on either chip: high for the larger and low for the smaller half of the divisor meant. */
  lemma ProgrammedMode3(c: Channel, control: int, lo: int, hi: int, evs: seq<Event>)
    requires Good(c) && c.gate && Control(control, lo, hi) && ModeOf(control) == 3 && AllQuietHigh(evs)
    ensures Meant(control, lo, hi) >= 2
    ensures Run(c, [Program(control)] + CountWrites(control, lo, hi) + [Clock] + evs).ctr.output
            <==> Ticks(evs) % Meant(control, lo, hi) < (Meant(control, lo, hi) + 1) / 2
  {
    hide Run, CountWrites, Meant, Divisor, Modulus, Good, Ticks, PositionValue;
    var a := [Program(control)] + CountWrites(control, lo, hi);
    Programmed(c, control, lo, hi);
    ThenClock(c, a, evs);
    Mode3Waveform(Run(c, a), evs);
  }

  /** Mode 4: the ideal strobe of the divisor meant, under every gate sequence. */
  lemma ProgrammedMode4(c: Channel, control: int, lo: int, hi: int, evs: seq<Event>)
    requires Good(c) && Control(control, lo, hi) && ModeOf(control) == 4 && AllQuiet(evs)
    ensures Run(c, [Program(control)] + CountWrites(control, lo, hi) + [Clock] + evs).ctr.output
            <==> !StrobeRun(Strobe(false, 0, false, c.gate), Meant(control, lo, hi), Full(control), 4, evs).low
  {
    hide Run, CountWrites, Meant, Full, Divisor, Modulus, Good, StrobeRun;
    var a := [Program(control)] + CountWrites(control, lo, hi);
    Programmed(c, control, lo, hi);
    ThenClock(c, a, evs);
    StrobeWaveform(Run(c, a), evs);
  }

  /** A rising gate edge after the count has been written. */
  lemma Triggered(c: Channel, control: int, lo: int, hi: int)
    requires Good(c) && Control(control, lo, hi) && ModeOf(control) in {1, 5}
    ensures var d := Run(c, [Program(control)] + CountWrites(control, lo, hi) + [Gate(false), Gate(true)]);
            && Good(d) && d.gate && d.setup.mode == ModeOf(control) && d.ctr.phase == LoadNext
            && Divisor(d) == Meant(control, lo, hi) && Modulus(d.setup.bcd) == Full(control)
  {
    hide Run, CountWrites, Meant, Full, Modulus, Good;
    var a := [Program(control)] + CountWrites(control, lo, hi);
    var d := Run(c, a);
    Programmed(c, control, lo, hi);
    RunAppend(c, a, [Gate(false), Gate(true)]);
    assert [Gate(false), Gate(true)] == [Gate(false)] + [Gate(true)];
    RunTwo(d, Gate(false), Gate(true));
    StepKeepsGood(d, Gate(false));
    StepKeepsGood(Step(d, Gate(false)), Gate(true));
    EdgesTrigger(d);
  }

  lemma EdgesTrigger(d: Channel)
    requires d.setup.mode in {1, 5} && d.ctr.phase == WaitTrigger
    ensures var e := Step(Step(d, Gate(false)), Gate(true));
            e.gate && e.setup == d.setup && e.load == d.load && e.ctr.phase == LoadNext
  {
  }

  /** Mode 1: after a trigger the ideal one-shot of the divisor meant. */
  lemma ProgrammedMode1(c: Channel, control: int, lo: int, hi: int, evs: seq<Event>)
    requires Good(c) && Control(control, lo, hi) && ModeOf(control) == 1 && AllQuiet(evs)
    ensures Run(c, [Program(control)] + CountWrites(control, lo, hi) + [Gate(false), Gate(true)] + [Clock] + evs).ctr.output
            <==> OneShotRun(OneShot(false, 0, true), evs).since >= Meant(control, lo, hi)
  {
    hide Run, CountWrites, Meant, Full, Divisor, Modulus, Good, OneShotRun;
    var a := [Program(control)] + CountWrites(control, lo, hi) + [Gate(false), Gate(true)];
    Triggered(c, control, lo, hi);
    ThenClock(c, a, evs);
    Mode1Waveform(Run(c, a), evs);
  }

  /** Mode 5: after a trigger the ideal strobe of the divisor meant. */
  lemma ProgrammedMode5(c: Channel, control: int, lo: int, hi: int, evs: seq<Event>)
    requires Good(c) && Control(control, lo, hi) && ModeOf(control) == 5 && AllQuiet(evs)
    ensures Run(c, [Program(control)] + CountWrites(control, lo, hi) + [Gate(false), Gate(true)] + [Clock] + evs).ctr.output
            <==> !StrobeRun(Strobe(false, 0, false, true), Meant(control, lo, hi), Full(control), 5, evs).low
  {
    hide Run, CountWrites, Meant, Full, Divisor, Modulus, Good, StrobeRun;
    var a := [Program(control)] + CountWrites(control, lo, hi) + [Gate(false), Gate(true)];
    Triggered(c, control, lo, hi);
    ThenClock(c, a, evs);
    StrobeWaveform(Run(c, a), evs);
  }

  // ----- gates in the periodic modes -----

  /** In modes 2 and 3 a low gate holds OUT high; only a load with a toggle pending could move it. */
  lemma {:induction false} GateHolds(c: Channel, evs: seq<Event>)
    requires Good(c) && c.setup.mode in {2, 3} && AllQuiet(evs) && Gate(true) !in evs
    requires !c.gate && c.ctr.output && c.ctr.phase in {WaitGate, WaitCount, LoadNext}
    requires c.ctr.phase == LoadNext ==> !c.ctr.toggleOnReload
    ensures Run(c, evs).ctr.output && !Run(c, evs).gate
    decreases |evs|
  {
    hide Step, Good;
    if evs == [] {
    } else {
      assert evs[0] in evs;
      HeldStep(c, evs[0]);
      StepKeepsGood(c, evs[0]);
      GateHolds(Step(c, evs[0]), evs[1..]);
    }
  }

  lemma HeldStep(c: Channel, e: Event)
    requires Good(c) && c.setup.mode in {2, 3} && Quiet(e) && e != Gate(true)
    requires !c.gate && c.ctr.output && c.ctr.phase in {WaitGate, WaitCount, LoadNext}
    requires c.ctr.phase == LoadNext ==> !c.ctr.toggleOnReload
    ensures var d := Step(c, e);
            && !d.gate && d.ctr.output && d.ctr.phase in {WaitGate, WaitCount, LoadNext} && d.setup == c.setup
            && (d.ctr.phase == LoadNext ==> !d.ctr.toggleOnReload)
  {
  }

  /** When the gate comes back the next tick loads the count that is in the register. */
  lemma GateRestarts(c: Channel)
    requires Good(c) && c.setup.mode in {2, 3} && c.ctr.phase != WaitCount
    ensures var d := Run(c, [Gate(false)] + [Gate(true)]);
            && Good(d) && d.gate && d.ctr.phase == LoadNext && d.setup == c.setup && d.load == c.load
    ensures c.gate ==> Run(c, [Gate(false)]).ctr.output && !Run(c, [Gate(false)]).gate
  {
    RunTwo(c, Gate(false), Gate(true));
    RunOne(c, Gate(false));
    StepKeepsGood(c, Gate(false));
    StepKeepsGood(Step(c, Gate(false)), Gate(true));
    hide Run;
  }

  /** A new count does not disturb a period, or a one-shot, that is under way. */
  lemma RewriteWaits(c: Channel, value: int)
    requires Good(c) && c.setup.mode in {1, 2, 3, 5} && !c.load.initialLoad && !c.load.incompleteReload
    ensures var d := DataWrite(c, value);
            && d.ctr == c.ctr.(armed := d.ctr.armed) && d.gate == c.gate && d.setup == c.setup
  {
  }

  // ----- what is read back -----

  /** A status latch and a read give OUT in bit 7, the null-count flag in bit 6, and below them the low six bits of
      the last control word. */
  lemma StatusRead(c: Channel, control: int, evs: seq<Event>)
    requires Good(c) && 0 <= control < 256 && control / 16 % 4 != 0 && ValidEvents(evs) && NoReprogramming(evs)
    requires !Run(c, [Program(control)] + evs).latch.statusLatched
    ensures var d := Run(c, [Program(control)] + evs);
            ReadByte(Step(d, StatusLatch)) ==
            128 * (if d.ctr.output then 1 else 0) + 64 * (if d.load.nullCount then 1 else 0) + control % 64
  {
    hide Run, StatusByte;
    RunCons(c, Program(control), evs);
    ControlKept(ProgramMode(c, control), evs);
    StatusIs(Run(c, [Program(control)] + evs));
  }

  /** A latched status stays as it was until it is read, whatever else happens. */
  lemma {:induction false} StatusStays(c: Channel, evs: seq<Event>)
    requires c.latch.statusLatched && NoReprogramming(evs) && Read !in evs
    ensures var d := Run(c, evs); d.latch.statusLatched && ReadByte(d) == ReadByte(c)
    decreases |evs|
  {
    hide Step;
    if evs == [] {
    } else {
      assert evs[0] in evs;
      StatusKept(c, evs[0]);
      StatusStays(Step(c, evs[0]), evs[1..]);
    }
  }

  lemma StatusKept(c: Channel, e: Event)
    requires c.latch.statusLatched && !e.Program? && e != Read
    ensures Step(c, e).latch.statusLatched && Step(c, e).latch.statusLatch == c.latch.statusLatch
  {
    hide Decremented, DecrementedBy, VisibleCount, StatusByte;
  }

  lemma StatusIs(c: Channel)
    requires !c.latch.statusLatched
    ensures ReadByte(Step(c, StatusLatch)) ==
            128 * (if c.ctr.output then 1 else 0) + 64 * (if c.load.nullCount then 1 else 0) + c.setup.control % 64
  {
  }

  lemma {:induction false} ControlKept(c: Channel, evs: seq<Event>)
    requires NoReprogramming(evs)
    ensures Run(c, evs).setup == c.setup
    decreases |evs|
  {
    hide Step;
    if evs == [] {
    } else {
      SetupKept(c, evs[0]);
      ControlKept(Step(c, evs[0]), evs[1..]);
    }
  }

  lemma SetupKept(c: Channel, e: Event)
    requires !e.Program?
    ensures Step(c, e).setup == c.setup
  {
    hide Decremented, DecrementedBy, VisibleCount, StatusByte;
  }

  /** The null-count flag is up from the count write to the tick that loads it, and down after that. */
  lemma NullCount(c: Channel, control: int, lo: int, hi: int)
    requires Good(c) && Control(control, lo, hi) && ModeOf(control) !in {1, 5}
    ensures var a := [Program(control)] + CountWrites(control, lo, hi);
            Run(c, a).load.nullCount && !Run(c, a + [Clock]).load.nullCount
  {
    hide Run, CountWrites;
    var a := [Program(control)] + CountWrites(control, lo, hi);
    Programmed(c, control, lo, hi);
    RunAppend(c, a, [Clock]);
    RunOne(Run(c, a), Clock);
    LoadClearsNull(Run(c, a));
  }

  lemma LoadClearsNull(c: Channel)
    requires c.ctr.phase == LoadNext
    ensures !Step(c, Clock).load.nullCount
  {
  }

  /** With nothing latched, reads give the count as it stands: one of its bytes, or the low and then the high one. */
  lemma LiveRead(c: Channel)
    requires Good(c) && !c.latch.statusLatched && !c.latch.countLatched && c.latch.readPhase == 0 && c.load.writePhase == 0
    ensures var v := if c.ctr.element == 65536 then 0 else c.ctr.element;
            CountBytes(c, if c.setup.rwMode == 3 then [Read, Read] else [Read]) ==
            if c.setup.rwMode == 1 then [v % 256] else if c.setup.rwMode == 2 then [v / 256] else [v % 256, v / 256]
  {
    var none: seq<Event> := [];
    assert [Read][1..] == none && [Read, Read][1..] == [Read];
    assert CountBytes(AfterRead(c), none) == [] && CountBytes(AfterRead(AfterRead(c)), none) == [];
    assert c.setup.rwMode == 3 ==> CountBytes(AfterRead(c), [Read]) == [ReadByte(AfterRead(c))];
  }

  /** Between the two bytes of a count a read gives the complement of the one written. */
  lemma HalfWrittenRead(c: Channel, lo: int)
    requires Good(c) && c.setup.rwMode == 3 && c.load.writePhase == 0 && 0 <= lo < 256
    requires !c.latch.statusLatched && !c.latch.countLatched
    ensures ReadByte(Step(c, Write(lo))) == 255 - lo
  {
  }

  /** The channel counts all clocks, modulo 2^64. */
  lemma {:induction false} ClocksCounted(c: Channel, evs: seq<Event>)
    requires 0 <= c.clocks < 0x1_0000_0000_0000_0000
    ensures Run(c, evs).clocks == (c.clocks + Ticks(evs)) % 0x1_0000_0000_0000_0000
    decreases |evs|
  {
    hide Step;
    if evs == [] {
    } else {
      OneClock(c, evs[0]);
      ClocksCounted(Step(c, evs[0]), evs[1..]);
    }
  }

  lemma OneClock(c: Channel, e: Event)
    ensures Step(c, e).clocks == if e == Clock then (c.clocks + 1) % 0x1_0000_0000_0000_0000 else c.clocks
  {
    hide Decremented, DecrementedBy, VisibleCount, StatusByte;
  }

  // ----- details of loading -----

  /** In modes 0 and 4 a complete count is loaded by the next tick, whatever is being counted. */
  lemma RewriteReloads(c: Channel, value: int)
    requires Good(c) && c.setup.mode in {0, 4} && 0 <= value < 256
    requires c.setup.rwMode == 3 ==> c.load.writePhase == 1
    ensures var d := DataWrite(c, value);
            d.ctr.phase == LoadNext && CountValue(c.setup.bcd, Tick(d).ctr.element) == Divisor(d)
  {
    hide CountValue;
  }

  /** A load that falls between the two bytes of a count makes the second byte force another one. */
  lemma InterruptedWrite(c: Channel, lo: int, hi: int)
    requires Good(c) && c.setup.mode in {1, 2, 3, 5} && c.setup.rwMode == 3 && c.load.writePhase == 0
    requires !c.load.initialLoad && 0 <= lo < 256 && 0 <= hi < 256 && c.ctr.phase in {LoadNext, ReloadNext}
    ensures var d := Step(Step(Step(c, Write(lo)), Clock), Write(hi));
            d.ctr.phase == LoadNext && !d.load.incompleteReload
  {
  }

  /** Before its first trigger a channel of mode 1 or 5 shows 3 from the first tick on. */
  lemma ShowsThree(c: Channel, control: int, lo: int, hi: int)
    requires Good(c) && Control(control, lo, hi) && ModeOf(control) in {1, 5}
    ensures var d := Run(c, [Program(control)] + CountWrites(control, lo, hi) + [Clock]);
            d.ctr.element == 3 && d.ctr.output && d.ctr.phase == WaitTrigger
  {
    hide Run, CountWrites;
    var a := [Program(control)] + CountWrites(control, lo, hi);
    Programmed(c, control, lo, hi);
    RunAppend(c, a, [Clock]);
    RunOne(Run(c, a), Clock);
    UntriggeredTick(Run(c, a));
  }

  lemma UntriggeredTick(d: Channel)
    requires d.ctr.phase == WaitTrigger && d.ctr.armed && d.ctr.ceUndefined
    ensures var e := Step(d, Clock); e.ctr == d.ctr.(element := 3)
  {
  }

  /** A load makes the count defined; a change of the element shows in the output latch while none is latched. */
  lemma ElementShows(c: Channel, e: Event)
    ensures e == Clock && c.ctr.phase in {LoadNext, ReloadNext} ==> !Step(c, e).ctr.ceUndefined
    ensures Shows(c, Step(c, e))
  {
    hide Decremented, DecrementedBy, VisibleCount, StatusByte, Count, Load, Shows;
    if e == Clock {
      var u := c.(clocks := (c.clocks + 1) % 0x1_0000_0000_0000_0000);
      LoadShows(u);
      CountShows(u);
      TickShows(c, u);
    } else {
      OthersShow(c, e);
    }
  }

  /** While no count is latched the output latch follows the element. */
  predicate Shows(c: Channel, d: Channel) {
    d.ctr.element != c.ctr.element && !c.latch.countLatched ==> d.latch.outputLatch == VisibleCount(d.ctr.element)
  }

  lemma LoadShows(c: Channel)
    ensures Shows(c, Load(c)) && !Load(c).ctr.ceUndefined
  {
    hide VisibleCount;
  }

  lemma CountShows(c: Channel)
    ensures Shows(c, Count(c))
  {
    hide VisibleCount, Decremented, DecrementedBy;
  }

  lemma TickShows(c: Channel, u: Channel)
    requires u == c.(clocks := (c.clocks + 1) % 0x1_0000_0000_0000_0000)
    requires Shows(u, Load(u)) && Shows(u, Count(u)) && !Load(u).ctr.ceUndefined
    ensures Shows(c, Tick(c)) && (c.ctr.phase in {LoadNext, ReloadNext} ==> !Tick(c).ctr.ceUndefined)
  {
    hide Count, Load, VisibleCount;
  }

  lemma OthersShow(c: Channel, e: Event)
    requires e != Clock
    ensures Shows(c, Step(c, e))
  {
    hide VisibleCount, StatusByte;
  }

  /** From power-on the gate is low: in modes 2 and 3 nothing moves until it is raised. */
  lemma PowerOnHeld(chip: Chip, control: int, lo: int, hi: int, evs: seq<Event>)
    requires Control(control, lo, hi) && ModeOf(control) in {2, 3} && AllQuiet(evs) && Gate(true) !in evs
    ensures Run(PowerOn(chip), [Program(control)] + CountWrites(control, lo, hi) + evs).ctr.output
  {
    hide Run, CountWrites, Good;
    var a := [Program(control)] + CountWrites(control, lo, hi);
    PowerOnIsGood(chip);
    Programmed(PowerOn(chip), control, lo, hi);
    RunAppend(PowerOn(chip), a, evs);
    GateHolds(Run(PowerOn(chip), a), evs);
  }
}
