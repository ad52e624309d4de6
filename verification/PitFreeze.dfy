/** When the square wave stops: a count written while another is being counted can leave an element that is
    stepped over zero for ever. */
module PitFreeze {
  import opened Pit
  import opened PitRuns
  import opened PitWaves

  predicate SquareCounting(c: Channel) {
    c.setup.mode == 3 && c.gate && c.ctr.phase == Counting
  }

  /** The element is odd and is counted down by twos. */
  predicate Frozen(c: Channel) {
    c.ctr.element % 2 == 1 && (!Odd(c) || c.chip == I8254)
  }

  lemma DecrementParity(bcd: bool, e: int, n: nat)
    requires 0 <= e <= 0x1_0000
    ensures 0 <= DecrementedBy(bcd, e, n) <= 0x1_0000 && DecrementedBy(bcd, e, n) % 2 == (e + n) % 2
    decreases n
  {
    hide Decremented;
    if n == 0 {
    } else {
      DecrementParity(bcd, e, n - 1);
      OneParity(bcd, DecrementedBy(bcd, e, n - 1));
    }
  }

  lemma OneParity(bcd: bool, e: int)
    requires 0 <= e <= 0x1_0000
    ensures Decremented(bcd, e) % 2 != e % 2 && 0 <= Decremented(bcd, e) < 0x1_0000
  {
    if bcd {
      BcdParity(e);
    }
    hide BcdDecrement;
  }

  lemma BcdParity(e: int)
    requires 0 <= e <= 0x1_0000
    ensures BcdDecrement(e) % 2 != e % 2 && 0 <= BcdDecrement(e) < 0x1_0000
  {
  }

  // ----- frozen for ever -----

  lemma FrozenTick(c: Channel)
    requires InRange(c) && SquareCounting(c) && Frozen(c)
    ensures var d := Tick(c);
            && InRange(d) && SquareCounting(d) && Frozen(d) && d.ctr.output == c.ctr.output
  {
    hide Decremented, DecrementedBy, Tick;
    SquareTick(c);
    DecrementParity(c.setup.bcd, c.ctr.element, 2);
    SquareRange(c);
  }

  lemma {:induction false} OddElementFreezes(c: Channel, evs: seq<Event>)
    requires InRange(c) && SquareCounting(c) && Frozen(c) && AllQuietHigh(evs)
    ensures Run(c, evs).ctr.output == c.ctr.output && Frozen(Run(c, evs))
    decreases |evs|
  {
    hide Tick;
    if evs == [] {
    } else {
      var e := evs[0];
      if e == Clock {
        FrozenTick(c);
      } else {
        QuietHighKeeps(c, e);
      }
      OddElementFreezes(Step(c, e), evs[1..]);
    }
  }

  // ----- otherwise OUT toggles again -----

  lemma EvenCount(c: Channel)
    requires InRange(c) && c.ctr.element % 2 == 0
    ensures CountValue(c.setup.bcd, c.ctr.element) % 2 == 0 && CountValue(c.setup.bcd, c.ctr.element) >= 0
  {
    ElementParity(c);
    if c.ctr.element < 0x1_0000 {
      ValueLaws(c.setup.bcd, c.ctr.element);
    }
  }

  lemma EvenDecrement(c: Channel)
    requires InRange(c) && c.ctr.element % 2 == 0
    ensures var v, d := CountValue(c.setup.bcd, c.ctr.element), DecrementedBy(c.setup.bcd, c.ctr.element, 2);
            && 0 <= d < 0x1_0000 && d % 2 == 0 && (d == 0 <==> v == 2)
            && CountValue(c.setup.bcd, d) == if v == 0 then Modulus(c.setup.bcd) - 2 else v - 2
  {
    hide Decremented, DecrementedBy, CountValue;
    var bcd, e := c.setup.bcd, c.ctr.element;
    EvenCount(c);
    DecrementParity(bcd, e, 2);
    if CountValue(bcd, e) < 2 {
      DecrementsAround(bcd, e, 2);
    } else {
      DecrementsValue(bcd, e, 2);
    }
    ValueLaws(bcd, DecrementedBy(bcd, e, 2));
  }

  lemma ToggledLoad(c: Channel)
    requires c.ctr.phase == ReloadNext && c.ctr.toggleOnReload && c.setup.mode == 3
    ensures Tick(c).ctr.output != c.ctr.output
  {
  }

  /** One tick of an even element: it comes down by two, or OUT toggles now or at the next tick. */
  lemma EvenTick(c: Channel)
    requires InRange(c) && SquareCounting(c) && c.ctr.element % 2 == 0
    ensures var d, v := Tick(c), CountValue(c.setup.bcd, c.ctr.element);
            if v == 2 then d.ctr.output != c.ctr.output || Tick(d).ctr.output != c.ctr.output
            else
              && InRange(d) && SquareCounting(d) && d.ctr.element % 2 == 0
              && d.ctr.output == c.ctr.output && d.setup == c.setup
              && CountValue(d.setup.bcd, d.ctr.element) == if v == 0 then Modulus(c.setup.bcd) - 2 else v - 2
  {
    EvenDecrement(c);
    SquareTick(c);
    SquareRange(c);
    var d := Tick(c);
    if CountValue(c.setup.bcd, c.ctr.element) == 2 && d.ctr.output == c.ctr.output {
      ToggledLoad(d);
    }
    hide Decremented, DecrementedBy, CountValue, Modulus, BcdDecrement, Tick;
  }

  lemma {:induction false} EvenToggles(c: Channel) returns (n: nat)
    requires InRange(c) && SquareCounting(c) && c.ctr.element % 2 == 0
    ensures Run(c, Clocks(n)).ctr.output != c.ctr.output
    decreases var v := CountValue(c.setup.bcd, c.ctr.element); if v == 0 then Modulus(c.setup.bcd) else v
  {
    hide Tick, CountValue, Run;
    EvenTick(c);
    EvenCount(c);
    var d := Tick(c);
    if CountValue(c.setup.bcd, c.ctr.element) == 2 {
      ClocksCons(c, 0);
      ClocksCons(c, 1);
      ClocksCons(d, 0);
      ClocksCons(Tick(d), 0);
      n := if d.ctr.output != c.ctr.output then 1 else 2;
    } else {
      EvenCount(d);
      var k := EvenToggles(d);
      ClocksCons(c, k);
      n := k + 1;
    }
  }

  /** One tick of an odd element under an odd count on the 8253: OUT toggles, or the element becomes even. */
  lemma OddTick(c: Channel)
    requires InRange(c) && SquareCounting(c) && c.ctr.element % 2 == 1 && Odd(c) && c.chip == I8253
    ensures var d := Tick(c);
            d.ctr.output != c.ctr.output ||
            (InRange(d) && SquareCounting(d) && d.ctr.element % 2 == 0)
  {
    hide Decremented, DecrementedBy, Tick;
    SquareTick(c);
    DecrementParity(c.setup.bcd, c.ctr.element, if c.ctr.output then 1 else 3);
    SquareRange(c);
  }

  lemma OddToggles(c: Channel) returns (n: nat)
    requires InRange(c) && SquareCounting(c) && c.ctr.element % 2 == 1 && Odd(c) && c.chip == I8253
    ensures Run(c, Clocks(n)).ctr.output != c.ctr.output
  {
    hide Tick, Run;
    OddTick(c);
    var d := Tick(c);
    ClocksCons(c, 0);
    ClocksCons(d, 0);
    if d.ctr.output != c.ctr.output {
      n := 1;
    } else {
      var k := EvenToggles(d);
      ClocksCons(c, k);
      n := k + 1;
    }
  }

  /** With the gate high and nothing written, a counting square wave toggles OUT again if and only if its element is
      even, or its count is odd and the chip an 8253. */
  lemma FreezesExactly(c: Channel)
    requires InRange(c) && SquareCounting(c)
    ensures (exists n: nat :: Run(c, Clocks(n)).ctr.output != c.ctr.output) <==> !Frozen(c)
  {
    hide Run;
    if Frozen(c) {
      forall n: nat ensures Run(c, Clocks(n)).ctr.output == c.ctr.output {
        TicksOfClocks(n);
        OddElementFreezes(c, Clocks(n));
      }
    } else if c.ctr.element % 2 == 0 {
      var n := EvenToggles(c);
    } else {
      var n := OddToggles(c);
    }
  }

  // ----- which chips it happens on -----

  /** An 8254 never counts an odd element in mode 3: it masks odd counts when it loads them. */
  predicate EvenOn8254(c: Channel) {
    c.chip == I8254 && c.setup.mode == 3 && c.ctr.phase == Counting ==> c.ctr.element % 2 == 0
  }

  lemma StepKeepsEven(c: Channel, e: Event)
    requires Good(c) && EvenOn8254(c) && ValidEvent(e)
    ensures EvenOn8254(Step(c, e))
  {
    hide Decremented, DecrementedBy, StatusByte, VisibleCount, Tick;
    if e == Clock {
      TickKeepsEven(c);
    }
  }

  lemma TickKeepsEven(c: Channel)
    requires Good(c) && EvenOn8254(c)
    ensures EvenOn8254(Tick(c))
  {
    hide Decremented, DecrementedBy;
    if c.setup.mode == 3 && c.ctr.phase == Counting {
      SquareTick(c);
      DecrementParity(c.setup.bcd, c.ctr.element, SquareStep(c));
      hide Tick;
    } else if c.ctr.phase in {LoadNext, ReloadNext} {
      LoadsEven(c);
    } else {
      hide Count;
    }
  }

  lemma LoadsEven(c: Channel)
    requires Good(c) && c.ctr.phase in {LoadNext, ReloadNext}
    ensures EvenOn8254(Tick(c))
  {
  }

  lemma {:induction false} RunKeepsEven(c: Channel, evs: seq<Event>)
    requires Good(c) && EvenOn8254(c) && ValidEvents(evs)
    ensures EvenOn8254(Run(c, evs))
    decreases |evs|
  {
    hide Step, Good, EvenOn8254;
    if evs == [] {
    } else {
      StepKeepsEven(c, evs[0]);
      StepKeepsGood(c, evs[0]);
      RunKeepsEven(Step(c, evs[0]), evs[1..]);
    }
  }

  /** So no run from power-on freezes an 8254's square wave. */
  lemma Never8254(evs: seq<Event>)
    requires ValidEvents(evs)
    ensures var c := Run(PowerOn(I8254), evs);
            SquareCounting(c) ==> !Frozen(c)
  {
    PowerOnIsGood(I8254);
    PowerOnIsEven();
    hide PowerOn, Good, Run;
    RunKeepsEven(PowerOn(I8254), evs);
    RunKeepsChip(PowerOn(I8254), evs);
    PowerOnChip();
  }

  lemma PowerOnIsEven()
    ensures EvenOn8254(PowerOn(I8254))
  {
  }

  lemma PowerOnChip()
    ensures PowerOn(I8254).chip == I8254
  {
  }

  /** The 8253 freezes: an even count written over a freshly loaded odd one. */
  lemma FrozenReached()
    ensures var c := Run(PowerOn(I8253), [Gate(true), Program(0x16), Write(3)] + [Clock, Write(2)]);
            InRange(c) && SquareCounting(c) && Frozen(c)
  {
    var c := ThreeWritten(I8253);
    var first: seq<Event> := [Gate(true), Program(0x16), Write(3)];
    var none: seq<Event> := [];
    assert [Clock] + [Write(2)] == [Clock, Write(2)];
    PowerOnIsGood(I8253);
    RunKeepsGood(PowerOn(I8253), first);
    TwoWritten(c);
    hide Run, PowerOn, Tick, DataWrite;
    RunAppend(PowerOn(I8253), first, [Clock, Write(2)]);
    RunTwo(c, Clock, Write(2));
  }

  lemma TwoWritten(c: Channel)
    requires Good(c) && c.chip == I8253 && c.setup.mode == 3 && c.setup.rwMode == 1 && c.gate && c.ctr.phase == LoadNext
    requires c.load.countRegister == 3 && !c.load.initialLoad && !c.load.incompleteReload
    ensures var d := DataWrite(Tick(c), 2);
            InRange(d) && SquareCounting(d) && Frozen(d)
  {
  }
}
