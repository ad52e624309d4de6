/** Closed forms of the timer's output for every divisor, in binary and BCD: each tick-by-tick
    mode refines the waveform the data sheet draws for it. */
module PitWaves {
  import opened Arith
  import opened Pit
  import opened PitRuns

  // ----- the value of a counting element -----

  function Modulus(bcd: bool): (m: int)
    ensures m > 0
  {
    if bcd then 10000 else 0x1_0000
  }

  /** The four digits weighted by powers of ten, whatever the digits are. */
  function DecimalValue(e: int): int {
    e / 4096 * 1000 + e / 256 % 16 * 100 + e / 16 % 16 * 10 + e % 16
  }

  function CountValue(bcd: bool, e: int): int {
    if e == 0x1_0000 then Modulus(bcd) else if bcd then DecimalValue(e) else e
  }

  lemma Divided(x: int, r: int)
    ensures 0 <= r < 16 ==> (16 * x + r) / 16 == x && (16 * x + r) % 16 == r
    ensures 0 <= r < 256 ==> (256 * x + r) / 256 == x
    ensures 0 <= r < 4096 ==> (4096 * x + r) / 4096 == x
  {
  }

  lemma Digits(a: int, b: int, c: int, d: int)
    requires 0 <= a < 16 && 0 <= b < 16 && 0 <= c < 16 && 0 <= d < 16
    ensures var e := 4096 * a + 256 * b + 16 * c + d;
            e / 4096 == a && e / 256 % 16 == b && e / 16 % 16 == c && e % 16 == d && 0 <= e < 0x1_0000
  {
    Divided(a, 256 * b + 16 * c + d);
    Divided(16 * a + b, 16 * c + d);
    Divided(256 * a + 16 * b + c, d);
    Divided(a, b);
    Divided(16 * a + b, c);
  }

  lemma SplitDigits(e: int) returns (a: int, b: int, c: int, d: int)
    requires 0 <= e < 0x1_0000
    ensures 0 <= a < 16 && 0 <= b < 16 && 0 <= c < 16 && 0 <= d < 16
    ensures e == 4096 * a + 256 * b + 16 * c + d
  {
    var x, y := e / 16, e / 16 / 16;
    a, b, c, d := y / 16, y % 16, x % 16, e % 16;
  }

  lemma DecimalOf(a: int, b: int, c: int, d: int)
    requires 0 <= a < 16 && 0 <= b < 16 && 0 <= c < 16 && 0 <= d < 16
    ensures DecimalValue(4096 * a + 256 * b + 16 * c + d) == 1000 * a + 100 * b + 10 * c + d
  {
    Digits(a, b, c, d);
  }

  /** The borrow runs to the lowest nonzero digit, leaving nines behind it. */
  lemma BcdBorrow(a: int, b: int, c: int, d: int)
    requires 0 <= a < 16 && 0 <= b < 16 && 0 <= c < 16 && 0 <= d < 16
    requires a + b + c + d > 0
    ensures var e := 4096 * a + 256 * b + 16 * c + d;
            BcdDecrement(e) == if d != 0 then e - 1
                               else if c != 0 then 4096 * a + 256 * b + 16 * (c - 1) + 9
                               else if b != 0 then 4096 * a + 256 * (b - 1) + 16 * 9 + 9
                               else 4096 * (a - 1) + 256 * 9 + 16 * 9 + 9
  {
    Digits(a, b, c, d);
  }

  /** Decrementing is subtracting one modulo 10000, even from digits above nine. */
  lemma BcdDecrementValue(e: int)
    requires 0 < e < 0x1_0000
    ensures DecimalValue(BcdDecrement(e)) == DecimalValue(e) - 1
    ensures 0 <= BcdDecrement(e) < 0x1_0000
  {
    hide DecimalValue, BcdDecrement;
    var a, b, c, d := SplitDigits(e);
    BcdBorrow(a, b, c, d);
    DecimalOf(a, b, c, d);
    if d != 0 {
      DecimalOf(a, b, c, d - 1);
    } else if c != 0 {
      DecimalOf(a, b, c - 1, 9);
    } else if b != 0 {
      DecimalOf(a, b - 1, 9, 9);
    } else {
      DecimalOf(a - 1, 9, 9, 9);
    }
  }

  ghost predicate ValidBcd(e: int) {
    0 <= e < 0x1_0000 && e / 4096 <= 9 && e / 256 % 16 <= 9 && e / 16 % 16 <= 9 && e % 16 <= 9
  }

  lemma ValidBcdOf(a: int, b: int, c: int, d: int)
    requires 0 <= a < 16 && 0 <= b < 16 && 0 <= c < 16 && 0 <= d < 16
    ensures ValidBcd(4096 * a + 256 * b + 16 * c + d) <==> a <= 9 && b <= 9 && c <= 9 && d <= 9
  {
    Digits(a, b, c, d);
  }

  /** Valid digits stay valid, including through the wrap. */
  lemma BcdDecrementDigits(e: int)
    requires ValidBcd(e) || e == 0x1_0000
    ensures ValidBcd(BcdDecrement(e))
  {
    ValidBcdOf(9, 9, 9, 9);
    if 0 < e < 0x1_0000 {
      var a, b, c, d := SplitDigits(e);
      hide ValidBcd, BcdDecrement;
      BcdBorrow(a, b, c, d);
      ValidBcdOf(a, b, c, d);
      if d != 0 {
        ValidBcdOf(a, b, c, d - 1);
      } else if c != 0 {
        ValidBcdOf(a, b, c - 1, 9);
      } else if b != 0 {
        ValidBcdOf(a, b - 1, 9, 9);
      } else {
        ValidBcdOf(a - 1, 9, 9, 9);
      }
    }
  }

  lemma ValueLaws(bcd: bool, e: int)
    requires 0 <= e < 0x1_0000
    ensures 0 <= CountValue(bcd, e)
    ensures CountValue(bcd, e) == 0 <==> e == 0
    ensures CountValue(bcd, e) == 1 <==> e == 1
    ensures CountValue(bcd, e) % 2 == e % 2
  {
    hide DecimalValue;
    var a, b, c, d := SplitDigits(e);
    DecimalOf(a, b, c, d);
  }

  /** One decrement takes the value down by one, and from zero to modulus - 1. */
  lemma DecrementValue(bcd: bool, e: int)
    requires 0 <= e <= 0x1_0000
    ensures var v := CountValue(bcd, e);
            CountValue(bcd, Decremented(bcd, e)) == if v == 0 then Modulus(bcd) - 1 else v - 1
    ensures 0 <= Decremented(bcd, e) < 0x1_0000
  {
    hide DecimalValue;
    assert DecimalValue(0x9999) == 9999 && DecimalValue(0) == 0 by { NinesAndZero(); }
    if 0 < e < 0x1_0000 {
      ValueLaws(bcd, e);
      BcdDecrementValue(e);
    }
  }

  lemma NinesAndZero()
    ensures DecimalValue(0x9999) == 9999 && DecimalValue(0) == 0
  {
  }

  lemma {:induction false} DecrementsValue(bcd: bool, e: int, n: nat)
    requires 0 <= e <= 0x1_0000 && n <= CountValue(bcd, e)
    ensures CountValue(bcd, DecrementedBy(bcd, e, n)) == CountValue(bcd, e) - n
    ensures 0 <= DecrementedBy(bcd, e, n) <= 0x1_0000
    ensures n > 0 ==> DecrementedBy(bcd, e, n) < 0x1_0000
  {
    hide Decremented, CountValue;
    if n == 0 {
    } else {
      DecrementsValue(bcd, e, n - 1);
      DecrementValue(bcd, DecrementedBy(bcd, e, n - 1));
    }
  }

  /** The divisor a channel will count: 0 stands for the full modulus. */
  function Divisor(c: Channel): int {
    CountValue(c.setup.bcd, ReloadValue(c.load))
  }

  lemma DivisorLaws(c: Channel)
    requires InRange(c)
    ensures Divisor(c) >= 1 && (Divisor(c) == 1 <==> c.load.countRegister == 1)
    ensures Divisor(c) % 2 == 1 <==> Odd(c)
    ensures Odd(c) ==> CountValue(c.setup.bcd, ReloadValue(c.load) - 1) == Divisor(c) - 1
  {
    hide CountValue;
    if c.load.countRegister != 0 {
      ValueLaws(c.setup.bcd, c.load.countRegister);
      DecrementValue(c.setup.bcd, c.load.countRegister);
      assert Odd(c) ==> Decremented(c.setup.bcd, c.load.countRegister) == c.load.countRegister - 1;
    } else {
      assert CountValue(c.setup.bcd, 0x1_0000) == Modulus(c.setup.bcd) by { FullValue(c.setup.bcd); }
    }
  }

  lemma FullValue(bcd: bool)
    ensures CountValue(bcd, 0x1_0000) == Modulus(bcd)
  {
  }

  // ----- events that neither reprogram nor write a count -----

  ghost predicate Quiet(e: Event) {
    !e.Program? && !e.Write?
  }

  ghost predicate AllQuiet(evs: seq<Event>) {
    forall i :: 0 <= i < |evs| ==> Quiet(evs[i])
  }

  ghost predicate AllQuietHigh(evs: seq<Event>) {
    forall i :: 0 <= i < |evs| ==> Quiet(evs[i]) && evs[i] != Gate(false)
  }

  function Ticks(evs: seq<Event>): nat {
    if evs == [] then 0 else Ticks(evs[1..]) + if evs[0] == Clock then 1 else 0
  }

  function Clocks(n: nat): (evs: seq<Event>)
    ensures |evs| == n
  {
    seq(n, _ => Clock)
  }

  lemma {:induction false} TicksOfClocks(n: nat)
    ensures Ticks(Clocks(n)) == n && AllQuietHigh(Clocks(n))
    decreases n
  {
    if n == 0 {
    } else {
      assert Clocks(n)[1..] == Clocks(n - 1);
      TicksOfClocks(n - 1);
    }
  }

  /** Reads and latch commands do not disturb counting. */
  lemma LatchesDoNotCount(c: Channel, e: Event)
    requires e == CountLatch || e == StatusLatch || e == Read
    ensures var d := Step(c, e);
            d.ctr == c.ctr && d.setup == c.setup && d.load == c.load && d.gate == c.gate && d.chip == c.chip
  {
  }

  /** The value left n decrements after the value N was loaded. */
  function DownCount(N: int, n: int, modulus: int): int
    requires modulus > 0
  {
    if n <= N then N - n else (N - n) % modulus
  }

  lemma DownCountStep(N: int, n: int, bcd: bool)
    requires 0 <= n && 1 <= N
    ensures var v := DownCount(N, n, Modulus(bcd));
            DownCount(N, n + 1, Modulus(bcd)) == if v == 0 then Modulus(bcd) - 1 else v - 1
    ensures n < N ==> DownCount(N, n, Modulus(bcd)) > 0
  {
    if n >= N {
      WrapStep(N - n, bcd);
    }
  }

  lemma WrapStep(k: int, bcd: bool)
    ensures (k - 1) % Modulus(bcd) == if k % Modulus(bcd) == 0 then Modulus(bcd) - 1 else k % Modulus(bcd) - 1
  {
    hide Modulus;
    var M := Modulus(bcd);
    var q, r := k / M, k % M;
    if r == 0 {
      assert k - 1 == (q - 1) * M + (M - 1);
      RemainderIs(k - 1, M, q - 1, M - 1);
    } else {
      assert k - 1 == q * M + (r - 1);
      RemainderIs(k - 1, M, q, r - 1);
    }
  }

  // ----- mode 0: interrupt on terminal count -----

  /** Clock ticks that arrive while the gate is high. */
  function GateTicks(gate: bool, evs: seq<Event>): nat
    decreases |evs|
  {
    if evs == [] then 0
    else
      match evs[0]
      case Gate(level) => GateTicks(level, evs[1..])
      case Clock => GateTicks(gate, evs[1..]) + if gate then 1 else 0
      case _ => GateTicks(gate, evs[1..])
  }

  ghost predicate Mode0At(c: Channel, bcd: bool, N: int, n: int) {
    && c.setup.bcd == bcd && c.setup.mode == 0 && c.ctr.phase == Counting && 0 <= c.ctr.element <= 0x1_0000
    && 0 <= n && 1 <= N
    && CountValue(bcd, c.ctr.element) == DownCount(N, n, Modulus(bcd))
    && (c.ctr.output <==> n >= N)
  }

  lemma Mode0Tick(c: Channel, bcd: bool, N: int, n: int)
    requires Mode0At(c, bcd, N, n)
    ensures Mode0At(Tick(c), bcd, N, if c.gate then n + 1 else n) && Tick(c).gate == c.gate
  {
    hide Decremented, CountValue, DownCount;
    DecrementValue(c.setup.bcd, c.ctr.element);
    DownCountStep(N, n, c.setup.bcd);
    ValueLaws(c.setup.bcd, Decremented(c.setup.bcd, c.ctr.element));
    if n + 1 == N {
      ReachedZero(N, Modulus(c.setup.bcd));
    } else if n + 1 < N {
      DownCountStep(N, n + 1, c.setup.bcd);
    }
  }

  lemma ReachedZero(N: int, modulus: int)
    requires modulus > 0
    ensures DownCount(N, N, modulus) == 0 && DownCount(N, 0, modulus) == if 0 <= N then N else N % modulus
  {
  }

  lemma {:induction false} Mode0Run(c: Channel, bcd: bool, N: int, n: int, evs: seq<Event>)
    requires Mode0At(c, bcd, N, n) && AllQuiet(evs)
    ensures Mode0At(Run(c, evs), bcd, N, n + GateTicks(c.gate, evs))
    decreases |evs|
  {
    hide Tick, CountValue, DownCount;
    if evs == [] {
    } else {
      var e := evs[0];
      if e == Clock {
        Mode0Tick(c, bcd, N, n);
        Mode0Run(Tick(c), bcd, N, if c.gate then n + 1 else n, evs[1..]);
      } else {
        if !e.Gate? {
          LatchesDoNotCount(c, e);
        }
        Mode0Run(Step(c, e), bcd, N, n, evs[1..]);
      }
    }
  }

  /** Under every sequence of gate edges, ticks, reads and latch commands after the load, OUT is
      low until exactly N ticks have come with the gate high, and high from then on. */
  lemma Mode0Waveform(c: Channel, evs: seq<Event>)
    requires Good(c) && c.setup.mode == 0 && c.ctr.phase == LoadNext && AllQuiet(evs)
    ensures var d, n := Run(Tick(c), evs), GateTicks(c.gate, evs);
            && (d.ctr.output <==> n >= Divisor(c))
            && CountValue(d.setup.bcd, d.ctr.element) == DownCount(Divisor(c), n, Modulus(c.setup.bcd))
  {
    hide CountValue, DownCount;
    DivisorLaws(c);
    ReachedZero(Divisor(c), Modulus(c.setup.bcd));
    Mode0Run(Tick(c), c.setup.bcd, Divisor(c), 0, evs);
  }

  /** A count write restarts mode 0: the first byte of two stops the count with OUT low, and a
      complete write is loaded by the next tick, which drives OUT low. */
  lemma Mode0Rewrite(c: Channel, value: int)
    requires Good(c) && c.setup.mode == 0
    ensures var d := DataWrite(c, value);
            if c.setup.rwMode == 3 && c.load.writePhase == 0 then d.ctr.phase == WaitCount && !d.ctr.output
            else d.ctr.phase == LoadNext && !Tick(d).ctr.output
  {
  }

  // ----- mode 1: hardware-triggered one-shot -----

  /** An ideal one-shot: a rising gate edge arms it, the next tick starts it, and it then counts. */
  datatype OneShot = OneShot(triggered: bool, since: nat, gate: bool)

  function OneShotStep(m: OneShot, e: Event): OneShot {
    match e
    case Gate(level) => OneShot(m.triggered || (!m.gate && level), m.since, level)
    case Clock => if m.triggered then OneShot(false, 0, m.gate) else m.(since := m.since + 1)
    case _ => m
  }

  function OneShotRun(m: OneShot, evs: seq<Event>): OneShot
    decreases |evs|
  {
    if evs == [] then m else OneShotRun(OneShotStep(m, evs[0]), evs[1..])
  }

  ghost predicate Mode1At(c: Channel, N: int, m: OneShot) {
    && InRange(c) && c.setup.mode == 1 && c.gate == m.gate && Divisor(c) == N && 1 <= N
    && c.ctr.phase == (if m.triggered then LoadNext else Counting)
    && (c.ctr.output <==> m.since >= N)
    && (m.triggered || m.since < N ==> c.ctr.armed)
    && CountValue(c.setup.bcd, c.ctr.element) == DownCount(N, m.since, Modulus(c.setup.bcd))
  }

  lemma Mode1Tick(c: Channel, N: int, m: OneShot)
    requires Mode1At(c, N, m)
    ensures Mode1At(Tick(c), N, OneShotStep(m, Clock))
  {
    hide Decremented, CountValue, DownCount;
    if m.triggered {
      ReachedZero(N, Modulus(c.setup.bcd));
    } else {
      DecrementValue(c.setup.bcd, c.ctr.element);
      DownCountStep(N, m.since, c.setup.bcd);
      ValueLaws(c.setup.bcd, Decremented(c.setup.bcd, c.ctr.element));
      if m.since + 1 == N {
        ReachedZero(N, Modulus(c.setup.bcd));
      } else if m.since + 1 < N {
        DownCountStep(N, m.since + 1, c.setup.bcd);
      }
    }
  }

  lemma {:induction false} Mode1Run(c: Channel, N: int, m: OneShot, evs: seq<Event>)
    requires Mode1At(c, N, m) && AllQuiet(evs)
    ensures Mode1At(Run(c, evs), N, OneShotRun(m, evs))
    decreases |evs|
  {
    if evs == [] {
    } else {
      hide Tick, CountValue, DownCount;
      var e := evs[0];
      if e == Clock {
        Mode1Tick(c, N, m);
      } else {
        if !e.Gate? {
          LatchesDoNotCount(c, e);
        }
        LatchesKeepRange(c, e);
      }
      Mode1Run(Step(c, e), N, OneShotStep(m, e), evs[1..]);
    }
  }

  lemma LatchesKeepRange(c: Channel, e: Event)
    requires InRange(c) && Quiet(e) && e != Clock
    ensures InRange(Step(c, e))
  {
  }

  /** After a trigger has been loaded, the channel is an ideal one-shot under every sequence of
      gate edges, ticks, reads and latch commands: OUT is low for exactly the first N ticks after
      each load, a retrigger starting the full N again. */
  lemma Mode1Waveform(c: Channel, evs: seq<Event>)
    requires Good(c) && c.setup.mode == 1 && c.ctr.phase == LoadNext && AllQuiet(evs)
    ensures var d, m := Run(Tick(c), evs), OneShotRun(OneShot(false, 0, c.gate), evs);
            && (d.ctr.output <==> m.since >= Divisor(c))
            && (d.ctr.phase == LoadNext <==> m.triggered)
  {
    hide CountValue, DownCount;
    DivisorLaws(c);
    ReachedZero(Divisor(c), Modulus(c.setup.bcd));
    TickKeepsGood(c);
    Mode1Run(Tick(c), Divisor(c), OneShot(false, 0, c.gate), evs);
  }

  // ----- mode 2: rate generator -----

  /** The period of the rate generator.  A first byte 1 of a two-byte count can be loaded before the second one
      comes; that load counts past zero and all the way down to one again. */
  function RatePeriod(c: Channel): int {
    if c.load.countRegister == 1 then Modulus(c.setup.bcd) + 1 else Divisor(c)
  }

  /** The count at position r of a period. */
  function RateValue(c: Channel, r: int): int {
    if c.load.countRegister == 1 && r < 2 then 1 - r else RatePeriod(c) - r
  }

  ghost predicate Mode2At(c: Channel, N: int, r: int) {
    && InRange(c) && c.setup.mode == 2 && c.gate && RatePeriod(c) == N && 2 <= N && 0 <= r < N
    && CountValue(c.setup.bcd, c.ctr.element) == RateValue(c, r)
    && c.ctr.phase == (if r == N - 1 then ReloadNext else Counting)
    && (c.ctr.output <==> r != N - 1)
  }

  lemma Mode2Tick(c: Channel, N: int, r: int)
    requires Mode2At(c, N, r)
    ensures Mode2At(Tick(c), N, if r == N - 1 then 0 else r + 1)
  {
    hide Decremented, CountValue;
    DivisorLaws(c);
    if r != N - 1 {
      DecrementValue(c.setup.bcd, c.ctr.element);
      ValueLaws(c.setup.bcd, Decremented(c.setup.bcd, c.ctr.element));
    }
  }

  lemma ClockIsTick(c: Channel)
    ensures Step(c, Clock) == Tick(c) && Tick(c).setup == c.setup
  {
  }

  lemma QuietKeepsRate(c: Channel, N: int, r: int, e: Event)
    requires Mode2At(c, N, r) && Quiet(e) && e != Clock && e != Gate(false)
    ensures Mode2At(Step(c, e), N, r)
  {
    QuietHighKeeps(c, e);
    hide Step, CountValue;
  }

  lemma {:induction false} Mode2Run(c: Channel, N: int, n: int, evs: seq<Event>)
    requires 0 <= n && 2 <= N && Mode2At(c, N, n % N) && AllQuietHigh(evs)
    ensures Mode2At(Run(c, evs), N, (n + Ticks(evs)) % N)
    decreases |evs|
  {
    hide Tick, Step, Mode2At;
    if evs == [] {
    } else {
      var e := evs[0];
      if e == Clock {
        ClockIsTick(c);
        Mode2Tick(c, N, n % N);
        NextPosition(n, N);
        Mode2Run(Tick(c), N, n + 1, evs[1..]);
      } else {
        QuietKeepsRate(c, N, n % N, e);
        Mode2Run(Step(c, e), N, n, evs[1..]);
      }
    }
  }

  lemma QuietHighKeeps(c: Channel, e: Event)
    requires InRange(c) && c.gate && Quiet(e) && e != Clock && e != Gate(false)
    ensures var d := Step(c, e);
            && d.ctr == c.ctr && d.setup == c.setup && d.load == c.load && d.gate == c.gate && d.chip == c.chip
            && InRange(d)
  {
  }

  /** With the gate high, OUT is low exactly when n mod N = N - 1, n ticks after the load, for all n.  The count is
      N - (n mod N); only under a half-written count of 1, when N is one more than the modulus, it starts 1, 0. */
  lemma Mode2Waveform(c: Channel, evs: seq<Event>)
    requires Good(c) && c.setup.mode == 2 && c.ctr.phase == LoadNext && c.gate && AllQuietHigh(evs)
    ensures var d, N, n := Run(Tick(c), evs), RatePeriod(c), Ticks(evs);
            && N >= 2 && CountValue(d.setup.bcd, d.ctr.element) == RateValue(c, n % N)
            && (d.ctr.output <==> n % N != N - 1)
  {
    hide CountValue;
    DivisorLaws(c);
    TickKeepsGood(c);
    ZeroPosition(RatePeriod(c));
    Mode2Run(Tick(c), RatePeriod(c), 0, evs);
    RunKeepsLoad(Tick(c), evs);
  }

  lemma {:induction false} RunKeepsLoad(c: Channel, evs: seq<Event>)
    requires AllQuiet(evs)
    ensures Run(c, evs).load.countRegister == c.load.countRegister && Run(c, evs).setup == c.setup
    decreases |evs|
  {
    if evs == [] {
    } else {
      StepKeepsLoad(c, evs[0]);
      RunKeepsLoad(Step(c, evs[0]), evs[1..]);
    }
  }

  lemma StepKeepsLoad(c: Channel, e: Event)
    requires Quiet(e)
    ensures Step(c, e).load.countRegister == c.load.countRegister && Step(c, e).setup == c.setup
  {
  }

  /** A two-byte mode, a complete count of 5, and then only the low byte of the next one. */
  function HalfWritten(chip: Chip, control: int): Channel {
    DataWrite(FiveWritten(chip, control), 1)
  }

  function FiveWritten(chip: Chip, control: int): Channel {
    DataWrite(DataWrite(ProgramMode(SetGate(PowerOn(chip), true), control), 5), 0)
  }

  lemma FiveWrittenIs(chip: Chip, control: int)
    requires control in {0x34, 0x36}
    ensures var c := FiveWritten(chip, control);
            && c.setup.mode == (if control == 0x34 then 2 else 3) && c.setup.rwMode == 3 && c.ctr.phase == LoadNext
            && c.gate && c.chip == chip && c.load.countRegister == 5 && c.load.writePhase == 0
            && !c.ctr.toggleOnReload && !c.setup.bcd
  {
  }

  lemma HalfWrittenIs(chip: Chip, control: int)
    requires control in {0x34, 0x36}
    ensures var c := HalfWritten(chip, control);
            && c.setup.mode == (if control == 0x34 then 2 else 3) && c.ctr.phase == LoadNext && c.gate && c.chip == chip
            && c.load.countRegister == 1 && !c.ctr.toggleOnReload && !c.setup.bcd
  {
    FiveWrittenIs(chip, control);
    hide FiveWritten;
  }

  /** The half-written count is reached in modes 2 and 3 on both chips, and is what the next tick loads. */
  lemma HalfWrittenReached(chip: Chip, control: int)
    requires control in {0x34, 0x36}
    ensures Run(PowerOn(chip), [Gate(true), Program(control), Write(5), Write(0), Write(1)]) == HalfWritten(chip, control)
    ensures var d := HalfWritten(chip, control);
            && Good(d) && d.setup.mode == (if control == 0x34 then 2 else 3) && d.ctr.phase == LoadNext && d.gate
            && d.load.countRegister == 1
  {
    HalfWrittenIs(chip, control);
    hide HalfWritten, FiveWritten;
    WrittenIsReached(chip, control);
  }

  lemma WrittenIsReached(chip: Chip, control: int)
    requires control in {0x34, 0x36}
    ensures Run(PowerOn(chip), [Gate(true), Program(control), Write(5), Write(0), Write(1)]) == HalfWritten(chip, control)
    ensures Good(HalfWritten(chip, control))
  {
    hide Run, DataWrite, ProgramMode, SetGate, PowerOn, Good;
    var c := PowerOn(chip);
    var evs := [Gate(true), Program(control), Write(5), Write(0), Write(1)];
    PowerOnIsGood(chip);
    RunKeepsGood(c, evs);
    assert evs == [Gate(true)] + ([Program(control)] + ([Write(5)] + ([Write(0)] + [Write(1)])));
    var c1 := SetGate(c, true);
    var c2 := ProgramMode(c1, control);
    var c3 := DataWrite(c2, 5);
    var c4 := DataWrite(c3, 0);
    RunCons(c, Gate(true), [Program(control)] + ([Write(5)] + ([Write(0)] + [Write(1)])));
    RunCons(c1, Program(control), [Write(5)] + ([Write(0)] + [Write(1)]));
    RunCons(c2, Write(5), [Write(0)] + [Write(1)]);
    RunCons(c3, Write(0), [Write(1)]);
    RunOne(c4, Write(1));
  }

  lemma ZeroPosition(N: int)
    requires N >= 1
    ensures 0 % N == 0
  {
  }

  /** A complete count write never leaves the divisor 1 in modes 2 and 3. */
  lemma NoUnitDivisor(c: Channel)
    requires c.setup.mode == 2 || c.setup.mode == 3
    ensures FinalizeWrite(c).load.countRegister != 1
  {
  }

  // ----- mode 3: square wave -----

  /** Value of the counting element at position r of a period, on either chip. */
  function SquareValue(chip: Chip, N: int, r: int): int {
    var half := (N + 1) / 2;
    var s := if r < half then r else r - half;
    if N % 2 == 0 then N - 2 * s
    else if chip == I8254 then N - 1 - 2 * s
    else if s == 0 then N
    else if r < half then N + 1 - 2 * s
    else N - 1 - 2 * s
  }

  /** The square wave of a complete count. */
  ghost predicate Mode3At(c: Channel, N: int, r: int) {
    var half := (N + 1) / 2;
    var last := N % 2 == 1 && c.chip == I8254 && r == half - 1;
    && InRange(c) && c.setup.mode == 3 && c.gate && Divisor(c) == N && 2 <= N && 0 <= r < N
    && CountValue(c.setup.bcd, c.ctr.element) == SquareValue(c.chip, N, r)
    && (c.ctr.output <==> r < half)
    && (c.ctr.toggleOnReload <==> last)
    && c.ctr.phase == (if last then ReloadNext else Counting)
  }

  /** How far one tick of the square wave comes down. */
  function SquareStep(c: Channel): nat {
    if Odd(c) && c.chip == I8253 && c.ctr.element % 2 == 1 then (if c.ctr.output then 1 else 3) else 2
  }

  lemma SquareCounts(c: Channel)
    requires c.setup.mode == 3 && c.gate && c.ctr.phase == Counting
    ensures Tick(c) == CountMode3(c.(clocks := (c.clocks + 1) % 0x1_0000_0000_0000_0000))
  {
    hide CountMode3, WithElement, VisibleCount, Decremented;
  }

  lemma SquareTick(c: Channel)
    requires c.setup.mode == 3 && c.gate && c.ctr.phase == Counting
    ensures var d, e := Tick(c), DecrementedBy(c.setup.bcd, c.ctr.element, SquareStep(c));
            var masked := Odd(c) && c.chip == I8254;
            && d.chip == c.chip && d.setup == c.setup && d.load == c.load && d.gate == c.gate
            && d.ctr == if VisibleCount(e) != 0 then c.ctr.(element := e)
                        else if masked && c.ctr.output then
                          c.ctr.(element := e, toggleOnReload := true, phase := ReloadNext)
                        else
                          c.ctr.(element := ReloadValue(c.load) - (if masked then 1 else 0), output := !c.ctr.output)
  {
    SquareCounts(c);
    var u := c.(clocks := (c.clocks + 1) % 0x1_0000_0000_0000_0000);
    SquareCases(u);
    SquareFields(u, DecrementedBy(c.setup.bcd, c.ctr.element, SquareStep(c)));
    hide Tick, CountMode3, DecrementedBy, SquareNext, ReloadValue, VisibleCount;
  }

  lemma SquareFields(c: Channel, e: int)
    ensures var d, masked := SquareNext(c, e), Odd(c) && c.chip == I8254;
            && d.chip == c.chip && d.setup == c.setup && d.load == c.load && d.gate == c.gate
            && d.ctr == if VisibleCount(e) != 0 then c.ctr.(element := e)
                        else if masked && c.ctr.output then
                          c.ctr.(element := e, toggleOnReload := true, phase := ReloadNext)
                        else
                          c.ctr.(element := ReloadValue(c.load) - (if masked then 1 else 0), output := !c.ctr.output)
  {
    hide ReloadValue, VisibleCount;
  }

  /** The channel after the tick, from the element e it counts to. */
  function SquareNext(c: Channel, e: int): Channel {
    var masked, d := Odd(c) && c.chip == I8254, WithElement(c, e);
    if VisibleCount(e) != 0 then d
    else if masked && c.ctr.output then d.(ctr := d.ctr.(toggleOnReload := true, phase := ReloadNext))
    else WithElement(WithOutput(d, !c.ctr.output, c.ctr.phase), ReloadValue(c.load) - (if masked then 1 else 0))
  }

  lemma SquareCases(c: Channel)
    ensures CountMode3(c) == SquareNext(c, DecrementedBy(c.setup.bcd, c.ctr.element, SquareStep(c)))
  {
    hide DecrementedBy, ReloadValue, VisibleCount;
  }

  lemma SquareRange(c: Channel)
    requires InRange(c) && c.setup.mode == 3 && c.gate && c.ctr.phase == Counting
    requires 0 <= DecrementedBy(c.setup.bcd, c.ctr.element, SquareStep(c)) <= 0x1_0000
    ensures InRange(Tick(c))
  {
    SquareCounts(c);
    var u := c.(clocks := (c.clocks + 1) % 0x1_0000_0000_0000_0000);
    SquareCases(u);
    NextInRange(u, DecrementedBy(c.setup.bcd, c.ctr.element, SquareStep(c)));
    hide Tick, CountMode3, DecrementedBy, SquareNext;
  }

  lemma NextInRange(c: Channel, e: int)
    requires InRange(c) && 0 <= e <= 0x1_0000
    ensures InRange(SquareNext(c, e))
  {
  }

  lemma Mode3Tick(c: Channel, N: int, r: int)
    requires Mode3At(c, N, r)
    ensures Mode3At(Tick(c), N, if r == N - 1 then 0 else r + 1)
  {
    if N % 2 == 1 && c.chip == I8254 {
      Mode3TickMasked(c, N, r);
    } else {
      Mode3TickPlain(c, N, r);
    }
  }

  /** Odd divisor on the 8254: the element is even, and the high half ends one tick late. */
  lemma Mode3TickMasked(c: Channel, N: int, r: int)
    requires Mode3At(c, N, r) && N % 2 == 1 && c.chip == I8254
    ensures Mode3At(Tick(c), N, if r == N - 1 then 0 else r + 1)
  {
    hide Decremented, DecrementedBy, CountValue;
    DivisorLaws(c);
    if r != (N + 1) / 2 - 1 {
      SquareTick(c);
      hide Tick;
      DecrementsValue(c.setup.bcd, c.ctr.element, 2);
      ValueLaws(c.setup.bcd, DecrementedBy(c.setup.bcd, c.ctr.element, 2));
    }
  }

  /** Otherwise the element carries the parity of the divisor at the start of each half. */
  lemma Mode3TickPlain(c: Channel, N: int, r: int)
    requires Mode3At(c, N, r) && !(N % 2 == 1 && c.chip == I8254)
    ensures Mode3At(Tick(c), N, if r == N - 1 then 0 else r + 1)
  {
    hide Decremented, DecrementedBy, CountValue;
    DivisorLaws(c);
    ElementParity(c);
    SquareTick(c);
    hide Tick;
    var n := SquareStep(c);
    DecrementsValue(c.setup.bcd, c.ctr.element, n);
    SquareRange(c);
    ValueLaws(c.setup.bcd, DecrementedBy(c.setup.bcd, c.ctr.element, n));
  }

  lemma ElementParity(c: Channel)
    requires InRange(c)
    ensures c.ctr.element % 2 == CountValue(c.setup.bcd, c.ctr.element) % 2
  {
    if c.ctr.element < 0x1_0000 {
      ValueLaws(c.setup.bcd, c.ctr.element);
    }
  }

  lemma QuietKeepsSquare(c: Channel, N: int, r: int, e: Event)
    requires Mode3At(c, N, r) && Quiet(e) && e != Clock && e != Gate(false)
    ensures Mode3At(Step(c, e), N, r)
  {
    QuietHighKeeps(c, e);
    hide Step, CountValue, SquareValue;
  }

  lemma {:induction false} Mode3Run(c: Channel, N: int, n: int, evs: seq<Event>)
    requires 0 <= n && 2 <= N && Mode3At(c, N, n % N) && AllQuietHigh(evs)
    ensures Mode3At(Run(c, evs), N, (n + Ticks(evs)) % N)
    decreases |evs|
  {
    hide Tick, Step, Mode3At;
    if evs == [] {
    } else {
      var e := evs[0];
      if e == Clock {
        ClockIsTick(c);
        Mode3Tick(c, N, n % N);
        NextPosition(n, N);
        Mode3Run(Tick(c), N, n + 1, evs[1..]);
      } else {
        QuietKeepsSquare(c, N, n % N, e);
        Mode3Run(Step(c, e), N, n, evs[1..]);
      }
    }
  }

  // ----- a half-written count of 1 -----

  /** Value of the counting element at position r of a period when a count of 1 is loaded: on the 8254 the element
      is 0 at the start of each half, on the 8253 it is 1, and both count down from the top of the modulus. */
  function UnitValue(chip: Chip, M: int, r: int): int {
    var high := if chip == I8254 then M / 2 + 1 else 1;
    var s := if r < high then r else r - high;
    if s == 0 then (if chip == I8254 then 0 else 1) else M - 2 * s
  }

  ghost predicate UnitAt(c: Channel, M: int, r: int) {
    var high := if c.chip == I8254 then M / 2 + 1 else 1;
    var last := c.chip == I8254 && r == high - 1;
    && InRange(c) && c.setup.mode == 3 && c.gate && c.load.countRegister == 1 && Modulus(c.setup.bcd) == M
    && 0 <= r < high + M / 2 && CountValue(c.setup.bcd, c.ctr.element) == UnitValue(c.chip, M, r)
    && (c.ctr.output <==> r < high)
    && (c.ctr.toggleOnReload <==> last)
    && c.ctr.phase == (if last then ReloadNext else Counting)
  }

  lemma TwoDecrements(bcd: bool, e: int)
    requires 0 <= e <= 0x1_0000
    ensures DecrementedBy(bcd, e, 2) == Decremented(bcd, Decremented(bcd, e))
    ensures DecrementedBy(bcd, e, 3) == Decremented(bcd, Decremented(bcd, Decremented(bcd, e)))
    ensures DecrementedBy(bcd, e, 1) == Decremented(bcd, e)
  {
    hide Decremented;
    assert DecrementedBy(bcd, e, 0) == e;
    assert DecrementedBy(bcd, e, 1) == Decremented(bcd, e);
    assert DecrementedBy(bcd, e, 2) == Decremented(bcd, DecrementedBy(bcd, e, 1));
  }

  lemma DecrementsAround(bcd: bool, e: int, n: nat)
    requires 0 <= e <= 0x1_0000 && 1 <= n <= 3 && CountValue(bcd, e) < n
    ensures CountValue(bcd, DecrementedBy(bcd, e, n)) == Modulus(bcd) + CountValue(bcd, e) - n
    ensures 0 <= DecrementedBy(bcd, e, n) < 0x1_0000
  {
    hide Decremented, CountValue, DecrementedBy;
    if e < 0x1_0000 {
      ValueLaws(bcd, e);
    } else {
      FullValue(bcd);
    }
    TwoDecrements(bcd, e);
    DecrementValue(bcd, e);
    var d := Decremented(bcd, e);
    DecrementValue(bcd, d);
    DecrementValue(bcd, Decremented(bcd, d));
    assert n == 1 || n == 2 || n == 3;
  }

  lemma UnitTick(c: Channel, M: int, r: int)
    requires UnitAt(c, M, r)
    ensures var period := (if c.chip == I8254 then M / 2 + 1 else 1) + M / 2;
            UnitAt(Tick(c), M, if r == period - 1 then 0 else r + 1)
  {
    if c.chip == I8254 {
      UnitTick8254(c, M, r);
    } else {
      UnitTick8253(c, M, r);
    }
  }

  lemma UnitTick8254(c: Channel, M: int, r: int)
    requires UnitAt(c, M, r) && c.chip == I8254
    ensures UnitAt(Tick(c), M, if r == M then 0 else r + 1)
  {
    hide Decremented, DecrementedBy, CountValue;
    ZeroOrOne(c.setup.bcd);
    if r != M / 2 {
      SquareTick(c);
      hide Tick;
      var e := c.ctr.element;
      if UnitValue(c.chip, M, r) == 0 {
        DecrementsAround(c.setup.bcd, e, 2);
      } else {
        DecrementsValue(c.setup.bcd, e, 2);
      }
      ValueLaws(c.setup.bcd, DecrementedBy(c.setup.bcd, e, 2));
    }
  }

  lemma UnitTick8253(c: Channel, M: int, r: int)
    requires UnitAt(c, M, r) && c.chip == I8253
    ensures UnitAt(Tick(c), M, if r == M / 2 then 0 else r + 1)
  {
    hide Decremented, DecrementedBy, CountValue;
    ZeroOrOne(c.setup.bcd);
    ElementParity(c);
    SquareTick(c);
    hide Tick;
    var e, n := c.ctr.element, SquareStep(c);
    if r == 1 {
      DecrementsAround(c.setup.bcd, e, 3);
    } else {
      DecrementsValue(c.setup.bcd, e, n);
    }
    ValueLaws(c.setup.bcd, DecrementedBy(c.setup.bcd, e, n));
  }

  lemma ZeroOrOne(bcd: bool)
    ensures CountValue(bcd, 0) == 0 && CountValue(bcd, 1) == 1 && Modulus(bcd) in {10000, 65536}
  {
    ValueLaws(bcd, 0);
    ValueLaws(bcd, 1);
  }

  lemma QuietKeepsUnit(c: Channel, M: int, r: int, e: Event)
    requires UnitAt(c, M, r) && Quiet(e) && e != Clock && e != Gate(false)
    ensures UnitAt(Step(c, e), M, r)
  {
    QuietHighKeeps(c, e);
    hide Step, CountValue, UnitValue;
  }

  lemma {:induction false} UnitRun(c: Channel, M: int, period: int, n: int, evs: seq<Event>)
    requires 0 <= n && AllQuietHigh(evs) && period == (if c.chip == I8254 then M / 2 + 1 else 1) + M / 2 && period >= 1
    requires UnitAt(c, M, n % period)
    ensures UnitAt(Run(c, evs), M, (n + Ticks(evs)) % period)
    decreases |evs|
  {
    hide Tick, Step, UnitAt;
    if evs == [] {
    } else {
      var e := evs[0];
      StepKeepsChip(c, e);
      if e == Clock {
        ClockIsTick(c);
        UnitTick(c, M, n % period);
        NextPosition(n, period);
        UnitRun(Tick(c), M, period, n + 1, evs[1..]);
      } else {
        QuietKeepsUnit(c, M, n % period, e);
        UnitRun(Step(c, e), M, period, n, evs[1..]);
      }
    }
  }

  // ----- the waveform of any load -----

  /** The lengths of the two halves of a period. */
  function High(c: Channel): int {
    if c.load.countRegister != 1 then (Divisor(c) + 1) / 2
    else if c.chip == I8254 then Modulus(c.setup.bcd) / 2 + 1
    else 1
  }

  function Low(c: Channel): int {
    if c.load.countRegister != 1 then Divisor(c) / 2 else Modulus(c.setup.bcd) / 2
  }

  /** Where in the period a load puts the channel: at the start of the low half if a toggle was
      left pending, at the start of the period otherwise. */
  function StartPosition(c: Channel): int {
    if c.ctr.toggleOnReload then High(c) else 0
  }

  function PositionValue(c: Channel, r: int): int {
    if c.load.countRegister == 1 then UnitValue(c.chip, Modulus(c.setup.bcd), r) else SquareValue(c.chip, Divisor(c), r)
  }

  lemma Mode3Load(c: Channel)
    requires Good(c) && c.setup.mode == 3 && c.ctr.phase == LoadNext && c.gate
    ensures High(c) >= 1 && Low(c) >= 1
    ensures c.load.countRegister != 1 ==> Divisor(c) >= 2 && Mode3At(Tick(c), Divisor(c), StartPosition(c))
    ensures c.load.countRegister == 1 ==> UnitAt(Tick(c), Modulus(c.setup.bcd), StartPosition(c))
  {
    hide CountValue;
    DivisorLaws(c);
    ZeroOrOne(c.setup.bcd);
    TickKeepsGood(c);
  }

  /** With the gate high and no count write, OUT is high exactly in the first High ticks of each period of
      High + Low -- counted from the low half if the load found a toggle pending.  For a complete count N these are
      ceil(N / 2) and floor(N / 2) on both chips. */
  lemma Mode3Waveform(c: Channel, evs: seq<Event>)
    requires Good(c) && c.setup.mode == 3 && c.ctr.phase == LoadNext && c.gate && AllQuietHigh(evs)
    ensures High(c) >= 1 && Low(c) >= 1
    ensures var d, n := Run(Tick(c), evs), (StartPosition(c) + Ticks(evs)) % (High(c) + Low(c));
            && (d.ctr.output <==> n < High(c))
            && CountValue(d.setup.bcd, d.ctr.element) == PositionValue(c, n)
  {
    hide CountValue, SquareValue, UnitValue, Tick;
    Mode3Load(c);
    var r, period := StartPosition(c), High(c) + Low(c);
    RemainderIs(r, period, 0, r);
    TickKeepsSetup(c);
    RunKeepsChip(Tick(c), evs);
    if c.load.countRegister == 1 {
      UnitRun(Tick(c), Modulus(c.setup.bcd), period, r, evs);
    } else {
      assert period == Divisor(c);
      Mode3Run(Tick(c), period, r, evs);
    }
    RunKeepsLoad(Tick(c), evs);
    LoadKeepsSetup(c);
  }

  lemma LoadKeepsSetup(c: Channel)
    requires c.ctr.phase == LoadNext
    ensures Tick(c).setup == c.setup && Tick(c).load.countRegister == c.load.countRegister
  {
  }

  lemma TickKeepsSetup(c: Channel)
    ensures Tick(c).chip == c.chip
  {
  }

  lemma {:induction false} RunKeepsChip(c: Channel, evs: seq<Event>)
    ensures Run(c, evs).chip == c.chip
    decreases |evs|
  {
    if evs == [] {
    } else {
      StepKeepsChip(c, evs[0]);
      RunKeepsChip(Step(c, evs[0]), evs[1..]);
    }
  }

  lemma StepKeepsChip(c: Channel, e: Event)
    ensures Step(c, e).chip == c.chip
  {
  }

  /** Both chips produce the same OUT for the same count, although their live counts differ -- exactly when that
      count is complete and neither, or both, load with a toggle pending.  Under a half-written 1 the 8253 is high
      for one tick and the 8254 for half the modulus; a pending toggle makes one of them start low. */
  lemma ChipsAgree(c: Channel, d: Channel)
    requires Good(c) && c.setup.mode == 3 && c.ctr.phase == LoadNext && c.gate && c.chip == I8253
    requires Good(d) && d.setup.mode == 3 && d.ctr.phase == LoadNext && d.gate && d.chip == I8254
    requires d.load.countRegister == c.load.countRegister && d.setup.bcd == c.setup.bcd
    ensures (forall evs :: AllQuietHigh(evs) ==> Run(Tick(c), evs).ctr.output == Run(Tick(d), evs).ctr.output)
            <==> c.load.countRegister != 1 && c.ctr.toggleOnReload == d.ctr.toggleOnReload
  {
    hide Tick, Run, Good, CountValue, AllQuietHigh, PositionValue, Ticks;
    if c.ctr.toggleOnReload != d.ctr.toggleOnReload {
      TriggerRestartsHigh(c);
      TriggerRestartsHigh(d);
      TicksOfClocks(0);
      ClocksCons(Tick(c), 0);
      ClocksCons(Tick(d), 0);
      assert Run(Tick(c), Clocks(0)).ctr.output != Run(Tick(d), Clocks(0)).ctr.output;
    } else if c.load.countRegister != 1 {
      forall evs | AllQuietHigh(evs) ensures Run(Tick(c), evs).ctr.output == Run(Tick(d), evs).ctr.output {
        Mode3Waveform(c, evs);
        Mode3Waveform(d, evs);
      }
    } else {
      UnitDiffers(c, d);
    }
  }

  lemma UnitDiffers(c: Channel, d: Channel)
    requires Good(c) && c.setup.mode == 3 && c.ctr.phase == LoadNext && c.gate && c.chip == I8253
    requires Good(d) && d.setup.mode == 3 && d.ctr.phase == LoadNext && d.gate && d.chip == I8254
    requires d.load.countRegister == c.load.countRegister == 1 && d.setup.bcd == c.setup.bcd
    requires d.ctr.toggleOnReload == c.ctr.toggleOnReload
    ensures exists evs :: AllQuietHigh(evs) && Run(Tick(c), evs).ctr.output != Run(Tick(d), evs).ctr.output
  {
    hide Tick, Run, Good, CountValue, AllQuietHigh, PositionValue, Ticks;
    var n := if c.ctr.toggleOnReload then Low(c) + 1 else 1;
    TicksOfClocks(n);
    Mode3Waveform(c, Clocks(n));
    Mode3Waveform(d, Clocks(n));
    ZeroOrOne(c.setup.bcd);
    if c.ctr.toggleOnReload {
      RemainderIs(StartPosition(d) + n, High(d) + Low(d), 1, 1);
      RemainderIs(StartPosition(c) + n, High(c) + Low(c), 1, 1);
    } else {
      RemainderIs(1, High(d) + Low(d), 0, 1);
      RemainderIs(1, High(c) + Low(c), 0, 1);
    }
    assert Run(Tick(c), Clocks(n)).ctr.output != Run(Tick(d), Clocks(n)).ctr.output;
  }

  lemma ClocksCons(c: Channel, n: nat)
    ensures Run(c, Clocks(n + 1)) == Run(Tick(c), Clocks(n)) && Run(c, Clocks(0)) == c
  {
    assert Clocks(n + 1)[1..] == Clocks(n);
  }

  /** Only an 8254 ever leaves a toggle pending. */
  lemma PendingOnlyOn8254(c: Channel, e: Event)
    requires c.chip == I8253 && !c.ctr.toggleOnReload
    ensures !Step(c, e).ctr.toggleOnReload
  {
    hide Decremented, DecrementedBy, VisibleCount, StatusByte, Tick;
    if e == Clock {
      TickLeavesNone(c);
    }
  }

  lemma TickLeavesNone(c: Channel)
    requires c.chip == I8253 && !c.ctr.toggleOnReload
    ensures !Tick(c).ctr.toggleOnReload
  {
    hide Decremented, DecrementedBy, VisibleCount, CountMode3, LoadedElement;
    if c.setup.mode == 3 && c.gate && c.ctr.phase == Counting {
      SquareTick(c);
    }
  }

  lemma {:induction false} NeverPendingOn8253(c: Channel, evs: seq<Event>)
    requires c.chip == I8253 && !c.ctr.toggleOnReload
    ensures !Run(c, evs).ctr.toggleOnReload
    decreases |evs|
  {
    hide Step;
    if evs == [] {
    } else {
      PendingOnlyOn8254(c, evs[0]);
      StepKeepsChip(c, evs[0]);
      NeverPendingOn8253(Step(c, evs[0]), evs[1..]);
    }
  }

  /** High ticks among the positions k .. k + m - 1. */
  function HighTicks(N: int, k: int, m: nat): nat
    requires N >= 1
  {
    if m == 0 then 0 else HighTicks(N, k, m - 1) + if (k + m - 1) % N < (N + 1) / 2 then 1 else 0
  }

  lemma {:induction false} HighTicksFromZero(N: int, m: nat)
    requires 1 <= N && m <= N
    ensures HighTicks(N, 0, m) == if m <= (N + 1) / 2 then m else (N + 1) / 2
  {
    if m == 0 {
    } else {
      HighTicksFromZero(N, m - 1);
      RemainderIs(m - 1, N, 0, m - 1);
    }
  }

  lemma {:induction false} HighTicksShift(N: int, k: int, m: nat)
    requires N >= 1
    ensures HighTicks(N, k, m + 1) == HighTicks(N, k + 1, m) + if k % N < (N + 1) / 2 then 1 else 0
  {
    if m == 0 {
    } else {
      HighTicksShift(N, k, m - 1);
    }
  }

  /** Every N consecutive ticks hold exactly ceil(N / 2) high ones. */
  lemma {:induction false} DutyCycle(N: int, k: nat)
    requires N >= 1
    ensures HighTicks(N, k, N) == (N + 1) / 2
  {
    if k == 0 {
      HighTicksFromZero(N, N);
    } else {
      DutyCycle(N, k - 1);
      HighTicksShift(N, k - 1, N);
      SamePosition(k - 1, N);
    }
  }

  lemma SamePosition(k: int, N: int)
    requires N >= 1
    ensures (k + N) % N == k % N
  {
    RemainderIs(k + N, N, k / N + 1, k % N);
  }

  // ----- where the square wave departs from the data sheet -----

  /** A gate trigger should restart the wave with OUT high.  It does so exactly when no toggle was
      left pending. */
  lemma TriggerRestartsHigh(c: Channel)
    requires Good(c) && c.setup.mode == 3 && c.ctr.phase == LoadNext
    ensures Tick(c).ctr.output <==> !c.ctr.toggleOnReload
  {
  }

  lemma RunCons(c: Channel, e: Event, rest: seq<Event>)
    ensures Run(c, [e] + rest) == Run(Step(c, e), rest)
  {
  }

  /** Mode 3, divisor 3, gate high, freshly written. */
  lemma ThreeWritten(chip: Chip) returns (c: Channel)
    ensures c == Run(PowerOn(chip), [Gate(true), Program(0x16), Write(3)])
    ensures c.chip == chip && c.setup.mode == 3 && !c.setup.bcd && c.gate && c.load.countRegister == 3
    ensures c.ctr.phase == LoadNext && c.ctr.output && !c.ctr.toggleOnReload && !c.latch.countLatched
  {
    var c1 := Step(PowerOn(chip), Gate(true));
    var c2 := Step(c1, Program(0x16));
    c := Step(c2, Write(3));
    var none: seq<Event> := [];
    assert [Gate(true)] + ([Program(0x16)] + ([Write(3)] + none)) == [Gate(true), Program(0x16), Write(3)];
    hide Step;
    RunCons(PowerOn(chip), Gate(true), [Program(0x16)] + ([Write(3)] + none));
    RunCons(c1, Program(0x16), [Write(3)] + none);
    RunCons(c2, Write(3), none);
  }

  lemma TwoTicks(c: Channel)
    requires c.setup.mode == 3 && !c.setup.bcd && c.gate && c.load.countRegister == 3
    requires c.ctr.phase == LoadNext && c.ctr.output && !c.ctr.toggleOnReload
    ensures var d := Tick(Tick(c));
            && d.setup == c.setup && d.gate && d.ctr.output && (d.ctr.toggleOnReload <==> c.chip == I8254)
            && d.ctr.phase == if c.chip == I8254 then ReloadNext else Counting
  {
  }

  lemma DropAndRaise(c: Channel)
    requires c.setup.mode == 3 && c.gate && (c.ctr.phase == ReloadNext || c.ctr.phase == Counting)
    ensures Tick(SetGate(SetGate(c, false), true)).ctr.output <==> !c.ctr.toggleOnReload
  {
  }

  /** On the 8254 a gate drop just before the deferred toggle leaves it pending, so the next
      trigger starts low; the 8253 starts high on the same pins. */
  lemma PendingToggleReachable(chip: Chip)
    ensures var evs := [Gate(true), Program(0x16), Write(3)] + [Clock, Clock, Gate(false), Gate(true), Clock];
            Run(PowerOn(chip), evs).ctr.output <==> chip == I8253
  {
    hide Tick, SetGate, Run;
    var c := ThreeWritten(chip);
    var none: seq<Event> := [];
    RunAppend(PowerOn(chip), [Gate(true), Program(0x16), Write(3)], [Clock, Clock, Gate(false), Gate(true), Clock]);
    assert [Clock] + ([Clock] + ([Gate(false)] + ([Gate(true)] + ([Clock] + none))))
        == [Clock, Clock, Gate(false), Gate(true), Clock];
    RunCons(c, Clock, [Clock] + ([Gate(false)] + ([Gate(true)] + ([Clock] + none))));
    RunCons(Tick(c), Clock, [Gate(false)] + ([Gate(true)] + ([Clock] + none)));
    var d := Tick(Tick(c));
    RunCons(d, Gate(false), [Gate(true)] + ([Clock] + none));
    RunCons(SetGate(d, false), Gate(true), [Clock] + none);
    RunCons(SetGate(SetGate(d, false), true), Clock, none);
    RunOne(Tick(SetGate(SetGate(d, false), true)), Clock);
    TwoTicks(c);
    DropAndRaise(d);
  }
}
