/** The strobed modes, 4 and 5: what OUT does under every sequence of gate edges and ticks, and that the
    strobe is not a single one. */
module PitStrobe {
  import opened Arith
  import opened Pit
  import opened PitRuns
  import opened PitWaves

  /** An ideal strobe: counting, one tick low whenever the count has run out, and in mode 5 started
      again by the tick after a rising gate edge. */
  datatype Strobe = Strobe(triggered: bool, since: nat, low: bool, gate: bool)

  /** s decrements from N, the count has come down to zero: first after N, then once in each modulus. */
  predicate RunsOut(N: int, modulus: int, s: int)
    requires modulus > 0
  {
    s >= N && (s - N) % modulus == 0
  }

  function StrobeStep(m: Strobe, N: int, modulus: int, mode: int, e: Event): Strobe
    requires modulus > 0
  {
    match e
    case Gate(level) => m.(triggered := m.triggered || (mode == 5 && !m.gate && level), gate := level)
    case Clock =>
      if m.triggered then Strobe(false, 0, false, m.gate)
      else if m.low then m.(low := false)
      else if mode == 5 || m.gate then m.(since := m.since + 1, low := RunsOut(N, modulus, m.since + 1))
      else m
    case _ => m
  }

  function StrobeRun(m: Strobe, N: int, modulus: int, mode: int, evs: seq<Event>): Strobe
    requires modulus > 0
    decreases |evs|
  {
    if evs == [] then m else StrobeRun(StrobeStep(m, N, modulus, mode, evs[0]), N, modulus, mode, evs[1..])
  }

  ghost predicate StrobeAt(c: Channel, N: int, m: Strobe) {
    && InRange(c) && c.setup.mode in {4, 5} && c.gate == m.gate && Divisor(c) == N && 1 <= N
    && c.ctr.phase == (if m.triggered then LoadNext else if m.low then StrobeRecover else Counting)
    && c.ctr.output == !m.low && (m.triggered ==> c.setup.mode == 5)
    && CountValue(c.setup.bcd, c.ctr.element) == DownCount(N, m.since, Modulus(c.setup.bcd))
  }

  lemma DownToZero(N: int, bcd: bool, s: int)
    requires 0 <= s && 1 <= N
    ensures DownCount(N, s, Modulus(bcd)) == 0 <==> RunsOut(N, Modulus(bcd), s)
  {
  }

  lemma StrobeTick(c: Channel, N: int, m: Strobe)
    requires StrobeAt(c, N, m)
    ensures StrobeAt(Tick(c), N, StrobeStep(m, N, Modulus(c.setup.bcd), c.setup.mode, Clock))
  {
    hide Decremented, CountValue, DownCount, RunsOut, Modulus;
    if m.triggered {
      ReachedZero(N, Modulus(c.setup.bcd));
    } else if !m.low {
      DecrementValue(c.setup.bcd, c.ctr.element);
      DownCountStep(N, m.since, c.setup.bcd);
      DownToZero(N, c.setup.bcd, m.since + 1);
      ValueLaws(c.setup.bcd, Decremented(c.setup.bcd, c.ctr.element));
    }
  }

  lemma StrobeEdge(c: Channel, N: int, m: Strobe, e: Event)
    requires StrobeAt(c, N, m) && Quiet(e) && e != Clock
    ensures Step(c, e).setup == c.setup
    ensures StrobeAt(Step(c, e), N, StrobeStep(m, N, Modulus(c.setup.bcd), c.setup.mode, e))
  {
    hide CountValue, DownCount, Modulus, RunsOut;
    if !e.Gate? {
      LatchesDoNotCount(c, e);
    }
    LatchesKeepRange(c, e);
  }

  lemma {:induction false} StrobeRuns(c: Channel, N: int, m: Strobe, evs: seq<Event>)
    requires StrobeAt(c, N, m) && AllQuiet(evs)
    ensures StrobeAt(Run(c, evs), N, StrobeRun(m, N, Modulus(c.setup.bcd), c.setup.mode, evs))
    decreases |evs|
  {
    hide StrobeAt, StrobeStep, Step, Modulus;
    if evs == [] {
    } else {
      var e := evs[0];
      if e == Clock {
        StrobeTick(c, N, m);
        ClockIsTick(c);
      } else {
        StrobeEdge(c, N, m, e);
      }
      StrobeRuns(Step(c, e), N, StrobeStep(m, N, Modulus(c.setup.bcd), c.setup.mode, e), evs[1..]);
    }
  }

  /** After a load, the channel is an ideal strobe under every sequence of gate edges, ticks, reads and latch
      commands: OUT is low for exactly the one tick after the count has run out. */
  lemma StrobeWaveform(c: Channel, evs: seq<Event>)
    requires Good(c) && c.setup.mode in {4, 5} && c.ctr.phase == LoadNext && AllQuiet(evs)
    ensures var m := StrobeRun(Strobe(false, 0, false, c.gate), Divisor(c), Modulus(c.setup.bcd), c.setup.mode, evs);
            Run(Tick(c), evs).ctr.output <==> !m.low
  {
    hide CountValue, DownCount, StrobeRun, Run, Modulus;
    DivisorLaws(c);
    ReachedZero(Divisor(c), Modulus(c.setup.bcd));
    TickKeepsGood(c);
    StrobeRuns(Tick(c), Divisor(c), Strobe(false, 0, false, c.gate), evs);
  }

  // ----- repetition -----

  /** The ideal strobe n ticks after its load, with the gate high and no edges. */
  function Position(N: int, bcd: bool, n: nat): Strobe
    requires N >= 1
  {
    var x, period := n - N, Modulus(bcd) + 1;
    if x < 0 then Strobe(false, n, false, true)
    else
      var q, r := x / period, x % period;
      Strobe(false, N + q * Modulus(bcd) + (if r == 0 then 0 else r - 1), r == 0, true)
  }

  lemma PositionStep(N: int, bcd: bool, mode: int, n: nat)
    requires N >= 1
    ensures Position(N, bcd, n + 1) == StrobeStep(Position(N, bcd, n), N, Modulus(bcd), mode, Clock)
  {
    hide Modulus;
    var x, M := n - N, Modulus(bcd);
    if x == -1 {
      Whole(0, 0, bcd);
      Start(M + 1);
    } else if x >= 0 {
      NextPosition(x, M + 1);
      NextQuotient(x, M + 1);
      Whole(x / (M + 1), x % (M + 1), bcd);
      assert (x / (M + 1) + 1) * M == x / (M + 1) * M + M;
    }
  }

  lemma Start(d: int)
    requires d > 0
    ensures 0 / d == 0 && 0 % d == 0
  {
  }

  lemma NextQuotient(n: int, d: int)
    requires n >= 0 && d > 0
    ensures (n + 1) / d == if n % d == d - 1 then n / d + 1 else n / d
    ensures 0 <= n / d
  {
    var q, p := n / d, (n + 1) / d;
    NextPosition(n, d);
    assert n == q * d + n % d && n + 1 == p * d + (n + 1) % d;
    var k := p - q;
    assert k * d == 1 + n % d - (n + 1) % d;
    if n % d == d - 1 {
      SameQuotient(k - 1, d);
    } else {
      SameQuotient(k, d);
    }
  }

  lemma SameQuotient(k: int, d: int)
    requires d > 0 && k * d == 0
    ensures k == 0
  {
  }

  lemma Whole(q: int, r: int, bcd: bool)
    requires 0 <= r <= Modulus(bcd)
    ensures (q * Modulus(bcd) + r) % Modulus(bcd) == 0 <==> r == 0 || r == Modulus(bcd)
  {
  }

  lemma {:induction false} PositionReached(N: int, bcd: bool, mode: int, n: nat, k: nat)
    requires N >= 1
    ensures StrobeRun(Position(N, bcd, n), N, Modulus(bcd), mode, Clocks(k)) == Position(N, bcd, n + k)
    decreases k
  {
    hide Position, StrobeStep, Modulus;
    if k == 0 {
    } else {
      PositionStep(N, bcd, mode, n);
      assert Clocks(k)[1..] == Clocks(k - 1);
      PositionReached(N, bcd, mode, n + 1, k - 1);
    }
  }

  /** With the gate high the strobe comes N ticks after the load and again every modulus + 1 ticks for ever:
      the chip's strobe is a single one, the code's is not. */
  lemma StrobesRepeat(c: Channel, n: nat)
    requires Good(c) && c.setup.mode in {4, 5} && c.ctr.phase == LoadNext && c.gate
    ensures var N, period := Divisor(c), Modulus(c.setup.bcd) + 1;
            Run(Tick(c), Clocks(n)).ctr.output <==> !(n >= N && (n - N) % period == 0)
  {
    DivisorLaws(c);
    StrobeWaveform(c, Clocks(n));
    hide StrobeRun, Run, Divisor, Tick, Good;
    PositionReached(Divisor(c), c.setup.bcd, c.setup.mode, 0, n);
  }
}
