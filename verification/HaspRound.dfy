/** The keyed round of the dongle: 39 steps of a table-driven shift register, and the
    linear structure of its output. */
module HaspRound {
  import opened HaspScript
  import opened Numbers
  import opened Words

  const POLY: Word := W(0x80500062)
  const PASSWORD_MASK: Word := W(0x01081989)

  /** The key table is indexed with at most seven. */
  type Table = t: seq<Byte> | |t| >= 8 witness seq<Byte>(8, _ => Zeros(8))

  function Bit(b: bool): nat {
    if b then 1 else 0
  }

  /** The table bit selected by the five-bit index i in one of four layouts. */
  function Sec(i: nat, t: Table, idx: int): bool
    requires i < 32
  {
    if idx == 0 then t[i / 8 * 2][(31 - i) % 8]
    else if idx == 1 then t[i / 4][(31 - i) % 8]
    else if idx == 2 then t[i / 8][7 - i % 8]
    else t[i / 8][i % 8]
  }

  /** State of the loop: the register pair and which byte of data feeds the next step. */
  datatype State = State(cur: Word, data: Word, index: nat)

  /** Bits 8 * index .. 8 * index + 4 of data. */
  function Low5(s: State): (i: Bits)
    requires s.index < 4
    ensures |i| == 5
  {
    s.data[8 * s.index..8 * s.index + 5]
  }

  function TableBit(s: State, tab: Table, idx: int): bool
    requires s.index < 4
  {
    ValueBound(Low5(s));
    assert Pow2(5) == 32;
    Sec(Value(Low5(s)), tab, idx)
  }

  /** The register after a step: bit 2 toggled by the selected byte, then shifted left with the
      feedback bit coming in. */
  function NextCur(s: State, tab: Table, idx: int): Word
    requires s.index < 4
  {
    var i, st := Low5(s), TableBit(s, tab, idx);
    var tail := (s.cur[10] != s.cur[7]) != ((i[1] && s.cur[5]) != (i[2] && s.cur[8]));
    var bit := (i[0] != (!st && i[3])) != (i[4] != tail);
    [bit] + s.cur[2 := s.cur[2] != i[0]][..31]
  }

  /** Whether the step folds the polynomial into data. */
  function Taken(s: State, tab: Table, idx: int): bool
    requires s.index < 4
  {
    s.data[0] != (NextCur(s, tab, idx)[11] != TableBit(s, tab, idx))
  }

  function Shifted(w: Word, taken: bool): Word {
    if taken then Xor(Shr(w, 1), POLY) else Shr(w, 1)
  }

  function Step(s: State, tab: Table, idx: int): (r: State)
    requires s.index < 4
    ensures r.index < 4
  {
    var cur := NextCur(s, tab, idx);
    var bit := cur[11] != TableBit(s, tab, idx);
    State(cur, Shifted(s.data, Taken(s, tab, idx)), 2 * Bit(s.data[0]) + Bit(bit))
  }

  function Run(s: State, tab: Table, idx: int, n: nat): (r: State)
    requires s.index < 4
    ensures r.index < 4
  {
    if n == 0 then s else Step(Run(s, tab, idx, n - 1), tab, idx)
  }

  /** Nibbles 3..7 of the masked password, each turned into one bit of the register start. */
  function NibbleBit(pw: Word, j: nat): bool
    requires j < 5
  {
    var t := Value(pw[12 + 4 * j..16 + 4 * j]);
    t != 0 && t < 0x0B
  }

  function StartCur(pw: Word): Word {
    [true, true, true, true, true, false, NibbleBit(pw, 4), NibbleBit(pw, 3), NibbleBit(pw, 2),
     NibbleBit(pw, 1), NibbleBit(pw, 0)] + Zeros(21)
  }

  function Start(data: Word, password: Word): State {
    State(StartCur(Xor(password, PASSWORD_MASK)), data, 0)
  }

  function Transform(data: Word, tab: Table, password: Word, idx: int): Word {
    Run(Start(data, password), tab, idx, 39).data
  }

  // ----- the round on numbers -----

  function Regs(s: State): HaspScript.Regs {
    HaspScript.Regs(Value(s.cur), Value(s.data), s.index)
  }

  function Values(t: Table): (v: seq<nat>)
    ensures |v| == |t|
  {
    seq(|t|, i requires 0 <= i < |t| => Value(t[i]))
  }

  lemma BitIs(b: Bits, p: nat)
    requires p < |b|
    ensures BitOf(Value(b), p) == Bit(b[p])
  {
    hide Value, Pow2;
    BitValue(b, p);
  }

  lemma SecIs(i: nat, t: Table, idx: int)
    requires i < 32
    ensures TableBitOf(i, Values(t), idx) == Bit(Sec(i, t, idx))
  {
    hide BitOf, Value;
    assert (31 - i) % 8 == 7 - i % 8 && i / 8 * 2 == i / 4 - i / 4 % 2;
    BitIs(t[i / 8 * 2], 7 - i % 8);
    BitIs(t[i / 4], 7 - i % 8);
    BitIs(t[i / 8], 7 - i % 8);
    BitIs(t[i / 8], i % 8);
  }

  lemma SmallPowers()
    ensures Pow2(0) == 1 && Pow2(1) == 2 && Pow2(2) == 4 && Pow2(3) == 8 && Pow2(4) == 16 && Pow2(5) == 32 && Pow2(6) == 64
    ensures Pow2(7) == 128 && Pow2(8) == 256 && Pow2(10) == 1024 && Pow2(11) == 2048
  {
  }

  lemma Low5Is(s: State)
    requires s.index < 4
    ensures var i := Value(s.data) / Pow2(8 * s.index) % 32;
            && i == Value(Low5(s)) < 32
            && i % 2 == Bit(Low5(s)[0]) && i / 2 % 2 == Bit(Low5(s)[1]) && i / 4 % 2 == Bit(Low5(s)[2])
            && i / 8 % 2 == Bit(Low5(s)[3]) && i / 16 % 2 == Bit(Low5(s)[4])
  {
    hide Value, Pow2;
    SmallPowers();
    SliceValue(s.data, 8 * s.index, 5);
    ValueBound(Low5(s));
    BitIs(Low5(s), 0);
    BitIs(Low5(s), 1);
    BitIs(Low5(s), 2);
    BitIs(Low5(s), 3);
    BitIs(Low5(s), 4);
  }

  /** The parity of the sum is the exclusive or of the bits. */
  lemma FeedbackIs(s: State, tab: Table, idx: int)
    requires s.index < 4
    ensures Feedback(Value(s.cur), Value(Low5(s)), Bit(TableBit(s, tab, idx))) == Bit(NextCur(s, tab, idx)[0])
  {
    hide Value, Pow2, TableBit, Low5, Feedback;
    SmallPowers();
    Low5Is(s);
    BitIs(s.cur, 10);
    BitIs(s.cur, 7);
    BitIs(s.cur, 5);
    BitIs(s.cur, 8);
    FeedbackBits(Value(s.cur), Value(Low5(s)), Low5(s), TableBit(s, tab, idx), s.cur[10], s.cur[7], s.cur[5], s.cur[8]);
  }

  lemma FeedbackBits(cur: nat, n: nat, i: Bits, st: bool, c10: bool, c7: bool, c5: bool, c8: bool)
    requires n < 32 && |i| == 5
    requires n % 2 == Bit(i[0]) && n / 2 % 2 == Bit(i[1]) && n / 4 % 2 == Bit(i[2])
    requires n / 8 % 2 == Bit(i[3]) && n / 16 % 2 == Bit(i[4])
    requires cur / 1024 % 2 == Bit(c10) && cur / 128 % 2 == Bit(c7) && cur / 32 % 2 == Bit(c5) && cur / 256 % 2 == Bit(c8)
    ensures Feedback(cur, n, Bit(st)) ==
            Bit((i[0] != (!st && i[3])) != (i[4] != ((c10 != c7) != ((i[1] && c5) != (i[2] && c8)))))
  {
    hide Feedback;
    FeedbackParity(cur, n, Bit(st));
    BitProduct(!st, i[3]);
    BitProduct(i[1], c5);
    BitProduct(i[2], c8);
    SevenBits(i[0], !st && i[3], i[4], c10, c7, i[1] && c5, i[2] && c8);
  }

  lemma BitProduct(a: bool, b: bool)
    ensures Bit(a) * Bit(b) == Bit(a && b) && Bit(!a) == 1 - Bit(a)
  {
  }

  lemma FeedbackParity(cur: nat, i: nat, st: nat)
    requires st < 2 && i < 32
    ensures Feedback(cur, i, st) ==
            (i % 2 + (1 - st) * (i / 8 % 2) + i / 16 % 2 + cur / 1024 % 2 + cur / 128 % 2
             + i / 2 % 2 * (cur / 32 % 2) + i / 4 % 2 * (cur / 256 % 2)) % 2
  {
    ProductParity(1 - st, i / 8);
    ProductParity(i / 2 % 2, cur / 32);
    ProductParity(i / 4 % 2, cur / 256);
    SumParity(i, (1 - st) * (i / 8), i / 16, cur / 1024, cur / 128, i / 2 % 2 * (cur / 32), i / 4 % 2 * (cur / 256));
  }

  lemma ProductParity(x: nat, y: nat)
    requires x < 2
    ensures x * y % 2 == x * (y % 2) && x * y >= 0
  {
  }

  lemma SumParity(a: nat, b: nat, c: nat, d: nat, e: nat, f: nat, g: nat)
    ensures (a + b + c + d + e + f + g) % 2 == (a % 2 + b % 2 + c % 2 + d % 2 + e % 2 + f % 2 + g % 2) % 2
  {
    var r := a % 2 + b % 2 + c % 2 + d % 2 + e % 2 + f % 2 + g % 2;
    EvenPart(a / 2 + b / 2 + c / 2 + d / 2 + e / 2 + f / 2 + g / 2, r);
  }

  lemma EvenPart(q: nat, r: nat)
    ensures (2 * q + r) % 2 == r % 2
  {
    Positional(r % 2, 2, q + r / 2);
  }

  lemma SevenBits(a: bool, b: bool, c: bool, d: bool, e: bool, f: bool, g: bool)
    ensures (Bit(a) + Bit(b) + Bit(c) + Bit(d) + Bit(e) + Bit(f) + Bit(g)) % 2 ==
            Bit((a != b) != (c != ((d != e) != (f != g))))
  {
  }

  lemma {:induction false} FlipValue(b: Bits, k: nat)
    requires k < |b|
    ensures Value(b[k := !b[k]]) == if b[k] then Value(b) - Pow2(k) else Value(b) + Pow2(k)
  {
    var c := b[k := !b[k]];
    if k == 0 {
      assert c[1..] == b[1..];
    } else {
      assert c[1..] == b[1..][k - 1 := !b[1..][k - 1]];
      FlipValue(b[1..], k - 1);
    }
  }

  lemma ShiftInValue(bit: bool, c: Word)
    ensures Value([bit] + c[..31]) == (2 * Value(c) + Bit(bit)) % 0x1_0000_0000
  {
    assert ([bit] + c[..31])[1..] == c[..31];
    CutValue(c, 31);
    Pow2Of32();
    assert Pow2(32) == 2 * Pow2(31);
    DoubleRest(Value(c), Bit(bit));
  }

  lemma DoubleRest(n: nat, bit: nat)
    requires bit < 2
    ensures (2 * n + bit) % 0x1_0000_0000 == bit + 2 * (n % 0x8000_0000)
  {
    var q, r := n / 0x8000_0000, n % 0x8000_0000;
    assert 2 * n + bit == 0x1_0000_0000 * q + (2 * r + bit);
  }

  lemma CurIs(s: State, tab: Table, idx: int)
    requires s.index < 4
    ensures var i := Value(Low5(s));
            Value(NextCur(s, tab, idx)) ==
            (2 * Toggled(Value(s.cur), i) + Bit(NextCur(s, tab, idx)[0])) % 0x1_0000_0000
  {
    hide Value, Pow2, TableBit, Low5;
    SmallPowers();
    Low5Is(s);
    BitIs(s.cur, 2);
    FlipValue(s.cur, 2);
    var n := NextCur(s, tab, idx);
    var c: Word := s.cur[2 := s.cur[2] != Low5(s)[0]];
    assert n == [n[0]] + c[..31];
    assert !Low5(s)[0] ==> c == s.cur;
    assert Low5(s)[0] ==> c == s.cur[2 := !s.cur[2]];
    ShiftInValue(n[0], c);
  }

  lemma DataIs(w: Word, taken: bool)
    ensures Value(Shifted(w, taken)) == if taken then BitXor(Value(w) / 2, 0x80500062) else Value(w) / 2
  {
    hide Value, Xor, BitXor, Shr;
    SmallPowers();
    ShrValue(w, 1);
    ValueOfWord(0x80500062);
    XorValue(Shr(w, 1), POLY);
  }

  lemma OutputBit(n: nat, b: bool, st: bool)
    requires n % 2 == Bit(b)
    ensures (n + Bit(st)) % 2 == Bit(b != st)
  {
  }

  lemma StepParts(s: State, tab: Table, idx: int)
    requires s.index < 4
    ensures var bit := NextCur(s, tab, idx)[11] != TableBit(s, tab, idx);
            Step(s, tab, idx) ==
            State(NextCur(s, tab, idx), Shifted(s.data, s.data[0] != bit), 2 * Bit(s.data[0]) + Bit(bit))
    ensures TableBit(s, tab, idx) == (Value(Low5(s)) < 32 && Sec(Value(Low5(s)), tab, idx))
  {
    hide NextCur, Sec, Shifted;
    Low5Is(s);
  }

  /** One step on words is one step on numbers. */
  lemma StepIs(s: State, tab: Table, idx: int)
    requires s.index < 4
    ensures Regs(Step(s, tab, idx)) == ScriptStep(Regs(s), Values(tab), idx)
  {
    hide Value, Pow2, NextCur, Sec, TableBit, TableBitOf, Low5, Feedback, Toggled, Shifted, BitXor, Step;
    SmallPowers();
    Low5Is(s);
    StepParts(s, tab, idx);
    SecIs(Value(Low5(s)), tab, idx);
    FeedbackIs(s, tab, idx);
    CurIs(s, tab, idx);
    var next, st := NextCur(s, tab, idx), TableBit(s, tab, idx);
    BitIs(next, 11);
    OutputBit(Value(next) / 2048, next[11], st);
    BitIs(s.data, 0);
    DataIs(s.data, s.data[0] != (next[11] != st));
  }

  lemma {:induction false} RunIs(s: State, tab: Table, idx: int, n: nat)
    requires s.index < 4
    ensures Regs(Run(s, tab, idx, n)) == ScriptSteps(Regs(s), Values(tab), idx, n)
  {
    hide Step, ScriptStep, Regs;
    if n == 0 {
    } else {
      RunIs(s, tab, idx, n - 1);
      StepIs(Run(s, tab, idx, n - 1), tab, idx);
    }
  }

  lemma NibbleIs(pw: Word, j: nat)
    requires j < 5
    ensures Flag(Value(pw), j) == Bit(NibbleBit(pw, j))
  {
    hide Value, Pow2;
    SmallPowers();
    SliceValue(pw, 12 + 4 * j, 4);
  }

  lemma StartIs(data: Word, password: Word)
    ensures Regs(Start(data, password)) == ScriptStart(Value(data), Value(password))
  {
    var pw := Xor(password, PASSWORD_MASK);
    XorValue(password, PASSWORD_MASK);
    ValueOfWord(0x01081989);
    NibbleIs(pw, 0);
    NibbleIs(pw, 1);
    NibbleIs(pw, 2);
    NibbleIs(pw, 3);
    NibbleIs(pw, 4);
    StartCurValue(NibbleBit(pw, 4), NibbleBit(pw, 3), NibbleBit(pw, 2), NibbleBit(pw, 1), NibbleBit(pw, 0));
    hide Value, Xor, BitXor, Flag, NibbleBit;
  }

  lemma StartCurValue(a: bool, b: bool, c: bool, d: bool, e: bool)
    ensures Value([true, true, true, true, true, false, a, b, c, d, e] + Zeros(21)) ==
            31 + 64 * Bit(a) + 128 * Bit(b) + 256 * Bit(c) + 512 * Bit(d) + 1024 * Bit(e)
  {
    var low: Bits, high: Bits := [true, true, true, true, true, false], [a, b, c, d, e];
    hide Value, Pow2, Zeros;
    LowFive();
    HighFive(a, b, c, d, e);
    SmallPowers();
    assert [true, true, true, true, true, false, a, b, c, d, e] == low + high;
    assert low + high + Zeros(21) == low + (high + Zeros(21));
    ValueAppend(low, high + Zeros(21));
    ValueAppend(high, Zeros(21));
    ZerosValue(21);
  }

  lemma LowFive()
    ensures Value([true, true, true, true, true, false]) == 31
  {
    assert Value([true, true, false]) == 3;
    assert [true, true, true, true, true, false][3..] == [true, true, false];
  }

  lemma HighFive(a: bool, b: bool, c: bool, d: bool, e: bool)
    ensures Value([a, b, c, d, e]) == Bit(a) + 2 * Bit(b) + 4 * Bit(c) + 8 * Bit(d) + 16 * Bit(e)
  {
    ConsValue(a, [b, c, d, e]);
    ConsValue(b, [c, d, e]);
    ConsValue(c, [d, e]);
    ConsValue(d, [e]);
    ConsValue(e, []);
    assert [e] + [] == [e];
    hide Value;
  }

  lemma ConsValue(a: bool, b: Bits)
    ensures Value([a] + b) == Bit(a) + 2 * Value(b) && Value([]) == 0
  {
  }

  /** The round on words computes what the script computes on numbers. */
  lemma TransformIs(data: Word, tab: Table, password: Word, idx: int)
    ensures Value(Transform(data, tab, password, idx)) ==
            ScriptTransform(Value(data), Values(tab), Value(password), idx)
  {
    hide Step, ScriptStep, Start, ScriptStart, Value;
    StartIs(data, password);
    StartData(data, password);
    RunIs(Start(data, password), tab, idx, 39);
  }

  method TransformWord(data0: Word, tab: Table, password: Word, idx: int) returns (r: Word)
    ensures r == Transform(data0, tab, password, idx)
    ensures Value(r) == ScriptTransform(Value(data0), Values(tab), Value(password), idx)
  {
    TransformIs(data0, tab, password, idx);
    hide TableBit, Sec, Start, Xor, Shr;
    var start := Start(data0, password);
    var cur: Word, data: Word, index: nat := start.cur, data0, 0;
    StartData(data0, password);
    for n := 0 to 39
      invariant index < 4
      invariant State(cur, data, index) == Run(start, tab, idx, n)
    {
      cur, data, index := OneStep(cur, data, index, tab, idx);
    }
    r := data;
  }

  method OneStep(cur0: Word, data0: Word, index0: nat, tab: Table, idx: int)
    returns (cur: Word, data: Word, index: nat)
    requires index0 < 4
    ensures State(cur, data, index) == Step(State(cur0, data0, index0), tab, idx)
  {
    hide TableBit, Shifted, Xor, Shr;
    ghost var s := State(cur0, data0, index0);
    cur, data, index := cur0, data0, index0;
    var i := data[8 * index..8 * index + 5];
    var st := TableBit(State(cur, data, index), tab, idx);
    var b0 := (i[0] != (!st && i[3])) != i[4];
    b0 := (b0 != cur[10]) != cur[7];
    if i[1] {
      b0 := b0 != cur[5];
    }
    if i[2] {
      b0 := b0 != cur[8];
    }
    cur := cur[2 := cur[2] != i[0]];
    cur := [b0] + cur[..31];
    assert cur == NextCur(s, tab, idx);
    hide NextCur;
    var bit := cur[11] != st;
    index := 2 * Bit(data[0]) + Bit(bit);
    data := Shifted(data, data[0] != bit);
  }

  lemma StartData(data: Word, password: Word)
    ensures Start(data, password).data == data && Start(data, password).index == 0
  {
  }

  // ----- the output as a sum of shifted polynomials -----

  /** Which branches the first n steps take. */
  function Branches(s: State, tab: Table, idx: int, n: nat): (bs: seq<bool>)
    requires s.index < 4
    ensures |bs| == n
  {
    if n == 0 then [] else Branches(s, tab, idx, n - 1) + [Taken(Run(s, tab, idx, n - 1), tab, idx)]
  }

  /** XOR of POLY >> (total - 1 - k) over the steps k whose branch was taken. */
  function BranchSum(bs: seq<bool>, total: nat): Word
    requires |bs| <= total
  {
    if bs == [] then Zeros(32)
    else Xor(BranchSum(bs[..|bs| - 1], total), if bs[|bs| - 1] then Shr(POLY, total - |bs|) else Zeros(32))
  }

  lemma BranchSumSnoc(bs: seq<bool>, b: bool, total: nat)
    requires |bs| < total
    ensures BranchSum(bs + [b], total) ==
            if b then Xor(BranchSum(bs, total), Shr(POLY, total - |bs| - 1)) else BranchSum(bs, total)
  {
  }

  lemma ShrLaws(v: Word, w: Word, k: nat)
    ensures Shr(Xor(v, w), k) == Xor(Shr(v, k), Shr(w, k))
    ensures Shr(Shr(v, k), 1) == Shr(v, k + 1) && Shr(Zeros(32), k) == Zeros(32) && Shr(v, 0) == v
    ensures k >= 32 ==> Shr(v, k) == Zeros(32)
  {
  }

  lemma {:induction false} BranchSumShift(bs: seq<bool>, total: nat)
    requires |bs| <= total
    ensures BranchSum(bs, total + 1) == Shr(BranchSum(bs, total), 1)
  {
    hide Xor, Shr;
    ShrLaws(POLY, POLY, 1);
    if bs == [] {
    } else {
      var init := bs[..|bs| - 1];
      BranchSumShift(init, total);
      ShrLaws(POLY, POLY, total - |bs|);
      ShrLaws(BranchSum(init, total), if bs[|bs| - 1] then Shr(POLY, total - |bs|) else Zeros(32), 1);
    }
  }

  /** One more step shifts the sum and folds the polynomial in if its branch is taken. */
  lemma BranchSumStep(bs: seq<bool>, b: bool)
    ensures BranchSum(bs + [b], |bs| + 1) == Shifted(BranchSum(bs, |bs|), b)
  {
    hide Xor, Shr;
    assert (bs + [b])[..|bs|] == bs;
    BranchSumShift(bs, |bs|);
    ShrLaws(POLY, POLY, 0);
    XorLaws(BranchSum(bs, |bs| + 1), Zeros(32));
  }

  lemma {:induction false} DataIsBranchSum(s: State, tab: Table, idx: int, n: nat)
    requires s.index < 4
    ensures Run(s, tab, idx, n).data == Xor(Shr(s.data, n), BranchSum(Branches(s, tab, idx, n), n))
  {
    hide Xor, Shr, Shifted, Taken, NextCur, TableBit;
    if n == 0 {
      ShrLaws(s.data, s.data, 0);
      XorLaws(s.data, Zeros(32));
    } else {
      var bs, b := Branches(s, tab, idx, n - 1), Taken(Run(s, tab, idx, n - 1), tab, idx);
      DataIsBranchSum(s, tab, idx, n - 1);
      BranchSumStep(bs, b);
      ShiftedSum(Shr(s.data, n - 1), BranchSum(bs, n - 1), b);
      ShrLaws(s.data, s.data, n - 1);
    }
  }

  lemma ShiftedSum(v: Word, w: Word, b: bool)
    ensures Shifted(Xor(v, w), b) == Xor(Shr(v, 1), Shifted(w, b))
  {
  }

  lemma BranchSumLast(bs: seq<bool>, total: nat)
    requires bs != [] && |bs| <= total
    ensures BranchSum(bs, total) ==
            Xor(BranchSum(bs[..|bs| - 1], total), if bs[|bs| - 1] then Shr(POLY, total - |bs|) else Zeros(32))
    ensures total >= |bs| + 32 ==> BranchSum(bs, total) == BranchSum(bs[..|bs| - 1], total)
  {
  }

  lemma NoBranches(total: nat, other: nat)
    ensures BranchSum([], total) == BranchSum([], other)
  {
  }

  /** Branches more than 32 steps before the end are shifted out. */
  lemma {:induction false} EarlyBranchesVanish(bs: seq<bool>, j: nat, total: nat)
    requires j <= |bs| <= total && total >= j + 32
    ensures BranchSum(bs, total) == BranchSum(bs[j..], total - j)
  {
    if |bs| == j {
      AllVanish(bs, total);
      NoBranches(total, total - j);
      assert bs[j..] == [];
    } else {
      var init, rest := bs[..|bs| - 1], bs[j..];
      EarlyBranchesVanish(init, j, total);
      assert init[j..] == rest[..|rest| - 1] && rest[|rest| - 1] == bs[|bs| - 1];
      hide Xor, Shr;
    }
  }

  lemma {:induction false} AllVanish(bs: seq<bool>, total: nat)
    requires total >= |bs| + 32
    ensures BranchSum(bs, total) == BranchSum([], total)
  {
    if bs == [] {
    } else {
      BranchSumLast(bs, total);
      AllVanish(bs[..|bs| - 1], total);
    }
  }

  /** For every word, table, password and layout the output is the XOR of the polynomial
      shifted by the number of later steps, over the steps whose branch was taken; only the
      last 32 branches matter. */
  lemma OutputIsBranchSum(data: Word, tab: Table, password: Word, idx: int)
    ensures var bs := Branches(Start(data, password), tab, idx, 39);
            Transform(data, tab, password, idx) == BranchSum(bs, 39) == BranchSum(bs[7..], 32)
  {
    hide Start, Run, Xor, Shr, Branches, BranchSum;
    var s := Start(data, password);
    StartData(data, password);
    DataIsBranchSum(s, tab, idx, 39);
    ShrLaws(data, data, 39);
    var bs := Branches(s, tab, idx, 39);
    XorLaws(BranchSum(bs, 39), BranchSum(bs, 39));
    EarlyBranchesVanish(bs, 7, 39);
  }

  // ----- reading the branches off the output -----

  /** The n branch choices whose sum is w, read off from the leading one down. */
  function Recover(w: Word, n: nat): (bs: seq<bool>)
    requires n <= 32
    ensures |bs| == n
    decreases n, w
  {
    if n == 0 then []
    else Recover(if w[n - 1] then Xor(w, Shr(POLY, 32 - n)) else w, n - 1) + [w[n - 1]]
  }

  lemma {:induction false} TopDigit(n: nat, k: nat)
    requires n < Pow2(k + 1)
    ensures Digits(n, k + 1)[k] == (n >= Pow2(k))
    decreases k, n
  {
    if k == 0 {
    } else {
      TopDigit(n / 2, k - 1);
    }
  }

  lemma PolynomialTop()
    ensures POLY[31]
  {
    assert Pow2(8) == 0x100;
    assert Pow2(16) == 0x1_0000;
    assert Pow2(24) == 0x100_0000;
    assert Pow2(31) == 0x8000_0000;
    TopDigit(0x80500062, 31);
  }

  ghost predicate ZeroFrom(w: Word, n: nat) {
    forall i :: n <= i < 32 ==> !w[i]
  }

  /** The polynomial has its top bit set, so its shift by 32 - n has n significant bits. */
  lemma ShiftedPolynomial(n: nat)
    requires 1 <= n <= 32
    ensures ZeroFrom(Shr(POLY, 32 - n), n) && Shr(POLY, 32 - n)[n - 1]
  {
    PolynomialTop();
  }

  /** What adding a word t with exactly n significant bits does to shorter and longer words. */
  lemma AddTop(v: Word, t: Word, n: nat)
    requires 1 <= n <= 32 && ZeroFrom(t, n) && t[n - 1]
    ensures ZeroFrom(v, n - 1) ==> ZeroFrom(v, n) && !v[n - 1] && ZeroFrom(Xor(v, t), n) && Xor(v, t)[n - 1]
    ensures ZeroFrom(v, n) ==> ZeroFrom(if v[n - 1] then Xor(v, t) else v, n - 1)
  {
  }

  lemma {:induction false} SumBelow(bs: seq<bool>)
    requires |bs| <= 32
    ensures ZeroFrom(BranchSum(bs, 32), |bs|)
  {
    if bs == [] {
    } else {
      SumBelow(bs[..|bs| - 1]);
      assert bs == bs[..|bs| - 1] + [bs[|bs| - 1]];
      SumTop(bs[..|bs| - 1], bs[|bs| - 1]);
    }
  }

  lemma SumTop(bs: seq<bool>, b: bool)
    requires |bs| < 32 && ZeroFrom(BranchSum(bs, 32), |bs|)
    ensures ZeroFrom(BranchSum(bs + [b], 32), |bs| + 1) && BranchSum(bs + [b], 32)[|bs|] == b
  {
    hide Shr, Xor, ZeroFrom, BranchSum, W, Zeros;
    BranchSumSnoc(bs, b, 32);
    ShiftedPolynomial(|bs| + 1);
    AddTop(BranchSum(bs, 32), Shr(POLY, 32 - (|bs| + 1)), |bs| + 1);
  }

  /** Distinct choices of the last 32 branches give distinct outputs ... */
  lemma {:induction false} RecoverOfSum(bs: seq<bool>)
    requires |bs| <= 32
    ensures Recover(BranchSum(bs, 32), |bs|) == bs
  {
    hide Xor, Shr, ZeroFrom, BranchSum, W, Zeros;
    if bs == [] {
    } else {
      var init, b := bs[..|bs| - 1], bs[|bs| - 1];
      assert bs == init + [b];
      SumBelow(init);
      SumTop(init, b);
      RecoverOfSum(init);
      BranchSumSnoc(init, b, 32);
      XorLaws(BranchSum(init, 32), Shr(POLY, 32 - |bs|));
    }
  }

  /** ... and every word is the output of some choice. */
  lemma {:induction false} SumOfRecover(w: Word, n: nat)
    requires n <= 32 && ZeroFrom(w, n)
    ensures BranchSum(Recover(w, n), 32) == w
    decreases n
  {
    if n == 0 {
      assert w == Zeros(32);
    } else {
      SumOfRecoverStep(w, n);
    }
  }

  lemma {:induction false} SumOfRecoverStep(w: Word, n: nat)
    requires 0 < n <= 32 && ZeroFrom(w, n)
    ensures BranchSum(Recover(w, n), 32) == w
    decreases n, 0
  {
    hide Shr, Xor, ZeroFrom, BranchSum, W, Zeros;
    var t := Shr(POLY, 32 - n);
    ShiftedPolynomial(n);
    var v: Word := if w[n - 1] then Xor(w, t) else w;
    AddTop(w, t, n);
    SumOfRecover(v, n - 1);
    BranchSumSnoc(Recover(v, n - 1), w[n - 1], 32);
    XorLaws(w, t);
  }

  /** The output determines the last 32 branch choices, whatever table and password made it. */
  lemma BranchesRecoverable(data: Word, tab: Table, password: Word, idx: int)
    ensures Recover(Transform(data, tab, password, idx), 32) == Branches(Start(data, password), tab, idx, 39)[7..]
  {
    hide Transform, Recover, Branches, Start, BranchSum;
    OutputIsBranchSum(data, tab, password, idx);
    StartData(data, password);
    RecoverOfSum(Branches(Start(data, password), tab, idx, 39)[7..]);
  }

  /** Every word is the sum of some branch choices: the shifts of the polynomial span all 32 dimensions.  Which
      choices one table and password can make is not said here. */
  lemma EveryWordIsABranchSum(w: Word)
    ensures BranchSum(Recover(w, 32), 32) == w
  {
    SumOfRecover(w, 32);
  }
}
