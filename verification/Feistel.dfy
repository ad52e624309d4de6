/** The unkeyed Feistel stages of the picture cipher, the block transform around an
    arbitrary keyed round, and the solver that inverts one stage in its right half. */
module Feistel {
  import opened Words
  import opened Gf2
  import opened Numbers

  type Pair = (Word, Word)

  const CA: Word := W(0x5B2C004A)
  const CB: Word := W(0x803425C3)
  const ROT_A: seq<nat> := [25, 20, 15, 10, 5, 0]
  const ROT_B: seq<nat> := [10, 8, 6, 4, 2, 0]

  /** Rotation by an amount cut to five bits. */
  function Turn(v: Word, k: nat): Word {
    Rol(v, k % 32)
  }

  function Round(p: Pair, c: Word, k: nat): Pair {
    (Xor(p.1, Turn(Xor(p.0, c), k)), p.0)
  }

  function Unround(p: Pair, c: Word, k: nat): Pair {
    (p.1, Xor(p.0, Turn(Xor(p.1, c), k)))
  }

  /** The rounds in list order, and their inverses in reverse order. */
  function Fwd(p: Pair, c: Word, rots: seq<nat>): Pair
    decreases |rots|, p
  {
    if rots == [] then p
    else Round(Fwd(p, c, rots[..|rots| - 1]), c, rots[|rots| - 1])
  }

  function Inv(p: Pair, c: Word, rots: seq<nat>): Pair
    decreases |rots|, p
  {
    if rots == [] then p
    else Inv(Unround(p, c, rots[|rots| - 1]), c, rots[..|rots| - 1])
  }

  // ----- the same on bits, forwards only -----

  /** One round, bit by bit: the left half becomes the right half, and bit i of the left half and of the constant
      goes into bit i + k of the new left half, counted round the word. */
  ghost predicate Turned(p: Pair, q: Pair, c: Word, k: nat) {
    && q.1 == p.0
    && forall i :: 0 <= i < 32 ==> q.0[(i + k) % 32] == (p.1[(i + k) % 32] != (p.0[i] != c[i]))
  }

  /** A run of rounds through the given states. */
  ghost predicate Leads(ps: seq<Pair>, c: Word, rots: seq<nat>) {
    |ps| == |rots| + 1 && forall i :: 0 <= i < |rots| ==> Turned(ps[i], ps[i + 1], c, rots[i])
  }

  ghost predicate LeadsTo(p: Pair, q: Pair, c: Word, rots: seq<nat>) {
    exists ps :: Leads(ps, c, rots) && ps[0] == p && ps[|rots|] == q
  }

  lemma TurnBit(v: Word, k: nat, i: nat)
    requires i < 32
    ensures Turn(v, k)[(i + k) % 32] == v[i]
  {
    var m := k % 32;
    assert (i + k) % 32 == if i + m < 32 then i + m else i + m - 32 by {
      Around(i, k);
    }
  }

  lemma Around(i: nat, k: nat)
    requires i < 32
    ensures (i + k) % 32 == if i + k % 32 < 32 then i + k % 32 else i + k % 32 - 32
  {
  }

  /** Which bit of the left half ends up at j. */
  lemma Whence(j: nat, k: nat) returns (i: nat)
    requires j < 32
    ensures i < 32 && (i + k) % 32 == j
  {
    var m := k % 32;
    i := if j >= m then j - m else j + 32 - m;
    Around(i, k);
  }

  lemma RoundExactly(p: Pair, q: Pair, c: Word, k: nat)
    ensures Turned(p, q, c, k) <==> q == Round(p, c, k)
  {
    var r := Round(p, c, k);
    forall i | 0 <= i < 32
      ensures r.0[(i + k) % 32] == (p.1[(i + k) % 32] != (p.0[i] != c[i]))
    {
      TurnBit(Xor(p.0, c), k, i);
    }
    if Turned(p, q, c, k) {
      forall j | 0 <= j < 32 ensures q.0[j] == r.0[j] {
        var i := Whence(j, k);
        assert q.0[(i + k) % 32] == (p.1[(i + k) % 32] != (p.0[i] != c[i]));
      }
      assert q.0 == r.0;
    }
  }

  /** The same round in numbers: a rotation multiplies by 2^k modulo 2^32 and brings the overflow back in. */
  lemma TurnedValue(p: Pair, q: Pair, c: Word, k: nat)
    requires Turned(p, q, c, k) && k < 32
    ensures var x := BitXor(Value(p.0), Value(c));
            Value(q.0) == BitXor(Value(p.1), x * Pow2(k) % 0x1_0000_0000 + x / Pow2(32 - k))
  {
    hide Turned, Xor, Rol, Value, BitXor, Pow2;
    RoundExactly(p, q, c, k);
    XorValue(p.0, c);
    RolValue(Xor(p.0, c), k);
    XorValue(p.1, Rol(Xor(p.0, c), k));
  }

  lemma {:induction false} LeadsExactly(p: Pair, q: Pair, c: Word, rots: seq<nat>)
    ensures LeadsTo(p, q, c, rots) <==> q == Fwd(p, c, rots)
    decreases |rots|
  {
    hide Turned, Round;
    if rots == [] {
      if q == p {
        assert Leads([p], c, rots) && [p][0] == p && [p][|rots|] == q;
      }
    } else {
      var n := |rots| - 1;
      var m := Fwd(p, c, rots[..n]);
      LeadsExactly(p, m, c, rots[..n]);
      RoundExactly(m, q, c, rots[n]);
      if q == Fwd(p, c, rots) {
        var ps :| Leads(ps, c, rots[..n]) && ps[0] == p && ps[n] == m;
        Longer(ps, q, c, rots);
      }
      if LeadsTo(p, q, c, rots) {
        var ps :| Leads(ps, c, rots) && ps[0] == p && ps[n + 1] == q;
        assert Leads(ps[..n + 1], c, rots[..n]);
        assert LeadsTo(p, ps[n], c, rots[..n]);
        LeadsExactly(p, ps[n], c, rots[..n]);
      }
    }
  }

  lemma Longer(ps: seq<Pair>, q: Pair, c: Word, rots: seq<nat>)
    requires rots != [] && Leads(ps, c, rots[..|rots| - 1]) && Turned(ps[|rots| - 1], q, c, rots[|rots| - 1])
    ensures LeadsTo(ps[0], q, c, rots)
  {
    hide Turned;
    var all := ps + [q];
    forall i | 0 <= i < |rots| ensures Turned(all[i], all[i + 1], c, rots[i]) {
      assert i < |rots| - 1 ==> rots[..|rots| - 1][i] == rots[i];
    }
    assert Leads(all, c, rots) && all[0] == ps[0] && all[|rots|] == q;
  }

  /** Backwards the inverse stage leads to the only state the rounds come from. */
  lemma InverseExactly(p: Pair, q: Pair, c: Word, rots: seq<nat>)
    ensures LeadsTo(p, q, c, rots) <==> p == Inv(q, c, rots)
  {
    LeadsExactly(p, q, c, rots);
    StageUndone(p, c, rots);
    StageUndone(q, c, rots);
  }

  method Forward(L0: Word, R0: Word, c: Word, rots: seq<nat>) returns (L: Word, R: Word)
    ensures (L, R) == Fwd((L0, R0), c, rots)
    ensures forall q :: LeadsTo((L0, R0), q, c, rots) <==> q == (L, R)
  {
    L, R := L0, R0;
    for i := 0 to |rots|
      invariant (L, R) == Fwd((L0, R0), c, rots[..i])
    {
      assert rots[..i + 1][..i] == rots[..i];
      L, R := Xor(R, Turn(Xor(L, c), rots[i])), L;
    }
    assert rots[..|rots|] == rots;
    forall q ensures LeadsTo((L0, R0), q, c, rots) <==> q == (L, R) {
      LeadsExactly((L0, R0), q, c, rots);
    }
  }

  method Inverse(L0: Word, R0: Word, c: Word, rots: seq<nat>) returns (L: Word, R: Word)
    ensures (L, R) == Inv((L0, R0), c, rots)
    ensures forall p :: LeadsTo(p, (L0, R0), c, rots) <==> p == (L, R)
  {
    L, R := L0, R0;
    assert rots[..|rots|] == rots;
    for i := |rots| downto 0
      invariant Inv((L, R), c, rots[..i]) == Inv((L0, R0), c, rots)
    {
      assert rots[..i + 1][..i] == rots[..i];
      L, R := R, Xor(L, Turn(Xor(R, c), rots[i]));
    }
    forall p ensures LeadsTo(p, (L0, R0), c, rots) <==> p == (L, R) {
      InverseExactly(p, (L0, R0), c, rots);
    }
  }

  lemma RoundUndone(p: Pair, c: Word, k: nat)
    ensures Unround(Round(p, c, k), c, k) == p && Round(Unround(p, c, k), c, k) == p
  {
    XorLaws(p.1, Turn(Xor(p.0, c), k));
    XorLaws(p.0, Turn(Xor(p.1, c), k));
  }

  lemma {:induction false} StageUndone(p: Pair, c: Word, rots: seq<nat>)
    ensures Inv(Fwd(p, c, rots), c, rots) == p
    ensures Fwd(Inv(p, c, rots), c, rots) == p
    decreases |rots|
  {
    if rots == [] {
    } else {
      var init, k := rots[..|rots| - 1], rots[|rots| - 1];
      RoundUndone(Fwd(p, c, init), c, k);
      StageUndone(p, c, init);
      StageUndone(Unround(p, c, k), c, init);
      RoundUndone(p, c, k);
    }
  }

  // ----- the block transform around any keyed round -----

  function DecodePair(f: Word -> Word, p: Pair): Pair {
    var a := Fwd(p, CA, ROT_A);
    var b := Fwd((Xor(f(a.0), a.1), a.0), CB, ROT_B);
    (Xor(f(b.0), b.1), b.0)
  }

  function EncodePair(f: Word -> Word, p: Pair): Pair {
    var b := Inv((p.1, Xor(f(p.1), p.0)), CB, ROT_B);
    Inv((b.1, Xor(f(b.1), b.0)), CA, ROT_A)
  }

  /** The block transform is one Feistel network of fourteen steps: w[j + 2] is w[j] plus a function of w[j + 1],
      which is a rotation of it, by 25, 20, ..., 0 and then by 10, 8, ..., 0, or the keyed round. */
  ghost predicate Network(f: Word -> Word, w: seq<Word>) {
    && |w| == 16
    && SixTurns(w, 0, W(0x5B2C004A), 25, 5) && w[8] == Xor(f(w[7]), w[6])
    && SixTurns(w, 7, W(0x803425C3), 10, 2) && w[15] == Xor(f(w[14]), w[13])
  }

  ghost predicate SixTurns(w: seq<Word>, at: nat, c: Word, first: nat, less: nat)
    requires at + 8 <= |w| && 5 * less <= first
  {
    forall j :: 0 <= j < 6 ==>
                  Turned((w[at + j + 1], w[at + j]), (w[at + j + 2], w[at + j + 1]), c, first - less * j)
  }

  /** The network with this keyed round takes block p to block q. */
  ghost predicate Deciphers(f: Word -> Word, p: Pair, q: Pair) {
    exists w :: Network(f, w) && (w[1], w[0]) == p && (w[15], w[14]) == q
  }

  lemma BlockIsNetwork(f: Word -> Word, p: Pair, q: Pair)
    ensures Deciphers(f, p, q) <==> DecodePair(f, p) == q
    ensures Deciphers(f, p, q) <==> EncodePair(f, q) == p
  {
    BlockUndone(f, p);
    BlockUndone(f, q);
    if DecodePair(f, p) == q {
      NetworkExists(f, p);
    }
    if Deciphers(f, p, q) {
      var w :| Network(f, w) && (w[1], w[0]) == p && (w[15], w[14]) == q;
      NetworkDecides(f, w);
    }
  }

  /** Consecutive halves of a run of rounds. */
  ghost predicate Halves(w: seq<Word>, c: Word, rots: seq<nat>) {
    && |w| == |rots| + 2
    && forall j :: 0 <= j < |rots| ==> Turned((w[j + 1], w[j]), (w[j + 2], w[j + 1]), c, rots[j])
  }

  lemma {:induction false} HalvesExist(p: Pair, c: Word, rots: seq<nat>) returns (w: seq<Word>)
    ensures Halves(w, c, rots) && (w[1], w[0]) == p && (w[|rots| + 1], w[|rots|]) == Fwd(p, c, rots)
  {
    hide Turned, Round;
    if rots == [] {
      w := [p.1, p.0];
    } else {
      var n := |rots| - 1;
      var v := HalvesExist(p, c, rots[..n]);
      var q := Fwd(p, c, rots);
      RoundExactly((v[n + 1], v[n]), q, c, rots[n]);
      RoundKeepsHalf((v[n + 1], v[n]), c, rots[n]);
      w := v + [q.0];
      forall j | 0 <= j < |rots| ensures Turned((w[j + 1], w[j]), (w[j + 2], w[j + 1]), c, rots[j]) {
        assert j < n ==> rots[..n][j] == rots[j];
      }
    }
  }

  lemma RoundKeepsHalf(p: Pair, c: Word, k: nat)
    ensures Round(p, c, k).1 == p.0
  {
  }

  lemma {:induction false} HalvesDecide(w: seq<Word>, c: Word, rots: seq<nat>)
    requires Halves(w, c, rots)
    ensures (w[|rots| + 1], w[|rots|]) == Fwd((w[1], w[0]), c, rots)
    decreases |rots|
  {
    hide Turned, Round;
    if rots == [] {
    } else {
      var n := |rots| - 1;
      assert Halves(w[..n + 2], c, rots[..n]);
      HalvesDecide(w[..n + 2], c, rots[..n]);
      RoundExactly((w[n + 1], w[n]), (w[n + 2], w[n + 1]), c, rots[n]);
    }
  }

  /** A stretch of the network is a run of rounds. */
  lemma Stretch(w: seq<Word>, at: nat, c: Word, rots: seq<nat>, first: nat, less: nat)
    requires at + 8 <= |w| && |rots| == 6 && 5 * less <= first
    requires forall j :: 0 <= j < 6 ==> rots[j] == first - less * j
    ensures Halves(w[at..at + 8], c, rots) <==> SixTurns(w, at, c, first, less)
  {
    hide Turned;
    var v := w[at..at + 8];
    if Halves(v, c, rots) {
      forall j | 0 <= j < 6
        ensures Turned((w[at + j + 1], w[at + j]), (w[at + j + 2], w[at + j + 1]), c, first - less * j)
      {
        assert Turned((v[j + 1], v[j]), (v[j + 2], v[j + 1]), c, rots[j]);
      }
    }
  }

  /** The rotation amounts go down in equal steps. */
  lemma Amounts()
    ensures |ROT_A| == |ROT_B| == 6
    ensures forall j :: 0 <= j < 6 ==> ROT_A[j] == 25 - 5 * j && ROT_B[j] == 10 - 2 * j
  {
  }

  lemma NetworkParts(f: Word -> Word, w: seq<Word>)
    requires |w| == 16
    ensures Network(f, w) <==>
            && Halves(w[..8], CA, ROT_A) && Halves(w[7..15], CB, ROT_B)
            && w[8] == Xor(f(w[7]), w[6]) && w[15] == Xor(f(w[14]), w[13])
  {
    hide Turned, Xor, W, Halves, SixTurns;
    Amounts();
    Stretch(w, 0, CA, ROT_A, 25, 5);
    Stretch(w, 7, CB, ROT_B, 10, 2);
    assert w[0..8] == w[..8];
  }

  lemma NetworkExists(f: Word -> Word, p: Pair)
    ensures Deciphers(f, p, DecodePair(f, p))
  {
    hide Turned, Fwd, Xor, Halves, Network, W;
    var u := HalvesExist(p, CA, ROT_A);
    assert |u| == 8 by {
      HalvesLength(u, CA, ROT_A);
    }
    var m: Pair := (Xor(f(u[7]), u[6]), u[7]);
    var v := HalvesExist(m, CB, ROT_B);
    assert |v| == 8 by {
      HalvesLength(v, CB, ROT_B);
    }
    var w := u + v[1..] + [Xor(f(v[7]), v[6])];
    Joined(u, v, Xor(f(v[7]), v[6]));
    NetworkParts(f, w);
    assert (w[15], w[14]) == (Xor(f(v[7]), v[6]), v[7]);
    assert (w[1], w[0]) == p;
  }

  lemma Joined(u: seq<Word>, v: seq<Word>, x: Word)
    requires |u| == |v| == 8 && u[7] == v[0]
    ensures var w := u + v[1..] + [x];
            && |w| == 16 && w[..8] == u && w[7..15] == v && w[15] == x
            && (w[0], w[1], w[6], w[7]) == (u[0], u[1], u[6], u[7])
            && (w[8], w[13], w[14]) == (v[1], v[6], v[7])
  {
    var w := u + v[1..] + [x];
    assert forall j :: 7 <= j < 15 ==> w[j] == v[j - 7];
  }

  lemma HalvesLength(w: seq<Word>, c: Word, rots: seq<nat>)
    requires Halves(w, c, rots)
    ensures |w| == |rots| + 2
  {
  }

  lemma NetworkDecides(f: Word -> Word, w: seq<Word>)
    requires Network(f, w)
    ensures DecodePair(f, (w[1], w[0])) == (w[15], w[14])
  {
    hide Turned, Fwd, Xor, Halves;
    NetworkParts(f, w);
    HalvesDecide(w[..8], CA, ROT_A);
    HalvesDecide(w[7..15], CB, ROT_B);
  }

  /** Whatever the keyed round is, the two transforms undo each other. */
  lemma BlockUndone(f: Word -> Word, p: Pair)
    ensures DecodePair(f, EncodePair(f, p)) == p
    ensures EncodePair(f, DecodePair(f, p)) == p
  {
    EncodeThenDecode(f, p);
    DecodeThenEncode(f, p);
  }

  lemma EncodeThenDecode(f: Word -> Word, p: Pair)
    ensures DecodePair(f, EncodePair(f, p)) == p
  {
    var b := Inv((p.1, Xor(f(p.1), p.0)), CB, ROT_B);
    StageUndone((b.1, Xor(f(b.1), b.0)), CA, ROT_A);
    XorLaws(b.0, f(b.1));
    XorLaws(f(b.1), b.0);
    StageUndone((p.1, Xor(f(p.1), p.0)), CB, ROT_B);
    XorLaws(p.0, f(p.1));
    XorLaws(f(p.1), p.0);
  }

  lemma DecodeThenEncode(f: Word -> Word, p: Pair)
    ensures EncodePair(f, DecodePair(f, p)) == p
  {
    var a := Fwd(p, CA, ROT_A);
    var b := Fwd((Xor(f(a.0), a.1), a.0), CB, ROT_B);
    XorLaws(b.1, f(b.0));
    XorLaws(f(b.0), b.1);
    StageUndone((Xor(f(a.0), a.1), a.0), CB, ROT_B);
    XorLaws(a.1, f(a.0));
    XorLaws(f(a.0), a.1);
    StageUndone(p, CA, ROT_A);
  }

  // ----- a stage is affine -----

  function XorPair(p: Pair, q: Pair): Pair {
    (Xor(p.0, q.0), Xor(p.1, q.1))
  }

  lemma UnroundAffine(p: Pair, q: Pair, c: Word, k: nat)
    ensures Unround(XorPair(p, q), c, k) == XorPair(Unround(p, c, k), Unround(q, ZERO, k))
  {
    XorExchange(p.1, q.1, c, ZERO);
    XorLaws(q.1, ZERO);
    XorLaws(c, ZERO);
    RolIsAdditive(Xor(p.1, c), q.1, k % 32);
    XorExchange(p.0, q.0, Turn(Xor(p.1, c), k), Turn(q.1, k));
  }

  /** The inverse stage of a sum is the stage of one term plus the constant-free stage of the other. */
  lemma {:induction false} InvAffine(p: Pair, q: Pair, c: Word, rots: seq<nat>)
    ensures Inv(XorPair(p, q), c, rots) == XorPair(Inv(p, c, rots), Inv(q, ZERO, rots))
    decreases |rots|
  {
    if rots == [] {
    } else {
      var init, k := rots[..|rots| - 1], rots[|rots| - 1];
      UnroundAffine(p, q, c, k);
      InvAffine(Unround(p, c, k), Unround(q, ZERO, k), c, init);
    }
  }

  /** The linear part of the right output as a function of the right input. */
  function Linear(x: Word, rots: seq<nat>): Word {
    Inv((ZERO, x), ZERO, rots).1
  }

  /** Right output = constant + linear part of the right input. */
  lemma RightHalf(L: Word, x: Word, c: Word, rots: seq<nat>)
    ensures Inv((L, x), c, rots).1 == Xor(Inv((L, ZERO), c, rots).1, Linear(x, rots))
  {
    XorLaws(L, ZERO);
    XorLaws(x, ZERO);
    InvAffine((L, ZERO), (ZERO, x), c, rots);
  }

  lemma LinearIsAdditive(x: Word, y: Word, rots: seq<nat>)
    ensures Linear(Xor(x, y), rots) == Xor(Linear(x, rots), Linear(y, rots))
    ensures Linear(ZERO, rots) == ZERO
  {
    XorLaws(ZERO, ZERO);
    InvAffine((ZERO, x), (ZERO, y), ZERO, rots);
    InvAffine((ZERO, ZERO), (ZERO, ZERO), ZERO, rots);
    XorLaws(Linear(ZERO, rots), Linear(ZERO, rots));
  }

  ghost predicate IsMatrixOf(cols: seq<Word>, rots: seq<nat>) {
    |cols| == 32 && forall i :: 0 <= i < 32 ==> cols[i] == Linear(Unit(32, i), rots)
  }

  lemma {:induction false} MatrixOfPrefix(cols: seq<Word>, rots: seq<nat>, x: Word, k: nat)
    requires IsMatrixOf(cols, rots) && k <= 32
    ensures Apply(cols, x[..k]) == Linear(Prefix(x, k), rots)
  {
    LinearIsAdditive(ZERO, ZERO, rots);
    if k == 0 {
      PrefixStep(x, 0);
    } else {
      MatrixOfPrefix(cols, rots, x, k - 1);
      PrefixStep(x, k - 1);
      assert x[..k][..k - 1] == x[..k - 1];
      LinearIsAdditive(Prefix(x, k - 1), if x[k - 1] then Unit(32, k - 1) else ZERO, rots);
    }
  }

  lemma MatrixIsLinear(cols: seq<Word>, rots: seq<nat>, x: Word)
    requires IsMatrixOf(cols, rots)
    ensures Apply(cols, x) == Linear(x, rots)
  {
    MatrixOfPrefix(cols, rots, x, 32);
    PrefixStep(x, 0);
  }

  /** A right input that the inverse stage turns into want, or None exactly when none exists. */
  method Solve(L3: Word, want: Word, c: Word, rots: seq<nat>) returns (r: Option<Word>)
    ensures r.Some? ==> Inv((L3, r.value), c, rots).1 == want
    ensures r.None? ==> forall x: Word :: Inv((L3, x), c, rots).1 != want
    ensures r.Some? ==> exists y: Word :: LeadsTo((y, want), (L3, r.value), c, rots)
    ensures r.None? ==> forall x: Word, y: Word :: !LeadsTo((y, want), (L3, x), c, rots)
  {
    var _, b := Inverse(L3, ZERO, c, rots);
    var cols: seq<Word> := [];
    for i := 0 to 32
      invariant |cols| == i && forall j :: 0 <= j < i ==> cols[j] == Linear(Unit(32, j), rots)
    {
      var _, y := Inverse(L3, Unit(32, i), c, rots);
      RightHalf(L3, Unit(32, i), c, rots);
      XorLaws(b, Linear(Unit(32, i), rots));
      XorLaws(y, b);
      cols := cols + [Xor(y, b)];
    }
    r := Preimage(cols, Xor(want, b));
    forall x: Word ensures Apply(cols, x) == Xor(want, b) <==> Inv((L3, x), c, rots).1 == want {
      MatrixIsLinear(cols, rots, x);
      RightHalf(L3, x, c, rots);
      XorLaws(want, b);
      XorLaws(b, Linear(x, rots));
      XorLaws(Linear(x, rots), b);
    }
    if r.Some? {
      var p := Inv((L3, r.value), c, rots);
      InverseExactly(p, (L3, r.value), c, rots);
      assert LeadsTo((p.0, want), (L3, r.value), c, rots);
    } else {
      forall x: Word, y: Word ensures !LeadsTo((y, want), (L3, x), c, rots) {
        InverseExactly((y, want), (L3, x), c, rots);
      }
    }
  }
}
