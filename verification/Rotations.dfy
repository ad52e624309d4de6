/** When the solver can fail at all: the linear part of a stage is a sum of rotations,
    and a sum of rotations of a 32-bit word is invertible iff it has an odd number of terms. */
module Rotations {
  import opened Words
  import opened Gf2
  import opened Feistel

  // ----- rotations compose -----

  lemma TurnTwice(v: Word, a: nat, b: nat)
    ensures Turn(Turn(v, a), b) == Turn(v, a + b)
  {
    RolTwice(v, a % 32, b % 32);
    var s := a % 32 + b % 32;
    assert (a + b) % 32 == if s < 32 then s else s - 32;
  }

  lemma RolTwice(v: Word, i: nat, j: nat)
    requires i < 32 && j < 32
    ensures Rol(Rol(v, i), j) == Rol(v, if i + j < 32 then i + j else i + j - 32)
  {
  }

  lemma TurnIsAdditive(v: Word, w: Word, k: nat)
    ensures Turn(Xor(v, w), k) == Xor(Turn(v, k), Turn(w, k))
    ensures Turn(ZERO, k) == ZERO
  {
  }

  // ----- sums of rotations -----

  function RotSum(e: seq<nat>, x: Word): Word {
    if e == [] then ZERO
    else Xor(RotSum(e[..|e| - 1], x), Turn(x, e[|e| - 1]))
  }

  lemma {:induction false} RotSumAppend(d: seq<nat>, e: seq<nat>, x: Word)
    ensures RotSum(d + e, x) == Xor(RotSum(d, x), RotSum(e, x))
  {
    if e == [] {
      assert d + e == d;
      XorLaws(RotSum(d, x), ZERO);
    } else {
      var init, k := e[..|e| - 1], e[|e| - 1];
      assert (d + e)[..|d + e| - 1] == d + init;
      RotSumAppend(d, init, x);
      XorExchange(RotSum(d, x), RotSum(init, x), Turn(x, k), ZERO);
    }
  }

  lemma {:induction false} RotSumIsAdditive(e: seq<nat>, x: Word, y: Word)
    ensures RotSum(e, Xor(x, y)) == Xor(RotSum(e, x), RotSum(e, y))
    ensures RotSum(e, ZERO) == ZERO
  {
    XorLaws(ZERO, ZERO);
    if e == [] {
    } else {
      var init, k := e[..|e| - 1], e[|e| - 1];
      RotSumIsAdditive(init, x, y);
      TurnIsAdditive(x, y, k);
      XorExchange(RotSum(init, x), RotSum(init, y), Turn(x, k), Turn(y, k));
    }
  }

  function Shift(e: seq<nat>, k: nat): (s: seq<nat>)
    ensures |s| == |e|
  {
    if e == [] then [] else Shift(e[..|e| - 1], k) + [e[|e| - 1] + k]
  }

  lemma RotSumSnoc(e: seq<nat>, k: nat, x: Word)
    ensures RotSum(e + [k], x) == Xor(RotSum(e, x), Turn(x, k))
  {
  }

  /** Rotating a sum of rotations, or summing the rotations of a rotated word, shifts every amount. */
  lemma {:induction false} RotSumShift(e: seq<nat>, k: nat, x: Word)
    ensures RotSum(Shift(e, k), x) == Turn(RotSum(e, x), k)
    ensures RotSum(e, Turn(x, k)) == Turn(RotSum(e, x), k)
  {
    TurnIsAdditive(ZERO, ZERO, k);
    if e == [] {
    } else {
      RotSumShift(e[..|e| - 1], k, x);
      RotSumShiftStep(e[..|e| - 1], e[|e| - 1], k, x);
      assert e == e[..|e| - 1] + [e[|e| - 1]];
    }
  }

  lemma RotSumShiftStep(e: seq<nat>, a: nat, k: nat, x: Word)
    requires RotSum(Shift(e, k), x) == Turn(RotSum(e, x), k) == RotSum(e, Turn(x, k))
    ensures RotSum(Shift(e, k) + [a + k], x) == Turn(RotSum(e + [a], x), k)
    ensures RotSum(e + [a], Turn(x, k)) == Turn(RotSum(e + [a], x), k)
  {
    hide *;
    var s, t := RotSum(e, x), Turn(x, a);
    RotSumSnoc(e, a, x);
    RotSumSnoc(e, a, Turn(x, k));
    RotSumSnoc(Shift(e, k), a + k, x);
    assert Turn(Xor(s, t), k) == Xor(Turn(s, k), Turn(t, k)) by { TurnIsAdditive(s, t, k); }
    assert Turn(t, k) == Turn(x, a + k) by { TurnTwice(x, a, k); }
    assert Turn(Turn(x, k), a) == Turn(x, a + k) by { TurnTwice(x, k, a); }
  }

  function Double(e: seq<nat>): (d: seq<nat>)
    ensures |d| == |e|
  {
    if e == [] then [] else Double(e[..|e| - 1]) + [2 * e[|e| - 1]]
  }

  /** Over GF(2) the cross terms of a square cancel. */
  lemma {:induction false} Square(e: seq<nat>, x: Word)
    ensures RotSum(e, RotSum(e, x)) == RotSum(Double(e), x)
  {
    if e == [] {
    } else {
      Square(e[..|e| - 1], x);
      SquareStep(e[..|e| - 1], e[|e| - 1], x);
      assert e == e[..|e| - 1] + [e[|e| - 1]];
    }
  }

  lemma SquareStep(e: seq<nat>, k: nat, x: Word)
    requires RotSum(e, RotSum(e, x)) == RotSum(Double(e), x)
    ensures RotSum(e + [k], RotSum(e + [k], x)) == RotSum(Double(e) + [2 * k], x)
  {
    RotSumSnoc(Double(e), 2 * k, x);
    SquareOfSnoc(e, k, x);
  }

  lemma SquareOfSnoc(e: seq<nat>, k: nat, x: Word)
    ensures RotSum(e + [k], RotSum(e + [k], x)) == Xor(RotSum(e, RotSum(e, x)), Turn(x, 2 * k))
  {
    hide *;
    var s, t := RotSum(e, x), Turn(x, k);
    RotSumSnoc(e, k, x);
    RotSumOfSum(e, k, s, t);
    assert RotSum(e, t) == Turn(s, k) by { RotSumShift(e, k, x); }
    assert Turn(t, k) == Turn(x, 2 * k) by { TurnTwice(x, k, k); }
    CancelMiddle(RotSum(e, s), Turn(s, k), Turn(t, k));
  }

  lemma RotSumOfSum(e: seq<nat>, k: nat, s: Word, t: Word)
    ensures RotSum(e + [k], Xor(s, t)) == Xor(Xor(RotSum(e, s), RotSum(e, t)), Xor(Turn(s, k), Turn(t, k)))
  {
    RotSumSnoc(e, k, Xor(s, t));
    RotSumIsAdditive(e, s, t);
    TurnIsAdditive(s, t, k);
  }

  lemma CancelMiddle(a: Word, b: Word, c: Word)
    ensures Xor(Xor(a, b), Xor(b, c)) == Xor(a, c)
  {
  }

  /** After five squarings every amount is a multiple of 32. */
  ghost predicate Vanishing(e: seq<nat>, k: nat) {
    forall i :: 0 <= i < |e| ==> e[i] * Pow2(k) % 32 == 0
  }

  lemma {:induction false} DoubleVanishing(e: seq<nat>, k: nat)
    requires Vanishing(e, k + 1)
    ensures Vanishing(Double(e), k)
  {
    if e == [] {
    } else {
      var n := |e| - 1;
      var init := e[..n];
      assert forall i :: 0 <= i < n ==> init[i] == e[i];
      DoubleVanishing(init, k);
      assert e[n] * Pow2(k + 1) == 2 * e[n] * Pow2(k);
      assert Double(e) == Double(init) + [2 * e[n]];
    }
  }

  lemma {:induction false} WholeTurns(e: seq<nat>, x: Word)
    requires Vanishing(e, 0)
    ensures RotSum(e, x) == if |e| % 2 == 1 then x else ZERO
  {
    if e == [] {
    } else {
      var n := |e| - 1;
      assert Vanishing(e[..n], 0);
      WholeTurns(e[..n], x);
      WholeTurn(x, e[n]);
      XorLaws(x, x);
    }
  }

  lemma WholeTurn(x: Word, k: nat)
    requires k * Pow2(0) % 32 == 0
    ensures Turn(x, k) == x
  {
  }

  ghost predicate Reaches(e: seq<nat>, w: Word) {
    exists y: Word :: RotSum(e, y) == w
  }

  /** An odd sum of rotations is onto and one-to-one. */
  lemma {:induction false} OddSumInvertible(e: seq<nat>, w: Word, k: nat)
    requires |e| % 2 == 1 && Vanishing(e, k)
    ensures Reaches(e, w)
    ensures RotSum(e, w) == ZERO ==> w == ZERO
    decreases k
  {
    if k == 0 {
      WholeTurns(e, w);
    } else {
      DoubleVanishing(e, k - 1);
      OddSumInvertible(Double(e), w, k - 1);
      var y: Word :| RotSum(Double(e), y) == w;
      Square(e, y);
      Square(e, w);
      RotSumIsAdditive(e, ZERO, ZERO);
      assert RotSum(e, RotSum(e, y)) == w;
    }
  }

  /** Were an even sum of rotations onto, so would be its 2^k-fold repetition, which is zero. */
  lemma {:induction false} OntoRepeats(e: seq<nat>, w: Word, k: nat)
    requires |e| % 2 == 0 && Vanishing(e, k)
    requires forall v: Word :: Reaches(e, v)
    ensures w == ZERO
    decreases k
  {
    if k == 0 {
      assert Reaches(e, w);
      var y: Word :| RotSum(e, y) == w;
      WholeTurns(e, y);
    } else {
      DoubleVanishing(e, k - 1);
      forall v: Word ensures Reaches(Double(e), v) {
        ReachesTwice(e, v);
      }
      OntoRepeats(Double(e), w, k - 1);
    }
  }

  lemma ReachesTwice(e: seq<nat>, v: Word)
    requires forall w: Word :: Reaches(e, w)
    ensures Reaches(Double(e), v)
  {
    assert Reaches(e, v);
    var u: Word :| RotSum(e, u) == v;
    assert Reaches(e, u);
    var y: Word :| RotSum(e, y) == u;
    Square(e, y);
  }

  lemma EvenSumMisses(e: seq<nat>) returns (w: Word)
    requires |e| % 2 == 0 && Vanishing(e, 5)
    ensures !Reaches(e, w)
  {
    var one: Word := Unit(32, 0);
    assert one[0] && !ZERO[0];
    if forall v: Word :: Reaches(e, v) {
      OntoRepeats(e, one, 5);
    }
    w :| !Reaches(e, w);
  }

  lemma {:induction false} AllVanishAtFive(e: seq<nat>)
    ensures Vanishing(e, 5)
  {
  }

  // ----- the stages are sums of rotations -----

  /** Rotation amounts of the two halves, term by term, as the inverse stage builds them. */
  function Amounts(a: seq<nat>, b: seq<nat>, rots: seq<nat>): (seq<nat>, seq<nat>)
    decreases |rots|
  {
    if rots == [] then (a, b)
    else Amounts(b, a + Shift(b, rots[|rots| - 1]), rots[..|rots| - 1])
  }

  lemma {:induction false} StageIsRotSum(a: seq<nat>, b: seq<nat>, rots: seq<nat>, x: Word)
    ensures var r := Amounts(a, b, rots);
            Inv((RotSum(a, x), RotSum(b, x)), ZERO, rots) == (RotSum(r.0, x), RotSum(r.1, x))
    decreases |rots|
  {
    if rots == [] {
    } else {
      var init, k := rots[..|rots| - 1], rots[|rots| - 1];
      RotSumAppend(a, Shift(b, k), x);
      RotSumShift(b, k, x);
      XorLaws(RotSum(b, x), ZERO);
      StageIsRotSum(b, a + Shift(b, k), init, x);
    }
  }

  /** The numbers of terms follow the Fibonacci recurrence, whose parity has period three. */
  lemma {:induction false} AmountsParity(a: seq<nat>, b: seq<nat>, rots: seq<nat>)
    ensures |Amounts(a, b, rots).1| % 2 ==
            (if |rots| % 3 == 0 then |b| else if |rots| % 3 == 1 then |a| + |b| else |a|) % 2
    decreases |rots|
  {
    if rots == [] {
    } else {
      var init, k := rots[..|rots| - 1], rots[|rots| - 1];
      AmountsParity(b, a + Shift(b, k), init);
    }
  }

  function LinearAmounts(rots: seq<nat>): seq<nat> {
    Amounts([], [0], rots).1
  }

  lemma LinearIsRotSum(x: Word, rots: seq<nat>)
    ensures Linear(x, rots) == RotSum(LinearAmounts(rots), x)
    ensures |LinearAmounts(rots)| % 2 == 1 <==> |rots| % 3 != 2
  {
    assert [0][..0] == [];
    assert Turn(x, 0) == x;
    XorLaws(x, ZERO);
    assert RotSum([0], x) == x;
    StageIsRotSum([], [0], rots, x);
    AmountsParity([], [0], rots);
  }

  /** The rounds lead from some state with right half want to one with left half L3: what Solve looks for. */
  ghost predicate Solvable(L3: Word, want: Word, c: Word, rots: seq<nat>) {
    exists x: Word, y: Word :: LeadsTo((y, want), (L3, x), c, rots)
  }

  lemma SolvableBackwards(L3: Word, want: Word, c: Word, rots: seq<nat>)
    ensures Solvable(L3, want, c, rots) <==> exists x: Word :: Inv((L3, x), c, rots).1 == want
  {
    hide LeadsTo, Inv;
    if x: Word :| Inv((L3, x), c, rots).1 == want {
      var p := Inv((L3, x), c, rots);
      InverseExactly(p, (L3, x), c, rots);
      assert LeadsTo((p.0, want), (L3, x), c, rots);
    }
    if x: Word, y: Word :| LeadsTo((y, want), (L3, x), c, rots) {
      InverseExactly((y, want), (L3, x), c, rots);
    }
  }

  lemma SolvableIsReachable(L3: Word, want: Word, c: Word, rots: seq<nat>)
    ensures Solvable(L3, want, c, rots) <==>
            Reaches(LinearAmounts(rots), Xor(want, Inv((L3, ZERO), c, rots).1))
  {
    var b := Inv((L3, ZERO), c, rots).1;
    SolvableBackwards(L3, want, c, rots);
    forall x: Word
      ensures Inv((L3, x), c, rots).1 == want <==> RotSum(LinearAmounts(rots), x) == Xor(want, b)
    {
      LinearIsRotSum(x, rots);
      RightHalf(L3, x, c, rots);
      XorLaws(want, b);
      XorLaws(b, Linear(x, rots));
      XorLaws(Linear(x, rots), b);
    }
  }

  /** The solver always succeeds for lists of rotations whose length is not 2 modulo 3, and
      for every other list there is a word it has to refuse -- whatever the amounts are. */
  lemma SolverIsTotal(L3: Word, c: Word, rots: seq<nat>)
    ensures |rots| % 3 != 2 <==> forall want: Word :: Solvable(L3, want, c, rots)
  {
    var e := LinearAmounts(rots);
    var b := Inv((L3, ZERO), c, rots).1;
    LinearIsRotSum(ZERO, rots);
    AllVanishAtFive(e);
    if |rots| % 3 != 2 {
      forall want: Word ensures Solvable(L3, want, c, rots) {
        OddSumInvertible(e, Xor(want, b), 5);
        SolvableIsReachable(L3, want, c, rots);
      }
    } else {
      var w := EvenSumMisses(e);
      SolvableIsReachable(L3, Xor(w, b), c, rots);
      XorLaws(w, b);
      assert !Solvable(L3, Xor(w, b), c, rots);
    }
  }

  /** The matrix the collision test inverts at start-up is not singular. */
  lemma StageMatrixIndependent(cols: seq<Word>, x: Word)
    requires IsMatrixOf(cols, ROT_B) && Apply(cols, x) == ZERO
    ensures x == ZERO
  {
    MatrixIsLinear(cols, ROT_B, x);
    LinearIsRotSum(x, ROT_B);
    AllVanishAtFive(LinearAmounts(ROT_B));
    OddSumInvertible(LinearAmounts(ROT_B), x, 5);
  }
}
