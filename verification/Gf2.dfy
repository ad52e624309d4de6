/** Linear algebra over GF(2) on 32-bit words: matrices as column images, Gaussian
    elimination into a dictionary keyed by leading one, and membership in a span. */
module Gf2 {
  import opened Words

  const ZERO: Word := Zeros(32)

  // ----- matrices -----

  /** The XOR of the columns selected by x. */
  function Apply(cols: seq<Word>, x: Bits): Word
    requires |x| <= |cols|
  {
    var n := |x|;
    if n == 0 then ZERO
    else Xor(Apply(cols, x[..n - 1]), if x[n - 1] then cols[n - 1] else ZERO)
  }

  lemma {:induction false} ApplyIsAdditive(cols: seq<Word>, x: Bits, y: Bits)
    requires |x| == |y| <= |cols|
    ensures Apply(cols, Xor(x, y)) == Xor(Apply(cols, x), Apply(cols, y))
  {
    XorLaws(ZERO, ZERO);
    if x == [] {
    } else {
      var n := |x| - 1;
      ApplyIsAdditive(cols, x[..n], y[..n]);
      assert Xor(x, y)[..n] == Xor(x[..n], y[..n]);
      var a := if x[n] then cols[n] else ZERO;
      var b := if y[n] then cols[n] else ZERO;
      XorExchange(Apply(cols, x[..n]), a, Apply(cols, y[..n]), b);
      XorLaws(a, b);
    }
  }

  lemma {:induction false} ApplyZeros(cols: seq<Word>, n: nat)
    requires n <= |cols|
    ensures Apply(cols, Zeros(n)) == ZERO
  {
    if n == 0 {
    } else {
      ApplyZeros(cols, n - 1);
      assert Zeros(n)[..n - 1] == Zeros(n - 1);
      XorLaws(ZERO, ZERO);
    }
  }

  lemma {:induction false} ApplyPadded(cols: seq<Word>, x: Bits, n: nat)
    requires |x| <= n <= |cols|
    ensures Apply(cols, x + Zeros(n - |x|)) == Apply(cols, x)
    decreases n
  {
    if |x| < n {
      ApplyPadded(cols, x, n - 1);
      assert (x + Zeros(n - |x|))[..n - 1] == x + Zeros(n - 1 - |x|);
      XorLaws(Apply(cols, x), ZERO);
    } else {
      assert x + Zeros(0) == x;
    }
  }

  lemma ApplyUnit(cols: seq<Word>, n: nat, i: nat)
    requires i < n <= |cols|
    ensures Apply(cols, Unit(n, i)) == cols[i]
  {
    var u := Zeros(i) + [true];
    assert u[..i] == Zeros(i);
    ApplyZeros(cols, i);
    XorLaws(cols[i], ZERO);
    ApplyPadded(cols, u, n);
    assert u + Zeros(n - |u|) == Unit(n, i);
  }

  function Prefix(x: Word, k: nat): Word
    requires k <= 32
  {
    x[..k] + Zeros(32 - k)
  }

  lemma PrefixStep(x: Word, k: nat)
    requires k < 32
    ensures Prefix(x, k + 1) == Xor(Prefix(x, k), if x[k] then Unit(32, k) else ZERO)
    ensures Prefix(x, 0) == ZERO && Prefix(x, 32) == x == x[..32]
  {
  }

  /** Position of the lowest set bit. */
  function LowestOne(x: Bits): (i: nat)
    requires x != Zeros(|x|)
    ensures i < |x| && x[i] && forall j :: 0 <= j < i ==> !x[j]
  {
    if x[0] then 0
    else
      assert x == [false] + x[1..];
      1 + LowestOne(x[1..])
  }

  /** x with its k low bits cleared. */
  function ClearLow(x: Word, k: nat): Word
    requires k <= 32
  {
    Zeros(k) + x[k..]
  }

  lemma {:induction false} ApplySkips(cols: seq<Word>, x: Word, k: nat, i: nat)
    requires |cols| == 32 && k <= i <= 32
    requires forall j :: k <= j < i ==> !x[j]
    ensures Apply(cols, x[..i]) == Apply(cols, x[..k])
    decreases i
  {
    if k == i {
    } else {
      assert x[..i][..i - 1] == x[..i - 1];
      XorLaws(Apply(cols, x[..i - 1]), ZERO);
      ApplySkips(cols, x, k, i - 1);
    }
  }

  lemma LowestAbove(x: Word, k: nat)
    requires k <= 32 && ClearLow(x, k) != ZERO
    ensures var i := LowestOne(ClearLow(x, k));
            && k <= i && x[i] && (forall j :: k <= j < i ==> !x[j])
            && ClearLow(x, k)[i := false] == ClearLow(x, i + 1)
  {
    hide LowestOne;
    var y := ClearLow(x, k);
    assert forall j :: 0 <= j < k ==> !y[j];
    assert forall j :: k <= j < 32 ==> y[j] == x[j];
  }

  lemma ApplyNext(cols: seq<Word>, x: Word, k: nat)
    requires |cols| == 32 && k <= 32 && ClearLow(x, k) != ZERO
    ensures var i := LowestOne(ClearLow(x, k));
            k <= i && Apply(cols, x[..i + 1]) == Xor(Apply(cols, x[..k]), cols[i])
            && ClearLow(x, k)[i := false] == ClearLow(x, i + 1)
  {
    hide LowestOne, ClearLow, Xor;
    LowestAbove(x, k);
    var i := LowestOne(ClearLow(x, k));
    ApplySkips(cols, x, k, i);
    assert x[..i + 1][..i] == x[..i];
  }

  lemma NothingAbove(cols: seq<Word>, x: Word, k: nat)
    requires |cols| == 32 && k <= 32 && ClearLow(x, k) == ZERO
    ensures Apply(cols, x) == Apply(cols, x[..k])
  {
    forall j | k <= j < 32 ensures !x[j] {
      assert ClearLow(x, k)[j] == ZERO[j];
    }
    ApplySkips(cols, x, k, 32);
    assert x[..32] == x;
  }

  lemma ClearNothing(cols: seq<Word>, x: Word)
    ensures ClearLow(x, 0) == x && Apply(cols, x[..0]) == ZERO
  {
  }

  /** The loop takes the set bits of x lowest first, clearing each. */
  method ApplyMat(cols: seq<Word>, x0: Word) returns (r: Word)
    requires |cols| == 32
    ensures r == Apply(cols, x0)
  {
    hide LowestOne, ClearLow, Xor, Apply;
    ClearNothing(cols, x0);
    r := ZERO;
    var x: Word := x0;
    ghost var k := 0;
    while x != ZERO
      invariant 0 <= k <= 32 && x == ClearLow(x0, k)
      invariant r == Apply(cols, x0[..k])
      decreases 32 - k
    {
      var i := LowestOne(x);
      ApplyNext(cols, x0, k);
      r := Xor(r, cols[i]);
      x := x[i := false];
      k := i + 1;
    }
    NothingAbove(cols, x0, k);
  }

  // ----- spans -----

  /** t is the XOR of some selection of vs. */
  predicate InSpan(vs: seq<Word>, t: Word) {
    if vs == [] then t == ZERO
    else
      var init := vs[..|vs| - 1];
      InSpan(init, t) || InSpan(init, Xor(t, vs[|vs| - 1]))
  }

  lemma {:induction false} SpanIsClosed(vs: seq<Word>, a: Word, b: Word)
    requires InSpan(vs, a) && InSpan(vs, b)
    ensures InSpan(vs, Xor(a, b))
  {
    if vs == [] {
      XorLaws(a, b);
    } else {
      var init, v := vs[..|vs| - 1], vs[|vs| - 1];
      var a' := if InSpan(init, a) then a else Xor(a, v);
      var b' := if InSpan(init, b) then b else Xor(b, v);
      SpanIsClosed(init, a', b');
      XorExchange(a, v, b, v);
      XorExchange(a, v, b, b);
      XorExchange(a, b, v, v);
      XorLaws(v, v);
      XorLaws(Xor(a, b), v);
    }
  }

  lemma {:induction false} ZeroIsSpanned(vs: seq<Word>)
    ensures InSpan(vs, ZERO)
  {
    if vs == [] {
    } else {
      ZeroIsSpanned(vs[..|vs| - 1]);
    }
  }

  lemma SpanGrows(vs: seq<Word>, c: Word, t: Word)
    ensures InSpan(vs + [c], t) <==> InSpan(vs, t) || InSpan(vs, Xor(t, c))
  {
  }

  /** Every image of a matrix is spanned by its columns. */
  lemma {:induction false} ImageIsSpanned(cols: seq<Word>, x: Bits)
    requires |x| <= |cols|
    ensures InSpan(cols[..|x|], Apply(cols, x))
  {
    var n := |x|;
    if n == 0 {
    } else {
      assert cols[..n][..n - 1] == cols[..n - 1];
      ImageIsSpanned(cols, x[..n - 1]);
      XorLaws(Apply(cols, x[..n - 1]), cols[n - 1]);
      XorLaws(Apply(cols, x[..n - 1]), ZERO);
    }
  }

  // ----- elimination -----

  /** Position of the leading one. */
  function Top(v: Word): (h: nat)
    requires v != ZERO
    ensures BitLength(v) == h + 1
  {
    BitLengthZero(v);
    BitLength(v) - 1
  }

  /** Each vector is stored under the position of its leading one. */
  ghost predicate Echelon(basis: map<nat, Word>) {
    forall h :: h in basis ==> BitLength(basis[h]) == h + 1
  }

  /** What is left of v when leading ones found in the basis are cancelled one by one. */
  function Residue(basis: map<nat, Word>, v: Word): (r: Word)
    requires Echelon(basis)
    ensures r == ZERO || Top(r) !in basis
    decreases BitLength(v)
  {
    if v == ZERO || Top(v) !in basis then v
    else
      var bv := basis[Top(v)];
      BitLengthXor(v, bv);
      Residue(basis, Xor(v, bv))
  }

  /** The basis spans exactly the span of vs, and every leading one of the span is a key. */
  ghost predicate Spans(vs: seq<Word>, basis: map<nat, Word>) {
    && Echelon(basis)
    && (forall h :: h in basis ==> InSpan(vs, basis[h]))
    && (forall u: Word :: u != ZERO && InSpan(vs, u) ==> Top(u) in basis)
  }

  lemma {:induction false} ResidueDiffersBySpan(vs: seq<Word>, basis: map<nat, Word>, v: Word)
    requires Spans(vs, basis)
    ensures InSpan(vs, Xor(Residue(basis, v), v))
    decreases BitLength(v)
  {
    if v == ZERO || Top(v) !in basis {
      XorLaws(v, v);
      ZeroIsSpanned(vs);
    } else {
      var bv := basis[Top(v)];
      BitLengthXor(v, bv);
      var r := Residue(basis, v);
      ResidueDiffersBySpan(vs, basis, Xor(v, bv));
      SpanIsClosed(vs, Xor(r, Xor(v, bv)), bv);
      XorExchange(r, v, bv, bv);
      XorLaws(Xor(r, v), bv);
    }
  }

  /** Reduction decides membership in the span. */
  lemma ResidueDecides(vs: seq<Word>, basis: map<nat, Word>, v: Word)
    requires Spans(vs, basis)
    ensures Residue(basis, v) == ZERO <==> InSpan(vs, v)
  {
    var r := Residue(basis, v);
    ResidueDiffersBySpan(vs, basis, v);
    XorLaws(r, v);
    XorLaws(v, v);
    if InSpan(vs, v) {
      SpanIsClosed(vs, Xor(r, v), v);
    }
  }

  /** One elimination step extends the span by one vector. */
  lemma Eliminate(vs: seq<Word>, basis: map<nat, Word>, c: Word)
    requires Spans(vs, basis)
    ensures var r := Residue(basis, c);
            Spans(vs + [c], if r == ZERO then basis else basis[Top(r) := r])
  {
    hide Residue, Xor, BitLength;
    var r := Residue(basis, c);
    var next := if r == ZERO then basis else basis[Top(r) := r];
    ResidueDiffersBySpan(vs, basis, c);
    XorLaws(r, c);
    forall h | h in next ensures InSpan(vs + [c], next[h]) {
      SpanGrows(vs, c, next[h]);
    }
    forall u: Word | u != ZERO && InSpan(vs + [c], u) ensures Top(u) in next {
      SpanGrows(vs, c, u);
      if !InSpan(vs, u) {
        var s := Xor(Xor(u, c), Xor(r, c));
        SpanIsClosed(vs, Xor(u, c), Xor(r, c));
        XorExchange(u, c, r, c);
        XorLaws(c, c);
        XorLaws(Xor(u, r), c);
        XorLaws(u, r);
        assert s == Xor(u, r) && u == Xor(s, r);
        LeadingOneOfSum(vs, basis, s, r);
      }
    }
  }

  lemma LeadingOneOfSum(vs: seq<Word>, basis: map<nat, Word>, s: Word, r: Word)
    requires Spans(vs, basis) && InSpan(vs, s)
    requires r == ZERO || Top(r) !in basis
    requires Xor(s, r) != ZERO
    ensures Top(Xor(s, r)) in basis || (r != ZERO && Top(Xor(s, r)) == Top(r))
  {
    hide InSpan, Xor, BitLength, Residue;
    XorLaws(s, r);
    XorLaws(r, s);
    if s != ZERO && r != ZERO {
      BitLengthXor(s, r);
      BitLengthXor(r, s);
    }
  }

  /** The basis of any list of vectors, as built for the span test. */
  method BuildBasis(vs: seq<Word>) returns (basis: map<nat, Word>)
    ensures Spans(vs, basis)
  {
    basis := map[];
    for i := 0 to |vs|
      invariant Spans(vs[..i], basis)
    {
      Eliminate(vs[..i], basis, vs[i]);
      assert vs[..i + 1] == vs[..i] + [vs[i]];
      var v: Word := vs[i];
      ghost var before := basis;
      while v != ZERO
        invariant basis == before && Residue(basis, v) == Residue(basis, vs[i])
        decreases BitLength(v)
      {
        var hb := Top(v);
        if hb in basis {
          BitLengthXor(v, basis[hb]);
          v := Xor(v, basis[hb]);
        } else {
          basis := basis[hb := v];
          break;
        }
      }
    }
    assert vs[..|vs|] == vs;
  }

  method InSpanTest(basis: map<nat, Word>, t0: Word, ghost vs: seq<Word>) returns (b: bool)
    requires Spans(vs, basis)
    ensures b <==> InSpan(vs, t0)
  {
    var t: Word := t0;
    ResidueDecides(vs, basis, t0);
    while t != ZERO
      invariant Residue(basis, t) == Residue(basis, t0)
      decreases BitLength(t)
    {
      var hb := Top(t);
      if hb !in basis {
        return false;
      }
      BitLengthXor(t, basis[hb]);
      t := Xor(t, basis[hb]);
    }
    return true;
  }

  // ----- elimination that records how each vector was combined -----

  type Rows = map<nat, (Word, Word)>

  function Vectors(rows: Rows): map<nat, Word> {
    map h | h in rows :: rows[h].0
  }

  /** Each stored vector is the image of its tag. */
  ghost predicate Tagged(cols: seq<Word>, rows: Rows)
    requires |cols| == 32
  {
    && Echelon(Vectors(rows))
    && forall h :: h in rows ==> Apply(cols, rows[h].1) == rows[h].0
  }

  /** Only the first k columns have been used. */
  ghost predicate TagsBelow(rows: Rows, k: nat) {
    forall h, j :: h in rows && k <= j < 32 ==> !rows[h].1[j]
  }

  method ReduceRow(rows: Rows, v0: Word, m0: Word, ghost cols: seq<Word>, ghost k: nat) returns (v: Word, m: Word)
    requires |cols| == 32 && Tagged(cols, rows) && TagsBelow(rows, k)
    ensures v == Residue(Vectors(rows), v0)
    ensures Xor(v, v0) == Xor(Apply(cols, m), Apply(cols, m0))
    ensures forall j :: k <= j < 32 ==> m[j] == m0[j]
  {
    v, m := v0, m0;
    XorLaws(v0, v0);
    XorLaws(Apply(cols, m0), ZERO);
    while v != ZERO && Top(v) in rows
      invariant Residue(Vectors(rows), v) == Residue(Vectors(rows), v0)
      invariant Xor(v, v0) == Xor(Apply(cols, m), Apply(cols, m0))
      invariant forall j :: k <= j < 32 ==> m[j] == m0[j]
      decreases BitLength(v)
    {
      var (bv, bm) := rows[Top(v)];
      assert Vectors(rows)[Top(v)] == bv;
      BitLengthXor(v, bv);
      ApplyIsAdditive(cols, m, bm);
      XorExchange(v, v0, bv, bv);
      XorExchange(Apply(cols, m), Apply(cols, m0), bv, bv);
      v, m := Xor(v, bv), Xor(m, bm);
    }
  }

  lemma VectorsUpdate(rows: Rows, h: nat, v: Word, m: Word)
    ensures Vectors(rows[h := (v, m)]) == Vectors(rows)[h := v]
  {
  }

  lemma InsertRow(cols: seq<Word>, rows: Rows, k: nat, v: Word, m: Word)
    requires |cols| == 32 && Tagged(cols, rows) && TagsBelow(rows, k)
    requires v != ZERO && Apply(cols, m) == v && forall j :: k < j < 32 ==> !m[j]
    ensures Tagged(cols, rows[Top(v) := (v, m)]) && TagsBelow(rows[Top(v) := (v, m)], k + 1)
  {
    VectorsUpdate(rows, Top(v), v, m);
    assert Echelon(Vectors(rows)[Top(v) := v]);
  }

  /** The image of the tag is what the reduced vector amounts to. */
  lemma RowIsImage(cols: seq<Word>, i: nat, v: Word, m: Word)
    requires |cols| == 32 && i < 32
    requires Xor(v, cols[i]) == Xor(Apply(cols, m), Apply(cols, Unit(32, i)))
    ensures Apply(cols, m) == v
  {
    ApplyUnit(cols, 32, i);
    XorLaws(v, cols[i]);
    XorLaws(Apply(cols, m), cols[i]);
  }

  ghost predicate Independent(cols: seq<Word>, k: nat)
    requires k <= |cols|
  {
    forall x: Bits :: |x| == k && Apply(cols, x) == ZERO ==> x == Zeros(k)
  }

  lemma IndependenceGrows(cols: seq<Word>, k: nat)
    requires k < |cols| && Independent(cols, k) && !InSpan(cols[..k], cols[k])
    ensures Independent(cols, k + 1)
  {
    forall x: Bits | |x| == k + 1 && Apply(cols, x) == ZERO ensures x == Zeros(k + 1) {
      var low := x[..k];
      XorLaws(Apply(cols, low), cols[k]);
      XorLaws(Apply(cols, low), ZERO);
      ImageIsSpanned(cols, low);
      assert low == Zeros(k);
      assert x == low + [false];
    }
  }

  function Below(n: nat): set<nat> {
    if n == 0 then {} else Below(n - 1) + {n - 1}
  }

  lemma {:induction false} BelowSpec(n: nat)
    ensures |Below(n)| == n && forall h: nat :: h in Below(n) <==> h < n
  {
    if n == 0 {
    } else {
      BelowSpec(n - 1);
    }
  }

  lemma AllKeys(rows: Rows)
    requires Echelon(Vectors(rows)) && |rows| == 32
    ensures forall h: nat :: h < 32 ==> h in rows
  {
    BelowSpec(32);
    assert rows.Keys <= Below(32) by {
      forall h | h in rows ensures h in Below(32) {
        assert h in Vectors(rows);
      }
    }
    assert |Below(32) - rows.Keys| == 0;
    forall h: nat | h < 32 ensures h in rows {
      assert h in Below(32) && h !in Below(32) - rows.Keys;
    }
  }

  ghost predicate Inverses(a: seq<Word>, b: seq<Word>)
    requires |a| == |b| == 32
  {
    forall x: Word :: Apply(a, Apply(b, x)) == x && Apply(b, Apply(a, x)) == x
  }

  lemma {:induction false} RightInversePrefix(cols: seq<Word>, out: seq<Word>, x: Word, k: nat)
    requires |cols| == |out| == 32 && k <= 32
    requires forall i :: 0 <= i < 32 ==> Apply(cols, out[i]) == Unit(32, i)
    ensures Apply(cols, Apply(out, x[..k])) == Prefix(x, k)
  {
    hide Xor, Prefix, Unit;
    ApplyZeros(cols, 32);
    if k == 0 {
      PrefixStep(x, 0);
    } else {
      RightInversePrefix(cols, out, x, k - 1);
      PrefixStep(x, k - 1);
      assert x[..k][..k - 1] == x[..k - 1];
      ApplyIsAdditive(cols, Apply(out, x[..k - 1]), if x[k - 1] then out[k - 1] else ZERO);
    }
  }

  lemma RightInverse(cols: seq<Word>, out: seq<Word>, x: Word)
    requires |cols| == |out| == 32
    requires forall i :: 0 <= i < 32 ==> Apply(cols, out[i]) == Unit(32, i)
    ensures Apply(cols, Apply(out, x)) == x
  {
    RightInversePrefix(cols, out, x, 32);
    PrefixStep(x, 0);
  }

  /** For independent columns a right inverse is a left inverse. */
  lemma LeftInverse(cols: seq<Word>, out: seq<Word>, x: Word)
    requires |cols| == |out| == 32 && Independent(cols, 32)
    requires Apply(cols, Apply(out, Apply(cols, x))) == Apply(cols, x)
    ensures Apply(out, Apply(cols, x)) == x
  {
    var y := Apply(out, Apply(cols, x));
    ApplyIsAdditive(cols, y, x);
    XorLaws(Apply(cols, x), ZERO);
    XorLaws(y, x);
    assert Apply(cols, Xor(y, x)) == ZERO;
  }

  lemma InverseFromColumns(cols: seq<Word>, out: seq<Word>)
    requires |cols| == |out| == 32 && Independent(cols, 32)
    requires forall i :: 0 <= i < 32 ==> Apply(cols, out[i]) == Unit(32, i)
    ensures Inverses(cols, out)
  {
    hide Apply, Independent;
    forall x: Word ensures Apply(cols, Apply(out, x)) == x && Apply(out, Apply(cols, x)) == x {
      RightInverse(cols, out, x);
      RightInverse(cols, out, Apply(cols, x));
      LeftInverse(cols, out, x);
    }
  }

  /** What one round of the elimination loop keeps. */
  ghost predicate Progress(cols: seq<Word>, rows: Rows, i: nat)
    requires |cols| == 32 && i <= 32
  {
    && Tagged(cols, rows) && TagsBelow(rows, i)
    && Spans(cols[..i], Vectors(rows))
  }

  lemma ProgressStep(cols: seq<Word>, rows: Rows, i: nat, v: Word, m: Word)
    requires |cols| == 32 && i < 32 && Progress(cols, rows, i)
    requires v == Residue(Vectors(rows), cols[i])
    requires Xor(v, cols[i]) == Xor(Apply(cols, m), Apply(cols, Unit(32, i)))
    requires forall j :: i <= j < 32 ==> m[j] == Unit(32, i)[j]
    ensures Apply(cols, m) == v && m[i]
    ensures v == ZERO <==> InSpan(cols[..i], cols[i])
    ensures v == ZERO ==> Progress(cols, rows, i + 1)
    ensures v != ZERO ==> Top(v) !in rows && Progress(cols, rows[Top(v) := (v, m)], i + 1)
  {
    hide Apply, InSpan, Residue, Spans, Tagged;
    RowIsImage(cols, i, v, m);
    ResidueDecides(cols[..i], Vectors(rows), cols[i]);
    Eliminate(cols[..i], Vectors(rows), cols[i]);
    assert cols[..i + 1] == cols[..i] + [cols[i]];
    if v != ZERO {
      InsertRow(cols, rows, i, v, m);
      VectorsUpdate(rows, Top(v), v, m);
      assert Top(v) !in Vectors(rows);
    }
  }

  /** Each unit vector reduces to zero, and its tag is a column of the inverse. */
  method BackSubstitute(cols: seq<Word>, rows: Rows) returns (out: seq<Word>)
    requires |cols| == 32 && Progress(cols, rows, 32) && |rows| == 32
    ensures |out| == 32 && forall i :: 0 <= i < 32 ==> Apply(cols, out[i]) == Unit(32, i)
  {
    AllKeys(rows);
    ApplyZeros(cols, 32);
    out := [];
    for i := 0 to 32
      invariant |out| == i && forall j :: 0 <= j < i ==> Apply(cols, out[j]) == Unit(32, j)
    {
      var t, x := ReduceRow(rows, Unit(32, i), ZERO, cols, 32);
      assert t == ZERO by {
        assert t != ZERO ==> Top(t) in Vectors(rows);
      }
      XorLaws(Unit(32, i), ZERO);
      XorLaws(Apply(cols, x), ZERO);
      out := out + [x];
    }
  }

  /** Either the two-sided inverse, or None exactly when the columns are dependent. */
  method Invert(cols: seq<Word>) returns (r: Option<seq<Word>>)
    requires |cols| == 32
    ensures r.None? <==> exists x: Word :: x != ZERO && Apply(cols, x) == ZERO
    ensures r.Some? ==> |r.value| == 32 && Inverses(cols, r.value)
  {
    var rows: Rows := map[];
    assert cols[..0] == [];
    for i := 0 to 32
      invariant Progress(cols, rows, i) && |rows| == i && Independent(cols, i)
    {
      var v, m := ReduceRow(rows, cols[i], Unit(32, i), cols, i);
      ProgressStep(cols, rows, i, v, m);
      if v == ZERO {
        assert m != ZERO;
        return None;
      }
      IndependenceGrows(cols, i);
      rows := rows[Top(v) := (v, m)];
    }
    var out := BackSubstitute(cols, rows);
    InverseFromColumns(cols, out);
    return Some(out);
  }

  /** The dictionary of the solver: dependent columns leave nothing behind. */
  method TaggedBasis(cols: seq<Word>) returns (rows: Rows)
    requires |cols| == 32
    ensures Tagged(cols, rows) && Spans(cols, Vectors(rows))
  {
    rows := map[];
    assert cols[..0] == [];
    for i := 0 to 32
      invariant Progress(cols, rows, i)
    {
      var v, m := ReduceRow(rows, cols[i], Unit(32, i), cols, i);
      ProgressStep(cols, rows, i, v, m);
      if v != ZERO {
        rows := rows[Top(v) := (v, m)];
      }
    }
    assert cols[..32] == cols;
  }

  /** A preimage of t under the matrix, or None exactly when there is none. */
  method Preimage(cols: seq<Word>, t0: Word) returns (r: Option<Word>)
    requires |cols| == 32
    ensures r.Some? ==> Apply(cols, r.value) == t0
    ensures r.None? ==> forall x: Word :: Apply(cols, x) != t0
  {
    var rows := TaggedBasis(cols);
    ResidueDecides(cols, Vectors(rows), t0);
    var t, x := ReduceRow(rows, t0, ZERO, cols, 32);
    if t != ZERO {
      forall y: Word ensures Apply(cols, y) != t0 {
        ImageIsSpanned(cols, y);
        assert cols[..32] == cols;
      }
      return None;
    }
    ApplyZeros(cols, 32);
    XorLaws(t0, ZERO);
    XorLaws(Apply(cols, x), ZERO);
    return Some(x);
  }
}
