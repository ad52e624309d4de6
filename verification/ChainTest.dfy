/** The collision test that decides the chaining mode of the picture cipher.  It is exact:
    it ends with every collision agreeing iff some keyed round explains all the data. */
module ChainTest {
  import opened Words
  import opened Gf2
  import opened Feistel
  import Rotations

  datatype Mode = Ecb | Cbc | Pcbc | CbcPt | Unknown

  /** Offset and size of one archive entry. */
  datatype Entry = Entry(o: nat, s: nat)

  /** One ciphertext block and the text the cipher has to turn it into. */
  datatype Block = Block(c: Pair, d: Pair)

  datatype Counts = Counts(blocks: nat, inputs: nat, hits: nat, agree: nat)

  // ----- the data -----

  function Slice(data: seq<Byte>, e: Entry): seq<Byte> {
    if e.o >= |data| then []
    else if e.o + e.s <= |data| then data[e.o..e.o + e.s]
    else data[e.o..]
  }

  function PairAt(data: seq<Byte>, i: nat): Pair
    requires 8 * i + 8 <= |data|
  {
    (Unpack(data, 8 * i), Unpack(data, 8 * i + 4))
  }

  /** What the plaintext block is chained with before it counts as cipher output. */
  function Chain(mode: Mode, p: Pair, prevCt: Pair, prevPt: Pair): Pair
    requires mode != Unknown
  {
    match mode
    case Ecb => p
    case Cbc => XorPair(p, prevCt)
    case Pcbc => XorPair(XorPair(p, prevCt), prevPt)
    case CbcPt => XorPair(p, prevPt)
  }

  /** Block i of an entry, or None where the script raises an error. */
  function BlockAt(pt: seq<Byte>, ct: seq<Byte>, mode: Mode, i: nat): Option<Block> {
    if 8 * i + 8 > |ct| || 8 * i + 8 > |pt| || mode == Unknown then None
    else
      var none := (ZERO, ZERO);
      var q := if i > 0 then PairAt(ct, i - 1) else none;
      var r := if i > 0 then PairAt(pt, i - 1) else none;
      Some(Block(PairAt(ct, i), Chain(mode, PairAt(pt, i), q, r)))
  }

  /** The first n blocks of an entry. */
  function EntryBlocks(pt: seq<Byte>, ct: seq<Byte>, mode: Mode, n: nat): Option<seq<Block>> {
    if n == 0 then Some([])
    else
      var init := EntryBlocks(pt, ct, mode, n - 1);
      var last := BlockAt(pt, ct, mode, n - 1);
      if init.None? || last.None? then None else Some(init.value + [last.value])
  }

  /** All blocks of the entries, or None where the script raises an error. */
  function AllBlocks(pt: seq<Byte>, ct: seq<Byte>, entries: seq<Entry>, mode: Mode): Option<seq<Block>> {
    if entries == [] then Some([])
    else
      var e := entries[|entries| - 1];
      var init := AllBlocks(pt, ct, entries[..|entries| - 1], mode);
      var last := EntryBlocks(Slice(pt, e), Slice(ct, e), mode, e.s / 8);
      if init.None? || last.None? then None else Some(init.value + last.value)
  }

  /** entries[:limit] with Python's meaning of a negative limit. */
  function Limited(entries: seq<Entry>, limit: int): seq<Entry> {
    if limit >= |entries| then entries
    else if limit >= 0 then entries[..limit]
    else if |entries| + limit > 0 then entries[..|entries| + limit]
    else []
  }

  lemma LimitedIs(entries: seq<Entry>, limit: int)
    ensures var n := if limit >= |entries| then |entries| else if limit >= 0 then limit
                     else if |entries| + limit > 0 then |entries| + limit else 0;
            n <= |entries| && Limited(entries, limit) == entries[..n]
  {
  }

  // ----- what it is to be enciphered under a mode -----

  /** Block i of the text at byte `at` is enciphered, by the block cipher around the keyed round f, to block i of the
      ciphertext there: as it is (ecb), with the ciphertext block before it added (cbc), with that and the text block
      before it (pcbc), or with the text block before it alone (cbc-pt); before the first block everything is zero. */
  ghost predicate EncipheredBlock(f: Word -> Word, mode: Mode, pt: seq<Byte>, ct: seq<Byte>, at: nat, i: nat)
    requires at + 8 * i + 8 <= |pt| && at + 8 * i + 8 <= |ct|
  {
    var p := at + 8 * i;
    var c: Pair := (Unpack(ct, p), Unpack(ct, p + 4));
    var x: Pair := (Unpack(pt, p), Unpack(pt, p + 4));
    var q: Pair := if i == 0 then (ZERO, ZERO) else (Unpack(ct, p - 8), Unpack(ct, p - 4));
    var r: Pair := if i == 0 then (ZERO, ZERO) else (Unpack(pt, p - 8), Unpack(pt, p - 4));
    && (mode == Ecb ==> Deciphers(f, c, x))
    && (mode == Cbc ==> Deciphers(f, c, (Xor(x.0, q.0), Xor(x.1, q.1))))
    && (mode == Pcbc ==> Deciphers(f, c, (Xor(Xor(x.0, q.0), r.0), Xor(Xor(x.1, q.1), r.1))))
    && (mode == CbcPt ==> Deciphers(f, c, (Xor(x.0, r.0), Xor(x.1, r.1))))
  }

  /** The whole blocks of an entry lie in both files, and there are none if the mode is not known. */
  predicate InFiles(mode: Mode, pt: seq<Byte>, ct: seq<Byte>, e: Entry) {
    e.s >= 8 ==> mode != Unknown && e.o + 8 * (e.s / 8) <= |pt| && e.o + 8 * (e.s / 8) <= |ct|
  }

  ghost predicate EncipheredEntry(f: Word -> Word, mode: Mode, pt: seq<Byte>, ct: seq<Byte>, e: Entry)
    requires InFiles(mode, pt, ct, e)
  {
    forall i :: 0 <= i < e.s / 8 ==> EncipheredBlock(f, mode, pt, ct, e.o, i)
  }

  predicate AllInFiles(mode: Mode, pt: seq<Byte>, ct: seq<Byte>, es: seq<Entry>) {
    forall k :: 0 <= k < |es| ==> InFiles(mode, pt, ct, es[k])
  }

  ghost predicate Enciphered(f: Word -> Word, mode: Mode, pt: seq<Byte>, ct: seq<Byte>, es: seq<Entry>)
    requires AllInFiles(mode, pt, ct, es)
  {
    forall k :: 0 <= k < |es| ==> EncipheredEntry(f, mode, pt, ct, es[k])
  }

  /** Whole blocks in all the entries. */
  function WholeBlocks(es: seq<Entry>): nat {
    if es == [] then 0 else WholeBlocks(es[..|es| - 1]) + es[|es| - 1].s / 8
  }

  function PairFrom(data: seq<Byte>, p: nat): Pair
    requires p + 8 <= |data|
  {
    (Unpack(data, p), Unpack(data, p + 4))
  }

  lemma SliceBlock(data: seq<Byte>, e: Entry, i: nat)
    requires i < e.s / 8
    ensures 8 * i + 8 <= |Slice(data, e)| <==> e.o + 8 * i + 8 <= |data|
    ensures e.o + 8 * i + 8 <= |data| ==> PairAt(Slice(data, e), i) == PairFrom(data, e.o + 8 * i)
  {
    assert 8 * i + 8 <= e.s;
  }

  lemma BlockInFiles(pt: seq<Byte>, ct: seq<Byte>, e: Entry, mode: Mode, i: nat)
    requires i < e.s / 8
    ensures var b, p := BlockAt(Slice(pt, e), Slice(ct, e), mode, i), e.o + 8 * i;
            && (b.Some? <==> mode != Unknown && p + 8 <= |pt| && p + 8 <= |ct|)
            && (b.Some? ==>
                  var none := (ZERO, ZERO);
                  var q, r := if i > 0 then PairFrom(ct, p - 8) else none, if i > 0 then PairFrom(pt, p - 8) else none;
                  b.value == Block(PairFrom(ct, p), Chain(mode, PairFrom(pt, p), q, r)))
  {
    hide Slice, PairAt, PairFrom, Chain;
    SliceBlock(pt, e, i);
    SliceBlock(ct, e, i);
    if i > 0 {
      SliceBlock(pt, e, i - 1);
      SliceBlock(ct, e, i - 1);
    }
  }

  lemma ChainedText(f: Word -> Word, mode: Mode, pt: seq<Byte>, ct: seq<Byte>, at: nat, i: nat)
    requires at + 8 * i + 8 <= |pt| && at + 8 * i + 8 <= |ct| && mode != Unknown
    ensures var p, none := at + 8 * i, (ZERO, ZERO);
            var q, r := if i > 0 then PairFrom(ct, p - 8) else none, if i > 0 then PairFrom(pt, p - 8) else none;
            EncipheredBlock(f, mode, pt, ct, at, i) <==> Deciphers(f, PairFrom(ct, p), Chain(mode, PairFrom(pt, p), q, r))
  {
    hide Unpack, Deciphers, Xor;
  }

  lemma ChainedBlock(f: Word -> Word, mode: Mode, pt: seq<Byte>, ct: seq<Byte>, at: nat, i: nat, b: Block)
    requires at + 8 * i + 8 <= |pt| && at + 8 * i + 8 <= |ct| && mode != Unknown
    requires var p, none := at + 8 * i, (ZERO, ZERO);
             var q, r := if i > 0 then PairFrom(ct, p - 8) else none, if i > 0 then PairFrom(pt, p - 8) else none;
             b == Block(PairFrom(ct, p), Chain(mode, PairFrom(pt, p), q, r))
    ensures DecodePair(f, b.c) == b.d <==> EncipheredBlock(f, mode, pt, ct, at, i)
  {
    hide PairFrom, DecodePair, Deciphers, EncipheredBlock, Chain;
    ChainedText(f, mode, pt, ct, at, i);
    BlockIsNetwork(f, b.c, b.d);
  }

  lemma BlockIsEnciphered(pt: seq<Byte>, ct: seq<Byte>, e: Entry, mode: Mode, i: nat)
    requires i < e.s / 8
    ensures var b := BlockAt(Slice(pt, e), Slice(ct, e), mode, i);
            && (b.Some? <==> mode != Unknown && e.o + 8 * i + 8 <= |pt| && e.o + 8 * i + 8 <= |ct|)
            && (b.Some? ==> forall f: Word -> Word ::
                               DecodePair(f, b.value.c) == b.value.d <==> EncipheredBlock(f, mode, pt, ct, e.o, i))
  {
    hide Slice, BlockAt, PairFrom, DecodePair, Deciphers, EncipheredBlock, Chain;
    BlockInFiles(pt, ct, e, mode, i);
    var b := BlockAt(Slice(pt, e), Slice(ct, e), mode, i);
    if b.Some? {
      forall f: Word -> Word
        ensures DecodePair(f, b.value.c) == b.value.d <==> EncipheredBlock(f, mode, pt, ct, e.o, i)
      {
        ChainedBlock(f, mode, pt, ct, e.o, i, b.value);
      }
    }
  }

  lemma {:induction false} PrefixEnciphered(pt: seq<Byte>, ct: seq<Byte>, e: Entry, mode: Mode, n: nat)
    requires n <= e.s / 8
    ensures var bs := EntryBlocks(Slice(pt, e), Slice(ct, e), mode, n);
            && (bs.Some? <==> n == 0 || (mode != Unknown && e.o + 8 * n <= |pt| && e.o + 8 * n <= |ct|))
            && (bs.Some? ==> |bs.value| == n)
            && (bs.Some? ==> forall f: Word -> Word ::
                                Explains(f, bs.value) <==>
                                forall i :: 0 <= i < n ==> EncipheredBlock(f, mode, pt, ct, e.o, i))
  {
    hide Slice, BlockAt, EncipheredBlock, DecodePair, Explains;
    if n == 0 {
      NothingExplained();
    } else {
      PrefixEnciphered(pt, ct, e, mode, n - 1);
      BlockIsEnciphered(pt, ct, e, mode, n - 1);
      var bs := EntryBlocks(Slice(pt, e), Slice(ct, e), mode, n);
      if bs.Some? {
        var init, last := bs.value[..n - 1], bs.value[n - 1];
        assert bs.value == init + [last];
        forall f: Word -> Word
          ensures Explains(f, bs.value) <==>
                  forall i :: 0 <= i < n ==> EncipheredBlock(f, mode, pt, ct, e.o, i)
        {
          ExplainsAppend(f, init, last);
        }
      }
    }
  }

  lemma NothingExplained()
    ensures forall f: Word -> Word :: Explains(f, [])
  {
  }

  lemma ExplainsSum(f: Word -> Word, a: seq<Block>, b: seq<Block>)
    ensures Explains(f, a + b) <==> Explains(f, a) && Explains(f, b)
  {
    hide DecodePair;
    assert forall k :: 0 <= k < |a| ==> (a + b)[k] == a[k];
    assert forall k :: 0 <= k < |b| ==> (a + b)[|a| + k] == b[k];
  }

  /** The blocks the test looks at are there exactly if they lie in the files, and a keyed round turns all their
      ciphertexts into their texts exactly if it enciphered them under the mode. */
  lemma {:induction false} BlocksAreEnciphered(pt: seq<Byte>, ct: seq<Byte>, es: seq<Entry>, mode: Mode)
    ensures var bs := AllBlocks(pt, ct, es, mode);
            && (bs.Some? <==> AllInFiles(mode, pt, ct, es))
            && (bs.Some? ==> |bs.value| == WholeBlocks(es))
            && (bs.Some? ==> forall f: Word -> Word :: Explains(f, bs.value) <==> Enciphered(f, mode, pt, ct, es))
    decreases |es|
  {
    hide Slice, EntryBlocks, EncipheredBlock, Explains;
    if es == [] {
      NothingExplained();
    } else {
      var n := |es| - 1;
      var e := es[n];
      BlocksAreEnciphered(pt, ct, es[..n], mode);
      PrefixEnciphered(pt, ct, e, mode, e.s / 8);
      assert AllInFiles(mode, pt, ct, es) <==> AllInFiles(mode, pt, ct, es[..n]) && InFiles(mode, pt, ct, e);
      var bs := AllBlocks(pt, ct, es, mode);
      if bs.Some? {
        var a, b := AllBlocks(pt, ct, es[..n], mode).value, EntryBlocks(Slice(pt, e), Slice(ct, e), mode, e.s / 8).value;
        forall f: Word -> Word ensures Explains(f, bs.value) <==> Enciphered(f, mode, pt, ct, es) {
          ExplainsSum(f, a, b);
          EncipheredSplits(f, mode, pt, ct, es);
        }
      }
    }
  }

  lemma EncipheredSplits(f: Word -> Word, mode: Mode, pt: seq<Byte>, ct: seq<Byte>, es: seq<Entry>)
    requires es != [] && AllInFiles(mode, pt, ct, es)
    ensures Enciphered(f, mode, pt, ct, es) <==>
            Enciphered(f, mode, pt, ct, es[..|es| - 1]) && EncipheredEntry(f, mode, pt, ct, es[|es| - 1])
  {
    hide EncipheredEntry;
    assert forall k :: 0 <= k < |es| ==> k < |es| - 1 || es[k] == es[|es| - 1];
  }

  // ----- what makes a keyed round right -----

  /** The keyed round f turns every ciphertext block into its text. */
  ghost predicate Explains(f: Word -> Word, blocks: seq<Block>) {
    forall k :: 0 <= k < |blocks| ==> DecodePair(f, blocks[k].c) == blocks[k].d
  }

  type Observation = (Word, Word)

  ghost predicate Fits(f: Word -> Word, obs: seq<Observation>) {
    forall k :: 0 <= k < |obs| ==> f(obs[k].0) == obs[k].1
  }

  /** Entry i of one of the four matrices: how one half of the inverse stage's output
      reacts to bit i of one half of its input. */
  function Column(left: bool, second: bool, i: nat): Word
    requires i < 32
  {
    var k := Inv((ZERO, ZERO), CB, ROT_B);
    var p := Inv(if left then (Unit(32, i), ZERO) else (ZERO, Unit(32, i)), CB, ROT_B);
    if second then Xor(p.1, k.1) else Xor(p.0, k.0)
  }

  ghost predicate AreColumns(cols: seq<Word>, left: bool, second: bool) {
    |cols| == 32 && forall i :: 0 <= i < 32 ==> cols[i] == Column(left, second, i)
  }

  /** What the script computes at start-up. */
  datatype Tables = Tables(m0: seq<Word>, m1: seq<Word>, n0: seq<Word>, n1: seq<Word>, m1inv: seq<Word>,
                           k0: Word, k1: Word)
  {
    ghost predicate Valid() {
      && AreColumns(m0, true, true) && AreColumns(m1, false, true)
      && AreColumns(n0, true, false) && AreColumns(n1, false, false)
      && (k0, k1) == Inv((ZERO, ZERO), CB, ROT_B)
      && |m1inv| == 32 && Inverses(m1, m1inv)
    }
  }

  /** The two observations of one block: A0 off the ciphertext side, C0 off the text side. */
  function Observe(b: Block, t: Tables): (Observation, Observation)
    requires t.Valid()
  {
    var a := Fwd(b.c, CA, ROT_A);
    var c0 := b.d.1;
    var c1 := Apply(t.m1inv, Xor(Xor(a.0, Apply(t.m0, c0)), t.k1));
    var b0 := Xor(Xor(Apply(t.n0, c0), Apply(t.n1, c1)), t.k0);
    ((c0, Xor(b.d.0, c1)), (a.0, Xor(b0, a.1)))
  }

  // ----- the precomputed matrices are the affine inverse stage -----

  function Lin0(x: Word): Pair {
    Inv((x, ZERO), ZERO, ROT_B)
  }

  function Lin1(x: Word): Pair {
    Inv((ZERO, x), ZERO, ROT_B)
  }

  lemma StageSplits(c0: Word, c1: Word)
    ensures Inv((c0, c1), CB, ROT_B) == XorPair(XorPair(Lin0(c0), Lin1(c1)), Inv((ZERO, ZERO), CB, ROT_B))
  {
    XorLaws(c0, ZERO);
    XorLaws(c1, ZERO);
    InvAffine((ZERO, ZERO), (c0, c1), CB, ROT_B);
    InvAffine((c0, ZERO), (ZERO, c1), ZERO, ROT_B);
    var k, l := Inv((ZERO, ZERO), CB, ROT_B), Inv((c0, c1), ZERO, ROT_B);
    XorLaws(k.0, l.0);
    XorLaws(k.1, l.1);
  }

  lemma LinearParts(x: Word, y: Word)
    ensures Lin0(Xor(x, y)) == XorPair(Lin0(x), Lin0(y)) && Lin1(Xor(x, y)) == XorPair(Lin1(x), Lin1(y))
    ensures Lin0(ZERO) == (ZERO, ZERO) == Lin1(ZERO)
  {
    XorLaws(ZERO, ZERO);
    InvAffine((x, ZERO), (y, ZERO), ZERO, ROT_B);
    InvAffine((ZERO, x), (ZERO, y), ZERO, ROT_B);
    InvAffine((ZERO, ZERO), (ZERO, ZERO), ZERO, ROT_B);
    XorLaws(Lin0(ZERO).0, Lin0(ZERO).0);
    XorLaws(Lin0(ZERO).1, Lin0(ZERO).1);
  }

  lemma UnitColumns(i: nat)
    requires i < 32
    ensures (Column(true, false, i), Column(true, true, i)) == Lin0(Unit(32, i))
    ensures (Column(false, false, i), Column(false, true, i)) == Lin1(Unit(32, i))
  {
    var u: Word := Unit(32, i);
    var k := Inv((ZERO, ZERO), CB, ROT_B);
    StageSplits(u, ZERO);
    StageSplits(ZERO, u);
    LinearParts(u, ZERO);
    PairCancel(Lin0(u), k);
    PairCancel(Lin1(u), k);
  }

  lemma PairCancel(p: Pair, k: Pair)
    ensures XorPair(XorPair(p, (ZERO, ZERO)), k) == XorPair(p, k) == XorPair(XorPair((ZERO, ZERO), p), k)
    ensures XorPair(XorPair(p, k), k) == p
  {
    XorLaws(p.0, k.0);
    XorLaws(p.1, k.1);
    XorLaws(p.0, ZERO);
    XorLaws(p.1, ZERO);
  }

  lemma {:induction false} TablesArePrefixes(t: Tables, x: Word, k: nat)
    requires t.Valid() && k <= 32
    ensures (Apply(t.n0, x[..k]), Apply(t.m0, x[..k])) == Lin0(Prefix(x, k))
    ensures (Apply(t.n1, x[..k]), Apply(t.m1, x[..k])) == Lin1(Prefix(x, k))
  {
    LinearParts(ZERO, ZERO);
    if k == 0 {
      PrefixStep(x, 0);
    } else {
      TablesArePrefixes(t, x, k - 1);
      PrefixStep(x, k - 1);
      assert x[..k][..k - 1] == x[..k - 1];
      UnitColumns(k - 1);
      LinearParts(Prefix(x, k - 1), if x[k - 1] then Unit(32, k - 1) else ZERO);
    }
  }

  /** Applying the tables is applying the linear parts of the stage. */
  lemma TablesAreStage(t: Tables, c0: Word, c1: Word)
    requires t.Valid()
    ensures Inv((c0, c1), CB, ROT_B) ==
            (Xor(Xor(Apply(t.n0, c0), Apply(t.n1, c1)), t.k0), Xor(Xor(Apply(t.m0, c0), Apply(t.m1, c1)), t.k1))
  {
    StageSplits(c0, c1);
    TablesArePrefixes(t, c0, 32);
    TablesArePrefixes(t, c1, 32);
    PrefixStep(c0, 0);
    PrefixStep(c1, 0);
  }

  /** The matrix of the right half is invertible, so the start-up inversion cannot raise. */
  lemma NotSingular(m1: seq<Word>)
    requires AreColumns(m1, false, true)
    ensures forall x: Word :: Apply(m1, x) == ZERO ==> x == ZERO
  {
    forall i | 0 <= i < 32 ensures m1[i] == Linear(Unit(32, i), ROT_B) {
      UnitColumns(i);
    }
    forall x: Word | Apply(m1, x) == ZERO ensures x == ZERO {
      Rotations.StageMatrixIndependent(m1, x);
    }
  }

  method StageColumns(left: bool, second: bool) returns (cols: seq<Word>)
    ensures AreColumns(cols, left, second)
  {
    hide Column, Inv;
    cols := [];
    var k0, k1 := Inverse(ZERO, ZERO, CB, ROT_B);
    for i := 0 to 32
      invariant |cols| == i && forall j :: 0 <= j < i ==> cols[j] == Column(left, second, j)
    {
      var x := StageColumn(left, second, i, k0, k1);
      cols := cols + [x];
    }
  }

  method StageColumn(left: bool, second: bool, i: nat, k0: Word, k1: Word) returns (x: Word)
    requires i < 32 && (k0, k1) == Inv((ZERO, ZERO), CB, ROT_B)
    ensures x == Column(left, second, i)
  {
    hide Inv;
    var u: Word := Unit(32, i);
    var x0, x1 := Inverse(if left then u else ZERO, if left then ZERO else u, CB, ROT_B);
    x := if second then Xor(x1, k1) else Xor(x0, k0);
  }

  method BuildTables() returns (t: Tables)
    ensures t.Valid()
  {
    var k0, k1 := Inverse(ZERO, ZERO, CB, ROT_B);
    var m0 := StageColumns(true, true);
    var m1 := StageColumns(false, true);
    var n0 := StageColumns(true, false);
    var n1 := StageColumns(false, false);
    var inverse := Invert(m1);
    NotSingular(m1);
    t := Tables(m0, m1, n0, n1, inverse.value, k0, k1);
  }

  // ----- a block is explained iff both its observations fit -----

  /** The word the script computes for C1 is the only one that makes B1 equal A0. */
  lemma SolvedHalf(t: Tables, c0: Word, c1: Word, a0: Word)
    requires t.Valid()
    ensures Inv((c0, c1), CB, ROT_B).1 == a0 <==> c1 == Apply(t.m1inv, Xor(Xor(a0, Apply(t.m0, c0)), t.k1))
  {
    TablesAreStage(t, c0, c1);
    var m := Apply(t.m0, c0);
    var r := Xor(Xor(a0, m), t.k1);
    MoveAcross(m, Apply(t.m1, c1), t.k1, a0);
    assert Apply(t.m1, Apply(t.m1inv, r)) == r;
    assert Apply(t.m1inv, Apply(t.m1, c1)) == c1;
  }

  lemma MoveAcross(m: Word, y: Word, k: Word, a: Word)
    ensures Xor(Xor(m, y), k) == a <==> y == Xor(Xor(a, m), k)
  {
  }

  lemma BlockExplained(f: Word -> Word, t: Tables, b: Block)
    requires t.Valid()
    ensures var o := Observe(b, t);
            DecodePair(f, b.c) == b.d <==> f(o.0.0) == o.0.1 && f(o.1.0) == o.1.1
  {
    var a := Fwd(b.c, CA, ROT_A);
    var c0 := b.d.1;
    var c1 := Apply(t.m1inv, Xor(Xor(a.0, Apply(t.m0, c0)), t.k1));
    var e := Fwd((Xor(f(a.0), a.1), a.0), CB, ROT_B);
    SolvedHalf(t, c0, c1, a.0);
    SolvedHalf(t, e.0, e.1, a.0);
    TablesAreStage(t, c0, c1);
    StageUndone((Xor(f(a.0), a.1), a.0), CB, ROT_B);
    StageUndone((c0, c1), CB, ROT_B);
    var b0 := Inv((c0, c1), CB, ROT_B).0;
    XorLaws(f(a.0), a.1);
    XorLaws(b0, a.1);
    XorLaws(f(c0), c1);
    XorLaws(b.d.0, c1);
    if f(a.0) == Xor(b0, a.1) {
      assert e == (c0, c1);
    }
    if DecodePair(f, b.c) == b.d {
      assert e == (c0, c1);
      assert b0 == Xor(f(a.0), a.1);
    }
  }

  // ----- the run over all blocks -----

  function Observations(bs: seq<Block>, t: Tables): (obs: seq<Observation>)
    requires t.Valid()
    ensures |obs| == 2 * |bs|
  {
    if bs == [] then []
    else
      var o := Observe(bs[|bs| - 1], t);
      Observations(bs[..|bs| - 1], t) + [o.0, o.1]
  }

  lemma FitsAppend(f: Word -> Word, obs: seq<Observation>, o: Observation, q: Observation)
    ensures Fits(f, obs + [o, q]) <==> Fits(f, obs) && f(o.0) == o.1 && f(q.0) == q.1
  {
    var all := obs + [o, q];
    assert all[|obs|] == o && all[|obs| + 1] == q;
    assert forall k :: 0 <= k < |obs| ==> all[k] == obs[k];
  }

  lemma ExplainsAppend(f: Word -> Word, bs: seq<Block>, b: Block)
    ensures Explains(f, bs + [b]) <==> Explains(f, bs) && DecodePair(f, b.c) == b.d
  {
    var all := bs + [b];
    assert all[|bs|] == b && forall k :: 0 <= k < |bs| ==> all[k] == bs[k];
  }

  lemma {:induction false} ExplainsIsFits(f: Word -> Word, bs: seq<Block>, t: Tables)
    requires t.Valid()
    ensures Explains(f, bs) <==> Fits(f, Observations(bs, t))
  {
    hide *;
    if bs == [] {
      NoBlocks(f, t);
    } else {
      ExplainsIsFits(f, bs[..|bs| - 1], t);
      OneMoreBlock(f, bs[..|bs| - 1], bs[|bs| - 1], t);
      assert bs == bs[..|bs| - 1] + [bs[|bs| - 1]];
    }
  }

  lemma NoBlocks(f: Word -> Word, t: Tables)
    requires t.Valid()
    ensures Explains(f, []) && Fits(f, Observations([], t)) && Observations([], t) == []
  {
  }

  lemma OneMoreBlock(f: Word -> Word, bs: seq<Block>, b: Block, t: Tables)
    requires t.Valid() && (Explains(f, bs) <==> Fits(f, Observations(bs, t)))
    ensures Explains(f, bs + [b]) <==> Fits(f, Observations(bs + [b], t))
  {
    var o := Observe(b, t);
    BlockExplained(f, t, b);
    ExplainsAppend(f, bs, b);
    ObservationsAppend(bs, b, t);
    FitsAppend(f, Observations(bs, t), o.0, o.1);
    assert Observations(bs + [b], t) == Observations(bs, t) + [o.0, o.1];
  }

  /** The first value observed for an input. */
  function FirstAnswer(obs: seq<Observation>, a: Word): Option<Word> {
    if obs == [] then None else if obs[0].0 == a then Some(obs[0].1) else FirstAnswer(obs[1..], a)
  }

  lemma {:induction false} FirstAnswerAppend(obs: seq<Observation>, o: Observation, a: Word)
    ensures FirstAnswer(obs + [o], a) ==
            if FirstAnswer(obs, a).Some? then FirstAnswer(obs, a) else if o.0 == a then Some(o.1) else None
  {
    if obs == [] {
      assert (obs + [o])[1..] == [];
    } else {
      assert (obs + [o])[0] == obs[0] && (obs + [o])[1..] == obs[1..] + [o];
      FirstAnswerAppend(obs[1..], o, a);
    }
  }

  /** How many observations repeat the first value observed earlier for their input. */
  function Repeats(obs: seq<Observation>): nat {
    if obs == [] then 0
    else
      var init, o := obs[..|obs| - 1], obs[|obs| - 1];
      Repeats(init) + if FirstAnswer(init, o.0) == Some(o.1) then 1 else 0
  }

  /** The first value seen for each input, and how often later observations agreed with it. */
  ghost predicate Recorded(seen: map<Word, Word>, hits: nat, agree: nat, obs: seq<Observation>) {
    && Tallied(seen, hits, agree, obs)
    && (forall a :: FirstAnswer(obs, a) == if a in seen then Some(seen[a]) else None)
    && agree == Repeats(obs)
  }

  ghost predicate Tallied(seen: map<Word, Word>, hits: nat, agree: nat, obs: seq<Observation>) {
    && (forall k :: 0 <= k < |obs| ==> obs[k].0 in seen)
    && (forall a :: a in seen ==> (a, seen[a]) in obs)
    && hits + |seen| == |obs| && agree <= hits
    && (agree == hits <==> forall k :: 0 <= k < |obs| ==> seen[obs[k].0] == obs[k].1)
  }

  lemma TalliedNext(seen: map<Word, Word>, hits: nat, agree: nat, o: Observation, obs: seq<Observation>)
    requires Tallied(seen, hits, agree, obs)
    ensures o.0 in seen ==> Tallied(seen, hits + 1, agree + if seen[o.0] == o.1 then 1 else 0, obs + [o])
    ensures o.0 !in seen ==> Tallied(seen[o.0 := o.1], hits, agree, obs + [o])
  {
    var all := obs + [o];
    assert all[|obs|] == o && forall k :: 0 <= k < |obs| ==> all[k] == obs[k];
    if o.0 !in seen {
      assert forall k :: 0 <= k < |obs| ==> obs[k].0 in seen && seen[o.0 := o.1][obs[k].0] == seen[obs[k].0];
    }
  }

  lemma RepeatsNext(o: Observation, obs: seq<Observation>)
    ensures Repeats(obs + [o]) == Repeats(obs) + if FirstAnswer(obs, o.0) == Some(o.1) then 1 else 0
    ensures forall a :: FirstAnswer(obs + [o], a) ==
                        if FirstAnswer(obs, a).Some? then FirstAnswer(obs, a) else if o.0 == a then Some(o.1) else None
  {
    hide FirstAnswer;
    assert (obs + [o])[..|obs|] == obs;
    forall a
      ensures FirstAnswer(obs + [o], a) ==
              if FirstAnswer(obs, a).Some? then FirstAnswer(obs, a) else if o.0 == a then Some(o.1) else None
    {
      FirstAnswerAppend(obs, o, a);
    }
  }

  method Note(seen: map<Word, Word>, hits: nat, agree: nat, o: Observation, ghost obs: seq<Observation>)
    returns (seen': map<Word, Word>, hits': nat, agree': nat)
    requires Recorded(seen, hits, agree, obs)
    ensures Recorded(seen', hits', agree', obs + [o])
  {
    hide FirstAnswer, Repeats, Tallied;
    TalliedNext(seen, hits, agree, o, obs);
    RepeatsNext(o, obs);
    seen', hits', agree' := seen, hits, agree;
    if o.0 in seen {
      hits' := hits + 1;
      agree' := agree + if seen[o.0] == o.1 then 1 else 0;
    } else {
      seen' := seen[o.0 := o.1];
    }
  }

  /** No disagreement was counted iff some function fits every observation. */
  lemma AgreementIsFit(seen: map<Word, Word>, hits: nat, agree: nat, obs: seq<Observation>)
    requires Tallied(seen, hits, agree, obs)
    ensures agree == hits <==> exists f: Word -> Word :: Fits(f, obs)
  {
    if agree == hits {
      var f: Word -> Word := a => if a in seen then seen[a] else ZERO;
      assert Fits(f, obs);
    }
    if f: Word -> Word :| Fits(f, obs) {
      forall k | 0 <= k < |obs| ensures seen[obs[k].0] == obs[k].1 {
        var a := obs[k].0;
        var j :| 0 <= j < |obs| && obs[j] == (a, seen[a]);
      }
    }
  }

  lemma NoBlocksRecorded(t: Tables)
    requires t.Valid()
    ensures Recorded(map[], 0, 0, Observations([], t))
  {
  }

  lemma Verdict(seen: map<Word, Word>, hits: nat, agree: nat, bs: seq<Block>, t: Tables)
    requires t.Valid() && Recorded(seen, hits, agree, Observations(bs, t))
    ensures agree == hits <==> exists f: Word -> Word :: Explains(f, bs)
    ensures hits + |seen| == 2 * |bs| && agree == Repeats(Observations(bs, t))
  {
    AgreementIsFit(seen, hits, agree, Observations(bs, t));
    forall f: Word -> Word ensures Explains(f, bs) <==> Fits(f, Observations(bs, t)) {
      ExplainsIsFits(f, bs, t);
    }
  }

  lemma ObservationsAppend(bs: seq<Block>, b: Block, t: Tables)
    requires t.Valid()
    ensures var o := Observe(b, t);
            Observations(bs + [b], t) == Observations(bs, t) + [o.0] + [o.1]
  {
  }

  method RunEntry(pt: seq<Byte>, ct: seq<Byte>, mode: Mode, n: nat, t: Tables, seen0: map<Word, Word>, hits0: nat,
                  agree0: nat, ghost done: seq<Block>)
    returns (ok: bool, seen: map<Word, Word>, hits: nat, agree: nat, ghost all: seq<Block>)
    requires t.Valid() && Recorded(seen0, hits0, agree0, Observations(done, t))
    ensures ok <==> EntryBlocks(pt, ct, mode, n).Some?
    ensures ok ==> all == done + EntryBlocks(pt, ct, mode, n).value && Recorded(seen, hits, agree, Observations(all, t))
  {
    hide Observe, Observations, Recorded, BlockAt, Tables.Valid;
    ok, seen, hits, agree, all := true, seen0, hits0, agree0, done;
    for i := 0 to n
      invariant EntryBlocks(pt, ct, mode, i).Some?
      invariant all == done + EntryBlocks(pt, ct, mode, i).value
      invariant Recorded(seen, hits, agree, Observations(all, t))
    {
      var b := BlockAt(pt, ct, mode, i);
      if b.None? {
        FailedPrefix(pt, ct, mode, i, n);
        ok := false;
        return;
      }
      seen, hits, agree := NoteBlock(seen, hits, agree, b.value, t, all);
      all := all + [b.value];
    }
  }

  method NoteBlock(seen: map<Word, Word>, hits: nat, agree: nat, b: Block, t: Tables, ghost done: seq<Block>)
    returns (seen': map<Word, Word>, hits': nat, agree': nat)
    requires t.Valid() && Recorded(seen, hits, agree, Observations(done, t))
    ensures Recorded(seen', hits', agree', Observations(done + [b], t))
  {
    var x, y := ObserveBlock(b, t);
    ObservationsAppend(done, b, t);
    ghost var obs := Observations(done, t);
    seen', hits', agree' := Note(seen, hits, agree, x, obs);
    seen', hits', agree' := Note(seen', hits', agree', y, obs + [x]);
  }

  method ObserveBlock(b: Block, t: Tables) returns (x: Observation, y: Observation)
    requires t.Valid()
    ensures (x, y) == Observe(b, t)
  {
    var A0, A1 := Forward(b.c.0, b.c.1, CA, ROT_A);
    var C0 := b.d.1;
    var m0c0 := ApplyMat(t.m0, C0);
    var C1 := ApplyMat(t.m1inv, Xor(Xor(A0, m0c0), t.k1));
    var n0c0 := ApplyMat(t.n0, C0);
    var n1c1 := ApplyMat(t.n1, C1);
    var B0 := Xor(Xor(n0c0, n1c1), t.k0);
    x, y := (C0, Xor(b.d.0, C1)), (A0, Xor(B0, A1));
  }

  lemma FailedPrefix(pt: seq<Byte>, ct: seq<Byte>, mode: Mode, i: nat, n: nat)
    requires i < n && BlockAt(pt, ct, mode, i).None?
    ensures EntryBlocks(pt, ct, mode, n).None?
  {
  }

  lemma {:induction false} FailedEntry(pt: seq<Byte>, ct: seq<Byte>, entries: seq<Entry>, mode: Mode, i: nat)
    requires i < |entries|
    requires EntryBlocks(Slice(pt, entries[i]), Slice(ct, entries[i]), mode, entries[i].s / 8).None?
    ensures AllBlocks(pt, ct, entries, mode).None?
    decreases |entries|
  {
    if i + 1 == |entries| {
    } else {
      FailedEntry(pt, ct, entries[..|entries| - 1], mode, i);
    }
  }

  /** Every collision agrees iff some keyed round enciphered all the blocks under the given mode.
      In particular the right mode is never refuted, whatever the round is. */
  method Run(ptAll: seq<Byte>, ctAll: seq<Byte>, entries: seq<Entry>, mode: Mode, limit: int, t: Tables)
    returns (r: Option<Counts>)
    requires t.Valid()
    ensures r.None? <==> AllBlocks(ptAll, ctAll, Limited(entries, limit), mode).None?
    ensures r.Some? ==>
              var bs := AllBlocks(ptAll, ctAll, Limited(entries, limit), mode).value;
              && r.value.blocks == |bs|
              && r.value.hits + r.value.inputs == 2 * |bs|
              && (r.value.agree == r.value.hits <==> exists f: Word -> Word :: Explains(f, bs))
              && r.value.agree == Repeats(Observations(bs, t))
    ensures var n := if limit >= |entries| then |entries| else if limit >= 0 then limit
                     else if |entries| + limit > 0 then |entries| + limit else 0;
            var es := entries[..n];
            && (r.None? <==> !AllInFiles(mode, ptAll, ctAll, es))
            && (r.Some? ==>
                  && r.value.blocks == WholeBlocks(es)
                  && (r.value.agree == r.value.hits <==>
                      exists f: Word -> Word :: Enciphered(f, mode, ptAll, ctAll, es)))
  {
    var es := Limited(entries, limit);
    LimitedIs(entries, limit);
    BlocksAreEnciphered(ptAll, ctAll, es, mode);
    hide Observe, EntryBlocks, Limited, Observations, Recorded, Slice, Tables.Valid, Explains, Enciphered, AllInFiles;
    hide Repeats;
    NoBlocksRecorded(t);
    var seen: map<Word, Word>, hits: nat, agree: nat, blocks: nat := map[], 0, 0, 0;
    ghost var all: seq<Block> := [];
    for i := 0 to |es|
      invariant AllBlocks(ptAll, ctAll, es[..i], mode) == Some(all)
      invariant Recorded(seen, hits, agree, Observations(all, t)) && blocks == |all|
    {
      var pt, ct := Slice(ptAll, es[i]), Slice(ctAll, es[i]);
      var n := es[i].s / 8;
      assert es[..i + 1][..i] == es[..i];
      var ok;
      ok, seen, hits, agree, all := RunEntry(pt, ct, mode, n, t, seen, hits, agree, all);
      if !ok {
        FailedEntry(ptAll, ctAll, es, mode, i);
        return None;
      }
      BlockCount(pt, ct, mode, n);
      blocks := blocks + n;
    }
    assert es[..|es|] == es;
    Verdict(seen, hits, agree, all, t);
    return Some(Counts(blocks, |seen|, hits, agree));
  }

  lemma {:induction false} BlockCount(pt: seq<Byte>, ct: seq<Byte>, mode: Mode, n: nat)
    requires EntryBlocks(pt, ct, mode, n).Some?
    ensures |EntryBlocks(pt, ct, mode, n).value| == n
  {
    if n == 0 {
    } else {
      BlockCount(pt, ct, mode, n - 1);
    }
  }
}
