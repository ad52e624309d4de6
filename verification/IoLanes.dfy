/** How 8-, 16- and 32-bit port accesses are split over handlers of mixed width: which
    registration is called, through which callback, for which byte lanes. */
module IoLanes {
  import opened Words

  /** Callback identities, 0 standing for a null pointer, and the private pointer. */
  datatype Registration = Registration(inb: nat, inw: nat, inl: nat, outb: nat, outw: nat, outl: nat, priv: nat)

  datatype Direction = In | Out

  /** The callback of a given width in bytes. */
  function Callback(r: Registration, d: Direction, width: int): nat {
    if width == 4 then (if d == In then r.inl else r.outl)
    else if width == 2 then (if d == In then r.inw else r.outw)
    else if width == 1 then (if d == In then r.inb else r.outb)
    else 0
  }

  /** Width of the widest callback no wider than the access, or 0. */
  function Widest(r: Registration, d: Direction, size: int): int {
    if size >= 4 && Callback(r, d, 4) != 0 then 4
    else if size >= 2 && Callback(r, d, 2) != 0 then 2
    else if size >= 1 && Callback(r, d, 1) != 0 then 1
    else 0
  }

  /** Entry k of the chain at port + off is called through its callback of the given width. */
  datatype Call = Call(off: int, k: int, width: int)

  /** The calls one pass makes over the first n entries of a chain. */
  function ChainCalls(chain: seq<Registration>, d: Direction, size: int, width: int, off: int, n: nat): seq<Call>
    requires n <= |chain|
  {
    if n == 0 then []
    else
      ChainCalls(chain, d, size, width, off, n - 1)
      + if Widest(chain[n - 1], d, size) == width then [Call(off, n - 1, width)] else []
  }

  function Pass(cs: seq<seq<Registration>>, d: Direction, size: int, width: int, off: int): seq<Call>
    requires 0 <= off < |cs|
  {
    ChainCalls(cs[off], d, size, width, off, |cs[off]|)
  }

  /** All calls of an access, widest callbacks first; cs holds the chains at port, port + 1, ... */
  function AccessCalls(cs: seq<seq<Registration>>, d: Direction): seq<Call>
    requires |cs| in {1, 2, 4}
  {
    var size := |cs|;
    if size == 4 then
      Pass(cs, d, 4, 4, 0) + (Pass(cs, d, 4, 2, 0) + Pass(cs, d, 4, 2, 2))
      + (Pass(cs, d, 4, 1, 0) + Pass(cs, d, 4, 1, 1) + Pass(cs, d, 4, 1, 2) + Pass(cs, d, 4, 1, 3))
    else if size == 2 then
      Pass(cs, d, 2, 2, 0) + (Pass(cs, d, 2, 1, 0) + Pass(cs, d, 2, 1, 1))
    else Pass(cs, d, 1, 1, 0)
  }

  // ----- which calls are made -----

  ghost predicate Wellformed(cs: seq<seq<Registration>>, d: Direction, c: Call) {
    && 0 <= c.off < |cs| && 0 <= c.k < |cs[c.off]|
    && c.width == Widest(cs[c.off][c.k], d, |cs|) && c.width > 0 && c.off % c.width == 0 && c.off + c.width <= |cs|
  }

  lemma {:induction false} ChainCallsSpec(chain: seq<Registration>, d: Direction, size: int, width: int, off: int, n: nat,
                                         c: Call)
    requires n <= |chain|
    ensures c in ChainCalls(chain, d, size, width, off, n) <==>
            c.off == off && c.width == width && 0 <= c.k < n && Widest(chain[c.k], d, size) == width
  {
    hide Widest;
    if n == 0 {
    } else {
      ChainCallsSpec(chain, d, size, width, off, n - 1, c);
    }
  }

  /** A call is made iff the entry's widest callback divides the access at that offset. */
  lemma CallsSpec(cs: seq<seq<Registration>>, d: Direction, c: Call)
    requires |cs| in {1, 2, 4}
    ensures c in AccessCalls(cs, d) <==> Wellformed(cs, d, c)
  {
    hide ChainCalls;
    forall width, off | 0 <= off < |cs| && width in {1, 2, 4}
      ensures c in Pass(cs, d, |cs|, width, off) <==>
              c.off == off && c.width == width && 0 <= c.k < |cs[off]| && Widest(cs[off][c.k], d, |cs|) == width
    {
      ChainCallsSpec(cs[off], d, |cs|, width, off, |cs[off]|, c);
    }
  }

  ghost predicate Distinct(calls: seq<Call>) {
    forall i, j :: 0 <= i < j < |calls| ==> calls[i].off != calls[j].off || calls[i].k != calls[j].k
  }

  ghost predicate Apart(a: seq<Call>, b: seq<Call>) {
    forall i, j :: 0 <= i < |a| && 0 <= j < |b| ==> a[i].off != b[j].off || a[i].k != b[j].k
  }

  lemma DistinctAppend(a: seq<Call>, b: seq<Call>)
    requires Distinct(a) && Distinct(b) && Apart(a, b)
    ensures Distinct(a + b)
  {
  }

  lemma NoneDistinct()
    ensures Distinct([])
  {
  }

  lemma {:induction false} ChainCallsDistinct(chain: seq<Registration>, d: Direction, size: int, width: int, off: int, n: nat)
    requires n <= |chain|
    ensures Distinct(ChainCalls(chain, d, size, width, off, n))
    ensures FromChain(ChainCalls(chain, d, size, width, off, n), chain, d, size, width, off, n)
  {
    hide Widest, Distinct, Apart, FromChain;
    if n == 0 {
      NoneDistinct();
      NoneFromChain(chain, d, size, width, off);
    } else {
      ChainCallsDistinct(chain, d, size, width, off, n - 1);
      var before, c := ChainCalls(chain, d, size, width, off, n - 1), Call(off, n - 1, width);
      OneMore(before, chain, d, size, width, off, n);
      DistinctAppend(before, [c]);
      assert before + [] == before;
    }
  }

  /** Calls of the given width through the first n entries of one chain. */
  ghost predicate FromChain(calls: seq<Call>, chain: seq<Registration>, d: Direction, size: int, width: int, off: int, n: nat)
    requires n <= |chain|
  {
    forall i :: 0 <= i < |calls| ==>
                  var c := calls[i]; c.off == off && 0 <= c.k < n && Widest(chain[c.k], d, size) == width
  }

  lemma NoneFromChain(chain: seq<Registration>, d: Direction, size: int, width: int, off: int)
    ensures FromChain([], chain, d, size, width, off, 0)
  {
  }

  lemma OneMore(before: seq<Call>, chain: seq<Registration>, d: Direction, size: int, width: int, off: int, n: nat)
    requires 0 < n <= |chain| && FromChain(before, chain, d, size, width, off, n - 1)
    ensures var c := Call(off, n - 1, width);
            && Apart(before, [c]) && Distinct([c]) && FromChain(before, chain, d, size, width, off, n)
            && (Widest(chain[n - 1], d, size) == width ==> FromChain(before + [c], chain, d, size, width, off, n))
  {
    hide Widest;
    assert [Call(off, n - 1, width)][0] == Call(off, n - 1, width);
  }

  lemma PassesApart(cs: seq<seq<Registration>>, d: Direction, w: int, o: int, w': int, o': int)
    requires 0 <= o < |cs| && 0 <= o' < |cs| && (w != w' || o != o')
    ensures Apart(Pass(cs, d, |cs|, w, o), Pass(cs, d, |cs|, w', o'))
    ensures Distinct(Pass(cs, d, |cs|, w, o)) && Distinct(Pass(cs, d, |cs|, w', o'))
  {
    hide Widest, ChainCalls;
    ChainCallsDistinct(cs[o], d, |cs|, w, o, |cs[o]|);
    ChainCallsDistinct(cs[o'], d, |cs|, w', o', |cs[o']|);
  }

  lemma ApartAppend(a: seq<Call>, b: seq<Call>, c: seq<Call>)
    requires Apart(a, c) && Apart(b, c)
    ensures Apart(a + b, c)
  {
  }

  lemma ApartSymmetric(a: seq<Call>, b: seq<Call>)
    requires Apart(a, b)
    ensures Apart(b, a)
  {
  }

  lemma Join(a: seq<Call>, b: seq<Call>, c: seq<Call>)
    requires Distinct(a) && Distinct(b) && Apart(a, b) && Apart(a, c) && Apart(b, c)
    ensures Distinct(a + b) && Apart(a + b, c)
  {
  }

  /** No registration is called twice by one access. */
  lemma NobodyCalledTwice(cs: seq<seq<Registration>>, d: Direction)
    requires |cs| in {1, 2, 4}
    ensures Distinct(AccessCalls(cs, d))
  {
    hide Pass, Distinct, Apart;
    if |cs| == 4 {
      NobodyTwice4(cs, d);
    } else if |cs| == 2 {
      PassesApart(cs, d, 1, 0, 1, 1);
      PassesApart(cs, d, 2, 0, 1, 0);
      PassesApart(cs, d, 2, 0, 1, 1);
      var p, q, r := Pass(cs, d, 2, 2, 0), Pass(cs, d, 2, 1, 0), Pass(cs, d, 2, 1, 1);
      ApartSymmetric(p, q);
      ApartSymmetric(p, r);
      Join(q, r, p);
      ApartSymmetric(q + r, p);
      DistinctAppend(p, q + r);
    } else {
      PassesDistinct(cs, d, 1, 0);
    }
  }

  lemma PassesDistinct(cs: seq<seq<Registration>>, d: Direction, w: int, o: int)
    requires 0 <= o < |cs|
    ensures Distinct(Pass(cs, d, |cs|, w, o))
  {
    ChainCallsDistinct(cs[o], d, |cs|, w, o, |cs[o]|);
  }

  lemma NobodyTwice4(cs: seq<seq<Registration>>, d: Direction)
    requires |cs| == 4
    ensures Distinct(AccessCalls(cs, d))
  {
    var calls := AccessCalls(cs, d);
    hide AccessCalls, Pass, Distinct, Apart;
    forall w, o, w', o' | w in {1, 2, 4} && w' in {1, 2, 4} && 0 <= o < 4 && 0 <= o' < 4 && (w != w' || o != o')
      ensures Apart(Pass(cs, d, 4, w, o), Pass(cs, d, 4, w', o')) && Distinct(Pass(cs, d, 4, w, o))
    {
      PassesApart(cs, d, w, o, w', o');
    }
    var l := Pass(cs, d, 4, 4, 0);
    var w0, w2 := Pass(cs, d, 4, 2, 0), Pass(cs, d, 4, 2, 2);
    var b0, b1, b2, b3 := Pass(cs, d, 4, 1, 0), Pass(cs, d, 4, 1, 1), Pass(cs, d, 4, 1, 2), Pass(cs, d, 4, 1, 3);
    Join(b0, b1, b2);
    Join(b0, b1, b3);
    Join(b0 + b1, b2, b3);
    DistinctAppend(b0 + b1 + b2, b3);
    var bytes := b0 + b1 + b2 + b3;
    forall p | p in {l, w0, w2} ensures Apart(bytes, p) {
      ApartAppend(b0, b1, p);
      ApartAppend(b0 + b1, b2, p);
      ApartAppend(b0 + b1 + b2, b3, p);
    }
    Join(w0, w2, l);
    ApartSymmetric(w0 + w2, l);
    ApartSymmetric(bytes, l);
    ApartSymmetric(bytes, w0);
    ApartSymmetric(bytes, w2);
    ApartAppend(w0, w2, bytes);
    Join(l, w0 + w2, bytes);
    DistinctAppend(l + (w0 + w2), bytes);
  }

  // ----- lane conservation -----

  function Multiplicity(chain: seq<Registration>, r: Registration, n: nat): nat
    requires n <= |chain|
  {
    if n == 0 then 0 else Multiplicity(chain, r, n - 1) + if chain[n - 1] == r then 1 else 0
  }

  /** How often r is registered at offset off. */
  function Copies(cs: seq<seq<Registration>>, off: int, r: Registration): nat
    requires 0 <= off < |cs|
  {
    Multiplicity(cs[off], r, |cs[off]|)
  }

  /** The call goes to registration r and covers byte lane j. */
  predicate Serves(cs: seq<seq<Registration>>, c: Call, r: Registration, j: int) {
    0 <= c.off < |cs| && 0 <= c.k < |cs[c.off]| && cs[c.off][c.k] == r && c.off <= j < c.off + c.width
  }

  /** How often registration r is given byte lane j. */
  function LaneCount(cs: seq<seq<Registration>>, calls: seq<Call>, r: Registration, j: int): nat {
    if calls == [] then 0
    else
      LaneCount(cs, calls[..|calls| - 1], r, j) + if Serves(cs, calls[|calls| - 1], r, j) then 1 else 0
  }

  lemma {:induction false} LaneCountAppend(cs: seq<seq<Registration>>, a: seq<Call>, b: seq<Call>, r: Registration, j: int)
    ensures LaneCount(cs, a + b, r, j) == LaneCount(cs, a, r, j) + LaneCount(cs, b, r, j)
  {
    hide Serves;
    if b == [] {
      assert a + b == a;
    } else {
      assert (a + b)[..|a + b| - 1] == a + b[..|b| - 1];
      LaneCountAppend(cs, a, b[..|b| - 1], r, j);
    }
  }

  lemma {:induction false} ChainLanes(cs: seq<seq<Registration>>, d: Direction, size: int, w: int, off: int, n: nat,
                                      r: Registration, j: int)
    requires 0 <= off < |cs| && n <= |cs[off]|
    ensures LaneCount(cs, ChainCalls(cs[off], d, size, w, off, n), r, j) ==
            if Widest(r, d, size) == w && off <= j < off + w then Multiplicity(cs[off], r, n) else 0
  {
    hide Widest;
    if n == 0 {
    } else {
      ChainLanes(cs, d, size, w, off, n - 1, r, j);
      var init := ChainCalls(cs[off], d, size, w, off, n - 1);
      var c := Call(off, n - 1, w);
      assert (init + [c])[..|init|] == init;
      assert init + [] == init;
    }
  }

  function PassLanes(cs: seq<seq<Registration>>, d: Direction, w: int, off: int, r: Registration, j: int): nat
    requires 0 <= off < |cs|
  {
    if Widest(r, d, |cs|) == w && off <= j < off + w then Copies(cs, off, r) else 0
  }

  lemma PassLaneCount(cs: seq<seq<Registration>>, d: Direction, w: int, off: int, r: Registration, j: int)
    requires 0 <= off < |cs|
    ensures LaneCount(cs, Pass(cs, d, |cs|, w, off), r, j) == PassLanes(cs, d, w, off, r, j)
  {
    hide Widest;
    ChainLanes(cs, d, |cs|, w, off, |cs[off]|, r, j);
  }

  /** Each byte lane of an access reaches a registration exactly as often as it is registered at
      the port where its widest callback covers that lane, and not at all if it has no callback. */
  lemma LaneConservation(cs: seq<seq<Registration>>, d: Direction, r: Registration, j: int)
    requires |cs| in {1, 2, 4} && 0 <= j < |cs|
    ensures var w := Widest(r, d, |cs|);
            LaneCount(cs, AccessCalls(cs, d), r, j) == if w == 0 then 0 else Copies(cs, j / w * w, r)
  {
    hide LaneCount, Pass, Copies;
    if |cs| == 4 {
      LaneConservation4(cs, d, r, j);
    } else if |cs| == 2 {
      var l, b0, b1 := Pass(cs, d, 2, 2, 0), Pass(cs, d, 2, 1, 0), Pass(cs, d, 2, 1, 1);
      LaneCountAppend(cs, l, b0 + b1, r, j);
      LaneCountAppend(cs, b0, b1, r, j);
      PassLaneCount(cs, d, 2, 0, r, j);
      PassLaneCount(cs, d, 1, 0, r, j);
      PassLaneCount(cs, d, 1, 1, r, j);
    } else {
      PassLaneCount(cs, d, 1, 0, r, j);
    }
  }

  lemma LaneConservation4(cs: seq<seq<Registration>>, d: Direction, r: Registration, j: int)
    requires |cs| == 4 && 0 <= j < 4
    ensures var w := Widest(r, d, 4);
            LaneCount(cs, AccessCalls(cs, d), r, j) == if w == 0 then 0 else Copies(cs, j / w * w, r)
  {
    hide LaneCount, Pass, Copies;
    var l := Pass(cs, d, 4, 4, 0);
    var w0, w2 := Pass(cs, d, 4, 2, 0), Pass(cs, d, 4, 2, 2);
    var b0, b1, b2, b3 := Pass(cs, d, 4, 1, 0), Pass(cs, d, 4, 1, 1), Pass(cs, d, 4, 1, 2), Pass(cs, d, 4, 1, 3);
    LaneCountAppend(cs, l + (w0 + w2), b0 + b1 + b2 + b3, r, j);
    LaneCountAppend(cs, l, w0 + w2, r, j);
    LaneCountAppend(cs, w0, w2, r, j);
    LaneCountAppend(cs, b0 + b1 + b2, b3, r, j);
    LaneCountAppend(cs, b0 + b1, b2, r, j);
    LaneCountAppend(cs, b0, b1, r, j);
    PassLaneCount(cs, d, 4, 0, r, j);
    PassLaneCount(cs, d, 2, 0, r, j);
    PassLaneCount(cs, d, 2, 2, r, j);
    PassLaneCount(cs, d, 1, 0, r, j);
    PassLaneCount(cs, d, 1, 1, r, j);
    PassLaneCount(cs, d, 1, 2, r, j);
    PassLaneCount(cs, d, 1, 3, r, j);
  }

  ghost predicate EachLaneOnce(cs: seq<seq<Registration>>, d: Direction, r: Registration)
    requires |cs| in {1, 2, 4}
  {
    forall j :: 0 <= j < |cs| ==> LaneCount(cs, AccessCalls(cs, d), r, j) == 1
  }

  /** r is registered exactly once at each port where an access of width w starts. */
  ghost predicate RegisteredOnce(cs: seq<seq<Registration>>, w: int, r: Registration)
    requires w > 0
  {
    forall off :: 0 <= off < |cs| && off % w == 0 ==> Copies(cs, off, r) == 1
  }

  /** A device with some callback receives every lane exactly once iff it is registered exactly
      once at each port its widest callback is aligned to -- in particular when it is registered
      once on every port of the access. */
  lemma EveryLaneOnce(cs: seq<seq<Registration>>, d: Direction, r: Registration)
    requires |cs| in {1, 2, 4} && Widest(r, d, |cs|) != 0
    ensures EachLaneOnce(cs, d, r) <==> RegisteredOnce(cs, Widest(r, d, |cs|), r)
    ensures RegisteredOnce(cs, 1, r) ==> EachLaneOnce(cs, d, r)
  {
    var w := Widest(r, d, |cs|);
    assert w in {1, 2, 4} && w <= |cs|;
    hide LaneCount, AccessCalls, Copies, Widest;
    if EachLaneOnce(cs, d, r) {
      forall off | 0 <= off < |cs| && off % w == 0 ensures Copies(cs, off, r) == 1 {
        Aligned(off, w);
        LaneConservation(cs, d, r, off);
      }
    }
    if RegisteredOnce(cs, w, r) || RegisteredOnce(cs, 1, r) {
      forall j | 0 <= j < |cs| ensures LaneCount(cs, AccessCalls(cs, d), r, j) == 1 {
        Aligned(j, w);
        LaneConservation(cs, d, r, j);
      }
    }
  }

  lemma Aligned(j: int, w: int)
    requires w in {1, 2, 4} && 0 <= j
    ensures 0 <= j / w * w <= j && j / w * w % w == 0 && (j % w == 0 ==> j / w * w == j)
  {
  }

  // ----- what a read returns -----

  function Ones(n: nat): (b: Bits)
    ensures |b| == n
  {
    seq(n, _ => true)
  }

  function And(a: Bits, b: Bits): (r: Bits)
    requires |a| == |b|
    ensures |r| == |a|
  {
    seq(|a|, i requires 0 <= i < |a| => a[i] && b[i])
  }

  /** ret with the answer a ANDed into the lanes from off on. */
  function Merge(ret: Bits, off: nat, a: Bits): (r: Bits)
    requires 8 * off + |a| <= |ret|
    ensures |r| == |ret|
  {
    ret[..8 * off] + And(ret[8 * off..8 * off + |a|], a) + ret[8 * off + |a|..]
  }

  ghost predicate Fitting(calls: seq<Call>, size: nat) {
    forall i :: 0 <= i < |calls| ==>
                  0 <= calls[i].off && 0 <= calls[i].width <= 4 && calls[i].off + calls[i].width <= size
  }

  /** The AND of all answers, the n-th call answering the low bytes of answers(n). */
  function Merged(calls: seq<Call>, answers: nat -> Word, size: nat): (r: Bits)
    requires Fitting(calls, size)
    ensures |r| == 8 * size
  {
    if calls == [] then Ones(8 * size)
    else
      var n := |calls| - 1;
      Merge(Merged(calls[..n], answers, size), calls[n].off, answers(n)[..8 * calls[n].width])
  }

  /** A bit of the result is set iff every call covering it answered with that bit set. */
  lemma {:induction false} MergedBit(calls: seq<Call>, answers: nat -> Word, size: nat, b: nat)
    requires Fitting(calls, size) && b < 8 * size
    ensures Merged(calls, answers, size)[b] <==>
            forall n :: 0 <= n < |calls| && 8 * calls[n].off <= b < 8 * (calls[n].off + calls[n].width) ==>
                          answers(n)[b - 8 * calls[n].off]
  {
    hide Merge;
    if calls == [] {
    } else {
      var n := |calls| - 1;
      MergedBit(calls[..n], answers, size, b);
      MergeBit(Merged(calls[..n], answers, size), calls[n].off, answers(n)[..8 * calls[n].width], b);
      hide Merged, Fitting;
      assert forall k :: 0 <= k < n ==> calls[..n][k] == calls[k];
    }
  }

  lemma MergeBit(ret: Bits, off: nat, a: Bits, b: nat)
    requires 8 * off + |a| <= |ret| && b < |ret|
    ensures Merge(ret, off, a)[b] <==> ret[b] && (8 * off <= b < 8 * off + |a| ==> a[b - 8 * off])
  {
  }

  /** The value handed to a write callback: the lanes it covers. */
  function Lanes(val: Bits, c: Call): Bits
    requires 0 <= c.off && 0 <= c.width && 8 * (c.off + c.width) <= |val|
  {
    val[8 * c.off..8 * (c.off + c.width)]
  }
}
