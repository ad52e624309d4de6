/** The port dispatcher: per-port doubly linked handler chains on the heap, edited in place and
    walked by every access. */
module IoPorts {
  import opened Words
  import opened IoLanes

  const NPORTS: nat := 65536

  class Handler {
    const reg: Registration
    ghost const port: int
    var prev: Handler?
    var next: Handler?

    constructor (reg: Registration, ghost port: int)
      ensures this.reg == reg && this.port == port && prev == null && next == null
    {
      this.reg, this.port, prev, next := reg, port, null, null;
    }
  }

  /** The registrations of a chain, in calling order. */
  function Contents(chain: seq<Handler>): (c: seq<Registration>)
    ensures |c| == |chain| && forall k :: 0 <= k < |chain| ==> c[k] == chain[k].reg
  {
    seq(|chain|, k requires 0 <= k < |chain| => chain[k].reg)
  }

  lemma ContentsAppend(chain: seq<Handler>, q: Handler)
    ensures Contents(chain + [q]) == Contents(chain) + [q.reg]
  {
  }

  lemma ContentsWithout(chain: seq<Handler>, k: nat)
    requires k < |chain|
    ensures Contents(chain[..k] + chain[k + 1..]) == Contents(chain)[..k] + Contents(chain)[k + 1..]
  {
  }

  /** A fully matching entry removed at its first occurrence. */
  function Removed(c: seq<Registration>, r: Registration): seq<Registration> {
    if c == [] then [] else if c[0] == r then c[1..] else [c[0]] + Removed(c[1..], r)
  }

  lemma {:induction false} RemovedAt(c: seq<Registration>, r: Registration, k: nat)
    requires k <= |c| && forall j :: 0 <= j < k ==> c[j] != r
    ensures k == |c| ==> Removed(c, r) == c
    ensures k < |c| && c[k] == r ==> Removed(c, r) == c[..k] + c[k + 1..]
  {
    if c == [] || k == 0 {
    } else {
      RemovedAt(c[1..], r, k - 1);
    }
  }

  /** Removing a handler undoes its registration -- unless the same handler was already there: then
      the older entry goes, and the device moves to the end of the calling order. */
  lemma {:induction false} RemoveAfterAppend(c: seq<Registration>, r: Registration)
    ensures Removed(c + [r], r) == if r in c then Removed(c, r) + [r] else c
  {
    if c == [] {
      assert c + [r] == [r];
    } else {
      assert (c + [r])[0] == c[0] && (c + [r])[1..] == c[1..] + [r];
      if c[0] != r {
        RemoveAfterAppend(c[1..], r);
        assert c == [c[0]] + c[1..];
      }
    }
  }

  /** A chain linked both ways, with no entry occurring twice. */
  ghost predicate Linked(chain: seq<Handler>)
    reads chain
  {
    && (forall k {:trigger chain[k].prev} :: 0 <= k < |chain| ==> chain[k].prev == if k == 0 then null else chain[k - 1])
    && (forall k {:trigger chain[k].next} :: 0 <= k < |chain| ==>
          chain[k].next == if k == |chain| - 1 then null else chain[k + 1])
    && (forall j, k :: 0 <= j < k < |chain| ==> chain[j] != chain[k])
  }

  // ----- one access -----

  /** A callback invocation: whom it goes to, the port it is told, and the value written. */
  datatype Sent = Sent(fn: nat, priv: nat, port: int, width: int, value: Bits)

  function Deliver(cs: seq<seq<Registration>>, d: Direction, port: int, val: Bits, c: Call): Sent {
    if 0 <= c.off < |cs| && 0 <= c.k < |cs[c.off]| && 0 <= c.width && 8 * (c.off + c.width) <= |val| then
      var r := cs[c.off][c.k];
      Sent(Callback(r, d, c.width), r.priv, (port + c.off) % 65536, c.width, if d == Out then Lanes(val, c) else [])
    else Sent(0, 0, 0, 0, [])
  }

  function Deliveries(cs: seq<seq<Registration>>, d: Direction, port: int, val: Bits, calls: seq<Call>): (t: seq<Sent>)
    ensures |t| == |calls|
  {
    seq(|calls|, i requires 0 <= i < |calls| => Deliver(cs, d, port, val, calls[i]))
  }

  lemma DeliveriesAppend(cs: seq<seq<Registration>>, d: Direction, port: int, val: Bits, a: seq<Call>, b: seq<Call>)
    ensures Deliveries(cs, d, port, val, a + b) == Deliveries(cs, d, port, val, a) + Deliveries(cs, d, port, val, b)
  {
  }

  /** The test each pass makes: the callback of this width is there and no wider one that fits. */
  predicate Wanted(r: Registration, d: Direction, size: int, width: int) {
    && Callback(r, d, width) != 0
    && (width < 2 <= size ==> Callback(r, d, 2) == 0)
    && (width < 4 <= size ==> Callback(r, d, 4) == 0)
  }

  lemma WantedIsWidest(r: Registration, d: Direction, size: int, width: int)
    requires width in {1, 2, 4} && width <= size
    ensures Wanted(r, d, size, width) <==> Widest(r, d, size) == width
  {
  }

  /** ret with the lanes from off on replaced. */
  function Splice(ret: Bits, off: nat, a: Bits): (r: Bits)
    requires 8 * off + |a| <= |ret|
    ensures |r| == |ret|
  {
    ret[..8 * off] + a + ret[8 * off + |a|..]
  }

  // ----- the same in terms of what devices registered -----

  /** The function a registration has called in the pass of a given width, or 0: its own function of that width and
      direction, unless it has a wider one that the access reaches first. */
  function Target(r: Registration, d: Direction, size: nat, width: nat): nat {
    match d
    case Out =>
      if width == 4 then r.outl
      else if width == 2 then (if size == 4 && r.outl != 0 then 0 else r.outw)
      else if (size == 4 && r.outl != 0) || (size >= 2 && r.outw != 0) then 0 else r.outb
    case In =>
      if width == 4 then r.inl
      else if width == 2 then (if size == 4 && r.inl != 0 then 0 else r.inw)
      else if (size == 4 && r.inl != 0) || (size >= 2 && r.inw != 0) then 0 else r.inb
  }

  /** One pass over the devices of one port, in the order they registered. */
  function Sends(chain: seq<Registration>, d: Direction, size: nat, width: nat, port: int, value: Bits): seq<Sent> {
    if chain == [] then []
    else
      var r := chain[|chain| - 1];
      Sends(chain[..|chain| - 1], d, size, width, port, value)
      + if Target(r, d, size, width) != 0 then [Sent(Target(r, d, size, width), r.priv, port, width, value)] else []
  }

  /** The pass at port + off, with the written lanes. */
  function PassSends(cs: seq<seq<Registration>>, d: Direction, port: int, val: Bits, width: nat, off: nat): seq<Sent>
    requires off + width <= |cs| && |val| == 8 * |cs| && off < |cs|
  {
    Sends(cs[off], d, |cs|, width, (port + off) % 65536, if d == Out then val[8 * off..8 * (off + width)] else [])
  }

  /** A whole access: the 32-bit functions, the 16-bit ones at offsets 0 and 2, and the 8-bit ones at every port. */
  function AllSends(cs: seq<seq<Registration>>, d: Direction, port: int, val: Bits): seq<Sent>
    requires |cs| in {1, 2, 4} && |val| == 8 * |cs|
  {
    if |cs| == 4 then
      PassSends(cs, d, port, val, 4, 0) + (PassSends(cs, d, port, val, 2, 0) + PassSends(cs, d, port, val, 2, 2))
      + (PassSends(cs, d, port, val, 1, 0) + PassSends(cs, d, port, val, 1, 1)
         + PassSends(cs, d, port, val, 1, 2) + PassSends(cs, d, port, val, 1, 3))
    else if |cs| == 2 then
      PassSends(cs, d, port, val, 2, 0) + (PassSends(cs, d, port, val, 1, 0) + PassSends(cs, d, port, val, 1, 1))
    else PassSends(cs, d, port, val, 1, 0)
  }

  lemma TargetIsWidest(r: Registration, d: Direction, size: nat, width: nat)
    requires size in {1, 2, 4} && width in {1, 2, 4} && width <= size
    ensures Target(r, d, size, width) == if Widest(r, d, size) == width then Callback(r, d, width) else 0
    ensures Widest(r, d, size) == width ==> Callback(r, d, width) != 0
  {
  }

  lemma {:induction false} ChainSends(cs: seq<seq<Registration>>, d: Direction, port: int, val: Bits, width: nat, off: nat,
                                      n: nat)
    requires |cs| in {1, 2, 4} && width in {1, 2, 4} && off + width <= |cs| && |val| == 8 * |cs| && n <= |cs[off]|
    ensures Deliveries(cs, d, port, val, ChainCalls(cs[off], d, |cs|, width, off, n)) ==
            Sends(cs[off][..n], d, |cs|, width, (port + off) % 65536,
                  if d == Out then val[8 * off..8 * (off + width)] else [])
  {
    hide Deliveries, Target, Widest, Callback, Deliver;
    if n == 0 {
      NoDeliveries(cs, d, port, val);
    } else {
      ChainSends(cs, d, port, val, width, off, n - 1);
      var r, c := cs[off][n - 1], Call(off, n - 1, width);
      assert cs[off][..n][..n - 1] == cs[off][..n - 1];
      TargetIsWidest(r, d, |cs|, width);
      OneDelivery(cs, d, port, val, width, off, n - 1);
      var before := ChainCalls(cs[off], d, |cs|, width, off, n - 1);
      DeliveriesAppend(cs, d, port, val, before, [c]);
      assert before + [] == before;
    }
  }

  lemma OneDelivery(cs: seq<seq<Registration>>, d: Direction, port: int, val: Bits, width: nat, off: nat, k: nat)
    requires off + width <= |cs| && |val| == 8 * |cs| && off < |cs| && k < |cs[off]|
    ensures Deliveries(cs, d, port, val, [Call(off, k, width)]) ==
            [Sent(Callback(cs[off][k], d, width), cs[off][k].priv, (port + off) % 65536, width,
                  if d == Out then val[8 * off..8 * (off + width)] else [])]
  {
    hide Callback;
  }

  lemma PassIsSends(cs: seq<seq<Registration>>, d: Direction, port: int, val: Bits, width: nat, off: nat)
    requires |cs| in {1, 2, 4} && width in {1, 2, 4} && off + width <= |cs| && |val| == 8 * |cs|
    ensures Deliveries(cs, d, port, val, Pass(cs, d, |cs|, width, off)) == PassSends(cs, d, port, val, width, off)
  {
    hide Deliveries, Sends, ChainCalls;
    ChainSends(cs, d, port, val, width, off, |cs[off]|);
    assert cs[off][..|cs[off]|] == cs[off];
  }

  /** What an access delivers is what the devices registered for it, function by function. */
  lemma AccessIsSends(cs: seq<seq<Registration>>, d: Direction, port: int, val: Bits)
    requires |cs| in {1, 2, 4} && |val| == 8 * |cs|
    ensures Deliveries(cs, d, port, val, AccessCalls(cs, d)) == AllSends(cs, d, port, val)
  {
    hide Deliveries, Pass, PassSends;
    PassIsSends(cs, d, port, val, 1, 0);
    if |cs| == 2 {
      PassIsSends(cs, d, port, val, 2, 0);
      PassIsSends(cs, d, port, val, 1, 1);
      DeliveriesAppend(cs, d, port, val, Pass(cs, d, 2, 1, 0), Pass(cs, d, 2, 1, 1));
      DeliveriesAppend(cs, d, port, val, Pass(cs, d, 2, 2, 0), Pass(cs, d, 2, 1, 0) + Pass(cs, d, 2, 1, 1));
    } else if |cs| == 4 {
      LongIsSends(cs, d, port, val);
    }
  }

  lemma LongIsSends(cs: seq<seq<Registration>>, d: Direction, port: int, val: Bits)
    requires |cs| == 4 && |val| == 32
    ensures Deliveries(cs, d, port, val, AccessCalls(cs, d)) == AllSends(cs, d, port, val)
  {
    hide Deliveries, Pass, PassSends;
    PassIsSends(cs, d, port, val, 4, 0);
    PassIsSends(cs, d, port, val, 2, 0);
    PassIsSends(cs, d, port, val, 2, 2);
    PassIsSends(cs, d, port, val, 1, 0);
    PassIsSends(cs, d, port, val, 1, 1);
    PassIsSends(cs, d, port, val, 1, 2);
    PassIsSends(cs, d, port, val, 1, 3);
    var l, w0, w2 := Pass(cs, d, 4, 4, 0), Pass(cs, d, 4, 2, 0), Pass(cs, d, 4, 2, 2);
    var b0, b1, b2, b3 := Pass(cs, d, 4, 1, 0), Pass(cs, d, 4, 1, 1), Pass(cs, d, 4, 1, 2), Pass(cs, d, 4, 1, 3);
    DeliveriesAppend(cs, d, port, val, l + (w0 + w2), b0 + b1 + b2 + b3);
    DeliveriesAppend(cs, d, port, val, l, w0 + w2);
    DeliveriesAppend(cs, d, port, val, w0, w2);
    DeliveriesAppend(cs, d, port, val, b0 + b1 + b2, b3);
    DeliveriesAppend(cs, d, port, val, b0 + b1, b2);
    DeliveriesAppend(cs, d, port, val, b0, b1);
  }

  /** How far above the accessed port a callback was called. */
  function LaneOf(s: Sent, port: int): int {
    (s.port - port) % 65536
  }

  /** A read's result, bit by bit: set exactly if every callback called whose lanes hold the bit answered it set. */
  ghost predicate Answers(ret: Bits, t: seq<Sent>, port: int, answers: nat -> Word) {
    forall b :: 0 <= b < |ret| ==>
                  (ret[b] <==> forall n: nat :: n < |t| && Covers(t[n], port, b) ==> Answered(t[n], port, answers(n), b))
  }

  predicate Covers(s: Sent, port: int, b: int) {
    8 * LaneOf(s, port) <= b < 8 * (LaneOf(s, port) + s.width)
  }

  predicate Answered(s: Sent, port: int, answer: Word, b: int) {
    var i := b - 8 * LaneOf(s, port);
    0 <= i < 32 && answer[i]
  }

  predicate InChains(cs: seq<seq<Registration>>, c: Call) {
    0 <= c.off < |cs| && 0 <= c.k < |cs[c.off]| && c.width > 0
  }

  lemma MergedAnswers(cs: seq<seq<Registration>>, port: int, calls: seq<Call>, answers: nat -> Word)
    requires |cs| in {1, 2, 4} && Fitting(calls, |cs|) && 0 <= port < 65536
    requires forall n :: 0 <= n < |calls| ==> InChains(cs, calls[n])
    ensures Answers(Merged(calls, answers, |cs|), Deliveries(cs, In, port, Ones(8 * |cs|), calls), port, answers)
  {
    hide Merged, LaneOf, Fitting, Covers, Answered, InChains, Deliveries;
    var ret, t := Merged(calls, answers, |cs|), Deliveries(cs, In, port, Ones(8 * |cs|), calls);
    DeliveredLanes(cs, port, calls);
    forall b | 0 <= b < |ret|
      ensures ret[b] <==> forall n: nat :: n < |t| && Covers(t[n], port, b) ==> Answered(t[n], port, answers(n), b)
    {
      AnswerBit(calls, t, |cs|, port, answers, b);
    }
  }

  lemma AnswerBit(calls: seq<Call>, t: seq<Sent>, size: nat, port: int, answers: nat -> Word, b: nat)
    requires Fitting(calls, size) && size <= 4 && b < 8 * size && |t| == |calls|
    requires forall n: nat :: n < |calls| ==> LaneOf(t[n], port) == calls[n].off && t[n].width == calls[n].width
    ensures Merged(calls, answers, size)[b] <==>
            forall n: nat :: n < |t| && Covers(t[n], port, b) ==> Answered(t[n], port, answers(n), b)
  {
    hide Merged, LaneOf;
    MergedBit(calls, answers, size, b);
  }

  lemma DeliveredLane(cs: seq<seq<Registration>>, port: int, c: Call)
    requires 0 <= c.off && 0 < c.width && c.off + c.width <= |cs| <= 4 && 0 <= c.k < |cs[c.off]| && 0 <= port < 65536
    ensures var s := Deliver(cs, In, port, Ones(8 * |cs|), c);
            LaneOf(s, port) == c.off && s.width == c.width
  {
  }

  lemma DeliveredLanes(cs: seq<seq<Registration>>, port: int, calls: seq<Call>)
    requires |cs| in {1, 2, 4} && Fitting(calls, |cs|) && 0 <= port < 65536
    requires forall n :: 0 <= n < |calls| ==> InChains(cs, calls[n])
    ensures var t := Deliveries(cs, In, port, Ones(8 * |cs|), calls);
            forall n: nat :: n < |calls| ==> LaneOf(t[n], port) == calls[n].off && t[n].width == calls[n].width
  {
    hide LaneOf, Deliver;
    forall n: nat | n < |calls|
      ensures var s := Deliver(cs, In, port, Ones(8 * |cs|), calls[n]);
              LaneOf(s, port) == calls[n].off && s.width == calls[n].width
    {
      DeliveredLane(cs, port, calls[n]);
    }
  }

  lemma ReadIsAnswers(cs: seq<seq<Registration>>, port: int, answers: nat -> Word)
    requires |cs| in {1, 2, 4} && 0 <= port < 65536 && Fitting(AccessCalls(cs, In), |cs|)
    ensures var calls := AccessCalls(cs, In);
            Answers(Merged(calls, answers, |cs|), Deliveries(cs, In, port, Ones(8 * |cs|), calls), port, answers)
  {
    hide AccessCalls, Answers;
    var calls := AccessCalls(cs, In);
    forall n | 0 <= n < |calls| ensures InChains(cs, calls[n]) {
      CallsSpec(cs, In, calls[n]);
    }
    MergedAnswers(cs, port, calls, answers);
  }

  lemma FittingAppend(a: seq<Call>, b: seq<Call>, size: nat)
    requires Fitting(a, size) && Fitting(b, size)
    ensures Fitting(a + b, size)
  {
  }

  /** One more answer: ANDing it into the lanes being collected is merging it into the result. */
  lemma MergedStep(calls: seq<Call>, c: Call, answers: nat -> Word, size: nat, ret: Bits, acc: Bits)
    requires Fitting(calls, size) && 0 <= c.off && 0 <= c.width <= 4 && c.off + c.width <= size
    requires |ret| == 8 * size && |acc| == 8 * c.width
    requires Merged(calls, answers, size) == Splice(ret, c.off, acc)
    ensures Fitting(calls + [c], size)
    ensures Merged(calls + [c], answers, size) == Splice(ret, c.off, And(acc, answers(|calls|)[..8 * c.width]))
  {
    FittingAppend(calls, [c], size);
    assert (calls + [c])[..|calls|] == calls;
    var a := answers(|calls|)[..8 * c.width];
    MergeSplice(ret, c.off, acc, a);
  }

  lemma MergeSplice(ret: Bits, off: nat, acc: Bits, a: Bits)
    requires 8 * off + |acc| <= |ret| && |a| == |acc|
    ensures Merge(Splice(ret, off, acc), off, a) == Splice(ret, off, And(acc, a))
  {
  }

  /** The registrations of the chains at port, port + 1, ..., wrapping at the end of the port space. */
  function AroundOf(chains: seq<seq<Handler>>, port: int, size: nat): (cs: seq<seq<Registration>>)
    requires |chains| == NPORTS
    ensures |cs| == size
  {
    seq(size, i requires 0 <= i < size => Contents(chains[(port + i) % 65536]))
  }

  class Ports {
    var head: array<Handler?>
    var tail: array<Handler?>
    ghost var chains: seq<seq<Handler>>
    ghost var nodes: set<Handler>

    ghost predicate ChainAt(p: int)
      requires 0 <= p < |chains| && |chains| == head.Length == tail.Length
      reads this, head, tail, chains[p]
    {
      var chain := chains[p];
      && Linked(chain)
      && head[p] == (if chain == [] then null else chain[0])
      && tail[p] == (if chain == [] then null else chain[|chain| - 1])
    }

    ghost predicate Valid()
      reads this, head, tail, nodes
    {
      && head != tail && head.Length == tail.Length == |chains| == NPORTS
      && (forall p, k :: 0 <= p < NPORTS && 0 <= k < |chains[p]| ==> chains[p][k] in nodes && chains[p][k].port == p)
      && (forall p :: 0 <= p < NPORTS ==> ChainAt(p))
    }

    ghost function Registered(p: int): seq<Registration>
      requires 0 <= p < |chains|
      reads this
    {
      Contents(chains[p])
    }

    /** A chain none of whose links, nor its two ends, were written is still a chain. */
    twostate lemma ChainKept(r: int)
      requires |chains| == head.Length == tail.Length && old(|chains| == head.Length == tail.Length)
      requires 0 <= r < |chains| == old(|chains|) && chains[r] == old(chains[r]) && old(ChainAt(r))
      requires head[r] == old(head[r]) && tail[r] == old(tail[r])
      requires forall k :: 0 <= k < |chains[r]| ==>
                             chains[r][k].prev == old(chains[r][k].prev) && chains[r][k].next == old(chains[r][k].next)
      ensures ChainAt(r)
    {
    }

    /** Editing the nodes and ends of one port leaves every other chain well linked. */
    twostate lemma OthersKept(p: int)
      requires old(Valid()) && head == old(head) && tail == old(tail) && |chains| == NPORTS
      requires forall r :: 0 <= r < NPORTS && r != p ==>
                             chains[r] == old(chains[r]) && head[r] == old(head[r]) && tail[r] == old(tail[r])
      requires forall h :: h in old(nodes) && h.port != p ==> h.prev == old(h.prev) && h.next == old(h.next)
      ensures forall r :: 0 <= r < NPORTS && r != p ==> ChainAt(r)
    {
      hide Linked;
      forall r | 0 <= r < NPORTS && r != p ensures ChainAt(r) {
        assert old(ChainAt(r));
        ChainKept(r);
      }
    }

    constructor ()
      ensures Valid() && fresh(head) && fresh(tail) && nodes == {}
      ensures forall p :: 0 <= p < NPORTS ==> Registered(p) == []
    {
      head := new Handler?[NPORTS](_ => null);
      tail := new Handler?[NPORTS](_ => null);
      chains := seq(NPORTS, _ => []);
      nodes := {};
    }

    method Append(p: int, reg: Registration)
      requires Valid() && 0 <= p < NPORTS
      modifies this, head, tail, nodes
      ensures Valid() && head == old(head) && tail == old(tail) && fresh(nodes - old(nodes))
      ensures Registered(p) == old(Registered(p)) + [reg]
      ensures forall q :: 0 <= q < NPORTS && q != p ==> chains[q] == old(chains[q])
    {
      hide Contents, Linked;
      assert ChainAt(p);
      var last := tail[p];
      ghost var chain := chains[p];
      assert last == null <==> chain == [];
      assert chain != [] ==> last == chain[|chain| - 1] && last in nodes;
      var q := new Handler(reg, p);
      if last != null {
        last.next := q;
        q.prev := last;
      } else {
        head[p] := q;
        q.prev := null;
      }
      q.next := null;
      tail[p] := q;
      chains := chains[p := chain + [q]];
      nodes := nodes + {q};
      ContentsAppend(chain, q);
      Extended(chain, q);
      OthersKept(p);
    }

    /** A chain whose last node now points to a new node is a chain with that node. */
    twostate lemma Extended(chain: seq<Handler>, new q: Handler)
      requires old(Linked(chain)) && q !in chain && q.next == null
      requires q.prev == if chain == [] then null else chain[|chain| - 1]
      requires chain != [] ==> chain[|chain| - 1].next == q
      requires forall h :: h in chain ==> h.prev == old(h.prev)
      requires forall h :: h in chain && h != chain[|chain| - 1] ==> h.next == old(h.next)
      ensures Linked(chain + [q])
    {
    }

    /** Registering on ports base, base + step, ... below base + size. */
    method SetHandler(base: nat, size: nat, reg: Registration, step: nat)
      requires Valid() && base + size <= NPORTS && step > 0
      modifies this, head, tail, nodes
      ensures Valid() && head == old(head) && tail == old(tail) && fresh(nodes - old(nodes))
      ensures forall p :: 0 <= p < NPORTS ==>
                            Registered(p) == old(Registered(p)) + if Touched(p, base, size, step) then [reg] else []
    {
      hide Touched;
      TouchedBounds(base, size, step);
      var c := 0;
      while c < size
        invariant Valid() && head == old(head) && tail == old(tail) && fresh(nodes - old(nodes))
        invariant c % step == 0
        invariant forall p :: 0 <= p < NPORTS ==>
                                Registered(p) == old(Registered(p)) +
                                                 if Touched(p, base, size, step) && p < base + c then [reg] else []
        decreases size - c
      {
        Append(base + c, reg);
        TouchedNext(base, size, step, c);
        c := c + step;
        StepAligned(c - step, step);
      }
    }

    /** Unlinks the first entry equal to reg from the chain of port p, if there is one. */
    method RemoveAt(p: int, reg: Registration)
      requires Valid() && 0 <= p < NPORTS
      modifies this, head, tail, nodes
      ensures Valid() && head == old(head) && tail == old(tail) && nodes == old(nodes)
      ensures Registered(p) == Removed(old(Registered(p)), reg)
      ensures forall q :: 0 <= q < NPORTS && q != p ==> chains[q] == old(chains[q])
    {
      assert ChainAt(p);
      ghost var chain := chains[p];
      assert forall j {:trigger chain[j].next} :: 0 <= j < |chain| ==>
                                                    chain[j].next == if j == |chain| - 1 then null else chain[j + 1];
      hide Linked, Removed, Contents;
      var n := head[p];
      ghost var k := 0;
      while n != null
        invariant 0 <= k <= |chain| && n == (if k == |chain| then null else chain[k])
        invariant forall j :: 0 <= j < k ==> chain[j].reg != reg
        decreases |chain| - k
      {
        var q := n.next;
        if n.reg == reg {
          RemovedAt(Contents(chain), reg, k);
          Unlink(p, n, k);
          ContentsWithout(chain, k);
          return;
        }
        n, k := q, k + 1;
      }
      RemovedAt(Contents(chain), reg, k);
    }

    method Unlink(p: int, n: Handler, ghost k: nat)
      requires Valid() && 0 <= p < NPORTS && k < |chains[p]| && chains[p][k] == n
      modifies this, head, tail, nodes
      ensures Valid() && head == old(head) && tail == old(tail) && nodes == old(nodes)
      ensures chains == old(chains)[p := old(chains[p])[..k] + old(chains[p])[k + 1..]]
    {
      assert ChainAt(p);
      ghost var chain := chains[p];
      assert chain[k].prev == if k == 0 then null else chain[k - 1];
      assert chain[k].next == if k == |chain| - 1 then null else chain[k + 1];
      assert k > 0 ==> chain[k - 1] in nodes;
      assert k < |chain| - 1 ==> chain[k + 1] in nodes;
      if n.prev != null {
        n.prev.next := n.next;
      } else {
        head[p] := n.next;
      }
      if n.next != null {
        n.next.prev := n.prev;
      } else {
        tail[p] := n.prev;
      }
      ghost var rest := chain[..k] + chain[k + 1..];
      chains := chains[p := rest];
      assert Linked(rest);
      hide Linked;
      OthersKept(p);
    }

    method RemoveHandler(base: nat, size: nat, reg: Registration, step: nat)
      requires Valid() && base + size <= NPORTS && step > 0
      modifies this, head, tail, nodes
      ensures Valid() && head == old(head) && tail == old(tail) && nodes == old(nodes)
      ensures forall p :: 0 <= p < NPORTS ==>
                            Registered(p) == if Touched(p, base, size, step) then Removed(old(Registered(p)), reg)
                                             else old(Registered(p))
    {
      hide Touched, Removed, Contents, ChainAt;
      TouchedBounds(base, size, step);
      var c := 0;
      while c < size
        invariant Valid() && head == old(head) && tail == old(tail) && nodes == old(nodes)
        invariant c % step == 0
        invariant forall p :: 0 <= p < NPORTS ==>
                                Registered(p) == if Touched(p, base, size, step) && p < base + c
                                                 then Removed(old(Registered(p)), reg) else old(Registered(p))
        decreases size - c
      {
        RemoveAt(base + c, reg);
        TouchedNext(base, size, step, c);
        c := c + step;
        StepAligned(c - step, step);
      }
    }

    /** Empties every chain, walking each from its tail. */
    method Init()
      requires Valid()
      modifies this, head, tail
      ensures Valid() && head == old(head) && tail == old(tail) && nodes == old(nodes)
      ensures forall p :: 0 <= p < NPORTS ==> Registered(p) == []
    {
      for c := 0 to NPORTS
        invariant Valid() && head == old(head) && tail == old(tail) && nodes == old(nodes)
        invariant forall p :: 0 <= p < c ==> chains[p] == []
      {
        assert ChainAt(c);
        ghost var k := |chains[c]|;
        if tail[c] != null {
          var n := tail[c];
          while n != null
            invariant 0 <= k <= |chains[c]| && n == (if k == 0 then null else chains[c][k - 1])
            decreases k
          {
            var q := n.prev;
            n, k := q, k - 1;
          }
        }
        label Cleared:
        head[c], tail[c] := null, null;
        chains := chains[c := []];
        forall r | 0 <= r < NPORTS ensures ChainAt(r) {
          assert r != c ==> old@Cleared(ChainAt(r));
        }
      }
    }

    // ----- accesses -----

    ghost function Around(port: int, size: nat): (cs: seq<seq<Registration>>)
      requires |chains| == NPORTS
      reads this
      ensures |cs| == size
    {
      AroundOf(chains, port, size)
    }

    /** One pass of a write: calls every wanted handler of the chain at port + off. */
    method WritePass(port: int, off: nat, width: nat, size: nat, val: Bits, sent: seq<Sent>) returns (t: seq<Sent>)
      requires Valid() && 0 <= port < NPORTS && width in {1, 2, 4} && off + width <= size && |val| == 8 * size
      ensures t == sent + Deliveries(Around(port, size), Out, port, val, Pass(Around(port, size), Out, size, width, off))
    {
      hide Collected;
      var at := (port + off) % 65536;
      var lanes := val[8 * off..8 * (off + width)];
      ghost var cs := Around(port, size);
      ghost var chain := chains[at];
      assert ChainAt(at);
      assert forall j {:trigger chain[j].next} :: 0 <= j < |chain| ==>
                                                    chain[j].next == if j == |chain| - 1 then null else chain[j + 1];
      assert cs[off] == Contents(chain);
      CollectedEnds(cs, port, val, sent, size, width, off);
      hide AroundOf, Contents, Linked, Wanted, Callback, Deliveries, Pass;
      t := sent;
      var p := head[at];
      ghost var k := 0;
      while p != null
        invariant 0 <= k <= |chain| && p == (if k == |chain| then null else chain[k])
        invariant t == Collected(cs, port, val, sent, size, width, off, k)
        decreases |chain| - k
      {
        var q := p.next;
        CollectedStep(cs, port, val, sent, size, width, off, k, p.reg);
        if Wanted(p.reg, Out, size, width) {
          t := t + [Sent(Callback(p.reg, Out, width), p.reg.priv, at, width, lanes)];
        }
        p, k := q, k + 1;
      }
    }

    /** One pass of a read: ANDs the answers of every wanted handler into the lanes acc, which stand
        at offset off of the whole result ret. */
    method ReadPass(port: int, off: nat, width: nat, size: nat, acc: Bits, sent: seq<Sent>, answers: nat -> Word,
                    ghost ret: Bits, ghost done: seq<Call>)
      returns (r: Bits, t: seq<Sent>)
      requires Valid() && 0 <= port < NPORTS && width in {1, 2, 4} && off + width <= size
      requires |ret| == 8 * size && |acc| == 8 * width && |sent| == |done| && Fitting(done, size)
      requires Merged(done, answers, size) == Splice(ret, off, acc)
      ensures var calls := Pass(Around(port, size), In, size, width, off);
              && t == sent + Deliveries(Around(port, size), In, port, Ones(8 * size), calls)
              && |r| == 8 * width && Fitting(done + calls, size)
              && Merged(done + calls, answers, size) == Splice(ret, off, r)
    {
      hide Deliver, Deliveries, Widest, Wanted, Callback, Merged, Splice, And, Fitting, Ones;
      var at := (port + off) % 65536;
      ghost var cs := Around(port, size);
      assert ChainAt(at);
      ghost var chain := chains[at];
      assert forall k {:trigger chain[k].next} :: 0 <= k < |chain| ==>
                                                    chain[k].next == if k == |chain| - 1 then null else chain[k + 1];
      assert cs[off] == Contents(chain);
      hide AroundOf, Contents, Linked;
      r, t := acc, sent;
      var p := head[at];
      ghost var k := 0;
      ghost var calls := ChainCalls(cs[off], In, size, width, off, 0);
      NoDeliveries(cs, In, port, Ones(8 * size));
      assert done + calls == done;
      while p != null
        invariant 0 <= k <= |chain| && p == (if k == |chain| then null else chain[k])
        invariant calls == ChainCalls(cs[off], In, size, width, off, k)
        invariant t == sent + Deliveries(cs, In, port, Ones(8 * size), calls)
        invariant |r| == 8 * width && Fitting(done + calls, size)
        invariant Merged(done + calls, answers, size) == Splice(ret, off, r)
        decreases |chain| - k
      {
        var q := p.next;
        WantedIsWidest(p.reg, In, size, width);
        if Wanted(p.reg, In, size, width) {
          ghost var c := Call(off, k, width);
          ReadMerges(calls, done, c, size, answers, ret, r);
          var call := Sent(Callback(p.reg, In, width), p.reg.priv, at, width, []);
          DeliveryOf(cs, In, port, Ones(8 * size), c, p.reg);
          DeliversNext(cs, In, port, Ones(8 * size), sent, calls, c);
          assert call == Deliver(cs, In, port, Ones(8 * size), c);
          r := And(r, answers(|t|)[..8 * width]);
          t := t + [call];
          calls := calls + [c];
        } else {
          assert calls + [] == calls;
        }
        p, k := q, k + 1;
      }
    }

    method Outb(port: int, val: Bits) returns (t: seq<Sent>)
      requires Valid() && 0 <= port < NPORTS && |val| == 8
      ensures t == Deliveries(Around(port, 1), Out, port, val, AccessCalls(Around(port, 1), Out))
      ensures t == AllSends(Around(port, 1), Out, port, val)
    {
      hide AllSends;
      AccessIsSends(Around(port, 1), Out, port, val);
      t := WritePass(port, 0, 1, 1, val, []);
    }

    method Outw(port: int, val: Bits) returns (t: seq<Sent>)
      requires Valid() && 0 <= port < NPORTS && |val| == 16
      ensures t == Deliveries(Around(port, 2), Out, port, val, AccessCalls(Around(port, 2), Out))
      ensures t == AllSends(Around(port, 2), Out, port, val)
    {
      hide Deliveries, Pass, AllSends;
      AccessIsSends(Around(port, 2), Out, port, val);
      ghost var cs := Around(port, 2);
      NoDeliveries(cs, Out, port, val);
      t := WritePass(port, 0, 2, 2, val, []);
      ghost var l := Pass(cs, Out, 2, 2, 0);
      ghost var b0, b1 := Pass(cs, Out, 2, 1, 0), Pass(cs, Out, 2, 1, 1);
      DeliveriesAppend(cs, Out, port, val, l, b0 + b1);
      DeliveriesAppend(cs, Out, port, val, b0, b1);
      for i: nat := 0 to 2
        invariant t == Deliveries(cs, Out, port, val, l) +
                       if i == 0 then [] else if i == 1 then Deliveries(cs, Out, port, val, b0)
                       else Deliveries(cs, Out, port, val, b0 + b1)
      {
        t := WritePass(port, i, 1, 2, val, t);
      }
    }

    method Outl(port: int, val: Bits) returns (t: seq<Sent>)
      requires Valid() && 0 <= port < NPORTS && |val| == 32
      ensures t == Deliveries(Around(port, 4), Out, port, val, AccessCalls(Around(port, 4), Out))
      ensures t == AllSends(Around(port, 4), Out, port, val)
    {
      hide Deliveries, Pass, AllSends;
      AccessIsSends(Around(port, 4), Out, port, val);
      ghost var cs := Around(port, 4);
      NoDeliveries(cs, Out, port, val);
      ghost var l := Pass(cs, Out, 4, 4, 0);
      ghost var w0, w2 := Pass(cs, Out, 4, 2, 0), Pass(cs, Out, 4, 2, 2);
      ghost var b0, b1 := Pass(cs, Out, 4, 1, 0), Pass(cs, Out, 4, 1, 1);
      ghost var b2, b3 := Pass(cs, Out, 4, 1, 2), Pass(cs, Out, 4, 1, 3);
      DeliveriesAppend(cs, Out, port, val, l + (w0 + w2), b0 + b1 + b2 + b3);
      DeliveriesAppend(cs, Out, port, val, l, w0 + w2);
      DeliveriesAppend(cs, Out, port, val, w0, w2);
      DeliveriesAppend(cs, Out, port, val, b0 + b1 + b2, b3);
      DeliveriesAppend(cs, Out, port, val, b0 + b1, b2);
      DeliveriesAppend(cs, Out, port, val, b0, b1);
      t := WritePass(port, 0, 4, 4, val, []);
      t := WritePass(port, 0, 2, 4, val, t);
      t := WritePass(port, 2, 2, 4, val, t);
      ghost var wide := t;
      assert wide == Deliveries(cs, Out, port, val, l + (w0 + w2));
      for i: nat := 0 to 4
        invariant t == wide + if i == 0 then [] else if i == 1 then Deliveries(cs, Out, port, val, b0)
                              else if i == 2 then Deliveries(cs, Out, port, val, b0 + b1)
                              else if i == 3 then Deliveries(cs, Out, port, val, b0 + b1 + b2)
                              else Deliveries(cs, Out, port, val, b0 + b1 + b2 + b3)
      {
        t := WritePass(port, i, 1, 4, val, t);
      }
    }

    method Inb(port: int, answers: nat -> Word) returns (ret: Bits, t: seq<Sent>)
      requires Valid() && 0 <= port < NPORTS
      ensures var calls := AccessCalls(Around(port, 1), In);
              && Fitting(calls, 1) && ret == Merged(calls, answers, 1)
              && t == Deliveries(Around(port, 1), In, port, Ones(8), calls)
      ensures t == AllSends(Around(port, 1), In, port, Ones(8)) && |ret| == 8 && Answers(ret, t, port, answers)
    {
      hide AllSends, Answers;
      AccessIsSends(Around(port, 1), In, port, Ones(8));
      ret := Ones(8);
      ghost var none: seq<Call> := [];
      SpliceAll(ret);
      ret, t := ReadPass(port, 0, 1, 1, ret, [], answers, Ones(8), none);
      assert none + Pass(Around(port, 1), In, 1, 1, 0) == Pass(Around(port, 1), In, 1, 1, 0);
      SpliceWhole(Ones(8), ret);
      ReadIsAnswers(Around(port, 1), port, answers);
    }

    method Inw(port: int, answers: nat -> Word) returns (ret: Bits, t: seq<Sent>)
      requires Valid() && 0 <= port < NPORTS
      ensures var calls := AccessCalls(Around(port, 2), In);
              && Fitting(calls, 2) && ret == Merged(calls, answers, 2)
              && t == Deliveries(Around(port, 2), In, port, Ones(16), calls)
      ensures t == AllSends(Around(port, 2), In, port, Ones(16)) && |ret| == 16 && Answers(ret, t, port, answers)
    {
      hide Deliveries, Pass, Merged, Fitting, Splice, AllSends, Answers;
      ghost var cs := Around(port, 2);
      ret := Ones(16);
      ghost var all: seq<Call> := [];
      SpliceAll(ret);
      NothingYet(cs, port, answers, 2);
      ret, t := ReadPass(port, 0, 2, 2, ret, [], answers, ret, all);
      SpliceWhole(Ones(16), ret);
      all := all + Pass(cs, In, 2, 2, 0);
      assert all == Pass(cs, In, 2, 2, 0);
      var bytes := [ret[..8], ret[8..]];
      for i: nat := 0 to 2
        invariant |bytes| == 2 && |bytes[0]| == |bytes[1]| == 8
        invariant t == Deliveries(cs, In, port, Ones(16), all)
        invariant Fitting(all, 2) && Merged(all, answers, 2) == bytes[0] + bytes[1]
        invariant all == [] + Pass(cs, In, 2, 2, 0) +
                         if i == 0 then [] else if i == 1 then Pass(cs, In, 2, 1, 0)
                         else Pass(cs, In, 2, 1, 0) + Pass(cs, In, 2, 1, 1)
      {
        ghost var whole := bytes[0] + bytes[1];
        SpliceByte2(bytes, i, bytes[i]);
        var b;
        b, t := ReadPass(port, i, 1, 2, bytes[i], t, answers, whole, all);
        SpliceByte2(bytes, i, b);
        DeliveriesAppend(cs, In, port, Ones(16), all, Pass(cs, In, 2, 1, i));
        bytes := bytes[i := b];
        all := all + Pass(cs, In, 2, 1, i);
      }
      ret := bytes[0] + bytes[1];
      assert all == AccessCalls(cs, In);
      hide AccessCalls;
      AccessIsSends(cs, In, port, Ones(16));
      ReadIsAnswers(cs, port, answers);
    }

    method Inl(port: int, answers: nat -> Word) returns (ret: Bits, t: seq<Sent>)
      requires Valid() && 0 <= port < NPORTS
      ensures var calls := AccessCalls(Around(port, 4), In);
              && Fitting(calls, 4) && ret == Merged(calls, answers, 4)
              && t == Deliveries(Around(port, 4), In, port, Ones(32), calls)
      ensures t == AllSends(Around(port, 4), In, port, Ones(32)) && |ret| == 32 && Answers(ret, t, port, answers)
    {
      hide Deliveries, Pass, Merged, Fitting, Splice, AllSends, Answers;
      AccessIsSends(Around(port, 4), In, port, Ones(32));
      ghost var cs := Around(port, 4);
      ghost var all: seq<Call>;
      ret, t, all := WideReads(port, answers);
      var bytes := [ret[..8], ret[8..16], ret[16..24], ret[24..]];
      ghost var wide := all;
      for i: nat := 0 to 4
        invariant |bytes| == 4 && |bytes[0]| == |bytes[1]| == |bytes[2]| == |bytes[3]| == 8
        invariant t == Deliveries(cs, In, port, Ones(32), all)
        invariant Fitting(all, 4) && Merged(all, answers, 4) == bytes[0] + bytes[1] + bytes[2] + bytes[3]
        invariant all == wide + BytePasses(cs, i)
      {
        ghost var whole := bytes[0] + bytes[1] + bytes[2] + bytes[3];
        SpliceByte4(bytes, i, bytes[i]);
        var b;
        b, t := ReadPass(port, i, 1, 4, bytes[i], t, answers, whole, all);
        SpliceByte4(bytes, i, b);
        DeliveriesAppend(cs, In, port, Ones(32), all, Pass(cs, In, 4, 1, i));
        bytes := bytes[i := b];
        all := all + Pass(cs, In, 4, 1, i);
      }
      ret := bytes[0] + bytes[1] + bytes[2] + bytes[3];
      FourPasses(cs);
      ReadIsAnswers(cs, port, answers);
    }

    /** The 32-bit and 16-bit passes of a 32-bit read. */
    method WideReads(port: int, answers: nat -> Word) returns (ret: Bits, t: seq<Sent>, ghost all: seq<Call>)
      requires Valid() && 0 <= port < NPORTS
      ensures var cs := Around(port, 4);
              && all == Pass(cs, In, 4, 4, 0) + (Pass(cs, In, 4, 2, 0) + Pass(cs, In, 4, 2, 2))
              && Fitting(all, 4) && ret == Merged(all, answers, 4)
              && t == Deliveries(cs, In, port, Ones(32), all)
    {
      hide Deliveries, Pass, Merged, Fitting, Splice;
      ghost var cs := Around(port, 4);
      ret := Ones(32);
      all := [];
      SpliceAll(ret);
      NothingYet(cs, port, answers, 4);
      ret, t := ReadPass(port, 0, 4, 4, ret, [], answers, ret, all);
      SpliceWhole(Ones(32), ret);
      assert all + Pass(cs, In, 4, 4, 0) == Pass(cs, In, 4, 4, 0);
      all := Pass(cs, In, 4, 4, 0);
      var low, high := ret[..16], ret[16..];
      SpliceHalves(ret, low, high);
      low, t := ReadPass(port, 0, 2, 4, low, t, answers, ret, all);
      SpliceHalves(ret, low, high);
      DeliveriesAppend(cs, In, port, Ones(32), all, Pass(cs, In, 4, 2, 0));
      all := all + Pass(cs, In, 4, 2, 0);
      ghost var half := low + high;
      SpliceHalves(half, low, high);
      high, t := ReadPass(port, 2, 2, 4, high, t, answers, half, all);
      SpliceHalves(half, low, high);
      DeliveriesAppend(cs, In, port, Ones(32), all, Pass(cs, In, 4, 2, 2));
      all := all + Pass(cs, In, 4, 2, 2);
      ret := low + high;
    }
  }

  function BytePasses(cs: seq<seq<Registration>>, n: nat): seq<Call>
    requires n <= 4 == |cs|
  {
    if n == 0 then [] else BytePasses(cs, n - 1) + Pass(cs, In, 4, 1, n - 1)
  }

  lemma FourPasses(cs: seq<seq<Registration>>)
    requires |cs| == 4
    ensures BytePasses(cs, 4) == Pass(cs, In, 4, 1, 0) + Pass(cs, In, 4, 1, 1) + Pass(cs, In, 4, 1, 2) + Pass(cs, In, 4, 1, 3)
  {
    hide Pass;
    assert BytePasses(cs, 1) == Pass(cs, In, 4, 1, 0);
    assert BytePasses(cs, 2) == Pass(cs, In, 4, 1, 0) + Pass(cs, In, 4, 1, 1);
  }

  lemma NothingYet(cs: seq<seq<Registration>>, port: int, answers: nat -> Word, size: nat)
    ensures Fitting([], size) && Merged([], answers, size) == Ones(8 * size)
    ensures Deliveries(cs, In, port, Ones(8 * size), []) == []
  {
  }

  lemma SpliceByte2(bytes: seq<Bits>, i: nat, b: Bits)
    requires |bytes| == 2 && |bytes[0]| == |bytes[1]| == 8 && i < 2 && |b| == 8
    ensures var c := bytes[i := b];
            Splice(bytes[0] + bytes[1], i, b) == c[0] + c[1]
  {
  }

  lemma SpliceByte4(bytes: seq<Bits>, i: nat, b: Bits)
    requires |bytes| == 4 && |bytes[0]| == |bytes[1]| == |bytes[2]| == |bytes[3]| == 8 && i < 4 && |b| == 8
    ensures var c := bytes[i := b];
            Splice(bytes[0] + bytes[1] + bytes[2] + bytes[3], i, b) == c[0] + c[1] + c[2] + c[3]
  {
  }

  lemma SpliceHalves(ret: Bits, low: Bits, high: Bits)
    requires |ret| == 32 && |low| == |high| == 16
    ensures Splice(ret, 0, low) == low + ret[16..]
    ensures Splice(ret, 2, high) == ret[..16] + high
    ensures (low + high)[..16] == low && (low + high)[16..] == high
  {
  }

  lemma ReadMerges(calls: seq<Call>, done: seq<Call>, c: Call, size: nat, answers: nat -> Word, ret: Bits, acc: Bits)
    requires 0 <= c.off && 0 <= c.width <= 4 && c.off + c.width <= size && |ret| == 8 * size && |acc| == 8 * c.width
    requires Fitting(done + calls, size) && Merged(done + calls, answers, size) == Splice(ret, c.off, acc)
    ensures Fitting(done + (calls + [c]), size)
    ensures Merged(done + (calls + [c]), answers, size) ==
            Splice(ret, c.off, And(acc, answers(|done| + |calls|)[..8 * c.width]))
  {
    hide Merged, Splice, And, Fitting;
    var all := done + calls;
    Regroup(done, calls, c);
    MergedStep(all, c, answers, size, ret, acc);
  }

  lemma Regroup(done: seq<Call>, calls: seq<Call>, c: Call)
    ensures done + calls + [c] == done + (calls + [c]) && |done + calls| == |done| + |calls|
  {
  }

  lemma DeliversNext(cs: seq<seq<Registration>>, d: Direction, port: int, val: Bits, sent: seq<Sent>, calls: seq<Call>,
                     c: Call)
    ensures sent + Deliveries(cs, d, port, val, calls + [c]) ==
            sent + Deliveries(cs, d, port, val, calls) + [Deliver(cs, d, port, val, c)]
  {
  }

  /** What a write pass has sent after the first k entries of its chain. */
  ghost function Collected(cs: seq<seq<Registration>>, port: int, val: Bits, sent: seq<Sent>, size: int, width: int,
                           off: int, k: nat): seq<Sent>
    requires 0 <= off < |cs| && k <= |cs[off]|
  {
    sent + Deliveries(cs, Out, port, val, ChainCalls(cs[off], Out, size, width, off, k))
  }

  lemma CollectedEnds(cs: seq<seq<Registration>>, port: int, val: Bits, sent: seq<Sent>, size: int, width: int, off: int)
    requires 0 <= off < |cs|
    ensures Collected(cs, port, val, sent, size, width, off, 0) == sent
    ensures Collected(cs, port, val, sent, size, width, off, |cs[off]|) ==
            sent + Deliveries(cs, Out, port, val, Pass(cs, Out, size, width, off))
  {
  }

  lemma CollectedStep(cs: seq<seq<Registration>>, port: int, val: Bits, sent: seq<Sent>, size: int, width: int, off: int,
                      k: nat, r: Registration)
    requires 0 <= off < |cs| && k < |cs[off]| && cs[off][k] == r
    requires width in {1, 2, 4} && off + width <= size && |val| == 8 * size
    ensures Collected(cs, port, val, sent, size, width, off, k + 1) ==
            Collected(cs, port, val, sent, size, width, off, k) +
            if Wanted(r, Out, size, width)
            then [Sent(Callback(r, Out, width), r.priv, (port + off) % 65536, width, val[8 * off..8 * (off + width)])]
            else []
    ensures Collected(cs, port, val, sent, size, width, off, k) + [] ==
            Collected(cs, port, val, sent, size, width, off, k)
  {
  }

  lemma NoDeliveries(cs: seq<seq<Registration>>, d: Direction, port: int, val: Bits)
    ensures Deliveries(cs, d, port, val, []) == []
  {
  }

  lemma SpliceAll(ret: Bits)
    ensures Splice(ret, 0, ret) == ret
  {
  }

  lemma SpliceWhole(ret: Bits, a: Bits)
    requires |a| == |ret|
    ensures Splice(ret, 0, a) == a
  {
  }

  lemma DeliveryOf(cs: seq<seq<Registration>>, d: Direction, port: int, val: Bits, c: Call, r: Registration)
    requires 0 <= c.off < |cs| && 0 <= c.k < |cs[c.off]| && cs[c.off][c.k] == r
    requires 0 <= c.width && 8 * (c.off + c.width) <= |val|
    ensures Deliver(cs, d, port, val, c) == Sent(Callback(r, d, c.width), r.priv, (port + c.off) % 65536, c.width,
                                                 if d == Out then val[8 * c.off..8 * (c.off + c.width)] else [])
  {
  }

  predicate Touched(p: int, base: nat, size: nat, step: nat)
    requires step > 0
  {
    base <= p < base + size && (p - base) % step == 0
  }

  lemma TouchedBounds(base: nat, size: nat, step: nat)
    requires step > 0
    ensures forall p :: Touched(p, base, size, step) ==> base <= p < base + size
  {
  }

  /** The next port touched after those below base + c. */
  lemma TouchedNext(base: nat, size: nat, step: nat, c: nat)
    requires step > 0 && c % step == 0 && c < size
    ensures forall p :: Touched(p, base, size, step) && p < base + c + step <==>
                        (Touched(p, base, size, step) && p < base + c) || p == base + c
  {
    forall p
      ensures Touched(p, base, size, step) && p < base + c + step <==>
              (Touched(p, base, size, step) && p < base + c) || p == base + c
    {
      assert base + c - base == c;
      NextTouched(p - base, c, step);
    }
  }

  lemma NextTouched(x: int, c: nat, step: nat)
    requires step > 0 && c % step == 0
    ensures x % step == 0 && c <= x < c + step ==> x == c
  {
    if x % step == 0 && c <= x < c + step {
      assert x == x / step * step && c == c / step * step;
      assert (x / step - c / step) * step == x - c;
      SmallMultiple(x / step - c / step, step);
    }
  }

  lemma SmallMultiple(k: int, step: int)
    requires step > 0 && 0 <= k * step < step
    ensures k == 0
  {
  }

  lemma StepAligned(c: nat, step: nat)
    requires step > 0 && c % step == 0
    ensures (c + step) % step == 0
  {
    assert c + step == (c / step + 1) * step;
    MultipleModulo(c / step + 1, step);
  }

  lemma MultipleModulo(k: nat, step: nat)
    requires step > 0
    ensures k * step % step == 0
  {
    var r := k * step % step;
    var q := k * step / step;
    assert (k - q) * step == r;
    SmallMultiple(k - q, step);
  }
}
