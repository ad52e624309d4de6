/** What a peripheral sees of its channel, in every service mode: exactly base count + 1 units, at consecutive
    addresses of one 64 KB page, the last one flagged. */
module DmaUnits {
  import opened Arith
  import opened Dma
  import opened DmaRefresh
  import opened DmaTransfers

  /** Where unit i of a program goes. */
  function AddressAt(cf: Config, p: Program, i: int): Address {
    if i == 0 then p.ab
    else Address(p.ab.page & cf.pageMask, (if p.mode / 32 % 2 == 1 then p.ab.offset - i else p.ab.offset + i) % 65536)
  }

  lemma AddressSteps(cf: Config, p: Program, i: int)
    requires i >= 0
    ensures NextAddress(AddressAt(cf, p, i), p.mode / 32 % 2 == 1, cf.pageMask) == AddressAt(cf, p, i + 1)
  {
    PageStable(p.ab.page, cf.pageMask);
    Wraps(p.ab.offset + i);
    Wraps(p.ab.offset - i);
  }

  lemma PageStable(page: bv16, m: bv16)
    ensures page & m & m == page & m
  {
  }

  lemma Wraps(x: int)
    ensures (x % 65536 + 1) % 65536 == (x + 1) % 65536 && (x % 65536 - 1) % 65536 == (x - 1) % 65536
  {
  }

  /** All units of a program whose page fits the page register stay in its page. */
  lemma SamePage(cf: Config, p: Program, i: int)
    requires p.ab.page & cf.pageMask == p.ab.page
    ensures AddressAt(cf, p, i).page == p.ab.page
  {
  }

  /** Outside software transfers a peripheral channel is never outranked: it is served whenever it asks,
      is enabled and unmasked, and is not a cascade. */
  lemma ServedExactly(s: State, c: int)
    requires Sane(s) && 1 <= c < 4 && !s.reg.soft
    ensures CanService(s, c) <==>
            && s.reg.command / 4 % 2 == 0 && c in s.reg.enabled && c !in s.reg.mask && c in Requests(s)
            && s.prog[c].mode / 64 % 4 != 3
  {
  }

  predicate Armed(s: State, c: int)
    requires Sane(s) && 0 <= c < 4
  {
    && !s.reg.soft && s.reg.command / 4 % 2 == 0 && c in s.reg.enabled && c !in s.reg.mask
    && s.prog[c].mode / 64 % 4 != 3 && c !in s.xt.eop && c !in s.reg.advPend
  }

  /** Ready to move unit i. */
  predicate AtUnit(cf: Config, s: State, c: int, i: int)
    requires Sane(s) && 0 <= c < 4
  {
    && Armed(s, c) && 0 <= i <= s.prog[c].cb
    && s.cur[c] == Current(AddressAt(cf, s.prog[c], i), s.prog[c].cb - i)
  }

  /** Masked by its terminal count. */
  predicate Ended(s: State, c: int)
    requires Sane(s) && 0 <= c < 4
  {
    !s.reg.soft && c in s.reg.mask && c in s.reg.stat && c !in s.reg.advPend
  }

  predicate Own(e: Event, c: int, p: Program) {
    || (e.Read? && e.c == c && p.mode / 4 % 4 in {0, 2})
    || (e.Write? && e.c == c && p.mode / 4 % 4 in {0, 1})
  }

  /** What a unit reported, and the address it went to. */
  datatype Unit = Unit(at: Address, code: int)

  predicate Over(code: int) {
    code != -1 && code / 0x1_0000 % 2 == 1
  }

  function Moving(cf: Config, s: State, e: Event, c: int): Unit
    requires Sane(s) && 0 <= c < 4
  {
    Unit(s.cur[c].ac,
         if e.Read? then ChannelRead(cf, s, c).1
         else if e.Write? then ChannelWrite(cf, s, c, e.val).1
         else -1)
  }

  // ----- one unit -----

  lemma UnitFinishes(cf: Config, s: State, c: int, i: int)
    requires Sane(s) && 1 <= c < 4 && AtUnit(cf, s, c, i)
    ensures var t := FinishTransfer(Moved(cf, s, c), c);
            && Terminal(Moved(cf, s, c), c) == (i == s.prog[c].cb)
            && (c in t.reg.stat <==> c in s.reg.stat || i == s.prog[c].cb)
            && if i < s.prog[c].cb then AtUnit(cf, t, c, i + 1)
               else if s.prog[c].mode / 16 % 2 == 1 then AtUnit(cf, t, c, 0)
               else Ended(t, c)
  {
    AddressSteps(cf, s.prog[c], i);
    hide NextAddress, AddressAt;
    assert AddressAt(cf, s.prog[c], 0) == s.prog[c].ab by {
      AddressStarts(cf, s.prog[c]);
    }
  }

  lemma AddressStarts(cf: Config, p: Program)
    ensures AddressAt(cf, p, 0) == p.ab
  {
  }

  /** A state that looks the same to channel c is at the same unit. */
  lemma UndisturbedUnit(cf: Config, s: State, t: State, c: int, i: int)
    requires Sane(s) && Sane(t) && 0 <= c < 4 && Undisturbed(s, t, c)
    ensures AtUnit(cf, s, c, i) ==> AtUnit(cf, t, c, i)
    ensures Ended(s, c) ==> Ended(t, c)
  {
  }

  lemma CompleteKeepsUnit(cf: Config, s: State, c: int, i: int)
    requires Sane(s) && 1 <= c < 4
    ensures AtUnit(cf, FinishTransfer(s, c), c, i) ==> AtUnit(cf, Complete(cf, s, c), c, i)
    ensures Ended(FinishTransfer(s, c), c) ==> Ended(Complete(cf, s, c), c)
    ensures c in FinishTransfer(s, c).reg.stat <==> c in Complete(cf, s, c).reg.stat
  {
    hide FinishTransfer, Reconcile, AtUnit, Ended;
    ReconcileLeaves(cf, FinishTransfer(s, c), c);
    UndisturbedUnit(cf, FinishTransfer(s, c), Reconcile(cf, FinishTransfer(s, c)), c, i);
  }

  lemma StoredUnit(cf: Config, s: State, c: int, val: int, i: int)
    requires Sane(s) && 0 <= c < 4
    ensures Undisturbed(s, Stored(s, c, val), c)
    ensures c !in s.reg.advPend ==> WithoutPending(Moved(cf, s, c), c) == Moved(cf, s, c)
  {
  }

  lemma FetchedRange(s: State, c: int)
    requires Sane(s) && 0 <= c < 4
    ensures Fetched(s, c) == VERIFY || 0 <= Fetched(s, c) < 256
  {
  }

  /** The channel's device, or software, is asking for service. */
  predicate Asking(s: State, c: int) {
    c in Requests(s)
  }

  /** One unit of a channel that is asking. */
  lemma OwnUnit(cf: Config, s: State, buffer: seq<int>, e: Event, c: int, i: int)
    requires Sane(s) && |buffer| == 65536 && 1 <= c < 4 && AtUnit(cf, s, c, i) && Own(e, c, s.prog[c])
    requires Asking(s, c)
    ensures var t := Step(cf, s, buffer, e).0;
            var u := Moving(cf, s, e, c);
            && t.prog == s.prog && u.at == AddressAt(cf, s.prog[c], i)
            && u.code != -1 && Over(u.code) == (i == s.prog[c].cb)
            && (c in t.reg.stat <==> c in s.reg.stat || i == s.prog[c].cb)
            && if i < s.prog[c].cb then AtUnit(cf, t, c, i + 1)
               else if s.prog[c].mode / 16 % 2 == 1 then AtUnit(cf, t, c, 0)
               else Ended(t, c)
  {
    hide Complete, Moved, Fetched, Stored, CanService, AddressAt, FinishTransfer, Terminal;
    ServedExactly(s, c);
    FetchedRange(s, c);
    var s' := if e.Write? then Stored(s, c, e.val) else s;
    StoredUnit(cf, s, c, if e.Write? then e.val else 0, i);
    assert Undisturbed(s, s', c);
    UndisturbedUnit(cf, s, s', c, i);
    StoredUnit(cf, s', c, 0, i);
    UnitFinishes(cf, s', c, i);
    CompleteKeepsUnit(cf, Moved(cf, s', c), c, if i < s.prog[c].cb then i + 1 else 0);
  }

  // ----- whole runs -----

  predicate Related(e: Event, c: int, p: Program) {
    Own(e, c, p) || Foreign(e, c)
  }

  /** A call of channel c: whether it was asking, and what became of it. */
  datatype Call = Call(asking: bool, unit: Unit)

  function Calls(cf: Config, s: State, buffer: seq<int>, evs: seq<Event>, c: int, p: Program): seq<Call>
    requires Sane(s) && |buffer| == 65536 && 0 <= c < 4
    decreases |evs|
  {
    if evs == [] then []
    else
      var r := Step(cf, s, buffer, evs[0]);
      (if Own(evs[0], c, p) then [Call(Asking(s, c), Moving(cf, s, evs[0], c))] else [])
      + Calls(cf, r.0, r.1, evs[1..], c, p)
  }

  predicate Served(u: Unit) {
    u.code != -1
  }

  /** The units that were moved. */
  function Units(calls: seq<Call>): seq<Unit>
    decreases |calls|
  {
    if calls == [] then []
    else (if Served(calls[0].unit) then [calls[0].unit] else []) + Units(calls[1..])
  }

  /** Whether the program still has a unit after j. */
  predicate Remaining(p: Program, j: int) {
    p.mode / 16 % 2 == 1 || j <= p.cb
  }

  /** Every call is served exactly when the channel is asking and has units left. */
  predicate Answered(p: Program, j: int, calls: seq<Call>)
    decreases |calls|
  {
    calls == [] ||
    (var served := Served(calls[0].unit);
     && (served <==> calls[0].asking && Remaining(p, j))
     && Answered(p, if served then j + 1 else j, calls[1..]))
  }

  /** Where the channel stands after j units in all. */
  predicate After(cf: Config, s: State, c: int, p: Program, j: int)
    requires Sane(s) && 0 <= c < 4 && p.cb >= 0
  {
    && s.prog[c] == p
    && if p.mode / 16 % 2 == 1 then AtUnit(cf, s, c, j % (p.cb + 1))
       else if j <= p.cb then AtUnit(cf, s, c, j)
       else j == p.cb + 1 && Ended(s, c)
  }

  /** What unit j must be: at its address, and flagged as the last of its round exactly when it is. */
  predicate Expected(cf: Config, p: Program, j: int, u: Unit)
    requires p.cb >= 0
  {
    var k := if p.mode / 16 % 2 == 1 then j % (p.cb + 1) else j;
    k <= p.cb && u.at == AddressAt(cf, p, k) && Over(u.code) == (k == p.cb)
  }

  /** A call with the request down, or past the end, is refused and changes nothing. */
  lemma RefusedUnit(cf: Config, s: State, buffer: seq<int>, e: Event, c: int, i: int)
    requires Sane(s) && |buffer| == 65536 && 1 <= c < 4 && Own(e, c, s.prog[c])
    requires Ended(s, c) || (AtUnit(cf, s, c, i) && !Asking(s, c))
    ensures Step(cf, s, buffer, e).0 == s && Moving(cf, s, e, c).code == -1
  {
    hide Pick, AddressAt, Moved;
  }

  lemma StepAfter(cf: Config, s: State, buffer: seq<int>, e: Event, c: int, p: Program, j: int)
    requires Sane(s) && |buffer| == 65536 && 1 <= c < 4 && p.cb >= 0 && j >= 0 && After(cf, s, c, p, j) && Related(e, c, p)
    ensures var t, u := Step(cf, s, buffer, e).0, Moving(cf, s, e, c);
            var served := Own(e, c, p) && Served(u);
            && (Own(e, c, p) ==> (Served(u) <==> Asking(s, c) && Remaining(p, j)))
            && (served ==> Expected(cf, p, j, u))
            && (Own(e, c, p) && !Served(u) ==> t == s)
            && After(cf, t, c, p, if served then j + 1 else j)
            && (c in t.reg.stat <==> c in s.reg.stat || (served && Over(u.code)))
  {
    hide Step, AddressAt, Over, Requests;
    var k := if p.mode / 16 % 2 == 1 then j % (p.cb + 1) else j;
    NextPosition(j, p.cb + 1);
    if !Own(e, c, p) {
      ForeignLeaves(cf, s, buffer, e, c);
      UndisturbedUnit(cf, s, Step(cf, s, buffer, e).0, c, k);
    } else if k <= p.cb && Asking(s, c) {
      OwnUnit(cf, s, buffer, e, c, k);
    } else {
      RefusedUnit(cf, s, buffer, e, c, k);
    }
  }

  predicate Flagged(units: seq<Unit>) {
    exists k :: 0 <= k < |units| && Over(units[k].code)
  }

  lemma NoneFlagged()
    ensures !Flagged([])
  {
  }

  lemma FlaggedCons(u: Unit, rest: seq<Unit>)
    ensures Flagged([u] + rest) <==> Over(u.code) || Flagged(rest)
  {
    var units := [u] + rest;
    if Over(u.code) {
      assert Over(units[0].code);
    }
    forall k | 0 <= k < |rest| && Over(rest[k].code) ensures Flagged(units) {
      assert Over(units[k + 1].code);
    }
  }

  lemma UnitsCons(call: Call, rest: seq<Call>)
    ensures Units([call] + rest) == (if Served(call.unit) then [call.unit] else []) + Units(rest)
  {
    assert ([call] + rest)[1..] == rest;
  }

  lemma AnsweredCons(p: Program, j: int, call: Call, rest: seq<Call>)
    requires Served(call.unit) <==> call.asking && Remaining(p, j)
    requires Answered(p, if Served(call.unit) then j + 1 else j, rest)
    ensures Answered(p, j, [call] + rest)
  {
    assert ([call] + rest)[1..] == rest;
  }

  /** Whole transfers.  With a program loaded, the request line rising and falling at any moment, and any other
      traffic in between: a call is served exactly when the channel is asking and has units left, and otherwise
      changes nothing; the units moved are at base, base + 1 (or - 1), base + 2, ...; the (base count + 1)-th is
      flagged as the last; then the round repeats for ever if the channel re-initialises itself, and otherwise no
      further unit is moved.  The status bit is set exactly when a last unit was flagged. */
  lemma {:induction false} WholeTransfer(cf: Config, s: State, buffer: seq<int>, evs: seq<Event>, c: int, p: Program, j: int)
    requires Sane(s) && |buffer| == 65536 && 1 <= c < 4 && p.cb >= 0 && j >= 0 && After(cf, s, c, p, j)
    requires forall e :: e in evs ==> Related(e, c, p)
    ensures var calls := Calls(cf, s, buffer, evs, c, p);
            && Answered(p, j, calls)
            && After(cf, Run(cf, s, buffer, evs).0, c, p, j + |Units(calls)|)
            && (forall k :: 0 <= k < |Units(calls)| ==> Expected(cf, p, j + k, Units(calls)[k]))
    ensures c in Run(cf, s, buffer, evs).0.reg.stat <==>
            c in s.reg.stat || Flagged(Units(Calls(cf, s, buffer, evs, c, p)))
    decreases |evs|
  {
    NoneFlagged();
    hide Step, Expected, After, Own, Foreign, Moving, Over, Flagged, Asking, Served, Remaining;
    if evs == [] {
    } else {
      var r, e := Step(cf, s, buffer, evs[0]), evs[0];
      assert e in evs;
      StepAfter(cf, s, buffer, e, c, p, j);
      var call := Call(Asking(s, c), Moving(cf, s, e, c));
      var served := Own(e, c, p) && Served(call.unit);
      WholeTransfer(cf, r.0, r.1, evs[1..], c, p, if served then j + 1 else j);
      var rest := Calls(cf, r.0, r.1, evs[1..], c, p);
      if Own(e, c, p) {
        UnitsCons(call, rest);
        AnsweredCons(p, j, call, rest);
        if served {
          FlaggedCons(call.unit, Units(rest));
          var units := Units(Calls(cf, s, buffer, evs, c, p));
          assert units == [call.unit] + Units(rest);
          forall k | 0 <= k < |units| ensures Expected(cf, p, j + k, units[k]) {
            if k > 0 {
              assert units[k] == Units(rest)[k - 1];
              assert Expected(cf, p, j + 1 + (k - 1), Units(rest)[k - 1]);
            }
          }
        } else {
          assert [] + Units(rest) == Units(rest);
        }
      } else {
        assert [] + rest == rest;
      }
    }
  }
}
