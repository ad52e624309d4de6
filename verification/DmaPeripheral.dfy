/** A peripheral channel is an ideal machine of its own: in single, demand and block mode, with its lines and its
    external end of process, whatever the rest of the controller does. */
module DmaPeripheral {
  import opened Dma
  import opened DmaData
  import opened DmaRefresh
  import opened DmaTransfers
  import opened DmaUnits

  /** The unit that is next, or none after the last; the request line, the software request, ownership of the bus,
      and the external end of process. */
  datatype Ideal = Ideal(next: int, ended: bool, line: bool, soft: bool, owner: bool, eop: bool)

  predicate Asks(m: Ideal) {
    m.line || m.soft || m.owner
  }

  predicate Last(m: Ideal, p: Program) {
    m.next == p.cb || m.eop
  }

  /** A call: refused unless asking and not ended; the last unit, by count or by external end of process, withdraws
      every claim but the line, and starts over or ends. */
  function Called(m: Ideal, p: Program): Ideal {
    if m.ended || !Asks(m) then m
    else if Last(m, p) then
      Ideal(if p.mode / 16 % 2 == 1 then 0 else m.next, p.mode / 16 % 2 == 0, m.line, false, false, false)
    else m.(next := m.next + 1, owner := m.owner || p.mode / 64 % 4 in {0, 2})
  }

  function IdealStep(m: Ideal, p: Program, e: Event, c: int): Ideal {
    if Own(e, c, p) then Called(m, p)
    else if e.Line? && e.c == c then m.(line := e.on, owner := m.owner && (e.on || p.mode / 64 % 4 != 0))
    else if e.EndOfProcess? && e.c == c then m.(eop := e.on)
    else m
  }

  /** What the peripheral is told: refused, or a unit at an address and whether it was the last. */
  datatype Answer = Refused | Moved(at: Address, last: bool)

  function IdealAnswer(cf: Config, m: Ideal, p: Program): Answer {
    if m.ended || !Asks(m) then Refused else Answer.Moved(AddressAt(cf, p, m.next), Last(m, p))
  }

  function AnswerOf(u: Unit): Answer {
    if Served(u) then Answer.Moved(u.at, Over(u.code)) else Refused
  }

  // ----- refinement -----

  predicate Claims(s: State, c: int, m: Ideal)
    requires Sane(s) && 0 <= c < 4
  {
    && (c in s.reg.rqPc <==> m.line) && (c in s.xt.sw <==> m.soft)
    && (c in s.xt.demand <==> m.owner && s.prog[c].mode / 64 % 4 == 0)
    && (c in s.xt.block <==> m.owner && s.prog[c].mode / 64 % 4 == 2)
    && (m.owner ==> s.prog[c].mode / 64 % 4 in {0, 2})
  }

  predicate Refines(cf: Config, s: State, c: int, p: Program, m: Ideal)
    requires Sane(s) && 0 <= c < 4
  {
    && s.prog[c] == p && p.mode / 64 % 4 != 3 && p.cb >= 0
    && !s.reg.soft && s.reg.command / 4 % 2 == 0 && c in s.reg.enabled && c !in s.reg.advPend
    && Claims(s, c, m) && (c in s.xt.eop <==> m.eop)
    && (c in s.reg.mask <==> m.ended)
    && (!m.ended ==> 0 <= m.next <= p.cb && s.cur[c] == Current(AddressAt(cf, p, m.next), p.cb - m.next))
  }

  lemma UntouchedRefines(cf: Config, s: State, t: State, c: int, p: Program, m: Ideal)
    requires Sane(s) && Sane(t) && 0 <= c < 4 && Untouched(s, t, c) && Refines(cf, s, c, p, m)
    ensures Refines(cf, t, c, p, m)
  {
    hide AddressAt, Service;
  }

  lemma AsksExactly(cf: Config, s: State, c: int, p: Program, m: Ideal)
    requires Sane(s) && 1 <= c < 4 && Refines(cf, s, c, p, m)
    ensures CanService(s, c) <==> !m.ended && Asks(m)
  {
    assert c in ALL;
    assert c in Requests(s) <==> Asks(m);
    ServedExactly(s, c);
    hide Pick, AddressAt;
  }

  /** The unit itself, before refresh is reconciled. */
  lemma UnitRefines(cf: Config, s: State, c: int, p: Program, m: Ideal)
    requires Sane(s) && 1 <= c < 4 && Refines(cf, s, c, p, m) && !m.ended && Asks(m)
    ensures var t := FinishTransfer(Dma.Moved(cf, s, c), c);
            && Refines(cf, t, c, p, Called(m, p))
            && Terminal(Dma.Moved(cf, s, c), c) == Last(m, p)
            && (c in t.reg.stat <==> c in s.reg.stat || Last(m, p))
  {
    AddressSteps(cf, p, m.next);
    AddressStarts(cf, p);
    hide AddressAt, NextAddress, Disabled, Rotating;
  }

  lemma CompleteRefines(cf: Config, s: State, c: int, p: Program, m: Ideal)
    requires Sane(s) && 1 <= c < 4 && Refines(cf, FinishTransfer(s, c), c, p, m)
    ensures Refines(cf, Complete(cf, s, c), c, p, m)
    ensures c in Complete(cf, s, c).reg.stat <==> c in FinishTransfer(s, c).reg.stat
  {
    hide FinishTransfer, Reconcile, Refines;
    ReconcileLeaves(cf, FinishTransfer(s, c), c);
    UntouchedRefines(cf, FinishTransfer(s, c), Reconcile(cf, FinishTransfer(s, c)), c, p, m);
  }

  lemma StoredRefines(cf: Config, s: State, c: int, val: int, p: Program, m: Ideal)
    requires Sane(s) && 1 <= c < 4 && Refines(cf, s, c, p, m)
    ensures Refines(cf, Stored(s, c, val), c, p, m)
    ensures WithoutPending(Dma.Moved(cf, s, c), c) == Dma.Moved(cf, s, c)
  {
    assert Dma.Moved(cf, s, c).reg.advPend - {c} == Dma.Moved(cf, s, c).reg.advPend;
    hide AddressAt, NextAddress;
  }

  /** A call of the channel's device is answered as the ideal machine answers. */
  lemma CallRefines(cf: Config, s: State, buffer: seq<int>, e: Event, c: int, p: Program, m: Ideal)
    requires Sane(s) && |buffer| == 65536 && 1 <= c < 4 && Refines(cf, s, c, p, m) && Own(e, c, p)
    ensures var t, u := Step(cf, s, buffer, e).0, Moving(cf, s, e, c);
            && Refines(cf, t, c, p, Called(m, p)) && AnswerOf(u) == IdealAnswer(cf, m, p)
            && (c in t.reg.stat <==> c in s.reg.stat || (Served(u) && Over(u.code)))
            && (!Served(u) ==> t == s)
  {
    AsksExactly(cf, s, c, p, m);
    hide Refines, Step, Moving, CanService, Called, Over;
    if m.ended || !Asks(m) {
      RefusedIdeal(cf, m, p);
      CallRefused(cf, s, buffer, e, c, p, m);
    } else {
      CallAnswered(cf, s, buffer, e, c, p, m);
    }
  }

  lemma CallRefused(cf: Config, s: State, buffer: seq<int>, e: Event, c: int, p: Program, m: Ideal)
    requires Sane(s) && |buffer| == 65536 && 1 <= c < 4 && Refines(cf, s, c, p, m) && Own(e, c, p) && !CanService(s, c)
    ensures Step(cf, s, buffer, e).0 == s && !Served(Moving(cf, s, e, c))
  {
    hide CanService, AddressAt;
  }

  lemma CallAnswered(cf: Config, s: State, buffer: seq<int>, e: Event, c: int, p: Program, m: Ideal)
    requires Sane(s) && |buffer| == 65536 && 1 <= c < 4 && Refines(cf, s, c, p, m) && Own(e, c, p)
    requires CanService(s, c) && !m.ended && Asks(m)
    ensures var t, u := Step(cf, s, buffer, e).0, Moving(cf, s, e, c);
            && Refines(cf, t, c, p, Called(m, p)) && Served(u) && u.at == AddressAt(cf, p, m.next)
            && Over(u.code) == Last(m, p)
            && (c in t.reg.stat <==> c in s.reg.stat || Last(m, p))
  {
    hide Complete, Dma.Moved, Fetched, Stored, CanService, FinishTransfer, Terminal, Last, AddressAt, Claims, Called;
    FetchedRange(s, c);
    var s' := if e.Write? then Stored(s, c, e.val) else s;
    StoredRefines(cf, s, c, if e.Write? then e.val else 0, p, m);
    StoredRefines(cf, s', c, 0, p, m);
    UnitRefines(cf, s', c, p, m);
    CompleteRefines(cf, Dma.Moved(cf, s', c), c, p, Called(m, p));
  }

  lemma RefusedIdeal(cf: Config, m: Ideal, p: Program)
    requires m.ended || !Asks(m)
    ensures Called(m, p) == m
  {
  }

  lemma LineRefines(cf: Config, s: State, c: int, on: bool, p: Program, m: Ideal)
    requires Sane(s) && 1 <= c < 4 && Refines(cf, s, c, p, m)
    ensures Refines(cf, SetDrq(cf, s, c, on), c, p, m.(line := on, owner := m.owner && (on || p.mode / 64 % 4 != 0)))
  {
    hide SetDrq, AddressAt;
    OwnLine(cf, s, c, on);
  }

  predicate Concerning(e: Event, c: int, p: Program) {
    Own(e, c, p) || Foreign(e, c) || (e.EndOfProcess? && e.c == c)
  }

  lemma StepRefines(cf: Config, s: State, buffer: seq<int>, e: Event, c: int, p: Program, m: Ideal)
    requires Sane(s) && |buffer| == 65536 && 1 <= c < 4 && Refines(cf, s, c, p, m) && Concerning(e, c, p)
    ensures Refines(cf, Step(cf, s, buffer, e).0, c, p, IdealStep(m, p, e, c))
    ensures Own(e, c, p) ==> AnswerOf(Moving(cf, s, e, c)) == IdealAnswer(cf, m, p)
  {
    hide ChannelRead, ChannelWrite, ChannelReadOnly, Advance, DmaWrite, RefreshRequest, AdapterDack, SetDrq, AddressAt;
    if Own(e, c, p) {
      CallRefines(cf, s, buffer, e, c, p, m);
    } else if e.EndOfProcess? && e.c == c {
    } else if e.Line? && e.c == c {
      LineRefines(cf, s, c, e.on, p, m);
    } else {
      ForeignLeaves(cf, s, buffer, e, c);
      hide Step;
      UntouchedRefines(cf, s, Step(cf, s, buffer, e).0, c, p, m);
    }
  }

  /** A channel its driver has just programmed is the ideal machine at unit 0, owning nothing. */
  lemma LoadedIsIdeal(cf: Config, s0: State, buffer: seq<int>, c: int, mode: int, offset: int, count: int)
    requires Sane(s0) && |buffer| == 65536 && 1 <= c < 4 && 0 <= offset < 65536 && 0 <= count < 65536
    requires 0 <= mode < 256 && mode % 4 == c && mode / 64 != 3
    requires !s0.reg.soft && s0.reg.command / 4 % 2 == 0 && c in s0.reg.enabled && c !in s0.reg.advPend
    ensures var s := Load(cf, s0, buffer, c, mode, offset, count);
            var p := Program(mode, count, Address(s0.prog[c].ab.page & cf.pageMask, offset));
            Refines(cf, s, c, p, Ideal(0, false, c in s.reg.rqPc, c in s.xt.sw, false, false))
  {
    hide Load, Disabled;
    LoadedIsReady(cf, s0, buffer, c, mode, offset, count);
    var p := Program(mode, count, Address(s0.prog[c].ab.page & cf.pageMask, offset));
    ReadyIsIdeal(cf, Load(cf, s0, buffer, c, mode, offset, count), c, p);
  }

  lemma ReadyIsIdeal(cf: Config, s: State, c: int, p: Program)
    requires Sane(s) && 1 <= c < 4 && p.cb >= 0 && After(cf, s, c, p, 0) && c !in s.xt.demand && c !in s.xt.block
    ensures Refines(cf, s, c, p, Ideal(0, false, c in s.reg.rqPc, c in s.xt.sw, false, false))
  {
    hide AddressAt;
    assert 0 % (p.cb + 1) == 0;
  }

  // ----- runs -----

  function Answers(calls: seq<Call>): (r: seq<Answer>)
    ensures |r| == |calls|
  {
    seq(|calls|, i requires 0 <= i < |calls| => AnswerOf(calls[i].unit))
  }

  function IdealRun(m: Ideal, p: Program, evs: seq<Event>, c: int): Ideal
    decreases |evs|
  {
    if evs == [] then m else IdealRun(IdealStep(m, p, evs[0], c), p, evs[1..], c)
  }

  function IdealAnswers(cf: Config, m: Ideal, p: Program, evs: seq<Event>, c: int): seq<Answer>
    decreases |evs|
  {
    if evs == [] then []
    else
      (if Own(evs[0], c, p) then [IdealAnswer(cf, m, p)] else [])
      + IdealAnswers(cf, IdealStep(m, p, evs[0], c), p, evs[1..], c)
  }

  lemma AnswersCons(call: Call, rest: seq<Call>)
    ensures Answers([call] + rest) == [AnswerOf(call.unit)] + Answers(rest)
  {
  }

  /** Over every run of the whole controller, in single, demand and block mode alike, a channel answers its device
      as the ideal machine does that sees only the device's own calls, its line and its end of process. */
  lemma {:induction false} PeripheralRefines(cf: Config, s: State, buffer: seq<int>, evs: seq<Event>, c: int, p: Program,
                                             m: Ideal)
    requires Sane(s) && |buffer| == 65536 && 1 <= c < 4 && Refines(cf, s, c, p, m)
    requires forall e :: e in evs ==> Concerning(e, c, p)
    ensures Refines(cf, Run(cf, s, buffer, evs).0, c, p, IdealRun(m, p, evs, c))
    ensures Answers(Calls(cf, s, buffer, evs, c, p)) == IdealAnswers(cf, m, p, evs, c)
    decreases |evs|
  {
    hide Step, Refines, Own, Foreign, Concerning, Moving, IdealAnswer, IdealStep, AnswerOf, Asking;
    if evs == [] {
    } else {
      var r, e := Step(cf, s, buffer, evs[0]), evs[0];
      assert e in evs;
      StepRefines(cf, s, buffer, e, c, p, m);
      PeripheralRefines(cf, r.0, r.1, evs[1..], c, p, IdealStep(m, p, e, c));
      var rest := Calls(cf, r.0, r.1, evs[1..], c, p);
      if Own(e, c, p) {
        AnswersCons(Call(Asking(s, c), Moving(cf, s, e, c)), rest);
      } else {
        assert [] + rest == rest;
        assert [] + Answers(rest) == Answers(rest);
      }
    }
  }

  /** Once a transfer has begun every call is served, at consecutive addresses, up to the last unit: in block mode
      whatever the request line does, and in demand mode as long as it does not fall. */
  lemma {:induction false} OwnerRunsOn(cf: Config, m: Ideal, p: Program, evs: seq<Event>, c: int)
    requires m.owner && !m.ended && !m.eop && 0 <= m.next <= p.cb
    requires p.mode / 64 % 4 == 2 || (p.mode / 64 % 4 == 0 && Line(c, false) !in evs)
    requires forall e :: e in evs ==> Own(e, c, p) || (e.Line? && e.c == c)
    requires |IdealAnswers(cf, m, p, evs, c)| <= p.cb + 1 - m.next
    ensures forall k :: 0 <= k < |IdealAnswers(cf, m, p, evs, c)| ==>
                          IdealAnswers(cf, m, p, evs, c)[k] == Answer.Moved(AddressAt(cf, p, m.next + k), m.next + k == p.cb)
    decreases |evs|
  {
    hide AddressAt;
    if evs == [] {
    } else {
      var n := IdealStep(m, p, evs[0], c);
      assert evs[0] in evs;
      var all, rest := IdealAnswers(cf, m, p, evs, c), IdealAnswers(cf, n, p, evs[1..], c);
      if Own(evs[0], c, p) {
        assert all == [IdealAnswer(cf, m, p)] + rest;
        if m.next == p.cb {
          assert rest == [];
        } else {
          OwnerRunsOn(cf, n, p, evs[1..], c);
          forall k | 0 <= k < |all|
            ensures all[k] == Answer.Moved(AddressAt(cf, p, m.next + k), m.next + k == p.cb)
          {
            assert k > 0 ==> all[k] == rest[k - 1] && n.next + (k - 1) == m.next + k;
          }
        }
      } else {
        assert all == rest;
        OwnerRunsOn(cf, n, p, evs[1..], c);
      }
    }
  }

  /** A demand transfer whose line falls is refused from then on, until the line rises. */
  lemma {:induction false} DemandWaits(cf: Config, m: Ideal, p: Program, evs: seq<Event>, c: int)
    requires p.mode / 64 % 4 == 0 && !m.line && !m.owner && !m.soft
    requires Line(c, true) !in evs
    ensures forall a :: a in IdealAnswers(cf, m, p, evs, c) ==> a == Refused
    decreases |evs|
  {
    hide Own;
    if evs == [] {
    } else {
      assert evs[0] in evs && forall e :: e in evs[1..] ==> e in evs;
      DemandWaits(cf, IdealStep(m, p, evs[0], c), p, evs[1..], c);
    }
  }
}
