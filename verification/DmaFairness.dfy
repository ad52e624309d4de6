/** Rotating priority over whole runs: the order in which channels wait, what changes it, the run in which
    channel 0 waits for ever, and the condition under which it does not. */
module DmaFairness {
  import opened Arith
  import opened Dma
  import opened DmaArbitration
  import opened DmaRefresh
  import opened DmaTransfers
  import opened DmaUnits

  // ----- a channel that waits for ever -----

  /** Rotating priority, all channels in single mode, channel 3 asking but never calling, refresh latched, and
      channel 2 served last. */
  predicate Starving(s: State)
    requires Sane(s)
  {
    && s.reg.command == 0x10 && !s.reg.soft && s.reg.mask == {} && s.reg.enabled == ALL
    && s.reg.rqPc == {0, 2, 3} && s.reg.advPend == {}
    && s.xt.sw == {} && s.xt.demand == {} && s.xt.block == {} && s.xt.eop == {} && s.xt.last == 2
    && s.ref.queued && !s.ref.scheduled && s.prog[0].mode / 64 % 4 == 1
    && s.prog[2].mode / 64 % 4 == 1 && s.prog[2].mode / 16 % 2 == 1 && s.prog[2].mode / 4 % 4 == 2
  }

  lemma StarvingPick(s: State)
    requires Sane(s) && Starving(s)
    ensures Picked(s) == 3 && 0 in Eligible(s.reg, Requests(s)) && !Serviceable(s)
  {
    assert Requests(s) == {0, 2, 3};
    var e := Eligible(s.reg, Requests(s));
    assert e == {0, 2, 3} && e * (s.xt.demand + s.xt.block) == {};
    assert Turn(2, 1) == 3;
  }

  /** The device of channel 2 is served although channel 3 is the pick, and everything is as before. */
  lemma StarvingStep(cf: Config, s: State, buffer: seq<int>)
    requires Sane(s) && |buffer| == 65536 && Starving(s)
    ensures var t := Step(cf, s, buffer, Read(2)).0;
            Starving(t) && t.prog == s.prog && t.ref == s.ref && ChannelRead(cf, s, 2).1 != -1
  {
    hide Pick, NextAddress, Fetched;
    ServedExactly(s, 2);
    FetchedRange(s, 2);
    var f := FinishTransfer(Moved(cf, s, 2), 2);
    assert 2 in Requests(s);
    assert Starving(f);
    StarvingPick(f);
  }

  function Reads(c: int, n: nat): seq<Event> {
    seq(n, _ => Read(c))
  }

  /** However long channel 2 goes on, every call of its is served, and the latched refresh request, eligible
      throughout, is neither scheduled nor served: rotating priority alone does not keep a channel from starving. */
  lemma {:induction false} Starves(cf: Config, s: State, buffer: seq<int>, n: nat)
    requires Sane(s) && |buffer| == 65536 && Starving(s)
    ensures var t := Run(cf, s, buffer, Reads(2, n)).0;
            && Starving(t) && t.ref == s.ref && 0 in Eligible(t.reg, Requests(t)) && !Serviceable(t)
            && |Units(Calls(cf, s, buffer, Reads(2, n), 2, s.prog[2]))| == n
    decreases n
  {
    hide Step, Pick;
    StarvingPick(s);
    if n == 0 {
    } else {
      var r, e := Step(cf, s, buffer, Read(2)), Reads(2, n);
      StarvingStep(cf, s, buffer);
      assert e[1..] == Reads(2, n - 1) && e[0] == Read(2);
      Starves(cf, r.0, r.1, n - 1);
      var call := Call(Asking(s, 2), Moving(cf, s, Read(2), 2));
      UnitsCons(call, Calls(cf, r.0, r.1, e[1..], 2, s.prog[2]));
    }
  }

  function Starved(): (s: State)
    ensures Sane(s)
  {
    var here := Address(0, 0);
    var idle, p := Program(0x40, 0, here), Program(0x5A, 9, here);
    State([idle, idle, p, idle], [Current(here, 0), Current(here, 0), Current(here, 9), Current(here, 0)],
          Registers({}, ALL, 0x10, {}, {}, {0, 2, 3}, {}, false, false), Xt({}, {}, {}, {}, {}, 2, 0, false),
          Refresh(true, false, 1, 0), Adapter(false, 0), map[])
  }

  /** Such a state exists, and satisfies the latch protocol. */
  lemma StarvedIsStarving(cf: Config)
    ensures Starving(Starved()) && Protocol(cf, Starved())
  {
  }

  // ----- what turns the order -----

  /** The last channel served is as it was, or rotation is on and it is now one of these. */
  predicate Turns(s: State, t: State, who: set<int>) {
    t.reg.command == s.reg.command && (t.xt.last == s.xt.last || (s.reg.command / 16 % 2 == 1 && t.xt.last in who))
  }

  lemma FinishTurns(s: State, c: int)
    requires Sane(s) && 0 <= c < 4
    ensures Turns(s, FinishTransfer(s, c), {c})
  {
    UnitTurns(s, c);
  }

  lemma DackTurns(cf: Config, s: State)
    requires Sane(s)
    ensures Turns(s, RefreshDack(cf, s), {0})
  {
    hide FinishTransfer, CanService, NextAddress;
    FinishTurns(WithoutPending(s, 0), 0);
    var t := Settle0(s);
    FinishTurns(Moved(cf, t, 0), 0);
    FinishTurns(WithoutPending(Moved(cf, t, 0), 0), 0);
  }

  /** Only without the clocked adapter can reconciling refresh move a unit. */
  function OnTheSpot(cf: Config): set<int> {
    if cf.clocked then {} else {0}
  }

  lemma ReconcileTurns(cf: Config, s: State)
    requires Sane(s)
    ensures Turns(s, Reconcile(cf, s), OnTheSpot(cf))
  {
    hide CanService, RefreshDack;
    DackTurns(cf, s.(ref := s.ref.(scheduled := true)));
  }

  lemma CompleteTurns(cf: Config, s: State, c: int)
    requires Sane(s) && 0 <= c < 4
    ensures Turns(s, Complete(cf, s, c), {c} + OnTheSpot(cf))
  {
    hide FinishTransfer, Reconcile;
    FinishTurns(s, c);
    ReconcileTurns(cf, FinishTransfer(s, c));
  }

  lemma AdvanceTurns(cf: Config, s: State, c: int)
    requires Sane(s)
    ensures Turns(s, Advance(cf, s, c), {c} + OnTheSpot(cf))
  {
    hide Complete, Reconcile;
    ReconcileTurns(cf, s);
    if 0 <= c < 4 {
      CompleteTurns(cf, WithoutPending(s, c), c);
    }
  }

  lemma CallTurns(cf: Config, s: State, c: int, val: int)
    requires Sane(s)
    ensures Turns(s, ChannelRead(cf, s, c).0, {c} + OnTheSpot(cf))
    ensures Turns(s, ChannelWrite(cf, s, c, val).0, {c} + OnTheSpot(cf))
    ensures Turns(s, ChannelReadOnly(cf, s, c).0, {c} + OnTheSpot(cf))
  {
    hide Complete, Advance, CanService, NextAddress, Fetched;
    AdvanceTurns(cf, s, c);
    if 0 <= c < 4 {
      CompleteTurns(cf, Moved(cf, Settled(cf, s, c), c), c);
      CompleteTurns(cf, WithoutPending(Moved(cf, Stored(s, c, val), c), c), c);
    }
  }

  lemma {:induction false} BlockTurns(cf: Config, s: State, buffer: seq<int>, c: int, i: int)
    requires Sane(s) && |buffer| == 65536 && 0 <= c < 4
    ensures Turns(s, BlockFrom(cf, s, buffer, c, i).0, {c} + OnTheSpot(cf))
    decreases 65536 - i
  {
    hide ChannelRead, ChannelWrite, Rotating;
    if i < 0 || i > s.prog[c].cb || i >= 65536 {
    } else {
      CallTurns(cf, s, c, buffer[i]);
      var w, r := ChannelWrite(cf, s, c, buffer[i]).0, ChannelRead(cf, s, c);
      BlockTurns(cf, w, buffer, c, i + 1);
      BlockTurns(cf, r.0, buffer[i := r.1 % 256], c, i + 1);
      BlockTurns(cf, s, buffer, c, i + 1);
    }
  }

  lemma {:induction false} CopyTurns(cf: Config, s: State)
    requires Sane(s)
    ensures Turns(s, CopyFrom(cf, s), {0})
    decreases if s.cur[1].cc < 0 then 0 else s.cur[1].cc + 1
  {
    hide CanService, NextAddress;
    var t := Tallied(Copied(cf, s));
    assert Turns(s, t, {0});
    if CopyEnds(Copied(cf, s)) || t.prog[0].mode / 64 % 4 != 2 || !CanService(t, 0) {
    } else {
      CopyTurns(cf, t);
    }
  }

  /** The channels an event can turn the order to.  A mask-set write turns it without any unit being moved, and so
      does the falling line of a demand channel. */
  function Movers(cf: Config, s: State, e: Event): set<int> {
    match e
    case Edge => OnTheSpot(cf)
    case Dack => {0}
    case Line(d, on) => (if d < 4 && !on && d in s.xt.demand then {d} else {}) + OnTheSpot(cf)
    case EndOfProcess(_, _) => {}
    case Read(d) => {d} + OnTheSpot(cf)
    case Write(d, _) => {d} + OnTheSpot(cf)
    case ReadOnly(d) => {d} + OnTheSpot(cf)
    case Settle(d) => {d} + OnTheSpot(cf)
    case Register(addr, val) =>
      (if addr % 16 == 9 then {val % 4, 0} else if addr % 16 == 10 && val / 4 % 2 == 1 then {val % 4} else {})
      + OnTheSpot(cf)
  }

  lemma WrittenTurns(cf: Config, s: State, buffer: seq<int>, addr: int, val: int)
    requires Sane(s) && |buffer| == 65536 && 0 <= addr < 16 && 0 <= val < 256 && addr !in {8, 13}
    ensures Turns(s, Written(cf, s, buffer, addr, val).0,
                  if addr == 9 then {val % 4, 0} else if addr == 10 && val / 4 % 2 == 1 then {val % 4} else {})
    ensures addr == 10 && val / 4 % 2 == 1 && s.reg.command / 16 % 2 == 1 ==>
              Written(cf, s, buffer, addr, val).0.xt.last == val % 4
  {
    hide BlockFrom, CopyFrom, CanService, Nibble;
    if addr == 9 && val / 4 % 2 == 1 {
      var t := s.(xt := s.xt.(sw := s.xt.sw + {val % 4}));
      BlockTurns(cf, WithSoft(t, true), buffer, val % 4, 0);
      CopyTurns(cf, BeginService(t.(xt := t.xt.(inMemToMem := true)), 0));
    }
  }

  lemma RegisterTurns(cf: Config, s: State, buffer: seq<int>, addr: int, val: int)
    requires Sane(s) && |buffer| == 65536 && addr % 16 !in {8, 13}
    ensures Turns(s, DmaWrite(cf, s, buffer, addr % 16, val % 256).0, Movers(cf, s, Register(addr, val)))
  {
    hide Written, Reconcile;
    LowBits(val);
    WrittenTurns(cf, s, buffer, addr % 16, val % 256);
    ReconcileTurns(cf, Written(cf, s, buffer, addr % 16, val % 256).0);
  }

  /** Every event but a command or a master clear turns the order only to the channels listed for it, and only
      under rotating priority. */
  lemma LastMoves(cf: Config, s: State, buffer: seq<int>, e: Event)
    requires Sane(s) && |buffer| == 65536 && !(e.Register? && e.addr % 16 in {8, 13})
    ensures Turns(s, Step(cf, s, buffer, e).0, Movers(cf, s, e))
  {
    hide ChannelRead, ChannelWrite, ChannelReadOnly, Advance, DmaWrite, RefreshDack, Reconcile;
    match e
    case Edge =>
      ReconcileTurns(cf, s);
      ReconcileTurns(cf, DrqLine(s.(ref := s.ref.(queued := true, settings := s.ref.settings + 1)), 0, true));
    case Dack => DackTurns(cf, s.(adapter := s.adapter.(pending := false)));
    case Line(d, on) => ReconcileTurns(cf, DrqLine(s, d, on));
    case EndOfProcess(d, on) =>
    case Read(d) => CallTurns(cf, s, d, 0);
    case Write(d, val) => CallTurns(cf, s, d, val);
    case ReadOnly(d) => CallTurns(cf, s, d, 0);
    case Settle(d) => AdvanceTurns(cf, s, d);
    case Register(addr, val) => RegisterTurns(cf, s, buffer, addr, val);
  }

  /** A mask-set write turns the order with no unit moved, unless refresh is then served on the spot. */
  lemma MaskWriteTurns(cf: Config, s: State, buffer: seq<int>, c: int)
    requires Sane(s) && |buffer| == 65536 && 0 <= c < 4 && s.reg.command / 16 % 2 == 1
    requires cf.clocked || !Serviceable(Written(cf, s, buffer, 10, 4 + c).0)
    ensures var t := DmaWrite(cf, s, buffer, 10, 4 + c).0;
            t.xt.last == c && t.cur == s.cur && t.ref.services == s.ref.services
  {
    hide CanService, RefreshDack;
  }

  // ----- when the wait is bounded -----

  /** Rotating priority, all channels in single mode, no completion pending, refresh programmed to read or verify,
      and channel c asking. */
  predicate Waiting(s: State, c: int)
    requires Sane(s)
  {
    && s.reg.command / 16 % 2 == 1 && s.reg.command / 4 % 2 == 0
    && s.xt.demand == {} && s.xt.block == {} && s.reg.advPend == {}
    && s.prog[0].mode / 64 % 4 == 1 && s.prog[1].mode / 64 % 4 == 1
    && s.prog[2].mode / 64 % 4 == 1 && s.prog[3].mode / 64 % 4 == 1
    && s.prog[0].mode / 4 % 4 in {0, 2} && 0 <= c < 4 && c in Eligible(s.reg, Requests(s))
  }

  /** Whether the event is a device call that is served. */
  predicate CallServed(cf: Config, s: State, e: Event)
    requires Sane(s)
  {
    match e
    case Read(d) => ChannelRead(cf, s, d).1 != -1
    case Write(d, val) => ChannelWrite(cf, s, d, val).1 != -1
    case _ => false
  }

  /** Channel d's turn comes before c's; the pick's always does. */
  predicate Before(s: State, d: int, c: int) {
    Distance(s.xt.last, d) < Distance(s.xt.last, c)
  }

  /** Devices call only when their channel's turn comes before c's, and so do the adapter's acknowledge and, under
      a mask-set write, the channel masked; besides that, lines, edges, EOPs and register writes come as they like,
      but for commands, software requests and master clear. */
  predicate InTurn(cf: Config, s: State, e: Event, c: int)
    requires Sane(s)
  {
    match e
    case Read(d) => CallServed(cf, s, e) ==> Before(s, d, c)
    case Write(d, _) => CallServed(cf, s, e) ==> Before(s, d, c)
    case Dack => s.adapter.pending ==> Before(s, 0, c)
    case Edge => true
    case Line(_, _) => true
    case EndOfProcess(_, _) => true
    case Register(addr, val) =>
      addr % 16 !in {8, 9, 13} && (addr % 16 == 10 && val / 4 % 2 == 1 ==> Before(s, val % 4, c))
    case _ => false
  }

  /** Units moved by the event: the call's own, and those of channel 0 for refresh. */
  function UnitsMoved(cf: Config, s: State, buffer: seq<int>, e: Event): int
    requires Sane(s) && |buffer| == 65536
  {
    (if CallServed(cf, s, e) then 1 else 0) + Step(cf, s, buffer, e).0.ref.services - s.ref.services
  }

  predicate NoUnitFor(cf: Config, s: State, buffer: seq<int>, e: Event, c: int)
    requires Sane(s) && |buffer| == 65536
  {
    && (CallServed(cf, s, e) ==> e != Read(c) && !(e.Write? && e.c == c))
    && (c == 0 ==> Step(cf, s, buffer, e).0.ref.services == s.ref.services)
  }

  lemma WaitingAcross(cf: Config, s: State, d: int, c: int)
    requires Sane(s) && Waiting(s, c) && 0 <= d < 4 && d != c
    ensures Waiting(FinishTransfer(Moved(cf, s, d), d), c)
  {
    hide NextAddress;
  }

  /** Refresh served in its turn brings every other waiting channel nearer. */
  lemma DackBringsNearer(cf: Config, s: State, c: int)
    requires Sane(s) && Waiting(s, c) && c != 0 && Before(s, 0, c) && (cf.clocked || CanService(s, 0))
    ensures var t := RefreshDack(cf, s);
            t.ref.services == s.ref.services + 1 && Distance(t.xt.last, c) < Distance(s.xt.last, c)
  {
    UnitBringsNearer(cf, s, 0, c);
    DackIsUnit(cf, s);
    hide Pick, FinishTransfer, CanService;
  }

  lemma DackIsUnit(cf: Config, s: State)
    requires Sane(s) && s.reg.advPend == {} && 0 !in s.xt.demand && s.prog[0].mode / 4 % 4 in {0, 2}
    requires s.prog[0].mode / 64 % 4 == 1 && (cf.clocked || CanService(s, 0))
    ensures RefreshDack(cf, s).xt.last == FinishTransfer(Moved(cf, s, 0), 0).xt.last
    ensures RefreshDack(cf, s).ref.services == s.ref.services + 1
  {
    var m := Moved(cf, s, 0);
    assert m.reg.advPend - {0} == m.reg.advPend;
    assert WithoutPending(m, 0) == m;
    hide CanService, NextAddress;
  }

  /** Whatever a reconciliation moves, it moves in turn. */
  lemma ReconcileBringsNearer(cf: Config, s: State, c: int)
    requires Sane(s) && Waiting(s, c) && (c == 0 ==> Reconcile(cf, s).ref.services == s.ref.services)
    ensures var t := Reconcile(cf, s);
            t.ref.services - s.ref.services + Distance(t.xt.last, c) <= Distance(s.xt.last, c)
            && t.ref.services >= s.ref.services
  {
    hide RefreshDack, Distance, CanService;
    var u := s.(ref := s.ref.(scheduled := true));
    assert CanService(u, 0) == CanService(s, 0) by {
      LatchService(s, u.ref);
    }
    if CanService(s, 0) && !cf.clocked {
      assert Picked(u) == 0 by {
        ServedIsPicked(u);
      }
      WaitingLatch(s, u.ref, c);
      if c != 0 {
        PickIsNearest(u, c);
        DackBringsNearer(cf, u, c);
      } else {
        DackIsUnit(cf, u);
      }
    }
  }

  lemma LatchService(s: State, ref: Refresh)
    requires Sane(s)
    ensures CanService(s.(ref := ref), 0) == CanService(s, 0)
  {
  }

  lemma WaitingLatch(s: State, ref: Refresh, c: int)
    requires Sane(s) && Waiting(s, c)
    ensures Waiting(s.(ref := ref), c)
  {
  }

  lemma ServedIsPicked(s: State)
    requires Sane(s) && CanService(s, 0)
    ensures Picked(s) == 0
  {
  }

  /** A call in turn: its unit, and whatever refresh is then served. */
  lemma CallBringsNearer(cf: Config, s: State, d: int, c: int)
    requires Sane(s) && Waiting(s, c) && 0 <= d < 4 && Before(s, d, c)
    requires c == 0 ==> Complete(cf, Moved(cf, s, d), d).ref.services == s.ref.services
    ensures var t := Complete(cf, Moved(cf, s, d), d);
            1 + t.ref.services - s.ref.services + Distance(t.xt.last, c) <= Distance(s.xt.last, c)
  {
    hide Distance, Reconcile, FinishTransfer, Moved, Waiting;
    UnitInTurn(cf, s, d, c);
    var f := FinishTransfer(Moved(cf, s, d), d);
    WaitingAcross(cf, s, d, c);
    if d != 0 && f.ref.queued {
      ReconcileBringsNearer(cf, f, c);
    }
  }

  lemma UnitInTurn(cf: Config, s: State, d: int, c: int)
    requires Sane(s) && Waiting(s, c) && 0 <= d < 4 && Before(s, d, c)
    ensures Distance(FinishTransfer(Moved(cf, s, d), d).xt.last, c) < Distance(s.xt.last, c)
  {
    UnitBringsNearer(cf, s, d, c);
  }

  lemma WaitingStored(s: State, d: int, val: int, c: int)
    requires Sane(s) && Waiting(s, c) && 0 <= d < 4
    ensures var u := Stored(s, d, val);
            Waiting(u, c) && u.xt == s.xt && u.ref == s.ref
  {
    hide Pick;
  }

  lemma NothingPending(cf: Config, s: State, d: int)
    requires Sane(s) && s.reg.advPend == {} && 0 <= d < 4
    ensures WithoutPending(Moved(cf, s, d), d) == Moved(cf, s, d)
  {
    assert Moved(cf, s, d).reg.advPend - {d} == Moved(cf, s, d).reg.advPend;
  }

  lemma ReadBringsNearer(cf: Config, s: State, d: int, c: int)
    requires Sane(s) && Waiting(s, c) && InTurn(cf, s, Read(d), c) && (CallServed(cf, s, Read(d)) ==> d != c)
    requires c == 0 ==> ChannelRead(cf, s, d).0.ref.services == s.ref.services
    ensures var t := ChannelRead(cf, s, d).0;
            (if CallServed(cf, s, Read(d)) then 1 else 0) + t.ref.services - s.ref.services + Distance(t.xt.last, c)
            <= Distance(s.xt.last, c)
  {
    hide Complete, Moved, CanService, Distance, Pick;
    if 0 <= d < 4 {
      FetchedRange(s, d);
      if Readable(s, d) {
        CallBringsNearer(cf, s, d, c);
      }
    }
  }

  lemma WriteBringsNearer(cf: Config, s: State, d: int, val: int, c: int)
    requires Sane(s) && Waiting(s, c) && InTurn(cf, s, Write(d, val), c) && (CallServed(cf, s, Write(d, val)) ==> d != c)
    requires c == 0 ==> ChannelWrite(cf, s, d, val).0.ref.services == s.ref.services
    ensures var t := ChannelWrite(cf, s, d, val).0;
            (if CallServed(cf, s, Write(d, val)) then 1 else 0) + t.ref.services - s.ref.services + Distance(t.xt.last, c)
            <= Distance(s.xt.last, c)
  {
    hide Complete, Moved, CanService, Distance, Pick, Stored;
    if 0 <= d < 4 && Writable(s, d) {
      WaitingStored(s, d, val, c);
      NothingPending(cf, Stored(s, d, val), d);
      CallBringsNearer(cf, Stored(s, d, val), d, c);
    }
  }

  /** A line or an edge: c must still be asking afterwards. */
  lemma LineBringsNearer(cf: Config, s: State, u: State, c: int)
    requires Sane(s) && Sane(u) && Waiting(s, c) && Waiting(Reconcile(cf, u), c)
    requires u.prog == s.prog && u.xt == s.xt && u.ref.services == s.ref.services && u.reg == s.reg.(rqPc := u.reg.rqPc)
    requires c == 0 ==> Reconcile(cf, u).ref.services == s.ref.services
    ensures var t := Reconcile(cf, u);
            t.ref.services - s.ref.services + Distance(t.xt.last, c) <= Distance(s.xt.last, c)
  {
    hide Distance, Pick, Reconcile;
    assert Waiting(u, c) by {
      AskingBefore(cf, u, c);
    }
    ReconcileBringsNearer(cf, u, c);
  }

  lemma AskingBefore(cf: Config, u: State, c: int)
    requires Sane(u) && 0 <= c < 4 && c in Eligible(Reconcile(cf, u).reg, Requests(Reconcile(cf, u)))
    requires c == 0 ==> Reconcile(cf, u).ref.services == u.ref.services
    ensures c in Eligible(u.reg, Requests(u))
  {
    if c == 0 {
      NotServed(cf, u);
    } else {
      hide Reconcile, Requests;
      ReconcileRequests(cf, u, c);
      ReconcileLeaves(cf, u, c);
    }
  }

  lemma NotServed(cf: Config, u: State)
    requires Sane(u) && Reconcile(cf, u).ref.services == u.ref.services
    ensures Reconcile(cf, u).reg == u.reg && Reconcile(cf, u).xt == u.xt
  {
    hide CanService, RefreshDack;
    if !cf.clocked {
      DackCounts(cf, u.(ref := u.ref.(scheduled := true)));
    }
  }

  lemma DackCounts(cf: Config, u: State)
    requires Sane(u)
    ensures RefreshDack(cf, u).ref.services == u.ref.services + 1
  {
    hide RefreshUnit;
  }

  /** One event of a run in turn: as many units as it moves for others, so much nearer is c. */
  lemma StepBringsNearer(cf: Config, s: State, buffer: seq<int>, e: Event, c: int)
    requires Sane(s) && |buffer| == 65536 && Waiting(s, c) && Waiting(Step(cf, s, buffer, e).0, c) && Protocol(cf, s)
    requires InTurn(cf, s, e, c) && NoUnitFor(cf, s, buffer, e, c)
    ensures UnitsMoved(cf, s, buffer, e) + Distance(Step(cf, s, buffer, e).0.xt.last, c) <= Distance(s.xt.last, c)
  {
    hide ChannelRead, ChannelWrite, Reconcile, RefreshDack, Distance, Waiting;
    match e
    case Read(d) => ReadBringsNearer(cf, s, d, c);
    case Write(d, val) => WriteBringsNearer(cf, s, d, val, c);
    case Dack =>
      if s.adapter.pending {
        TurnOfRefresh(cf, s, c);
      }
    case Edge => EdgeBringsNearer(cf, s, c);
    case Line(d, on) => DrqBringsNearer(cf, s, d, on, c);
    case EndOfProcess(d, on) =>
    case Register(addr, val) => RegisterBringsNearer(cf, s, buffer, addr, val, c);
  }

  /** A register write moves no unit of its own; a mask-set write turns the order. */
  lemma RegisterBringsNearer(cf: Config, s: State, buffer: seq<int>, addr: int, val: int, c: int)
    requires Sane(s) && |buffer| == 65536 && Waiting(s, c) && InTurn(cf, s, Register(addr, val), c)
    requires Waiting(DmaWrite(cf, s, buffer, addr % 16, val % 256).0, c)
    requires c == 0 ==> DmaWrite(cf, s, buffer, addr % 16, val % 256).0.ref.services == s.ref.services
    ensures var t := DmaWrite(cf, s, buffer, addr % 16, val % 256).0;
            t.ref.services - s.ref.services + Distance(t.xt.last, c) <= Distance(s.xt.last, c)
  {
    hide Distance, Reconcile, Written, Pick;
    LowBits(val);
    var u := Written(cf, s, buffer, addr % 16, val % 256).0;
    WrittenTurns(cf, s, buffer, addr % 16, val % 256);
    WrittenWaits(cf, s, buffer, addr % 16, val % 256);
    MaskNearer(s, u, addr % 16, val % 4, c);
    AskingBefore(cf, u, c);
    ReconcileBringsNearer(cf, u, c);
  }

  lemma MaskNearer(s: State, u: State, addr: int, d: int, c: int)
    requires 0 <= d < 4 && 0 <= c < 4 && Turns(s, u, if addr == 10 then {d} else {})
    requires addr == 10 && u.xt.last != s.xt.last ==> Before(s, d, c)
    ensures Distance(u.xt.last, c) <= Distance(s.xt.last, c)
  {
  }

  lemma WrittenWaits(cf: Config, s: State, buffer: seq<int>, addr: int, val: int)
    requires Sane(s) && |buffer| == 65536 && 0 <= addr < 16 && 0 <= val < 256 && addr !in {8, 9, 13}
    requires s.xt.demand == {} && s.xt.block == {} && s.reg.advPend == {}
    ensures var u := Written(cf, s, buffer, addr, val).0;
            && u.xt.demand == {} && u.xt.block == {} && u.reg.advPend == {} && u.ref == s.ref
            && u.reg.command == s.reg.command
  {
    hide LowByte, HighByte, Nibble, Rotating;
  }

  lemma TurnOfRefresh(cf: Config, s: State, c: int)
    requires Sane(s) && Waiting(s, c) && Protocol(cf, s) && s.adapter.pending && Before(s, 0, c)
    requires c == 0 ==> AdapterDack(cf, s).ref.services == s.ref.services
    ensures var t := AdapterDack(cf, s);
            t.ref.services - s.ref.services + Distance(t.xt.last, c) <= Distance(s.xt.last, c)
  {
    var u := s.(adapter := s.adapter.(pending := false));
    assert Waiting(u, c);
    hide Waiting, RefreshDack, Distance, Pick;
    DackCounts(cf, u);
    if c != 0 {
      DackBringsNearer(cf, u, c);
    }
  }

  lemma EdgeBringsNearer(cf: Config, s: State, c: int)
    requires Sane(s) && Waiting(s, c) && Waiting(RefreshRequest(cf, s), c)
    requires c == 0 ==> RefreshRequest(cf, s).ref.services == s.ref.services
    ensures var t := RefreshRequest(cf, s);
            t.ref.services - s.ref.services + Distance(t.xt.last, c) <= Distance(s.xt.last, c)
  {
    hide Reconcile, Distance, Pick;
    if s.ref.queued {
      LineBringsNearer(cf, s, s, c);
    } else {
      LineBringsNearer(cf, s, DrqLine(s.(ref := s.ref.(queued := true, settings := s.ref.settings + 1)), 0, true), c);
    }
  }

  lemma DrqBringsNearer(cf: Config, s: State, d: int, on: bool, c: int)
    requires Sane(s) && Waiting(s, c) && Waiting(SetDrq(cf, s, d, on), c)
    requires c == 0 ==> SetDrq(cf, s, d, on).ref.services == s.ref.services
    ensures var t := SetDrq(cf, s, d, on);
            t.ref.services - s.ref.services + Distance(t.xt.last, c) <= Distance(s.xt.last, c)
  {
    hide Reconcile, Distance, Pick;
    if 0 <= d <= 7 && s.ref.queued {
      LineBringsNearer(cf, s, DrqLine(s, d, on), c);
    }
  }

  /** A run in which c asks throughout and gets no unit, and everything that turns the order comes before c's turn. */
  predicate RunInTurn(cf: Config, s: State, buffer: seq<int>, evs: seq<Event>, c: int)
    requires Sane(s) && |buffer| == 65536
    decreases |evs|
  {
    && Waiting(s, c)
    && (evs != [] ==>
          var r := Step(cf, s, buffer, evs[0]);
          InTurn(cf, s, evs[0], c) && NoUnitFor(cf, s, buffer, evs[0], c) && RunInTurn(cf, r.0, r.1, evs[1..], c))
  }

  function AllUnits(cf: Config, s: State, buffer: seq<int>, evs: seq<Event>): int
    requires Sane(s) && |buffer| == 65536
    decreases |evs|
  {
    if evs == [] then 0
    else
      var r := Step(cf, s, buffer, evs[0]);
      UnitsMoved(cf, s, buffer, evs[0]) + AllUnits(cf, r.0, r.1, evs[1..])
  }

  /** While the order turns only to channels whose turn comes first, a channel that asks throughout sees no more
      units of others than its distance from the last channel served -- so at most three -- before one of its own. */
  lemma {:induction false} AtMostThreeOthers(cf: Config, s: State, buffer: seq<int>, evs: seq<Event>, c: int)
    requires Sane(s) && |buffer| == 65536 && Protocol(cf, s) && RunInTurn(cf, s, buffer, evs, c)
    ensures AllUnits(cf, s, buffer, evs) <= Distance(s.xt.last, c) <= 3
    decreases |evs|
  {
    hide Step, Waiting, InTurn, NoUnitFor, UnitsMoved, Protocol;
    if evs == [] {
    } else {
      var r := Step(cf, s, buffer, evs[0]);
      StepKeeps(cf, s, buffer, evs[0]);
      assert RunInTurn(cf, r.0, r.1, evs[1..], c);
      StepBringsNearer(cf, s, buffer, evs[0], c);
      AtMostThreeOthers(cf, r.0, r.1, evs[1..], c);
    }
  }

  /** All four lines up under rotating priority, refresh not latched, every channel in single mode, reading and
      re-initialising itself. */
  predicate AllAsking(s: State, last: int)
    requires Sane(s)
  {
    && s.reg.command == 0x10 && !s.reg.soft && s.reg.mask == {} && s.reg.enabled == ALL && s.reg.rqPc == ALL
    && s.reg.advPend == {} && s.xt.sw == {} && s.xt.demand == {} && s.xt.block == {} && s.xt.last == last
    && !s.ref.queued && !s.ref.scheduled
    && (forall d :: 0 <= d < 4 ==>
                      s.prog[d].mode / 64 % 4 == 1 && s.prog[d].mode / 16 % 2 == 1 && s.prog[d].mode / 4 % 4 == 2)
  }

  lemma AskingStep(cf: Config, s: State, buffer: seq<int>, d: int)
    requires Sane(s) && |buffer| == 65536 && 1 <= d < 4 && AllAsking(s, d - 1)
    ensures var t := Step(cf, s, buffer, Read(d)).0;
            && AllAsking(t, d) && t.ref == s.ref && t.prog == s.prog
            && Waiting(s, 0) && InTurn(cf, s, Read(d), 0) && NoUnitFor(cf, s, buffer, Read(d), 0)
            && UnitsMoved(cf, s, buffer, Read(d)) == 1
  {
    hide NextAddress, Fetched;
    assert Requests(s) == ALL && Eligible(s.reg, ALL) == ALL;
    assert ALL * (s.xt.demand + s.xt.block) == {} && Turn(d - 1, 1) == d && d in ALL;
    assert Picked(s) == d;
    ServedExactly(s, d);
    FetchedRange(s, d);
    hide Pick;
    var f := FinishTransfer(Moved(cf, s, d), d);
    assert AllAsking(f, d);
  }

  /** The bound is met: with every line up, channels 1, 2 and 3 each move a unit before channel 0. */
  lemma ThreeOthersHappen(cf: Config, s: State, buffer: seq<int>)
    requires Sane(s) && |buffer| == 65536 && AllAsking(s, 0)
    ensures RunInTurn(cf, s, buffer, [Read(1), Read(2), Read(3)], 0)
    ensures AllUnits(cf, s, buffer, [Read(1), Read(2), Read(3)]) == 3
  {
    hide Step, InTurn, NoUnitFor, UnitsMoved, Pick;
    var r1 := Step(cf, s, buffer, Read(1));
    AskingStep(cf, s, buffer, 1);
    var r2 := Step(cf, r1.0, r1.1, Read(2));
    AskingStep(cf, r1.0, r1.1, 2);
    var r3 := Step(cf, r2.0, r2.1, Read(3));
    AskingStep(cf, r2.0, r2.1, 3);
    assert Waiting(r3.0, 0) by {
      AskingWaits(r3.0, 3);
    }
    var none: seq<Event> := [];
    assert [Read(1), Read(2), Read(3)][1..] == [Read(2), Read(3)];
    assert [Read(2), Read(3)][1..] == [Read(3)] && [Read(3)][1..] == none;
    hide Waiting, AllAsking;
    OneInTurn(cf, r2.0, r2.1, Read(3), none, 0);
    OneInTurn(cf, r1.0, r1.1, Read(2), [Read(3)], 0);
    OneInTurn(cf, s, buffer, Read(1), [Read(2), Read(3)], 0);
  }

  lemma AskingWaits(s: State, last: int)
    requires Sane(s) && AllAsking(s, last)
    ensures Waiting(s, 0)
  {
    assert Requests(s) == ALL && Eligible(s.reg, ALL) == ALL;
  }

  lemma OneInTurn(cf: Config, s: State, buffer: seq<int>, e: Event, rest: seq<Event>, c: int)
    requires Sane(s) && |buffer| == 65536 && Waiting(s, c) && InTurn(cf, s, e, c) && NoUnitFor(cf, s, buffer, e, c)
    requires RunInTurn(cf, Step(cf, s, buffer, e).0, Step(cf, s, buffer, e).1, rest, c)
    ensures RunInTurn(cf, s, buffer, [e] + rest, c)
    ensures AllUnits(cf, s, buffer, [e] + rest) ==
            UnitsMoved(cf, s, buffer, e) + AllUnits(cf, Step(cf, s, buffer, e).0, Step(cf, s, buffer, e).1, rest)
  {
    hide Step, Waiting, InTurn, NoUnitFor, UnitsMoved;
    assert ([e] + rest)[1..] == rest;
  }
}
