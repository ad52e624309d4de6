/** What transfers do to memory, how a program is loaded byte by byte, and deferred completion. */
module DmaData {
  import opened Arith
  import opened Dma
  import opened DmaArbitration
  import opened DmaRefresh
  import opened DmaTransfers
  import opened DmaUnits

  // ----- data -----

  /** A program's addresses do not repeat within a round. */
  lemma AddressesDiffer(cf: Config, p: Program, i: int, j: int)
    requires 0 <= i < j < 65536 && 0 <= p.ab.offset < 65536
    ensures AddressAt(cf, p, i) != AddressAt(cf, p, j)
  {
  }

  /** Events that are foreign to channel c and write no memory: any but another channel's writes and the
      transfers that software starts. */
  predicate Silent(e: Event, c: int) {
    Foreign(e, c) && !e.Write? && !(e.Register? && e.addr % 16 == 9)
  }

  lemma SilentKeepsMemory(cf: Config, s: State, buffer: seq<int>, e: Event, c: int)
    requires Sane(s) && |buffer| == 65536 && Silent(e, c)
    ensures Step(cf, s, buffer, e).0.mem == s.mem
  {
    hide Reconcile, RefreshDack, CanService, Complete, Advance, Moved, LowByte, HighByte;
  }

  /** What a served call does to memory: a write lands its byte at the unit's address, a read lands none. */
  lemma UnitLands(cf: Config, s: State, buffer: seq<int>, e: Event, c: int, i: int)
    requires Sane(s) && |buffer| == 65536 && 1 <= c < 4 && AtUnit(cf, s, c, i) && Asking(s, c) && Own(e, c, s.prog[c])
    ensures var t, a := Step(cf, s, buffer, e).0, AddressAt(cf, s.prog[c], i);
            && (s.prog[c].mode / 4 % 4 == 1 ==> e.Write? && t.mem == s.mem[a := e.val % 256])
            && (s.prog[c].mode / 4 % 4 == 2 ==> e.Read? && t.mem == s.mem && Moving(cf, s, e, c).code % 256 == Byte(s.mem, a))
  {
    hide Complete, Moved, AddressAt, CanService, Requests, Terminal;
    ServedExactly(s, c);
  }

  /** The bytes of the write calls that were served. */
  function Values(cf: Config, s: State, buffer: seq<int>, evs: seq<Event>, c: int, p: Program): seq<int>
    requires Sane(s) && |buffer| == 65536 && 0 <= c < 4
    decreases |evs|
  {
    if evs == [] then []
    else
      var r, e := Step(cf, s, buffer, evs[0]), evs[0];
      (if Own(e, c, p) && e.Write? && Served(Moving(cf, s, e, c)) then [e.val] else [])
      + Values(cf, r.0, r.1, evs[1..], c, p)
  }

  /** Memory with data at unit i of a program onwards. */
  function Landed(cf: Config, m: Memory, p: Program, i: int, data: seq<int>): Memory
    decreases |data|
  {
    if data == [] then m else Landed(cf, m[AddressAt(cf, p, i) := data[0] % 256], p, i + 1, data[1..])
  }

  /** Where unit j of a program goes, counting through all its rounds. */
  function UnitAddress(cf: Config, p: Program, j: int): Address
    requires p.cb >= 0
  {
    AddressAt(cf, p, if p.mode / 16 % 2 == 1 then j % (p.cb + 1) else j)
  }

  /** Memory with data at units j, j + 1, ... of a program, round after round. */
  function LandedFrom(cf: Config, m: Memory, p: Program, j: int, data: seq<int>): Memory
    requires p.cb >= 0
    decreases |data|
  {
    if data == [] then m else LandedFrom(cf, m[UnitAddress(cf, p, j) := data[0] % 256], p, j + 1, data[1..])
  }

  /** One event of a write transfer: its byte lands if it is served, and otherwise memory stays as it is. */
  lemma StepLands(cf: Config, s: State, buffer: seq<int>, e: Event, c: int, p: Program, j: int)
    requires Sane(s) && |buffer| == 65536 && 1 <= c < 4 && 0 <= p.cb && 0 <= j
    requires After(cf, s, c, p, j) && p.mode / 4 % 4 == 1
    requires Own(e, c, p) || Silent(e, c)
    ensures var t, served := Step(cf, s, buffer, e).0, Own(e, c, p) && Served(Moving(cf, s, e, c));
            && (served ==> e.Write?) && After(cf, t, c, p, if served then j + 1 else j)
            && (served ==> t.mem == s.mem[UnitAddress(cf, p, j) := e.val % 256])
            && (!served ==> t.mem == s.mem)
  {
    hide Step, AddressAt, Moving, Requests;
    StepAfter(cf, s, buffer, e, c, p, j);
    if !Own(e, c, p) {
      SilentKeepsMemory(cf, s, buffer, e, c);
    } else if Asking(s, c) && Remaining(p, j) {
      NextPosition(j, p.cb + 1);
      UnitLands(cf, s, buffer, e, c, if p.mode / 16 % 2 == 1 then j % (p.cb + 1) else j);
    }
  }

  lemma SmallPosition(j: int, m: int)
    requires 0 <= j < m
    ensures j % m == j
  {
    RemainderIs(j, m, 0, j);
  }

  /** Over a run in which nothing else writes memory, the bytes of the served calls land one after the other at
      the program's addresses, through any number of rounds. */
  lemma {:induction false} DataLands(cf: Config, s: State, buffer: seq<int>, evs: seq<Event>, c: int, p: Program, j: int)
    requires Sane(s) && |buffer| == 65536 && 1 <= c < 4 && 0 <= j && 0 <= p.cb
    requires After(cf, s, c, p, j) && p.mode / 4 % 4 == 1
    requires forall e :: e in evs ==> Own(e, c, p) || Silent(e, c)
    ensures Run(cf, s, buffer, evs).0.mem == LandedFrom(cf, s.mem, p, j, Values(cf, s, buffer, evs, c, p))
    decreases |evs|
  {
    hide Step, AddressAt, UnitAddress, After, Own, Foreign, Silent, Moving, Served;
    if evs == [] {
    } else {
      var r, e := Step(cf, s, buffer, evs[0]), evs[0];
      assert e in evs;
      StepLands(cf, s, buffer, e, c, p, j);
      var served := Own(e, c, p) && Served(Moving(cf, s, e, c));
      var rest := Values(cf, r.0, r.1, evs[1..], c, p);
      var all := Values(cf, s, buffer, evs, c, p);
      if served {
        assert all == [e.val] + rest;
        assert all[1..] == rest;
      } else {
        assert all == rest;
      }
      DataLands(cf, r.0, r.1, evs[1..], c, p, if served then j + 1 else j);
    }
  }

  /** Within one round that is the data laid out from unit j on. */
  lemma {:induction false} LandedInRound(cf: Config, m: Memory, p: Program, j: int, data: seq<int>)
    requires 0 <= j && 0 <= p.cb && j + |data| <= p.cb + 1
    ensures LandedFrom(cf, m, p, j, data) == Landed(cf, m, p, j, data)
    decreases |data|
  {
    hide AddressAt;
    if data == [] {
    } else {
      SmallPosition(j, p.cb + 1);
      LandedInRound(cf, m[AddressAt(cf, p, j) := data[0] % 256], p, j + 1, data[1..]);
    }
  }

  /** Through all rounds a byte of memory is the last one sent there, and other memory is as it was. */
  lemma {:induction false} LandedLast(cf: Config, m: Memory, p: Program, j: int, data: seq<int>, a: Address, k: int)
    requires 0 <= j <= k < j + |data| && 0 <= p.cb && UnitAddress(cf, p, k) == a
    requires forall i :: k < i < j + |data| ==> UnitAddress(cf, p, i) != a
    ensures Byte(LandedFrom(cf, m, p, j, data), a) == data[k - j] % 256
    decreases |data|
  {
    hide UnitAddress;
    var n := m[UnitAddress(cf, p, j) := data[0] % 256];
    if k == j {
      LandedElsewhere(cf, n, p, j + 1, data[1..], a);
    } else {
      LandedLast(cf, n, p, j + 1, data[1..], a, k);
      assert data[1..][k - (j + 1)] == data[k - j];
    }
  }

  lemma {:induction false} LandedElsewhere(cf: Config, m: Memory, p: Program, j: int, data: seq<int>, a: Address)
    requires 0 <= p.cb && forall i :: j <= i < j + |data| ==> UnitAddress(cf, p, i) != a
    ensures Byte(LandedFrom(cf, m, p, j, data), a) == Byte(m, a)
    decreases |data|
  {
    hide UnitAddress;
    if data == [] {
    } else {
      LandedElsewhere(cf, m[UnitAddress(cf, p, j) := data[0] % 256], p, j + 1, data[1..], a);
    }
  }

  /** Written data is found at the program's addresses, in order, and nowhere else does memory change. */
  lemma {:induction false} LandedAt(cf: Config, m: Memory, p: Program, i: int, data: seq<int>, a: Address)
    requires 0 <= i && i + |data| <= 65536 && 0 <= p.ab.offset < 65536
    ensures forall j :: i <= j < i + |data| && AddressAt(cf, p, j) == a ==>
                          Byte(Landed(cf, m, p, i, data), a) == data[j - i] % 256
    ensures (forall j :: i <= j < i + |data| ==> AddressAt(cf, p, j) != a) ==>
              Byte(Landed(cf, m, p, i, data), a) == Byte(m, a)
    decreases |data|
  {
    hide AddressAt;
    if data == [] {
    } else {
      var n, rest := m[AddressAt(cf, p, i) := data[0] % 256], data[1..];
      LandedAt(cf, n, p, i + 1, rest, a);
      if AddressAt(cf, p, i) == a {
        forall j | i + 1 <= j < i + 1 + |rest| ensures AddressAt(cf, p, j) != a {
          AddressesDiffer(cf, p, i, j);
        }
      }
      forall j | i + 1 <= j < i + |data| && AddressAt(cf, p, j) == a
        ensures Byte(Landed(cf, m, p, i, data), a) == data[j - i] % 256
      {
        assert rest[j - (i + 1)] == data[j - i];
      }
    }
  }

  /** Over a run in which nothing writes memory, every unit read returns the byte at its address. */
  lemma {:induction false} DataFetched(cf: Config, s: State, buffer: seq<int>, evs: seq<Event>, c: int, p: Program, j: int)
    requires Sane(s) && |buffer| == 65536 && 1 <= c < 4 && 0 <= j && 0 <= p.cb
    requires After(cf, s, c, p, j) && p.mode / 4 % 4 == 2
    requires forall e :: e in evs ==> Own(e, c, p) || Silent(e, c)
    ensures AllFetched(s.mem, Units(Calls(cf, s, buffer, evs, c, p)))
    decreases |evs|
  {
    hide Step, AddressAt, After, Own, Foreign, Silent, Moving, Served, Asking, Byte;
    if evs == [] {
    } else {
      var r, e := Step(cf, s, buffer, evs[0]), evs[0];
      assert e in evs;
      StepFetches(cf, s, buffer, e, c, p, j);
      var call := Call(Asking(s, c), Moving(cf, s, e, c));
      var served := Own(e, c, p) && Served(call.unit);
      DataFetched(cf, r.0, r.1, evs[1..], c, p, if served then j + 1 else j);
      var rest := Calls(cf, r.0, r.1, evs[1..], c, p);
      if Own(e, c, p) {
        UnitsCons(call, rest);
        assert [] + Units(rest) == Units(rest);
      } else {
        assert [] + rest == rest;
      }
    }
  }

  /** Every unit's byte is the one memory holds at its address. */
  predicate AllFetched(m: Memory, units: seq<Unit>) {
    forall k :: 0 <= k < |units| ==> units[k].code % 256 == Byte(m, units[k].at)
  }

  lemma StepFetches(cf: Config, s: State, buffer: seq<int>, e: Event, c: int, p: Program, j: int)
    requires Sane(s) && |buffer| == 65536 && 1 <= c < 4 && 0 <= j && 0 <= p.cb
    requires After(cf, s, c, p, j) && p.mode / 4 % 4 == 2
    requires Own(e, c, p) || Silent(e, c)
    ensures var t, u := Step(cf, s, buffer, e).0, Moving(cf, s, e, c);
            var served := Own(e, c, p) && Served(u);
            && t.mem == s.mem && After(cf, t, c, p, if served then j + 1 else j)
            && (served ==> u.code % 256 == Byte(s.mem, u.at))
  {
    hide Step, AddressAt, Requests;
    StepAfter(cf, s, buffer, e, c, p, j);
    if !Own(e, c, p) {
      SilentKeepsMemory(cf, s, buffer, e, c);
    } else if Asking(s, c) && Remaining(p, j) {
      NextPosition(j, p.cb + 1);
      UnitLands(cf, s, buffer, e, c, if p.mode / 16 % 2 == 1 then j % (p.cb + 1) else j);
    }
  }

  /** A round trip: what one channel wrote to memory in one run, another reading from the same base in the same
      direction gets back in a later one, however their request lines come and go. */
  lemma WrittenThenRead(cf: Config, s: State, b0: seq<int>, writing: seq<Event>, c: int, p: Program,
                        t: State, b1: seq<int>, reading: seq<Event>, d: int, q: Program)
    requires Sane(s) && |b0| == 65536 && 1 <= c < 4 && 0 <= p.cb < 65536 && After(cf, s, c, p, 0) && p.mode / 4 % 4 == 1
    requires forall e :: e in writing ==> Own(e, c, p) || Silent(e, c)
    requires |Values(cf, s, b0, writing, c, p)| <= p.cb + 1 && 0 <= p.ab.offset < 65536
    requires Sane(t) && |b1| == 65536 && 1 <= d < 4 && 0 <= q.cb && After(cf, t, d, q, 0) && q.mode / 4 % 4 == 2
    requires forall e :: e in reading ==> Own(e, d, q) || Silent(e, d)
    requires t.mem == Run(cf, s, b0, writing).0.mem && q.ab == p.ab && q.mode / 32 % 2 == p.mode / 32 % 2
    ensures var data, units := Values(cf, s, b0, writing, c, p), Units(Calls(cf, t, b1, reading, d, q));
            forall k :: 0 <= k < |data| && k < |units| && k <= q.cb ==> units[k].code % 256 == data[k] % 256
  {
    hide After, Own, Foreign, Silent, Byte, Values, Units, Calls, Run;
    var data, units := Values(cf, s, b0, writing, c, p), Units(Calls(cf, t, b1, reading, d, q));
    DataLands(cf, s, b0, writing, c, p, 0);
    LandedInRound(cf, s.mem, p, 0, data);
    DataFetched(cf, t, b1, reading, d, q, 0);
    SilentIsRelated(reading, d, q);
    WholeTransfer(cf, t, b1, reading, d, q, 0);
    forall k | 0 <= k < |data| && k < |units| && k <= q.cb ensures units[k].code % 256 == data[k] % 256 {
      assert Expected(cf, q, 0 + k, units[k]);
      SmallPosition(k, q.cb + 1);
      LandedBack(cf, s.mem, p, q, data, k);
    }
  }

  lemma SilentIsRelated(evs: seq<Event>, c: int, p: Program)
    requires forall e :: e in evs ==> Own(e, c, p) || Silent(e, c)
    ensures forall e :: e in evs ==> Related(e, c, p)
  {
  }

  lemma LandedBack(cf: Config, m: Memory, p: Program, q: Program, data: seq<int>, k: int)
    requires p.ab == q.ab && p.mode / 32 % 2 == q.mode / 32 % 2 && 0 <= p.ab.offset < 65536
    requires 0 <= k < |data| <= 65536
    ensures Byte(Landed(cf, m, p, 0, data), AddressAt(cf, q, k)) == data[k] % 256
  {
    SameAddress(cf, p, q, k);
    LandedAt(cf, m, p, 0, data, AddressAt(cf, p, k));
    hide *;
    assert data[k - 0] == data[k];
  }

  lemma SameAddress(cf: Config, p: Program, q: Program, i: int)
    requires p.ab == q.ab && p.mode / 32 % 2 == q.mode / 32 % 2
    ensures AddressAt(cf, p, i) == AddressAt(cf, q, i)
  {
  }

  // ----- deferred completion -----

  /** A read whose completion is deferred and then made is a read -- provided no completion was pending. */
  lemma DeferredRead(cf: Config, s: State, c: int)
    requires Sane(s) && 0 <= c < 4 && Readable(s, c) && c !in s.reg.advPend
    ensures var t := ChannelReadOnly(cf, s, c);
            && Advance(cf, t.0, c) == ChannelRead(cf, s, c).0
            && ChannelRead(cf, s, c).1 == t.1 + if AdvanceEnds(t.0, c) then OVER else 0
  {
  }

  /** When the completion that is pending will stop a peripheral channel: it is the last, and the channel does
      not re-initialise itself, or its request line is down by now. */
  predicate StopsPeripheral(s: State, c: int)
    requires Sane(s) && 0 <= c < 4
  {
    Terminal(s, c) && (s.prog[c].mode / 16 % 2 == 0 || c !in s.reg.rqPc)
  }

  /** Channel 0 must also win the bus again: it can lose it to another owner once it has released its own claim,
      and under rotating priority to any channel that asks. */
  predicate StopsChannel0(s: State)
    requires Sane(s)
  {
    var others := Eligible(s.reg, Requests(s)) - {0};
    var owners := s.xt.demand + s.xt.block;
    if Terminal(s, 0) then
      || s.prog[0].mode / 16 % 2 == 0 || 0 !in s.reg.rqPc || others * owners != {}
      || (s.reg.command / 16 % 2 == 1 && others != {})
    else s.prog[0].mode / 64 % 4 == 1 && s.reg.command / 16 % 2 == 1 && 0 !in owners && others != {}
  }

  lemma PeripheralSettles(cf: Config, s: State, c: int)
    requires Sane(s) && 1 <= c < 4 && !s.reg.soft && CanService(s, c) && c in s.reg.advPend
    ensures CanService(Settled(cf, s, c), c) <==> !StopsPeripheral(s, c)
  {
    hide Reconcile, CanService;
    var f := FinishTransfer(WithoutPending(s, c), c);
    ServedExactly(s, c);
    ReconcileLeaves(cf, f, c);
    ReconcileRequests(cf, f, c);
    ServedExactly(Settled(cf, s, c), c);
  }

  lemma SamePick(r: Registers, q: Registers, x: Xt, y: Xt, requests: set<int>)
    requires q == r.(advPend := q.advPend) && y == x.(dack := y.dack)
    ensures Pick(q, y, requests) == Pick(r, x, requests)
  {
  }

  lemma Channel0Settles(cf: Config, s: State)
    requires Sane(s) && CanService(s, 0) && 0 in s.reg.advPend
    ensures CanService(Settled(cf, s, 0), 0) <==> !StopsChannel0(s)
  {
    hide CanService;
    if Terminal(s, 0) {
      Channel0Ends(cf, s);
    } else {
      Channel0GoesOn(cf, s);
    }
  }

  lemma Channel0Ends(cf: Config, s: State)
    requires Sane(s) && CanService(s, 0) && 0 in s.reg.advPend && Terminal(s, 0)
    ensures CanService(Settled(cf, s, 0), 0) <==> !StopsChannel0(s)
  {
    var t := Settled(cf, s, 0);
    var others, owners := Eligible(s.reg, Requests(s)) - {0}, s.xt.demand + s.xt.block;
    PickSpec(t.reg, t.xt, Requests(t));
    hide Pick;
    if s.prog[0].mode / 16 % 2 == 1 && 0 in s.reg.rqPc {
      var now := Eligible(t.reg, Requests(t));
      assert now == others + {0};
      assert now * (t.xt.demand + t.xt.block) == others * owners;
      if others != {} {
        var d :| d in others;
        assert d in now && d in ALL;
      }
    }
  }

  lemma Channel0GoesOn(cf: Config, s: State)
    requires Sane(s) && CanService(s, 0) && 0 in s.reg.advPend && !Terminal(s, 0)
    ensures CanService(Settled(cf, s, 0), 0) <==> !StopsChannel0(s)
  {
    var t, e := Settled(cf, s, 0), Eligible(s.reg, Requests(s));
    var owners := s.xt.demand + s.xt.block;
    assert Requests(t) == Requests(s) && Eligible(t.reg, Requests(t)) == e && t.xt.demand + t.xt.block == owners;
    assert t.reg.mask == s.reg.mask && t.reg.enabled == s.reg.enabled && t.reg.command == s.reg.command;
    PickSpec(s.reg, s.xt, Requests(s));
    PickSpec(t.reg, t.xt, Requests(t));
    SamePick(s.reg, t.reg, s.xt, s.xt.(dack := t.xt.dack), Requests(s));
    hide Pick, Eligible, Requests, FinishTransfer;
    if 0 in owners {
      assert 0 in e * owners;
    } else if s.prog[0].mode / 64 % 4 == 1 && s.reg.command / 16 % 2 == 1 {
      assert t.xt.last == 0 by {
        UnitTurns(WithoutPending(s, 0), 0);
      }
      assert e * owners == {};
      if e - {0} != {} {
        var d :| d in e - {0};
        assert d in e;
      } else {
        var p := Pick(t.reg, t.xt, Requests(t));
        assert p in e && p !in e - {0};
      }
    } else {
      assert t.xt == s.xt.(dack := t.xt.dack) by {
        UnitTurns(WithoutPending(s, 0), 0);
      }
    }
  }

  /** With a completion pending, a deferred read always moves a unit, while a read refuses exactly when that
      completion stops the channel; otherwise the two agree. */
  lemma DeferredPastEnd(cf: Config, s: State, c: int)
    requires Sane(s) && 0 <= c < 4 && Readable(s, c) && c in s.reg.advPend && (c != 0 ==> !s.reg.soft)
    ensures ChannelReadOnly(cf, s, c).1 != -1
    ensures ChannelRead(cf, s, c).1 == -1 <==> if c == 0 then StopsChannel0(s) else StopsPeripheral(s, c)
    ensures ChannelRead(cf, s, c).1 != -1 ==>
              Advance(cf, ChannelReadOnly(cf, s, c).0, c) == ChannelRead(cf, s, c).0
  {
    hide Complete, CanService, Advance, FinishTransfer, StopsChannel0, StopsPeripheral;
    var a := Settled(cf, s, c);
    FetchedRange(a, c);
    if c == 0 {
      Channel0Settles(cf, s);
    } else {
      PeripheralSettles(cf, s, c);
    }
    if CanService(a, c) {
      PendingCleared(cf, s, c);
      var u := Moved(cf, a, c);
      var t := ChannelReadOnly(cf, s, c).0;
      assert t.reg.advPend - {c} == u.reg.advPend;
      assert WithoutPending(t, c) == u;
      AdvanceCompletes(cf, t, c);
    }
  }

  /** Channel 2 in single mode reading memory, its line up, its last unit read but not completed. */
  function LastPending(): (s: State)
    ensures Sane(s)
  {
    var idle := Program(0, 0, Address(0, 0));
    var p := Program(0x4A, 0, Address(0, 7));
    var rest := Current(Address(0, 0), 0);
    State([idle, idle, p, idle], [rest, rest, Current(Address(0, 8), 0), rest],
          Registers({}, ALL, 0, {}, {2}, {2}, {2}, false, false), Xt({}, {}, {}, {}, {2}, 3, 0, false),
          Refresh(false, false, 0, 0), Adapter(false, 0), map[])
  }

  /** There a read is refused, and a deferred read moves a second unit of a one-unit program. */
  lemma PastEndHappens(cf: Config)
    ensures var s := LastPending();
            && s.prog[2].cb == 0 && 2 in s.reg.advPend
            && ChannelRead(cf, s, 2).1 == -1 && ChannelRead(cf, s, 2).0.cur[2].ac.offset == 8
            && ChannelReadOnly(cf, s, 2).1 == 0xFF && ChannelReadOnly(cf, s, 2).0.cur[2].ac.offset == 9
  {
    var s := LastPending();
    ServedExactly(s, 2);
    DeferredPastEnd(cf, s, 2);
    OneUnit(cf, s);
  }

  lemma OneUnit(cf: Config, s: State)
    requires s == LastPending() && CanService(s, 2)
    ensures var f := Settled(cf, s, 2);
            f.mem == map[] && f.cur[2].ac == Address(0, 8)
    ensures ChannelReadOnly(cf, s, 2).0.cur[2].ac.offset == 9 && ChannelReadOnly(cf, s, 2).1 == 0xFF
  {
    hide CanService;
  }

  lemma AdvanceCompletes(cf: Config, t: State, c: int)
    requires Sane(t) && 0 <= c < 4 && c in t.reg.advPend
    ensures Advance(cf, t, c) == Complete(cf, WithoutPending(t, c), c)
  {
  }

  lemma PendingCleared(cf: Config, s: State, c: int)
    requires Sane(s) && 0 <= c < 4 && c in s.reg.advPend
    ensures c !in Settled(cf, s, c).reg.advPend
  {
    hide Reconcile;
    var f := FinishTransfer(WithoutPending(s, c), c);
    assert c !in f.reg.advPend;
    if c != 0 {
      ReconcileLeaves(cf, f, c);
    }
  }

  // ----- loading a program -----

  /** Channel c with this program and position, unmasked or not. */
  predicate Loading(s: State, c: int, p: Program, now: Current, flip: bool)
    requires Sane(s) && 0 <= c < 4
  {
    && !s.reg.soft && s.reg.command / 4 % 2 == 0 && c in s.reg.enabled && c !in s.reg.advPend
    && c !in s.xt.eop && c !in s.xt.demand && c !in s.xt.block
    && s.prog[c] == p && s.cur[c] == now && s.reg.flipFlop == flip
  }

  lemma ReconcileLoading(cf: Config, s: State, c: int, p: Program, now: Current, flip: bool)
    requires Sane(s) && 1 <= c < 4 && Loading(s, c, p, now, flip)
    ensures Loading(Reconcile(cf, s), c, p, now, flip)
    ensures c in Reconcile(cf, s).reg.mask <==> c in s.reg.mask
  {
    hide Reconcile;
    ReconcileLeaves(cf, s, c);
  }

  lemma ByteLoaded(cf: Config, s: State, buffer: seq<int>, addr: int, val: int, c: int, p: Program, now: Current, flip: bool)
    requires Sane(s) && |buffer| == 65536 && 0 <= addr < 8 && 0 <= val < 256 && 1 <= c < 4 && addr / 2 == c
    requires Loading(s, c, p, now, flip)
    ensures var q := Reprogrammed(cf, p, addr, val, !flip);
            Loading(DmaWrite(cf, s, buffer, addr, val).0, c, q,
                    if addr % 2 == 0 then now.(ac := q.ab) else now.(cc := q.cb), !flip)
  {
    hide Reconcile, Reprogrammed;
    var w := WriteProgram(cf, s, addr, val);
    ReconcileLoading(cf, w, c, w.prog[c], w.cur[c], !flip);
  }

  lemma ModeLoaded(cf: Config, s: State, buffer: seq<int>, val: int, c: int)
    requires Sane(s) && |buffer| == 65536 && 0 <= val < 256 && 1 <= c < 4 && val % 4 == c
    requires !s.reg.soft && s.reg.command / 4 % 2 == 0 && c in s.reg.enabled && c !in s.reg.advPend
    ensures Loading(DmaWrite(cf, s, buffer, 11, val).0, c, s.prog[c].(mode := val), s.cur[c], s.reg.flipFlop)
  {
    hide Reconcile;
    ReconcileLoading(cf, Written(cf, s, buffer, 11, val).0, c, s.prog[c].(mode := val), s.cur[c], s.reg.flipFlop);
  }

  lemma FlipFlopCleared(cf: Config, s: State, buffer: seq<int>, c: int, p: Program, now: Current, flip: bool)
    requires Sane(s) && |buffer| == 65536 && 1 <= c < 4 && Loading(s, c, p, now, flip)
    ensures Loading(DmaWrite(cf, s, buffer, 12, 0).0, c, p, now, false)
  {
    hide Reconcile;
    ReconcileLoading(cf, Written(cf, s, buffer, 12, 0).0, c, p, now, false);
  }

  lemma Unmasked(cf: Config, s: State, buffer: seq<int>, c: int, p: Program, now: Current, flip: bool)
    requires Sane(s) && |buffer| == 65536 && 1 <= c < 4 && Loading(s, c, p, now, flip)
    ensures var r := DmaWrite(cf, s, buffer, 10, c).0; Loading(r, c, p, now, flip) && c !in r.reg.mask
  {
    hide Reconcile;
    ReconcileLoading(cf, Written(cf, s, buffer, 10, c).0, c, p, now, flip);
  }

  /** A 16-bit value written to an address or count register, low byte first. */
  function WriteWord(cf: Config, s: State, buffer: seq<int>, addr: int, w: int): (r: State)
    requires Sane(s) && |buffer| == 65536 && 0 <= addr < 8 && 0 <= w < 65536
    ensures Sane(r)
  {
    DmaWrite(cf, DmaWrite(cf, s, buffer, addr, w % 256).0, buffer, addr, w / 256).0
  }

  lemma HalvesJoin(v: int, w: int)
    requires 0 <= w < 65536
    ensures HighByte(LowByte(v, w % 256), w / 256) == w
  {
  }

  /** The new address or count replaces the old one entirely, and the flip-flop is back where it was. */
  function Rewritten(cf: Config, p: Program, addr: int, w: int): Program {
    if addr % 2 == 0 then p.(ab := Address(p.ab.page & cf.pageMask, w)) else p.(cb := w)
  }

  lemma WordLoaded(cf: Config, s: State, buffer: seq<int>, addr: int, w: int, c: int, p: Program, now: Current)
    requires Sane(s) && |buffer| == 65536 && 0 <= addr < 8 && 0 <= w < 65536 && 1 <= c < 4 && addr / 2 == c
    requires Loading(s, c, p, now, false)
    ensures var q := Rewritten(cf, p, addr, w);
            Loading(WriteWord(cf, s, buffer, addr, w), c, q,
                    if addr % 2 == 0 then now.(ac := q.ab) else now.(cc := q.cb), false)
  {
    hide Loading, DmaWrite, LowByte, HighByte;
    var t := DmaWrite(cf, s, buffer, addr, w % 256).0;
    ByteLoaded(cf, s, buffer, addr, w % 256, c, p, now, false);
    var q := Reprogrammed(cf, p, addr, w % 256, true);
    ByteLoaded(cf, t, buffer, addr, w / 256, c, q, if addr % 2 == 0 then now.(ac := q.ab) else now.(cc := q.cb), true);
    HalvesJoin(p.ab.offset, w);
    HalvesJoin(p.cb, w);
    PageStable(p.ab.page, cf.pageMask);
  }

  /** The writes a driver makes: mode, clear flip-flop, address, count, unmask. */
  function Load(cf: Config, s0: State, buffer: seq<int>, c: int, mode: int, offset: int, count: int): (r: State)
    requires Sane(s0) && |buffer| == 65536 && 1 <= c < 4
    requires 0 <= mode < 256 && 0 <= offset < 65536 && 0 <= count < 65536
    ensures Sane(r)
  {
    var s1 := DmaWrite(cf, s0, buffer, 11, mode).0;
    var s2 := DmaWrite(cf, s1, buffer, 12, 0).0;
    var s3 := WriteWord(cf, s2, buffer, 2 * c, offset);
    var s4 := WriteWord(cf, s3, buffer, 2 * c + 1, count);
    DmaWrite(cf, s4, buffer, 10, c).0
  }

  /** Whatever was programmed before and wherever the flip-flop stood, these writes leave the channel at unit
      0 of the program asked for. */
  lemma LoadedIsReady(cf: Config, s0: State, buffer: seq<int>, c: int, mode: int, offset: int, count: int)
    requires Sane(s0) && |buffer| == 65536 && 1 <= c < 4 && 0 <= offset < 65536 && 0 <= count < 65536
    requires 0 <= mode < 256 && mode % 4 == c && mode / 64 != 3
    requires !s0.reg.soft && s0.reg.command / 4 % 2 == 0 && c in s0.reg.enabled && c !in s0.reg.advPend
    ensures var p := Program(mode, count, Address(s0.prog[c].ab.page & cf.pageMask, offset));
            var s := Load(cf, s0, buffer, c, mode, offset, count);
            After(cf, s, c, p, 0) && c !in s.xt.demand && c !in s.xt.block
  {
    hide Loading, Disabled, DmaWrite, WriteWord;
    var s1 := DmaWrite(cf, s0, buffer, 11, mode).0;
    ModeLoaded(cf, s0, buffer, mode, c);
    var p0, now0 := s0.prog[c].(mode := mode), s0.cur[c];
    var s2 := DmaWrite(cf, s1, buffer, 12, 0).0;
    FlipFlopCleared(cf, s1, buffer, c, p0, now0, s0.reg.flipFlop);
    var s3 := WriteWord(cf, s2, buffer, 2 * c, offset);
    WordLoaded(cf, s2, buffer, 2 * c, offset, c, p0, now0);
    var p1 := Rewritten(cf, p0, 2 * c, offset);
    var now1 := now0.(ac := p1.ab);
    var s4 := WriteWord(cf, s3, buffer, 2 * c + 1, count);
    WordLoaded(cf, s3, buffer, 2 * c + 1, count, c, p1, now1);
    var p2 := Rewritten(cf, p1, 2 * c + 1, count);
    Unmasked(cf, s4, buffer, c, p2, Current(p2.ab, p2.cb), false);
    LoadedUnit(cf, Load(cf, s0, buffer, c, mode, offset, count), c, p2);
  }

  lemma LoadedUnit(cf: Config, s: State, c: int, p: Program)
    requires Sane(s) && 1 <= c < 4 && 0 <= p.mode < 256 && p.mode / 64 != 3 && p.cb >= 0
    requires Loading(s, c, p, Current(p.ab, p.cb), false) && c !in s.reg.mask
    ensures After(cf, s, c, p, 0) && c !in s.xt.demand && c !in s.xt.block
  {
  }
}
