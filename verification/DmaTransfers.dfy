/** What everything else going on leaves alone of a peripheral channel. */
module DmaTransfers {
  import opened Arith
  import opened Dma
  import opened DmaRefresh

  // ----- what another channel's traffic leaves alone -----

  predicate Undisturbed(s: State, t: State, c: int)
    requires Sane(s) && Sane(t) && 0 <= c < 4
  {
    && t.prog[c] == s.prog[c] && t.cur[c] == s.cur[c]
    && t.reg.command == s.reg.command && t.reg.enabled == s.reg.enabled && t.reg.soft == s.reg.soft
    && (c in t.reg.mask <==> c in s.reg.mask)
    && (c in t.reg.stat <==> c in s.reg.stat)
    && (c in t.reg.advPend <==> c in s.reg.advPend)
    && (c in t.xt.eop <==> c in s.xt.eop)
  }

  /** The same, and its claims to service too: line, software request and ownership. */
  predicate Untouched(s: State, t: State, c: int)
    requires Sane(s) && Sane(t) && 0 <= c < 4
  {
    && Undisturbed(s, t, c)
    && (c in t.reg.rqPc <==> c in s.reg.rqPc) && (c in t.xt.sw <==> c in s.xt.sw)
    && (c in t.xt.demand <==> c in s.xt.demand) && (c in t.xt.block <==> c in s.xt.block)
  }

  lemma FinishLeaves(s: State, d: int, c: int)
    requires Sane(s) && 0 <= d < 4 && 0 <= c < 4 && d != c
    ensures Untouched(s, FinishTransfer(s, d), c)
  {
  }

  lemma MovedLeaves(cf: Config, s: State, d: int, c: int)
    requires Sane(s) && 0 <= d < 4 && 0 <= c < 4 && d != c
    ensures Untouched(s, Moved(cf, s, d), c)
  {
  }

  lemma RefreshLeaves(cf: Config, s: State, c: int)
    requires Sane(s) && 1 <= c < 4
    ensures Untouched(s, RefreshDack(cf, s), c)
  {
    hide Untouched, DrqLine;
    UnitLeaves(cf, s, c);
    var t := RefreshUnit(cf, s);
    hide RefreshUnit;
    var u := t.(ref := t.ref.(queued := false, scheduled := false, services := t.ref.services + 1));
    QueuedLeaves(t, u.ref, c);
    LineLeaves(u, 0, false, c);
    Chained(s, t, u, c);
    Chained(s, u, DrqLine(u, 0, false), c);
  }

  lemma SettleLeaves(s: State, c: int)
    requires Sane(s) && 1 <= c < 4
    ensures Untouched(s, Settle0(s), c)
  {
    hide Untouched, FinishTransfer;
    Unchanged(s, c);
    MarkedLeaves(s, s.mem, 0, false, c);
    FinishLeaves(WithoutPending(s, 0), 0, c);
    Chained(s, WithoutPending(s, 0), FinishTransfer(WithoutPending(s, 0), 0), c);
  }

  lemma UnitLeaves(cf: Config, s: State, c: int)
    requires Sane(s) && 1 <= c < 4
    ensures Untouched(s, RefreshUnit(cf, s), c)
  {
    hide Untouched, FinishTransfer, Moved, CanService, Settle0;
    SettleLeaves(s, c);
    var t := Settle0(s);
    var u := Moved(cf, t, 0);
    MovedLeaves(cf, t, 0, c);
    Chained(s, t, u, c);
    MarkedLeaves(u, u.mem, 0, false, c);
    Chained(s, u, WithoutPending(u, 0), c);
    FinishLeaves(u, 0, c);
    FinishLeaves(WithoutPending(u, 0), 0, c);
    Chained(s, u, FinishTransfer(u, 0), c);
    Chained(s, WithoutPending(u, 0), FinishTransfer(WithoutPending(u, 0), 0), c);
  }

  lemma ReconcileLeaves(cf: Config, s: State, c: int)
    requires Sane(s) && 1 <= c < 4
    ensures Untouched(s, Reconcile(cf, s), c)
  {
    hide RefreshDack, CanService;
    RefreshLeaves(cf, s.(ref := s.ref.(scheduled := true)), c);
  }

  lemma CompleteLeaves(cf: Config, s: State, d: int, c: int)
    requires Sane(s) && 0 <= d < 4 && 1 <= c < 4 && d != c
    ensures Untouched(s, Complete(cf, s, d), c)
  {
    hide Untouched, FinishTransfer, Reconcile;
    FinishLeaves(s, d, c);
    ReconcileLeaves(cf, FinishTransfer(s, d), c);
    Chained(s, FinishTransfer(s, d), Complete(cf, s, d), c);
  }

  lemma AdvanceLeaves(cf: Config, s: State, d: int, c: int)
    requires Sane(s) && 1 <= c < 4 && d != c
    ensures Untouched(s, Advance(cf, s, d), c)
  {
    hide Untouched, Complete, Reconcile;
    Unchanged(s, c);
    ReconcileLeaves(cf, s, c);
    if 0 <= d < 4 {
      MarkedLeaves(s, s.mem, d, false, c);
      CompleteLeaves(cf, WithoutPending(s, d), d, c);
      Chained(s, WithoutPending(s, d), Complete(cf, WithoutPending(s, d), d), c);
    }
  }

  lemma Chained(s: State, t: State, u: State, c: int)
    requires Sane(s) && Sane(t) && Sane(u) && 0 <= c < 4 && Untouched(s, t, c) && Untouched(t, u, c)
    ensures Untouched(s, u, c)
  {
  }

  /** Changes of the memory and of other channels' pending advances are not seen either. */
  lemma MarkedLeaves(s: State, m: Memory, d: int, on: bool, c: int)
    requires Sane(s) && 0 <= c < 4 && d != c
    ensures Untouched(s, s.(mem := m), c)
    ensures Untouched(s, s.(reg := s.reg.(advPend := if on then s.reg.advPend + {d} else s.reg.advPend - {d})), c)
  {
  }

  lemma ReadLeaves(cf: Config, s: State, d: int, c: int)
    requires Sane(s) && 1 <= c < 4 && d != c
    ensures Untouched(s, ChannelRead(cf, s, d).0, c) && Untouched(s, ChannelReadOnly(cf, s, d).0, c)
  {
    hide Complete, Advance, Moved, Readable, Untouched;
    AdvanceLeaves(cf, s, d, c);
    MarkedLeaves(s, s.mem, d, false, c);
    assert s.(mem := s.mem) == s;
    if 0 <= d < 4 {
      var a := Settled(cf, s, d);
      var t := Moved(cf, a, d);
      MovedLeaves(cf, a, d, c);
      CompleteLeaves(cf, t, d, c);
      MarkedLeaves(t, t.mem, d, true, c);
      Chained(s, a, t, c);
      Chained(s, t, Complete(cf, t, d), c);
      Chained(s, t, t.(reg := t.reg.(advPend := t.reg.advPend + {d})), c);
    } else {
      OutOfRange(cf, s, d);
    }
  }

  lemma OutOfRange(cf: Config, s: State, d: int)
    requires Sane(s) && !(0 <= d < 4)
    ensures ChannelRead(cf, s, d).0 == ChannelReadOnly(cf, s, d).0 == s
  {
  }

  lemma WriteLeaves(cf: Config, s: State, d: int, val: int, c: int)
    requires Sane(s) && 1 <= c < 4 && d != c
    ensures Untouched(s, ChannelWrite(cf, s, d, val).0, c)
  {
    hide Complete, Moved, Writable, Untouched;
    MarkedLeaves(s, s.mem, d, false, c);
    assert s.(mem := s.mem) == s;
    if 0 <= d < 4 {
      var a := Stored(s, d, val);
      MarkedLeaves(s, a.mem, d, false, c);
      assert a == s.(mem := a.mem);
      var t := Moved(cf, a, d);
      MovedLeaves(cf, a, d, c);
      var u := WithoutPending(t, d);
      MarkedLeaves(t, t.mem, d, false, c);
      CompleteLeaves(cf, u, d, c);
      Chained(s, a, t, c);
      Chained(s, t, u, c);
      Chained(s, u, Complete(cf, u, d), c);
    }
  }

  lemma {:induction false} BlockLeaves(cf: Config, s: State, buffer: seq<int>, d: int, i: int, c: int)
    requires Sane(s) && |buffer| == 65536 && 0 <= d < 4 && 1 <= c < 4 && d != c
    ensures Untouched(s, BlockFrom(cf, s, buffer, d, i).0, c)
    decreases 65536 - i
  {
    hide Untouched, ChannelRead, ChannelWrite, Type;
    if i < 0 || i > s.prog[d].cb || i >= 65536 {
      Unchanged(s, c);
    } else if s.prog[d].mode / 128 % 2 == 1 && Type(s.prog[d]) == 1 {
      var w := ChannelWrite(cf, s, d, buffer[i]).0;
      WriteLeaves(cf, s, d, buffer[i], c);
      BlockLeaves(cf, w, buffer, d, i + 1, c);
      Chained(s, w, BlockFrom(cf, w, buffer, d, i + 1).0, c);
    } else if s.prog[d].mode / 128 % 2 == 1 && Type(s.prog[d]) == 2 {
      var r := ChannelRead(cf, s, d);
      ReadLeaves(cf, s, d, c);
      BlockLeaves(cf, r.0, buffer[i := r.1 % 256], d, i + 1, c);
      Chained(s, r.0, BlockFrom(cf, r.0, buffer[i := r.1 % 256], d, i + 1).0, c);
    } else {
      BlockLeaves(cf, s, buffer, d, i + 1, c);
    }
  }

  lemma {:induction false} CopyLeaves(cf: Config, s: State, c: int)
    requires Sane(s) && 2 <= c < 4
    ensures Untouched(s, CopyFrom(cf, s), c)
    decreases if s.cur[1].cc < 0 then 0 else s.cur[1].cc + 1
  {
    var t := Tallied(Copied(cf, s));
    CopiedLeaves(cf, s, c);
    hide Untouched, CanService, Copied, Tallied;
    if CopyEnds(Copied(cf, s)) || Service(t.prog[0]) != 2 || !CanService(t, 0) {
    } else {
      CopyLeaves(cf, t, c);
      Chained(s, t, CopyFrom(cf, t), c);
    }
  }

  lemma CopiedLeaves(cf: Config, s: State, c: int)
    requires Sane(s) && 2 <= c < 4
    ensures Untouched(s, Tallied(Copied(cf, s)), c)
  {
    hide NextAddress;
  }

  /** Events that do not address channel c: not its register writes, not its own transfers and not its EOP.
      Its request line may rise and fall as it likes.  Commands, master clear and whole-mask writes address
      every channel; a memory-to-memory copy addresses channels 0 and 1. */
  predicate Foreign(e: Event, c: int) {
    match e
    case Edge => true
    case Dack => true
    case Line(_, _) => true
    case EndOfProcess(d, on) => d != c
    case Read(d) => d != c
    case Write(d, _) => d != c
    case ReadOnly(d) => d != c
    case Settle(d) => d != c
    case Register(addr, val) =>
      if addr % 16 < 8 then addr % 16 / 2 != c
      else if addr % 16 == 9 then val % 4 != c && !(c == 1 && val % 4 == 0)
      else addr % 16 == 12 || (addr % 16 in {10, 11} && val % 4 != c)
  }

  lemma WrittenLeaves(cf: Config, s: State, buffer: seq<int>, addr: int, val: int, c: int)
    requires Sane(s) && |buffer| == 65536 && 0 <= addr < 16 && 0 <= val < 256 && 1 <= c < 4
    requires Foreign(Register(addr, val), c) && !s.reg.soft
    ensures Untouched(s, Written(cf, s, buffer, addr, val).0, c)
  {
    hide Untouched, WriteProgram, MemToMem, BlockTransfer;
    if addr < 8 {
      ProgramLeaves(cf, s, addr, val, c);
    } else if addr == 9 && val / 4 % 2 == 1 {
      SoftwareLeaves(cf, s, buffer, val % 4, c);
    } else {
      ControlLeaves(cf, s, buffer, addr, val, c);
    }
  }

  lemma ProgramLeaves(cf: Config, s: State, addr: int, val: int, c: int)
    requires Sane(s) && 0 <= addr < 8 && 0 <= val < 256 && 1 <= c < 4 && addr / 2 != c
    ensures Untouched(s, WriteProgram(cf, s, addr, val), c)
  {
    hide LowByte, HighByte;
  }

  lemma ControlLeaves(cf: Config, s: State, buffer: seq<int>, addr: int, val: int, c: int)
    requires Sane(s) && |buffer| == 65536 && addr in {9, 10, 11, 12} && 0 <= val < 256 && 1 <= c < 4
    requires (addr != 12 ==> val % 4 != c) && !(addr == 9 && val / 4 % 2 == 1)
    ensures Untouched(s, Written(cf, s, buffer, addr, val).0, c)
  {
    hide Rotating;
  }

  lemma SoftwareLeaves(cf: Config, s: State, buffer: seq<int>, d: int, c: int)
    requires Sane(s) && |buffer| == 65536 && 0 <= d < 4 && 1 <= c < 4 && d != c && !s.reg.soft
    ensures var t := s.(xt := s.xt.(sw := s.xt.sw + {d}));
            && Untouched(s, BlockTransfer(cf, t, buffer, d).0, c)
            && (d == 0 && c != 1 ==> Untouched(s, MemToMem(cf, t), c))
  {
    hide BlockFrom, CopyFrom, CanService;
    var t := s.(xt := s.xt.(sw := s.xt.sw + {d}));
    BlockLeaves(cf, WithSoft(t, true), buffer, d, 0, c);
    if c != 1 {
      CopyLeaves(cf, BeginService(t.(xt := t.xt.(inMemToMem := true)), 0), c);
    }
  }

  lemma LinesLeave(cf: Config, s: State, d: int, on: bool, c: int)
    requires Sane(s) && 1 <= c < 4 && d != c
    ensures Untouched(s, SetDrq(cf, s, d, on), c)
  {
    hide Reconcile, Untouched, DrqLine;
    Unchanged(s, c);
    LineLeaves(s, d, on, c);
    ReconcileLeaves(cf, DrqLine(s, d, on), c);
    if 0 <= d <= 7 {
      Chained(s, DrqLine(s, d, on), Reconcile(cf, DrqLine(s, d, on)), c);
    }
  }

  lemma EdgeLeaves(cf: Config, s: State, c: int)
    requires Sane(s) && 1 <= c < 4
    ensures Untouched(s, RefreshRequest(cf, s), c)
  {
    hide Reconcile, Untouched, DrqLine;
    ReconcileLeaves(cf, s, c);
    var t := s.(ref := s.ref.(queued := true, settings := s.ref.settings + 1));
    QueuedLeaves(s, t.ref, c);
    LineLeaves(t, 0, true, c);
    ReconcileLeaves(cf, DrqLine(t, 0, true), c);
    Chained(s, t, DrqLine(t, 0, true), c);
    Chained(s, DrqLine(t, 0, true), Reconcile(cf, DrqLine(t, 0, true)), c);
  }

  lemma Unchanged(s: State, c: int)
    requires Sane(s) && 0 <= c < 4
    ensures Untouched(s, s, c)
  {
  }

  lemma QueuedLeaves(s: State, ref: Refresh, c: int)
    requires Sane(s) && 0 <= c < 4
    ensures Untouched(s, s.(ref := ref), c)
  {
  }

  lemma LineLeaves(s: State, d: int, on: bool, c: int)
    requires Sane(s) && 1 <= c < 4 && d != c
    ensures Untouched(s, DrqLine(s, d, on), c)
  {
  }

  lemma RegisterLeaves(cf: Config, s: State, buffer: seq<int>, addr: int, val: int, c: int)
    requires Sane(s) && |buffer| == 65536 && 0 <= addr < 16 && 0 <= val < 256 && 1 <= c < 4
    requires Foreign(Register(addr, val), c) && !s.reg.soft
    ensures Untouched(s, DmaWrite(cf, s, buffer, addr, val).0, c)
  {
    hide Written, Reconcile;
    WrittenLeaves(cf, s, buffer, addr, val, c);
    ReconcileLeaves(cf, Written(cf, s, buffer, addr, val).0, c);
  }

  lemma PinsLeave(cf: Config, s: State, d: int, on: bool, c: int)
    requires Sane(s) && 1 <= c < 4 && d != c
    ensures Untouched(s, AdapterDack(cf, s), c) && Untouched(s, SetEop(s, d, on), c)
  {
    hide RefreshDack;
    RefreshLeaves(cf, s.(adapter := s.adapter.(pending := false)), c);
  }

  /** The channel's own line: a demand transfer loses the bus when it falls. */
  lemma OwnLine(cf: Config, s: State, c: int, on: bool)
    requires Sane(s) && 1 <= c < 4
    ensures var t := SetDrq(cf, s, c, on);
            && Undisturbed(s, t, c) && (c in t.reg.rqPc <==> on) && (c in t.xt.sw <==> c in s.xt.sw)
            && (c in t.xt.demand <==> c in s.xt.demand && on)
            && (c in t.xt.block <==> c in s.xt.block && !(c in s.xt.demand && !on))
  {
    hide Reconcile;
    ReconcileLeaves(cf, DrqLine(s, c, on), c);
  }

  /** Whatever does not address a channel leaves its program, address, count, mask and status alone, and, its own
      line aside, its claims to service. */
  lemma ForeignLeaves(cf: Config, s: State, buffer: seq<int>, e: Event, c: int)
    requires Sane(s) && |buffer| == 65536 && 1 <= c < 4 && Foreign(e, c) && !s.reg.soft
    ensures Undisturbed(s, Step(cf, s, buffer, e).0, c)
    ensures !(e.Line? && e.c == c) ==> Untouched(s, Step(cf, s, buffer, e).0, c)
  {
    hide ChannelRead, ChannelWrite, ChannelReadOnly, Advance, DmaWrite, AdapterDack, SetDrq, SetEop, RefreshRequest;
    hide Undisturbed;
    match e
    case Edge => EdgeLeaves(cf, s, c);
    case Dack => PinsLeave(cf, s, 0, true, c);
    case Line(d, on) =>
      if d == c {
        OwnLine(cf, s, c, on);
      } else {
        LinesLeave(cf, s, d, on, c);
      }
    case EndOfProcess(d, on) => PinsLeave(cf, s, d, on, c);
    case Read(d) => ReadLeaves(cf, s, d, c);
    case Write(d, val) => WriteLeaves(cf, s, d, val, c);
    case ReadOnly(d) => ReadLeaves(cf, s, d, c);
    case Settle(d) => AdvanceLeaves(cf, s, d, c);
    case Register(addr, val) =>
      ForeignLow(addr, val, c);
      RegisterLeaves(cf, s, buffer, addr % 16, val % 256, c);
  }

  lemma ForeignLow(addr: int, val: int, c: int)
    requires Foreign(Register(addr, val), c)
    ensures Foreign(Register(addr % 16, val % 256), c)
  {
    LowBits(val);
    assert addr % 16 % 16 == addr % 16;
  }

  // ----- requests of the other channels -----

  lemma ReconcileRequests(cf: Config, s: State, c: int)
    requires Sane(s) && 1 <= c < 4
    ensures c in Requests(Reconcile(cf, s)) <==> c in Requests(s)
  {
    hide CanService, RefreshDack;
    DackRequests(cf, s.(ref := s.ref.(scheduled := true)), c);
  }

  lemma DackRequests(cf: Config, s: State, c: int)
    requires Sane(s) && 1 <= c < 4
    ensures c in Requests(RefreshDack(cf, s)) <==> c in Requests(s)
  {
    hide FinishTransfer, Moved, CanService, Requests;
    var t := Settle0(s);
    UnitRequests(cf, s, c);
    UnitRequests(cf, WithoutPending(s, 0), c);
    UnitRequests(cf, t, c);
    UnitRequests(cf, Moved(cf, t, 0), c);
    UnitRequests(cf, WithoutPending(Moved(cf, t, 0), 0), c);
    var u := RefreshUnit(cf, s);
    var ref := u.ref.(queued := false, scheduled := false, services := u.ref.services + 1);
    LatchRequests(u, ref);
    UnitRequests(cf, u.(ref := ref), c);
  }

  lemma UnitRequests(cf: Config, s: State, c: int)
    requires Sane(s) && 1 <= c < 4
    ensures c in Requests(FinishTransfer(s, 0)) <==> c in Requests(s)
    ensures c in Requests(Moved(cf, s, 0)) <==> c in Requests(s)
    ensures c in Requests(WithoutPending(s, 0)) <==> c in Requests(s)
    ensures c in Requests(DrqLine(s, 0, false)) <==> c in Requests(s)
  {
    hide NextAddress;
  }

  lemma LatchRequests(s: State, ref: Refresh)
    ensures Requests(s.(ref := ref)) == Requests(s)
  {
  }
}
