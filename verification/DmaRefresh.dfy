/** The refresh request latch under every interleaving of timer edges, acknowledges, request-line
    changes, device transfers and register writes. */
module DmaRefresh {
  import opened Dma

  datatype Event =
    | Edge
    | Dack
    | Line(c: int, on: bool)
    | EndOfProcess(c: int, on: bool)
    | Read(c: int)
    | Write(c: int, val: int)
    | ReadOnly(c: int)
    | Settle(c: int)
    | Register(addr: int, val: int)

  function Step(cf: Config, s: State, buffer: seq<int>, e: Event): (r: (State, seq<int>))
    requires Sane(s) && |buffer| == 65536
    ensures Sane(r.0) && |r.1| == 65536
  {
    match e
    case Edge => (RefreshRequest(cf, s), buffer)
    case Dack => (AdapterDack(cf, s), buffer)
    case Line(c, on) => (SetDrq(cf, s, c, on), buffer)
    case EndOfProcess(c, on) => (SetEop(s, c, on), buffer)
    case Read(c) => (ChannelRead(cf, s, c).0, buffer)
    case Write(c, val) => (ChannelWrite(cf, s, c, val).0, buffer)
    case ReadOnly(c) => (ChannelReadOnly(cf, s, c).0, buffer)
    case Settle(c) => (Advance(cf, s, c), buffer)
    case Register(addr, val) => DmaWrite(cf, s, buffer, addr % 16, val % 256)
  }

  function Run(cf: Config, s: State, buffer: seq<int>, evs: seq<Event>): (r: (State, seq<int>))
    requires Sane(s) && |buffer| == 65536
    ensures Sane(r.0) && |r.1| == 65536
    decreases |evs|
  {
    if evs == [] then (s, buffer)
    else
      var r := Step(cf, s, buffer, evs[0]);
      Run(cf, r.0, r.1, evs[1..])
  }

  /** A schedule needs a latched request, and is exactly a request the adapter holds; without the clocked
      adapter none outlives the call that made it.  Every setting of the latch but the one pending has
      been served once. */
  predicate Protocol(cf: Config, s: State) {
    && (s.ref.scheduled ==> s.ref.queued)
    && (if cf.clocked then s.adapter.pending == s.ref.scheduled else !s.adapter.pending && !s.ref.scheduled)
    && s.ref.settings == s.ref.services + if s.ref.queued then 1 else 0
  }

  lemma DackKeeps(cf: Config, s: State)
    requires Sane(s) && s.ref.queued && !s.adapter.pending && s.ref.settings == s.ref.services + 1
    ensures Protocol(cf, RefreshDack(cf, s))
    ensures RefreshDack(cf, s).ref == Refresh(false, false, s.ref.settings, s.ref.services + 1)
    ensures RefreshDack(cf, s).adapter == s.adapter
  {
  }

  lemma ReconcileKeeps(cf: Config, s: State)
    requires Sane(s) && Protocol(cf, s)
    ensures Protocol(cf, Reconcile(cf, s)) && Reconcile(cf, s).ref.settings == s.ref.settings
    ensures Reconcile(cf, s).adapter.asked >= s.adapter.asked
  {
  }

  /** What a reconciliation leaves behind.  With the clocked adapter: a serviceable request is scheduled
      and an unserviceable one is not, unless the adapter was just asked and said no.  Otherwise: no
      serviceable request is left. */
  ghost predicate Reconciled(cf: Config, asked: nat, s: State)
    requires Sane(s)
  {
    if cf.clocked then
      s.ref.scheduled == Serviceable(s) || (s.adapter.asked > asked && !cf.answers(s.adapter.asked - 1))
    else !s.ref.scheduled && !Serviceable(s)
  }

  lemma ReconcileSettles(cf: Config, s: State)
    requires Sane(s) && Protocol(cf, s)
    ensures Reconciled(cf, s.adapter.asked, Reconcile(cf, s))
    ensures !cf.clocked && Serviceable(s) ==>
              Reconcile(cf, s).ref == Refresh(false, false, s.ref.settings, s.ref.services + 1)
  {
  }

  /** With the clocked adapter a reconciliation asks it exactly if schedule and serviceability disagree, and they
      agree afterwards exactly if it was not asked or said yes. */
  lemma ReconcileAsks(cf: Config, s: State)
    requires Sane(s) && Protocol(cf, s) && cf.clocked
    ensures var t := Reconcile(cf, s);
            && t.adapter.asked == s.adapter.asked + (if s.ref.scheduled == Serviceable(s) then 0 else 1)
            && (t.ref.scheduled == Serviceable(t) <==> t.adapter.asked == s.adapter.asked || cf.answers(s.adapter.asked))
            && t == s.(ref := s.ref.(scheduled := t.ref.scheduled), adapter := t.adapter)
  {
  }

  /** An advance with nothing pending retries a latched refresh. */
  lemma AdvanceReconciles(cf: Config, s: State, c: int)
    requires Sane(s) && Protocol(cf, s) && 1 <= c < 4 && c !in s.reg.advPend && s.ref.queued
    ensures Reconciled(cf, s.adapter.asked, Advance(cf, s, c))
  {
    hide Reconcile;
    ReconcileSettles(cf, s);
  }

  lemma CompleteKeeps(cf: Config, s: State, c: int)
    requires Sane(s) && Protocol(cf, s) && 0 <= c < 4
    ensures Protocol(cf, Complete(cf, s, c)) && Complete(cf, s, c).ref.settings == s.ref.settings
    ensures Complete(cf, s, c).adapter.asked >= s.adapter.asked
  {
    hide FinishTransfer, Reconcile;
    ReconcileKeeps(cf, FinishTransfer(s, c));
  }

  lemma AdvanceKeeps(cf: Config, s: State, c: int)
    requires Sane(s) && Protocol(cf, s)
    ensures Protocol(cf, Advance(cf, s, c)) && Advance(cf, s, c).ref.settings == s.ref.settings
    ensures Advance(cf, s, c).adapter.asked >= s.adapter.asked
  {
    hide Complete, Reconcile;
    ReconcileKeeps(cf, s);
    if 0 <= c < 4 {
      CompleteKeeps(cf, WithoutPending(s, c), c);
    }
  }

  lemma TransferKeeps(cf: Config, s: State, c: int, val: int)
    requires Sane(s) && Protocol(cf, s)
    ensures Protocol(cf, ChannelRead(cf, s, c).0) && Protocol(cf, ChannelWrite(cf, s, c, val).0)
    ensures Protocol(cf, ChannelReadOnly(cf, s, c).0)
    ensures ChannelRead(cf, s, c).0.ref.settings == ChannelWrite(cf, s, c, val).0.ref.settings == s.ref.settings
    ensures ChannelReadOnly(cf, s, c).0.ref.settings == s.ref.settings
    ensures ChannelRead(cf, s, c).0.adapter.asked >= s.adapter.asked
    ensures ChannelWrite(cf, s, c, val).0.adapter.asked >= s.adapter.asked
  {
    hide Complete, Advance, Moved, Readable, Writable, CanService;
    AdvanceKeeps(cf, s, c);
    if 0 <= c < 4 {
      CompleteKeeps(cf, Moved(cf, Settled(cf, s, c), c), c);
      CompleteKeeps(cf, WithoutPending(Moved(cf, Stored(s, c, val), c), c), c);
    }
  }

  lemma {:induction false} BlockKeeps(cf: Config, s: State, buffer: seq<int>, c: int, i: int)
    requires Sane(s) && Protocol(cf, s) && |buffer| == 65536 && 0 <= c < 4
    ensures var r := BlockFrom(cf, s, buffer, c, i).0;
            Protocol(cf, r) && r.ref.settings == s.ref.settings && r.adapter.asked >= s.adapter.asked
    decreases 65536 - i
  {
    hide ChannelRead, ChannelWrite, Protocol;
    if i < 0 || i > s.prog[c].cb || i >= 65536 {
    } else {
      TransferKeeps(cf, s, c, buffer[i]);
      var w, r := ChannelWrite(cf, s, c, buffer[i]).0, ChannelRead(cf, s, c);
      BlockKeeps(cf, w, buffer, c, i + 1);
      BlockKeeps(cf, r.0, buffer[i := r.1 % 256], c, i + 1);
      BlockKeeps(cf, s, buffer, c, i + 1);
    }
  }

  lemma WrittenKeeps(cf: Config, s: State, buffer: seq<int>, addr: int, val: int)
    requires Sane(s) && Protocol(cf, s) && |buffer| == 65536 && 0 <= addr < 16 && 0 <= val < 256
    ensures var r := Written(cf, s, buffer, addr, val).0;
            Protocol(cf, r) && r.ref.settings == s.ref.settings && r.adapter.asked >= s.adapter.asked
  {
    hide BlockFrom, MemToMem, WriteProgram, Released, Nibble;
    if addr == 9 && val / 4 % 2 == 1 {
      var t := s.(xt := s.xt.(sw := s.xt.sw + {val % 4}));
      BlockKeeps(cf, WithSoft(t, true), buffer, val % 4, 0);
    }
  }

  lemma EdgeKeeps(cf: Config, s: State)
    requires Sane(s) && Protocol(cf, s)
    ensures Protocol(cf, RefreshRequest(cf, s))
    ensures RefreshRequest(cf, s).ref.settings == s.ref.settings + if s.ref.queued then 0 else 1
  {
  }

  lemma StepKeeps(cf: Config, s: State, buffer: seq<int>, e: Event)
    requires Sane(s) && Protocol(cf, s) && |buffer| == 65536
    ensures var r := Step(cf, s, buffer, e).0;
            && Protocol(cf, r)
            && r.ref.settings == s.ref.settings + if e == Edge && !s.ref.queued then 1 else 0
  {
    hide RefreshRequest, ChannelRead, ChannelWrite, ChannelReadOnly, Advance, Written, Reconcile, RefreshDack, Released;
    match e
    case Edge => EdgeKeeps(cf, s);
    case Dack =>
      if s.adapter.pending {
        DackKeeps(cf, s.(adapter := s.adapter.(pending := false)));
      }
    case Line(c, on) => ReconcileKeeps(cf, DrqLine(s, c, on));
    case EndOfProcess(c, on) =>
    case Read(c) => TransferKeeps(cf, s, c, 0);
    case Write(c, val) => TransferKeeps(cf, s, c, val);
    case ReadOnly(c) => TransferKeeps(cf, s, c, 0);
    case Settle(c) => AdvanceKeeps(cf, s, c);
    case Register(addr, val) =>
      WrittenKeeps(cf, s, buffer, addr % 16, val % 256);
      ReconcileKeeps(cf, Written(cf, s, buffer, addr % 16, val % 256).0);
  }

  /** The edges of a run that found the latch clear. */
  function Settings(cf: Config, s: State, buffer: seq<int>, evs: seq<Event>): int
    requires Sane(s) && |buffer| == 65536
    decreases |evs|
  {
    if evs == [] then 0
    else
      var r := Step(cf, s, buffer, evs[0]);
      (if evs[0] == Edge && !s.ref.queued then 1 else 0) + Settings(cf, r.0, r.1, evs[1..])
  }

  /** Over every interleaving: the protocol holds, and the edges that found the latch clear are exactly the
      services made since, plus what is now latched, less what was latched before. */
  lemma {:induction false} RunKeeps(cf: Config, s: State, buffer: seq<int>, evs: seq<Event>)
    requires Sane(s) && Protocol(cf, s) && |buffer| == 65536
    ensures var r := Run(cf, s, buffer, evs).0;
            && Protocol(cf, r)
            && Settings(cf, s, buffer, evs) ==
               r.ref.services - s.ref.services + (if r.ref.queued then 1 else 0) - (if s.ref.queued then 1 else 0)
    decreases |evs|
  {
    hide Step;
    if evs == [] {
    } else {
      var r := Step(cf, s, buffer, evs[0]);
      StepKeeps(cf, s, buffer, evs[0]);
      RunKeeps(cf, r.0, r.1, evs[1..]);
    }
  }

  /** After every register write, whatever it did: a serviceable request is scheduled unless the adapter,
      asked during this write, refused it; an unserviceable one is unscheduled unless the adapter, asked
      during this write, would not cancel. */
  lemma WriteReconciles(cf: Config, s: State, buffer: seq<int>, addr: int, val: int)
    requires Sane(s) && Protocol(cf, s) && |buffer| == 65536 && 0 <= addr < 16 && 0 <= val < 256
    ensures Reconciled(cf, s.adapter.asked, DmaWrite(cf, s, buffer, addr, val).0)
  {
    hide Written, Reconcile, CanService;
    var t := Written(cf, s, buffer, addr, val).0;
    WrittenKeeps(cf, s, buffer, addr, val);
    ReconcileSettles(cf, t);
  }

  /** The controller's own reset forgets the schedule but not the request the adapter holds; the CPU reset that
      follows it in a machine reset drops that too, so the protocol holds after a machine reset from any state
      whatever, with nothing latched. */
  lemma MachineResetRestores(cf: Config, s: State)
    ensures Protocol(cf, MachineReset(s)) && MachineReset(s).ref == Refresh(false, false, 0, 0)
    ensures AdapterDack(cf, MachineReset(s)) == MachineReset(s)
  {
  }
}
