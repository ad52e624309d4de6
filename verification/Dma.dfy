/** The 8237 controller of an XT machine: arbitration, ownership, transfers, and the refresh
    request latch, as functions on its state.  Bitmaps are sets of channel numbers. */
module Dma {

  // ----- state -----

  /** A physical address: the page latch and the 16-bit counter part. */
  datatype Address = Address(page: bv16, offset: int)

  /** What software programs for a channel: mode, base count and base address. */
  datatype Program = Program(mode: int, cb: int, ab: Address)

  /** The current address and count. */
  datatype Current = Current(ac: Address, cc: int)

  /** Masks, command, status, request lines and the byte flip-flop. */
  datatype Registers = Registers(mask: set<int>, enabled: set<int>, command: int, stat: set<int>, statRq: set<int>,
                                 rqPc: set<int>, advPend: set<int>, flipFlop: bool, soft: bool)

  /** Software requests, bus owners, external EOP, acknowledge, last channel served, temporary register. */
  datatype Xt = Xt(sw: set<int>, demand: set<int>, block: set<int>, eop: set<int>, dack: set<int>, last: int,
                   temp: int, inMemToMem: bool)

  /** The refresh latch, with counts of how often it was set and how often DACK0 cleared it. */
  datatype Refresh = Refresh(queued: bool, scheduled: bool, settings: int, services: int)

  /** The clocked CPU adapter: whether it holds an accepted request, and how often it was asked. */
  datatype Adapter = Adapter(pending: bool, asked: nat)

  type Memory = map<Address, int>

  datatype State = State(prog: seq<Program>, cur: seq<Current>, reg: Registers, xt: Xt, ref: Refresh,
                         adapter: Adapter, mem: Memory)

  /** What never changes: the page mask, whether the clocked adapter is in use, and its answers. */
  datatype Config = Config(pageMask: bv16, clocked: bool, answers: nat -> bool)

  const NODATA := -1
  const OVER := 0x1_0000
  const VERIFY := 0x2_0000
  const ALL: set<int> := {0, 1, 2, 3}

  predicate Sane(s: State) {
    |s.prog| == 4 && |s.cur| == 4
  }

  predicate Disabled(command: int) {
    command / 4 % 2 == 1
  }

  predicate Rotating(command: int) {
    command / 16 % 2 == 1
  }

  function Service(p: Program): int {
    p.mode / 64 % 4
  }

  function Type(p: Program): int {
    p.mode / 4 % 4
  }

  predicate AutoInit(p: Program) {
    p.mode / 16 % 2 == 1
  }

  predicate Downward(p: Program) {
    p.mode / 32 % 2 == 1
  }

  /** The channels whose bit is set in the low nibble. */
  function Nibble(v: int): set<int> {
    (if v % 2 == 1 then {0} else {}) + (if v / 2 % 2 == 1 then {1} else {})
    + (if v / 4 % 2 == 1 then {2} else {}) + (if v / 8 % 2 == 1 then {3} else {})
  }

  function Byte(mem: Memory, a: Address): int {
    if a in mem then mem[a] % 256 else 0xFF
  }

  // ----- arbitration -----

  /** The lowest channel of a set, or -1. */
  function Lowest(s: set<int>): int {
    if 0 in s then 0 else if 1 in s then 1 else if 2 in s then 2 else if 3 in s then 3 else -1
  }

  /** The channel i places after last, going round. */
  function Turn(last: int, i: int): int {
    (last + i) % 4
  }

  /** The first channel of a set after last, or -1. */
  function Next(s: set<int>, last: int): int {
    if Turn(last, 1) in s then Turn(last, 1)
    else if Turn(last, 2) in s then Turn(last, 2)
    else if Turn(last, 3) in s then Turn(last, 3)
    else if Turn(last, 4) in s then Turn(last, 4)
    else -1
  }

  function Eligible(r: Registers, requests: set<int>): set<int> {
    (requests - r.mask) * r.enabled * ALL
  }

  function Pick(r: Registers, x: Xt, requests: set<int>): int {
    var eligible := Eligible(r, requests);
    var owners := eligible * (x.demand + x.block);
    if Disabled(r.command) then -1
    else if owners != {} then Lowest(owners)
    else if Rotating(r.command) then Next(eligible, x.last)
    else Lowest(eligible)
  }

  function Requests(s: State): set<int> {
    (s.reg.rqPc + s.xt.sw + s.xt.demand + s.xt.block) * ALL
  }

  predicate CanService(s: State, c: int)
    requires Sane(s)
  {
    && 0 <= c <= 3 && !Disabled(s.reg.command) && c in s.reg.enabled && c !in s.reg.mask
    && (var requests := if c != 0 && !s.reg.soft then Requests(s) * {c} else Requests(s);
        c in requests && Service(s.prog[c]) != 3 && Pick(s.reg, s.xt, requests) == c)
  }

  // ----- service -----

  function Released(command: int, x: Xt, c: int): Xt {
    x.(demand := x.demand - {c}, block := x.block - {c}, dack := x.dack - {c},
    last := if Rotating(command) then c else x.last)
  }

  function BeginService(s: State, c: int): State
    requires Sane(s) && 0 <= c < 4
  {
    s.(xt := s.xt.(dack := {c},
    demand := if Service(s.prog[c]) == 0 then s.xt.demand + {c} else s.xt.demand,
    block := if Service(s.prog[c]) == 2 then s.xt.block + {c} else s.xt.block))
  }

  function NextAddress(a: Address, down: bool, pageMask: bv16): Address {
    Address(a.page & pageMask, (if down then a.offset - 1 else a.offset + 1) % 65536)
  }

  function AdvanceAddress(cf: Config, s: State, c: int): State
    requires Sane(s) && 0 <= c < 4
  {
    s.(cur := s.cur[c := s.cur[c].(ac := NextAddress(s.cur[c].ac, Downward(s.prog[c]), cf.pageMask))])
  }

  /** Whether the unit just moved is the channel's last. */
  predicate Terminal(s: State, c: int)
    requires Sane(s) && 0 <= c < 4
  {
    s.cur[c].cc - 1 < 0 || c in s.xt.eop
  }

  function FinishTransfer(s: State, c: int): (r: State)
    requires Sane(s) && 0 <= c < 4
    ensures r.prog == s.prog && |r.cur| == 4 && r.mem == s.mem && r.reg.flipFlop == s.reg.flipFlop
    ensures r.ref == s.ref && r.adapter == s.adapter
  {
    var counted := s.cur[c].(cc := s.cur[c].cc - 1);
    if Terminal(s, c) then
      var again := AutoInit(s.prog[c]);
      var cur := s.cur[c := if again then Current(s.prog[c].ab, s.prog[c].cb) else counted];
      var reg := s.reg.(stat := s.reg.stat + {c}, advPend := s.reg.advPend - {c},
                        mask := if again then s.reg.mask else s.reg.mask + {c});
      var xt := Released(s.reg.command, s.xt.(sw := s.xt.sw - {c}, eop := s.xt.eop - {c}), c);
      s.(cur := cur, reg := reg, xt := xt)
    else
      var xt := if Service(s.prog[c]) != 1 then s.xt
                else s.xt.(dack := s.xt.dack - {c}, last := if Rotating(s.reg.command) then c else s.xt.last);
      s.(cur := s.cur[c := counted], xt := xt)
  }

  function MasterClear(s: State): State {
    s.(reg := s.reg.(flipFlop := false, command := 0, stat := s.reg.stat - ALL, statRq := s.reg.statRq - ALL,
                     advPend := s.reg.advPend - ALL, mask := s.reg.mask + ALL,
                     rqPc := if s.ref.queued then s.reg.rqPc + {0} else s.reg.rqPc),
    xt := Xt({}, {}, {}, {}, {}, 3, 0, false))
  }

  /** A reset of the controller: everything cleared, all four channels enabled and masked, and the refresh latch
      dropped; the adapter is not told.  The counts of the latch start afresh. */
  function Reset(s: State): (r: State)
    ensures Sane(r)
  {
    State(seq(4, _ => Program(0, 0, Address(0, 0))), seq(4, _ => Current(Address(0, 0), 0)),
          Registers(ALL, ALL, 0, {}, {}, {}, {}, false, false), Xt({}, {}, {}, {}, {}, 3, 0, false),
          Refresh(false, false, 0, 0), s.adapter, s.mem)
  }

  /** A reset of the machine: the controller's, and then the CPU's, which drops whatever its adapter holds. */
  function MachineReset(s: State): (r: State)
    ensures Sane(r)
  {
    var t := Reset(s);
    t.(adapter := t.adapter.(pending := false))
  }

  /** Begin, advance the address, mark the request as seen: the part common to all transfers. */
  function Moved(cf: Config, s: State, c: int): (r: State)
    requires Sane(s) && 0 <= c < 4
    ensures r.prog == s.prog && |r.cur| == 4 && r.mem == s.mem && r.reg.flipFlop == s.reg.flipFlop
    ensures r.ref == s.ref && r.adapter == s.adapter
  {
    var t := AdvanceAddress(cf, BeginService(s, c), c);
    t.(reg := t.reg.(statRq := t.reg.statRq + {c}))
  }

  function WithoutPending(s: State, c: int): State {
    s.(reg := s.reg.(advPend := s.reg.advPend - {c}))
  }

  // ----- channel 0 -----

  /** A deferred completion of channel 0, which no reconciliation follows. */
  function Settle0(s: State): (r: State)
    requires Sane(s)
    ensures r.prog == s.prog && |r.cur| == 4 && r.mem == s.mem && r.reg.flipFlop == s.reg.flipFlop
    ensures r.ref == s.ref && r.adapter == s.adapter
  {
    if 0 in s.reg.advPend then FinishTransfer(WithoutPending(s, 0), 0) else s
  }

  /** A read of channel 0. */
  function Read0(cf: Config, s: State): (r: State)
    requires Sane(s)
    ensures r.prog == s.prog && |r.cur| == 4 && r.mem == s.mem && r.reg.flipFlop == s.reg.flipFlop
    ensures r.ref == s.ref && r.adapter == s.adapter
  {
    var t := Settle0(s);
    if !CanService(t, 0) || Type(t.prog[0]) !in {0, 2} then t
    else FinishTransfer(Moved(cf, t, 0), 0)
  }

  // ----- refresh -----

  /** Raising or lowering a request line, before any reconciliation. */
  function DrqLine(s: State, c: int, on: bool): (r: State)
    ensures r.prog == s.prog && r.cur == s.cur && r.mem == s.mem && r.reg.flipFlop == s.reg.flipFlop
    ensures r.ref == s.ref && r.adapter == s.adapter
  {
    var reg := s.reg.(rqPc := if on then s.reg.rqPc + {c} else s.reg.rqPc - {c});
    s.(reg := reg, xt := if c < 4 && !on && c in s.xt.demand then Released(s.reg.command, s.xt, c) else s.xt)
  }

  /** The transfer of channel 0 at DACK0. */
  function RefreshUnit(cf: Config, s: State): (r: State)
    requires Sane(s)
    ensures r.prog == s.prog && |r.cur| == 4 && r.mem == s.mem && r.reg.flipFlop == s.reg.flipFlop
    ensures r.ref == s.ref && r.adapter == s.adapter
  {
    if cf.clocked then FinishTransfer(WithoutPending(Moved(cf, Settle0(s), 0), 0), 0) else Read0(cf, s)
  }

  /** DACK0: the transfer, then the latch is cleared before the request line falls. */
  function RefreshDack(cf: Config, s: State): (r: State)
    requires Sane(s)
    ensures r.prog == s.prog && |r.cur| == 4 && r.mem == s.mem && r.reg.flipFlop == s.reg.flipFlop
  {
    var t := RefreshUnit(cf, s);
    DrqLine(t.(ref := t.ref.(queued := false, scheduled := false, services := t.ref.services + 1)), 0, false)
  }

  function TrySchedule(cf: Config, s: State): (r: State)
    requires Sane(s)
    ensures r.prog == s.prog && |r.cur| == 4 && r.mem == s.mem && r.reg.flipFlop == s.reg.flipFlop
  {
    if !s.ref.queued || s.ref.scheduled || !CanService(s, 0) then s
    else if !cf.clocked then RefreshDack(cf, s.(ref := s.ref.(scheduled := true)))
    else
      var accepted := !s.adapter.pending && cf.answers(s.adapter.asked);
      s.(adapter := Adapter(s.adapter.pending || accepted, s.adapter.asked + 1), ref := s.ref.(scheduled := accepted))
  }

  predicate Serviceable(s: State)
    requires Sane(s)
  {
    s.ref.queued && CanService(s, 0)
  }

  function Reconcile(cf: Config, s: State): (r: State)
    requires Sane(s)
    ensures r.prog == s.prog && |r.cur| == 4 && r.mem == s.mem && r.reg.flipFlop == s.reg.flipFlop
  {
    if s.ref.scheduled && !Serviceable(s) && cf.clocked then
      var cancelled := s.adapter.pending && cf.answers(s.adapter.asked);
      s.(adapter := Adapter(s.adapter.pending && !cancelled, s.adapter.asked + 1),
      ref := s.ref.(scheduled := !cancelled))
    else if Serviceable(s) && !s.ref.scheduled then TrySchedule(cf, s)
    else s
  }

  function ReconcileIfQueued(cf: Config, s: State): (r: State)
    requires Sane(s)
    ensures r.prog == s.prog && |r.cur| == 4 && r.mem == s.mem
  {
    if s.ref.queued then Reconcile(cf, s) else s
  }

  function SetDrq(cf: Config, s: State, c: int, on: bool): (r: State)
    requires Sane(s)
    ensures r.prog == s.prog && |r.cur| == 4
  {
    if c < 0 || c > 7 then s else ReconcileIfQueued(cf, DrqLine(s, c, on))
  }

  /** An edge of the PIT: it sets the latch, or finds it set. */
  function RefreshRequest(cf: Config, s: State): (r: State)
    requires Sane(s)
    ensures r.prog == s.prog && |r.cur| == 4
  {
    if s.ref.queued then Reconcile(cf, s)
    else SetDrq(cf, s.(ref := s.ref.(queued := true, settings := s.ref.settings + 1)), 0, true)
  }

  /** DACK0 from the clocked adapter: it forgets the request and runs the callback. */
  function AdapterDack(cf: Config, s: State): (r: State)
    requires Sane(s)
    ensures r.prog == s.prog && |r.cur| == 4
  {
    if !s.adapter.pending then s else RefreshDack(cf, s.(adapter := s.adapter.(pending := false)))
  }

  function SetEop(s: State, c: int, on: bool): State {
    if c < 0 || c > 3 then s
    else s.(xt := s.xt.(eop := if on then s.xt.eop + {c} else s.xt.eop - {c}))
  }

  // ----- peripheral transfers -----

  /** Completing a unit: terminal count, and refresh reconciled unless channel 0 itself moved. */
  function Complete(cf: Config, s: State, c: int): (r: State)
    requires Sane(s) && 0 <= c < 4
    ensures r.prog == s.prog && |r.cur| == 4 && r.mem == s.mem
  {
    var t := FinishTransfer(s, c);
    if c != 0 then ReconcileIfQueued(cf, t) else t
  }

  function Advance(cf: Config, s: State, c: int): (r: State)
    requires Sane(s)
    ensures r.prog == s.prog && |r.cur| == 4 && r.mem == s.mem
  {
    if c < 0 || c > 3 then s
    else if c in s.reg.advPend then Complete(cf, WithoutPending(s, c), c)
    else if c != 0 then ReconcileIfQueued(cf, s)
    else s
  }

  /** The terminal count an advance reports. */
  predicate AdvanceEnds(s: State, c: int)
    requires Sane(s)
  {
    0 <= c <= 3 && c in s.reg.advPend && Terminal(WithoutPending(s, c), c)
  }

  function Settled(cf: Config, s: State, c: int): (r: State)
    requires Sane(s)
    ensures r.prog == s.prog && |r.cur| == 4 && r.mem == s.mem
  {
    if c in s.reg.advPend then Advance(cf, s, c) else s
  }

  function Fetched(s: State, c: int): int
    requires Sane(s) && 0 <= c < 4
  {
    if Type(s.prog[c]) == 0 then VERIFY else Byte(s.mem, s.cur[c].ac)
  }

  predicate Readable(s: State, c: int)
    requires Sane(s)
  {
    CanService(s, c) && Type(s.prog[c]) in {0, 2}
  }

  predicate Writable(s: State, c: int)
    requires Sane(s)
  {
    CanService(s, c) && Type(s.prog[c]) in {0, 1}
  }

  function ChannelRead(cf: Config, s0: State, c: int): (r: (State, int))
    requires Sane(s0)
    ensures r.0.prog == s0.prog && |r.0.cur| == 4
  {
    if c < 0 || c > 3 then (s0, NODATA)
    else
      var s := Settled(cf, s0, c);
      if !Readable(s, c) then (s, NODATA)
      else
        var t := Moved(cf, s, c);
        (Complete(cf, t, c), Fetched(s, c) + if Terminal(t, c) then OVER else 0)
  }

  function Stored(s: State, c: int, val: int): (r: State)
    requires Sane(s) && 0 <= c < 4
    ensures r == s.(mem := r.mem)
  {
    if Type(s.prog[c]) == 1 then s.(mem := s.mem[s.cur[c].ac := val % 256]) else s
  }

  function ChannelWrite(cf: Config, s: State, c: int, val: int): (r: (State, int))
    requires Sane(s)
    ensures r.0.prog == s.prog && |r.0.cur| == 4
  {
    if c < 0 || c > 3 || !Writable(s, c) then (s, NODATA)
    else
      var t := WithoutPending(Moved(cf, Stored(s, c, val), c), c);
      (Complete(cf, t, c), if Terminal(t, c) then OVER else 0)
  }

  /** A read whose completion is left to a later advance. */
  function ChannelReadOnly(cf: Config, s0: State, c: int): (r: (State, int))
    requires Sane(s0)
    ensures r.0.prog == s0.prog && |r.0.cur| == 4
  {
    if !Readable(s0, c) then (s0, NODATA)
    else
      var s := Settled(cf, s0, c);
      var t := Moved(cf, s, c);
      (t.(reg := t.reg.(advPend := t.reg.advPend + {c})), Fetched(s, c))
  }

  // ----- transfers started by software -----

  /** The transfers a software request starts: i counts units, up to the base count. */
  function BlockFrom(cf: Config, s: State, buffer: seq<int>, c: int, i: int): (r: (State, seq<int>))
    requires Sane(s) && |buffer| == 65536 && 0 <= c < 4
    ensures r.0.prog == s.prog && |r.0.cur| == 4 && |r.1| == 65536
    decreases 65536 - i
  {
    if i < 0 || i > s.prog[c].cb || i >= 65536 then (s, buffer)
    else if s.prog[c].mode / 128 % 2 == 1 && Type(s.prog[c]) == 1 then
      BlockFrom(cf, ChannelWrite(cf, s, c, buffer[i]).0, buffer, c, i + 1)
    else if s.prog[c].mode / 128 % 2 == 1 && Type(s.prog[c]) == 2 then
      var r := ChannelRead(cf, s, c);
      BlockFrom(cf, r.0, buffer[i := r.1 % 256], c, i + 1)
    else BlockFrom(cf, s, buffer, c, i + 1)
  }

  function WithSoft(s: State, on: bool): State {
    s.(reg := s.reg.(soft := on))
  }

  function BlockTransfer(cf: Config, s: State, buffer: seq<int>, c: int): (r: (State, seq<int>))
    requires Sane(s) && |buffer| == 65536 && 0 <= c < 4
    ensures r.0.prog == s.prog && |r.0.cur| == 4 && |r.1| == 65536
  {
    var r := BlockFrom(cf, WithSoft(s, true), buffer, c, 0);
    (WithSoft(r.0, false), r.1)
  }

  /** One byte copied from channel 0 to channel 1, through the temporary register. */
  function Copied(cf: Config, s: State): (r: State)
    requires Sane(s)
    ensures r.prog == s.prog && |r.cur| == 4
    ensures r.ref == s.ref && r.adapter == s.adapter && r.cur[1].cc == s.cur[1].cc
  {
    var temp := Byte(s.mem, s.cur[0].ac);
    var t := s.(xt := s.xt.(temp := temp), mem := s.mem[s.cur[1].ac := temp]);
    AdvanceAddress(cf, if s.reg.command / 2 % 2 == 1 then t else AdvanceAddress(cf, t, 0), 1)
  }

  predicate CopyEnds(s: State)
    requires Sane(s)
  {
    s.cur[1].cc - 1 < 0 || 1 in s.xt.eop
  }

  /** The count, and the end of the copy. */
  function Tallied(s: State): (r: State)
    requires Sane(s)
    ensures r.prog == s.prog && |r.cur| == 4
    ensures r.ref == s.ref && r.adapter == s.adapter
    ensures !CopyEnds(s) ==> r.cur[1].cc == s.cur[1].cc - 1
  {
    var counted := s.cur[1].(cc := s.cur[1].cc - 1);
    if !CopyEnds(s) then s.(cur := s.cur[1 := counted])
    else
      var again := AutoInit(s.prog[1]);
      var cur := if again then s.cur[1 := Current(s.prog[1].ab, s.prog[1].cb)][0 := s.cur[0].(ac := s.prog[0].ab)]
                 else s.cur[1 := counted];
      var xt := s.xt.(eop := s.xt.eop - {1}, sw := s.xt.sw - {0});
      s.(cur := cur, xt := Released(s.reg.command, xt, 0),
      reg := s.reg.(stat := s.reg.stat + {1}, mask := if again then s.reg.mask else s.reg.mask + {1}))
  }

  function CopyFrom(cf: Config, s: State): (r: State)
    requires Sane(s)
    ensures r.prog == s.prog && |r.cur| == 4
    ensures r.ref == s.ref && r.adapter == s.adapter
    decreases if s.cur[1].cc < 0 then 0 else s.cur[1].cc + 1
  {
    var moved := Copied(cf, s);
    var t := Tallied(moved);
    if !CopyEnds(moved) && Service(t.prog[0]) == 2 && CanService(t, 0) then CopyFrom(cf, t) else t
  }

  function MemToMem(cf: Config, s: State): (r: State)
    requires Sane(s)
    ensures r.prog == s.prog && |r.cur| == 4
    ensures r.ref == s.ref && r.adapter == s.adapter
  {
    if s.xt.inMemToMem || s.reg.command % 2 == 0 || !CanService(s, 0) then s
    else
      var t := CopyFrom(cf, BeginService(s.(xt := s.xt.(inMemToMem := true)), 0));
      t.(xt := (if Service(s.prog[0]) == 1 then Released(t.reg.command, t.xt, 0) else t.xt).(inMemToMem := false))
  }

  // ----- register writes -----

  function LowByte(v: int, val: int): int {
    v / 256 % 256 * 256 + val
  }

  function HighByte(v: int, val: int): int {
    v % 256 + 256 * val
  }

  /** A program after a write to its address (even) or count (odd) register: the low or the high byte. */
  function Reprogrammed(cf: Config, p: Program, addr: int, val: int, low: bool): Program {
    if addr % 2 == 0 then
      p.(ab := Address(p.ab.page & cf.pageMask, if low then LowByte(p.ab.offset, val) else HighByte(p.ab.offset, val)))
    else p.(cb := if low then LowByte(p.cb, val) else HighByte(p.cb, val))
  }

  /** Address and count registers are written a byte at a time, and take effect at once. */
  function WriteProgram(cf: Config, s: State, addr: int, val: int): (r: State)
    requires Sane(s) && 0 <= addr < 8
    ensures Sane(r) && r.ref == s.ref && r.adapter == s.adapter
  {
    var c := addr / 2;
    var p := Reprogrammed(cf, s.prog[c], addr, val, !s.reg.flipFlop);
    var now := if addr % 2 == 0 then s.cur[c].(ac := p.ab) else s.cur[c].(cc := p.cb);
    s.(prog := s.prog[c := p], cur := s.cur[c := now], reg := s.reg.(flipFlop := !s.reg.flipFlop))
  }

  /** The effect of a register write before refresh is reconciled. */
  function Written(cf: Config, s: State, buffer: seq<int>, addr: int, val: int): (r: (State, seq<int>))
    requires Sane(s) && |buffer| == 65536 && 0 <= addr < 16 && 0 <= val < 256
    ensures Sane(r.0) && |r.1| == 65536
  {
    var c := val % 4;
    var set_ := val / 4 % 2 == 1;
    var x := s.xt;
    if addr < 8 then (WriteProgram(cf, s, addr, val), buffer)
    else if addr == 8 then
      (s.(reg := s.reg.(command := val), xt := if set_ then x.(demand := {}, block := {}, dack := {}) else x), buffer)
    else if addr == 9 then
      if set_ then
        var t := s.(xt := x.(sw := x.sw + {c}));
        if c == 0 && s.reg.command % 2 == 1 then (MemToMem(cf, t), buffer) else BlockTransfer(cf, t, buffer, c)
      else
        var x1 := x.(sw := x.sw - {c});
        (s.(xt := if c in x.demand then Released(s.reg.command, x1, c) else x1), buffer)
    else if addr == 10 then
      (if set_ then s.(reg := s.reg.(mask := s.reg.mask + {c}), xt := Released(s.reg.command, x, c))
       else s.(reg := s.reg.(mask := s.reg.mask - {c})), buffer)
    else if addr == 11 then
      (s.(prog := s.prog[c := s.prog[c].(mode := val)],
       xt := x.(demand := x.demand - {c}, block := x.block - {c}, eop := x.eop - {c}, dack := x.dack - {c})), buffer)
    else if addr == 12 then (s.(reg := s.reg.(flipFlop := false)), buffer)
    else if addr == 13 then (MasterClear(s), buffer)
    else if addr == 14 then (s.(reg := s.reg.(mask := s.reg.mask - ALL)), buffer)
    else
      var m := s.reg.mask - ALL + Nibble(val);
      (s.(reg := s.reg.(mask := m), xt := x.(demand := x.demand - m, block := x.block - m, dack := x.dack - m)), buffer)
  }

  /** A register write; refresh is reconciled after every one. */
  function DmaWrite(cf: Config, s: State, buffer: seq<int>, addr: int, val: int): (r: (State, seq<int>))
    requires Sane(s) && |buffer| == 65536 && 0 <= addr < 16 && 0 <= val < 256
    ensures Sane(r.0) && |r.1| == 65536
  {
    var t := Written(cf, s, buffer, addr, val);
    (Reconcile(cf, t.0), t.1)
  }
}
