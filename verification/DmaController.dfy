/** The controller itself: the fields every call updates, and the methods that update them. */
module DmaController {
  import opened Dma

  class Controller {
    const cf: Config
    const prog: array<Program>
    const cur: array<Current>
    const buffer: array<int>
    var reg: Registers
    var xt: Xt
    var ref: Refresh
    var adapter: Adapter
    var mem: Memory

    predicate Valid() {
      prog.Length == 4 && cur.Length == 4 && buffer.Length == 65536
    }

    ghost function View(): (s: State)
      requires Valid()
      reads this, prog, cur
      ensures Sane(s)
    {
      State(prog[..], cur[..], reg, xt, ref, adapter, mem)
    }

    constructor (cf: Config, mem: Memory)
      ensures Valid() && this.cf == cf && fresh(prog) && fresh(cur) && fresh(buffer)
      ensures adapter == Adapter(false, 0) && this.mem == mem && View() == Dma.Reset(View())
      ensures forall i :: 0 <= i < 65536 ==> buffer[i] == 0
    {
      this.cf, this.mem := cf, mem;
      prog, cur, buffer := new Program[4], new Current[4], new int[65536];
      reg := Registers(ALL, ALL, 0, {}, {}, {}, {}, false, false);
      xt, ref, adapter := Xt({}, {}, {}, {}, {}, 3, 0, false), Refresh(false, false, 0, 0), Adapter(false, 0);
      new;
      Reset();
    }

    method Reset()
      requires Valid()
      modifies this, prog, cur, buffer
      ensures View() == Dma.Reset(old(View())) && forall i :: 0 <= i < 65536 ==> buffer[i] == 0
    {
      for c := 0 to 4
        modifies prog, cur
        invariant forall i :: 0 <= i < c ==> prog[i] == Program(0, 0, Address(0, 0)) && cur[i] == Current(Address(0, 0), 0)
      {
        prog[c], cur[c] := Program(0, 0, Address(0, 0)), Current(Address(0, 0), 0);
      }
      for i := 0 to 65536
        modifies buffer
        invariant forall j :: 0 <= j < i ==> buffer[j] == 0
      {
        buffer[i] := 0;
      }
      reg := Registers(ALL, ALL, 0, {}, {}, {}, {}, false, false);
      xt, ref := Xt({}, {}, {}, {}, {}, 3, 0, false), Refresh(false, false, 0, 0);
      assert prog[..] == seq(4, _ => Program(0, 0, Address(0, 0)));
      assert cur[..] == seq(4, _ => Current(Address(0, 0), 0));
    }

    method ResetMachine()
      requires Valid()
      modifies this, prog, cur, buffer
      ensures View() == MachineReset(old(View())) && forall i :: 0 <= i < 65536 ==> buffer[i] == 0
    {
      Reset();
      adapter := adapter.(pending := false);
    }

    // ----- arbitration -----

    method PriorityPick(all: set<int>) returns (r: int)
      ensures r == Pick(reg, xt, all)
    {
      var requests := (all - reg.mask) * reg.enabled * ALL;
      if requests == {} || Disabled(reg.command) {
        NoneEligible(requests);
        return -1;
      }
      var owners := requests * (xt.demand + xt.block);
      if owners != {} {
        SomeLowest(owners);
        for i := 0 to 4
          invariant forall j :: 0 <= j < i ==> j !in owners
        {
          if i in owners {
            return i;
          }
        }
      }
      if Rotating(reg.command) {
        for i := 1 to 5
          invariant forall j :: 1 <= j < i ==> Turn(xt.last, j) !in requests
        {
          if Turn(xt.last, i) in requests {
            return Turn(xt.last, i);
          }
        }
      } else {
        for i := 0 to 4
          invariant forall j :: 0 <= j < i ==> j !in requests
        {
          if i in requests {
            return i;
          }
        }
      }
      return -1;
    }

    lemma SomeLowest(owners: set<int>)
      requires owners <= ALL && owners != {}
      ensures 0 in owners || 1 in owners || 2 in owners || 3 in owners
    {
    }

    lemma NoneEligible(eligible: set<int>)
      ensures eligible == {} ==> Lowest(eligible) == -1 && forall last :: Next(eligible, last) == -1
      ensures eligible == {} ==> forall owners: set<int> :: eligible * owners == {}
    {
    }

    method CanService(c: int) returns (b: bool)
      requires Valid()
      ensures b == Dma.CanService(View(), c) && (b ==> 0 <= c <= 3)
    {
      if c < 0 || c > 3 || Disabled(reg.command) || c !in reg.enabled || c in reg.mask {
        return false;
      }
      var requests := (reg.rqPc + xt.sw + xt.demand + xt.block) * ALL;
      if c != 0 && !reg.soft {
        requests := requests * {c};
      }
      if c !in requests || Service(prog[c]) == 3 {
        return false;
      }
      var p := PriorityPick(requests);
      return p == c;
    }

    // ----- service -----

    method ReleaseOwner(c: int)
      modifies this`xt
      ensures xt == Released(reg.command, old(xt), c)
    {
      xt := xt.(demand := xt.demand - {c}, block := xt.block - {c}, dack := xt.dack - {c});
      if Rotating(reg.command) {
        xt := xt.(last := c);
      }
    }

    method BeginService(c: int)
      requires Valid() && 0 <= c < 4
      modifies this`xt
      ensures View() == Dma.BeginService(old(View()), c)
    {
      xt := xt.(dack := {c});
      if Service(prog[c]) == 0 {
        xt := xt.(demand := xt.demand + {c});
      } else if Service(prog[c]) == 2 {
        xt := xt.(block := xt.block + {c});
      }
    }

    method AdvanceAddress(c: int)
      requires Valid() && 0 <= c < 4
      modifies cur
      ensures View() == Dma.AdvanceAddress(cf, old(View()), c)
    {
      hide NextAddress;
      var next := FollowingAddress(cur[c].ac, Downward(prog[c]));
      cur[c] := cur[c].(ac := next);
    }

    method FollowingAddress(a: Address, down: bool) returns (next: Address)
      ensures next == NextAddress(a, down, cf.pageMask)
    {
      var page := a.page & cf.pageMask;
      if down {
        next := Address(page, (a.offset - 1) % 65536);
      } else {
        next := Address(page, (a.offset + 1) % 65536);
      }
    }

    method FinishTransfer(c: int) returns (terminal: bool)
      requires Valid() && 0 <= c < 4
      modifies this`reg, this`xt, cur
      ensures View() == Dma.FinishTransfer(old(View()), c) && terminal == old(Terminal(View(), c))
    {
      var mode := prog[c];
      cur[c] := cur[c].(cc := cur[c].cc - 1);
      terminal := cur[c].cc < 0 || c in xt.eop;
      if terminal {
        reg := reg.(stat := reg.stat + {c}, advPend := reg.advPend - {c});
        xt := xt.(sw := xt.sw - {c}, eop := xt.eop - {c});
        if AutoInit(mode) {
          cur[c] := Current(mode.ab, mode.cb);
        } else {
          reg := reg.(mask := reg.mask + {c});
        }
        ReleaseOwner(c);
      } else if Service(mode) == 1 {
        xt := xt.(dack := xt.dack - {c});
        if Rotating(reg.command) {
          xt := xt.(last := c);
        }
      }
    }

    method MoveUnit(c: int)
      requires Valid() && 0 <= c < 4
      modifies this`reg, this`xt, cur
      ensures View() == Moved(cf, old(View()), c)
    {
      BeginService(c);
      AdvanceAddress(c);
      reg := reg.(statRq := reg.statRq + {c});
    }

    // ----- refresh -----

    method ReadChannel0()
      requires Valid()
      modifies this`reg, this`xt, cur
      ensures View() == Read0(cf, old(View()))
    {
      SettleChannel0();
      var can := CanService(0);
      if can && Type(prog[0]) in {0, 2} {
        MoveUnit(0);
        var _ := FinishTransfer(0);
      }
    }

    method SettleChannel0()
      requires Valid()
      modifies this`reg, this`xt, cur
      ensures View() == Settle0(old(View()))
    {
      hide Dma.FinishTransfer;
      if 0 in reg.advPend {
        reg := reg.(advPend := reg.advPend - {0});
        var _ := FinishTransfer(0);
      }
    }

    method RefreshDack()
      requires Valid()
      modifies this`reg, this`xt, this`ref, cur
      ensures View() == Dma.RefreshDack(cf, old(View()))
    {
      hide Dma.FinishTransfer, Moved, Settle0, Read0, Released;
      if !cf.clocked {
        ReadChannel0();
      } else {
        SettleChannel0();
        MoveUnit(0);
        reg := reg.(advPend := reg.advPend - {0});
        var _ := FinishTransfer(0);
      }
      ref := Refresh(false, false, ref.settings, ref.services + 1);
      SetLine(0, false);
    }

    method SetLine(c: int, on: bool)
      requires Valid()
      modifies this`reg, this`xt
      ensures View() == DrqLine(old(View()), c, on)
    {
      reg := reg.(rqPc := reg.rqPc - {c});
      if on {
        reg := reg.(rqPc := reg.rqPc + {c});
      }
      if c < 4 && !on && c in xt.demand {
        ReleaseOwner(c);
      }
    }

    method TrySchedule()
      requires Valid()
      modifies this`reg, this`xt, this`ref, this`adapter, cur
      ensures View() == Dma.TrySchedule(cf, old(View()))
    {
      hide Dma.CanService, Dma.RefreshDack;
      var can := CanService(0);
      if !ref.queued || ref.scheduled || !can {
        return;
      }
      if cf.clocked {
        var accepted := !adapter.pending && cf.answers(adapter.asked);
        adapter := Adapter(adapter.pending || accepted, adapter.asked + 1);
        if accepted {
          ref := ref.(scheduled := true);
        }
      } else {
        ref := ref.(scheduled := true);
        RefreshDack();
      }
    }

    method Reconcile()
      requires Valid()
      modifies this`reg, this`xt, this`ref, this`adapter, cur
      ensures View() == Dma.Reconcile(cf, old(View()))
    {
      hide Dma.CanService, Dma.TrySchedule;
      var can := CanService(0);
      var serviceable := ref.queued && can;
      if ref.scheduled && !serviceable && cf.clocked {
        var cancelled := adapter.pending && cf.answers(adapter.asked);
        adapter := Adapter(adapter.pending && !cancelled, adapter.asked + 1);
        if cancelled {
          ref := ref.(scheduled := false);
        }
      }
      if serviceable && !ref.scheduled {
        TrySchedule();
      }
    }

    method SetDrq(c: int, on: bool)
      requires Valid()
      modifies this`reg, this`xt, this`ref, this`adapter, cur
      ensures View() == Dma.SetDrq(cf, old(View()), c, on)
    {
      hide Dma.Reconcile, DrqLine;
      if c < 0 || c > 7 {
        return;
      }
      SetLine(c, on);
      if ref.queued {
        Reconcile();
      }
    }

    method RefreshRequest()
      requires Valid()
      modifies this`reg, this`xt, this`ref, this`adapter, cur
      ensures View() == Dma.RefreshRequest(cf, old(View()))
    {
      hide Dma.Reconcile, Dma.SetDrq;
      if !ref.queued {
        ref := ref.(queued := true, settings := ref.settings + 1);
        SetDrq(0, true);
      } else {
        Reconcile();
      }
    }

    method AdapterDack()
      requires Valid()
      modifies this`reg, this`xt, this`ref, this`adapter, cur
      ensures View() == Dma.AdapterDack(cf, old(View()))
    {
      hide Dma.RefreshDack;
      if adapter.pending {
        adapter := adapter.(pending := false);
        RefreshDack();
      }
    }

    method SetEop(c: int, on: bool)
      requires Valid()
      modifies this`xt
      ensures View() == Dma.SetEop(old(View()), c, on)
    {
      if 0 <= c <= 3 {
        xt := xt.(eop := if on then xt.eop + {c} else xt.eop - {c});
      }
    }

    // ----- peripheral transfers -----

    method Advance(c: int) returns (tc: bool)
      requires Valid()
      modifies this`reg, this`xt, this`ref, this`adapter, cur
      ensures View() == Dma.Advance(cf, old(View()), c) && tc == old(AdvanceEnds(View(), c))
    {
      hide Dma.FinishTransfer, Dma.Reconcile;
      if c < 0 || c > 3 {
        return false;
      }
      tc := false;
      if c in reg.advPend {
        reg := reg.(advPend := reg.advPend - {c});
        tc := FinishTransfer(c);
      }
      if c != 0 && ref.queued {
        Reconcile();
      }
    }

    method ReconcileAfter(c: int)
      requires Valid()
      modifies this`reg, this`xt, this`ref, this`adapter, cur
      ensures View() == if c != 0 then ReconcileIfQueued(cf, old(View())) else old(View())
    {
      hide Dma.Reconcile;
      if c != 0 && ref.queued {
        Reconcile();
      }
    }

    method Read(c: int) returns (value: int)
      requires Valid()
      modifies this`reg, this`xt, this`ref, this`adapter, cur
      ensures (View(), value) == ChannelRead(cf, old(View()), c)
    {
      hide Dma.FinishTransfer, ReconcileIfQueued, Moved, Dma.CanService, Dma.Advance, Byte;
      if c < 0 || c > 3 {
        return NODATA;
      }
      if c in reg.advPend {
        var _ := Advance(c);
      }
      var can := CanService(c);
      if !can || Type(prog[c]) !in {0, 2} {
        return NODATA;
      }
      value := if Type(prog[c]) == 0 then VERIFY else Byte(mem, cur[c].ac);
      MoveUnit(c);
      var tc := FinishTransfer(c);
      ReconcileAfter(c);
      if tc {
        value := value + OVER;
      }
    }

    method Write(c: int, val: int) returns (result: int)
      requires Valid()
      modifies this`reg, this`xt, this`ref, this`adapter, this`mem, cur
      ensures (View(), result) == ChannelWrite(cf, old(View()), c, val)
    {
      hide Dma.FinishTransfer, ReconcileIfQueued, Moved, Dma.CanService;
      if c < 0 || c > 3 {
        return NODATA;
      }
      var can := CanService(c);
      if !can || Type(prog[c]) !in {0, 1} {
        return NODATA;
      }
      if Type(prog[c]) == 1 {
        mem := mem[cur[c].ac := val % 256];
      }
      MoveUnit(c);
      reg := reg.(advPend := reg.advPend - {c});
      var tc := FinishTransfer(c);
      ReconcileAfter(c);
      result := if tc then OVER else 0;
    }

    method ReadOnly(c: int) returns (value: int)
      requires Valid()
      modifies this`reg, this`xt, this`ref, this`adapter, cur
      ensures (View(), value) == ChannelReadOnly(cf, old(View()), c)
    {
      hide Moved, Dma.CanService, Dma.Advance, Byte;
      var can := CanService(c);
      if !can || Type(prog[c]) !in {0, 2} {
        return NODATA;
      }
      if c in reg.advPend {
        var _ := Advance(c);
      }
      value := if Type(prog[c]) == 0 then VERIFY else Byte(mem, cur[c].ac);
      MoveUnit(c);
      reg := reg.(advPend := reg.advPend + {c});
    }

    // ----- transfers started by software -----

    /** The source's index is 16 bits wide: with a base count of 0xFFFF its loop never ends. */
    method BlockTransfer(c: int)
      requires Valid() && 0 <= c < 4 && prog[c].cb < 0xFFFF
      modifies this`reg, this`xt, this`ref, this`adapter, this`mem, cur, buffer
      ensures (View(), buffer[..]) == Dma.BlockTransfer(cf, old(View()), old(buffer[..]), c)
    {
      hide ChannelRead, ChannelWrite;
      reg := reg.(soft := true);
      ghost var start := BlockFrom(cf, View(), buffer[..], c, 0);
      var i := 0;
      while i <= prog[c].cb
        invariant 0 <= i <= 0xFFFF && prog[..] == old(prog[..])
        invariant BlockFrom(cf, View(), buffer[..], c, i) == start
        decreases 0xFFFF - i
      {
        if prog[c].mode / 128 % 2 == 1 && Type(prog[c]) == 1 {
          var _ := Write(c, buffer[i]);
        } else if prog[c].mode / 128 % 2 == 1 && Type(prog[c]) == 2 {
          ghost var b := buffer[..];
          var v := Read(c);
          buffer[i] := v % 256;
          assert buffer[..] == b[i := v % 256];
        }
        i := i + 1;
      }
      reg := reg.(soft := false);
    }

    method CopyByte()
      requires Valid()
      modifies this`xt, this`mem, cur
      ensures View() == Copied(cf, old(View()))
    {
      hide NextAddress;
      xt := xt.(temp := Byte(mem, cur[0].ac));
      mem := mem[cur[1].ac := xt.temp];
      if reg.command / 2 % 2 == 0 {
        AdvanceAddress(0);
      }
      AdvanceAddress(1);
    }

    method Tally() returns (terminal: bool)
      requires Valid()
      modifies this`reg, this`xt, cur
      ensures View() == Tallied(old(View())) && terminal == old(CopyEnds(View()))
    {
      cur[1] := cur[1].(cc := cur[1].cc - 1);
      terminal := cur[1].cc < 0 || 1 in xt.eop;
      if terminal {
        reg := reg.(stat := reg.stat + {1});
        xt := xt.(eop := xt.eop - {1}, sw := xt.sw - {0});
        if AutoInit(prog[1]) {
          cur[1] := Current(prog[1].ab, prog[1].cb);
          cur[0] := cur[0].(ac := prog[0].ab);
        } else {
          reg := reg.(mask := reg.mask + {1});
        }
        ReleaseOwner(0);
      }
    }

    method MemToMem()
      requires Valid()
      modifies this`reg, this`xt, this`mem, cur
      ensures View() == Dma.MemToMem(cf, old(View()))
    {
      hide Dma.CanService, Dma.BeginService, Copied, Tallied, Released, CopyEnds;
      var can := CanService(0);
      if xt.inMemToMem || reg.command % 2 == 0 || !can {
        return;
      }
      xt := xt.(inMemToMem := true);
      BeginService(0);
      CopyUntilDone();
      if Service(prog[0]) == 1 {
        ReleaseOwner(0);
      }
      xt := xt.(inMemToMem := false);
    }

    method CopyUntilDone()
      requires Valid()
      modifies this`reg, this`xt, this`mem, cur
      ensures View() == CopyFrom(cf, old(View()))
    {
      hide Dma.CanService, Copied, Tallied, CopyEnds;
      var more := true;
      while more
        invariant CopyFrom(cf, old(View())) == if more then CopyFrom(cf, View()) else View()
        decreases more, if cur[1].cc < 0 then 0 else cur[1].cc + 1
      {
        CopyByte();
        ghost var moved := View();
        var terminal := Tally();
        var can := CanService(0);
        more := !terminal && Service(prog[0]) == 2 && can;
        CountFalls(moved);
      }
    }

    lemma CountFalls(s: State)
      requires Sane(s)
      ensures !CopyEnds(s) ==> s.cur[1].cc >= 1
    {
    }

    // ----- register writes -----

    method WriteProgram(addr: int, val: int)
      requires Valid() && 0 <= addr < 8
      modifies this`reg, prog, cur
      ensures View() == Dma.WriteProgram(cf, old(View()), addr, val)
    {
      hide Reprogrammed;
      var c := addr / 2;
      reg := reg.(flipFlop := !reg.flipFlop);
      prog[c] := ByteInto(prog[c], addr, val, reg.flipFlop);
      if addr % 2 == 0 {
        cur[c] := cur[c].(ac := prog[c].ab);
      } else {
        cur[c] := cur[c].(cc := prog[c].cb);
      }
    }

    method ByteInto(p: Program, addr: int, val: int, low: bool) returns (q: Program)
      ensures q == Reprogrammed(cf, p, addr, val, low)
    {
      hide LowByte, HighByte;
      q := p;
      if addr % 2 == 0 {
        var page := p.ab.page & cf.pageMask;
        q := q.(ab := Address(page, if low then LowByte(p.ab.offset, val) else HighByte(p.ab.offset, val)));
      } else {
        q := q.(cb := if low then LowByte(p.cb, val) else HighByte(p.cb, val));
      }
    }

    method MasterClear()
      requires Valid()
      modifies this`reg, this`xt
      ensures View() == Dma.MasterClear(old(View()))
    {
      reg := reg.(flipFlop := false, command := 0, stat := reg.stat - ALL, statRq := reg.statRq - ALL,
      advPend := reg.advPend - ALL, mask := reg.mask + ALL);
      xt := Xt({}, {}, {}, {}, {}, 3, 0, false);
      if ref.queued {
        reg := reg.(rqPc := reg.rqPc + {0});
      }
    }

    method SoftwareRequest(val: int)
      requires Valid() && 0 <= val < 256
      requires val / 4 % 2 == 1 && !(val % 4 == 0 && reg.command % 2 == 1) ==> prog[val % 4].cb < 0xFFFF
      modifies this`reg, this`xt, this`ref, this`adapter, this`mem, cur, buffer
      ensures (View(), buffer[..]) == Written(cf, old(View()), old(buffer[..]), 9, val)
    {
      hide Dma.MemToMem, Dma.BlockTransfer, Released;
      var c := val % 4;
      if val / 4 % 2 == 1 {
        xt := xt.(sw := xt.sw + {c});
        if c == 0 && reg.command % 2 == 1 {
          MemToMem();
        } else {
          BlockTransfer(c);
        }
      } else {
        xt := xt.(sw := xt.sw - {c});
        if c in xt.demand {
          ReleaseOwner(c);
        }
      }
    }

    method ControlWrite(addr: int, val: int)
      requires Valid() && 8 <= addr < 16 && addr != 9 && 0 <= val < 256
      modifies this`reg, this`xt, prog
      ensures (View(), buffer[..]) == Written(cf, old(View()), buffer[..], addr, val)
    {
      hide Nibble, Dma.MasterClear, Released;
      var c := val % 4;
      if addr == 8 {
        reg := reg.(command := val);
        if val / 4 % 2 == 1 {
          xt := xt.(demand := {}, block := {}, dack := {});
        }
      } else if addr == 10 {
        if val / 4 % 2 == 1 {
          reg := reg.(mask := reg.mask + {c});
          ReleaseOwner(c);
        } else {
          reg := reg.(mask := reg.mask - {c});
        }
      } else if addr == 11 {
        prog[c] := prog[c].(mode := val);
        xt := xt.(demand := xt.demand - {c}, block := xt.block - {c}, eop := xt.eop - {c}, dack := xt.dack - {c});
      } else if addr == 12 {
        reg := reg.(flipFlop := false);
      } else if addr == 13 {
        MasterClear();
      } else if addr == 14 {
        reg := reg.(mask := reg.mask - ALL);
      } else {
        reg := reg.(mask := reg.mask - ALL + Nibble(val));
        xt := xt.(demand := xt.demand - reg.mask, block := xt.block - reg.mask, dack := xt.dack - reg.mask);
      }
    }

    method WriteRegister(addr: int, val: int)
      requires Valid() && 0 <= addr < 16 && 0 <= val < 256
      requires addr == 9 && val / 4 % 2 == 1 && !(val % 4 == 0 && reg.command % 2 == 1) ==> prog[val % 4].cb < 0xFFFF
      modifies this, prog, cur, buffer
      ensures (View(), buffer[..]) == DmaWrite(cf, old(View()), old(buffer[..]), addr, val)
    {
      ghost var w := Written(cf, View(), buffer[..], addr, val);
      assert addr < 8 ==> w == (Dma.WriteProgram(cf, View(), addr, val), buffer[..]);
      hide Written, Dma.Reconcile, Dma.WriteProgram;
      if addr < 8 {
        WriteProgram(addr, val);
      } else if addr == 9 {
        SoftwareRequest(val);
      } else {
        ControlWrite(addr, val);
      }
      assert (View(), buffer[..]) == w;
      Reconcile();
    }
  }
}
