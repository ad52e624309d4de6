/** From the bytes a driver writes to the registers of the controller to the units its device moves, in numbers only:
    which bits of the mode byte mean what, the addresses, the codes returned and the bytes in memory; and what each
    of the other registers does. */
module DmaPrograms {
  import opened Arith
  import opened Dma
  import opened DmaArbitration
  import opened DmaBlock
  import opened DmaData
  import opened DmaRefresh
  import opened DmaTransfers
  import opened DmaUnits

  // ----- a programmed transfer -----

  /** Where unit k goes that was programmed with a mode byte, an address and a count: bit 5 of the mode counts down,
      bit 4 starts again after count + 1 units, and the page stays. */
  function Place(page: bv16, mode: int, offset: int, count: int, k: int): Address
    requires count >= 0
  {
    var i := if mode / 16 % 2 == 1 then k % (count + 1) else k;
    Address(page, if mode / 32 % 2 == 1 then (offset - i) % 65536 else (offset + i) % 65536)
  }

  /** Whether unit k is the last of its round. */
  predicate LastUnit(mode: int, count: int, k: int)
    requires count >= 0
  {
    (if mode / 16 % 2 == 1 then k % (count + 1) else k) == count
  }

  /** The program the bytes make, in the page the channel was in. */
  function Programmed(cf: Config, s0: State, c: int, mode: int, offset: int, count: int): Program
    requires Sane(s0) && 1 <= c < 4
  {
    Program(mode, count, Address(Page(cf, s0.prog[c].ab.page), offset))
  }

  function Page(cf: Config, page: bv16): (m: bv16)
    ensures m & cf.pageMask == m
  {
    page & cf.pageMask
  }

  predicate Programmable(s0: State, buffer: seq<int>, c: int, mode: int, offset: int, count: int) {
    && Sane(s0) && |buffer| == 65536 && 1 <= c < 4 && 0 <= offset < 65536 && 0 <= count < 65536
    && 0 <= mode < 256 && mode % 4 == c && mode / 64 != 3
    && !s0.reg.soft && s0.reg.command / 4 % 2 == 0 && c in s0.reg.enabled && c !in s0.reg.advPend
  }

  /** The page lies under the mask. */
  predicate InPage(cf: Config, p: Program) {
    p.ab.page & cf.pageMask == p.ab.page
  }

  lemma ProgrammedInPage(cf: Config, s0: State, c: int, mode: int, offset: int, count: int)
    requires Sane(s0) && 1 <= c < 4
    ensures InPage(cf, Programmed(cf, s0, c, mode, offset, count))
  {
    hide Page;
  }

  lemma PositionPlace(cf: Config, p: Program, i: int)
    requires InPage(cf, p) && 0 <= p.ab.offset < 65536
    ensures AddressAt(cf, p, i) ==
            Address(p.ab.page, if p.mode / 32 % 2 == 1 then (p.ab.offset - i) % 65536 else (p.ab.offset + i) % 65536)
  {
  }

  lemma PlaceIs(cf: Config, p: Program, k: int)
    requires InPage(cf, p) && 0 <= p.ab.offset < 65536 && 0 <= p.cb && 0 <= k
    ensures UnitAddress(cf, p, k) == Place(p.ab.page, p.mode, p.ab.offset, p.cb, k)
  {
    hide AddressAt, InPage;
    PositionPlace(cf, p, if p.mode / 16 % 2 == 1 then k % (p.cb + 1) else k);
  }

  /** Mode, address, count and unmask, and then any traffic: each unit served is at its place and is flagged exactly
      if it is the last of its round; without bit 4 there are at most count + 1 of them. */
  lemma ProgrammedTransfer(cf: Config, s0: State, buffer: seq<int>, c: int, mode: int, offset: int, count: int,
                           evs: seq<Event>)
    requires Programmable(s0, buffer, c, mode, offset, count)
    requires forall e :: e in evs ==> Related(e, c, Programmed(cf, s0, c, mode, offset, count))
    ensures var s := Load(cf, s0, buffer, c, mode, offset, count);
            var p := Programmed(cf, s0, c, mode, offset, count);
            var units := Units(Calls(cf, s, buffer, evs, c, p));
            && (forall k :: 0 <= k < |units| ==>
                              && units[k].at == Place(p.ab.page, mode, offset, count, k)
                              && (units[k].code / 0x1_0000 % 2 == 1 <==> LastUnit(mode, count, k)))
            && (mode / 16 % 2 == 0 ==> |units| <= count + 1)
  {
    hide InPage, Load, Calls, Units, Run, UnitAddress, Place, After, Related, Expected, Answered, Flagged;
    var p := Programmed(cf, s0, c, mode, offset, count);
    var s := Load(cf, s0, buffer, c, mode, offset, count);
    LoadedIsReady(cf, s0, buffer, c, mode, offset, count);
    ProgrammedInPage(cf, s0, c, mode, offset, count);
    WholeTransfer(cf, s, buffer, evs, c, p, 0);
    var units := Units(Calls(cf, s, buffer, evs, c, p));
    forall k | 0 <= k < |units|
      ensures units[k].at == Place(p.ab.page, mode, offset, count, k)
      ensures units[k].code / 0x1_0000 % 2 == 1 <==> LastUnit(mode, count, k)
    {
      ServedUnits(Calls(cf, s, buffer, evs, c, p), k);
      ExpectedUnit(cf, p, k, units[k]);
      PlaceIs(cf, p, k);
    }
    AfterBound(cf, Run(cf, s, buffer, evs).0, c, p, |units|);
  }

  lemma ExpectedUnit(cf: Config, p: Program, k: int, u: Unit)
    requires p.cb >= 0 && Expected(cf, p, k, u) && u.code != -1
    ensures u.at == UnitAddress(cf, p, k)
    ensures u.code / 0x1_0000 % 2 == 1 <==> LastUnit(p.mode, p.cb, k)
  {
    hide AddressAt;
  }

  lemma AfterBound(cf: Config, s: State, c: int, p: Program, j: int)
    requires Sane(s) && 1 <= c < 4 && p.cb >= 0 && After(cf, s, c, p, j)
    ensures p.mode / 16 % 2 == 0 ==> j <= p.cb + 1
  {
    hide AddressAt;
  }

  lemma {:induction false} ServedUnits(calls: seq<Call>, k: int)
    requires 0 <= k < |Units(calls)|
    ensures Units(calls)[k].code != -1
    decreases |calls|
  {
    if calls == [] {
    } else {
      var rest := Units(calls[1..]);
      if Served(calls[0].unit) {
        assert Units(calls) == [calls[0].unit] + rest;
        if k > 0 {
          ServedUnits(calls[1..], k - 1);
        }
      } else {
        assert Units(calls) == [] + rest == rest;
        ServedUnits(calls[1..], k);
      }
    }
  }

  /** What a served call returns: a byte read, nothing for a write, 0x20000 for a verification read; plus 0x10000 on
      the last unit of a round. */
  lemma UnitCode(cf: Config, s: State, e: Event, c: int, i: int)
    requires Sane(s) && 1 <= c < 4 && AtUnit(cf, s, c, i) && Own(e, c, s.prog[c]) && c in Requests(s)
    ensures Moving(cf, s, e, c).code ==
            (if e.Write? then 0 else if s.prog[c].mode / 4 % 4 == 0 then 0x2_0000 else Byte(s.mem, s.cur[c].ac))
            + if i == s.prog[c].cb then 0x1_0000 else 0
  {
    ServedExactly(s, c);
    var u := if e.Write? then Stored(s, c, e.val) else s;
    hide Complete, Moved, AddressAt, CanService, Terminal, Byte;
    LastIsTerminal(cf, u, c, i);
  }

  lemma LastIsTerminal(cf: Config, s: State, c: int, i: int)
    requires Sane(s) && 1 <= c < 4 && s.cur[c].cc == s.prog[c].cb - i && c !in s.xt.eop && i <= s.prog[c].cb
    ensures Terminal(Moved(cf, s, c), c) <==> i == s.prog[c].cb
    ensures Terminal(WithoutPending(Moved(cf, s, c), c), c) <==> i == s.prog[c].cb
  {
  }

  /** Writing to memory is type 1, bits 2 and 3 of the mode: byte k lands at its place, where it stays until the
      round comes back to it, and no other byte of memory changes. */
  lemma ProgrammedWrites(cf: Config, s0: State, buffer: seq<int>, c: int, mode: int, offset: int, count: int,
                         evs: seq<Event>)
    requires Programmable(s0, buffer, c, mode, offset, count) && mode / 4 % 4 == 1
    requires var p := Programmed(cf, s0, c, mode, offset, count); forall e :: e in evs ==> Own(e, c, p) || Silent(e, c)
    ensures var s, p := Load(cf, s0, buffer, c, mode, offset, count), Programmed(cf, s0, c, mode, offset, count);
            var data, m := Values(cf, s, buffer, evs, c, p), Run(cf, s, buffer, evs).0.mem;
            && (forall k :: 0 <= k < |data| && |data| <= k + count + 1 ==>
                              Byte(m, Place(p.ab.page, mode, offset, count, k)) == data[k] % 256)
            && forall a :: (forall k :: 0 <= k < |data| ==> Place(p.ab.page, mode, offset, count, k) != a) ==>
                             Byte(m, a) == Byte(s.mem, a)
  {
    hide InPage, Load, Values, Run, UnitAddress, Place, After, Own, Silent, LandedFrom, Byte;
    var p := Programmed(cf, s0, c, mode, offset, count);
    var s := Load(cf, s0, buffer, c, mode, offset, count);
    LoadedIsReady(cf, s0, buffer, c, mode, offset, count);
    ProgrammedInPage(cf, s0, c, mode, offset, count);
    DataLands(cf, s, buffer, evs, c, p, 0);
    var data := Values(cf, s, buffer, evs, c, p);
    forall k ensures 0 <= k ==> UnitAddress(cf, p, k) == Place(p.ab.page, mode, offset, count, k) {
      if 0 <= k {
        PlaceIs(cf, p, k);
      }
    }
    if mode / 16 % 2 == 0 {
      ValuesBound(cf, s, buffer, evs, c, p, 0);
    }
    forall k | 0 <= k < |data| && |data| <= k + count + 1
      ensures Byte(LandedFrom(cf, s.mem, p, 0, data), UnitAddress(cf, p, k)) == data[k] % 256
    {
      forall i | k < i < |data| ensures UnitAddress(cf, p, i) != UnitAddress(cf, p, k) {
        PlacesDiffer(cf, p, k, i);
      }
      LandedLast(cf, s.mem, p, 0, data, UnitAddress(cf, p, k), k);
    }
    forall a | forall k :: 0 <= k < |data| ==> Place(p.ab.page, mode, offset, count, k) != a
      ensures Byte(LandedFrom(cf, s.mem, p, 0, data), a) == Byte(s.mem, a)
    {
      forall i | 0 <= i < 0 + |data| ensures UnitAddress(cf, p, i) != a {
        assert UnitAddress(cf, p, i) == Place(p.ab.page, mode, offset, count, i);
      }
      LandedElsewhere(cf, s.mem, p, 0, data, a);
    }
  }

  /** Two units less than a round apart are at different places. */
  lemma PlacesDiffer(cf: Config, p: Program, k: int, i: int)
    requires 0 <= k < i <= k + p.cb && 0 <= p.cb < 65536 && 0 <= p.ab.offset < 65536
    requires p.mode / 16 % 2 == 1 || i < 65536
    ensures UnitAddress(cf, p, k) != UnitAddress(cf, p, i)
  {
    hide AddressAt;
    if p.mode / 16 % 2 == 1 {
      var n := p.cb + 1;
      var a, b := k % n, i % n;
      RoundDiffers(k, i, n);
      if a < b {
        AddressesDiffer(cf, p, a, b);
      } else {
        AddressesDiffer(cf, p, b, a);
      }
    } else {
      AddressesDiffer(cf, p, k, i);
    }
  }

  lemma RoundDiffers(k: int, i: int, n: int)
    requires 0 <= k < i < k + n
    ensures k % n != i % n && 0 <= k % n < n && 0 <= i % n < n
  {
    if k % n == i % n {
      var d := i / n - k / n;
      assert d * n == i - k;
      if d >= 1 {
        Multiple(d, n);
        assert false;
      } else if d <= -1 {
        Multiple(-d, n);
        assert false;
      }
    }
  }

  lemma {:induction false} ValuesBound(cf: Config, s: State, buffer: seq<int>, evs: seq<Event>, c: int, p: Program, j: int)
    requires Sane(s) && |buffer| == 65536 && 1 <= c < 4 && p.cb >= 0 && 0 <= j && After(cf, s, c, p, j)
    requires p.mode / 16 % 2 == 0 && forall e :: e in evs ==> Own(e, c, p) || Silent(e, c)
    ensures j + |Values(cf, s, buffer, evs, c, p)| <= p.cb + 1
    decreases |evs|
  {
    hide Step, After, Own, Foreign, Moving, Served;
    AfterBound(cf, s, c, p, j);
    if evs == [] {
    } else {
      var r, e := Step(cf, s, buffer, evs[0]), evs[0];
      assert e in evs;
      StepAfter(cf, s, buffer, e, c, p, j);
      ValuesBound(cf, r.0, r.1, evs[1..], c, p, if Own(e, c, p) && Served(Moving(cf, s, e, c)) then j + 1 else j);
    }
  }

  /** Reading from memory is type 2: unit k returns the byte at its place. */
  lemma ProgrammedReads(cf: Config, s0: State, buffer: seq<int>, c: int, mode: int, offset: int, count: int,
                        evs: seq<Event>)
    requires Programmable(s0, buffer, c, mode, offset, count) && mode / 4 % 4 == 2
    requires var p := Programmed(cf, s0, c, mode, offset, count); forall e :: e in evs ==> Own(e, c, p) || Silent(e, c)
    ensures var s, p := Load(cf, s0, buffer, c, mode, offset, count), Programmed(cf, s0, c, mode, offset, count);
            var units := Units(Calls(cf, s, buffer, evs, c, p));
            forall k :: 0 <= k < |units| ==>
                          units[k].code % 256 == Byte(s.mem, Place(p.ab.page, mode, offset, count, k))
  {
    hide InPage, Load, Calls, Units, Run, Place, After, Own, Foreign, Byte, LastUnit;
    var p := Programmed(cf, s0, c, mode, offset, count);
    var s := Load(cf, s0, buffer, c, mode, offset, count);
    LoadedIsReady(cf, s0, buffer, c, mode, offset, count);
    ProgrammedInPage(cf, s0, c, mode, offset, count);
    DataFetched(cf, s, buffer, evs, c, p, 0);
    ProgrammedTransfer(cf, s0, buffer, c, mode, offset, count, evs);
  }

  // ----- the other registers -----

  /** When the adapter is asked for refresh, or none is latched, a write changes no more than it says. */
  lemma QuietReconcile(cf: Config, s: State)
    requires Sane(s) && (cf.clocked || !s.ref.queued)
    ensures var t := Reconcile(cf, s); t == s.(ref := t.ref, adapter := t.adapter)
  {
    hide CanService, RefreshDack;
  }

  lemma WrittenKeepsLatch(cf: Config, s: State, buffer: seq<int>, addr: int, val: int)
    requires Sane(s) && |buffer| == 65536 && addr in {8, 10, 13, 14, 15} && 0 <= val < 256
    ensures Written(cf, s, buffer, addr, val).0.ref == s.ref
  {
    hide Nibble;
  }

  /** Register 10 masks or unmasks one channel by bit 2, 14 unmasks all, and 15 sets all four mask bits. */
  lemma MaskWritten(cf: Config, s: State, buffer: seq<int>, addr: int, val: int, c: int)
    requires Sane(s) && |buffer| == 65536 && addr in {10, 14, 15} && 0 <= val < 256 && 0 <= c < 4
    requires c != 0 || cf.clocked || !s.ref.queued
    ensures c in DmaWrite(cf, s, buffer, addr, val).0.reg.mask <==>
            if addr == 10 then (if val % 4 == c then val / 4 % 2 == 1 else c in s.reg.mask)
            else
              addr == 15 &&
              (if c == 0 then val else if c == 1 then val / 2 else if c == 2 then val / 4 else val / 8) % 2 == 1
  {
    hide Reconcile;
    WrittenKeepsLatch(cf, s, buffer, addr, val);
    var u := Written(cf, s, buffer, addr, val).0;
    if c == 0 {
      QuietReconcile(cf, u);
    } else {
      ReconcileLeaves(cf, u, c);
    }
  }

  /** Register 8 is the command; its bit 2 stops everything. */
  lemma CommandWritten(cf: Config, s: State, buffer: seq<int>, val: int, c: int)
    requires Sane(s) && |buffer| == 65536 && 0 <= val < 256
    ensures var t := DmaWrite(cf, s, buffer, 8, val).0;
            && t.reg.command == val
            && (val / 4 % 2 == 1 ==> !CanService(t, c) && t.xt.demand == {} && t.xt.block == {} && t.xt.dack == {})
  {
    hide RefreshDack;
    ReconcileLeaves(cf, Written(cf, s, buffer, 8, val).0, 1);
  }

  /** Register 13 clears everything but the programs and a latched refresh, and masks all four channels. */
  lemma ClearWritten(cf: Config, s: State, buffer: seq<int>, val: int, c: int)
    requires Sane(s) && |buffer| == 65536 && 0 <= val < 256
    ensures var t := DmaWrite(cf, s, buffer, 13, val).0;
            && !CanService(t, c) && {0, 1, 2, 3} <= t.reg.mask && t.reg.command == 0 && !t.reg.flipFlop
            && t.reg.stat !! {0, 1, 2, 3} && t.reg.statRq !! {0, 1, 2, 3} && t.reg.advPend !! {0, 1, 2, 3}
            && t.xt == Xt({}, {}, {}, {}, {}, 3, 0, false)
            && t.prog == s.prog && t.cur == s.cur && t.mem == s.mem && (s.ref.queued ==> 0 in t.reg.rqPc)
  {
    var u := MasterClear(s);
    assert !CanService(u, 0);
    hide RefreshDack;
  }

  /** Register 9 without bit 2 withdraws one channel's software request. */
  lemma RequestWithdrawn(cf: Config, s: State, buffer: seq<int>, val: int, c: int)
    requires Sane(s) && |buffer| == 65536 && 0 <= val < 256 && val / 4 % 2 == 0 && 1 <= c < 4
    ensures var t := DmaWrite(cf, s, buffer, 9, val).0;
            && (c in t.xt.sw <==> c in s.xt.sw && c != val % 4)
            && (c in t.xt.demand <==> c in s.xt.demand && c != val % 4)
            && (c in t.xt.block <==> c in s.xt.block && !(c == val % 4 && c in s.xt.demand))
  {
    hide Reconcile;
    ReconcileLeaves(cf, Written(cf, s, buffer, 9, val).0, c);
  }

  /** Register 9 with bit 2 moves the whole program of a block-mode channel that is then the pick, between the first
      bytes of the buffer and the program's places: type 1 writes memory, type 2 reads it. */
  lemma SoftwareRequest(cf: Config, s: State, buffer: seq<int>, c: int)
    requires Sane(s) && |buffer| == 65536 && 0 <= c < 4 && !(c == 0 && s.reg.command % 2 == 1)
    requires BlockAt(cf, WithSoft(s.(xt := s.xt.(sw := s.xt.sw + {c})), true), c, 0)
    requires s.prog[c].mode / 4 % 4 in {1, 2} && s.prog[c].cb < 0xFFFF && 0 <= s.prog[c].ab.offset < 65536
    ensures var p, r := s.prog[c], DmaWrite(cf, s, buffer, 9, 4 + c);
            && (p.mode / 4 % 4 == 1 ==>
                  && r.1 == buffer
                  && (forall k :: 0 <= k <= p.cb ==> Byte(r.0.mem, AddressAt(cf, p, k)) == buffer[k] % 256)
                  && (forall a :: (forall k :: 0 <= k <= p.cb ==> AddressAt(cf, p, k) != a) ==>
                                    Byte(r.0.mem, a) == Byte(s.mem, a)))
            && (p.mode / 4 % 4 == 2 ==>
                  && r.0.mem == s.mem
                  && forall k :: 0 <= k < 65536 ==>
                                   r.1[k] == if k <= p.cb then Byte(s.mem, AddressAt(cf, p, k)) else buffer[k])
            && (c != 0 ==>
                  c in r.0.reg.stat && c !in r.0.xt.sw && (c in r.0.reg.mask <==> p.mode / 16 % 2 == 0))
  {
    hide Reconcile, BlockAt, BlockTransfer, AddressAt, Landed, Filled, Byte;
    var t, p := s.(xt := s.xt.(sw := s.xt.sw + {c})), s.prog[c];
    BlockBounds(cf, WithSoft(t, true), c, 0);
    SoftwareBlock(cf, t, buffer, c);
    var r := BlockTransfer(cf, t, buffer, c);
    assert Written(cf, s, buffer, 9, 4 + c) == r;
    if p.mode / 4 % 4 == 1 {
      BlockLanded(cf, s.mem, p, buffer);
    } else {
      forall k | 0 <= k < 65536 ensures r.1[k] == if k <= p.cb then Byte(s.mem, AddressAt(cf, p, k)) else buffer[k] {
        FilledAt(cf, s.mem, p, 0, buffer, k);
      }
    }
    if c != 0 {
      ReconcileLeaves(cf, r.0, c);
    }
  }

  lemma BlockLanded(cf: Config, m: Memory, p: Program, buffer: seq<int>)
    requires |buffer| == 65536 && 0 <= p.cb < 0xFFFF && 0 <= p.ab.offset < 65536
    ensures var n := Landed(cf, m, p, 0, buffer[..p.cb + 1]);
            && (forall k :: 0 <= k <= p.cb ==> Byte(n, AddressAt(cf, p, k)) == buffer[k] % 256)
            && (forall a :: (forall k :: 0 <= k <= p.cb ==> AddressAt(cf, p, k) != a) ==> Byte(n, a) == Byte(m, a))
  {
    hide AddressAt, Landed, Byte;
    var data := buffer[..p.cb + 1];
    forall k | 0 <= k <= p.cb ensures Byte(Landed(cf, m, p, 0, data), AddressAt(cf, p, k)) == buffer[k] % 256 {
      LandedAt(cf, m, p, 0, data, AddressAt(cf, p, k));
    }
    forall a | forall k :: 0 <= k <= p.cb ==> AddressAt(cf, p, k) != a
      ensures Byte(Landed(cf, m, p, 0, data), a) == Byte(m, a)
    {
      LandedAt(cf, m, p, 0, data, a);
    }
  }

  /** With bit 0 of the command set, the same request for channel 0 copies memory. */
  lemma CopyRequest(cf: Config, s: State, buffer: seq<int>)
    requires Sane(s) && |buffer| == 65536 && !s.xt.inMemToMem && s.reg.command % 2 == 1
    requires CanService(s.(xt := s.xt.(sw := s.xt.sw + {0})), 0) && s.prog[0].mode / 64 % 4 == 2
    requires 1 !in s.xt.eop && s.prog[1].cb >= 0
    requires s.cur[0].ac == s.prog[0].ab && s.cur[1] == Current(s.prog[1].ab, s.prog[1].cb)
    ensures DmaWrite(cf, s, buffer, 9, 4).0.mem ==
            Carried(cf, s.mem, s.prog[0], s.prog[1], s.reg.command / 2 % 2 == 1, 0, s.prog[1].cb + 1)
  {
    hide Reconcile, CanService, MemToMem, Carried;
    MemoryCopied(cf, s.(xt := s.xt.(sw := s.xt.sw + {0})));
  }

  /** A channel masked through register 10 or 15 loses the bus. */
  lemma MaskingReleases(cf: Config, s: State, buffer: seq<int>, addr: int, val: int, c: int)
    requires Sane(s) && |buffer| == 65536 && 0 <= val < 256 && 0 <= c < 4
    requires c != 0 || cf.clocked || !s.ref.queued
    requires if addr == 10 then val % 4 == c && val / 4 % 2 == 1
             else
               addr == 15 &&
               (if c == 0 then val else if c == 1 then val / 2 else if c == 2 then val / 4 else val / 8) % 2 == 1
    ensures var t := DmaWrite(cf, s, buffer, addr, val).0; c !in t.xt.demand && c !in t.xt.block
  {
    hide Reconcile;
    WrittenKeepsLatch(cf, s, buffer, addr, val);
    var u := Written(cf, s, buffer, addr, val).0;
    if c == 0 {
      QuietReconcile(cf, u);
    } else {
      ReconcileLeaves(cf, u, c);
    }
  }

  /** One byte written to an address or count register replaces the low or the high byte, as the flip-flop says, in
      the program and in the current value, and turns the flip-flop over. */
  lemma ByteWritten(cf: Config, s: State, buffer: seq<int>, addr: int, val: int)
    requires Sane(s) && |buffer| == 65536 && 2 <= addr < 8 && 0 <= val < 256
    requires var c := addr / 2; 0 <= s.prog[c].ab.offset < 65536 && 0 <= s.prog[c].cb < 65536
    ensures var c, t := addr / 2, DmaWrite(cf, s, buffer, addr, val).0;
            var was := if addr % 2 == 0 then s.prog[c].ab.offset else s.prog[c].cb;
            var now := if addr % 2 == 0 then t.prog[c].ab.offset else t.prog[c].cb;
            && (if s.reg.flipFlop then now / 256 == val && now % 256 == was % 256
                else now % 256 == val && now / 256 == was / 256)
            && (if addr % 2 == 0 then t.cur[c].ac == t.prog[c].ab && t.cur[c].cc == s.cur[c].cc
                else t.cur[c].cc == t.prog[c].cb && t.cur[c].ac == s.cur[c].ac)
            && t.reg.flipFlop == !s.reg.flipFlop
  {
    hide Reconcile, LowByte, HighByte;
    var c := addr / 2;
    ReconcileLeaves(cf, Written(cf, s, buffer, addr, val).0, c);
    BytesOf(s.prog[c].ab.offset, val);
    BytesOf(s.prog[c].cb, val);
  }

  lemma BytesOf(v: int, val: int)
    requires 0 <= v < 65536 && 0 <= val < 256
    ensures LowByte(v, val) % 256 == val && LowByte(v, val) / 256 == v / 256
    ensures HighByte(v, val) % 256 == v % 256 && HighByte(v, val) / 256 == val
  {
  }

  /** A served unit is seen in the request status. */
  lemma UnitSeen(cf: Config, s: State, buffer: seq<int>, e: Event, c: int, i: int)
    requires Sane(s) && |buffer| == 65536 && 1 <= c < 4 && AtUnit(cf, s, c, i) && Own(e, c, s.prog[c]) && c in Requests(s)
    ensures c in Step(cf, s, buffer, e).0.reg.statRq
  {
    ServedExactly(s, c);
    var u := if e.Write? then Stored(s, c, e.val) else s;
    hide CanService, FinishTransfer, Moved, Reconcile, Terminal;
    SeenStays(cf, u, c);
  }

  lemma SeenStays(cf: Config, s: State, c: int)
    requires Sane(s) && 1 <= c < 4
    ensures c in Complete(cf, Moved(cf, s, c), c).reg.statRq
    ensures c in Complete(cf, WithoutPending(Moved(cf, s, c), c), c).reg.statRq
  {
    MovedSeen(cf, s, c);
    hide Moved, Reconcile, FinishTransfer;
    FinishSeen(Moved(cf, s, c), c);
    FinishSeen(WithoutPending(Moved(cf, s, c), c), c);
    ReconcileSeen(cf, FinishTransfer(Moved(cf, s, c), c), c);
    ReconcileSeen(cf, FinishTransfer(WithoutPending(Moved(cf, s, c), c), c), c);
  }

  lemma MovedSeen(cf: Config, s: State, c: int)
    requires Sane(s) && 0 <= c < 4
    ensures c in Moved(cf, s, c).reg.statRq && Moved(cf, s, 0).reg.statRq >= s.reg.statRq
  {
  }

  lemma FinishSeen(s: State, c: int)
    requires Sane(s) && 0 <= c < 4
    ensures FinishTransfer(s, c).reg.statRq == s.reg.statRq
  {
  }

  lemma ReconcileSeen(cf: Config, s: State, c: int)
    requires Sane(s) && c in s.reg.statRq
    ensures c in Reconcile(cf, s).reg.statRq
  {
    hide CanService, Terminal, Type;
    forall t: State | Sane(t) && t.reg.statRq >= s.reg.statRq
      ensures FinishTransfer(t, 0).reg.statRq >= s.reg.statRq && Moved(cf, t, 0).reg.statRq >= s.reg.statRq
    {
      FinishSeen(t, 0);
      MovedSeen(cf, t, 0);
    }
    hide FinishTransfer, Moved;
  }

  /** After a reset nothing is served, channel 0 is first in the order, and every channel can be programmed. */
  lemma ResetIsProgrammable(s: State, buffer: seq<int>, c: int, mode: int, offset: int, count: int)
    requires |buffer| == 65536 && 1 <= c < 4 && 0 <= offset < 65536 && 0 <= count < 65536
    requires 0 <= mode < 256 && mode % 4 == c && mode / 64 != 3
    ensures var t := Dma.Reset(s);
            && Programmable(t, buffer, c, mode, offset, count) && Distance(t.xt.last, 0) == 0
            && (forall d :: !CanService(t, d)) && t.reg.stat == {} && !t.reg.flipFlop && t.reg.enabled == {0, 1, 2, 3}
  {
    var t := Dma.Reset(s);
    forall d ensures !CanService(t, d) {
      assert 0 <= d <= 3 ==> d in t.reg.mask;
    }
  }

  /** A copy does not begin inside another, nor without bit 0 of the command, nor when channel 0 cannot be served. */
  lemma CopyRefused(cf: Config, s: State)
    requires Sane(s) && (s.xt.inMemToMem || s.reg.command % 2 == 0 || !CanService(s, 0))
    ensures MemToMem(cf, s) == s
  {
  }

  /** An external end of process on channel 1 ends a copy with the byte being copied. */
  lemma CopyStopped(cf: Config, s: State)
    requires Sane(s) && !s.xt.inMemToMem && s.reg.command % 2 == 1 && CanService(s, 0) && 1 in s.xt.eop
    ensures var r := MemToMem(cf, s);
            && r.mem == s.mem[s.cur[1].ac := Byte(s.mem, s.cur[0].ac)]
            && 1 in r.reg.stat && 1 !in r.xt.eop && 0 !in r.xt.sw
  {
    hide CanService, NextAddress, Byte;
  }

  /** DACK0 moves one refresh unit -- and before it completes one that was left pending. */
  lemma RefreshCounts(cf: Config, s: State)
    requires Sane(s) && cf.clocked && 0 !in s.xt.eop && s.cur[0].cc >= 2
    ensures var t := RefreshDack(cf, s);
            && t.cur[0].cc == s.cur[0].cc - (if 0 in s.reg.advPend then 2 else 1)
            && t.cur[0].ac == NextAddress(s.cur[0].ac, s.prog[0].mode / 32 % 2 == 1, cf.pageMask)
            && 0 !in t.reg.advPend && 0 !in t.reg.rqPc && !t.ref.queued
  {
    hide NextAddress, Service, Rotating;
  }
}
