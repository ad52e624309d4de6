/** Transfers started by a software request, on a channel in block mode that is picked when it starts. */
module DmaBlock {
  import opened Dma
  import opened DmaArbitration
  import opened DmaTransfers
  import opened DmaUnits
  import opened DmaData

  /** Unit i of a software transfer in block mode is next, and the channel is the pick. */
  predicate BlockAt(cf: Config, s: State, c: int, i: int)
    requires Sane(s) && 0 <= c < 4
  {
    var p := s.prog[c];
    && s.reg.soft && CanService(s, c) && c !in s.xt.eop && c !in s.reg.advPend
    && p.mode / 64 % 4 == 2 && 0 <= i <= p.cb && s.cur[c] == Current(AddressAt(cf, p, i), p.cb - i)
  }

  lemma PickedForSoftware(s: State, c: int)
    requires Sane(s) && 0 <= c < 4 && s.reg.soft
    ensures CanService(s, c) <==>
            c in s.reg.enabled && c !in s.reg.mask && c in Requests(s) && s.prog[c].mode / 64 % 4 != 3 && Picked(s) == c
  {
  }

  /** While another channel owns the bus, reconciling refresh moves nothing. */
  lemma BusyReconcile(cf: Config, s: State)
    requires Sane(s) && !CanService(s, 0)
    ensures var t := Reconcile(cf, s);
            t == s.(ref := t.ref, adapter := t.adapter)
  {
    hide CanService;
  }

  /** One unit that is not the last: the channel owns the bus now, and the next unit is ready. */
  lemma BlockGoesOn(cf: Config, s: State, c: int, i: int)
    requires Sane(s) && 0 <= c < 4 && BlockAt(cf, s, c, i) && i < s.prog[c].cb
    ensures BlockAt(cf, Complete(cf, Moved(cf, s, c), c), c, i + 1)
    ensures Complete(cf, Moved(cf, s, c), c).prog == s.prog
  {
    AddressSteps(cf, s.prog[c], i);
    PickedForSoftware(s, c);
    var f := FinishTransfer(Moved(cf, s, c), c);
    assert !Terminal(Moved(cf, s, c), c);
    OwnershipBegins(cf, s);
    hide Pick, NextAddress, AddressAt;
    PickedForSoftware(f, c);
    assert c in Requests(f);
    assert BlockAt(cf, f, c, i + 1);
    if c != 0 && f.ref.queued {
      BusyReconcile(cf, f);
      SameBlock(cf, f, Reconcile(cf, f), c, i + 1);
    }
  }

  lemma SameBlock(cf: Config, s: State, t: State, c: int, i: int)
    requires Sane(s) && Sane(t) && 0 <= c < 4 && BlockAt(cf, s, c, i)
    requires t == s.(ref := t.ref, adapter := t.adapter, mem := t.mem)
    ensures BlockAt(cf, t, c, i)
  {
    hide AddressAt;
  }

  /** The last one: terminal count, the request withdrawn, and the channel masked unless it re-initialises. */
  predicate BlockEnded(s: State, c: int)
    requires Sane(s) && 0 <= c < 4
  {
    c in s.reg.stat && c !in s.xt.sw && (c in s.reg.mask <==> s.prog[c].mode / 16 % 2 == 0)
  }

  lemma BlockEnds(cf: Config, s: State, c: int)
    requires Sane(s) && 0 <= c < 4 && BlockAt(cf, s, c, s.prog[c].cb)
    ensures BlockEnded(Complete(cf, Moved(cf, s, c), c), c)
  {
    var f := FinishTransfer(Moved(cf, s, c), c);
    assert BlockEnded(f, c) by {
      hide CanService, NextAddress, AddressAt;
    }
    if c != 0 {
      hide FinishTransfer, Moved, Reconcile, CanService, AutoInit;
      ReconcileLeaves(cf, f, c);
    }
  }

  /** One written unit: its byte lands, and either the next unit is ready or the transfer has ended. */
  lemma BlockUnitOut(cf: Config, s: State, c: int, val: int, i: int)
    requires Sane(s) && 0 <= c < 4 && BlockAt(cf, s, c, i) && s.prog[c].mode / 4 % 4 == 1
    ensures var t := ChannelWrite(cf, s, c, val).0;
            && Sane(t) && t.prog == s.prog && t.mem == s.mem[AddressAt(cf, s.prog[c], i) := val % 256]
            && if i < s.prog[c].cb then BlockAt(cf, t, c, i + 1) else BlockEnded(t, c)
  {
    var u := Stored(s, c, val);
    SameBlock(cf, s, u, c, i);
    assert Moved(cf, u, c).reg.advPend - {c} == Moved(cf, u, c).reg.advPend;
    assert WithoutPending(Moved(cf, u, c), c) == Moved(cf, u, c);
    hide CanService, Complete, Moved, AddressAt;
    if i < s.prog[c].cb {
      BlockGoesOn(cf, u, c, i);
    } else {
      BlockEnds(cf, u, c);
    }
  }

  /** One read unit likewise: memory stays, and the value is the byte at the unit's address. */
  lemma BlockUnitIn(cf: Config, s: State, c: int, i: int)
    requires Sane(s) && 0 <= c < 4 && BlockAt(cf, s, c, i) && s.prog[c].mode / 4 % 4 == 2
    ensures var r := ChannelRead(cf, s, c);
            && r.0.prog == s.prog && r.0.mem == s.mem && r.1 % 256 == Byte(s.mem, AddressAt(cf, s.prog[c], i))
            && if i < s.prog[c].cb then BlockAt(cf, r.0, c, i + 1) else BlockEnded(r.0, c)
  {
    hide CanService, Complete, Moved, AddressAt, Terminal;
    if i < s.prog[c].cb {
      BlockGoesOn(cf, s, c, i);
    } else {
      BlockEnds(cf, s, c);
    }
  }

  lemma BlockModeBit(mode: int)
    requires mode / 64 % 4 == 2
    ensures mode / 128 % 2 == 1
  {
    assert mode / 128 == mode / 64 / 2;
  }

  lemma {:induction false} BlockWrites(cf: Config, s: State, buffer: seq<int>, c: int, i: int)
    requires Sane(s) && 0 <= c < 4 && BlockAt(cf, s, c, i) && s.prog[c].mode / 4 % 4 == 1
    requires |buffer| == 65536 && s.prog[c].cb < 0xFFFF
    ensures BlockWritten(cf, s, buffer, c, i)
    decreases 65536 - i
  {
    BlockBounds(cf, s, c, i);
    BlockUnitOut(cf, s, c, buffer[i], i);
    hide *;
    var t := ChannelWrite(cf, s, c, buffer[i]).0;
    if i == s.prog[c].cb {
      BlockStops(cf, t, buffer, c, i + 1);
      LandedNone(cf, t.mem, s.prog[c], buffer);
      WrittenNone(cf, t, buffer, c, i + 1);
    } else {
      BlockWrites(cf, t, buffer, c, i + 1);
    }
    WriteNext(cf, s, buffer, c, i);
    WrittenNext(cf, s, t, buffer, c, i);
  }

  /** What writing units i to the last comes to. */
  predicate BlockWritten(cf: Config, s: State, buffer: seq<int>, c: int, i: int)
    requires Sane(s) && 0 <= c < 4 && |buffer| == 65536 && 0 <= i <= s.prog[c].cb + 1 < 0x1_0000
  {
    var r := BlockFrom(cf, s, buffer, c, i);
    && r.1 == buffer && r.0.mem == LandedRest(cf, s.mem, s.prog[c], i, buffer)
    && BlockEnded(r.0, c)
  }

  lemma WrittenNone(cf: Config, s: State, buffer: seq<int>, c: int, i: int)
    requires Sane(s) && 0 <= c < 4 && |buffer| == 65536 && 0 <= i == s.prog[c].cb + 1 < 0x1_0000
    requires BlockFrom(cf, s, buffer, c, i) == (s, buffer) && BlockEnded(s, c)
    requires LandedRest(cf, s.mem, s.prog[c], i, buffer) == s.mem
    ensures BlockWritten(cf, s, buffer, c, i)
  {
  }

  lemma WrittenNext(cf: Config, s: State, t: State, buffer: seq<int>, c: int, i: int)
    requires Sane(s) && Sane(t) && 0 <= c < 4 && |buffer| == 65536 && 0 <= i <= s.prog[c].cb < 0xFFFF
    requires t.prog == s.prog && t.mem == s.mem[AddressAt(cf, s.prog[c], i) := buffer[i] % 256]
    requires BlockFrom(cf, s, buffer, c, i) == BlockFrom(cf, t, buffer, c, i + 1) && BlockWritten(cf, t, buffer, c, i + 1)
    ensures BlockWritten(cf, s, buffer, c, i)
  {
    hide BlockFrom, LandedRest, AddressAt, BlockEnded;
    LandedNext(cf, s.mem, s.prog[c], i, buffer);
  }

  lemma BlockBounds(cf: Config, s: State, c: int, i: int)
    requires Sane(s) && 0 <= c < 4 && BlockAt(cf, s, c, i)
    ensures Sane(s) && 0 <= i <= s.prog[c].cb && s.prog[c].mode / 64 % 4 == 2
  {
  }

  lemma WriteNext(cf: Config, s: State, buffer: seq<int>, c: int, i: int)
    requires Sane(s) && 0 <= c < 4 && |buffer| == 65536 && 0 <= i <= s.prog[c].cb < 0xFFFF
    requires s.prog[c].mode / 64 % 4 == 2 && s.prog[c].mode / 4 % 4 == 1
    ensures BlockFrom(cf, s, buffer, c, i) == BlockFrom(cf, ChannelWrite(cf, s, c, buffer[i]).0, buffer, c, i + 1)
  {
    hide ChannelWrite;
    BlockModeBit(s.prog[c].mode);
  }

  lemma BlockStops(cf: Config, s: State, buffer: seq<int>, c: int, i: int)
    requires Sane(s) && 0 <= c < 4 && |buffer| == 65536 && i > s.prog[c].cb
    ensures BlockFrom(cf, s, buffer, c, i) == (s, buffer)
  {
  }

  /** Memory with bytes i to the last of the buffer at their units. */
  function LandedRest(cf: Config, m: Memory, p: Program, i: int, buffer: seq<int>): Memory
    requires |buffer| == 65536 && 0 <= i <= p.cb + 1 <= 65535
  {
    Landed(cf, m, p, i, buffer[i..p.cb + 1])
  }

  lemma LandedNext(cf: Config, m: Memory, p: Program, i: int, buffer: seq<int>)
    requires |buffer| == 65536 && 0 <= i <= p.cb < 65535
    ensures LandedRest(cf, m, p, i, buffer) ==
            LandedRest(cf, m[AddressAt(cf, p, i) := buffer[i] % 256], p, i + 1, buffer)
  {
    assert buffer[i..p.cb + 1][1..] == buffer[i + 1..p.cb + 1];
  }

  lemma LandedNone(cf: Config, m: Memory, p: Program, buffer: seq<int>)
    requires |buffer| == 65536 && 0 <= p.cb < 65535
    ensures LandedRest(cf, m, p, p.cb + 1, buffer) == m
  {
  }

  /** The buffer with the bytes of units i to the last in their places. */
  function Filled(cf: Config, m: Memory, p: Program, i: int, buffer: seq<int>): (r: seq<int>)
    requires 0 <= i && p.cb < 65536 && |buffer| == 65536
    ensures |r| == 65536
    decreases p.cb + 1 - i
  {
    if i > p.cb then buffer else Filled(cf, m, p, i + 1, buffer[i := Byte(m, AddressAt(cf, p, i))])
  }

  lemma {:induction false} FilledAt(cf: Config, m: Memory, p: Program, i: int, buffer: seq<int>, k: int)
    requires 0 <= i && p.cb < 65536 && |buffer| == 65536 && 0 <= k < 65536
    ensures Filled(cf, m, p, i, buffer)[k] == if i <= k <= p.cb then Byte(m, AddressAt(cf, p, k)) else buffer[k]
    decreases p.cb + 1 - i
  {
    hide AddressAt, Byte;
    if i > p.cb {
    } else {
      FilledAt(cf, m, p, i + 1, buffer[i := Byte(m, AddressAt(cf, p, i))], k);
    }
  }

  lemma {:induction false} BlockReads(cf: Config, s: State, buffer: seq<int>, c: int, i: int)
    requires Sane(s) && 0 <= c < 4 && BlockAt(cf, s, c, i) && s.prog[c].mode / 4 % 4 == 2
    requires |buffer| == 65536 && s.prog[c].cb < 0xFFFF
    ensures var r := BlockFrom(cf, s, buffer, c, i);
            && r.1 == Filled(cf, s.mem, s.prog[c], i, buffer) && r.0.mem == s.mem && BlockEnded(r.0, c)
    decreases 65536 - i
  {
    var r := ChannelRead(cf, s, c);
    BlockModeBit(s.prog[c].mode);
    BlockUnitIn(cf, s, c, i);
    hide ChannelWrite, ChannelRead, AddressAt, CanService, BlockEnded, Byte;
    if i == s.prog[c].cb {
    } else {
      BlockReads(cf, r.0, buffer[i := r.1 % 256], c, i + 1);
    }
  }

  /** A software request for a block-mode channel that is the pick -- whatever else is asking, refresh included --
      moves exactly base count + 1 units: the first bytes of the buffer to the program's addresses, or the bytes
      there to the buffer.  It reports the terminal count, withdraws the request, and masks the channel unless it
      re-initialises itself. */
  lemma SoftwareBlock(cf: Config, s: State, buffer: seq<int>, c: int)
    requires Sane(s) && 0 <= c < 4 && BlockAt(cf, WithSoft(s, true), c, 0) && s.prog[c].mode / 4 % 4 in {1, 2}
    requires |buffer| == 65536 && s.prog[c].cb < 0xFFFF
    ensures var r := BlockTransfer(cf, s, buffer, c);
            && !r.0.reg.soft && BlockEnded(r.0, c)
            && (s.prog[c].mode / 4 % 4 == 1 ==>
                  r.1 == buffer && r.0.mem == Landed(cf, s.mem, s.prog[c], 0, buffer[..s.prog[c].cb + 1]))
            && (s.prog[c].mode / 4 % 4 == 2 ==> r.1 == Filled(cf, s.mem, s.prog[c], 0, buffer) && r.0.mem == s.mem)
  {
    hide BlockFrom, Landed, AutoInit, AddressAt, CanService;
    if s.prog[c].mode / 4 % 4 == 1 {
      BlockWrites(cf, WithSoft(s, true), buffer, c, 0);
      assert buffer[0..s.prog[c].cb + 1] == buffer[..s.prog[c].cb + 1];
    } else {
      BlockReads(cf, WithSoft(s, true), buffer, c, 0);
    }
  }

  // ----- memory to memory -----

  predicate Held(command: int) {
    command / 2 % 2 == 1
  }

  /** Where byte i of a copy comes from: channel 0's address stands still when it is held. */
  function Source(cf: Config, p: Program, hold: bool, i: int): Address {
    AddressAt(cf, p, if hold then 0 else i)
  }

  /** Byte i of a copy is next, and channel 0 keeps the bus. */
  predicate CopyAt(cf: Config, s: State, i: int)
    requires Sane(s)
  {
    && CanService(s, 0) && s.prog[0].mode / 64 % 4 == 2 && 1 !in s.xt.eop && 0 <= i <= s.prog[1].cb
    && s.cur[0].ac == Source(cf, s.prog[0], Held(s.reg.command), i)
    && s.cur[1] == Current(AddressAt(cf, s.prog[1], i), s.prog[1].cb - i)
  }

  lemma SameService(s: State, t: State)
    requires Sane(s) && Sane(t) && s.prog == t.prog && s.reg == t.reg && t.xt == s.xt.(temp := t.xt.temp)
    ensures CanService(t, 0) == CanService(s, 0)
  {
  }

  lemma CopyUnit(cf: Config, s: State, i: int)
    requires Sane(s) && CopyAt(cf, s, i)
    ensures var c := Copied(cf, s);
            var t := Tallied(c);
            && t.prog == s.prog && t.reg.command == s.reg.command && CopyEnds(c) == (i == s.prog[1].cb)
            && t.mem == s.mem[AddressAt(cf, s.prog[1], i) := Byte(s.mem, Source(cf, s.prog[0], Held(s.reg.command), i))]
            && t.xt.temp == Byte(s.mem, Source(cf, s.prog[0], Held(s.reg.command), i))
            && (i < s.prog[1].cb ==> CopyAt(cf, t, i + 1))
            && (i == s.prog[1].cb ==>
                  && 1 in t.reg.stat && 0 !in t.xt.sw && 0 !in t.xt.block && 0 !in t.xt.demand && 0 !in t.xt.dack
                  && (s.prog[1].mode / 16 % 2 == 1 ==>
                        t.cur[1] == Current(s.prog[1].ab, s.prog[1].cb) && t.cur[0].ac == s.prog[0].ab)
                  && (1 in t.reg.mask <==> s.prog[1].mode / 16 % 2 == 0 || 1 in s.reg.mask))
  {
    AddressSteps(cf, s.prog[0], i);
    AddressSteps(cf, s.prog[1], i);
    hide AddressAt, NextAddress, CanService, Rotating, Byte;
    var t := Tallied(Copied(cf, s));
    if i < s.prog[1].cb {
      SameService(s, t);
    }
  }

  /** Memory after n bytes of a copy, one after the other, from byte i on. */
  function Carried(cf: Config, m: Memory, p: Program, q: Program, hold: bool, i: int, n: nat): Memory
    decreases n
  {
    if n == 0 then m
    else Carried(cf, m[AddressAt(cf, q, i) := Byte(m, Source(cf, p, hold, i))], p, q, hold, i + 1, n - 1)
  }

  lemma {:induction false} CopyMoves(cf: Config, s: State, i: int)
    requires Sane(s) && CopyAt(cf, s, i)
    ensures CopyDone(cf, s, i)
    decreases s.prog[1].cb - i
  {
    CopyUnit(cf, s, i);
    CopyNext(cf, s, i);
    var t := Tallied(Copied(cf, s));
    hide CopyDone, Copied, Tallied, CopyEnds, AddressAt, Byte, CanService;
    if i == s.prog[1].cb {
      CopiedLast(cf, s, t, i);
    } else {
      CopyMoves(cf, t, i + 1);
      CopiedNext(cf, s, t, i);
    }
  }

  /** What copying byte i to the last comes to. */
  predicate CopyDone(cf: Config, s: State, i: int)
    requires Sane(s) && 0 <= i <= s.prog[1].cb
  {
    var r := CopyFrom(cf, s);
    && r.mem == Carried(cf, s.mem, s.prog[0], s.prog[1], Held(s.reg.command), i, s.prog[1].cb + 1 - i)
    && 1 in r.reg.stat && 0 !in r.xt.sw
  }

  lemma CopiedLast(cf: Config, s: State, t: State, i: int)
    requires Sane(s) && Sane(t) && 0 <= i == s.prog[1].cb && CopyFrom(cf, s) == t && 1 in t.reg.stat && 0 !in t.xt.sw
    requires t.mem == s.mem[AddressAt(cf, s.prog[1], i) := Byte(s.mem, Source(cf, s.prog[0], Held(s.reg.command), i))]
    ensures CopyDone(cf, s, i)
  {
    hide CopyFrom, Carried, AddressAt, Byte, Source, Held;
    CarriedOne(cf, s.mem, s.prog[0], s.prog[1], Held(s.reg.command), i);
  }

  lemma CopiedNext(cf: Config, s: State, t: State, i: int)
    requires Sane(s) && Sane(t) && 0 <= i < s.prog[1].cb && t.prog == s.prog && t.reg.command == s.reg.command
    requires t.mem == s.mem[AddressAt(cf, s.prog[1], i) := Byte(s.mem, Source(cf, s.prog[0], Held(s.reg.command), i))]
    requires CopyFrom(cf, s) == CopyFrom(cf, t) && CopyDone(cf, t, i + 1)
    ensures CopyDone(cf, s, i)
  {
    hide CopyFrom, Carried, AddressAt, Byte, Source, Held;
    CarriedNext(cf, s.mem, s.prog[0], s.prog[1], Held(s.reg.command), i, s.prog[1].cb - i);
  }

  lemma CopyNext(cf: Config, s: State, i: int)
    requires Sane(s) && CopyAt(cf, s, i)
    ensures var c := Copied(cf, s);
            var t := Tallied(c);
            && Sane(t) && 0 <= i <= s.prog[1].cb
            && (CopyEnds(c) ==> CopyFrom(cf, s) == t)
            && (!CopyEnds(c) && CanService(t, 0) && t.prog == s.prog ==> CopyFrom(cf, s) == CopyFrom(cf, t))
  {
    hide Copied, Tallied, CopyEnds, AddressAt, CanService;
  }

  lemma CarriedOne(cf: Config, m: Memory, p: Program, q: Program, hold: bool, i: int)
    ensures Carried(cf, m, p, q, hold, i, 1) == m[AddressAt(cf, q, i) := Byte(m, Source(cf, p, hold, i))]
  {
  }

  lemma CarriedNext(cf: Config, m: Memory, p: Program, q: Program, hold: bool, i: int, n: nat)
    ensures Carried(cf, m, p, q, hold, i, n + 1) ==
            Carried(cf, m[AddressAt(cf, q, i) := Byte(m, Source(cf, p, hold, i))], p, q, hold, i + 1, n)
  {
  }

  lemma OwnerKept(s: State)
    requires Sane(s) && CanService(s, 0)
    ensures CanService(BeginService(s, 0), 0)
  {
  }

  /** A block-mode memory-to-memory request copies exactly channel 1's base count + 1 bytes, one after the
      other, sets channel 1's terminal count, and withdraws channel 0's request. */
  lemma MemoryCopied(cf: Config, s: State)
    requires Sane(s) && !s.xt.inMemToMem && s.reg.command % 2 == 1 && CanService(s, 0) && s.prog[0].mode / 64 % 4 == 2
    requires 1 !in s.xt.eop && s.prog[1].cb >= 0
    requires s.cur[0].ac == s.prog[0].ab && s.cur[1] == Current(s.prog[1].ab, s.prog[1].cb)
    ensures var r := MemToMem(cf, s);
            && r.mem == Carried(cf, s.mem, s.prog[0], s.prog[1], Held(s.reg.command), 0, s.prog[1].cb + 1)
            && 1 in r.reg.stat && 0 !in r.xt.sw && !r.xt.inMemToMem
  {
    var u := s.(xt := s.xt.(inMemToMem := true));
    assert CanService(u, 0);
    OwnerKept(u);
    AddressStarts(cf, s.prog[0]);
    AddressStarts(cf, s.prog[1]);
    hide CanService, CopyFrom, AddressAt;
    CopyMoves(cf, BeginService(u, 0), 0);
    hide Carried;
  }

  /** In single mode a request copies one byte, and the bus is given back even if it was not the last. */
  lemma SingleCopied(cf: Config, s: State)
    requires Sane(s) && !s.xt.inMemToMem && s.reg.command % 2 == 1 && CanService(s, 0) && s.prog[0].mode / 64 % 4 == 1
    ensures var r := MemToMem(cf, s);
            && r.mem == s.mem[s.cur[1].ac := Byte(s.mem, s.cur[0].ac)] && !r.xt.inMemToMem
            && 0 !in r.xt.demand && 0 !in r.xt.block && 0 !in r.xt.dack
            && r.xt.last == if s.reg.command / 16 % 2 == 1 then 0 else s.xt.last
  {
    hide CanService, NextAddress, Byte;
  }

  /** When no byte is copied onto a source still to be read, the destination holds the source's bytes as they
      were, and everything else is as it was. */
  lemma {:induction false} CarriedAt(cf: Config, m: Memory, p: Program, q: Program, hold: bool, i: int, n: nat, a: Address)
    requires 0 <= i && i + n <= 65536 && 0 <= q.ab.offset < 65536
    requires forall j, k :: i <= j < i + n && i <= k < i + n ==> Source(cf, p, hold, j) != AddressAt(cf, q, k)
    ensures var r := Carried(cf, m, p, q, hold, i, n);
            && (forall k :: i <= k < i + n && AddressAt(cf, q, k) == a ==> Byte(r, a) == Byte(m, Source(cf, p, hold, k)))
            && ((forall k :: i <= k < i + n ==> AddressAt(cf, q, k) != a) ==> Byte(r, a) == Byte(m, a))
    decreases n
  {
    hide AddressAt, Source;
    if n == 0 {
    } else {
      var to, from := AddressAt(cf, q, i), Source(cf, p, hold, i);
      var m' := m[to := Byte(m, from)];
      CarriedAt(cf, m', p, q, hold, i + 1, n - 1, a);
      if to == a {
        forall k | i + 1 <= k < i + n ensures AddressAt(cf, q, k) != a {
          AddressesDiffer(cf, q, i, k);
        }
      }
      forall k | i + 1 <= k < i + n ensures Byte(m', Source(cf, p, hold, k)) == Byte(m, Source(cf, p, hold, k)) {
        assert Source(cf, p, hold, k) != AddressAt(cf, q, i);
      }
    }
  }
}
