/** DecodeData and EncodeData over a buffer: the per-dongle modes, the block transforms
    working in place, and the fact that unchained encoding and decoding undo each other. */
module HaspBuffer {
  import opened Words
  import opened Feistel
  import opened HaspRound

  datatype Op = Keep | Decode | Encode

  function OpOf(mode: int): Op {
    if mode in {1, 4, 7, 12, 13, 14, 15, 18} then Decode
    else if mode in {2, 5, 6, 8, 9, 10, 11} then Encode
    else Keep
  }

  predicate Chained(mode: int) {
    mode in {6, 7, 10, 11, 14, 15, 18}
  }

  predicate TailState(mode: int) {
    mode == 18
  }

  /** (high << 16) | low, cut to 32 bits. */
  function JoinHalves(high: Word, low: Word): Word {
    low[..16] + seq(16, i requires 0 <= i < 16 => high[i] || low[16 + i])
  }

  function PwOf(mode: int, pw1: Word, pw2: Word, devicePw: Word): Word {
    if mode in {8, 10, 12, 14} then JoinHalves(pw1, pw2)
    else if mode in {9, 11, 13, 15} then JoinHalves(pw2, pw1)
    else devicePw
  }

  /** Everything a keyed round depends on besides its input. */
  datatype Key = Key(tab: Table, password: Word, idx: int)

  function Keyed(key: Key): Word -> Word {
    x => Transform(x, key.tab, key.password, key.idx)
  }

  // ----- one block -----

  function PackPair(s: seq<Byte>, off: nat, p: Pair): (t: seq<Byte>)
    requires off + 8 <= |s|
    ensures |t| == |s|
  {
    Pack(Pack(s, off, p.0), off + 4, p.1)
  }

  function UnpackPair(s: seq<Byte>, off: nat): Pair
    requires off + 8 <= |s|
  {
    (Unpack(s, off), Unpack(s, off + 4))
  }

  /** The two round outputs of a decoding, in the order they are produced. */
  function DecodeOutputs(f: Word -> Word, p: Pair): Pair {
    var a := Fwd(p, CA, ROT_A);
    var b := Fwd((Xor(f(a.0), a.1), a.0), CB, ROT_B);
    (f(a.0), f(b.0))
  }

  function EncodeOutputs(f: Word -> Word, p: Pair): Pair {
    var b := Inv((p.1, Xor(f(p.1), p.0)), CB, ROT_B);
    (f(p.1), f(b.1))
  }

  // A chained block leaves its two round outputs in the next block before its own text is stored.

  function Decoded(f: Word -> Word, s: seq<Byte>, off: nat, nxt: Option<nat>): (t: seq<Byte>)
    requires off + 8 <= |s| && (nxt.Some? ==> nxt.value + 8 <= |s|)
    ensures |t| == |s|
  {
    var p := UnpackPair(s, off);
    var o := DecodeOutputs(f, p);
    var handed := if nxt.Some? then Pack(Pack(s, nxt.value + 4, o.0), nxt.value, o.1) else s;
    PackPair(handed, off, DecodePair(f, p))
  }

  function Encoded(f: Word -> Word, s: seq<Byte>, off: nat, nxt: Option<nat>): (t: seq<Byte>)
    requires off + 8 <= |s| && (nxt.Some? ==> nxt.value + 8 <= |s|)
    ensures |t| == |s|
  {
    var p := UnpackPair(s, off);
    var o := EncodeOutputs(f, p);
    var handed := if nxt.Some? then Pack(Pack(s, nxt.value, o.0), nxt.value + 4, o.1) else s;
    PackPair(handed, off, EncodePair(f, p))
  }

  method Store(buf: array<Byte>, off: nat, w: Word)
    requires off + 4 <= buf.Length
    modifies buf
    ensures buf[..] == Pack(old(buf[..]), off, w)
  {
    buf[off], buf[off + 1], buf[off + 2], buf[off + 3] := w[..8], w[8..16], w[16..24], w[24..];
  }

  method DecodeBlock(buf: array<Byte>, off: nat, nxt: Option<nat>, key: Key)
    requires off + 8 <= buf.Length
    requires nxt.Some? ==> nxt.value + 8 <= buf.Length && nxt.value == off + 8
    modifies buf
    ensures buf[..] == Decoded(Keyed(key), old(buf[..]), off, nxt)
  {
    hide Fwd, Transform, Pack, Unpack, Xor, W;
    var b0, b1 := Unpack(buf[..], off), Unpack(buf[..], off + 4);
    b0, b1 := Forward(b0, b1, CA, ROT_A);
    var tmp := b0;
    b0 := TransformWord(b0, key.tab, key.password, key.idx);
    if nxt.Some? {
      Store(buf, nxt.value + 4, b0);
    }
    b0, b1 := Xor(b0, b1), tmp;
    b0, b1 := Forward(b0, b1, CB, ROT_B);
    tmp := b0;
    b0 := TransformWord(b0, key.tab, key.password, key.idx);
    if nxt.Some? {
      Store(buf, nxt.value, b0);
    }
    b0, b1 := Xor(b0, b1), tmp;
    Store(buf, off, b0);
    Store(buf, off + 4, b1);
  }

  method EncodeBlock(buf: array<Byte>, off: nat, nxt: Option<nat>, key: Key)
    requires off + 8 <= buf.Length
    requires nxt.Some? ==> nxt.value + 8 <= buf.Length && nxt.value == off + 8
    modifies buf
    ensures buf[..] == Encoded(Keyed(key), old(buf[..]), off, nxt)
  {
    hide Inv, Transform, Pack, Unpack, Xor, W;
    var b0, b1 := Unpack(buf[..], off), Unpack(buf[..], off + 4);
    var tmp := b1;
    b1 := TransformWord(b1, key.tab, key.password, key.idx);
    if nxt.Some? {
      Store(buf, nxt.value, b1);
    }
    b0, b1 := tmp, Xor(b1, b0);
    b0, b1 := Inverse(b0, b1, CB, ROT_B);
    tmp := b1;
    b1 := TransformWord(b1, key.tab, key.password, key.idx);
    if nxt.Some? {
      Store(buf, nxt.value + 4, b1);
    }
    b0, b1 := tmp, Xor(b1, b0);
    b0, b1 := Inverse(b0, b1, CA, ROT_A);
    Store(buf, off, b0);
    Store(buf, off + 4, b1);
  }

  // ----- the whole buffer -----

  function NextBlock(mode: int, i: nat, n: nat): Option<nat> {
    if Chained(mode) && i + 1 < n then Some((i + 1) * 8) else None
  }

  function BlockDone(f: Word -> Word, mode: int, s: seq<Byte>, i: nat): (t: seq<Byte>)
    requires 8 * i + 8 <= |s|
    ensures |t| == |s|
  {
    var nxt := NextBlock(mode, i, |s| / 8);
    if OpOf(mode) == Decode then Decoded(f, s, 8 * i, nxt) else Encoded(f, s, 8 * i, nxt)
  }

  /** The buffer after its first k blocks. */
  function BlocksDone(f: Word -> Word, mode: int, s: seq<Byte>, k: nat): (t: seq<Byte>)
    requires 8 * k <= |s|
    ensures |t| == |s|
  {
    if k == 0 then s else BlockDone(f, mode, BlocksDone(f, mode, s, k - 1), k - 1)
  }

  /** How many blocks are processed: keeping the tail state stops one block early. */
  function BlockCount(mode: int, n: nat): nat {
    if TailState(mode) && Chained(mode) && n >= 2 then n - 1 else n
  }

  function Transformed(f: Word -> Word, mode: int, s: seq<Byte>): (t: seq<Byte>)
    ensures |t| == |s|
  {
    if OpOf(mode) == Keep then s else BlocksDone(f, mode, s, BlockCount(mode, |s| / 8))
  }

  method TransformBuffer(data: seq<Byte>, mode: int, tab: Table, pw1: Word, pw2: Word, devicePw: Word, idx: int)
    returns (out: seq<Byte>)
    ensures out == Transformed(Keyed(Key(tab, PwOf(mode, pw1, pw2, devicePw), idx)), mode, data)
    ensures exists pw: Word ::
              PasswordOf(mode, pw1, pw2, devicePw, pw) && Meant(Keyed(Key(tab, pw, idx)), mode, data, out)
  {
    PasswordIs(mode, pw1, pw2, devicePw);
    TransformedIsMeant(Keyed(Key(tab, PwOf(mode, pw1, pw2, devicePw), idx)), mode, data);
    hide PasswordOf, Meant;
    if OpOf(mode) == Keep {
      return data;
    }
    hide PwOf, Keyed, BlocksDone;
    var buf := new Byte[|data|](i requires 0 <= i < |data| => data[i]);
    assert buf[..] == data;
    ProcessBlocks(buf, mode, Key(tab, PwOf(mode, pw1, pw2, devicePw), idx));
    return buf[..];
  }

  method ProcessBlocks(buf: array<Byte>, mode: int, key: Key)
    requires OpOf(mode) != Keep
    modifies buf
    ensures buf[..] == BlocksDone(Keyed(key), mode, old(buf[..]), BlockCount(mode, buf.Length / 8))
  {
    hide Decoded, Encoded, Keyed, OpOf;
    var n := buf.Length / 8;
    for i := 0 to n
      invariant buf[..] == BlocksDone(Keyed(key), mode, old(buf[..]), i)
      invariant i <= n && (BlockCount(mode, n) < n ==> i < n - 1)
    {
      var nxt := NextBlock(mode, i, n);
      if OpOf(mode) == Decode {
        DecodeBlock(buf, 8 * i, nxt, key);
      } else {
        EncodeBlock(buf, 8 * i, nxt, key);
      }
      if TailState(mode) && nxt.Some? && i + 2 == n {
        return;
      }
    }
  }

  // ----- unchained modes -----

  predicate Unchained(mode: int, op: Op) {
    OpOf(mode) == op && !Chained(mode)
  }

  /** Block i of the buffer. */
  function BlockAt(s: seq<Byte>, i: nat): Pair
    requires 8 * i + 8 <= |s|
  {
    UnpackPair(s, 8 * i)
  }

  function Worked(f: Word -> Word, op: Op, p: Pair): Pair {
    if op == Decode then DecodePair(f, p) else EncodePair(f, p)
  }

  lemma PackPairLaws(s: seq<Byte>, off: nat, p: Pair)
    requires off + 8 <= |s|
    ensures UnpackPair(PackPair(s, off, p), off) == p
    ensures forall k :: 0 <= k < |s| && (k < off || off + 8 <= k) ==> PackPair(s, off, p)[k] == s[k]
  {
    hide Pack, Unpack;
    PackLaws(s, off, p.0);
    PackLaws(Pack(s, off, p.0), off + 4, p.1);
    LowWordKept(Pack(s, off, p.0), off, p.1);
  }

  lemma LowWordKept(s: seq<Byte>, off: nat, w: Word)
    requires off + 8 <= |s|
    ensures Unpack(Pack(s, off + 4, w), off) == Unpack(s, off)
  {
  }

  /** Unchained processing rewrites each block on its own and keeps the tail bytes. */
  lemma {:induction false} BlocksAreIndependent(f: Word -> Word, mode: int, op: Op, s: seq<Byte>, k: nat)
    requires 8 * k <= |s| && op != Keep && Unchained(mode, op)
    ensures var t := BlocksDone(f, mode, s, k);
            && (forall i :: 8 * k <= i < |s| ==> t[i] == s[i])
            && (forall i: nat :: i < k ==> BlockAt(t, i) == Worked(f, op, BlockAt(s, i)))
  {
    hide DecodePair, EncodePair, PackPair, UnpackPair, DecodeOutputs, EncodeOutputs;
    if k == 0 {
    } else {
      BlocksAreIndependent(f, mode, op, s, k - 1);
      var t, u := BlocksDone(f, mode, s, k - 1), BlocksDone(f, mode, s, k);
      var p := Worked(f, op, BlockAt(t, k - 1));
      assert u == PackPair(t, 8 * (k - 1), p);
      PackPairLaws(t, 8 * (k - 1), p);
      BlockKept(t, s, k - 1);
      forall i: nat | i < k ensures BlockAt(u, i) == Worked(f, op, BlockAt(s, i)) {
        if i < k - 1 {
          BlockKept(u, t, i);
        }
      }
    }
  }

  lemma BlockKept(s: seq<Byte>, t: seq<Byte>, i: nat)
    requires |s| == |t| && 8 * i + 8 <= |s| && forall j :: 8 * i <= j < 8 * i + 8 ==> s[j] == t[j]
    ensures BlockAt(s, i) == BlockAt(t, i)
  {
  }

  /** Equal blocks and equal tails make equal buffers. */
  lemma SameBlocks(s: seq<Byte>, t: seq<Byte>)
    requires |s| == |t|
    requires forall i: nat :: i < |s| / 8 ==> BlockAt(s, i) == BlockAt(t, i)
    requires forall i :: 8 * (|s| / 8) <= i < |s| ==> s[i] == t[i]
    ensures s == t
  {
    forall j | 0 <= j < |s| ensures s[j] == t[j] {
      if j < 8 * (|s| / 8) {
        BlockByte(s, t, j / 8, j);
      }
    }
  }

  lemma BlockByte(s: seq<Byte>, t: seq<Byte>, i: nat, j: nat)
    requires |s| == |t| && 8 * i + 8 <= |s| && 8 * i <= j < 8 * i + 8
    requires BlockAt(s, i) == BlockAt(t, i)
    ensures s[j] == t[j]
  {
    WordByte(s, t, 8 * i, j);
    WordByte(s, t, 8 * i + 4, j);
  }

  lemma WordByte(s: seq<Byte>, t: seq<Byte>, off: nat, j: nat)
    requires |s| == |t| && off + 4 <= |s| && Unpack(s, off) == Unpack(t, off)
    ensures off <= j < off + 4 ==> s[j] == t[j]
  {
    var u, v := Unpack(s, off), Unpack(t, off);
    assert u[..8] == s[off] && u[8..16] == s[off + 1] && u[16..24] == s[off + 2] && u[24..] == s[off + 3];
    assert v[..8] == t[off] && v[8..16] == t[off + 1] && v[16..24] == t[off + 2] && v[24..] == t[off + 3];
  }

  // ----- what every mode comes to -----

  /** The password a mode uses, bit by bit: two halves joined in one order or the other, or the dongle's own. */
  ghost predicate PasswordOf(mode: int, pw1: Word, pw2: Word, devicePw: Word, pw: Word) {
    if mode in {8, 10, 12, 14} then forall i :: 0 <= i < 32 ==> pw[i] == (pw2[i] || (i >= 16 && pw1[i - 16]))
    else if mode in {9, 11, 13, 15} then forall i :: 0 <= i < 32 ==> pw[i] == (pw1[i] || (i >= 16 && pw2[i - 16]))
    else pw == devicePw
  }

  lemma PasswordIs(mode: int, pw1: Word, pw2: Word, devicePw: Word)
    ensures PasswordOf(mode, pw1, pw2, devicePw, PwOf(mode, pw1, pw2, devicePw))
  {
  }

  /** The network takes p to q, and the outputs of its two keyed rounds, the later one first, are h. */
  ghost predicate Handing(f: Word -> Word, p: Pair, q: Pair, h: Pair) {
    exists w :: Network(f, w) && (w[1], w[0]) == p && (w[15], w[14]) == q && h == (f(w[14]), f(w[7]))
  }

  /** The chained modes: only the first block of the buffer is used; each block hands two round outputs on, which
      take the place of the next one.  The last block is worked on too, or left as it was handed on. */
  ghost predicate Chains(f: Word -> Word, op: Op, s: seq<Byte>, t: seq<Byte>, xs: seq<Pair>, leave: bool)
    requires |s| == |t| && |xs| == |s| / 8 > 0
  {
    var n := |xs|;
    && xs[0] == BlockAt(s, 0)
    && (forall i :: 0 <= i < n - 1 ==>
                      if op == Decode then Handing(f, xs[i], BlockAt(t, i), xs[i + 1])
                      else Handing(f, BlockAt(t, i), xs[i], xs[i + 1]))
    && if leave then BlockAt(t, n - 1) == xs[n - 1]
       else if op == Decode then Deciphers(f, xs[n - 1], BlockAt(t, n - 1))
       else Deciphers(f, BlockAt(t, n - 1), xs[n - 1])
  }

  /** What a call makes of a buffer in each mode. */
  ghost predicate Meant(f: Word -> Word, mode: int, s: seq<Byte>, t: seq<Byte>) {
    var n := |s| / 8;
    && |t| == |s| && (forall j :: 8 * n <= j < |s| ==> t[j] == s[j])
    && if mode in {1, 4, 12, 13} then forall i :: 0 <= i < n ==> Deciphers(f, BlockAt(s, i), BlockAt(t, i))
       else if mode in {2, 5, 8, 9} then forall i :: 0 <= i < n ==> Deciphers(f, BlockAt(t, i), BlockAt(s, i))
       else if mode in {7, 14, 15} then n > 0 ==> exists xs :: |xs| == n && Chains(f, Decode, s, t, xs, false)
       else if mode in {6, 10, 11} then n > 0 ==> exists xs :: |xs| == n && Chains(f, Encode, s, t, xs, false)
       else if mode == 18 then n > 0 ==> exists xs :: |xs| == n && Chains(f, Decode, s, t, xs, n >= 2)
       else t == s
  }

  /** What a block leaves in the next one, low word first. */
  function Handed(f: Word -> Word, op: Op, p: Pair): Pair {
    if op == Decode then (DecodeOutputs(f, p).1, DecodeOutputs(f, p).0) else EncodeOutputs(f, p)
  }

  /** What block i of a chained buffer is when its turn comes. */
  function ChainInput(f: Word -> Word, op: Op, first: Pair, i: nat): Pair {
    if i == 0 then first else Handed(f, op, ChainInput(f, op, first, i - 1))
  }

  lemma HandedIsHanding(f: Word -> Word, op: Op, p: Pair)
    requires op != Keep
    ensures var q := Worked(f, op, p);
            if op == Decode then Handing(f, p, q, Handed(f, op, p)) else Handing(f, q, p, Handed(f, op, p))
  {
    var q := Worked(f, op, p);
    var from, to := if op == Decode then p else q, if op == Decode then q else p;
    BlockIsNetwork(f, from, to);
    BlockUndone(f, p);
    var w :| Network(f, w) && (w[1], w[0]) == from && (w[15], w[14]) == to;
    NetworkParts(f, w);
    HalvesDecide(w[..8], CA, ROT_A);
    HalvesDecide(w[7..15], CB, ROT_B);
    StageUndone((w[8], w[7]), CB, ROT_B);
    hide Network, Halves, Fwd, Inv, Xor;
    XorLaws(w[13], f(w[14]));
    XorLaws(f(w[14]), w[13]);
    assert Handing(f, from, to, (f(w[14]), f(w[7])));
  }
  lemma PackHighFirst(s: seq<Byte>, off: nat, p: Pair)
    requires off + 8 <= |s|
    ensures Pack(Pack(s, off + 4, p.1), off, p.0) == PackPair(s, off, p)
  {
  }

  /** One block of a chained buffer that is not the last: it is rewritten, and so is the next. */
  lemma ChainedStep(f: Word -> Word, mode: int, op: Op, s: seq<Byte>, i: nat)
    requires 8 * i + 16 <= |s| && op != Keep && OpOf(mode) == op && Chained(mode)
    ensures var t := BlockDone(f, mode, s, i);
            && BlockAt(t, i) == Worked(f, op, BlockAt(s, i)) && BlockAt(t, i + 1) == Handed(f, op, BlockAt(s, i))
            && forall j :: 0 <= j < |s| && (j < 8 * i || 8 * i + 16 <= j) ==> t[j] == s[j]
  {
    hide DecodePair, EncodePair, PackPair, UnpackPair, DecodeOutputs, EncodeOutputs, Pack;
    var p := BlockAt(s, i);
    var h, q := Handed(f, op, p), Worked(f, op, p);
    PackHighFirst(s, 8 * i + 8, h);
    LowHighFirst(s, 8 * i + 8, h);
    var u := PackPair(s, 8 * i + 8, h);
    PackPairLaws(s, 8 * i + 8, h);
    assert BlockDone(f, mode, s, i) == PackPair(u, 8 * i, q);
    PackPairLaws(u, 8 * i, q);
    BlockKept(PackPair(u, 8 * i, q), u, i + 1);
  }

  lemma LowHighFirst(s: seq<Byte>, off: nat, p: Pair)
    requires off + 8 <= |s|
    ensures Pack(Pack(s, off, p.0), off + 4, p.1) == PackPair(s, off, p)
  {
  }

  /** Without a next block to hand on to, a block is rewritten alone. */
  lemma LastStep(f: Word -> Word, mode: int, op: Op, s: seq<Byte>, i: nat)
    requires 8 * i + 8 <= |s| && op != Keep && OpOf(mode) == op && NextBlock(mode, i, |s| / 8).None?
    ensures var t := BlockDone(f, mode, s, i);
            && BlockAt(t, i) == Worked(f, op, BlockAt(s, i))
            && forall j :: 0 <= j < |s| && (j < 8 * i || 8 * i + 8 <= j) ==> t[j] == s[j]
  {
    hide DecodePair, EncodePair, PackPair, UnpackPair, DecodeOutputs, EncodeOutputs;
    PackPairLaws(s, 8 * i, Worked(f, op, BlockAt(s, i)));
  }

  lemma {:induction false} ChainedBlocks(f: Word -> Word, mode: int, op: Op, s: seq<Byte>, k: nat)
    requires 8 <= |s| && 8 * k <= |s| && op != Keep && OpOf(mode) == op && Chained(mode)
    ensures var n, t, first := |s| / 8, BlocksDone(f, mode, s, k), BlockAt(s, 0);
            && (forall j :: 8 * n <= j < |s| ==> t[j] == s[j])
            && (forall i: nat :: i < k ==> BlockAt(t, i) == Worked(f, op, ChainInput(f, op, first, i)))
            && (k < n ==> BlockAt(t, k) == ChainInput(f, op, first, k))
  {
    hide BlockDone, Worked, Handed, BlockAt, OpOf;
    if k == 0 {
    } else {
      ChainedBlocks(f, mode, op, s, k - 1);
      var n, t, u, first := |s| / 8, BlocksDone(f, mode, s, k - 1), BlocksDone(f, mode, s, k), BlockAt(s, 0);
      if k < n {
        ChainedStep(f, mode, op, t, k - 1);
      } else {
        LastStep(f, mode, op, t, k - 1);
      }
      forall i: nat | i < k ensures BlockAt(u, i) == Worked(f, op, ChainInput(f, op, first, i)) {
        if i < k - 1 {
          BlockKept(u, t, i);
        }
      }
    }
  }

  lemma ChainsExist(f: Word -> Word, op: Op, s: seq<Byte>, t: seq<Byte>, leave: bool)
    requires |s| == |t| && 8 <= |s| && op != Keep
    requires var n, first := |s| / 8, BlockAt(s, 0);
             && (forall i: nat :: i < n - 1 ==> BlockAt(t, i) == Worked(f, op, ChainInput(f, op, first, i)))
             && var x := ChainInput(f, op, first, n - 1);
                BlockAt(t, n - 1) == if leave then x else Worked(f, op, x)
    ensures exists xs :: |xs| == |s| / 8 && Chains(f, op, s, t, xs, leave)
  {
    hide Handing, Deciphers, Handed, Worked, BlockAt, ChainInput;
    var n, first := |s| / 8, BlockAt(s, 0);
    var xs := seq(n, i requires 0 <= i < n => ChainInput(f, op, first, i));
    forall i | 0 <= i < n - 1
      ensures if op == Decode then Handing(f, xs[i], BlockAt(t, i), xs[i + 1])
              else Handing(f, BlockAt(t, i), xs[i], xs[i + 1])
    {
      NextInput(f, op, first, i);
    }
    NextInput(f, op, first, 0);
    WorkedDeciphers(f, op, xs[n - 1]);
    assert Chains(f, op, s, t, xs, leave);
  }

  lemma NextInput(f: Word -> Word, op: Op, first: Pair, i: nat)
    requires op != Keep
    ensures var x, y := ChainInput(f, op, first, i), ChainInput(f, op, first, i + 1);
            if op == Decode then Handing(f, x, Worked(f, op, x), y) else Handing(f, Worked(f, op, x), x, y)
    ensures ChainInput(f, op, first, 0) == first
  {
    hide Handing, Handed, Worked;
    HandedIsHanding(f, op, ChainInput(f, op, first, i));
  }

  lemma WorkedDeciphers(f: Word -> Word, op: Op, p: Pair)
    requires op != Keep
    ensures var q := Worked(f, op, p);
            if op == Decode then Deciphers(f, p, q) else Deciphers(f, q, p)
  {
    hide Deciphers;
    var q := Worked(f, op, p);
    if op == Decode {
      BlockIsNetwork(f, p, q);
    } else {
      BlockIsNetwork(f, q, p);
    }
  }

  lemma UnchainedIsMeant(f: Word -> Word, mode: int, op: Op, s: seq<Byte>)
    requires op != Keep && Unchained(mode, op)
    ensures var t, n := Transformed(f, mode, s), |s| / 8;
            && (forall j :: 8 * n <= j < |s| ==> t[j] == s[j])
            && forall i: nat :: i < n ==>
                                  if op == Decode then Deciphers(f, BlockAt(s, i), BlockAt(t, i))
                                  else Deciphers(f, BlockAt(t, i), BlockAt(s, i))
  {
    hide Deciphers, BlocksDone, Worked, BlockAt, OpOf;
    var n := |s| / 8;
    BlocksAreIndependent(f, mode, op, s, n);
    forall i: nat | i < n
      ensures var t := BlocksDone(f, mode, s, n);
              if op == Decode then Deciphers(f, BlockAt(s, i), BlockAt(t, i))
              else Deciphers(f, BlockAt(t, i), BlockAt(s, i))
    {
      WorkedDeciphers(f, op, BlockAt(s, i));
    }
  }

  lemma ChainedIsMeant(f: Word -> Word, mode: int, op: Op, s: seq<Byte>)
    requires op != Keep && OpOf(mode) == op && Chained(mode)
    ensures var t, n := Transformed(f, mode, s), |s| / 8;
            && (forall j :: 8 * n <= j < |s| ==> t[j] == s[j])
            && (n > 0 ==> exists xs :: |xs| == n && Chains(f, op, s, t, xs, TailState(mode) && n >= 2))
  {
    hide Deciphers, BlocksDone, Worked, BlockAt, OpOf, Chains;
    if |s| / 8 > 0 {
      ChainedBlocks(f, mode, op, s, BlockCount(mode, |s| / 8));
      ChainsExist(f, op, s, Transformed(f, mode, s), TailState(mode) && |s| / 8 >= 2);
    } else {
      NoBlocksDone(f, mode, s);
    }
  }

  lemma NoBlocksDone(f: Word -> Word, mode: int, s: seq<Byte>)
    ensures BlocksDone(f, mode, s, 0) == s
  {
  }

  /** Every mode does what is meant: nothing, blocks on their own, or a chain from the first block. */
  lemma TransformedIsMeant(f: Word -> Word, mode: int, s: seq<Byte>)
    ensures Meant(f, mode, s, Transformed(f, mode, s))
  {
    hide Transformed, Deciphers, BlockAt, Chains;
    var op := OpOf(mode);
    if op == Keep {
      KeptAsIs(f, mode, s);
    } else if Chained(mode) {
      ChainedIsMeant(f, mode, op, s);
    } else {
      UnchainedIsMeant(f, mode, op, s);
    }
  }

  lemma KeptAsIs(f: Word -> Word, mode: int, s: seq<Byte>)
    requires OpOf(mode) == Keep
    ensures Transformed(f, mode, s) == s
  {
  }

  /** Any two unchained modes of opposite direction undo each other under the same round. */
  lemma UnchainedUndone(f: Word -> Word, first: int, second: int, op: Op, s: seq<Byte>)
    requires op != Keep
    requires Unchained(first, op) && Unchained(second, if op == Decode then Encode else Decode)
    ensures Transformed(f, second, Transformed(f, first, s)) == s
  {
    hide DecodePair, EncodePair, PackPair, UnpackPair, BlockDone;
    var n := |s| / 8;
    var back := if op == Decode then Encode else Decode;
    var t := BlocksDone(f, first, s, n);
    var u := BlocksDone(f, second, t, n);
    BlocksAreIndependent(f, first, op, s, n);
    BlocksAreIndependent(f, second, back, t, n);
    forall i: nat | i < n ensures BlockAt(u, i) == BlockAt(s, i) {
      BlockUndone(f, BlockAt(s, i));
    }
    SameBlocks(u, s);
  }

  /** transform_buffer restores any buffer of any length: encode with 2, 5, 8 or 9 and decode
      with 1, 4, 12 or 13, or the other way round, whenever the two modes use the same password
      form.  Modes 8/12 and 9/13 always do, as do 2 and 5 with 1 and 4. */
  lemma BufferRestored(s: seq<Byte>, enc: int, dec: int, tab: Table, pw1: Word, pw2: Word, devicePw: Word, idx: int)
    requires enc in {2, 5, 8, 9} && dec in {1, 4, 12, 13}
    requires PwOf(enc, pw1, pw2, devicePw) == PwOf(dec, pw1, pw2, devicePw)
    ensures var f := Keyed(Key(tab, PwOf(enc, pw1, pw2, devicePw), idx));
            var g := Keyed(Key(tab, PwOf(dec, pw1, pw2, devicePw), idx));
            && Transformed(g, dec, Transformed(f, enc, s)) == s
            && Transformed(f, enc, Transformed(g, dec, s)) == s
  {
    hide Keyed, Transformed;
    var f := Keyed(Key(tab, PwOf(enc, pw1, pw2, devicePw), idx));
    UnchainedUndone(f, enc, dec, Encode, s);
    UnchainedUndone(f, dec, enc, Decode, s);
  }

  predicate Form12(mode: int) {
    mode in {8, 10, 12, 14}
  }

  predicate Form21(mode: int) {
    mode in {9, 11, 13, 15}
  }

  /** Two modes use the same password for all passwords iff they use the same form of it. */
  lemma PasswordForms(enc: int, dec: int)
    ensures (forall pw1, pw2, devicePw :: PwOf(enc, pw1, pw2, devicePw) == PwOf(dec, pw1, pw2, devicePw))
            <==> Form12(enc) == Form12(dec) && Form21(enc) == Form21(dec)
  {
    var pw1: Word, pw2: Word, devicePw: Word := Zeros(32), Unit(32, 0), Unit(32, 1);
    var a, b := JoinHalves(pw1, pw2), JoinHalves(pw2, pw1);
    assert a[0] && !b[0] && !devicePw[0] && devicePw[1] && !b[1];
    if !(Form12(enc) == Form12(dec) && Form21(enc) == Form21(dec)) {
      assert PwOf(enc, pw1, pw2, devicePw) != PwOf(dec, pw1, pw2, devicePw);
    }
  }
}
