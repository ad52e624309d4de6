/** The encrypted settings file: three header words, a key block and a pool, each masked by a
    keystream restarting at the same seed, and the lookup of one key's value. */
module MainSet {
  import opened Numbers
  import opened Words

  type Bytes = seq<Byte>

  const SET_KEY: nat := 0x0001_6295

  // ----- the keystream -----

  /** The generator's state after n steps from s. */
  function StateAfter(s: nat, n: nat): (r: nat)
    decreases n
  {
    if n == 0 then s else StateAfter((s * 0x0808_8405 + 1) % 0x1_0000_0000, n - 1)
  }

  function KeyByte(s: nat): Byte {
    Digits(s / 0x100_0000, 8)
  }

  lemma {:induction false} StateNext(s: nat, n: nat)
    ensures StateAfter(s, n + 1) == (StateAfter(s, n) * 0x0808_8405 + 1) % 0x1_0000_0000
    decreases n
  {
    if n == 0 {
    } else {
      StateNext((s * 0x0808_8405 + 1) % 0x1_0000_0000, n - 1);
    }
  }

  /** A section masked by, or freed from, the keystream. */
  function Masked(b: Bytes, seed: nat): (r: Bytes)
    ensures |r| == |b|
  {
    seq(|b|, i requires 0 <= i < |b| => MaskedByte(b[i], seed, i))
  }

  function MaskedByte(b: Byte, seed: nat, i: nat): Byte {
    Xor(b, KeyByte(StateAfter(seed, i + 1)))
  }

  /** Masking is its own inverse. */
  lemma MaskedTwice(b: Bytes, seed: nat)
    ensures Masked(Masked(b, seed), seed) == b
  {
    hide StateAfter, KeyByte, Xor;
    forall i | 0 <= i < |b| ensures Masked(Masked(b, seed), seed)[i] == b[i] {
      XorLaws(b[i], KeyByte(StateAfter(seed, i + 1)));
    }
  }

  // ----- the keystream on numbers -----

  /** The states of the generator: each is the one before times 0x08088405, plus one, modulo 2^32. */
  ghost predicate Generated(seed: nat, x: seq<nat>) {
    && |x| > 0 && x[0] == seed
    && forall i :: 0 <= i < |x| - 1 ==> x[i + 1] == (x[i] * 0x0808_8405 + 1) % 0x1_0000_0000
  }

  /** Byte i of c is byte i of p, exclusive or the top byte of the generator's state after i + 1 steps. */
  ghost predicate Enciphers(seed: nat, p: Bytes, c: Bytes) {
    exists x :: Generated(seed, x) && |x| == |p| + 1 == |c| + 1 &&
                forall i :: 0 <= i < |p| ==> Value(c[i]) == BitXor(Value(p[i]), x[i + 1] / 0x100_0000)
  }

  lemma {:induction false} StatesAre(seed: nat, x: seq<nat>, i: nat)
    requires Generated(seed, x) && i < |x|
    ensures x[i] == StateAfter(seed, i)
    decreases i
  {
    StateStarts(seed);
    hide StateAfter;
    if i == 0 {
    } else {
      StatesAre(seed, x, i - 1);
      StateNext(seed, i - 1);
    }
  }

  lemma MaskedByteValue(b: Byte, seed: nat, i: nat)
    ensures Value(MaskedByte(b, seed, i)) == BitXor(Value(b), StateAfter(seed, i + 1) / 0x100_0000)
  {
    StateNext(seed, i);
    hide Value, StateAfter, Xor, Digits, BitXor;
    var s := StateAfter(seed, i + 1);
    assert Pow2(8) == 0x100 by {
      Pow2Of8();
    }
    ValueOfDigits(s / 0x100_0000, 8);
    XorValue(b, KeyByte(s));
  }

  lemma SameByte(a: Byte, b: Byte)
    requires Value(a) == Value(b)
    ensures a == b
  {
    DigitsOfValue(a);
    DigitsOfValue(b);
  }

  /** Masking is enciphering with the generator, and nothing else is. */
  lemma MaskedEnciphers(seed: nat, p: Bytes, c: Bytes)
    ensures Enciphers(seed, p, c) <==> c == Masked(p, seed)
  {
    hide Value, StateAfter, MaskedByte, BitXor;
    forall i: nat ensures MaskedByteIs(p, seed, i) {
      if i < |p| {
        MaskedByteValue(p[i], seed, i);
      }
    }
    if c == Masked(p, seed) {
      var x := seq(|p| + 1, i requires 0 <= i <= |p| => StateAfter(seed, i));
      StateStarts(seed);
      forall i | 0 <= i < |x| - 1 ensures x[i + 1] == (x[i] * 0x0808_8405 + 1) % 0x1_0000_0000 {
        StateNext(seed, i);
      }
      assert Generated(seed, x);
      forall i | 0 <= i < |p| ensures Value(c[i]) == BitXor(Value(p[i]), x[i + 1] / 0x100_0000) {
        assert MaskedByteIs(p, seed, i);
      }
      assert Enciphers(seed, p, c);
    }
    if Enciphers(seed, p, c) {
      var x :| Generated(seed, x) && |x| == |p| + 1 == |c| + 1 &&
               forall i :: 0 <= i < |p| ==> Value(c[i]) == BitXor(Value(p[i]), x[i + 1] / 0x100_0000);
      forall i | 0 <= i < |p| ensures c[i] == Masked(p, seed)[i] {
        StatesAre(seed, x, i + 1);
        assert MaskedByteIs(p, seed, i);
        SameByte(c[i], Masked(p, seed)[i]);
      }
      assert c == Masked(p, seed);
    }
  }

  ghost predicate MaskedByteIs(p: Bytes, seed: nat, i: nat) {
    i < |p| ==> Value(MaskedByte(p[i], seed, i)) == BitXor(Value(p[i]), StateAfter(seed, i + 1) / 0x100_0000)
  }

  lemma StretchMasked(was: Bytes, now: Bytes, off: nat, len: nat, seed: nat)
    requires off + len <= |was| == |now|
    requires forall k :: 0 <= k < |was| && !(off <= k < off + len) ==> now[k] == was[k]
    requires forall k :: off <= k < off + len ==> now[k] == MaskedByte(was[k], seed, k - off)
    ensures now == was[..off] + Masked(was[off..off + len], seed) + was[off + len..]
    ensures now[off..off + len] == Masked(was[off..off + len], seed)
  {
    hide MaskedByte;
  }

  /** Masks a stretch of a buffer in place. */
  method Decrypt(dst: array<Byte>, off: nat, len: nat, seed: nat)
    requires off + len <= dst.Length
    modifies dst
    ensures dst[..] == old(dst[..off]) + Masked(old(dst[off..off + len]), seed) + old(dst[off + len..])
    ensures Enciphers(seed, old(dst[off..off + len]), dst[off..off + len])
  {
    hide Enciphers, Masked;
    MaskedEnciphers(seed, dst[off..off + len], Masked(dst[off..off + len], seed));
    hide KeyByte, Xor, StateAfter;
    ghost var was := dst[..];
    var s := seed;
    assert StateAfter(seed, 0) == s by {
      StateStarts(seed);
    }
    for i := 0 to len
      invariant s == StateAfter(seed, i)
      invariant forall k :: 0 <= k < dst.Length && !(off <= k < off + i) ==> dst[k] == was[k]
      invariant forall k :: off <= k < off + i ==> dst[k] == MaskedByte(was[k], seed, k - off)
    {
      StateNext(seed, i);
      s := (s * 0x0808_8405 + 1) % 0x1_0000_0000;
      dst[off + i] := Xor(dst[off + i], KeyByte(s));
    }
    StretchMasked(was, dst[..], off, len, seed);
  }

  lemma StateStarts(s: nat)
    ensures StateAfter(s, 0) == s
  {
  }

  // ----- reading -----

  predicate Nul(b: Byte) {
    b == Zeros(8)
  }

  predicate NulFree(s: Bytes) {
    forall i :: 0 <= i < |s| ==> !Nul(s[i])
  }

  function Rd16(low: Byte, high: Byte): (r: nat) {
    Value(low) + 256 * Value(high)
  }

  /** The first NUL at or after p, or the end. */
  function NulFrom(s: Bytes, p: nat): (q: nat)
    requires p <= |s|
    ensures p <= q <= |s| && (q < |s| ==> Nul(s[q]))
    ensures NulFree(s[p..q])
    decreases |s| - p
  {
    if p == |s| || Nul(s[p]) then p
    else
      var q := NulFrom(s, p + 1);
      assert s[p..q] == [s[p]] + s[p + 1..q];
      q
  }

  /** The string at p: up to the first NUL or the end. */
  function StringAt(s: Bytes, p: nat): Bytes
    requires p <= |s|
  {
    s[p..NulFrom(s, p)]
  }

  /** At most n more entries, from p on: the value of the first entry with this key whose offset is in the pool. */
  function Scan(keys: Bytes, pool: Bytes, key: Bytes, p: nat, n: nat): Option<Bytes>
    decreases n
  {
    if n == 0 || p >= |keys| then None
    else
      var q := NulFrom(keys, p);
      if q + 3 > |keys| then None
      else
        var off := Rd16(keys[q + 1], keys[q + 2]);
        if keys[p..q] == key && off < |pool| then Some(StringAt(pool, off))
        else Scan(keys, pool, key, q + 3, n - 1)
  }

  datatype Layout = Layout(count: nat, size1: nat, size2: nat)

  function Header(raw: Bytes): Layout
    requires |raw| >= 6
  {
    var c, k, p := Masked(raw[..2], SET_KEY), Masked(raw[2..4], SET_KEY), Masked(raw[4..6], SET_KEY);
    Layout(Rd16(c[0], c[1]), Rd16(k[0], k[1]), Rd16(p[0], p[1]))
  }

  predicate Malformed(raw: Bytes) {
    |raw| < 6 || (var h := Header(raw); h.size1 == 0 || h.size2 == 0 || 6 + h.size1 + h.size2 > |raw|)
  }

  function Find(raw: Bytes, key: Bytes): Option<Bytes> {
    if Malformed(raw) then None
    else
      var h := Header(raw);
      Scan(Masked(raw[6..6 + h.size1], SET_KEY), Masked(raw[6 + h.size1..6 + h.size1 + h.size2], SET_KEY), key, 0, h.count)
  }

  /** What the caller's buffer holds afterwards: the value, cut to leave room for its terminator. */
  function Stored(was: Bytes, value: Bytes): (r: Bytes)
    requires |was| >= 1
    ensures |r| == |was|
  {
    var n := if |value| <= |was| - 1 then |value| else |was| - 1;
    value[..n] + [Zeros(8)] + was[n + 1..]
  }

  /** Copies the string at off of the pool into out. */
  method CopyOut(pool: Bytes, off: nat, out: array<Byte>)
    requires off < |pool| && out.Length >= 1
    modifies out
    ensures out[..] == Stored(old(out[..]), StringAt(pool, off))
  {
    ghost var was, end := out[..], NulFrom(pool, off);
    var i := 0;
    while off + i < |pool| && pool[off + i] != Zeros(8) && i < out.Length - 1
      invariant 0 <= i <= out.Length - 1 && off + i <= end && NulFrom(pool, off + i) == end
      invariant forall k :: 0 <= k < i ==> out[k] == pool[off + k]
      invariant forall k :: i <= k < out.Length ==> out[k] == was[k]
    {
      out[i] := pool[off + i];
      i := i + 1;
    }
    out[i] := Zeros(8);
    StoredIs(was, StringAt(pool, off), out[..], i);
  }

  lemma StoredIs(was: Bytes, value: Bytes, r: Bytes, n: nat)
    requires |was| >= 1 && |r| == |was| && n == if |value| <= |was| - 1 then |value| else |was| - 1
    requires forall k :: 0 <= k < n ==> r[k] == value[k]
    requires Nul(r[n]) && forall k :: n < k < |r| ==> r[k] == was[k]
    ensures r == Stored(was, value)
  {
  }

  /** Pulls one key's value out of a settings file of any content whatever. */
  method Lookup(raw: Bytes, key: Bytes, out: array<Byte>) returns (found: bool)
    requires out.Length >= 1
    modifies out
    ensures found == Find(raw, key).Some?
    ensures out[..] == if found then Stored(old(out[..]), Find(raw, key).value) else old(out[..])
  {
    hide Masked, Stored, Scan, StringAt, Rd16;
    if |raw| < 6 {
      return false;
    }
    var count, size1, size2 := ReadHeader(raw);
    if size1 == 0 || size2 == 0 || 6 + size1 + size2 > |raw| {
      return false;
    }
    var keys := Section(raw, 6, size1);
    var pool := Section(raw, 6 + size1, size2);
    DecryptAll(keys);
    DecryptAll(pool);
    found := Search(keys[..], pool[..], count, key, out);
  }

  method DecryptAll(dst: array<Byte>)
    modifies dst
    ensures dst[..] == Masked(old(dst[..]), SET_KEY)
  {
    hide Masked, Enciphers;
    ghost var was := dst[..];
    assert was[..0] == [] && was[0..0 + |was|] == was && was[0 + |was|..] == [];
    Decrypt(dst, 0, dst.Length, SET_KEY);
  }

  /** The three header words, each read with the keystream restarted. */
  method ReadHeader(raw: Bytes) returns (count: nat, size1: nat, size2: nat)
    requires |raw| >= 6
    ensures Layout(count, size1, size2) == Header(raw)
  {
    hide Masked, Rd16, Enciphers;
    var hdr := Section(raw, 0, 6);
    ghost var h0 := hdr[..];
    Decrypt(hdr, 0, 2, SET_KEY);
    ghost var h1 := hdr[..];
    assert h0[..0] == [] && h0[0..0 + 2] == raw[..2] && h0[0 + 2..] == raw[2..6];
    assert h1[..2] == Masked(raw[..2], SET_KEY) && h1[2..] == raw[2..6];
    assert h1[2..2 + 2] == h1[2..][..2] == raw[2..4] && h1[2 + 2..] == h1[2..][2..] == raw[4..6];
    Decrypt(hdr, 2, 2, SET_KEY);
    ghost var h2 := hdr[..];
    assert h2[..2] == h1[..2] && h2[2..4] == Masked(raw[2..4], SET_KEY) && h2[4..4 + 2] == raw[4..6];
    Decrypt(hdr, 4, 2, SET_KEY);
    ghost var h3 := hdr[..];
    assert h3[..2] == h2[..2] && h3[2..4] == h2[2..4] && h3[4..6] == Masked(raw[4..6], SET_KEY);
    count, size1, size2 := Rd16(hdr[0], hdr[1]), Rd16(hdr[2], hdr[3]), Rd16(hdr[4], hdr[5]);
  }

  /** A copy of part of the file. */
  method Section(raw: Bytes, off: nat, len: nat) returns (a: array<Byte>)
    requires off + len <= |raw|
    ensures fresh(a) && a[..] == raw[off..off + len]
  {
    a := new Byte[len](i requires 0 <= i < len => raw[off + i]);
  }

  method EndOfKey(keys: Bytes, start: nat) returns (p: nat)
    requires start <= |keys|
    ensures p == NulFrom(keys, start)
  {
    p := start;
    while p < |keys| && keys[p] != Zeros(8)
      invariant start <= p <= |keys| && NulFrom(keys, p) == NulFrom(keys, start)
    {
      p := p + 1;
    }
  }

  /** One entry of the scan. */
  lemma ScanEntry(keys: Bytes, pool: Bytes, key: Bytes, p: nat, n: nat)
    ensures n == 0 || p >= |keys| ==> Scan(keys, pool, key, p, n) == None
    ensures n > 0 && p < |keys| ==>
              var q := NulFrom(keys, p);
              if q + 3 > |keys| then Scan(keys, pool, key, p, n) == None
              else
                var off := Rd16(keys[q + 1], keys[q + 2]);
                Scan(keys, pool, key, p, n) ==
                if keys[p..q] == key && off < |pool| then Some(StringAt(pool, off))
                else Scan(keys, pool, key, q + 3, n - 1)
  {
    hide StringAt, Rd16, NulFrom;
  }

  method Search(keys: Bytes, pool: Bytes, count: nat, key: Bytes, out: array<Byte>) returns (found: bool)
    requires out.Length >= 1
    modifies out
    ensures var r := Scan(keys, pool, key, 0, count);
            && found == r.Some?
            && out[..] == if found then Stored(old(out[..]), r.value) else old(out[..])
  {
    hide Stored, StringAt, Rd16, NulFrom, Scan;
    var p, n := 0, 0;
    while n < count && p < |keys|
      invariant 0 <= n <= count && 0 <= p
      invariant Scan(keys, pool, key, 0, count) == Scan(keys, pool, key, p, count - n)
      invariant out[..] == old(out[..])
      decreases count - n
    {
      var start := p;
      ScanEntry(keys, pool, key, p, count - n);
      p := EndOfKey(keys, start);
      if p + 3 > |keys| {
        return false;
      }
      var off := Rd16(keys[p + 1], keys[p + 2]);
      if keys[start..p] == key && off < |pool| {
        CopyOut(pool, off, out);
        return true;
      }
      p, n := p + 3, n + 1;
    }
    ScanEntry(keys, pool, key, p, count - n);
    return false;
  }

  // ----- files that are laid out as the game lays them out -----

  /** An entry of the key block: a key and the offset of its value in the pool. */
  datatype Item = Item(key: Bytes, off: nat)

  function Le16(v: nat): (b: Bytes)
    ensures |b| == 2
  {
    [Digits(v % 256, 8), Digits(v / 256, 8)]
  }

  lemma Le16Read(v: nat)
    requires v < 65536
    ensures Rd16(Le16(v)[0], Le16(v)[1]) == v
  {
    hide Digits, Value;
    assert Pow2(8) == 256 by {
      Pow2Of8();
    }
    ValueOfDigits(v % 256, 8);
    ValueOfDigits(v / 256, 8);
  }

  lemma Pow2Of8()
    ensures Pow2(8) == 256
  {
  }

  function Entry(item: Item): Bytes {
    item.key + [Zeros(8)] + Le16(item.off)
  }

  function KeyBlock(items: seq<Item>): Bytes
    decreases |items|
  {
    if items == [] then [] else Entry(items[0]) + KeyBlock(items[1..])
  }

  ghost predicate Writable(items: seq<Item>) {
    forall i :: 0 <= i < |items| ==> NulFree(items[i].key) && items[i].off < 65536
  }

  function FirstMatch(items: seq<Item>, pool: Bytes, key: Bytes): Option<Bytes>
    decreases |items|
  {
    if items == [] then None
    else if items[0].key == key && items[0].off < |pool| then Some(StringAt(pool, items[0].off))
    else FirstMatch(items[1..], pool, key)
  }

  lemma {:induction false} NulFromIs(s: Bytes, p: nat, q: nat)
    requires p <= q < |s| && NulFree(s[p..q]) && Nul(s[q])
    ensures NulFrom(s, p) == q
    decreases q - p
  {
  }

  /** What the scan sees of one entry. */
  lemma EntryScanned(keys: Bytes, p: nat, item: Item, after: Bytes)
    requires NulFree(item.key) && item.off < 65536 && p <= |keys| && keys[p..] == Entry(item) + after
    ensures var q := NulFrom(keys, p);
            && q + 3 == p + |Entry(item)| <= |keys| && keys[p..q] == item.key
            && Rd16(keys[q + 1], keys[q + 2]) == item.off
    ensures keys[p + |Entry(item)|..] == after
  {
    hide NulFrom, Rd16, Le16;
    var q := p + |item.key|;
    var word, rest := Le16(item.off), keys[p..];
    assert keys[p..q] == rest[..|item.key|] == item.key;
    assert keys[q] == rest[|item.key|] && keys[q + 1] == rest[|item.key| + 1] && keys[q + 2] == rest[|item.key| + 2];
    assert keys[q] == Zeros(8) && keys[q + 1] == word[0] && keys[q + 2] == word[1];
    NulFromIs(keys, p, q);
    Le16Read(item.off);
    assert keys[p + |Entry(item)|..] == rest[|Entry(item)|..];
  }

  lemma ScanStep(keys: Bytes, p: nat, item: Item, after: Bytes, pool: Bytes, key: Bytes, n: nat)
    requires NulFree(item.key) && item.off < 65536 && n > 0 && p <= |keys| && keys[p..] == Entry(item) + after
    ensures p + |Entry(item)| <= |keys| && keys[p + |Entry(item)|..] == after
    ensures Scan(keys, pool, key, p, n) ==
            if item.key == key && item.off < |pool| then Some(StringAt(pool, item.off))
            else Scan(keys, pool, key, p + |Entry(item)|, n - 1)
  {
    hide StringAt, NulFrom, Rd16, NulFree;
    EntryScanned(keys, p, item, after);
  }

  function Counted(items: seq<Item>, n: nat): seq<Item> {
    if n < |items| then items[..n] else items
  }

  lemma CountedStep(items: seq<Item>, n: nat)
    requires items != [] && n > 0
    ensures Counted(items, n) != [] && Counted(items, n)[0] == items[0]
    ensures Counted(items, n)[1..] == Counted(items[1..], n - 1)
  {
  }

  lemma ScanEnds(keys: Bytes, p: nat, items: seq<Item>, pool: Bytes, key: Bytes, n: nat)
    requires items == [] || n == 0
    requires p <= |keys| && keys[p..] == KeyBlock(items)
    ensures Scan(keys, pool, key, p, n) == FirstMatch(Counted(items, n), pool, key) == None
  {
  }

  lemma {:induction false} ScanFinds(keys: Bytes, p: nat, items: seq<Item>, pool: Bytes, key: Bytes, n: nat)
    requires Writable(items) && p <= |keys| && keys[p..] == KeyBlock(items)
    ensures Scan(keys, pool, key, p, n) == FirstMatch(Counted(items, n), pool, key)
    decreases |items|
  {
    hide Scan, StringAt, NulFree, Entry, Counted;
    if items == [] || n == 0 {
      ScanEnds(keys, p, items, pool, key, n);
    } else {
      var rest := items[1..];
      ScanStep(keys, p, items[0], KeyBlock(rest), pool, key, n);
      CountedStep(items, n);
      ScanFinds(keys, p + |Entry(items[0])|, rest, pool, key, n - 1);
    }
  }

  /** A file: three masked words, the masked blocks, and whatever follows. */
  function Encoded(count: nat, keys: Bytes, pool: Bytes, tail: Bytes): Bytes {
    Masked(Le16(count), SET_KEY) + Masked(Le16(|keys|), SET_KEY) + Masked(Le16(|pool|), SET_KEY)
    + Masked(keys, SET_KEY) + Masked(pool, SET_KEY) + tail
  }

  lemma EncodedParts(count: nat, keys: Bytes, pool: Bytes, tail: Bytes)
    ensures var raw := Encoded(count, keys, pool, tail);
            && |raw| == 6 + |keys| + |pool| + |tail|
            && raw[..2] == Masked(Le16(count), SET_KEY) && raw[2..4] == Masked(Le16(|keys|), SET_KEY)
            && raw[4..6] == Masked(Le16(|pool|), SET_KEY) && raw[6..6 + |keys|] == Masked(keys, SET_KEY)
            && raw[6 + |keys|..6 + |keys| + |pool|] == Masked(pool, SET_KEY)
  {
  }

  /** Two enciphered bytes of a number below 65536, the low one first. */
  ghost predicate EncipheredWord(v: nat, c: Bytes) {
    exists b: Bytes :: |b| == 2 && Value(b[0]) + 256 * Value(b[1]) == v && Enciphers(0x0001_6295, b, c)
  }

  /** The file begins with the number of entries and the two sizes, then the key block and the pool, the generator
      starting afresh for each of the five. */
  ghost predicate LaidOut(raw: Bytes, count: nat, keys: Bytes, pool: Bytes) {
    && 6 + |keys| + |pool| <= |raw|
    && EncipheredWord(count, raw[..2]) && EncipheredWord(|keys|, raw[2..4]) && EncipheredWord(|pool|, raw[4..6])
    && Enciphers(0x0001_6295, keys, raw[6..6 + |keys|])
    && Enciphers(0x0001_6295, pool, raw[6 + |keys|..6 + |keys| + |pool|])
  }

  lemma WordRead(v: nat, c: Bytes)
    requires EncipheredWord(v, c)
    ensures |c| == 2 && Rd16(Masked(c, SET_KEY)[0], Masked(c, SET_KEY)[1]) == v
  {
    hide Value, Enciphers, Masked;
    var b: Bytes :| |b| == 2 && Value(b[0]) + 256 * Value(b[1]) == v && Enciphers(0x0001_6295, b, c);
    MaskedEnciphers(0x0001_6295, b, c);
    MaskedTwice(b, SET_KEY);
  }

  lemma WordWritten(v: nat)
    requires v < 65536
    ensures EncipheredWord(v, Masked(Le16(v), SET_KEY))
  {
    hide Value, Enciphers, Masked, Le16;
    MaskedEnciphers(SET_KEY, Le16(v), Masked(Le16(v), SET_KEY));
    Le16Read(v);
    var b := Le16(v);
    assert Value(b[0]) + 256 * Value(b[1]) == v;
  }

  /** The writer lays files out so. */
  lemma EncodedIsLaidOut(count: nat, keys: Bytes, pool: Bytes, tail: Bytes)
    requires count < 65536 && |keys| < 65536 && |pool| < 65536
    ensures LaidOut(Encoded(count, keys, pool, tail), count, keys, pool)
  {
    hide Masked, Le16, Encoded, EncipheredWord, Enciphers;
    EncodedParts(count, keys, pool, tail);
    WordWritten(count);
    WordWritten(|keys|);
    WordWritten(|pool|);
    MaskedEnciphers(SET_KEY, keys, Masked(keys, SET_KEY));
    MaskedEnciphers(SET_KEY, pool, Masked(pool, SET_KEY));
  }

  lemma FindInFile(raw: Bytes, count: nat, keys: Bytes, pool: Bytes, key: Bytes)
    requires LaidOut(raw, count, keys, pool) && 0 < |keys| && 0 < |pool|
    ensures Find(raw, key) == Scan(keys, pool, key, 0, count)
  {
    hide Masked, Scan, Rd16, EncipheredWord, Enciphers;
    WordRead(count, raw[..2]);
    WordRead(|keys|, raw[2..4]);
    WordRead(|pool|, raw[4..6]);
    MaskedEnciphers(SET_KEY, keys, raw[6..6 + |keys|]);
    MaskedEnciphers(SET_KEY, pool, raw[6 + |keys|..6 + |keys| + |pool|]);
    MaskedTwice(keys, SET_KEY);
    MaskedTwice(pool, SET_KEY);
  }

  /** Looking a key up in any properly laid-out file finds the first of the counted entries that has the
      key and an offset inside the pool, and returns the string at that offset. */
  lemma FindFinds(raw: Bytes, count: nat, items: seq<Item>, pool: Bytes, key: Bytes)
    requires Writable(items) && items != [] && pool != [] && LaidOut(raw, count, KeyBlock(items), pool)
    ensures Find(raw, key) == FirstMatch(Counted(items, count), pool, key)
  {
    assert KeyBlock(items) != [];
    hide Find, LaidOut, Scan, FirstMatch, KeyBlock;
    FindInFile(raw, count, KeyBlock(items), pool, key);
    ScanFinds(KeyBlock(items), 0, items, pool, key, count);
  }

  // ----- tables of keys and values -----

  datatype Pair = Pair(key: Bytes, value: Bytes)

  /** The values one after the other, each with its terminator. */
  function Pool(pairs: seq<Pair>): Bytes
    decreases |pairs|
  {
    if pairs == [] then [] else pairs[0].value + [Zeros(8)] + Pool(pairs[1..])
  }

  function Items(pairs: seq<Pair>, base: nat): (items: seq<Item>)
    ensures |items| == |pairs|
    decreases |pairs|
  {
    if pairs == [] then [] else [Item(pairs[0].key, base)] + Items(pairs[1..], base + |pairs[0].value| + 1)
  }

  ghost predicate Plain(pairs: seq<Pair>) {
    forall i :: 0 <= i < |pairs| ==> NulFree(pairs[i].key) && NulFree(pairs[i].value)
  }

  /** The value of the first pair with this key. */
  function ValueOf(pairs: seq<Pair>, key: Bytes): Option<Bytes>
    decreases |pairs|
  {
    if pairs == [] then None
    else if pairs[0].key == key then Some(pairs[0].value)
    else ValueOf(pairs[1..], key)
  }

  lemma {:induction false} ItemsWritable(pairs: seq<Pair>, base: nat)
    requires Plain(pairs) && base + |Pool(pairs)| < 65536
    ensures Writable(Items(pairs, base))
    decreases |pairs|
  {
    hide NulFree;
    if pairs == [] {
    } else {
      ItemsWritable(pairs[1..], base + |pairs[0].value| + 1);
      var items := Items(pairs, base);
      forall i | 0 <= i < |items| ensures NulFree(items[i].key) && items[i].off < 65536 {
        assert i > 0 ==> items[i] == Items(pairs[1..], base + |pairs[0].value| + 1)[i - 1];
      }
    }
  }

  lemma ValueAt(before: Bytes, value: Bytes, after: Bytes)
    requires NulFree(value)
    ensures StringAt(before + value + [Zeros(8)] + after, |before|) == value
  {
    hide NulFrom;
    var pool, p := before + value + [Zeros(8)] + after, |before|;
    assert pool[p..p + |value|] == value;
    NulFromIs(pool, p, p + |value|);
  }

  lemma {:induction false} MatchIsValue(before: Bytes, pairs: seq<Pair>, key: Bytes)
    requires Plain(pairs)
    ensures FirstMatch(Items(pairs, |before|), before + Pool(pairs), key) == ValueOf(pairs, key)
    decreases |pairs|
  {
    hide StringAt, NulFree;
    if pairs == [] {
    } else {
      var v, rest := pairs[0].value, pairs[1..];
      var next := before + v + [Zeros(8)];
      assert before + Pool(pairs) == next + Pool(rest);
      ValueAt(before, v, Pool(rest));
      MatchIsValue(next, rest, key);
      assert Items(pairs, |before|)[1..] == Items(rest, |next|);
    }
  }

  /** Every table of keys and values survives being laid out, encrypted and looked up. */
  lemma TableSurvives(pairs: seq<Pair>, tail: Bytes, key: Bytes)
    requires Plain(pairs) && |pairs| < 65536 && |KeyBlock(Items(pairs, 0))| < 65536 && |Pool(pairs)| < 65536
    ensures Find(Encoded(|pairs|, KeyBlock(Items(pairs, 0)), Pool(pairs), tail), key) == ValueOf(pairs, key)
  {
    if pairs == [] {
      NothingFound(tail, key);
    } else {
      hide Find, Encoded, FirstMatch, ValueOf, LaidOut;
      ItemsWritable(pairs, 0);
      EncodedIsLaidOut(|pairs|, KeyBlock(Items(pairs, 0)), Pool(pairs), tail);
      FindFinds(Encoded(|pairs|, KeyBlock(Items(pairs, 0)), Pool(pairs), tail), |pairs|, Items(pairs, 0), Pool(pairs), key);
      MatchIsValue([], pairs, key);
      assert [] + Pool(pairs) == Pool(pairs);
    }
  }

  lemma NothingFound(tail: Bytes, key: Bytes)
    ensures Find(Encoded(0, [], [], tail), key) == None
  {
    hide Masked, Le16, Scan, Encoded, Rd16;
    EncodedParts(0, [], [], tail);
    MaskedTwice(Le16(0), SET_KEY);
    Le16Read(0);
  }
}
