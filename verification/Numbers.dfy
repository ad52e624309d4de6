/** Words as the numbers they stand for: what each bit-level operation does to the value, in the
    arithmetic of the scripts -- division for a right shift, remainder for a mask. */
module Numbers {
  import opened Arith
  import opened Words

  /** Exclusive or of two numbers, from the low bit up. */
  function BitXor(a: nat, b: nat): (r: nat)
    decreases a + b
  {
    if a == 0 && b == 0 then 0 else (a + b) % 2 + 2 * BitXor(a / 2, b / 2)
  }

  lemma {:induction false} Pow2Sum(i: nat, j: nat)
    ensures Pow2(i + j) == Pow2(i) * Pow2(j)
  {
    if i == 0 {
    } else {
      Pow2Sum(i - 1, j);
    }
  }

  lemma {:induction false} ValueAppend(a: Bits, b: Bits)
    ensures Value(a + b) == Value(a) + Pow2(|a|) * Value(b)
  {
    if a == [] {
      assert a + b == b;
    } else {
      assert (a + b)[0] == a[0] && (a + b)[1..] == a[1..] + b;
      ValueAppend(a[1..], b);
      Twice(Pow2(|a| - 1), Value(b));
    }
  }

  lemma Twice(p: int, v: int)
    ensures 2 * p * v == 2 * (p * v)
  {
  }

  /** The quotient and the remainder of a sum in positional form. */
  lemma Positional(low: int, p: int, high: int)
    requires 0 <= low < p
    ensures (low + p * high) / p == high && (low + p * high) % p == low
  {
    RemainderIs(low + p * high, p, high, low);
    var q := (low + p * high) / p;
    Same(q, high, p);
  }

  lemma Same(q: int, h: int, p: int)
    requires p > 0 && q * p == h * p
    ensures q == h
  {
    var k := q - h;
    assert k * p == 0;
    if k >= 1 {
      Multiple(k, p);
      assert false;
    } else if k <= -1 {
      Multiple(-k, p);
      assert false;
    }
  }

  /** A stretch of bits is a quotient cut by a remainder. */
  lemma CutValue(b: Bits, i: nat)
    requires i <= |b|
    ensures Value(b[i..]) == Value(b) / Pow2(i) && Value(b[..i]) == Value(b) % Pow2(i)
  {
    hide Value, Pow2;
    var low, high := b[..i], b[i..];
    assert b == low + high;
    ValueAppend(low, high);
    ValueBound(low);
    Positional(Value(low), Pow2(i), Value(high));
  }

  lemma SliceValue(b: Bits, i: nat, n: nat)
    requires i + n <= |b|
    ensures Value(b[i..i + n]) == Value(b) / Pow2(i) % Pow2(n)
  {
    hide Value, Pow2;
    CutValue(b, i);
    CutValue(b[i..], n);
    assert b[i..][..n] == b[i..i + n];
  }

  lemma BitValue(b: Bits, i: nat)
    requires i < |b|
    ensures b[i] <==> Value(b) / Pow2(i) % 2 == 1
  {
    SliceValue(b, i, 1);
    assert b[i..i + 1] == [b[i]] && [b[i]][1..] == [];
    assert Pow2(1) == 2;
  }

  lemma {:induction false} ZerosValue(n: nat)
    ensures Value(Zeros(n)) == 0
  {
    if n == 0 {
    } else {
      assert Zeros(n)[1..] == Zeros(n - 1);
      ZerosValue(n - 1);
    }
  }

  lemma ShrValue(b: Bits, k: nat)
    requires k < |b|
    ensures Value(Shr(b, k)) == Value(b) / Pow2(k)
  {
    CutValue(b, k);
    ValueAppend(b[k..], Zeros(k));
    ZerosValue(k);
  }

  lemma {:induction false} UnitIsPower(n: nat, i: nat)
    requires i < n
    ensures Value(Unit(n, i)) == Pow2(i)
  {
    if i == 0 {
      assert Unit(n, 0)[1..] == Zeros(n - 1);
      ZerosValue(n - 1);
    } else {
      assert Unit(n, i)[1..] == Unit(n - 1, i - 1);
      UnitIsPower(n - 1, i - 1);
    }
  }

  /** Rotating left multiplies by a power of two and brings the bits that overflow back in at the bottom. */
  lemma RolValue(v: Word, k: nat)
    requires k < 32
    ensures Value(Rol(v, k)) == Value(v) * Pow2(k) % M32 + Value(v) / Pow2(32 - k)
  {
    var low, high := v[..32 - k], v[32 - k..];
    CutValue(v, 32 - k);
    ValueAppend(high, low);
    ValueBound(low);
    Pow2Sum(32 - k, k);
    Pow2Of32();
    assert v == low + high;
    ValueAppend(low, high);
    Overflow(Value(low), Value(high), Pow2(32 - k), Pow2(k));
  }

  lemma Overflow(low: int, high: int, p: int, q: int)
    requires 0 <= low < p && q > 0 && p * q == M32
    ensures (low + p * high) * q % M32 == q * low
  {
    var k := p - low - 1;
    assert q * k >= 0;
    assert q * low == p * q - q - q * k;
    assert 0 <= low * q by {
      Positive(low, q);
    }
    assert (low + p * high) * q == q * low + M32 * high by {
      Spread(low, high, p, q);
    }
    Positional(q * low, M32, high);
  }

  lemma Positive(a: int, b: int)
    requires 0 <= a && 0 <= b
    ensures 0 <= a * b
  {
  }

  lemma QuotientNatural(v: int, d: int)
    requires 0 <= v && 0 < d
    ensures 0 <= v / d
  {
    var q := v / d;
    if q <= -1 {
      Multiple(-q, d);
      assert false;
    }
  }

  lemma Spread(low: int, high: int, p: int, q: int)
    requires p * q == M32
    ensures (low + p * high) * q == q * low + M32 * high
  {
    calc {
      (low + p * high) * q;
      low * q + p * high * q;
      low * q + p * q * high;
    }
  }

  lemma RorValue(v: Word, k: nat)
    requires k < 32
    ensures Value(Ror(v, k)) == Value(v) / Pow2(k) + Pow2(32 - k) * (Value(v) % Pow2(k))
  {
    CutValue(v, k);
    ValueAppend(v[k..], v[..k]);
  }

  lemma {:induction false} XorValue(a: Bits, b: Bits)
    requires |a| == |b|
    ensures Value(Xor(a, b)) == BitXor(Value(a), Value(b))
  {
    if a == [] {
    } else {
      assert Xor(a, b)[1..] == Xor(a[1..], b[1..]);
      XorValue(a[1..], b[1..]);
      BitXorNext(if a[0] then 1 else 0, Value(a[1..]), if b[0] then 1 else 0, Value(b[1..]));
      hide BitXor;
    }
  }

  lemma BitXorNext(p: nat, a: nat, q: nat, b: nat)
    requires p < 2 && q < 2
    ensures BitXor(p + 2 * a, q + 2 * b) == (if p == q then 0 else 1) + 2 * BitXor(a, b)
  {
    var x, y := p + 2 * a, q + 2 * b;
    Positional(p, 2, a);
    Positional(q, 2, b);
    Positional(if p == q then 0 else 1, 2, a + b + if p == q == 1 then 1 else 0);
    assert x / 2 == a && y / 2 == b;
    assert (x + y) % 2 == if p == q then 0 else 1;
    if x == 0 && y == 0 {
    } else {
      assert BitXor(x, y) == (x + y) % 2 + 2 * BitXor(x / 2, y / 2);
      hide BitXor;
    }
  }

  /** Sum and difference wrap at 2^32. */
  lemma SumValue(a: Word, b: Word)
    ensures Value(Add(a, b)) == (Value(a) + Value(b)) % M32
    ensures Value(Sub(a, b)) == (Value(a) - Value(b)) % M32
  {
    hide Value, W;
    WordOfValue(a);
    WordOfValue(b);
    var x, y := Value(a), Value(b);
    ValueOfWord(if x + y < M32 then x + y else x + y - M32);
    ValueOfWord(if y <= x then x - y else x + M32 - y);
  }

  /** Four bytes are read little-endian. */
  lemma UnpackValue(s: seq<Byte>, off: nat)
    requires off + 4 <= |s|
    ensures Value(Unpack(s, off)) ==
            Value(s[off]) + 0x100 * Value(s[off + 1]) + 0x1_0000 * Value(s[off + 2]) + 0x100_0000 * Value(s[off + 3])
  {
    var b0: Bits, b1: Bits, b2: Bits, b3: Bits := s[off], s[off + 1], s[off + 2], s[off + 3];
    ValueAppend(b0 + b1 + b2, b3);
    ValueAppend(b0 + b1, b2);
    ValueAppend(b0, b1);
    assert Pow2(8) == 0x100;
    assert Pow2(16) == 0x1_0000;
    assert Pow2(24) == 0x100_0000;
  }
}
