/** Machine words as their bits, least significant first.  XOR is then addition in a
    vector space over GF(2), rotations and shifts are slices, and little-endian packing
    is concatenation.  Only addition modulo 2^32 goes through the numeric value. */
module Words {

  datatype Option<+T> = None | Some(value: T)

  type Bits = seq<bool>
  type Byte = b: Bits | |b| == 8 witness Zeros(8)
  type Word = w: Bits | |w| == 32 witness Zeros(32)

  function Zeros(n: nat): (z: Bits)
    ensures |z| == n
  {
    seq(n, _ => false)
  }

  function Xor(a: Bits, b: Bits): (r: Bits)
    requires |a| == |b|
    ensures |r| == |a|
  {
    seq(|a|, i requires 0 <= i < |a| => a[i] != b[i])
  }

  // ----- XOR -----

  lemma XorLaws(a: Bits, b: Bits)
    requires |a| == |b|
    ensures Xor(a, b) == Xor(b, a)
    ensures Xor(a, a) == Zeros(|a|)
    ensures Xor(a, Zeros(|a|)) == a == Xor(Zeros(|a|), a)
    ensures Xor(a, b) == Zeros(|a|) <==> a == b
    ensures Xor(Xor(a, b), b) == a == Xor(b, Xor(a, b))
  {
  }

  lemma XorExchange(a: Bits, b: Bits, c: Bits, d: Bits)
    requires |a| == |b| == |c| == |d|
    ensures Xor(Xor(a, b), Xor(c, d)) == Xor(Xor(a, c), Xor(b, d))
    ensures Xor(Xor(a, b), c) == Xor(a, Xor(b, c)) == Xor(Xor(a, c), b)
  {
  }

  // ----- the leading one -----

  /** Number of significant bits. */
  function BitLength(v: Bits): (n: nat)
    ensures n <= |v|
  {
    if v == [] then 0 else if v[|v| - 1] then |v| else BitLength(v[..|v| - 1])
  }

  lemma {:induction false} BitLengthSpec(v: Bits)
    ensures BitLength(v) > 0 ==> v[BitLength(v) - 1]
    ensures forall i :: BitLength(v) <= i < |v| ==> !v[i]
  {
    if v == [] || v[|v| - 1] {
    } else {
      BitLengthSpec(v[..|v| - 1]);
    }
  }

  lemma BitLengthIs(v: Bits, n: nat)
    requires n <= |v| && (n > 0 ==> v[n - 1]) && forall i :: n <= i < |v| ==> !v[i]
    ensures BitLength(v) == n
  {
  }

  lemma BitLengthZero(v: Bits)
    ensures BitLength(v) == 0 <==> v == Zeros(|v|)
  {
    BitLengthSpec(v);
    if v == Zeros(|v|) {
      BitLengthIs(v, 0);
    }
  }

  /** Two words with the same leading one cancel it; otherwise the longer one prevails. */
  lemma BitLengthXor(v: Bits, w: Bits)
    requires |v| == |w|
    ensures BitLength(v) == BitLength(w) != 0 ==> BitLength(Xor(v, w)) < BitLength(v)
    ensures BitLength(v) < BitLength(w) ==> BitLength(Xor(v, w)) == BitLength(w)
  {
    hide BitLength;
    BitLengthSpec(v);
    BitLengthSpec(w);
    BitLengthSpec(Xor(v, w));
    if BitLength(v) < BitLength(w) {
      BitLengthIs(Xor(v, w), BitLength(w));
    }
  }

  /** The vector of length n whose bit i alone is set. */
  function Unit(n: nat, i: nat): (u: Bits)
    requires i < n
    ensures |u| == n
  {
    seq(n, j => j == i)
  }

  // ----- rotation and shift -----

  function Rol(v: Word, k: nat): Word
    requires k < 32
  {
    v[32 - k..] + v[..32 - k]
  }

  function Ror(v: Word, k: nat): Word
    requires k < 32
  {
    v[k..] + v[..k]
  }

  lemma RotationsCancel(v: Word, k: nat)
    requires k < 32
    ensures Rol(Ror(v, k), k) == v && Ror(Rol(v, k), k) == v
  {
  }

  lemma RolIsAdditive(a: Word, b: Word, k: nat)
    requires k < 32
    ensures Rol(Xor(a, b), k) == Xor(Rol(a, k), Rol(b, k))
  {
  }

  function Shr(v: Bits, k: nat): (r: Bits)
    ensures |r| == |v|
  {
    if k < |v| then v[k..] + Zeros(k) else Zeros(|v|)
  }

  // ----- numeric value -----

  function Value(b: Bits): (n: nat)
  {
    if b == [] then 0 else (if b[0] then 1 else 0) + 2 * Value(b[1..])
  }

  function Pow2(k: nat): (p: nat)
    ensures p > 0
  {
    if k == 0 then 1 else 2 * Pow2(k - 1)
  }

  /** The k low bits of n. */
  function Digits(n: nat, k: nat): (b: Bits)
    ensures |b| == k
    decreases k, n
  {
    if k == 0 then [] else [n % 2 == 1] + Digits(n / 2, k - 1)
  }

  lemma {:induction false} ValueBound(b: Bits)
    ensures Value(b) < Pow2(|b|)
  {
    if b == [] {
    } else {
      ValueBound(b[1..]);
    }
  }

  lemma {:induction false} DigitsOfValue(b: Bits)
    ensures Digits(Value(b), |b|) == b
  {
    if b == [] {
    } else {
      DigitsOfValue(b[1..]);
    }
  }

  lemma {:induction false} ValueOfDigits(n: nat, k: nat)
    requires n < Pow2(k)
    ensures Value(Digits(n, k)) == n
  {
    if k == 0 {
    } else {
      ValueOfDigits(n / 2, k - 1);
      assert Digits(n, k)[1..] == Digits(n / 2, k - 1);
    }
  }

  const WIDTH: nat := 32
  const M32: nat := 0x1_0000_0000

  lemma Pow2Of32()
    ensures Pow2(WIDTH) == M32
  {
    assert Pow2(8) == 0x100;
    assert Pow2(16) == 0x1_0000;
    assert Pow2(24) == 0x100_0000;
    assert Pow2(32) == 0x1_0000_0000;
  }

  function W(n: nat): Word {
    Digits(n, WIDTH)
  }

  /** Sum and difference cut to 32 bits. */
  function Add(a: Word, b: Word): Word {
    var n := Value(a) + Value(b);
    W(if n < M32 then n else n - M32)
  }

  function Sub(a: Word, b: Word): Word {
    var x, y := Value(a), Value(b);
    WordOfValue(b);
    W(if y <= x then x - y else x + M32 - y)
  }

  lemma ValueOfWord(n: nat)
    requires n < M32
    ensures Value(W(n)) == n
  {
    Pow2Of32();
    ValueOfDigits(n, WIDTH);
  }

  lemma WordOfValue(w: Word)
    ensures Value(w) < M32 && W(Value(w)) == w
  {
    Pow2Of32();
    ValueBound(w);
    DigitsOfValue(w);
  }

  lemma AddSub(a: Word, b: Word)
    ensures Sub(Add(a, b), b) == a && Add(Sub(a, b), b) == a
  {
    hide Value, W;
    var x, y := Value(a), Value(b);
    WordOfValue(a);
    WordOfValue(b);
    ValueOfWord(if x + y < M32 then x + y else x + y - M32);
    ValueOfWord(if y <= x then x - y else x + M32 - y);
  }

  // ----- little-endian packing -----

  function Unpack(s: seq<Byte>, off: nat): Word
    requires off + 4 <= |s|
  {
    var b0: Bits, b1: Bits, b2: Bits, b3: Bits := s[off], s[off + 1], s[off + 2], s[off + 3];
    b0 + b1 + b2 + b3
  }

  function Pack(s: seq<Byte>, off: nat, w: Word): (t: seq<Byte>)
    requires off + 4 <= |s|
    ensures |t| == |s|
  {
    s[off := w[..8]][off + 1 := w[8..16]][off + 2 := w[16..24]][off + 3 := w[24..]]
  }

  /** Packing writes the four bytes of the word and nothing else. */
  lemma PackLaws(s: seq<Byte>, off: nat, w: Word)
    requires off + 4 <= |s|
    ensures Unpack(Pack(s, off, w), off) == w
    ensures Pack(s, off, Unpack(s, off)) == s
    ensures forall k :: 0 <= k < |s| && (k < off || off + 4 <= k) ==> Pack(s, off, w)[k] == s[k]
  {
    var u := Unpack(s, off);
    assert u[..8] == s[off] && u[8..16] == s[off + 1] && u[16..24] == s[off + 2] && u[24..] == s[off + 3];
  }
}
