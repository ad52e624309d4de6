/** The software round of the picture cipher: key schedule, decoding and its inverse. */
module SoftRound {
  import opened Numbers
  import opened Words
  import SoftScript

  /** The low five bits of the field of w that starts at bit i, as a rotation amount. */
  function Field(w: Word, i: nat): (s: nat)
    requires i + 5 <= 32
    ensures s < 32
  {
    ValueBound(w[i..i + 5]);
    assert Pow2(5) == 32;
    Value(w[i..i + 5])
  }

  /** One decoding round with its two schedule words: L is rotated by a field of the old R,
      R by a field of the new L. */
  function Round(p: (Word, Word), odd: Word, even: Word): (Word, Word) {
    var l: Word := Xor(Ror(Sub(p.0, odd), Field(p.1, 7)), p.1);
    var r: Word := Xor(Ror(Add(p.1, even), Field(l, 4)), l);
    (l, r)
  }

  function Unround(p: (Word, Word), odd: Word, even: Word): (Word, Word) {
    var r: Word := Sub(Rol(Xor(p.1, p.0), Field(p.0, 4)), even);
    var l: Word := Add(Rol(Xor(p.0, r), Field(r, 7)), odd);
    (l, r)
  }

  type Schedule = k: seq<Word> | |k| == 26 witness seq<Word>(26, _ => Zeros(32))

  /** Decoding rounds 12 down to n + 1. */
  function Decoded(p: (Word, Word), k: Schedule, n: nat): (Word, Word)
    requires n <= 12
    decreases 12 - n
  {
    if n == 12 then p
    else Round(Decoded(p, k, n + 1), k[2 * (n + 1) + 1], k[2 * (n + 1)])
  }

  /** Encoding rounds 1 up to n. */
  function Encoded(p: (Word, Word), k: Schedule, n: nat): (Word, Word)
    requires n <= 12
  {
    if n == 0 then p
    else Unround(Encoded(p, k, n - 1), k[2 * n + 1], k[2 * n])
  }

  function Decode(p: (Word, Word), k: Schedule): (Word, Word) {
    var q := Decoded(p, k, 0);
    (Sub(q.0, k[1]), Sub(q.1, k[0]))
  }

  function Encode(p: (Word, Word), k: Schedule): (Word, Word) {
    Encoded((Add(p.0, k[1]), Add(p.1, k[0])), k, 12)
  }

  // ----- the same on numbers -----

  function Number(p: (Word, Word)): (nat, nat) {
    (Value(p.0), Value(p.1))
  }

  function Numbered(k: seq<Word>): (v: seq<nat>)
    ensures |v| == |k|
  {
    seq(|k|, j requires 0 <= j < |k| => Value(k[j]))
  }

  lemma FieldIs(w: Word, i: nat)
    requires i + 5 <= 32
    ensures Field(w, i) == Value(w) / Pow2(i) % 32
  {
    hide Value, Pow2;
    SliceValue(w, i, 5);
    Pow2Of5();
  }

  lemma Pow2Of5()
    ensures Pow2(0) == 1 && Pow2(4) == 16 && Pow2(5) == 32 && Pow2(7) == 128
  {
  }

  lemma RorIs(v: Word, s: nat)
    requires s < 32
    ensures Value(Ror(v, s)) == SoftScript.Ror32(Value(v), s)
  {
    hide Value, Pow2;
    RorValue(v, s);
  }

  lemma RoundIs(p: (Word, Word), odd: Word, even: Word)
    ensures Number(Round(p, odd, even)) == SoftScript.Turn(Number(p), Value(odd), Value(even))
  {
    hide Value, Pow2, Xor, Ror, Add, Sub, Field, BitXor, SoftScript.Ror32;
    Pow2Of5();
    var l := Round(p, odd, even).0;
    var s, t := Ror(Sub(p.0, odd), Field(p.1, 7)), Ror(Add(p.1, even), Field(l, 4));
    SumValue(p.0, odd);
    FieldIs(p.1, 7);
    RorIs(Sub(p.0, odd), Field(p.1, 7));
    XorValue(s, p.1);
    SumValue(p.1, even);
    FieldIs(l, 4);
    RorIs(Add(p.1, even), Field(l, 4));
    XorValue(t, l);
  }

  lemma {:induction false} DecodedIs(p: (Word, Word), k: Schedule, n: nat)
    requires n <= 12
    ensures Number(Decoded(p, k, n)) == SoftScript.Turns(Number(p), Numbered(k), n)
    decreases 12 - n
  {
    hide Round, SoftScript.Turn, Number;
    if n == 12 {
    } else {
      DecodedIs(p, k, n + 1);
      RoundIs(Decoded(p, k, n + 1), k[2 * n + 3], k[2 * n + 2]);
    }
  }

  /** Decoding words is the script's decoding of numbers. */
  lemma DecodeIs(p: (Word, Word), k: Schedule)
    ensures Number(Decode(p, k)) == SoftScript.ScriptDecode(Number(p), Numbered(k))
  {
    hide Value, Sub, Decoded, SoftScript.Turns;
    DecodedIs(p, k, 0);
    var q := Decoded(p, k, 0);
    SumValue(q.0, k[1]);
    SumValue(q.1, k[0]);
  }

  method SoftDecode(L0: Word, R0: Word, k: Schedule) returns (L: Word, R: Word)
    ensures (L, R) == Decode((L0, R0), k)
    ensures (Value(L), Value(R)) == SoftScript.ScriptDecode((Value(L0), Value(R0)), Numbered(k))
  {
    hide Round, Value, SoftScript.ScriptDecode, Numbered;
    DecodeIs((L0, R0), k);
    L, R := L0, R0;
    for i := 12 downto 0
      invariant (L, R) == Decoded((L0, R0), k, i)
    {
      L, R := DecodeRound(L, R, k[2 * (i + 1) + 1], k[2 * (i + 1)]);
    }
    L, R := Sub(L, k[1]), Sub(R, k[0]);
  }

  method DecodeRound(L0: Word, R0: Word, odd: Word, even: Word) returns (L: Word, R: Word)
    ensures (L, R) == Round((L0, R0), odd, even)
  {
    L := Xor(Ror(Sub(L0, odd), Field(R0, 7)), R0);
    R := Xor(Ror(Add(R0, even), Field(L, 4)), L);
  }

  method SoftEncode(L0: Word, R0: Word, k: Schedule) returns (L: Word, R: Word)
    ensures (L, R) == Encode((L0, R0), k)
    ensures SoftScript.ScriptDecode((Value(L), Value(R)), Numbered(k)) == (Value(L0), Value(R0))
  {
    hide Unround, Value, Decode, SoftScript.ScriptDecode, Numbered;
    DecodeEncode((L0, R0), k);
    DecodeIs(Encode((L0, R0), k), k);
    L, R := Add(L0, k[1]), Add(R0, k[0]);
    ghost var start := (L, R);
    for i := 1 to 13
      invariant (L, R) == Encoded(start, k, i - 1)
    {
      L, R := EncodeRound(L, R, k[2 * i + 1], k[2 * i]);
    }
  }

  method EncodeRound(L0: Word, R0: Word, odd: Word, even: Word) returns (L: Word, R: Word)
    ensures (L, R) == Unround((L0, R0), odd, even)
  {
    R := Sub(Rol(Xor(R0, L0), Field(L0, 4)), even);
    L := Add(Rol(Xor(L0, R), Field(R, 7)), odd);
  }

  lemma RoundThenUnround(p: (Word, Word), odd: Word, even: Word)
    ensures Unround(Round(p, odd, even), odd, even) == p
  {
    hide Xor, Ror, Rol, Add, Sub, Field;
    var q := Round(p, odd, even);
    var s, t := Ror(Sub(p.0, odd), Field(p.1, 7)), Ror(Add(p.1, even), Field(q.0, 4));
    XorLaws(t, q.0);
    XorLaws(s, p.1);
    RotationsCancel(Add(p.1, even), Field(q.0, 4));
    RotationsCancel(Sub(p.0, odd), Field(p.1, 7));
    AddSub(p.1, even);
    AddSub(p.0, odd);
  }

  lemma UnroundThenRound(p: (Word, Word), odd: Word, even: Word)
    ensures Round(Unround(p, odd, even), odd, even) == p
  {
    hide Xor, Ror, Rol, Add, Sub, Field;
    var q := Unround(p, odd, even);
    var s, t := Rol(Xor(p.1, p.0), Field(p.0, 4)), Rol(Xor(p.0, q.1), Field(q.1, 7));
    AddSub(t, odd);
    AddSub(s, even);
    RotationsCancel(Xor(p.0, q.1), Field(q.1, 7));
    RotationsCancel(Xor(p.1, p.0), Field(p.0, 4));
    XorLaws(p.0, q.1);
    XorLaws(p.1, p.0);
  }

  /** Encoding rounds 1..n consume what decoding rounds 12..1 produced, last round first. */
  lemma {:induction false} RoundsUndone(p: (Word, Word), k: Schedule, n: nat)
    requires n <= 12
    ensures Encoded(Decoded(p, k, 0), k, n) == Decoded(p, k, n)
  {
    hide Round, Unround;
    if n == 0 {
    } else {
      RoundsUndone(p, k, n - 1);
      RoundThenUnround(Decoded(p, k, n), k[2 * n + 1], k[2 * n]);
    }
  }

  lemma {:induction false} RoundsRedone(p: (Word, Word), k: Schedule, n: nat)
    requires n <= 12
    ensures Decoded(Encoded(p, k, 12), k, n) == Encoded(p, k, n)
    decreases 12 - n
  {
    hide Round, Unround;
    if n == 12 {
    } else {
      RoundsRedone(p, k, n + 1);
      UnroundThenRound(Encoded(p, k, n), k[2 * (n + 1) + 1], k[2 * (n + 1)]);
    }
  }

  /** For every schedule the two directions undo each other. */
  lemma DecodeEncode(p: (Word, Word), k: Schedule)
    ensures Encode(Decode(p, k), k) == p
    ensures Decode(Encode(p, k), k) == p
  {
    hide Add, Sub;
    var q := Decoded(p, k, 0);
    AddSub(q.0, k[1]);
    AddSub(q.1, k[0]);
    RoundsUndone(p, k, 12);
    var r := (Add(p.0, k[1]), Add(p.1, k[0]));
    RoundsRedone(r, k, 0);
    AddSub(p.0, k[1]);
    AddSub(p.1, k[0]);
  }

  // ----- the schedule -----

  /** i times acc, added to w. */
  function AddTimes(w: Word, acc: Word, i: nat): Word {
    if i == 0 then w else Add(AddTimes(w, acc, i - 1), acc)
  }

  /** XOR of the rotations of D taken after the first, whose amounts are entries 1..n of k. */
  function Folded(w: Word, D: Word, k: seq<Word>, n: nat): Word
    requires n < |k|
    decreases n, w
  {
    if n == 0 then w else Xor(Folded(w, D, k, n - 1), Ror(D, Field(k[n], 0)))
  }

  /** One turn of the schedule's loop. */
  lemma ScheduleTurn(k: Schedule, D: Word, acc: Word, n: nat)
    requires 1 <= n <= 25 && Numbered(k) == SoftScript.ScriptSchedule(Value(D), Value(acc), n - 1)
    ensures var l := k[n := Add(k[n - 1], acc)];
            Numbered(l[1 := Xor(l[1], Ror(D, Field(k[n - 1], 0)))]) == SoftScript.ScriptSchedule(Value(D), Value(acc), n)
  {
    hide Value, Add, Xor, Ror, Field, BitXor, SoftScript.Ror32, Pow2, Numbered, SoftScript.ScriptSchedule;
    Pow2Of5();
    NextSchedule(Value(D), Value(acc), n);
    var prev := k[n - 1];
    var l := k[n := Add(prev, acc)];
    NumberedUpdate(k, n, Add(prev, acc));
    NumberedUpdate(l, 1, Xor(l[1], Ror(D, Field(prev, 0))));
    SumValue(prev, acc);
    FieldIs(prev, 0);
    RorIs(D, Field(prev, 0));
    XorValue(l[1], Ror(D, Field(prev, 0)));
  }

  lemma NumberedUpdate(k: seq<Word>, j: nat, w: Word)
    requires j < |k|
    ensures Numbered(k[j := w]) == Numbered(k)[j := Value(w)]
    ensures forall i :: 0 <= i < |k| ==> Numbered(k)[i] == Value(k[i])
  {
    hide Value;
  }

  lemma NextSchedule(D: nat, acc: nat, n: nat)
    requires 1 <= n <= 25
    ensures var k := SoftScript.ScriptSchedule(D, acc, n - 1);
            var l := k[n := SoftScript.Low32(k[n - 1] + acc)];
            SoftScript.ScriptSchedule(D, acc, n) == l[1 := BitXor(l[1], SoftScript.Ror32(D, k[n - 1] % 32))]
  {
    hide BitXor, SoftScript.Ror32, SoftScript.Low32;
  }

  lemma EmptySchedule(D: Word, acc: Word)
    ensures Numbered(seq<Word>(26, _ => Zeros(32))[0 := D]) == SoftScript.ScriptSchedule(Value(D), Value(acc), 0)
  {
    ZerosValue(32);
    hide Value;
  }

  /** k[1] is rewritten on every turn, after k[j] was read from k[j - 1]. */
  method BuildSchedule(D: Word, acc: Word) returns (k: Schedule)
    ensures k[0] == D
    ensures var one := Xor(Add(D, acc), Ror(D, Field(D, 0)));
            && (forall j :: 2 <= j < 26 ==> k[j] == AddTimes(one, acc, j - 1))
            && k[1] == Folded(one, D, k[1 := one], 24)
    ensures Numbered(k) == SoftScript.ScriptSchedule(Value(D), Value(acc), 25)
  {
    hide Add, Ror, Xor, Field, Numbered, Value, SoftScript.ScriptSchedule;
    k := seq<Word>(26, _ => Zeros(32))[0 := D];
    EmptySchedule(D, acc);
    ScheduleTurn(k, D, acc, 1);
    k := k[1 := Add(D, acc)];
    k := k[1 := Xor(k[1], Ror(D, Field(D, 0)))];
    ghost var one := k[1];
    for j := 2 to 26
      invariant k[0] == D
      invariant forall i :: 2 <= i < j ==> k[i] == AddTimes(one, acc, i - 1)
      invariant k[1] == Folded(one, D, k[1 := one], j - 2)
      invariant Numbered(k) == SoftScript.ScriptSchedule(Value(D), Value(acc), j - 1)
    {
      ScheduleTurn(k, D, acc, j);
      var prev := k[j - 1];
      ghost var first := k[j := Add(prev, acc)][1 := one];
      FoldedFrame(one, D, k[1 := one], first, j - 2);
      assert first[j - 1] == prev;
      k := k[j := Add(prev, acc)];
      k := k[1 := Xor(k[1], Ror(D, Field(prev, 0)))];
      assert k[1 := one] == first;
    }
  }

  lemma {:induction false} FoldedFrame(w: Word, D: Word, k: seq<Word>, l: seq<Word>, n: nat)
    requires n < |k| == |l| && k[..n + 1] == l[..n + 1]
    ensures Folded(w, D, k, n) == Folded(w, D, l, n)
  {
    if n == 0 {
    } else {
      assert k[n] == k[..n + 1][n] == l[..n + 1][n] == l[n];
      assert k[..n] == k[..n + 1][..n] == l[..n + 1][..n] == l[..n];
      FoldedFrame(w, D, k, l, n - 1);
    }
  }
}
