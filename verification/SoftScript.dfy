/** The software round as the script has it, on numbers below 2^32: a right rotation by s divides by 2^s and puts
    what falls out in front. */
module SoftScript {
  import opened Words
  import opened Numbers

  function Low32(x: int): nat {
    x % 0x1_0000_0000
  }

  lemma RorNatural(v: nat, s: nat)
    requires s < 32
    ensures 0 <= v / Pow2(s) + Pow2(32 - s) * (v % Pow2(s))
  {
    hide Pow2;
    QuotientNatural(v, Pow2(s));
    Positive(Pow2(32 - s), v % Pow2(s));
  }

  function Ror32(v: nat, s: nat): nat
    requires s < 32
  {
    RorNatural(v, s);
    v / Pow2(s) + Pow2(32 - s) * (v % Pow2(s))
  }

  /** One turn of the decoding loop: the left half loses its key and turns by bits 7 to 11 of the right; the right
      half gains its key and turns by bits 4 to 8 of the new left. */
  function Turn(p: (nat, nat), odd: nat, even: nat): (nat, nat) {
    var l := BitXor(Ror32(Low32(p.0 - odd), p.1 / 128 % 32), p.1);
    (l, BitXor(Ror32(Low32(p.1 + even), l / 16 % 32), l))
  }

  /** The turns from 12 down to n + 1. */
  function Turns(p: (nat, nat), k: seq<nat>, n: nat): (nat, nat)
    requires |k| == 26 && n <= 12
    decreases 12 - n
  {
    if n == 12 then p else Turn(Turns(p, k, n + 1), k[2 * n + 3], k[2 * n + 2])
  }

  function ScriptDecode(p: (nat, nat), k: seq<nat>): (nat, nat)
    requires |k| == 26
  {
    var q := Turns(p, k, 0);
    (Low32(q.0 - k[1]), Low32(q.1 - k[0]))
  }

  /** The schedule after the first n turns of its loop: entry 1 takes in a rotation of D on every turn. */
  function ScriptSchedule(D: nat, acc: nat, n: nat): (k: seq<nat>)
    requires n <= 25
    ensures |k| == 26
  {
    if n == 0 then seq(26, j => if j == 0 then D else 0)
    else
      var k := ScriptSchedule(D, acc, n - 1);
      var prev := k[n - 1];
      var l := k[n := Low32(prev + acc)];
      l[1 := BitXor(l[1], Ror32(D, prev % 32))]
  }
}
