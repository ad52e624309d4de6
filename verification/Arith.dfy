/** Counting round a cycle of N positions, and the low bits of a number. */
module Arith {
  lemma NextPosition(n: int, N: int)
    requires 1 <= N && 0 <= n
    ensures 0 <= n % N < N
    ensures (n + 1) % N == if n % N == N - 1 then 0 else n % N + 1
  {
    var q, r := n / N, n % N;
    assert n + 1 == q * N + (r + 1);
    if r == N - 1 {
      assert n + 1 == (q + 1) * N;
      RemainderIs(n + 1, N, q + 1, 0);
    } else {
      RemainderIs(n + 1, N, q, r + 1);
    }
  }

  lemma Multiple(k: int, d: int)
    requires k >= 1 && d > 0
    ensures k * d >= d && -k * d <= -d
  {
  }

  lemma RemainderIs(x: int, d: int, q: int, r: int)
    requires d > 0 && x == q * d + r && 0 <= r < d
    ensures x % d == r
  {
    var k := x / d - q;
    assert k * d == r - x % d;
    if k >= 1 {
      Multiple(k, d);
      assert false;
    } else if k <= -1 {
      Multiple(-k, d);
      assert false;
    }
  }

  /** The low bits of the low byte are the low bits. */
  lemma LowBits(val: int)
    ensures val % 256 % 4 == val % 4 && val % 256 / 4 % 2 == val / 4 % 2
  {
    var q, a := val / 256, val % 256 / 4;
    Quotient4(val, 64 * q + a, val % 256 % 4);
    Quotient2(64 * q + a, 32 * q + a / 2, a % 2);
  }

  lemma Quotient4(x: int, q: int, r: int)
    requires x == 4 * q + r && 0 <= r < 4
    ensures x / 4 == q && x % 4 == r
  {
  }

  lemma Quotient2(x: int, q: int, r: int)
    requires x == 2 * q + r && 0 <= r < 2
    ensures x / 2 == q && x % 2 == r
  {
  }
}
