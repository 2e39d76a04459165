/** Remainders used by the rotating refreshes. */
module Modular {

  lemma Multiple(n: nat, d: int)
    ensures d >= 1 ==> n * d >= n
    ensures d <= -1 ==> n * d + n <= 0
  {
  }

  lemma RemainderIs(n: nat, q: int, r: nat)
    requires r < n
    ensures (q * n + r) % n == r
  {
    var x := q * n + r;
    var d := x / n - q;
    assert x == n * (x / n) + x % n;
    assert n * d == n * (x / n) - n * q;
    Multiple(n, d);
  }

  function Quotient(n: nat, p: nat): nat
    requires p > 0
  {
    n / p
  }

  function Remainder(n: nat, p: nat): (r: nat)
    requires p > 0
    ensures r < p && n == Quotient(n, p) * p + r
  {
    n % p
  }

  lemma QuotientIs(p: nat, q: nat, r: nat)
    requires r < p
    ensures Quotient(q * p + r, p) == q && Remainder(q * p + r, p) == r
  {
    RemainderIs(p, q, r);
    var d := Quotient(q * p + r, p) - q;
    assert p * d == 0;
    Multiple(p, d);
  }

  lemma NextAround(n: nat, m: nat)
    requires n > 0
    ensures (m % n + 1) % n == (m + 1) % n
  {
    var q, r := m / n, m % n;
    if r + 1 < n {
      RemainderIs(n, q, r + 1);
      RemainderIs(n, 0, r + 1);
    } else {
      assert m + 1 == (q + 1) * n + 0;
      RemainderIs(n, q + 1, 0);
      RemainderIs(n, 1, 0);
    }
  }

  lemma AddRemainder(n: nat, a: nat, k: nat)
    requires n > 0
    ensures (a + k) % n == (a % n + k) % n
  {
    var q, r := a / n, a % n;
    var m, s := (r + k) / n, (r + k) % n;
    assert (q + m) * n == q * n + m * n;
    assert a + k == (q + m) * n + s;
    RemainderIs(n, q + m, s);
  }

  /** Going `i < n` places around from `start`. */
  lemma Around(n: nat, start: nat, i: nat)
    requires i < n
    ensures (start + i) % n == if start % n + i < n then start % n + i else start % n + i - n
    ensures ((start + i) % n + 1) % n == (start + i + 1) % n
  {
    var q, r := start / n, start % n;
    if r + i < n {
      assert start + i == q * n + (r + i);
      RemainderIs(n, q, r + i);
    } else {
      assert start + i == (q + 1) * n + (r + i - n);
      RemainderIs(n, q + 1, r + i - n);
    }
    NextAround(n, start + i);
  }
}
