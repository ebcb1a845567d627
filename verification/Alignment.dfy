/** Rounding up. */
module Alignment {

  // The first multiple of n at or after x.
  function RoundUp(x: nat, n: nat): nat
    requires n > 0
  {
    x + (n - x % n) % n
  }

  lemma RoundUpIsNext(x: nat, n: nat)
    requires n > 0
    ensures RoundUp(x, n) % n == 0 && x <= RoundUp(x, n) < x + n
  {
    var q, r := x / n, x % n;
    assert x == q * n + r;
    if r == 0 { assert (n - r) % n == 0; } else {
      assert (n - r) % n == n - r;
      assert RoundUp(x, n) == (q + 1) * n;
      MultipleMod(q + 1, n);
    }
  }

  lemma MultipleMod(q: nat, n: nat)
    requires n > 0
    ensures q * n % n == 0
  {
    var p, r := q * n / n, q * n % n;
    var d: int := q - p;
    assert q * n == p * n + r;
    assert d * n == r;
    assert d >= 1 ==> d * n >= n;
    assert d <= -1 ==> d * n + n <= 0;
  }
}
