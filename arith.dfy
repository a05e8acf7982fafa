/** Facts about multiplication and division shared by the grid puzzles. */
module Arith {
  /** A row that comes earlier ends no later than the next one begins. */
  lemma {:induction false} MulLess(a: nat, b: nat, n: nat)
    requires a < b
    ensures a * n + n <= b * n
  {
    if n > 0 {
      MulLess(a, b, n - 1);
      assert a * n == a * (n - 1) + a && b * n == b * (n - 1) + b;
    }
  }

  /** Division with remainder has exactly one answer. */
  lemma DivModUnique(i: nat, n: nat, q: nat, r: nat)
    requires r < n && i == q * n + r
    ensures i / n == q && i % n == r
  {
    var q', r' := i / n, i % n;
    assert i == q' * n + r' && r' < n;
    if q' < q {
      MulLess(q', q, n);
    } else if q < q' {
      MulLess(q, q', n);
    }
  }
}
