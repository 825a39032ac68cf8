/** Facts about Euclidean division used by the frame-replay and the dataset
    split proofs. */
module Arithmetic {

  lemma MulNonNegative(a: int, b: int)
    requires a >= 0 && b >= 0
    ensures a * b >= 0
  {
  }

  /** Quotient and remainder are unique. */
  lemma DivModUnique(x: int, n: int, q: int, r: int)
    requires n > 0 && 0 <= r < n && x == q * n + r
    ensures x / n == q && x % n == r
  {
    var q', r' := x / n, x % n;
    assert x == q' * n + r';
    var d := q' - q;
    assert d * n == q' * n - q * n;
    assert d * n == r - r';
    if d >= 1 {
      assert d * n == n + (d - 1) * n;
      MulNonNegative(d - 1, n);
      assert false;
    } else if d <= -1 {
      assert -d * n == n + (-d - 1) * n;
      MulNonNegative(-d - 1, n);
      assert false;
    }
  }

  /** Successors of numbers that agree modulo n agree modulo n. */
  lemma ModSucc(a: nat, b: nat, n: nat)
    requires n > 0 && a % n == b % n
    ensures (a + 1) % n == (b + 1) % n
  {
    var r := a % n;
    if r + 1 < n {
      DivModUnique(a + 1, n, a / n, r + 1);
      DivModUnique(b + 1, n, b / n, r + 1);
    } else {
      DivModUnique(a + 1, n, a / n + 1, 0);
      DivModUnique(b + 1, n, b / n + 1, 0);
    }
  }
}
