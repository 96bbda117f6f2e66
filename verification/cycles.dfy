/**
 * Positions on a cycle of `n` states, counted modulo `n`. Both state machines
 * of the panel walk such a cycle: the modes one of four, the rooms one of seven.
 */
module Cycles {

  /** Division with remainder is unique: a quotient and a remainder in [0, n) are the ones `/` and `%` give. */
  lemma DivModUnique(x: int, n: int, a: int, b: int)
    requires 0 < n && 0 <= b < n && x == n * a + b
    ensures x / n == a && x % n == b
  {
    var d := x / n - a;
    assert n * d == b - x % n;
    if d != 0 {
      MultipleIsFar(n, d);
    }
  }

  /** A non-zero multiple of `n` is at least `n` away from zero. */
  lemma MultipleIsFar(n: int, d: int)
    requires 0 < n && d != 0
    ensures n * d >= n || n * d <= -n
  {
    if d > 0 {
      var e := d - 1;
      assert 0 <= n * e;
      assert n * d == n * e + n;
    } else {
      var e := -d - 1;
      assert 0 <= n * e;
      assert n * d == -(n * e) - n;
    }
  }

  /** Wrapping by hand, forward or backward, agrees with reducing modulo `n`. */
  lemma WrapIsMod(k: int, n: int)
    requires 0 <= k < n
    ensures (if k == n - 1 then 0 else k + 1) == (k + 1) % n
    ensures (if k == 0 then n - 1 else k - 1) == (k + n - 1) % n
  {
    if k == n - 1 {
      DivModUnique(k + 1, n, 1, 0);
    } else {
      DivModUnique(k + 1, n, 0, k + 1);
    }
    if k == 0 {
      DivModUnique(k + n - 1, n, 0, n - 1);
    } else {
      DivModUnique(k + n - 1, n, 1, k - 1);
    }
  }

  /** Reducing modulo `n` between two additions gives the same position as adding at once. */
  lemma ModAddShift(p: nat, m: nat, n: nat)
    requires 0 < n
    ensures (p % n + m) % n == (p + m) % n
  {
    var y := p % n + m;
    assert y == n * (y / n) + y % n;
    assert p == n * (p / n) + p % n;
    assert p + m == n * (p / n + y / n) + y % n;
    DivModUnique(p + m, n, p / n + y / n, y % n);
  }
}
