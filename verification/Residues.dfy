/** Ids and the slots they fall into: remainders of ids less than a turn apart. */
module Residues {

  lemma FarApart(n: int, d: int)
    requires n > 0
    ensures d < 0 ==> n * d <= -n
    ensures d > 0 ==> n * d >= n
    ensures d > 1 ==> n * d >= 2 * n
  {
  }

  /** The remainder is the only one of its range at a whole number of turns. */
  lemma SameSlotOf(n: int, a: int, q: int, r: int)
    requires n > 0 && a == n * q + r && 0 <= r < n
    ensures a % n == r
  {
    var d := a / n - q;
    assert n * d == r - a % n by {
      assert a == n * (a / n) + a % n;
      assert n * d == n * (a / n) - n * q;
    }
    FarApart(n, d);
  }

  /** Two numbers less than `n` apart differ by the difference of their slots, give or take a turn. */
  lemma Distance(n: int, a: int, b: int)
    requires n > 0 && a < b < a + n
    ensures b == a + (b % n - a % n) + if b % n <= a % n then n else 0
    ensures a % n != b % n
  {
    var x, y := a / n, b / n;
    assert a == n * x + a % n && b == n * y + b % n;
    var d := y - x;
    assert n * y == n * x + n * d;
    FarApart(n, d);
  }

  /** Ids in the same slot, less than a turn apart, are the same. */
  lemma SameSlot(n: int, a: int, b: int)
    requires n > 0 && a % n == b % n && a - n < b < a + n
    ensures a == b
  {
    if a < b {
      Distance(n, a, b);
    } else if b < a {
      Distance(n, b, a);
    }
  }

  lemma NextSlot(n: int, a: int)
    requires n > 0
    ensures (a % n + 1) % n == (a + 1) % n == if a % n + 1 == n then 0 else a % n + 1
  {
    var q, r := a / n, a % n;
    assert a == n * q + r;
    if r + 1 < n {
      SameSlotOf(n, a + 1, q, r + 1);
      SameSlotOf(n, r + 1, 0, r + 1);
    } else {
      assert n * (q + 1) == n * q + n;
      SameSlotOf(n, a + 1, q + 1, 0);
      SameSlotOf(n, r + 1, 1, 0);
    }
  }
}
