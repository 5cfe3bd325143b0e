/** Counting visits to a ring of `n` cells without multiplying. */
module Rounds {
  /** The number of visits in `r` whole rounds of `n` and `k` more: r * n + k, without the product. */
  function Visits(r: nat, k: nat, n: nat): nat {
    if r == 0 then k else n + Visits(r - 1, k, n)
  }

  lemma {:induction false} VisitsIsProduct(r: nat, k: nat, n: nat)
    ensures Visits(r, k, n) == r * n + k
  {
    if r != 0 {
      VisitsIsProduct(r - 1, k, n);
      assert (r - 1) * n == r * n - n;
    }
  }

  lemma {:induction false} VisitsFrom(r: nat, k: nat, n: nat)
    ensures Visits(r, k, n) == Visits(r, 0, n) + k
    ensures Visits(r, n, n) == Visits(r + 1, 0, n)
    ensures r > 0 ==> Visits(r, k, n) >= n
  {
    if r != 0 {
      VisitsFrom(r - 1, k, n);
    }
  }

  lemma {:induction false} DropRound(m: nat, n: nat)
    requires 0 < n
    ensures (m + n) % n == m % n
  {
    var q := m / n;
    assert m == q * n + m % n;
    assert m + n == (q + 1) * n + m % n;
    MultipleGap((m + n) / n - (q + 1), n);
    assert ((m + n) / n - (q + 1)) * n == m % n - (m + n) % n;
  }

  lemma {:induction false} MultipleGap(d: int, n: nat)
    ensures d > 0 ==> d * n >= n
    ensures d < 0 ==> d * n <= -(n as int)
  {
    if d > 0 {
      assert (d - 1) * n >= 0;
    } else if d < 0 {
      assert (-d - 1) * n >= 0;
    }
  }

  lemma {:induction false} VisitedCell(r: nat, k: nat, n: nat)
    requires k < n
    ensures Visits(r, k, n) % n == k
  {
    if r == 0 {
      SmallRemainder(k, n);
    } else {
      VisitedCell(r - 1, k, n);
      DropRound(Visits(r - 1, k, n), n);
    }
  }

  lemma {:induction false} SmallRemainder(k: nat, n: nat)
    requires k < n
    ensures k % n == k
  {
  }

  lemma {:induction false} OneVisitEarlier(m: nat, n: nat, r: nat, k: nat)
    requires 1 < n && k < n && m == Visits(r, k, n)
    ensures m == 0 ==> r == 0 && k == 0
    ensures k > 0 ==> m - 1 == Visits(r, k - 1, n)
    ensures m > 0 && k == 0 ==> r > 0 && m - 1 == Visits(r - 1, n - 1, n)
  {
    VisitsFrom(r, k, n);
    if k > 0 {
      VisitsFrom(r, k - 1, n);
    } else if r > 0 {
      VisitsFrom(r - 1, n, n);
      VisitsFrom(r - 1, n - 1, n);
    }
  }
}
