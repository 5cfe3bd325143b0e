/** Exact-real counterparts of fabsf, fmaxf and fminf. */
module Reals {
  function Abs(x: real): real { if x < 0.0 then -x else x }

  function Max(x: real, y: real): real { if x < y then y else x }

  function Min(x: real, y: real): real { if y < x then y else x }

  /** The sum of the first `k` elements. */
  function Sum(s: seq<real>, k: nat): real
    requires k <= |s|
  {
    if k == 0 then 0.0 else Sum(s, k - 1) + s[k - 1]
  }

  /** Every element multiplied by `c`. */
  function Scaled(s: seq<real>, c: real): (r: seq<real>)
    ensures |r| == |s|
  {
    seq(|s|, i requires 0 <= i < |s| => s[i] * c)
  }

  lemma {:induction false} ScaledSlice(s: seq<real>, c: real, lo: nat, hi: nat)
    requires lo <= hi <= |s|
    ensures Scaled(s, c)[lo..hi] == Scaled(s[lo..hi], c)
  {
    forall i | 0 <= i < hi - lo
      ensures Scaled(s, c)[lo..hi][i] == Scaled(s[lo..hi], c)[i]
    {
      assert s[lo..hi][i] == s[lo + i];
    }
  }

  lemma {:induction false} SumOfEqual(s: seq<real>, t: seq<real>, k: nat)
    requires k <= |s| && k <= |t|
    requires forall i :: 0 <= i < k ==> s[i] == t[i]
    ensures Sum(s, k) == Sum(t, k)
  {
    if k != 0 {
      SumOfEqual(s, t, k - 1);
    }
  }

  lemma {:induction false} SumPointwise(s: seq<real>, t: seq<real>, k: nat)
    requires k <= |s| && k <= |t|
    requires forall i :: 0 <= i < k ==> s[i] <= t[i]
    ensures Sum(s, k) <= Sum(t, k)
  {
    if k != 0 {
      SumPointwise(s, t, k - 1);
    }
  }

  lemma {:induction false} SumNonNegative(s: seq<real>, k: nat)
    requires k <= |s| && forall i :: 0 <= i < k ==> s[i] >= 0.0
    ensures Sum(s, k) >= 0.0
  {
    if k != 0 {
      SumNonNegative(s, k - 1);
    }
  }

  lemma {:induction false} SumAtLeast(s: seq<real>, k: nat, j: nat)
    requires j < k <= |s| && forall i :: 0 <= i < k ==> s[i] >= 0.0
    ensures Sum(s, k) >= s[j]
  {
    if j < k - 1 {
      SumAtLeast(s, k - 1, j);
    } else {
      SumNonNegative(s, k - 1);
    }
  }

  lemma {:induction false} SumScaled(s: seq<real>, c: real, k: nat)
    requires k <= |s|
    ensures Sum(Scaled(s, c), k) == Sum(s, k) * c
  {
    if k != 0 {
      SumScaled(s, c, k - 1);
      Distribute(Sum(s, k - 1), s[k - 1], c);
    }
  }

  lemma {:induction false} Distribute(x: real, y: real, c: real)
    ensures (x + y) * c == x * c + y * c
  {
  }

  lemma {:induction false} CancelFactor(x: real, y: real, m: real)
    requires m > 0.0 && x * m <= y * m
    ensures x <= y
  {
  }

  lemma {:induction false} QuotientAtMost(e: real, m: real, bound: real)
    requires 0.0 <= e <= bound * m && m > 0.0
    ensures 0.0 <= e / m <= bound
  {
    var q := e / m;
    assert q * m == e;
    CancelFactor(q, bound, m);
    CancelFactor(0.0, q, m);
  }

  lemma {:induction false} ZeroQuotient(m: real, f: real)
    requires m > 0.0
    ensures 0.0 / m * f == 0.0
  {
    assert 0.0 / m == 0.0;
  }

  lemma {:induction false} ProductPositive(x: real, y: real)
    requires x > 0.0 && y > 0.0
    ensures x * y > 0.0
  {
  }

  lemma {:induction false} ProductBounds(q: real, f: real, top: real)
    requires 0.0 <= q <= top && 0.0 <= f
    ensures 0.0 <= q * f <= top * f
  {
  }

  lemma {:induction false} AbsScales(x: real, y: real, c: real)
    requires c > 0.0
    ensures Abs(x * c - y * c) == Abs(x - y) * c
  {
    assert x * c - y * c == (x - y) * c;
    if x < y {
      assert (y - x) * c > 0.0;
    } else {
      assert (x - y) * c >= 0.0;
    }
  }

  lemma {:induction false} ScaledQuotient(e: real, m: real, c: real, e': real, m': real)
    requires m > 0.0 && c > 0.0 && e' == e * c && m' == m * c
    ensures m' > 0.0 && e' / m' == e / m
  {
    assert m' > 0.0;
    var q := e / m;
    assert q * m == e;
    assert q * m' == e';
  }
}
