/**
  Spoke-count inference: how the recent intervals of a run are scored against
  every candidate count.

  A run `a` holds the accepted intervals oldest first; `Back(a, i)` is the i-th
  most recent.  Scores are exact reals.
*/
module Inference {
  import opened Reals
  import Ranking

  const COUNT_MIN := 16
  const COUNT_MAX := 48
  const SHORTEST_US := 70
  const LONGEST_US := 15000

  /** Every interval lies inside the acceptance band. */
  ghost predicate InBand(a: seq<real>) {
    forall i :: 0 <= i < |a| ==> SHORTEST_US as real <= a[i] <= LONGEST_US as real
  }

  predicate Candidate(n: int) { COUNT_MIN <= n <= COUNT_MAX }

  /** Enough history for every candidate count. */
  predicate FullWindow(a: seq<real>) { |a| >= 2 * COUNT_MAX }

  function Back(a: seq<real>, i: nat): real
    requires i < |a|
  {
    a[|a| - 1 - i]
  }

  /** The run before its newest interval. */
  function Prior(a: seq<real>): seq<real>
    requires |a| > 0
  {
    a[..|a| - 1]
  }

  /** The distance between each interval and the one `n` intervals earlier. */
  function Errors(a: seq<real>, n: nat): (r: seq<real>)
    requires 2 * n <= |a|
  {
    seq(n, i requires 0 <= i < n => Abs(Back(a, i) - Back(a, i + n)))
  }

  /** The average of each interval and the one `n` intervals earlier. */
  function Means(a: seq<real>, n: nat): (r: seq<real>)
    requires 2 * n <= |a|
  {
    seq(n, i requires 0 <= i < n => 0.5 * (Back(a, i) + Back(a, i + n)))
  }

  /** The total error relative to the total mean, with a slight handicap for larger counts. */
  function Weigh(error: real, mean: real, n: nat): real {
    error / Max(mean, 1.0) * (1.0 + 0.001 * n as real)
  }

  /** Self-similarity of the two most recent spans of `n` intervals; lower is better. */
  function Score(a: seq<real>, n: nat): real
    requires 2 * n <= |a|
  {
    Weigh(Sum(Errors(a, n), n), Sum(Means(a, n), n), n)
  }

  /** The scores of all candidates, that of `COUNT_MIN` first. */
  function Scores(a: seq<real>): (r: seq<real>)
    requires FullWindow(a)
    ensures |r| == COUNT_MAX - COUNT_MIN + 1
  {
    seq(COUNT_MAX - COUNT_MIN + 1, i requires 0 <= i <= COUNT_MAX - COUNT_MIN => Score(a, COUNT_MIN + i))
  }

  function BestCount(a: seq<real>): (n: nat)
    requires FullWindow(a)
    ensures Candidate(n)
  {
    COUNT_MIN + Ranking.Winner(Scores(a))
  }

  function Confidence(a: seq<real>): real
    requires FullWindow(a)
  {
    Ranking.Confidence(Scores(a))
  }

  predicate Locks(a: seq<real>)
    requires FullWindow(a)
  {
    Ranking.Locks(Scores(a))
  }

  // ----- bounds ---------------------------------------------------------------

  lemma {:induction false} SumsBounded(a: seq<real>, n: nat, k: nat)
    requires InBand(a) && 2 * n <= |a| && k <= n
    ensures 0.0 <= Sum(Errors(a, n), k) <= 2.0 * Sum(Means(a, n), k)
    ensures Sum(Means(a, n), k) >= SHORTEST_US as real * k as real
  {
    if k != 0 {
      SumsBounded(a, n, k - 1);
      assert Back(a, k - 1) >= SHORTEST_US as real && Back(a, k - 1 + n) >= SHORTEST_US as real;
    }
  }

  lemma {:induction false} WeighBounded(error: real, mean: real, n: nat)
    requires 0.0 <= error <= 2.0 * mean && mean >= 1.0 && n <= COUNT_MAX
    ensures 0.0 <= Weigh(error, mean, n) < 3.0
  {
    QuotientAtMost(error, mean, 2.0);
    var f := 1.0 + 0.001 * n as real;
    assert 1.0 <= f <= 1.05;
    var q := error / mean;
    ProductBounds(q, f, 2.0);
    assert Weigh(error, mean, n) == q * f;
    assert q * f <= 2.0 * f;
    assert 2.0 * f < 3.0;
  }

  /** The 1.0 floor on the mean is never active, and every score stays far below the sentinel. */
  lemma {:induction false} ScoreBounded(a: seq<real>, n: nat)
    requires InBand(a) && FullWindow(a) && Candidate(n)
    ensures Sum(Means(a, n), n) >= 1.0
    ensures 0.0 <= Score(a, n) < 3.0
  {
    SumsBounded(a, n, n);
    WeighBounded(Sum(Errors(a, n), n), Sum(Means(a, n), n), n);
  }

  lemma {:induction false} ScoresRanked(a: seq<real>)
    requires InBand(a) && FullWindow(a)
    ensures Ranking.Ranked(Scores(a))
  {
    forall i | 0 <= i < |Scores(a)|
      ensures 0.0 <= Scores(a)[i] < Ranking.FLT_MAX
    {
      ScoreBounded(a, COUNT_MIN + i);
    }
  }

  // ----- what a score is ---------------------------------------------------------

  /** The total of the `k` newest intervals. */
  function Newest(a: seq<real>, k: nat): real
    requires k <= |a|
  {
    if k == 0 then 0.0 else Newest(a, k - 1) + Back(a, k - 1)
  }

  /** How far the `k` newest intervals are from those `n` intervals earlier. */
  function Mismatch(a: seq<real>, n: nat, k: nat): real
    requires n + k <= |a|
  {
    if k == 0 then 0.0 else Mismatch(a, n, k - 1) + Abs(Back(a, k - 1) - Back(a, k - 1 + n))
  }

  lemma {:induction false} ErrorsAreMismatch(a: seq<real>, n: nat, k: nat)
    requires 2 * n <= |a| && k <= n
    ensures Sum(Errors(a, n), k) == Mismatch(a, n, k)
  {
    if k != 0 {
      ErrorsAreMismatch(a, n, k - 1);
    }
  }

  lemma {:induction false} MeansAreNewest(a: seq<real>, n: nat, k: nat)
    requires 2 * n <= |a| && k <= n
    ensures 2.0 * Sum(Means(a, n), k) == Newest(a, k) + Newest(a, n + k) - Newest(a, n)
  {
    if k != 0 {
      MeansAreNewest(a, n, k - 1);
    }
  }

  ghost predicate Proportion(score: real, total: real, mismatch: real, n: nat) {
    score * total == 2.0 * (1.0 + 0.001 * n as real) * mismatch
  }

  /** The score is the mismatch of the two newest spans in relation to their half total, times the handicap. */
  lemma {:induction false} ScoreExactly(a: seq<real>, n: nat)
    requires InBand(a) && FullWindow(a) && Candidate(n)
    ensures Proportion(Score(a, n), Newest(a, 2 * n), Mismatch(a, n, n), n)
  {
    ErrorsAreMismatch(a, n, n);
    MeansAreNewest(a, n, n);
    ScoreBounded(a, n);
    QuotientExactly(Mismatch(a, n, n), Sum(Means(a, n), n), 1.0 + 0.001 * n as real, Score(a, n));
    TwiceScore(Score(a, n), Sum(Means(a, n), n), Newest(a, 2 * n), Mismatch(a, n, n), 1.0 + 0.001 * n as real);
  }

  lemma {:induction false} QuotientExactly(error: real, mean: real, f: real, score: real)
    requires mean >= 1.0 && score == error / mean * f
    ensures score * mean == f * error
  {
    var q := error / mean;
    assert q * mean == error;
    assert q * f * mean == f * (q * mean);
  }

  lemma {:induction false} TwiceScore(score: real, mean: real, total: real, error: real, f: real)
    requires total == 2.0 * mean && score * mean == f * error
    ensures score * total == 2.0 * f * error
  {
    assert score * (2.0 * mean) == 2.0 * (score * mean);
  }

  predicate TimesAsLong(y: real, x: real, c: real) { y == c * x }

  /** The older span is the newer one at another speed: every interval `c` times as long. */
  ghost predicate SpeedStep(a: seq<real>, n: nat, c: real) {
    2 * n <= |a| && forall i {:trigger Back(a, i)} :: 0 <= i < n ==> TimesAsLong(Back(a, i + n), Back(a, i), c)
  }

  /** A span of total `span`, `c` times as long when it was older: its mismatch, and its total with the older one. */
  ghost predicate Stepped(span: real, mismatch: real, longer: real, base: real, c: real) {
    mismatch == Abs(c - 1.0) * span && longer == base + c * span
  }

  lemma {:induction false} SteppedFurther(span: real, mismatch: real, longer: real, base: real, c: real,
                                          x: real, y: real)
    requires Stepped(span, mismatch, longer, base, c) && x > 0.0 && TimesAsLong(y, x, c)
    ensures Stepped(span + x, mismatch + Abs(x - y), longer + y, base, c)
  {
    StepMismatch(x, c);
    Distribute(span, x, Abs(c - 1.0));
    Distribute(span, x, c);
  }

  lemma {:induction false} StepMismatch(x: real, c: real)
    requires x > 0.0
    ensures Abs(x - c * x) == Abs(c - 1.0) * x
  {
    assert x - c * x == (1.0 - c) * x;
    if c < 1.0 {
      ProductBounds(0.0, x, 1.0 - c);
    } else {
      ProductBounds(0.0, x, c - 1.0);
    }
  }

  lemma {:induction false} StepTotals(a: seq<real>, n: nat, c: real, k: nat)
    requires SpeedStep(a, n, c) && k <= n && forall i :: 0 <= i < |a| ==> a[i] > 0.0
    ensures Stepped(Newest(a, k), Mismatch(a, n, k), Newest(a, n + k), Newest(a, n), c)
  {
    if k != 0 {
      StepTotals(a, n, c, k - 1);
      var x, y := Back(a, k - 1), Back(a, k - 1 + n);
      SteppedFurther(Newest(a, k - 1), Mismatch(a, n, k - 1), Newest(a, n + k - 1), Newest(a, n), c, x, y);
    }
  }

  lemma {:induction false} NewestPositive(a: seq<real>, k: nat)
    requires InBand(a) && k <= |a|
    ensures Newest(a, k) >= k as real
  {
    if k != 0 {
      NewestPositive(a, k - 1);
      assert Back(a, k - 1) >= 1.0;
    }
  }

  /** The step's share of the two speeds' sum, doubled, with the handicap. */
  ghost predicate StepShare(score: real, c: real, n: nat) {
    score * (c + 1.0) == 2.0 * Abs(c - 1.0) * (1.0 + 0.001 * n as real)
  }

  /** The score of the true count right after a step in speed. */
  lemma {:induction false} StepScore(a: seq<real>, n: nat, c: real)
    requires InBand(a) && FullWindow(a) && Candidate(n) && SpeedStep(a, n, c) && c > 0.0
    ensures StepShare(Score(a, n), c, n)
  {
    ScoreExactly(a, n);
    StepTotals(a, n, c, n);
    NewestPositive(a, n);
    StepCancels(Score(a, n), c, n, Newest(a, n), Newest(a, 2 * n), Mismatch(a, n, n));
  }

  lemma {:induction false} StepCancels(score: real, c: real, n: nat, span: real, total: real, error: real)
    requires span > 0.0 && Stepped(span, error, total, span, c) && Proportion(score, total, error, n)
    ensures StepShare(score, c, n)
  {
    var f := 1.0 + 0.001 * n as real;
    var x, y := score * (c + 1.0), 2.0 * Abs(c - 1.0) * f;
    assert total == (c + 1.0) * span;
    assert score * ((c + 1.0) * span) == x * span;
    assert 2.0 * f * (Abs(c - 1.0) * span) == y * span;
    CancelFactor(x, y, span);
    CancelFactor(y, x, span);
  }

  /** Every other candidate is worse than `n` by the margin of a lock. */
  ghost predicate RivalsClear(a: seq<real>, n: nat)
    requires FullWindow(a) && Candidate(n)
  {
    forall m :: Candidate(m) && m != n ==> Ranking.Clear(Score(a, m), Score(a, n))
  }

  lemma {:induction false} RivalAt(a: seq<real>, n: nat, i: nat)
    requires FullWindow(a) && Candidate(n) && RivalsClear(a, n) && i < |Scores(a)| && i != n - COUNT_MIN
    ensures Ranking.Clear(Scores(a)[i], Scores(a)[n - COUNT_MIN])
  {
    ScoreAt(a, n);
    ScoreAt(a, COUNT_MIN + i);
    assert Ranking.Clear(Score(a, COUNT_MIN + i), Score(a, n));
  }

  lemma {:induction false} OtherAt(a: seq<real>, n: nat, m: nat)
    requires FullWindow(a) && Candidate(n) && Candidate(m) && n != m
    requires Ranking.ClearWinner(Scores(a), n - COUNT_MIN)
    ensures Ranking.Clear(Score(a, m), Score(a, n))
  {
    ScoreAt(a, n);
    ScoreAt(a, m);
    assert Ranking.Clear(Scores(a)[m - COUNT_MIN], Scores(a)[n - COUNT_MIN]);
  }

  lemma {:induction false} RivalsAreOthers(a: seq<real>, n: nat)
    requires FullWindow(a) && Candidate(n)
    ensures Ranking.ClearWinner(Scores(a), n - COUNT_MIN) <==> Score(a, n) < 0.035 && RivalsClear(a, n)
  {
    ScoreAt(a, n);
    if RivalsClear(a, n) {
      forall i | 0 <= i < |Scores(a)| && i != n - COUNT_MIN
        ensures Ranking.Clear(Scores(a)[i], Scores(a)[n - COUNT_MIN])
      {
        RivalAt(a, n, i);
      }
    }
    if Ranking.ClearWinner(Scores(a), n - COUNT_MIN) {
      forall m | Candidate(m) && m != n
        ensures Ranking.Clear(Score(a, m), Score(a, n))
      {
        OtherAt(a, n, m);
      }
    }
  }

  /** The lock decision on one candidate, in terms of all scores. */
  lemma {:induction false} LocksOn(a: seq<real>, n: nat)
    requires InBand(a) && FullWindow(a) && Candidate(n)
    ensures Locks(a) && BestCount(a) == n <==> Score(a, n) < 0.035 && RivalsClear(a, n)
  {
    ScoresRanked(a);
    Ranking.LockMeansClearWinner(Scores(a));
    RivalsAreOthers(a, n);
    if Locks(a) && BestCount(a) == n {
      var w: nat :| Ranking.ClearWinner(Scores(a), w);
      assert w == n - COUNT_MIN;
    }
  }

  /**
    A wheel of `n` spokes whose speed has just changed by the factor `c` locks, with
    that count, if and only if the rivals are clearly worse and the step is small:
    twice its size in relation to the two speeds' sum, with the handicap, is below
    0.035.
  */
  lemma {:induction false} StepLocksExactly(a: seq<real>, n: nat, c: real)
    requires InBand(a) && FullWindow(a) && Candidate(n) && SpeedStep(a, n, c) && c > 0.0
    ensures Locks(a) && BestCount(a) == n <==>
            RivalsClear(a, n) && SmallStep(c, n)
  {
    LocksOn(a, n);
    StepScore(a, n, c);
    ShareBelow(Score(a, n), c, n);
  }

  /** Twice the step, with the handicap, is less than 3.5 percent of the two speeds' sum. */
  predicate SmallStep(c: real, n: nat) {
    2.0 * Abs(c - 1.0) * (1.0 + 0.001 * n as real) < 0.035 * (c + 1.0)
  }

  lemma {:induction false} ShareBelow(score: real, c: real, n: nat)
    requires c > 0.0 && StepShare(score, c, n)
    ensures score < 0.035 <==> SmallStep(c, n)
  {
    BelowExactly(score, c + 1.0, 2.0 * Abs(c - 1.0) * (1.0 + 0.001 * n as real));
  }

  lemma {:induction false} BelowExactly(score: real, m: real, share: real)
    requires m > 0.0 && score * m == share
    ensures score < 0.035 <==> share < 0.035 * m
  {
    assert (0.035 - score) * m == 0.035 * m - share;
    if score < 0.035 {
      ProductPositive(0.035 - score, m);
    } else {
      ProductBounds(0.0, m, score - 0.035);
    }
  }

  // ----- the handicap on larger counts ------------------------------------------

  /** The total error of a candidate relative to its total mean. */
  function RelativeError(a: seq<real>, n: nat): real
    requires 2 * n <= |a|
  {
    Sum(Errors(a, n), n) / Max(Sum(Means(a, n), n), 1.0)
  }

  /** A score is a relative error with the handicap. */
  ghost predicate Handicapped(score: real, q: real, n: nat) {
    q >= 0.0 && score == q * (1.0 + 0.001 * n as real)
  }

  lemma {:induction false} HandicapGrows(q: real, q': real, n: nat, m: nat, s: real, s': real)
    requires q <= q' && n < m && Handicapped(s, q, n) && Handicapped(s', q', m)
    ensures s <= s' && (s == s' <==> q' == 0.0)
  {
    var f, f' := 1.0 + 0.001 * n as real, 1.0 + 0.001 * m as real;
    ProductBounds(q, f, q');
    var d := f' - f;
    assert d > 0.0;
    assert s' == q' * f + q' * d;
    if q' > 0.0 {
      ProductPositive(q', d);
    } else {
      assert q == 0.0 && q' == 0.0;
      assert s == 0.0 && s' == 0.0;
    }
  }

  lemma {:induction false} ScoreIsRelative(a: seq<real>, n: nat)
    requires InBand(a) && FullWindow(a) && Candidate(n)
    ensures Handicapped(Score(a, n), RelativeError(a, n), n)
  {
    ScoreBounded(a, n);
    SumsBounded(a, n, n);
    QuotientAtMost(Sum(Errors(a, n), n), Sum(Means(a, n), n), 2.0);
  }

  /** A candidate scores better than every larger one of no smaller relative error, unless both fit perfectly. */
  lemma {:induction false} LargerCountsPay(a: seq<real>, n: nat, m: nat)
    requires InBand(a) && FullWindow(a) && Candidate(n) && Candidate(m) && n < m
    requires RelativeError(a, n) <= RelativeError(a, m)
    ensures Score(a, n) <= Score(a, m)
    ensures Score(a, n) == Score(a, m) <==> RelativeError(a, m) == 0.0
  {
    ScoreIsRelative(a, n);
    ScoreIsRelative(a, m);
    HandicapGrows(RelativeError(a, n), RelativeError(a, m), n, m, Score(a, n), Score(a, m));
  }

  /**
    So a count is chosen over a smaller one, of which it may be a multiple, only
    when it explains the intervals strictly better.
  */
  lemma {:induction false} ChosenCountIsEarned(a: seq<real>, n: nat)
    requires InBand(a) && FullWindow(a) && Candidate(n) && n < BestCount(a)
    ensures RelativeError(a, BestCount(a)) < RelativeError(a, n)
  {
    var m := BestCount(a);
    Ranking.FirstLeastIsFirstAndLeast(Scores(a), |Scores(a)|);
    assert Scores(a)[m - COUNT_MIN] < Scores(a)[n - COUNT_MIN];
    if RelativeError(a, n) <= RelativeError(a, m) {
      LargerCountsPay(a, n, m);
    }
  }

  // ----- periodic windows -----------------------------------------------------

  /** The two most recent spans of `n` intervals repeat exactly. */
  ghost predicate Repeats(a: seq<real>, n: nat) {
    2 * n <= |a| && forall i :: 0 <= i < n ==> Back(a, i) == Back(a, i + n)
  }

  lemma {:induction false} RepeatingErrorIsZero(a: seq<real>, n: nat, k: nat)
    requires Repeats(a, n) && k <= n
    ensures Sum(Errors(a, n), k) == 0.0
  {
    if k != 0 {
      RepeatingErrorIsZero(a, n, k - 1);
    }
  }

  lemma {:induction false} RepeatingScoreIsZero(a: seq<real>, n: nat)
    requires FullWindow(a) && Candidate(n) && Repeats(a, n)
    ensures Score(a, n) == Scores(a)[n - COUNT_MIN] == 0.0
  {
    RepeatingErrorIsZero(a, n, n);
    ZeroQuotient(Max(Sum(Means(a, n), n), 1.0), 1.0 + 0.001 * n as real);
  }

  /** Two exact explanations leave the count unobservable. */
  lemma {:induction false} TwoPeriodsNeverLock(a: seq<real>, n: nat, m: nat)
    requires InBand(a) && FullWindow(a) && Candidate(n) && Candidate(m) && n != m
    requires Repeats(a, n) && Repeats(a, m)
    ensures Confidence(a) == 0.0 && !Locks(a)
  {
    ScoresRanked(a);
    RepeatingScoreIsZero(a, n);
    RepeatingScoreIsZero(a, m);
    Ranking.TwoPerfectScores(Scores(a), n - COUNT_MIN, m - COUNT_MIN);
  }

  /** Every other candidate scores above `bound`. */
  ghost predicate RivalsAbove(a: seq<real>, n: nat, bound: real)
    requires FullWindow(a)
  {
    forall m :: Candidate(m) && m != n ==> Score(a, m) > bound
  }

  ghost predicate RivalsAtLeast(a: seq<real>, n: nat, bound: real)
    requires FullWindow(a)
  {
    forall m :: Candidate(m) && m != n ==> Score(a, m) >= bound
  }

  /** An exactly repeating window locks just when no other candidate scores 8e-8 or less. */
  lemma {:induction false} RepeatingLocksExactly(a: seq<real>, n: nat)
    requires InBand(a) && FullWindow(a) && Candidate(n) && Repeats(a, n)
    ensures Locks(a) <==> RivalsAbove(a, n, 0.00000008)
    ensures Locks(a) ==> BestCount(a) == n
  {
    ScoresRanked(a);
    RepeatingScoreIsZero(a, n);
    ScoresAbove(a, n, 0.00000008);
    Ranking.PerfectScoreLocks(Scores(a), n - COUNT_MIN);
  }

  /** With every other score at 1e-6 or more, that lock has full confidence. */
  lemma {:induction false} RepeatingConfidence(a: seq<real>, n: nat)
    requires InBand(a) && FullWindow(a) && Candidate(n) && Repeats(a, n)
    requires RivalsAtLeast(a, n, 0.000001)
    ensures Locks(a) && BestCount(a) == n && Confidence(a) == 1.0
  {
    ScoresRanked(a);
    RepeatingScoreIsZero(a, n);
    ScoresAtLeast(a, n, 0.000001);
    Ranking.PerfectScoreConfidence(Scores(a), n - COUNT_MIN);
  }

  lemma {:induction false} ScoreAt(a: seq<real>, m: nat)
    requires FullWindow(a) && Candidate(m)
    ensures Scores(a)[m - COUNT_MIN] == Score(a, m)
  {
  }

  lemma {:induction false} ScoresAbove(a: seq<real>, n: nat, bound: real)
    requires FullWindow(a) && Candidate(n)
    ensures RivalsAbove(a, n, bound) <==> Ranking.OthersAbove(Scores(a), n - COUNT_MIN, bound)
  {
    var s := Scores(a);
    forall m: nat | Candidate(m)
      ensures s[m - COUNT_MIN] == Score(a, m)
    {
      ScoreAt(a, m);
    }
    if RivalsAbove(a, n, bound) {
      forall i | 0 <= i < |s| && i != n - COUNT_MIN
        ensures s[i] > bound
      {
        assert s[COUNT_MIN + i - COUNT_MIN] == Score(a, COUNT_MIN + i);
      }
    }
  }

  lemma {:induction false} ScoresAtLeast(a: seq<real>, n: nat, bound: real)
    requires FullWindow(a) && Candidate(n) && RivalsAtLeast(a, n, bound)
    ensures Ranking.OthersAtLeast(Scores(a), n - COUNT_MIN, bound)
  {
    var s := Scores(a);
    forall i | 0 <= i < |s| && i != n - COUNT_MIN
      ensures s[i] >= bound
    {
      ScoreAt(a, COUNT_MIN + i);
    }
  }

  // ----- windows of intervals that are equal or clearly apart -----------------

  /** Equal, or at least a microsecond apart. */
  predicate Distinguishable(x: real, y: real) { x == y || Abs(x - y) >= 1.0 }

  /** Intervals that differ differ by at least a microsecond, as all whole numbers of microseconds do. */
  ghost predicate Grained(a: seq<real>) {
    forall i, j {:trigger Back(a, i), Back(a, j)} ::
      0 <= i < |a| && 0 <= j < |a| ==> Distinguishable(Back(a, i), Back(a, j))
  }

  lemma {:induction false} MeansAtMost(a: seq<real>, n: nat, k: nat)
    requires InBand(a) && 2 * n <= |a| && k <= n
    ensures Sum(Means(a, n), k) <= LONGEST_US as real * k as real
  {
    if k != 0 {
      MeansAtMost(a, n, k - 1);
      assert Back(a, k - 1) <= LONGEST_US as real && Back(a, k - 1 + n) <= LONGEST_US as real;
    }
  }

  lemma {:induction false} WeighAtLeast(error: real, mean: real, n: nat)
    requires error >= 1.0 && 1.0 <= mean <= 720000.0
    ensures Weigh(error, mean, n) >= 0.000001
  {
    var q := error / mean;
    assert q * mean == error;
    var floor := 0.000001 * mean;
    assert floor <= 1.0;
    CancelFactor(0.000001, q, mean);
    var f := 1.0 + 0.001 * n as real;
    ProductBounds(1.0, q, f);
    assert Weigh(error, mean, n) == q * f;
  }

  /** A mismatch of a microsecond or more keeps a candidate's score above 1e-6. */
  lemma {:induction false} MismatchScores(a: seq<real>, n: nat, j: nat)
    requires InBand(a) && FullWindow(a) && Candidate(n) && j < n && Abs(Back(a, j) - Back(a, j + n)) >= 1.0
    ensures Score(a, n) >= 0.000001
  {
    SumAtLeast(Errors(a, n), n, j);
    ScoreBounded(a, n);
    MeansAtMost(a, n, n);
    WeighAtLeast(Sum(Errors(a, n), n), Sum(Means(a, n), n), n);
  }

  /** No other candidate repeats exactly. */
  ghost predicate Unrivalled(a: seq<real>, n: nat) {
    forall m :: Candidate(m) && m != n ==> !Repeats(a, m)
  }

  /**
    A window of grained intervals repeating under one candidate count locks, with
    that count and full confidence, if and only if it repeats under no other.
  */
  lemma {:induction false} GrainedLocksExactly(a: seq<real>, n: nat)
    requires InBand(a) && Grained(a) && FullWindow(a) && Candidate(n) && Repeats(a, n)
    ensures Locks(a) <==> Unrivalled(a, n)
    ensures Locks(a) ==> BestCount(a) == n && Confidence(a) == 1.0
  {
    if Unrivalled(a, n) {
      forall m | Candidate(m) && m != n
        ensures Score(a, m) >= 0.000001
      {
        var j :| 0 <= j < m && Back(a, j) != Back(a, j + m);
        MismatchScores(a, m, j);
      }
      RepeatingConfidence(a, n);
    } else {
      var m :| Candidate(m) && m != n && Repeats(a, m);
      TwoPeriodsNeverLock(a, n, m);
    }
  }

  // ----- windows that repeat only roughly ----------------------------------------

  /** The two most recent spans of `n` intervals differ by at most `e` in every place. */
  ghost predicate RepeatsWithin(a: seq<real>, n: nat, e: real) {
    2 * n <= |a| && forall i {:trigger Back(a, i)} :: 0 <= i < n ==> Abs(Back(a, i) - Back(a, i + n)) <= e
  }

  /** Every interval within `d` of a window that repeats exactly. */
  lemma {:induction false} JitterRepeatsWithin(a: seq<real>, u: seq<real>, n: nat, d: real)
    requires |a| == |u| && Repeats(u, n) && forall i :: 0 <= i < |a| ==> Abs(a[i] - u[i]) <= d
    ensures RepeatsWithin(a, n, 2.0 * d)
  {
    forall i {:trigger Back(a, i)} | 0 <= i < n
      ensures Abs(Back(a, i) - Back(a, i + n)) <= 2.0 * d
    {
      assert Back(u, i) == Back(u, i + n);
    }
  }

  lemma {:induction false} ShareOfMiddle(e: real, x: real, y: real, lo: real, share: real)
    requires share >= 0.0 && lo <= x && lo <= y && e <= share * lo
    ensures e <= 0.5 * (x + y) * share
  {
    assert (0.5 * (x + y) - lo) * share >= 0.0;
  }

  lemma {:induction false} RoughPlace(a: seq<real>, n: nat, e: real, lo: real, share: real, i: nat)
    requires share >= 0.0 && RepeatsWithin(a, n, e) && e <= share * lo && i < n
    requires forall i :: 0 <= i < |a| ==> lo <= a[i]
    ensures Errors(a, n)[i] <= Scaled(Means(a, n), share)[i]
  {
    var x, y := Back(a, i), Back(a, i + n);
    ShareOfMiddle(e, x, y, lo, share);
    assert Scaled(Means(a, n), share)[i] == 0.5 * (x + y) * share;
  }

  lemma {:induction false} RoughSums(a: seq<real>, n: nat, e: real, lo: real, share: real)
    requires share >= 0.0 && RepeatsWithin(a, n, e) && e <= share * lo
    requires forall i :: 0 <= i < |a| ==> lo <= a[i]
    ensures Sum(Errors(a, n), n) <= Sum(Means(a, n), n) * share
  {
    forall i | 0 <= i < n
      ensures Errors(a, n)[i] <= Scaled(Means(a, n), share)[i]
    {
      RoughPlace(a, n, e, lo, share, i);
    }
    SumPointwise(Errors(a, n), Scaled(Means(a, n), share), n);
    SumScaled(Means(a, n), share, n);
  }

  /** Its score is at most the differences' share of the shortest interval, with the handicap. */
  lemma {:induction false} RoughScore(a: seq<real>, n: nat, e: real, lo: real, share: real)
    requires InBand(a) && FullWindow(a) && Candidate(n) && share >= 0.0
    requires RepeatsWithin(a, n, e) && e <= share * lo && forall i :: 0 <= i < |a| ==> lo <= a[i]
    ensures Score(a, n) <= share * (1.0 + 0.001 * n as real)
  {
    RoughSums(a, n, e, lo, share);
    ScoreOfShare(a, n, share);
  }

  lemma {:induction false} ScoreOfShare(a: seq<real>, n: nat, share: real)
    requires InBand(a) && FullWindow(a) && Candidate(n)
    requires Sum(Errors(a, n), n) <= Sum(Means(a, n), n) * share
    ensures Score(a, n) <= share * (1.0 + 0.001 * n as real)
  {
    ScoreIsRelative(a, n);
    ScoreBounded(a, n);
    SumsBounded(a, n, n);
    QuotientAtMost(Sum(Errors(a, n), n), Sum(Means(a, n), n), share);
    HandicapBound(RelativeError(a, n), share, n, Score(a, n));
  }

  lemma {:induction false} HandicapBound(q: real, share: real, n: nat, score: real)
    requires q <= share && Handicapped(score, q, n)
    ensures score <= share * (1.0 + 0.001 * n as real)
  {
    ProductBounds(q, 1.0 + 0.001 * n as real, share);
  }

  /**
    A window that repeats only up to a share of its shortest interval locks, with
    that count, as soon as the score this allows is below 0.035 and every rival
    scores clearly more.
  */
  lemma {:induction false} RoughRepeatLocks(a: seq<real>, n: nat, e: real, lo: real, share: real, allowed: real)
    requires InBand(a) && FullWindow(a) && Candidate(n) && share >= 0.0
    requires RepeatsWithin(a, n, e) && e <= share * lo && forall i :: 0 <= i < |a| ==> lo <= a[i]
    requires allowed == share * (1.0 + 0.001 * n as real) && allowed < 0.035
    requires RivalsAbove(a, n, (allowed + 0.00000008) / 0.92)
    ensures Locks(a) && BestCount(a) == n
  {
    RoughScore(a, n, e, lo, share);
    ScoresRanked(a);
    ScoresAbove(a, n, (allowed + 0.00000008) / 0.92);
    Ranking.ClearlyBelow(Scores(a), n - COUNT_MIN, allowed);
    Ranking.LockMeansClearWinner(Scores(a));
  }

  // ----- speed invariance -----------------------------------------------------

  lemma {:induction false} ScaledBack(a: seq<real>, c: real, i: nat)
    requires i < |a|
    ensures Back(Scaled(a, c), i) == Back(a, i) * c
  {
  }

  lemma {:induction false} ScaledError(a: seq<real>, c: real, n: nat, i: nat)
    requires c > 0.0 && 2 * n <= |a| && i < n
    ensures Errors(Scaled(a, c), n)[i] == Scaled(Errors(a, n), c)[i]
  {
    ScaledBack(a, c, i);
    ScaledBack(a, c, i + n);
    AbsScales(Back(a, i), Back(a, i + n), c);
  }

  lemma {:induction false} ScaledErrors(a: seq<real>, c: real, n: nat)
    requires c > 0.0 && 2 * n <= |a|
    ensures Errors(Scaled(a, c), n) == Scaled(Errors(a, n), c)
  {
    var e, e' := Errors(Scaled(a, c), n), Scaled(Errors(a, n), c);
    assert |e| == |e'|;
    forall i | 0 <= i < |e|
      ensures e[i] == e'[i]
    {
      ScaledError(a, c, n, i);
    }
  }

  lemma {:induction false} HalfSumScales(x: real, y: real, c: real)
    ensures 0.5 * (x * c + y * c) == 0.5 * (x + y) * c
  {
  }

  lemma {:induction false} ScaledMean(a: seq<real>, c: real, n: nat, i: nat)
    requires 2 * n <= |a| && i < n
    ensures Means(Scaled(a, c), n)[i] == Scaled(Means(a, n), c)[i]
  {
    ScaledBack(a, c, i);
    ScaledBack(a, c, i + n);
    HalfSumScales(Back(a, i), Back(a, i + n), c);
  }

  lemma {:induction false} ScaledMeans(a: seq<real>, c: real, n: nat)
    requires c > 0.0 && 2 * n <= |a|
    ensures Means(Scaled(a, c), n) == Scaled(Means(a, n), c)
  {
    var m, m' := Means(Scaled(a, c), n), Scaled(Means(a, n), c);
    assert |m| == |m'|;
    forall i | 0 <= i < |m|
      ensures m[i] == m'[i]
    {
      ScaledMean(a, c, n, i);
    }
  }

  lemma {:induction false} WeighScaled(error: real, mean: real, n: nat, c: real, error': real, mean': real)
    requires c > 0.0 && mean >= 1.0 && mean' >= 1.0
    requires error' == error * c && mean' == mean * c
    ensures Weigh(error', mean', n) == Weigh(error, mean, n)
  {
    ScaledQuotient(error, mean, c, error', mean');
  }

  lemma {:induction false} ScaledWeigh(e: seq<real>, m: seq<real>, c: real, n: nat)
    requires c > 0.0 && n <= |e| && n <= |m|
    requires Sum(m, n) >= 1.0 && Sum(Scaled(m, c), n) >= 1.0
    ensures Weigh(Sum(Scaled(e, c), n), Sum(Scaled(m, c), n), n) == Weigh(Sum(e, n), Sum(m, n), n)
  {
    SumScaled(e, c, n);
    SumScaled(m, c, n);
    WeighScaled(Sum(e, n), Sum(m, n), n, c, Sum(Scaled(e, c), n), Sum(Scaled(m, c), n));
  }

  lemma {:induction false} ScaledScore(a: seq<real>, c: real, n: nat)
    requires c > 0.0 && InBand(a) && InBand(Scaled(a, c)) && FullWindow(a) && Candidate(n)
    ensures Score(Scaled(a, c), n) == Score(a, n)
  {
    ScoreBounded(a, n);
    ScoreBounded(Scaled(a, c), n);
    ScaledErrors(a, c, n);
    ScaledMeans(a, c, n);
    ScaledWeigh(Errors(a, n), Means(a, n), c, n);
  }

  /** Riding faster or slower changes neither the scores, the count, the confidence nor the decision. */
  lemma {:induction false} SpeedInvariance(a: seq<real>, c: real)
    requires c > 0.0 && InBand(a) && InBand(Scaled(a, c)) && FullWindow(a)
    ensures Scores(Scaled(a, c)) == Scores(a)
    ensures BestCount(Scaled(a, c)) == BestCount(a)
    ensures Confidence(Scaled(a, c)) == Confidence(a)
    ensures Locks(Scaled(a, c)) == Locks(a)
  {
    forall i | 0 <= i < |Scores(a)|
      ensures Scores(Scaled(a, c))[i] == Scores(a)[i]
    {
      ScaledScore(a, c, COUNT_MIN + i);
    }
  }
}
