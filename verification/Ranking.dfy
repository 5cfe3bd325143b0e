/**
  Choosing one candidate from a list of scores: the first least score, the least
  of the others, and how far apart the two must be.
*/
module Ranking {
  import opened Reals

  /** The largest finite single-precision value: the ranking loop's starting score. */
  const FLT_MAX := 340282346638528859811704183484516925440.0

  /** At least two genuine scores, all below the sentinel. */
  ghost predicate Ranked(s: seq<real>) {
    |s| >= 2 && forall i :: 0 <= i < |s| ==> 0.0 <= s[i] < FLT_MAX
  }

  /** The position of the first least score among the first `k`. */
  function FirstLeast(s: seq<real>, k: nat): nat
    requires 0 < k <= |s|
    ensures FirstLeast(s, k) < k
  {
    if k == 1 then 0
    else
      var c := FirstLeast(s, k - 1);
      if s[k - 1] < s[c] then k - 1 else c
  }

  /** The least of the first `k` scores when position `skip` is left out. */
  function LeastExcept(s: seq<real>, skip: nat, k: nat): real
    requires k <= |s|
  {
    if k == 0 then FLT_MAX
    else if k - 1 == skip then LeastExcept(s, skip, k - 1)
    else Min(s[k - 1], LeastExcept(s, skip, k - 1))
  }

  function Winner(s: seq<real>): nat
    requires |s| >= 2
  {
    FirstLeast(s, |s|)
  }

  function Second(s: seq<real>): real
    requires |s| >= 2
  {
    LeastExcept(s, Winner(s), |s|)
  }

  function Confidence(s: seq<real>): real
    requires |s| >= 2
  {
    Min(Max((Second(s) - s[Winner(s)]) / Max(Second(s), 0.000001), 0.0), 1.0)
  }

  predicate Locks(s: seq<real>)
    requires |s| >= 2
  {
    s[Winner(s)] < 0.035 && Confidence(s) > 0.08
  }

  // ----- the ranking is right -------------------------------------------------

  lemma {:induction false} FirstLeastIsFirstAndLeast(s: seq<real>, k: nat)
    requires 0 < k <= |s|
    ensures forall i :: 0 <= i < k ==> s[FirstLeast(s, k)] <= s[i]
    ensures forall i :: 0 <= i < FirstLeast(s, k) ==> s[FirstLeast(s, k)] < s[i]
  {
    if k != 1 {
      FirstLeastIsFirstAndLeast(s, k - 1);
    }
  }

  lemma {:induction false} LeastExceptIsLeast(s: seq<real>, skip: nat, k: nat)
    requires k <= |s|
    ensures forall i :: 0 <= i < k && i != skip ==> LeastExcept(s, skip, k) <= s[i]
    ensures LeastExcept(s, skip, k) == FLT_MAX || exists i :: 0 <= i < k && i != skip && s[i] == LeastExcept(s, skip, k)
  {
    if k != 0 {
      LeastExceptIsLeast(s, skip, k - 1);
    }
  }

  /** With nothing left out, the least of a prefix is its first least score. */
  lemma {:induction false} LeastOfAll(s: seq<real>, skip: nat, k: nat)
    requires Ranked(s) && 0 < k <= |s| && skip >= k
    ensures LeastExcept(s, skip, k) == s[FirstLeast(s, k)]
  {
    if k == 1 {
      assert LeastExcept(s, skip, 0) == FLT_MAX;
    } else {
      LeastOfAll(s, skip, k - 1);
    }
  }

  /** How the best and the second-best score change when one more score is looked at. */
  lemma {:induction false} RankStep(s: seq<real>, k: nat)
    requires Ranked(s) && k < |s|
    ensures k == 0 ==> FirstLeast(s, 1) == 0 && LeastExcept(s, 0, 1) == FLT_MAX && s[0] < FLT_MAX
    ensures k > 0 ==> var c := FirstLeast(s, k);
                      if s[k] < s[c] then FirstLeast(s, k + 1) == k && LeastExcept(s, k, k + 1) == s[c]
                      else FirstLeast(s, k + 1) == c && LeastExcept(s, c, k + 1) == Min(s[k], LeastExcept(s, c, k))
  {
    if k == 0 {
      assert LeastExcept(s, 0, 0) == FLT_MAX;
    } else {
      LeastOfAll(s, k, k);
    }
  }

  /** The runner-up score is attained, by a position other than the winner's. */
  lemma {:induction false} SecondIsAttained(s: seq<real>) returns (runner: nat)
    requires Ranked(s)
    ensures runner < |s| && runner != Winner(s) && s[runner] == Second(s)
    ensures forall i :: 0 <= i < |s| && i != Winner(s) ==> Second(s) <= s[i]
    ensures forall i :: 0 <= i < |s| ==> s[Winner(s)] <= s[i]
  {
    FirstLeastIsFirstAndLeast(s, |s|);
    LeastExceptIsLeast(s, Winner(s), |s|);
    var other := if Winner(s) == 0 then 1 else 0;
    assert Second(s) <= s[other];
    runner :| 0 <= runner < |s| && runner != Winner(s) && s[runner] == Second(s);
  }

  // ----- what a lock decision means -------------------------------------------

  /** `n` fits well, and every other position is worse by more than eight percent of its own score. */
  ghost predicate ClearWinner(s: seq<real>, n: nat) {
    && n < |s|
    && s[n] < 0.035
    && forall i :: 0 <= i < |s| && i != n ==> Clear(s[i], s[n])
  }

  /** Worse by more than eight percent of its own score. */
  predicate Clear(other: real, best: real) { other - best > 0.08 * Max(other, 0.000001) }

  lemma {:induction false} ConfidenceThreshold(best: real, second: real)
    requires 0.0 <= best <= second
    ensures var floor := Max(second, 0.000001);
            && 0.0 <= (second - best) / floor <= 1.0
            && ((second - best) / floor > 0.08 <==> second - best > 0.08 * floor)
  {
    var floor := Max(second, 0.000001);
    QuotientAtMost(second - best, floor, 1.0);
    var q := (second - best) / floor;
    assert q * floor == second - best;
    assert (q - 0.08) * floor == second - best - 0.08 * floor;
    if q > 0.08 {
      assert (q - 0.08) * floor > 0.0;
    } else {
      assert (0.08 - q) * floor >= 0.0;
    }
  }

  /** The one-pass decision is exactly the declarative one, and it picks that winner. */
  lemma {:induction false} LockMeansClearWinner(s: seq<real>)
    requires Ranked(s)
    ensures Locks(s) <==> exists n: nat :: ClearWinner(s, n)
    ensures forall n: nat :: ClearWinner(s, n) ==> Winner(s) == n
  {
    var runner := SecondIsAttained(s);
    ConfidenceThreshold(s[Winner(s)], Second(s));
    forall n: nat | ClearWinner(s, n)
      ensures Winner(s) == n && Locks(s)
    {
      assert s[Winner(s)] <= s[n];
    }
    if Locks(s) {
      assert ClearWinner(s, Winner(s));
    }
  }

  /** A score of at most `allowed` wins clearly over scores that exceed it by the margin of a lock. */
  lemma {:induction false} ClearlyBelow(s: seq<real>, n: nat, allowed: real)
    requires Ranked(s) && n < |s| && s[n] <= allowed < 0.035
    requires OthersAbove(s, n, (allowed + 0.00000008) / 0.92)
    ensures ClearWinner(s, n)
  {
    forall i | 0 <= i < |s| && i != n
      ensures s[i] - s[n] > 0.08 * Max(s[i], 0.000001)
    {
      assert s[i] > (allowed + 0.00000008) / 0.92;
    }
  }

  /**
    The confidence is the runner-up's lead over the winner as a share of the
    runner-up's own score; clipping never acts.
  */
  lemma {:induction false} ConfidenceExactly(s: seq<real>)
    requires Ranked(s)
    ensures 0.0 <= Confidence(s) <= 1.0
    ensures Confidence(s) * Max(Second(s), 0.000001) == Second(s) - s[Winner(s)]
  {
    var runner := SecondIsAttained(s);
    ConfidenceThreshold(s[Winner(s)], Second(s));
    var floor := Max(Second(s), 0.000001);
    var q := (Second(s) - s[Winner(s)]) / floor;
    assert q * floor == Second(s) - s[Winner(s)];
  }

  lemma {:induction false} SelfQuotient(x: real)
    requires x > 0.0
    ensures x / x == 1.0
  {
  }

  /** Two perfect scores leave the choice unobservable. */
  lemma {:induction false} TwoPerfectScores(s: seq<real>, i: nat, j: nat)
    requires Ranked(s) && i < |s| && j < |s| && i != j
    requires s[i] == 0.0 && s[j] == 0.0
    ensures Confidence(s) == 0.0 && !Locks(s)
  {
    var runner := SecondIsAttained(s);
    assert s[Winner(s)] == 0.0;
    assert Second(s) == 0.0;
  }

  ghost predicate OthersAbove(s: seq<real>, n: nat, bound: real) {
    forall i :: 0 <= i < |s| && i != n ==> s[i] > bound
  }

  ghost predicate OthersAtLeast(s: seq<real>, n: nat, bound: real) {
    forall i :: 0 <= i < |s| && i != n ==> s[i] >= bound
  }

  lemma {:induction false} PerfectScoreWins(s: seq<real>, n: nat)
    requires Ranked(s) && n < |s| && s[n] == 0.0
    ensures ClearWinner(s, n) <==> OthersAbove(s, n, 0.00000008)
    ensures forall w: nat :: ClearWinner(s, w) ==> w == n
  {
    forall w: nat | ClearWinner(s, w)
      ensures w == n
    {
      assert s[n] == 0.0;
    }
  }

  /** A perfect score locks just when every other score exceeds 8e-8. */
  lemma {:induction false} PerfectScoreLocks(s: seq<real>, n: nat)
    requires Ranked(s) && n < |s| && s[n] == 0.0
    ensures Locks(s) <==> OthersAbove(s, n, 0.00000008)
    ensures Locks(s) ==> Winner(s) == n
  {
    LockMeansClearWinner(s);
    PerfectScoreWins(s, n);
  }

  /** With every other score at 1e-6 or more, it does so with full confidence. */
  lemma {:induction false} PerfectScoreConfidence(s: seq<real>, n: nat)
    requires Ranked(s) && n < |s| && s[n] == 0.0
    requires OthersAtLeast(s, n, 0.000001)
    ensures Locks(s) && Winner(s) == n && Confidence(s) == 1.0
  {
    PerfectScoreLocks(s, n);
    var runner := SecondIsAttained(s);
    SelfQuotient(Second(s));
  }
}
