/**
  What the learner does over whole runs of repeating and rescaled intervals.
*/
module Runs {
  import opened Reals
  import opened Inference
  import opened Table
  import opened Learner
  import opened Rounds

  predicate SameAfter(a: seq<real>, i: nat, n: nat)
    requires i + n < |a|
  {
    a[i] == a[i + n]
  }

  /** The run repeats exactly after every `n` intervals. */
  ghost predicate Periodic(a: seq<real>, n: nat) {
    forall i: nat {:trigger SameAfter(a, i, n)} :: i + n < |a| ==> SameAfter(a, i, n)
  }

  // ----- streams whose count cannot be observed ---------------------------------

  lemma {:induction false} PeriodicRepeats(a: seq<real>, n: nat)
    requires Periodic(a, n) && 2 * n <= |a|
    ensures Repeats(a, n)
  {
    forall i | 0 <= i < n
      ensures Back(a, i) == Back(a, i + n)
    {
      assert SameAfter(a, |a| - 1 - i - n, n);
    }
  }

  lemma {:induction false} PeriodicPrior(a: seq<real>, n: nat)
    requires Periodic(a, n) && |a| > 0
    ensures Periodic(Prior(a), n)
  {
    forall i: nat {:trigger SameAfter(Prior(a), i, n)} | i + n < |Prior(a)|
      ensures SameAfter(Prior(a), i, n)
    {
      assert SameAfter(a, i, n);
    }
  }

  /** A run that repeats under two candidate counts never locks and never gains confidence. */
  lemma {:induction false} AmbiguousNeverLocks(a: seq<real>, n: nat, m: nat)
    requires InBand(a) && Candidate(n) && Candidate(m) && n != m
    requires Periodic(a, n) && Periodic(a, m)
    ensures !Learn(a).locked && Learn(a).confidence == 0.0
  {
    if |a| != 0 {
      PeriodicPrior(a, n);
      PeriodicPrior(a, m);
      AmbiguousNeverLocks(Prior(a), n, m);
      if |a| >= CONFIDENCE_EVENTS {
        PeriodicRepeats(a, n);
        PeriodicRepeats(a, m);
        TwoPeriodsNeverLock(a, n, m);
      }
    }
  }

  lemma {:induction false} PeriodsAdd(a: seq<real>, n: nat, m: nat)
    requires Periodic(a, n) && Periodic(a, m)
    ensures Periodic(a, n + m)
  {
    forall i: nat {:trigger SameAfter(a, i, n + m)} | i + (n + m) < |a|
      ensures SameAfter(a, i, n + m)
    {
      assert SameAfter(a, i, n) && SameAfter(a, i + n, m);
    }
  }

  /** The first multiple of `d` that is a candidate count, counting up from the multiple `n`. */
  lemma {:induction false} FirstCandidate(a: seq<real>, d: nat, n: nat) returns (m: nat)
    requires 0 < d && Periodic(a, d) && Periodic(a, n) && n < COUNT_MIN + d
    ensures COUNT_MIN <= m < COUNT_MIN + d && Periodic(a, m)
    decreases COUNT_MIN + d - n
  {
    if n >= COUNT_MIN {
      m := n;
    } else {
      PeriodsAdd(a, n, d);
      m := FirstCandidate(a, d, n + d);
    }
  }

  /**
    A stream that repeats every `d` intervals for some `d` up to 24, evenly
    spaced spokes (`d == 1`) included, never locks however long it runs.
  */
  lemma {:induction false} ShortPeriodNeverLocks(a: seq<real>, d: nat)
    requires InBand(a) && 0 < d <= 24 && Periodic(a, d)
    ensures !Learn(a).locked && Learn(a).confidence == 0.0
  {
    var n := FirstCandidate(a, d, d);
    PeriodsAdd(a, n, d);
    if n + d <= COUNT_MAX {
      AmbiguousNeverLocks(a, n, n + d);
    } else {
      PeriodsAdd(a, d, d);
      AmbiguousNeverLocks(a, d, d + d);
    }
  }

  // ----- streams that lock --------------------------------------------------------

  /** No other candidate explains the window (almost) as well as `n`. */
  ghost predicate Distinct(a: seq<real>, n: nat)
    requires FullWindow(a)
  {
    RivalsAbove(a, n, 0.00000008)
  }

  /**
    An exactly `n`-periodic stream is locked after its 192nd interval just when
    no other candidate scores 8e-8 or less there, and then with count `n`.
  */
  lemma {:induction false} PeriodicLocksAt192(a: seq<real>, n: nat)
    requires InBand(a) && Candidate(n) && Periodic(a, n) && |a| == CONFIDENCE_EVENTS
    ensures Learn(a).locked <==> Distinct(a, n)
    ensures Learn(a).locked ==> Learn(a).count == n
    ensures RivalsAtLeast(a, n, 0.000001) ==> Learn(a).locked && Learn(a).confidence == 1.0
  {
    NothingBefore192(Prior(a));
    PeriodicRepeats(a, n);
    RepeatingLocksExactly(a, n);
    if RivalsAtLeast(a, n, 0.000001) {
      RepeatingConfidence(a, n);
    }
  }

  /** Any longer run keeps that lock, so it happened at precisely the 192nd interval. */
  lemma {:induction false} PeriodicStaysLocked(a: seq<real>, n: nat)
    requires InBand(a) && Candidate(n) && |a| >= CONFIDENCE_EVENTS
    requires var w := a[..CONFIDENCE_EVENTS]; Periodic(w, n) && Distinct(w, n)
    ensures Learn(a).locked && Learn(a).count == n && LockedAt(a) == CONFIDENCE_EVENTS
  {
    var w := a[..CONFIDENCE_EVENTS];
    PeriodicLocksAt192(w, n);
    LockIsPermanent(a, CONFIDENCE_EVENTS);
    LockedFrom(a, CONFIDENCE_EVENTS);
    LockedFrom(a, CONFIDENCE_EVENTS - 1);
    NothingBefore192(a[..CONFIDENCE_EVENTS - 1]);
  }

  // ----- speed ------------------------------------------------------------------------

  /** Same progress: everything but the table and its total. */
  predicate InStep(e: Estimate, f: Estimate) {
    && f.locked == e.locked && f.count == e.count && f.confidence == e.confidence
    && f.index == e.index && f.current == e.current
  }

  lemma {:induction false} SpeedInvariantStep(e: Estimate, f: Estimate, a: seq<real>, b: seq<real>)
    requires Shape(e) && Shape(f) && InStep(e, f) && |a| == |b| > 0
    requires FullWindow(a) ==> BestCount(b) == BestCount(a) && Confidence(b) == Confidence(a) && Locks(b) == Locks(a)
    ensures InStep(Ingest(e, a), Ingest(f, b))
  {
  }

  /** The discrete part of the estimate does not depend on the riding speed. */
  lemma {:induction false} SpeedInvariantRun(a: seq<real>, c: real)
    requires c > 0.0 && InBand(a) && InBand(Scaled(a, c))
    ensures InStep(Learn(a), Learn(Scaled(a, c)))
  {
    if |a| != 0 {
      var b := Scaled(a, c);
      ScaledSlice(a, c, 0, |a| - 1);
      assert Prior(b) == Scaled(Prior(a), c);
      SpeedInvariantRun(Prior(a), c);
      if FullWindow(a) {
        SpeedInvariance(a, c);
      }
      SpeedInvariantStep(Learn(Prior(a)), Learn(Prior(b)), a, b);
    }
  }

  /** The table taken at a lock scales with the intervals. */
  lemma {:induction false} SnapshotScales(e: Estimate, f: Estimate, a: seq<real>, c: real)
    requires c > 0.0 && InBand(a) && InBand(Scaled(a, c)) && FullWindow(a) && Locks(a)
    requires Shape(e) && Shape(f)
    ensures Locks(Scaled(a, c))
    ensures Infer(f, Scaled(a, c)).count == Infer(e, a).count
    ensures var n := Infer(e, a).count; Infer(f, Scaled(a, c)).lut[..n] == Scaled(Infer(e, a).lut[..n], c)
  {
    SpeedInvariance(a, c);
    ScaledSlice(a, c, |a| - BestCount(a), |a|);
    var n := BestCount(a);
    assert Infer(f, Scaled(a, c)).lut[..n] == Scaled(a, c)[|a| - n..|a|];
    assert Infer(e, a).lut[..n] == a[|a| - n..|a|];
  }

  // ----- after the lock ----------------------------------------------------------------

  /** `c` is the table captured by a lock after `t` intervals: the last of them, oldest first. */
  ghost predicate CapturedAt(a: seq<real>, t: nat, c: seq<real>) {
    && 0 < |c| <= t <= |a|
    && forall j :: 0 <= j < |c| ==> c[j] == a[t - |c| + j]
  }

  /** The active cells of the table are those of `s`. */
  ghost predicate Shows(lut: seq<real>, s: seq<real>) {
    |s| <= |lut| && forall j :: 0 <= j < |s| ==> lut[j] == s[j]
  }

  lemma {:induction false} UpdateShows(e: Estimate, x: real, f: Feed)
    requires Shape(e) && e.locked && |f.cells| == e.count && f.index == e.index && Shows(e.lut, f.cells)
    ensures Shows(UpdateMap(e, x).lut, Visit(f, x).cells)
    ensures UpdateMap(e, x).index == Visit(f, x).index
  {
  }

  lemma {:induction false} InferShows(e: Estimate, a: seq<real>, c: seq<real>)
    requires Shape(e) && FullWindow(a) && Locks(a) && |c| == BestCount(a) && CapturedAt(a, |a|, c)
    ensures Shows(Infer(e, a).lut, c)
  {
  }

  lemma {:induction false} LockingStep(a: seq<real>)
    requires Learn(a).locked && LockedAt(a) == |a|
    ensures var before := Learn(Prior(a));
            && FullWindow(a) && Locks(a)
            && Learn(a) == UpdateMap(Infer(before, a), Back(a, 0))
  {
  }

  lemma {:induction false} LaterStep(a: seq<real>)
    requires Learn(a).locked && LockedAt(a) < |a|
    ensures Learn(Prior(a)).locked && LockedAt(Prior(a)) == LockedAt(a)
    ensures Learn(a) == UpdateMap(Learn(Prior(a)), Back(a, 0)) && Learn(a).count == Learn(Prior(a)).count
  {
  }

  /** The learner's table is in step with the abstract feed. */
  ghost predicate InFeed(e: Estimate, f: Feed) {
    e.index == f.index && Shows(e.lut, f.cells)
  }

  lemma {:induction false} LockIsFed(a: seq<real>, c: seq<real>)
    requires Learn(a).locked && LockedAt(a) == |a| && |c| == Learn(a).count && CapturedAt(a, |a|, c)
    ensures InFeed(Learn(a), Visit(Feed(c, 0), Back(a, 0)))
  {
    LockingStep(a);
    var inferred := Infer(Learn(Prior(a)), a);
    InferShows(Learn(Prior(a)), a, c);
    UpdateShows(inferred, Back(a, 0), Feed(c, 0));
  }

  lemma {:induction false} LaterIsFed(a: seq<real>, f: Feed)
    requires Learn(a).locked && LockedAt(a) < |a|
    requires InFeed(Learn(Prior(a)), f) && f.index < |f.cells| == Learn(Prior(a)).count
    ensures InFeed(Learn(a), Visit(f, Back(a, 0)))
  {
    LaterStep(a);
    UpdateShows(Learn(Prior(a)), Back(a, 0), f);
  }

  /**
    From the lock on, the table is the captured one with every interval since,
    the locking one included, fed to its cells in turn, and nothing else.
  */
  lemma {:induction false} TableIsFed(a: seq<real>, c: seq<real>, t: nat)
    requires Learn(a).locked && t == LockedAt(a) && |c| == Learn(a).count && CapturedAt(a, t, c)
    ensures InFeed(Learn(a), FeedFrom(Feed(c, 0), a, t - 1))
  {
    if t == |a| {
      LockIsFed(a, c);
      FeedStep(c, a, t - 1);
    } else {
      LaterStep(a);
      CapturedPrior(a, t, c);
      TableIsFed(Prior(a), c, t);
      LaterIsFed(a, FeedFrom(Feed(c, 0), Prior(a), t - 1));
      FeedStep(c, a, t - 1);
    }
  }

  lemma {:induction false} FeedStep(c: seq<real>, a: seq<real>, from: nat)
    requires |c| > 0 && from < |a|
    ensures FeedFrom(Feed(c, 0), a, from) == Visit(FeedFrom(Feed(c, 0), Prior(a), from), Back(a, 0))
    ensures |a| == from + 1 ==> FeedFrom(Feed(c, 0), Prior(a), from) == Feed(c, 0)
  {
  }

  lemma {:induction false} CapturedPrior(a: seq<real>, t: nat, c: seq<real>)
    requires CapturedAt(a, t, c) && t < |a|
    ensures CapturedAt(Prior(a), t, c)
  {
  }

  lemma {:induction false} FeedShows(e: Estimate, f: Feed, cells: seq<real>, k: nat)
    requires InFeed(e, f) && f == Feed(cells, k)
    ensures e.index == k && Shows(e.lut, cells)
  {
  }

  /**
    After a lock, a repeating stream drives every cell on its own: a cell whose
    first interval passes the gate closes in by a factor of 0.92 a round, any
    other cell keeps its captured value for ever, and cells are visited in turn.
  */
  lemma {:induction false} RepeatingTable(a: seq<real>, c: seq<real>, p: seq<real>, r: nat, k: nat)
    requires Learn(a).locked && |c| == |p| == Learn(a).count && k < |p|
    requires CapturedAt(a, LockedAt(a), c) && Positive(c) && Positive(p)
    requires Cyclic(a, LockedAt(a) - 1, 0, p) && |a| - LockedAt(a) + 1 == Visits(r, k, |p|)
    ensures Learn(a).index == k
    ensures Shows(Learn(a).lut, SettledTable(c, p, 0, r, k))
  {
    var from := LockedAt(a) - 1;
    TableIsFed(a, c, from + 1);
    CyclicFeed(c, p, a, from, 0, r, k);
    FeedShows(Learn(a), FeedFrom(Feed(c, 0), a, from), SettledTable(c, p, 0, r, k), k);
  }

  // ----- a change of speed ---------------------------------------------------------------------

  /** The active cells after the first `s` intervals. */
  function CellsAt(a: seq<real>, s: nat): (c: seq<real>)
    requires s <= |a| && Learn(a[..s]).locked
    ensures |c| == Learn(a[..s]).count > 1
  {
    Learn(a[..s]).lut[..Learn(a[..s]).count]
  }

  /** The same from any locked state on: its cells are fed every interval since, and nothing else. */
  lemma {:induction false} TableIsFedOn(a: seq<real>, s: nat)
    requires s <= |a| && Learn(a[..s]).locked
    ensures Learn(a).locked && Learn(a).count == Learn(a[..s]).count
    ensures InFeed(Learn(a), FeedFrom(Feed(CellsAt(a, s), Learn(a[..s]).index), a, s))
  {
    LockIsPermanent(a, s);
    if s == |a| {
      assert a[..s] == a;
    } else {
      var prior, f := Prior(a), Feed(CellsAt(a, s), Learn(a[..s]).index);
      assert prior[..s] == a[..s];
      TableIsFedOn(prior, s);
      LaterIsFed(a, FeedFrom(f, prior, s));
      assert FeedFrom(f, a, s) == Visit(FeedFrom(f, prior, s), Back(a, 0));
    }
  }

  lemma {:induction false} CellsPositive(a: seq<real>, s: nat)
    requires InBand(a) && s <= |a| && Learn(a[..s]).locked
    ensures Positive(CellsAt(a, s))
  {
    LockedState(a[..s], SHORTEST_US as real, LONGEST_US as real);
  }

  /**
    After `s` intervals the learner was locked; since then the stream has fed
    `p[j]` to cell `j`, up to cell `k` of round `r`.
  */
  ghost predicate FedSince(a: seq<real>, s: nat, p: seq<real>, r: nat, k: nat) {
    && InBand(a) && s <= |a| && Learn(a[..s]).locked && |p| == Learn(a[..s]).count && Positive(p)
    && Cyclic(a, s, Learn(a[..s]).index, p)
    && k < |p| && |a| - s + Learn(a[..s]).index == Visits(r, k, |p|)
  }

  /** The table is `c`, each cell having been visited in turn from cell `start` to cell `k` of round `r`. */
  ghost predicate SettledAs(e: Estimate, c: seq<real>, p: seq<real>, start: nat, r: nat, k: nat) {
    && e.locked && e.count == |c| == |p| && e.index == k && (r > 0 || start <= k)
    && Shows(e.lut, SettledTable(c, p, start, r, k))
  }

  /**
    Once locked, whatever happened before: from the moment the stream repeats,
    each cell closes in on its new interval by a factor of 0.92 a visit if that
    interval passes its gate, and otherwise keeps its value for ever.
  */
  lemma {:induction false} SpeedChange(a: seq<real>, s: nat, p: seq<real>, r: nat, k: nat)
    requires FedSince(a, s, p, r, k)
    ensures SettledAs(Learn(a), CellsAt(a, s), p, Learn(a[..s]).index, r, k)
  {
    TableIsFedOn(a, s);
    CellsPositive(a, s);
    CyclicFeed(CellsAt(a, s), p, a, s, Learn(a[..s]).index, r, k);
  }

  /**
    What a locked learner's period settles to on a stream feeding `p[j]` to cell
    `j`: the true period, off by the distances of the cells that are frozen.
  */
  function FinalPeriod(c: seq<real>, p: seq<real>): real
    requires |c| == |p|
  {
    Sum(p, |p|) + Frozen(c, p, |p|)
  }

  /** It is off that by at most the first distance of the cells that follow, times 0.92 to the power `rounds`. */
  ghost predicate Approaches(period: real, c: seq<real>, p: seq<real>, rounds: nat)
    requires |c| == |p|
  {
    Abs(period - FinalPeriod(c, p)) <= Shrunk(Distance(c, Limit(c, p), |p|), rounds)
  }

  lemma {:induction false} SettledPeriod(a: seq<real>, c: seq<real>, p: seq<real>, start: nat, r: nat, k: nat)
    requires InBand(a) && r > 0 && SettledAs(Learn(a), c, p, start, r, k)
    ensures Approaches(Learn(a).period, c, p, r - 1)
  {
    PeriodOf(a, SettledTable(c, p, start, r, k));
    WrapsConverge(c, p, start, r, k);
  }

  /** Whatever the change of speed, the published period converges with every wrap of the spoke number. */
  lemma {:induction false} PeriodConverges(a: seq<real>, s: nat, p: seq<real>, r: nat, k: nat)
    requires FedSince(a, s, p, r, k) && r > 0
    ensures Approaches(Learn(a).period, CellsAt(a, s), p, r - 1)
  {
    SpeedChange(a, s, p, r, k);
    SettledPeriod(a, CellsAt(a, s), p, Learn(a[..s]).index, r, k);
  }

  /** From cells `c`, every run that feeds them `p` for that many wraps or more publishes a period that close to `x`. */
  ghost predicate EndsNear(c: seq<real>, p: seq<real>, rounds: nat, x: real, tolerance: real) {
    forall a, s: nat, r: nat, k: nat {:trigger FedSince(a, s, p, r, k)} ::
      FedSince(a, s, p, r, k) && CellsAt(a, s) == c && r >= rounds ==> Abs(Learn(a).period - x) < tolerance
  }

  lemma {:induction false} PeriodEnds(c: seq<real>, p: seq<real>, tolerance: real) returns (rounds: nat)
    requires |c| == |p| && tolerance > 0.0
    ensures EndsNear(c, p, rounds, FinalPeriod(c, p), tolerance)
  {
    DistanceNonNegative(c, Limit(c, p), |p|);
    var least := ShrunkVanishes(Distance(c, Limit(c, p), |p|), tolerance);
    rounds := least + 1;
    forall a, s: nat, r: nat, k: nat {:trigger FedSince(a, s, p, r, k)}
      | FedSince(a, s, p, r, k) && CellsAt(a, s) == c && r >= rounds
      ensures Abs(Learn(a).period - FinalPeriod(c, p)) < tolerance
    {
      PeriodConverges(a, s, p, r, k);
    }
  }

  /**
    The period converges to the true one if and only if the distances of the
    frozen cells cancel; otherwise it is wrong for ever after some number of wraps.
  */
  lemma {:induction false} EndsRightExactly(c: seq<real>, p: seq<real>, tolerance: real) returns (rounds: nat)
    requires |c| == |p| && tolerance > 0.0
    ensures Frozen(c, p, |p|) == 0.0 ==> EndsNear(c, p, rounds, Sum(p, |p|), tolerance)
    ensures Frozen(c, p, |p|) != 0.0 ==>
              forall a, s: nat, r: nat, k: nat {:trigger FedSince(a, s, p, r, k)} ::
                FedSince(a, s, p, r, k) && CellsAt(a, s) == c && r >= rounds ==> Learn(a).period != Sum(p, |p|)
  {
    rounds := PeriodEnds(c, p, if Frozen(c, p, |p|) == 0.0 then tolerance else Abs(Frozen(c, p, |p|)));
  }

  // ----- the published period on a repeating stream -----------------------------------------

  /** The stream repeats every `n` intervals, starting with the `n` intervals captured by the lock. */
  ghost predicate RepeatsFromCapture(a: seq<real>, t: nat, n: nat) {
    n <= t <= |a| && forall i: nat {:trigger SameAfter(a, i, n)} :: t - n <= i && i + n < |a| ==> SameAfter(a, i, n)
  }

  /** One period, in the order in which it is fed to the cells. */
  function OnePeriod(a: seq<real>, t: nat, n: nat): (p: seq<real>)
    requires 0 < n <= t <= |a|
    ensures |p| == n
  {
    [a[t - 1]] + a[t - n..t - 1]
  }

  lemma {:induction false} FirstRound(a: seq<real>, t: nat, n: nat, i: nat)
    requires 0 < n && RepeatsFromCapture(a, t, n) && i < n && i <= |a| - t
    ensures a[t - 1 + i] == OnePeriod(a, t, n)[i]
  {
    if i > 0 {
      assert SameAfter(a, t - 1 + i - n, n);
    }
  }

  lemma {:induction false} RepeatingIsCyclic(a: seq<real>, t: nat, n: nat, i: nat)
    requires 0 < n && RepeatsFromCapture(a, t, n) && i <= |a| - t
    ensures a[t - 1 + i] == OnePeriod(a, t, n)[Slot(0, i, n)]
  {
    if i < n {
      SmallRemainder(i, n);
      FirstRound(a, t, n, i);
    } else {
      RepeatingIsCyclic(a, t, n, i - n);
      assert SameAfter(a, t - 1 + (i - n), n);
      DropRound(i - n, n);
    }
  }

  lemma {:induction false} RepeatingIsCyclicAll(a: seq<real>, t: nat, n: nat)
    requires 0 < n && RepeatsFromCapture(a, t, n)
    ensures Cyclic(a, t - 1, 0, OnePeriod(a, t, n))
  {
    forall i: nat {:trigger Slot(0, i, n)} | t - 1 + i < |a|
      ensures a[t - 1 + i] == OnePeriod(a, t, n)[Slot(0, i, n)]
    {
      RepeatingIsCyclic(a, t, n, i);
    }
  }

  /**
    On a stream that repeats from the captured intervals on, the published period
    after `r` rounds and `k` visits is the sum of one period plus
    0.08 * 0.92^r * (p[0] - p[k]), plus what the frozen cells keep back.
  */
  lemma {:induction false} RepeatingPeriod(a: seq<real>, c: seq<real>, p: seq<real>, r: nat, k: nat)
    requires InBand(a) && Learn(a).locked && k < Learn(a).count
    requires RepeatsFromCapture(a, LockedAt(a), Learn(a).count)
    requires p == OnePeriod(a, LockedAt(a), Learn(a).count)
    requires CapturedAt(a, LockedAt(a), c) && |c| == |p|
    requires |a| - LockedAt(a) + 1 == Visits(r, k, |p|)
    ensures Learn(a).period == Sum(p, |p|) + Deviation(p[0] - p[k], r) + FrozenError(c, p, r, k)
    ensures Learn(a).current == k
  {
    RepeatingFromCapture(a, c, p, r, k);
    PeriodOf(a, SettledTable(c, p, 0, r, k));
    EarlyCapture(a, LockedAt(a), c, p);
    TelescopingTotal(c, p, r, k);
  }

  /**
    At a revolution boundary the published period is off by the total distance of
    the frozen cells times 1 - 0.92^r; it is exact if and only if they cancel.
  */
  lemma {:induction false} PeriodAtRevolution(a: seq<real>, c: seq<real>, p: seq<real>, r: nat)
    requires InBand(a) && Learn(a).locked
    requires RepeatsFromCapture(a, LockedAt(a), Learn(a).count)
    requires p == OnePeriod(a, LockedAt(a), Learn(a).count)
    requires CapturedAt(a, LockedAt(a), c) && |c| == |p|
    requires |a| - LockedAt(a) + 1 == Visits(r, 0, |p|)
    ensures Learn(a).current == 0
    ensures Learn(a).period == Sum(p, |p|) + Closed(Frozen(c, p, |p|), r)
    ensures Learn(a).period == Sum(p, |p|) <==> Frozen(c, p, |p|) == 0.0
  {
    RepeatingFromCapture(a, c, p, r, 0);
    PeriodOf(a, SettledTable(c, p, 0, r, 0));
    EarlyCapture(a, LockedAt(a), c, p);
    BoundaryTotal(c, p, r);
  }

  lemma {:induction false} RepeatingFromCapture(a: seq<real>, c: seq<real>, p: seq<real>, r: nat, k: nat)
    requires InBand(a) && Learn(a).locked && k < Learn(a).count
    requires RepeatsFromCapture(a, LockedAt(a), Learn(a).count)
    requires p == OnePeriod(a, LockedAt(a), Learn(a).count)
    requires CapturedAt(a, LockedAt(a), c) && |c| == |p|
    requires |a| - LockedAt(a) + 1 == Visits(r, k, |p|)
    ensures Learn(a).index == k && Shows(Learn(a).lut, SettledTable(c, p, 0, r, k))
  {
    RepeatingIsCyclicAll(a, LockedAt(a), Learn(a).count);
    CapturePositive(a, LockedAt(a), c, p);
    RepeatingTable(a, c, p, r, k);
  }

  lemma {:induction false} PeriodOf(a: seq<real>, s: seq<real>)
    requires InBand(a) && Learn(a).locked && |s| == Learn(a).count && Shows(Learn(a).lut, s)
    ensures Learn(a).period == Sum(s, |s|) && Learn(a).current == Learn(a).index
  {
    LockedState(a, SHORTEST_US as real, LONGEST_US as real);
    SumOfEqual(Learn(a).lut, s, |s|);
  }

  lemma {:induction false} CapturePositive(a: seq<real>, t: nat, c: seq<real>, p: seq<real>)
    requires InBand(a) && CapturedAt(a, t, c) && p == OnePeriod(a, t, |c|)
    ensures Positive(c) && Positive(p)
  {
  }

  lemma {:induction false} EarlyCapture(a: seq<real>, t: nat, c: seq<real>, p: seq<real>)
    requires CapturedAt(a, t, c) && p == OnePeriod(a, t, |c|)
    ensures OneCellEarly(c, p)
  {
  }

  // ----- a whole ride ---------------------------------------------------------------------------

  lemma {:induction false} PeriodicPrefix(a: seq<real>, n: nat, k: nat)
    requires Periodic(a, n) && k <= |a|
    ensures Periodic(a[..k], n)
  {
    forall i: nat {:trigger SameAfter(a[..k], i, n)} | i + n < k
      ensures SameAfter(a[..k], i, n)
    {
      assert SameAfter(a, i, n);
    }
  }

  /**
    A ride that repeats every `n` intervals with no rival count: the learner locks
    at the 192nd interval with count `n`, and ever after publishes the true period
    up to the telescoped deviation and what frozen cells keep back.
  */
  lemma {:induction false} PeriodicRide(a: seq<real>, n: nat, c: seq<real>, p: seq<real>, r: nat, k: nat)
    requires InBand(a) && Candidate(n) && |a| >= CONFIDENCE_EVENTS && Periodic(a, n)
    requires Distinct(a[..CONFIDENCE_EVENTS], n)
    requires CapturedAt(a, CONFIDENCE_EVENTS, c) && |c| == n && p == OnePeriod(a, CONFIDENCE_EVENTS, n)
    requires k < n && |a| - CONFIDENCE_EVENTS + 1 == Visits(r, k, n)
    ensures Learn(a).locked && Learn(a).count == n && LockedAt(a) == CONFIDENCE_EVENTS
    ensures Learn(a).period == Sum(p, n) + Deviation(p[0] - p[k], r) + FrozenError(c, p, r, k)
    ensures Learn(a).current == 0 ==> (Learn(a).period == Sum(p, n) <==> Frozen(c, p, n) == 0.0)
  {
    PeriodicPrefix(a, n, CONFIDENCE_EVENTS);
    PeriodicStaysLocked(a, n);
    RepeatingPeriod(a, c, p, r, k);
    if k == 0 {
      PeriodAtRevolution(a, c, p, r);
    }
  }
}
