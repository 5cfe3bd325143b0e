/**
  The pattern learner as a function of the run of accepted intervals: inference
  until a lock, then the adaptive per-spoke table and the revolution counter.
*/
module Learner {
  import opened Reals
  import opened Rounds
  import opened Inference
  import opened Table
  import opened Words

  const CONFIDENCE_EVENTS := 192

  datatype Estimate = Estimate(
    locked: bool,
    count: nat,
    confidence: real,
    lut: seq<real>,
    index: nat,
    current: nat,
    period: real)

  function Blank(): Estimate {
    Estimate(false, 0, 0.0, seq(COUNT_MAX, _ => 0.0), 0, 0, 0.0)
  }

  predicate Shape(e: Estimate) {
    && |e.lut| == COUNT_MAX
    && (e.locked ==> Candidate(e.count) && e.index < e.count)
  }

  /** The table taken at a lock: the most recent `n` intervals, oldest in cell 0. */
  function Snapshot(lut: seq<real>, a: seq<real>, n: nat): (r: seq<real>)
    requires n <= |lut| == COUNT_MAX && n <= |a|
    ensures |r| == COUNT_MAX
  {
    a[|a| - n..] + lut[n..]
  }

  function Infer(e: Estimate, a: seq<real>): (r: Estimate)
    requires Shape(e) && FullWindow(a)
    ensures Shape(r)
  {
    var scored := e.(confidence := Confidence(a));
    if Locks(a) then
      scored.(locked := true, count := BestCount(a), lut := Snapshot(e.lut, a, BestCount(a)), index := 0)
    else
      scored
  }

  /** The wheel frequency published with a revolution period. */
  function WheelHz(period: real): real {
    if period > 0.0 then 1000000.0 / period else 0.0
  }

  function UpdateMap(e: Estimate, x: real): (r: Estimate)
    requires Shape(e) && e.locked
    ensures Shape(r)
  {
    var lut := e.lut[e.index := CellStep(e.lut[e.index], x)];
    var next := NextSpoke(e.index, e.count);
    var period := Sum(lut, e.count);
    e.(lut := lut, index := next, current := next, period := period)
  }

  /** The effect of the newest interval of `a`; the event counter is a 32-bit word. */
  function Ingest(e: Estimate, a: seq<real>): (r: Estimate)
    requires Shape(e) && |a| > 0
    ensures Shape(r)
  {
    var inferred := if !e.locked && |a| % WORD32 >= CONFIDENCE_EVENTS then Infer(e, a) else e;
    if inferred.locked then UpdateMap(inferred, Back(a, 0)) else inferred
  }

  /** The estimate after the accepted intervals `a`. */
  function Learn(a: seq<real>): (e: Estimate)
    ensures Shape(e)
  {
    if |a| == 0 then Blank() else Ingest(Learn(Prior(a)), a)
  }

  // ----- the lock -------------------------------------------------------------

  /** A lock is never lost, and neither the count nor the confidence changes after it. */
  lemma {:induction false} LockIsPermanent(a: seq<real>, k: nat)
    requires k <= |a| && Learn(a[..k]).locked
    ensures Learn(a).locked
    ensures Learn(a).count == Learn(a[..k]).count && Learn(a).confidence == Learn(a[..k]).confidence
  {
    if k == |a| {
      assert a[..k] == a;
    } else {
      assert Prior(a)[..k] == a[..k];
      LockIsPermanent(Prior(a), k);
    }
  }

  /** Nothing is inferred before the 192nd accepted interval. */
  lemma {:induction false} NothingBefore192(a: seq<real>)
    requires |a| < CONFIDENCE_EVENTS
    ensures Learn(a) == Blank()
  {
    if |a| != 0 {
      NothingBefore192(Prior(a));
    }
  }

  /** How many accepted intervals it took, the locking one included. */
  function LockedAt(a: seq<real>): (t: nat)
    requires Learn(a).locked
    ensures 0 < t <= |a|
  {
    if Learn(Prior(a)).locked then LockedAt(Prior(a)) else |a|
  }

  /** A prefix of a locked run is locked exactly when it reaches that far. */
  lemma {:induction false} LockedFrom(a: seq<real>, k: nat)
    requires k <= |a| && Learn(a).locked
    ensures Learn(a[..k]).locked <==> k >= LockedAt(a)
  {
    if k == |a| {
      assert a[..k] == a;
    } else {
      assert a[..k] == Prior(a)[..k];
      if Learn(Prior(a)).locked {
        LockedFrom(Prior(a), k);
      } else if Learn(Prior(a)[..k]).locked {
        LockIsPermanent(Prior(a), k);
      }
    }
  }

  /** An interval locks the learner exactly when inference is due and the scores decide so. */
  lemma {:induction false} LockStep(a: seq<real>)
    requires |a| > 0 && !Learn(Prior(a)).locked
    ensures var due := |a| % 0x1_0000_0000 >= 192;
            && (Learn(a).locked <==> due && Locks(a))
            && Learn(a).confidence == (if due then Confidence(a) else Learn(Prior(a)).confidence)
            && (Learn(a).locked ==> Learn(a).count == BestCount(a))
  {
  }

  /** After `t` intervals inference is due, and the scores decide on a lock. */
  predicate LocksAfter(a: seq<real>, t: nat) {
    t <= |a| && t % 0x1_0000_0000 >= 192 && Locks(a[..t])
  }

  lemma {:induction false} LockStepAt(a: seq<real>, t: nat)
    requires 0 < t <= |a| && !Learn(a[..t - 1]).locked
    ensures Learn(a[..t]).locked <==> LocksAfter(a, t)
    ensures Learn(a[..t]).locked ==>
              Learn(a[..t]).count == BestCount(a[..t]) && Learn(a[..t]).confidence == Confidence(a[..t])
  {
    assert Prior(a[..t]) == a[..t - 1];
    LockStep(a[..t]);
  }

  lemma {:induction false} LocksAfterIsLocked(a: seq<real>, t: nat)
    requires LocksAfter(a, t)
    ensures Learn(a[..t]).locked && Learn(a).locked
  {
    if Learn(a[..t - 1]).locked {
      assert a[..t][..t - 1] == a[..t - 1];
      LockIsPermanent(a[..t], t - 1);
    } else {
      LockStepAt(a, t);
    }
    LockIsPermanent(a, t);
  }

  /**
    The locking interval is the first at which the scores decide on a lock, and
    settles count and confidence for good.
  */
  lemma {:induction false} LockIsFirst(a: seq<real>)
    requires Learn(a).locked
    ensures LocksAfter(a, LockedAt(a))
    ensures forall t: nat :: t < LockedAt(a) ==> !LocksAfter(a, t)
    ensures Learn(a).count == BestCount(a[..LockedAt(a)]) && Learn(a).confidence == Confidence(a[..LockedAt(a)])
  {
    var t := LockedAt(a);
    LockedFrom(a, t);
    LockedFrom(a, t - 1);
    LockStepAt(a, t);
    LockIsPermanent(a, t);
    forall t': nat | t' < t && LocksAfter(a, t')
      ensures false
    {
      LocksAfterIsLocked(a, t');
      LockedFrom(a, t');
    }
  }

  /** Any run locks if and only if the scores decide so after some number of intervals at which inference is due. */
  lemma {:induction false} LocksExactly(a: seq<real>)
    ensures Learn(a).locked <==> exists t: nat :: LocksAfter(a, t)
  {
    if Learn(a).locked {
      LockIsFirst(a);
    }
    forall t: nat | LocksAfter(a, t)
      ensures Learn(a).locked
    {
      LocksAfterIsLocked(a, t);
    }
  }

  /** Before the lock nothing but the confidence is published: count, spoke number, period and frequency are zero. */
  lemma {:induction false} UnlockedState(a: seq<real>)
    requires !Learn(a).locked
    ensures var e := Learn(a);
            && e.count == 0 && e.index == 0 && e.current == 0 && e.period == 0.0 && WheelHz(e.period) == 0.0
            && forall j :: 0 <= j < |e.lut| ==> e.lut[j] == 0.0
  {
    if |a| != 0 {
      UnlockedState(Prior(a));
    }
  }

  // ----- every locked state ---------------------------------------------------

  /** The active cells all lie in `[lo, hi]`. */
  ghost predicate CellsWithin(e: Estimate, lo: real, hi: real)
    requires Shape(e)
  {
    e.locked ==> forall j :: 0 <= j < e.count ==> lo <= e.lut[j] <= hi
  }

  lemma {:induction false} UpdateKeepsCells(e: Estimate, x: real, lo: real, hi: real)
    requires Shape(e) && e.locked && CellsWithin(e, lo, hi)
    requires 0.0 < lo <= x <= hi
    ensures var r := UpdateMap(e, x);
            && CellsWithin(r, lo, hi)
            && r.current == r.index < r.count == e.count
            && r.period == Sum(r.lut, r.count)
            && r.period > 0.0
  {
    CellStaysBetween(e.lut[e.index], x, lo, hi);
    var r := UpdateMap(e, x);
    SumAtLeast(r.lut, r.count, 0);
  }

  /** A positive period and the published frequency are exact inverses. */
  lemma {:induction false} WheelHzInverts(period: real)
    requires period > 0.0
    ensures Inverse(period, WheelHz(period))
  {
  }

  /** The frequency in hertz that belongs to a period in microseconds. */
  predicate Inverse(period: real, hz: real) { period * hz == 1000000.0 }

  lemma {:induction false} SnapshotWithin(e: Estimate, a: seq<real>, lo: real, hi: real)
    requires Shape(e) && FullWindow(a)
    requires forall i :: 0 <= i < |a| ==> lo <= a[i] <= hi
    requires !e.locked
    ensures CellsWithin(Infer(e, a), lo, hi)
  {
  }

  /**
    Whatever range the accepted intervals keep to, every active cell keeps to it
    too, so no active cell is ever empty; the published period is the table's
    total.
  */
  lemma {:induction false} LockedState(a: seq<real>, lo: real, hi: real)
    requires 0.0 < lo && forall i :: 0 <= i < |a| ==> lo <= a[i] <= hi
    ensures CellsWithin(Learn(a), lo, hi)
    ensures var e := Learn(a);
            e.locked ==>
              && Candidate(e.count)
              && e.current == e.index < e.count
              && e.period == Sum(e.lut, e.count)
              && e.period > 0.0
  {
    if |a| != 0 {
      var before := Learn(Prior(a));
      LockedState(Prior(a), lo, hi);
      if before.locked {
        UpdateKeepsCells(before, Back(a, 0), lo, hi);
      } else if |a| % WORD32 >= CONFIDENCE_EVENTS && Locks(a) {
        SnapshotWithin(before, a, lo, hi);
        UpdateKeepsCells(Infer(before, a), Back(a, 0), lo, hi);
      }
    }
  }

  /** On accepted intervals that range is the acceptance band, and the frequency is the period's exact inverse. */
  lemma {:induction false} LockedEstimate(a: seq<real>)
    requires InBand(a) && Learn(a).locked
    ensures var e := Learn(a);
            && Candidate(e.count) && e.current == e.index < e.count
            && CellsWithin(e, SHORTEST_US as real, LONGEST_US as real)
            && e.period == Sum(e.lut, e.count) > 0.0
            && Inverse(e.period, WheelHz(e.period))
  {
    LockedState(a, SHORTEST_US as real, LONGEST_US as real);
    WheelHzInverts(Learn(a).period);
  }

  // ----- counting revolutions ---------------------------------------------------

  /** The receive task's test around one pulse: it was locked, and the spoke number returned to zero. */
  predicate Completes(before: Estimate, after: Estimate) {
    before.locked && before.current != 0 && after.locked && after.current == 0
  }

  /** Revolutions reported over the run. */
  function Revolutions(a: seq<real>): nat {
    if |a| == 0 then 0
    else Revolutions(Prior(a)) + if Completes(Learn(Prior(a)), Learn(a)) then 1 else 0
  }

  lemma {:induction false} RevolutionsStep(before: Estimate, a: seq<real>)
    requires Shape(before) && |a| > 0
    requires before.locked ==> before.current == before.index
    ensures var after := Ingest(before, a);
            && (after.locked ==> after.current == after.index < after.count)
            && (before.locked ==> after.locked && after.count == before.count)
            && (after.locked ==> after.count >= COUNT_MIN)
            && (before.locked ==> after.index == if before.index + 1 == before.count then 0 else before.index + 1)
            && (after.locked && !before.locked ==> after.index == 1)
  {
  }

  lemma {:induction false} OneMoreVisit(r: nat, k: nat, n: nat)
    ensures Visits(r, k + 1, n) == Visits(r, k, n) + 1
    ensures k + 1 == n ==> Visits(r + 1, 0, n) == Visits(r, k, n) + 1
    ensures Visits(0, 1, n) == 1
  {
    VisitsFrom(r, k, n);
    VisitsFrom(r, k + 1, n);
    VisitsFrom(0, 1, n);
  }

  /** Counted in visits: whole rounds of the table for the revolutions, and the spokes of the current one. */
  ghost predicate Balanced(e: Estimate, revolutions: nat, since: nat) {
    if e.locked then Visits(revolutions, e.current, e.count) == since && e.current == e.index < e.count
    else revolutions == 0
  }

  lemma {:induction false} BalanceStep(before: Estimate, a: seq<real>, revolutions: nat, since: nat)
    requires Shape(before) && |a| > 0 && Balanced(before, revolutions, since)
    ensures var after := Ingest(before, a);
            Balanced(after, if Completes(before, after) then revolutions + 1 else revolutions,
                     if before.locked then since + 1 else 1)
  {
    RevolutionsStep(before, a);
    OneMoreVisit(revolutions, before.current, before.count);
    OneMoreVisit(0, 0, Ingest(before, a).count);
  }

  /** The intervals since the lock, the locking one included. */
  function SinceLock(a: seq<real>): nat {
    if Learn(a).locked then |a| - LockedAt(a) + 1 else 0
  }

  lemma {:induction false} SinceLockStep(a: seq<real>)
    requires |a| > 0 && Learn(a).locked
    ensures SinceLock(a) == if Learn(Prior(a)).locked then SinceLock(Prior(a)) + 1 else 1
  {
  }

  lemma {:induction false} RevolutionsBalance(a: seq<real>)
    ensures Balanced(Learn(a), Revolutions(a), SinceLock(a))
  {
    if |a| != 0 {
      RevolutionsBalance(Prior(a));
      BalanceStep(Learn(Prior(a)), a, Revolutions(Prior(a)), SinceLock(Prior(a)));
      if Learn(a).locked {
        SinceLockStep(a);
      }
    }
  }

  /** Every accepted interval since the lock is either in a reported revolution or in the current spoke number. */
  lemma {:induction false} RevolutionsConserve(a: seq<real>)
    ensures var e := Learn(a);
            if e.locked then
              && Revolutions(a) * e.count + e.current == |a| - LockedAt(a) + 1
              && e.current == e.index < e.count
            else
              Revolutions(a) == 0
  {
    RevolutionsBalance(a);
    VisitsIsProduct(Revolutions(a), Learn(a).current, Learn(a).count);
  }
}
