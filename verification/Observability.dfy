/**
  When a repeating wheel is observable.  Accepted intervals are whole
  microseconds, so two of them are equal or clearly apart, and whether and when a
  periodic run locks can be read off its windows.
*/
module Observability {
  import opened EventStream
  import opened Reals
  import opened Inference
  import opened Learner
  import opened Rounds
  import opened Runs
  import opened Table
  import opened Words

  lemma {:induction false} GrainedPrefix(a: seq<real>, k: nat)
    requires Grained(a) && k <= |a|
    ensures Grained(a[..k])
  {
    forall i, j {:trigger Back(a[..k], i), Back(a[..k], j)} | 0 <= i < k && 0 <= j < k
      ensures Distinguishable(Back(a[..k], i), Back(a[..k], j))
    {
      var d := |a| - k;
      assert Back(a[..k], i) == Back(a, i + d) && Back(a[..k], j) == Back(a, j + d);
    }
  }

  /** Inference is due after `t` intervals, and the window repeats under no rival count. */
  ghost predicate Observable(a: seq<real>, n: nat, t: nat) {
    t <= |a| && t % 0x1_0000_0000 >= 192 && Unrivalled(a[..t], n)
  }

  /** Then, and only then, the scores decide on a lock. */
  lemma {:induction false} ObservableIsLock(a: seq<real>, n: nat, t: nat)
    requires InBand(a) && Grained(a) && Candidate(n) && Periodic(a, n)
    ensures Observable(a, n, t) <==> LocksAfter(a, t)
    ensures LocksAfter(a, t) ==> BestCount(a[..t]) == n && Confidence(a[..t]) == 1.0
  {
    if t <= |a| && t % 0x1_0000_0000 >= 192 {
      PeriodicPrefix(a, n, t);
      GrainedPrefix(a, t);
      PeriodicRepeats(a[..t], n);
      GrainedLocksExactly(a[..t], n);
    }
  }

  /**
    A periodic run of any length locks if and only if after some number of
    intervals, inference being due, the window repeats under no other candidate
    count; it locks at the first such interval, with the right count and full
    confidence.
  */
  lemma {:induction false} PeriodicLocksExactly(a: seq<real>, n: nat)
    requires InBand(a) && Grained(a) && Candidate(n) && Periodic(a, n)
    ensures Learn(a).locked <==> exists t: nat :: Observable(a, n, t)
    ensures Learn(a).locked ==>
              && Learn(a).count == n && Learn(a).confidence == 1.0
              && Observable(a, n, LockedAt(a))
              && forall t: nat :: t < LockedAt(a) ==> !Observable(a, n, t)
  {
    forall t: nat
      ensures Observable(a, n, t) <==> LocksAfter(a, t)
    {
      ObservableIsLock(a, n, t);
    }
    LocksExactly(a);
    if Learn(a).locked {
      LockIsFirst(a);
      ObservableIsLock(a, n, LockedAt(a));
    }
  }

  /** Of real edges, whose accepted intervals are whole microseconds, the same holds without further ado. */
  lemma {:induction false} PeriodicEdgesLockExactly(edges: seq<nat>, n: nat)
    requires Candidate(n) && Periodic(Intervals(edges), n)
    ensures var a := Intervals(edges);
            && (Learn(a).locked <==> exists t: nat :: Observable(a, n, t))
            && (Learn(a).locked ==> Learn(a).count == n && Learn(a).confidence == 1.0)
  {
    IntervalsGrained(edges);
    PeriodicLocksExactly(Intervals(edges), n);
  }

  /**
    Whenever it locks, a periodic ride publishes the true period ever after, up to
    the telescoped deviation and what frozen cells keep back; at revolutions it is
    exact if and only if their distances cancel.
  */
  lemma {:induction false} ObservableRide(a: seq<real>, n: nat, c: seq<real>, p: seq<real>, r: nat, k: nat)
    requires InBand(a) && Grained(a) && Candidate(n) && Periodic(a, n) && Learn(a).locked
    requires CapturedAt(a, LockedAt(a), c) && |c| == n && p == OnePeriod(a, LockedAt(a), n)
    requires k < n && |a| - LockedAt(a) + 1 == Visits(r, k, n)
    ensures Learn(a).count == n
    ensures Learn(a).period == Sum(p, n) + Deviation(p[0] - p[k], r) + FrozenError(c, p, r, k)
    ensures Learn(a).current == 0 ==> (Learn(a).period == Sum(p, n) <==> Frozen(c, p, n) == 0.0)
  {
    PeriodicLocksExactly(a, n);
    RepeatingPeriod(a, c, p, r, k);
    if k == 0 {
      PeriodAtRevolution(a, c, p, r);
    }
  }

  // ----- one odd gap ---------------------------------------------------------------

  /**
    Counting back from the newest, every interval is `x` but for one `y` in each
    `n`, the newest of them `b` intervals back.
  */
  ghost predicate OneOdd(w: seq<real>, n: nat, b: nat, x: real, y: real) {
    b < n && forall i: nat {:trigger Back(w, i)} :: i < |w| ==> Back(w, i) == if i % n == b then y else x
  }

  lemma {:induction false} OneOddIsPeriodic(w: seq<real>, n: nat, b: nat, x: real, y: real)
    requires OneOdd(w, n, b, x, y)
    ensures Periodic(w, n)
  {
    forall i: nat {:trigger SameAfter(w, i, n)} | i + n < |w|
      ensures SameAfter(w, i, n)
    {
      var later := |w| - 1 - (i + n);
      DropRound(later, n);
      assert w[i + n] == Back(w, later) && w[i] == Back(w, later + n);
    }
  }

  lemma {:induction false} OneOfTwo(a: seq<real>, n: nat, t: nat, b: nat, x: real, y: real, i: nat)
    requires Periodic(a, n) && 0 < n <= t <= |a| && OneOdd(a[..t], n, b, x, y) && i < |a|
    ensures a[i] == x || a[i] == y
  {
    if i < t {
      assert a[i] == Back(a[..t], t - 1 - i);
    } else {
      assert SameAfter(a, i - n, n);
      OneOfTwo(a, n, t, b, x, y, i - n);
    }
  }

  lemma {:induction false} OneOddIsGrained(a: seq<real>, n: nat, t: nat, b: nat, x: real, y: real)
    requires Periodic(a, n) && 0 < n <= t <= |a| && OneOdd(a[..t], n, b, x, y) && Abs(x - y) >= 1.0
    ensures Grained(a)
  {
    forall i, j {:trigger Back(a, i), Back(a, j)} | 0 <= i < |a| && 0 <= j < |a|
      ensures Distinguishable(Back(a, i), Back(a, j))
    {
      OneOfTwo(a, n, t, b, x, y, |a| - 1 - i);
      OneOfTwo(a, n, t, b, x, y, |a| - 1 - j);
    }
  }

  /** Shifting by another candidate count moves the odd interval off itself. */
  lemma {:induction false} OddMovesOff(b: nat, n: nat, m: nat)
    requires b < n && 0 < m < 2 * n && m != n
    ensures (b + m) % n != b
  {
    if b + m < n {
      SmallRemainder(b + m, n);
    } else {
      DropRound(b + m - n, n);
      if b + m - n < n {
        SmallRemainder(b + m - n, n);
      } else {
        DropRound(b + m - 2 * n, n);
        SmallRemainder(b + m - 2 * n, n);
      }
    }
  }

  /** With the odd interval among the newest `2 * m` some pair of intervals `m` apart differs. */
  lemma {:induction false} OddMismatch(w: seq<real>, n: nat, b: nat, x: real, y: real, m: nat)
    requires OneOdd(w, n, b, x, y) && x != y && 0 < m < 2 * n && m != n && b < 2 * m
    ensures !Repeats(w, m)
  {
    if 2 * m <= |w| {
      SmallRemainder(b, n);
      if b < m {
        OddMovesOff(b, n, m);
        assert Back(w, b) == y && Back(w, b + m) == x;
      } else {
        SmallRemainder(b - m, n);
        assert Back(w, b - m) == x && Back(w, b - m + m) == y;
      }
    }
  }

  /** One odd gap leaves no rival exactly when it is among the newest 32 intervals. */
  lemma {:induction false} OddIsObserved(w: seq<real>, n: nat, b: nat, x: real, y: real)
    requires OneOdd(w, n, b, x, y) && x != y && 24 < n <= COUNT_MAX && FullWindow(w)
    ensures Unrivalled(w, n) <==> b < 32
  {
    if b < 32 {
      forall m | Candidate(m) && m != n
        ensures !Repeats(w, m)
      {
        OddMismatch(w, n, b, x, y, m);
      }
    } else {
      forall i | 0 <= i < COUNT_MIN
        ensures Back(w, i) == Back(w, i + COUNT_MIN)
      {
        SmallRemainder(i, n);
        SmallRemainder(i + COUNT_MIN, n);
      }
      assert Repeats(w, COUNT_MIN);
    }
  }

  function OneFurther(b: nat, n: nat): nat { if b + 1 == n then 0 else b + 1 }

  lemma {:induction false} RemainderMovesOn(i: nat, n: nat, b: nat)
    requires b < n && 0 < i
    ensures i % n == OneFurther(b, n) <==> (i - 1) % n == b
  {
    if i < n {
      SmallRemainder(i, n);
      SmallRemainder(i - 1, n);
    } else if i == n {
      DropRound(0, n);
      SmallRemainder(n - 1, n);
    } else {
      DropRound(i - n, n);
      DropRound(i - 1 - n, n);
      RemainderMovesOn(i - n, n, b);
    }
  }

  /** With each further interval of a periodic run the odd one lies one further back, until a new one comes. */
  lemma {:induction false} OddMovesBack(a: seq<real>, n: nat, t: nat, b: nat, x: real, y: real)
    requires Periodic(a, n) && n <= t < |a| && OneOdd(a[..t], n, b, x, y)
    ensures OneOdd(a[..t + 1], n, OneFurther(b, n), x, y)
  {
    var w, w' := a[..t], a[..t + 1];
    var b' := OneFurther(b, n);
    forall i: nat {:trigger Back(w', i)} | i < t + 1
      ensures Back(w', i) == if i % n == b' then y else x
    {
      if i > 0 {
        RemainderMovesOn(i, n, b);
        assert Back(w', i) == Back(w, i - 1);
      } else {
        assert SameAfter(a, t - n, n);
        SmallRemainder(n - 1, n);
        SmallRemainder(0, n);
        assert Back(w', 0) == a[t] == a[t - n] == Back(w, n - 1);
      }
    }
  }

  /** Until the odd gap is among the newest 32 intervals there is nothing to lock on. */
  lemma {:induction false} OddStaysHidden(a: seq<real>, n: nat, t: nat, b: nat, x: real, y: real)
    requires Periodic(a, n) && 24 < n <= COUNT_MAX && x != y && 32 <= b < n
    requires CONFIDENCE_EVENTS <= t <= |a| && t - CONFIDENCE_EVENTS < n - b
    requires OneOdd(a[..CONFIDENCE_EVENTS], n, b, x, y)
    ensures OneOdd(a[..t], n, b + (t - CONFIDENCE_EVENTS), x, y) && !Observable(a, n, t)
  {
    if t > CONFIDENCE_EVENTS {
      OddStaysHidden(a, n, t - 1, b, x, y);
      OddMovesBack(a, n, t - 1, b + (t - 1 - CONFIDENCE_EVENTS), x, y);
    }
    OddIsObserved(a[..t], n, b + (t - CONFIDENCE_EVENTS), x, y);
  }

  /**
    When a wheel locks whose odd gap lay `b` intervals back at the 192nd: there
    and then, or when the gap next passes.
  */
  function OddLockTime(n: nat, b: nat): nat
    requires b < n
  {
    if b < 32 then CONFIDENCE_EVENTS else CONFIDENCE_EVENTS + n - b
  }

  lemma {:induction false} OddReturns(a: seq<real>, n: nat, b: nat, x: real, y: real)
    requires Periodic(a, n) && 24 < n <= COUNT_MAX && x != y && 32 <= b < n
    requires |a| >= OddLockTime(n, b) && OneOdd(a[..CONFIDENCE_EVENTS], n, b, x, y)
    ensures OneOdd(a[..OddLockTime(n, b)], n, 0, x, y)
  {
    var t := OddLockTime(n, b);
    OddStaysHidden(a, n, t - 1, b, x, y);
    assert b + (t - 1 - CONFIDENCE_EVENTS) == n - 1;
    OddMovesBack(a, n, t - 1, n - 1, x, y);
    assert OneFurther(n - 1, n) == 0;
  }

  lemma {:induction false} FirstObservation(a: seq<real>, n: nat, b: nat, x: real, y: real, t: nat)
    requires Periodic(a, n) && 24 < n <= COUNT_MAX && x != y && b < n
    requires |a| >= CONFIDENCE_EVENTS && OneOdd(a[..CONFIDENCE_EVENTS], n, b, x, y)
    requires t <= |a| && t <= OddLockTime(n, b)
    ensures Observable(a, n, t) <==> t == OddLockTime(n, b)
  {
    if t >= CONFIDENCE_EVENTS {
      if b < 32 {
        OddIsObserved(a[..t], n, b, x, y);
      } else if t < OddLockTime(n, b) {
        OddStaysHidden(a, n, t, b, x, y);
      } else {
        OddReturns(a, n, b, x, y);
        OddIsObserved(a[..t], n, 0, x, y);
      }
    }
  }

  /**
    A wheel of 25 to 48 spokes with one gap at least a microsecond off always
    locks, with the right count and full confidence: at the 192nd interval if the
    odd gap is among the newest 32 then, and otherwise when it next passes.  So
    the bound of 24 on unobservable periods is sharp.
  */
  lemma {:induction false} OneOddSpokeLocks(a: seq<real>, n: nat, b: nat, x: real, y: real)
    requires InBand(a) && Periodic(a, n) && 24 < n <= COUNT_MAX && Abs(x - y) >= 1.0 && b < n
    requires |a| >= CONFIDENCE_EVENTS && OneOdd(a[..CONFIDENCE_EVENTS], n, b, x, y)
    ensures Learn(a).locked <==> |a| >= OddLockTime(n, b)
    ensures Learn(a).locked ==> Learn(a).count == n && Learn(a).confidence == 1.0 && LockedAt(a) == OddLockTime(n, b)
  {
    var t := OddLockTime(n, b);
    OneOddIsGrained(a, n, CONFIDENCE_EVENTS, b, x, y);
    PeriodicLocksExactly(a, n);
    if t <= |a| {
      FirstObservation(a, n, b, x, y, t);
    }
    if Learn(a).locked {
      var t' := LockedAt(a);
      if t' <= t {
        FirstObservation(a, n, b, x, y, t');
      }
    }
  }

  // ----- which counts are observable ------------------------------------------------

  /** Some exactly repeating wheel of `n` spokes locks with that count. */
  ghost predicate CountObservable(n: nat) {
    exists a: seq<real> :: InBand(a) && Grained(a) && Periodic(a, n) && Learn(a).locked && Learn(a).count == n
  }

  lemma {:induction false} LargeCountObservable(n: nat)
    requires 24 < n <= COUNT_MAX
    ensures CountObservable(n)
  {
    var x, y := 1000.0, 1300.0;
    var w := seq(CONFIDENCE_EVENTS, i requires 0 <= i < CONFIDENCE_EVENTS =>
                   if (CONFIDENCE_EVENTS - 1 - i) % n == 0 then y else x);
    assert OneOdd(w, n, 0, x, y);
    OneOddIsPeriodic(w, n, 0, x, y);
    assert w[..CONFIDENCE_EVENTS] == w;
    OneOddIsGrained(w, n, CONFIDENCE_EVENTS, 0, x, y);
    OneOddSpokeLocks(w, n, 0, x, y);
  }

  /**
    Of the counts from 16 to 48 exactly those above 24 can be learned from an
    exactly repeating wheel; with 24 spokes or fewer none is, even or not.
  */
  lemma {:induction false} CountsAbove24(n: nat)
    requires Candidate(n)
    ensures CountObservable(n) <==> n > 24
  {
    if n > 24 {
      LargeCountObservable(n);
    }
    forall a: seq<real> | n <= 24 && InBand(a) && Periodic(a, n)
      ensures !Learn(a).locked
    {
      ShortPeriodNeverLocks(a, n);
    }
  }

  // ----- one odd gap and the gates ------------------------------------------------------

  /** All cells are `x` but cell `j`, which is `y`. */
  ghost predicate AllBut(c: seq<real>, j: nat, x: real, y: real) {
    j < |c| && forall i :: 0 <= i < |c| ==> c[i] == if i == j then y else x
  }

  lemma {:induction false} CaptureOfOdd(a: seq<real>, n: nat, t: nat, b: nat, x: real, y: real, c: seq<real>)
    requires CapturedAt(a, t, c) && |c| == n && OneOdd(a[..t], n, b, x, y)
    ensures AllBut(c, n - 1 - b, x, y)
  {
    forall i | 0 <= i < n
      ensures c[i] == if i == n - 1 - b then y else x
    {
      SmallRemainder(n - 1 - i, n);
      assert c[i] == Back(a[..t], n - 1 - i);
    }
  }

  /** The odd cell is fed `x`, the one behind it is fed `y`, and every other cell what it holds. */
  lemma {:induction false} FrozenOfOdd(c: seq<real>, p: seq<real>, j: nat, x: real, y: real, m: nat)
    requires OneCellEarly(c, p) && |c| > 1 && AllBut(c, j, x, y) && x > 0.0 && y > 0.0 && m <= |c|
    ensures Frozen(c, p, m) == (if j < m && !Captured(y, x) then y - x else 0.0)
                             + (if NextSpoke(j, |c|) < m && !Captured(x, y) then x - y else 0.0)
  {
    if m != 0 {
      FrozenOfOdd(c, p, j, x, y, m - 1);
      assert p[m - 1] == if m == 1 then c[|c| - 1] else c[m - 2];
    }
  }

  /** The distance kept back by the cells frozen around one odd gap. */
  function OddError(x: real, y: real): real {
    (if Captured(y, x) then 0.0 else y - x) + (if Captured(x, y) then 0.0 else x - y)
  }

  lemma {:induction false} OddFrozen(a: seq<real>, n: nat, t: nat, b: nat, x: real, y: real, c: seq<real>, p: seq<real>)
    requires InBand(a) && 1 < n && CapturedAt(a, t, c) && |c| == n && p == OnePeriod(a, t, n)
    requires OneOdd(a[..t], n, b, x, y)
    ensures Frozen(c, p, n) == OddError(x, y)
  {
    CaptureOfOdd(a, n, t, b, x, y, c);
    EarlyCapture(a, t, c, p);
    CapturePositive(a, t, c, p);
    assert c[n - 1 - b] == y && c[if n - 1 - b == 0 then 1 else 0] == x;
    FrozenOfOdd(c, p, n - 1 - b, x, y, n);
  }

  lemma {:induction false} OddAtLock(a: seq<real>, n: nat, b: nat, x: real, y: real)
    requires Periodic(a, n) && 24 < n <= COUNT_MAX && x != y && b < n
    requires |a| >= OddLockTime(n, b) && OneOdd(a[..CONFIDENCE_EVENTS], n, b, x, y)
    ensures OneOdd(a[..OddLockTime(n, b)], n, if b < 32 then b else 0, x, y)
  {
    if b >= 32 {
      OddReturns(a, n, b, x, y);
    }
  }

  /**
    A wheel with one odd gap publishes the true period at revolutions if and only
    if each of the two intervals passes the other's gate, or neither does.
  */
  lemma {:induction false} OneOddPeriod(a: seq<real>, n: nat, b: nat, x: real, y: real,
                                        c: seq<real>, p: seq<real>, r: nat)
    requires InBand(a) && Periodic(a, n) && 24 < n <= COUNT_MAX && Abs(x - y) >= 1.0 && b < n
    requires |a| >= OddLockTime(n, b) && OneOdd(a[..CONFIDENCE_EVENTS], n, b, x, y)
    requires CapturedAt(a, OddLockTime(n, b), c) && |c| == n && p == OnePeriod(a, OddLockTime(n, b), n)
    requires |a| - OddLockTime(n, b) + 1 == Visits(r, 0, n)
    ensures Learn(a).locked && Learn(a).count == n && Learn(a).current == 0
    ensures Learn(a).period == Sum(p, n) + Closed(OddError(x, y), r)
    ensures Learn(a).period == Sum(p, n) <==> (Captured(x, y) <==> Captured(y, x))
  {
    OneOddSpokeLocks(a, n, b, x, y);
    OddAtLock(a, n, b, x, y);
    OddFrozen(a, n, OddLockTime(n, b), if b < 32 then b else 0, x, y, c, p);
    PeriodicRepeatsFrom(a, n, OddLockTime(n, b));
    PeriodAtRevolution(a, c, p, r);
  }

  lemma {:induction false} PeriodicRepeatsFrom(a: seq<real>, n: nat, t: nat)
    requires Periodic(a, n) && n <= t <= |a|
    ensures RepeatsFromCapture(a, t, n)
  {
  }

  /**
    Thirty spokes, one gap 300 microseconds wider than the others, up to the first
    revolution boundary after the lock.
  */
  function UnevenWheel(): (a: seq<real>)
    ensures |a| == 221
  {
    seq(221, i requires 0 <= i < 221 => if i % 30 == 8 then 1300.0 else 1000.0)
  }

  lemma {:induction false} UnevenWheelRepeats()
    ensures InBand(UnevenWheel()) && Periodic(UnevenWheel(), 30)
    ensures OneOdd(UnevenWheel()[..192], 30, 3, 1000.0, 1300.0)
  {
    var a := UnevenWheel();
    forall i: nat {:trigger SameAfter(a, i, 30)} | i + 30 < |a|
      ensures SameAfter(a, i, 30)
    {
    }
  }

  /** At the first revolution boundary after the lock. */
  lemma {:induction false} OddFirstRevolution(a: seq<real>, n: nat, b: nat, x: real, y: real)
    requires InBand(a) && Periodic(a, n) && 24 < n <= COUNT_MAX && Abs(x - y) >= 1.0 && b < n
    requires |a| == OddLockTime(n, b) + n - 1 && OneOdd(a[..CONFIDENCE_EVENTS], n, b, x, y)
    ensures Learn(a).locked && Learn(a).count == n && LockedAt(a) == OddLockTime(n, b) && Learn(a).current == 0
    ensures Learn(a).period == Sum(OnePeriod(a, OddLockTime(n, b), n), n) + 0.08 * OddError(x, y)
  {
    var t := OddLockTime(n, b);
    OneOddSpokeLocks(a, n, b, x, y);
    assert Visits(1, 0, n) == n + Visits(0, 0, n);
    OneOddPeriod(a, n, b, x, y, a[t - n..t], OnePeriod(a, t, n), 1);
    assert Shrunk(OddError(x, y), 1) == 0.92 * Shrunk(OddError(x, y), 0);
  }

  /**
    It locks at the 192nd interval with the right count, and its first full
    revolution is published 24 microseconds short.
  */
  lemma {:induction false} UnevenWheelIsWrong(a: seq<real>)
    requires a == UnevenWheel()
    ensures InBand(a) && Periodic(a, 30)
    ensures Learn(a).locked && Learn(a).count == 30 && LockedAt(a) == 192 && Learn(a).current == 0
    ensures Learn(a).period == Sum(OnePeriod(a, 192, 30), 30) - 24.0
  {
    var x, y := 1000.0, 1300.0;
    UnevenWheelRepeats();
    OddFirstRevolution(a, 30, 3, x, y);
    assert OddError(x, y) == -300.0;
  }
}
