/**
  Order across captures: when each callback comes at least its own captured
  length after the one before, all rebuilt events are in order, and so are the
  revolutions and the notification attempts they cause.
*/
module Pacing {
  import opened Adapter
  import opened CscService
  import opened EventStream
  import opened Pipeline
  import opened RmtAdapter
  import opened Timeline
  import opened Words

  /** The clock at the last callback. */
  function Clock(work: seq<Capture>): nat {
    if |work| == 0 then 0 else work[|work| - 1].now
  }

  /** Each capture is no longer than the time since the callback before it. */
  ghost predicate Paced(work: seq<Capture>, hz: nat)
    requires hz > 0
  {
    |work| > 0 ==>
      var prior, c := work[..|work| - 1], work[|work| - 1];
      Clock(prior) + Length(Phases(c.symbols), hz) <= c.now && Paced(prior, hz)
  }

  lemma {:induction false} DisjointAppend(e: seq<Event>, f: seq<Event>, mid: nat, hi: nat)
    requires Disjoint(e) && Within(e, 0, mid) && Disjoint(f) && Within(f, mid, hi) && mid <= hi
    ensures Disjoint(e + f) && Within(e + f, 0, hi)
  {
  }

  lemma {:induction false} PrefixInOrder(e: seq<Event>, lo: nat, hi: nat)
    requires Disjoint(e) && Within(e, lo, hi)
    ensures Disjoint(Fitting(e)) && Within(Fitting(e), lo, hi)
  {
  }

  /**
    All blockages of all captures, and those the queue kept, are ordered, pairwise
    disjoint, and over by the last callback.
  */
  lemma {:induction false} CapturesInOrder(work: seq<Capture>, hz: nat)
    requires hz > 0 && Paced(work, hz)
    ensures var captures := CapturesOf(work, hz);
            && Disjoint(AllOf(captures)) && Within(AllOf(captures), 0, Clock(work))
            && Disjoint(KeptOf(captures)) && Within(KeptOf(captures), 0, Clock(work))
  {
    if |work| != 0 {
      var prior, c := work[..|work| - 1], work[|work| - 1];
      var captures, e := CapturesOf(prior, hz), Captured(c.symbols, c.now, hz);
      CapturesInOrder(prior, hz);
      CaptureInOrder(c.symbols, c.now, hz);
      var begin := Start(Phases(c.symbols), c.now, hz);
      assert Clock(prior) <= begin;
      LaterStart(e, Clock(prior), begin, c.now);
      PrefixInOrder(e, Clock(prior), c.now);
      DisjointAppend(AllOf(captures), e, Clock(prior), c.now);
      DisjointAppend(KeptOf(captures), Fitting(e), Clock(prior), c.now);
      DropLast(captures, e);
    }
  }

  lemma {:induction false} LaterStart(e: seq<Event>, lo: nat, begin: nat, hi: nat)
    requires Within(e, begin, hi) && lo <= begin
    ensures Within(e, lo, hi)
  {
  }

  ghost predicate NoneAfter(times: seq<nat>, us: nat) { forall i :: 0 <= i < |times| ==> times[i] <= us }

  lemma {:induction false} OrderedAppend(times: seq<nat>, us: nat)
    requires Ordered(0, times) && NoneAfter(times, us) && us < WORD64
    ensures Ordered(0, times + [us]) && NoneAfter(times + [us], us)
  {
  }

  /** Whichever of the events are marked, their times are in order. */
  lemma {:induction false} MarkedInOrder(events: seq<Event>, log: seq<bool>, hi: nat)
    requires |log| == |events| && Disjoint(events) && Within(events, 0, hi) && hi < WORD64
    ensures Ordered(0, MarkedTimes(events, log))
    ensures if |events| == 0 then MarkedTimes(events, log) == []
            else NoneAfter(MarkedTimes(events, log), events[|events| - 1].timestamp)
  {
    if |events| != 0 {
      var prior, us := events[..|events| - 1], events[|events| - 1].timestamp;
      var times := MarkedTimes(prior, log[..|log| - 1]);
      MarkedInOrder(prior, log[..|log| - 1], hi);
      if |prior| > 0 {
        assert events[|prior| - 1].timestamp + events[|prior| - 1].duration <= events[|prior|].timestamp;
        assert NoneAfter(times, prior[|prior| - 1].timestamp);
      }
      OrderedAppend(times, us);
    }
  }

  lemma {:induction false} RevolutionsInOrder(events: seq<Event>, hi: nat)
    requires Disjoint(events) && Within(events, 0, hi) && hi < WORD64
    ensures Ordered(0, RevolutionTimes(events))
  {
    var log := seq(|events|, i requires 0 <= i < |events| => Reported(events[..i + 1]));
    LoggedTimes(events, log);
    MarkedInOrder(events, log, hi);
  }

  /** Events in order keep the rate, whatever revolutions they contain. */
  lemma {:induction false} OrderedEventsKeepTheRate(events: seq<Event>, hi: nat)
    requires Disjoint(events) && Within(events, 0, hi) && hi < WORD64
    ensures KeepsRate(RevolutionTimes(events))
  {
    RevolutionsInOrder(events, hi);
    RateIsLimited(0, RevolutionTimes(events));
  }

  /** Attempts at these times come at least a second apart, later ones later, and none is later than it need be. */
  ghost predicate KeepsRate(times: seq<nat>) {
    var s := Attempts(0, times);
    && (forall i :: 0 <= i < |s| - 1 ==> s[i + 1] - s[i] >= NOTIFY_INTERVAL_US)
    && (|times| > 0 ==> s[|s| - 1] <= times[|times| - 1] < s[|s| - 1] + NOTIFY_INTERVAL_US)
  }

  /** So paced captures keep the promised rate. */
  lemma {:induction false} PacedCapturesKeepTheRate(work: seq<Capture>, hz: nat)
    requires hz > 0 && Paced(work, hz) && Clock(work) < WORD64
    ensures KeepsRate(RevolutionTimes(KeptOf(CapturesOf(work, hz))))
  {
    CapturesInOrder(work, hz);
    OrderedEventsKeepTheRate(KeptOf(CapturesOf(work, hz)), Clock(work));
  }
}
