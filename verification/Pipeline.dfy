/**
  The pulse-width detector and its composition with the pattern learner.
*/
module Pipeline {
  import opened EventStream
  import opened Learner
  import opened Pattern
  import opened Words

  datatype PulseResult = RejectShort | RejectLong | PulseAccepted

  function Classify(duration: nat): PulseResult {
    if duration < BLOCK_MIN_US then RejectShort else if duration > BLOCK_MAX_US then RejectLong else PulseAccepted
  }

  /** How many of the pulses were classified as `r`. */
  function Tally(events: seq<Event>, r: PulseResult): nat {
    if |events| == 0 then 0
    else Tally(events[..|events| - 1], r) + if Classify(events[|events| - 1].duration) == r then 1 else 0
  }

  lemma {:induction false} TallyStep(events: seq<Event>, e: Event, r: PulseResult)
    ensures Tally(events + [e], r) == Tally(events, r) + if Classify(e.duration) == r then 1 else 0
    ensures (Tally(events, r) % WORD32 + 1) % WORD32 == (Tally(events, r) + 1) % WORD32
  {
    DropLast(events, e);
  }

  /** The classes in microseconds. */
  lemma {:induction false} ClassesExactly(duration: nat)
    ensures Classify(duration) == RejectShort <==> duration < 70
    ensures Classify(duration) == RejectLong <==> duration > 600
    ensures Classify(duration) == PulseAccepted <==> 70 <= duration <= 600
  {
  }

  class Detector {
    const minimum: nat
    const maximum: nat
    var accepted: nat
    var rejectedShort: nat
    var rejectedLong: nat

    constructor (minimum: nat, maximum: nat)
      ensures this.minimum == minimum && this.maximum == maximum
      ensures accepted == rejectedShort == rejectedLong == 0
      ensures minimum == BLOCK_MIN_US && maximum == BLOCK_MAX_US ==> Counts([])
    {
      this.minimum, this.maximum := minimum, maximum;
      accepted, rejectedShort, rejectedLong := 0, 0, 0;
    }

    /** The counters are the tallies of `events` in 32-bit arithmetic. */
    ghost predicate Counts(events: seq<Event>)
      reads this
    {
      && minimum == BLOCK_MIN_US && maximum == BLOCK_MAX_US
      && accepted == Tally(events, PulseAccepted) % WORD32
      && rejectedShort == Tally(events, RejectShort) % WORD32
      && rejectedLong == Tally(events, RejectLong) % WORD32
    }

    method Ingest(duration: nat, ghost events: seq<Event>, ghost e: Event) returns (r: PulseResult)
      requires Counts(events) && e.duration == duration
      modifies this
      ensures r == Classify(duration) && Counts(events + [e])
      ensures accepted == if 70 <= duration <= 600 then (old(accepted) + 1) % WORD32 else old(accepted)
      ensures rejectedShort == if duration < 70 then (old(rejectedShort) + 1) % WORD32 else old(rejectedShort)
      ensures rejectedLong == if duration > 600 then (old(rejectedLong) + 1) % WORD32 else old(rejectedLong)
    {
      TallyStep(events, e, PulseAccepted);
      TallyStep(events, e, RejectShort);
      TallyStep(events, e, RejectLong);
      if duration < minimum {
        rejectedShort := (rejectedShort + 1) % WORD32;
        return RejectShort;
      }
      if duration > maximum {
        rejectedLong := (rejectedLong + 1) % WORD32;
        return RejectLong;
      }
      accepted := (accepted + 1) % WORD32;
      return PulseAccepted;
    }
  }

  /** Every pulse is tallied exactly once, and the accepted ones are the edges. */
  lemma {:induction false} TalliesConserve(events: seq<Event>)
    ensures Tally(events, PulseAccepted) + Tally(events, RejectShort) + Tally(events, RejectLong) == |events|
    ensures Tally(events, PulseAccepted) == |Edges(events)|
  {
    if |events| != 0 {
      TalliesConserve(events[..|events| - 1]);
    }
  }

  /** The estimate after a run of pulses. */
  function EstimateAfter(events: seq<Event>): Estimate {
    Learn(Intervals(Edges(events)))
  }

  /** Machine words, as the hardware delivers them. */
  predicate Representable(e: Event) { e.timestamp < WORD64 && e.duration < WORD32 }

  class SpokePipeline {
    const detector: Detector
    const pattern: SpokePattern

    /** Every pulse ever ingested. */
    ghost var events: seq<Event>

    ghost predicate Valid()
      reads this, detector, pattern, pattern.history, pattern.intervalLut
    {
      && detector.Counts(events)
      && pattern.Valid() && pattern.edges == Edges(events)
    }

    constructor ()
      ensures Valid() && events == []
      ensures fresh(detector) && fresh(pattern) && fresh(pattern.history) && fresh(pattern.intervalLut)
    {
      detector := new Detector(BLOCK_MIN_US, BLOCK_MAX_US);
      pattern := new SpokePattern();
      events := [];
      new;
      assert Edges([]) == [];
    }

    /** Whatever the pulses, the learner stands exactly where the simple specification says. */
    method Ingest(e: Event) returns (r: PulseResult)
      requires Valid() && Representable(e)
      modifies this, detector, pattern, pattern.history, pattern.intervalLut
      ensures Valid() && events == old(events) + [e]
      ensures r == Classify(e.duration)
      ensures pattern.View() == EstimateAfter(events)
    {
      EdgesStep(events, e);
      r := detector.Ingest(e.duration, events, e);
      events := events + [e];
      if r == PulseAccepted {
        var contributed := pattern.IngestEdge(e.timestamp);
      } else {
        assert pattern.edges + [] == pattern.edges;
      }
    }
  }

  // ----- revolutions over a run of pulses ------------------------------------------

  /** The receive task reports a revolution after the last pulse. */
  predicate Reported(events: seq<Event>)
    requires |events| > 0
  {
    && Accepted(events[|events| - 1])
    && Completes(EstimateAfter(events[..|events| - 1]), EstimateAfter(events))
  }

  /** How many revolutions the receive task reports over the run. */
  function Reports(events: seq<Event>): nat {
    if |events| == 0 then 0 else Reports(events[..|events| - 1]) + if Reported(events) then 1 else 0
  }

  /** When those revolutions were completed. */
  function RevolutionTimes(events: seq<Event>): (times: seq<nat>)
    ensures |times| == Reports(events)
  {
    if |events| == 0 then []
    else
      var prior := RevolutionTimes(events[..|events| - 1]);
      if Reported(events) then prior + [events[|events| - 1].timestamp] else prior
  }

  /** `log` says of every pulse whether a revolution was reported after it. */
  ghost predicate Logged(events: seq<Event>, log: seq<bool>) {
    |log| == |events| && forall i {:trigger log[i]} :: 0 <= i < |log| ==> log[i] == Reported(events[..i + 1])
  }

  /** The times of the pulses marked in the log. */
  function MarkedTimes(events: seq<Event>, log: seq<bool>): seq<nat>
    requires |log| == |events|
  {
    if |log| == 0 then []
    else
      var prior := MarkedTimes(events[..|events| - 1], log[..|log| - 1]);
      if log[|log| - 1] then prior + [events[|events| - 1].timestamp] else prior
  }

  lemma {:induction false} LogStep(events: seq<Event>, log: seq<bool>, e: Event, reported: bool)
    requires Logged(events, log) && reported == Reported(events + [e])
    ensures Logged(events + [e], log + [reported])
    ensures MarkedTimes(events + [e], log + [reported]) ==
            if reported then MarkedTimes(events, log) + [e.timestamp] else MarkedTimes(events, log)
  {
    var events', log' := events + [e], log + [reported];
    DropLast(events, e);
    DropLast(log, reported);
    forall i {:trigger log'[i]} | 0 <= i < |log'|
      ensures log'[i] == Reported(events'[..i + 1])
    {
      if i < |log| {
        assert events'[..i + 1] == events[..i + 1] && log'[i] == log[i];
      } else {
        assert events'[..i + 1] == events';
      }
    }
  }

  /** The marked times are those of the reported revolutions. */
  lemma {:induction false} LoggedTimes(events: seq<Event>, log: seq<bool>)
    requires Logged(events, log)
    ensures MarkedTimes(events, log) == RevolutionTimes(events)
  {
    if |events| != 0 {
      var prior, log' := events[..|events| - 1], log[..|log| - 1];
      forall i {:trigger log'[i]} | 0 <= i < |log'|
        ensures log'[i] == Reported(prior[..i + 1])
      {
        assert prior[..i + 1] == events[..i + 1] && log'[i] == log[i];
      }
      LoggedTimes(prior, log');
      assert events[..|events|] == events && log[|log| - 1] == Reported(events);
    }
  }

  /** One more pulse adds no interval, or exactly one. */
  lemma {:induction false} PulseAddsAtMostOne(events: seq<Event>)
    requires |events| > 0
    ensures var before, after := Intervals(Edges(events[..|events| - 1])), Intervals(Edges(events));
            after == before || (|after| > 0 && before == after[..|after| - 1] && Accepted(events[|events| - 1]))
  {
    var prior, e := events[..|events| - 1], events[|events| - 1];
    var a := Intervals(Edges(prior));
    assert events == prior + [e];
    assert a + [] == a;
    EdgesStep(prior, e);
    if Accepted(e) {
      IntervalsStep(Edges(prior), e.timestamp);
      var x := Contribution(Edges(prior), e.timestamp);
      assert |x| == 1 ==> (a + x)[..|a|] == a;
    } else {
      assert Edges(prior) + [] == Edges(prior);
    }
  }

  /** Rejected pulses and out-of-range intervals neither add nor lose a revolution. */
  lemma {:induction false} ReportsAreRevolutions(events: seq<Event>)
    ensures Reports(events) == Revolutions(Intervals(Edges(events)))
  {
    if |events| != 0 {
      ReportsAreRevolutions(events[..|events| - 1]);
      PulseAddsAtMostOne(events);
    }
  }

  /**
    Conservation: once locked, the reported revolutions and the current spoke
    number account for every accepted interval since the locking one.
  */
  lemma {:induction false} RevolutionConservation(events: seq<Event>)
    ensures var a, e := Intervals(Edges(events)), EstimateAfter(events);
            if e.locked then Reports(events) * e.count + e.current == |a| - LockedAt(a) + 1
            else Reports(events) == 0
  {
    ReportsAreRevolutions(events);
    RevolutionsConserve(Intervals(Edges(events)));
  }
}
