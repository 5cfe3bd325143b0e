/**
  The pattern learner, updated in place.  A class invariant ties every field to
  the run of edges seen so far.
*/
module Pattern {
  import opened Reals
  import opened Inference
  import opened EventStream
  import opened Table
  import opened Learner
  import opened Words
  import Ranking

  const HISTORY_SIZE := 2 * COUNT_MAX + 8

  class SpokePattern {
    const history: array<real>
    const intervalLut: array<real>
    var historyHead: nat
    var historySize: nat
    var lastEdge: nat
    var acceptedEvents: nat
    var spokeIndex: nat
    var spokeCount: nat
    var currentSpoke: nat
    var countLocked: bool
    var confidence: real
    var revolutionPeriod: real
    var wheelHz: real

    /** Every edge ever ingested. */
    ghost var edges: seq<nat>

    /** The ring holds the newest intervals of `a`, newest just behind the head. */
    ghost predicate Ring(a: seq<real>)
      reads this, history
    {
      && history.Length == HISTORY_SIZE
      && historyHead < HISTORY_SIZE
      && historySize <= |a|
      && historySize == (if |a| < HISTORY_SIZE then |a| else HISTORY_SIZE)
      && forall i :: 0 <= i < historySize ==> history[BackSlot(historyHead, i)] == Back(a, i)
    }

    /** The estimate the fields stand for. */
    ghost function View(): Estimate
      reads this, intervalLut
    {
      Estimate(countLocked, spokeCount, confidence, intervalLut[..], spokeIndex, currentSpoke, revolutionPeriod)
    }

    ghost predicate Valid()
      reads this, history, intervalLut
    {
      var a := Intervals(edges);
      && history != intervalLut && intervalLut.Length == COUNT_MAX
      && Ring(a)
      && lastEdge == LastEdge(edges)
      && acceptedEvents == |a| % WORD32
      && View() == Learn(a)
      && wheelHz == WheelHz(revolutionPeriod)
    }

    constructor ()
      ensures Valid() && edges == []
      ensures fresh(history) && fresh(intervalLut)
    {
      history := new real[HISTORY_SIZE](_ => 0.0);
      intervalLut := new real[COUNT_MAX](_ => 0.0);
      historyHead, historySize, lastEdge, acceptedEvents, spokeIndex := 0, 0, 0, 0, 0;
      spokeCount, currentSpoke, countLocked := 0, 0, false;
      confidence, revolutionPeriod, wheelHz := 0.0, 0.0, 0.0;
      edges := [];
      new;
      assert intervalLut[..] == Blank().lut;
    }

    /**
      Every locked learner: the count is a candidate, the spoke number is the index
      below it, every active cell lies in the acceptance band, and period and
      frequency are the cells' total and its exact inverse.
    */
    lemma {:induction false} LockedFields()
      requires Valid() && countLocked
      ensures 16 <= spokeCount <= 48 && currentSpoke == spokeIndex < spokeCount
      ensures CellsWithin(View(), 70.0, 15000.0)
      ensures revolutionPeriod == Sum(View().lut, spokeCount) > 0.0
      ensures Inverse(revolutionPeriod, wheelHz)
    {
      LockedEstimate(Intervals(edges));
    }

    /** The `n`-th most recent interval, straight from the ring. */
    method Recent(n: nat, ghost a: seq<real>) returns (x: real)
      requires Ring(a) && n < historySize
      ensures x == Back(a, n)
    {
      x := history[(historyHead + HISTORY_SIZE - 1 - n) % HISTORY_SIZE];
      assert (historyHead + HISTORY_SIZE - 1 - n) % HISTORY_SIZE == BackSlot(historyHead, n);
    }

    method ScoreCandidate(n: nat, ghost a: seq<real>) returns (score: real)
      requires Ring(a) && Candidate(n) && 2 * n <= historySize
      ensures score == Score(a, n)
    {
      var error, mean := 0.0, 0.0;
      for i := 0 to n
        invariant error == Sum(Errors(a, n), i)
        invariant mean == Sum(Means(a, n), i)
      {
        var x := Recent(i, a);
        var y := Recent(i + n, a);
        assert Means(a, n)[i] == 0.5 * (x + y) && Errors(a, n)[i] == Abs(x - y);
        mean := mean + 0.5 * (x + y);
        error := error + Abs(x - y);
      }
      score := Weigh(error, mean, n);
    }

    /** One pass over the candidates, keeping the best score and the second best. */
    method Rank(ghost a: seq<real>) returns (bestCount: nat, best: real, second: real)
      requires Ring(a) && InBand(a) && historySize == HISTORY_SIZE
      ensures bestCount == BestCount(a)
      ensures best == Scores(a)[bestCount - COUNT_MIN]
      ensures second == Ranking.Second(Scores(a))
    {
      best, second, bestCount := Ranking.FLT_MAX, Ranking.FLT_MAX, 0;
      ghost var s := Scores(a);
      ScoresRanked(a);
      var n := COUNT_MIN;
      while n <= COUNT_MAX
        invariant COUNT_MIN <= n <= COUNT_MAX + 1
        invariant n == COUNT_MIN ==> best == second == Ranking.FLT_MAX && bestCount == 0
        invariant n > COUNT_MIN ==>
            && bestCount == COUNT_MIN + Ranking.FirstLeast(s, n - COUNT_MIN)
            && best == s[bestCount - COUNT_MIN]
            && second == Ranking.LeastExcept(s, bestCount - COUNT_MIN, n - COUNT_MIN)
      {
        if historySize >= 2 * n {
          var error := ScoreCandidate(n, a);
          assert error == s[n - COUNT_MIN];
          Ranking.RankStep(s, n - COUNT_MIN);
          if error < best {
            second := best;
            best := error;
            bestCount := n;
          } else if error < second {
            second := error;
          }
        }
        n := n + 1;
      }
    }

    method InferCount(ghost a: seq<real>)
      requires Ring(a) && InBand(a) && historySize == HISTORY_SIZE
      requires history != intervalLut && intervalLut.Length == COUNT_MAX
      requires Shape(View()) && !countLocked
      modifies this`confidence, this`spokeCount, this`countLocked, this`spokeIndex, intervalLut
      ensures View() == Infer(old(View()), a)
    {
      var bestCount, best, second := Rank(a);
      ghost var before := intervalLut[..];
      var separation := (second - best) / Max(second, 0.000001);
      confidence := Min(Max(separation, 0.0), 1.0);
      assert confidence == Inference.Confidence(a);
      assert Locks(a) <==> best < 0.035 && confidence > 0.08;
      if bestCount != 0 && best < 0.035 && confidence > 0.08 {
        spokeCount := bestCount;
        countLocked := true;
        for i := 0 to bestCount
          modifies intervalLut
          invariant Ring(a) && intervalLut.Length == COUNT_MAX
          invariant forall j :: 0 <= j < bestCount - i ==> intervalLut[j] == before[j]
          invariant forall j :: bestCount - i <= j < bestCount ==> intervalLut[j] == a[|a| - bestCount + j]
          invariant forall j :: bestCount <= j < COUNT_MAX ==> intervalLut[j] == before[j]
        {
          var x := Recent(i, a);
          intervalLut[bestCount - 1 - i] := x;
        }
        spokeIndex := 0;
        assert intervalLut[..] == Snapshot(before, a, bestCount);
        assert View() == Infer(old(View()), a);
      } else {
        assert !Locks(a) && View() == Infer(old(View()), a);
      }
    }

    /** Blends an interval into the current cell, if it passes the gate. */
    method BlendCell(interval: real)
      requires spokeIndex < intervalLut.Length
      modifies intervalLut
      ensures intervalLut[..] == old(intervalLut[..])[spokeIndex := CellStep(old(intervalLut[spokeIndex]), interval)]
    {
      var cell := intervalLut[spokeIndex];
      var previous := if cell > 0.0 then cell else interval;
      var gate := Max(80.0, 3.5 * 0.08 * previous);
      if Abs(interval - previous) <= gate {
        intervalLut[spokeIndex] := cell + 0.08 * (interval - cell);
      }
    }

    method Revolution(n: nat) returns (revolution: real)
      requires n <= intervalLut.Length
      ensures revolution == Sum(intervalLut[..], n)
    {
      revolution := 0.0;
      for i := 0 to n
        invariant revolution == Sum(intervalLut[..], i)
      {
        revolution := revolution + intervalLut[i];
      }
    }

    method UpdateMap(interval: real)
      requires intervalLut.Length == COUNT_MAX && Shape(View()) && countLocked
      modifies this`spokeIndex, this`currentSpoke, this`revolutionPeriod, this`wheelHz, intervalLut
      ensures View() == Learner.UpdateMap(old(View()), interval)
      ensures wheelHz == WheelHz(revolutionPeriod)
    {
      BlendCell(interval);
      AdvanceIsNext(spokeIndex, spokeCount);
      spokeIndex := (spokeIndex + 1) % spokeCount;
      currentSpoke := spokeIndex;
      revolutionPeriod := Revolution(spokeCount);
      wheelHz := if revolutionPeriod > 0.0 then 1000000.0 / revolutionPeriod else 0.0;
    }

    /** Feeds one edge; the result says whether it contributed an accepted interval. */
    method IngestEdge(edge: nat) returns (accepted: bool)
      requires Valid() && edge < WORD64
      modifies this, history, intervalLut
      ensures Valid() && edges == old(edges) + [edge]
      ensures Intervals(edges) == Intervals(old(edges)) + Contribution(old(edges), edge)
      ensures accepted <==> |Contribution(old(edges), edge)| == 1
    {
      IntervalsStep(edges, edge);
      ghost var a := Intervals(edges);
      edges := edges + [edge];
      assert a + [] == a;
      if edge == 0 {
        return false;
      }
      if lastEdge == 0 {
        lastEdge := edge;
        return false;
      }
      var interval := (edge - lastEdge) % WORD64;
      lastEdge := edge;
      if interval < SHORTEST_US || interval > LONGEST_US {
        return false;
      }
      Accept(interval as real, a);
      assert Intervals(edges) == a + [interval as real];
      return true;
    }

    /** An accepted interval: remember it, then infer, then adapt. */
    method Accept(interval: real, ghost a: seq<real>)
      requires Ring(a) && acceptedEvents == |a| % WORD32 && InBand(a + [interval])
      requires history != intervalLut && intervalLut.Length == COUNT_MAX
      requires View() == Learn(a) && wheelHz == WheelHz(revolutionPeriod)
      modifies this, history, intervalLut
      ensures edges == old(edges) && lastEdge == old(lastEdge)
      ensures Ring(a + [interval]) && acceptedEvents == |a + [interval]| % WORD32
      ensures View() == Learn(a + [interval]) && wheelHz == WheelHz(revolutionPeriod)
    {
      ghost var b := a + [interval];
      assert Prior(b) == a && Back(b, 0) == interval;
      Push(interval, a);
      Adapt(interval, b);
      assert Learn(b) == Ingest(Learn(a), b);
    }

    /** Infers while unlocked and due, and adapts once locked; `b` ends with the interval. */
    method Adapt(interval: real, ghost b: seq<real>)
      requires Ring(b) && InBand(b) && |b| > 0 && Back(b, 0) == interval && acceptedEvents == |b| % WORD32
      requires history != intervalLut && intervalLut.Length == COUNT_MAX
      requires Shape(View()) && wheelHz == WheelHz(revolutionPeriod)
      modifies this`confidence, this`spokeCount, this`countLocked, intervalLut
      modifies this`spokeIndex, this`currentSpoke, this`revolutionPeriod, this`wheelHz
      ensures View() == Ingest(old(View()), b) && wheelHz == WheelHz(revolutionPeriod)
    {
      if !countLocked && acceptedEvents >= CONFIDENCE_EVENTS {
        InferCount(b);
      }
      if countLocked {
        UpdateMap(interval);
      }
    }

    /** Stores an accepted interval in the ring and counts it. */
    method Push(interval: real, ghost a: seq<real>)
      requires Ring(a) && acceptedEvents == |a| % WORD32 && history != intervalLut
      modifies this`historyHead, this`historySize, this`acceptedEvents, history
      ensures Ring(a + [interval]) && acceptedEvents == |a + [interval]| % WORD32
    {
      Store(interval, a);
      acceptedEvents := (acceptedEvents + 1) % WORD32;
    }

    method Store(interval: real, ghost a: seq<real>)
      requires Ring(a)
      modifies this`historyHead, this`historySize, history
      ensures Ring(a + [interval])
    {
      ghost var b, head, ring := a + [interval], historyHead, history[..];
      history[historyHead] := interval;
      historyHead := (historyHead + 1) % HISTORY_SIZE;
      if historySize < HISTORY_SIZE {
        historySize := historySize + 1;
      }
      forall i | 0 <= i < historySize
        ensures history[BackSlot(historyHead, i)] == Back(b, i)
      {
        SlotShifts(head, i);
        if i > 0 {
          assert ring[BackSlot(head, i - 1)] == Back(a, i - 1) == Back(b, i);
        }
      }
    }
  }

  /** The ring position of the `i`-th most recent interval. */
  function BackSlot(head: nat, i: nat): nat
    requires head < HISTORY_SIZE && i < HISTORY_SIZE
    ensures BackSlot(head, i) < HISTORY_SIZE
  {
    if i < head then head - 1 - i else head + HISTORY_SIZE - 1 - i
  }

  /** After the head moves on, every remembered interval is one step older. */
  lemma {:induction false} SlotShifts(head: nat, i: nat)
    requires head < HISTORY_SIZE && i < HISTORY_SIZE
    ensures var next := (head + 1) % HISTORY_SIZE;
            if i == 0 then BackSlot(next, i) == head else BackSlot(next, i) == BackSlot(head, i - 1) != head
  {
  }

  lemma {:induction false} AdvanceIsNext(i: nat, n: nat)
    requires i < n
    ensures (i + 1) % n == NextSpoke(i, n)
  {
  }
}
