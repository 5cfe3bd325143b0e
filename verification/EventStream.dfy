/**
  The simple specification of the event stream: keep the pulses of acceptable
  width, drop zero timestamps, take consecutive differences in 64-bit arithmetic
  and keep those in the acceptance band.
*/
module EventStream {
  import opened Inference
  import opened Words

  const BLOCK_MIN_US := 70
  const BLOCK_MAX_US := 600

  /** One blockage: when it started and how long it lasted. */
  datatype Event = Event(timestamp: nat, duration: nat)

  predicate Accepted(e: Event) { BLOCK_MIN_US <= e.duration <= BLOCK_MAX_US }

  /** Start times of the pulses of acceptable width, in order. */
  function Edges(events: seq<Event>): seq<nat> {
    if |events| == 0 then []
    else
      var e := events[|events| - 1];
      Edges(events[..|events| - 1]) + if Accepted(e) then [e.timestamp] else []
  }

  function NonZero(edges: seq<nat>): seq<nat> {
    if |edges| == 0 then []
    else
      var e := edges[|edges| - 1];
      NonZero(edges[..|edges| - 1]) + if e != 0 then [e] else []
  }

  /** Differences of neighbours, as an unsigned 64-bit subtraction yields them. */
  function Gaps(z: seq<nat>): (g: seq<nat>)
  {
    if |z| < 2 then []
    else Gaps(z[..|z| - 1]) + [((z[|z| - 1] as int) - z[|z| - 2]) % WORD64]
  }

  predicate InRange(gap: nat) { SHORTEST_US <= gap <= LONGEST_US }

  function Kept(g: seq<nat>): (a: seq<real>)
    ensures InBand(a)
  {
    if |g| == 0 then []
    else
      var x := g[|g| - 1];
      Kept(g[..|g| - 1]) + if InRange(x) then [x as real] else []
  }

  /** The accepted intervals of a run of edges. */
  function Intervals(edges: seq<nat>): (a: seq<real>)
    ensures InBand(a)
  {
    Kept(Gaps(NonZero(edges)))
  }

  lemma {:induction false} KeptWhole(g: seq<nat>, i: nat) returns (us: nat)
    requires i < |Kept(g)|
    ensures Kept(g)[i] == us as real
  {
    var prior := Kept(g[..|g| - 1]);
    if i < |prior| {
      us := KeptWhole(g[..|g| - 1], i);
    } else {
      us := g[|g| - 1];
    }
  }

  /** Accepted intervals are whole microseconds: equal, or at least one apart. */
  lemma {:induction false} IntervalsGrained(edges: seq<nat>)
    ensures Grained(Intervals(edges))
  {
    var a := Intervals(edges);
    forall i, j {:trigger Back(a, i), Back(a, j)} | 0 <= i < |a| && 0 <= j < |a|
      ensures Distinguishable(Back(a, i), Back(a, j))
    {
      var x := KeptWhole(Gaps(NonZero(edges)), |a| - 1 - i);
      var y := KeptWhole(Gaps(NonZero(edges)), |a| - 1 - j);
      assert x == y || x as real - y as real >= 1.0 || y as real - x as real >= 1.0;
    }
  }

  /** The edge the next one is measured from; zero before the first. */
  function LastEdge(edges: seq<nat>): nat {
    var z := NonZero(edges);
    if |z| == 0 then 0 else z[|z| - 1]
  }

  /** The interval a further edge contributes, if any. */
  function Contribution(edges: seq<nat>, edge: nat): seq<real> {
    var last := LastEdge(edges);
    var gap := ((edge as int) - last) % WORD64;
    if edge != 0 && last != 0 && InRange(gap) then [gap as real] else []
  }

  lemma {:induction false} DropLast<T>(s: seq<T>, x: T)
    ensures (s + [x])[..|s|] == s && (s + [x])[|s|] == x
  {
  }

  lemma {:induction false} NonZeroIsNonZero(edges: seq<nat>)
    ensures forall i :: 0 <= i < |NonZero(edges)| ==> NonZero(edges)[i] != 0
  {
    if |edges| != 0 {
      NonZeroIsNonZero(edges[..|edges| - 1]);
    }
  }

  /** A further edge appends at most one interval: the one measured from the last nonzero edge. */
  lemma {:induction false} IntervalsStep(edges: seq<nat>, edge: nat)
    ensures Intervals(edges + [edge]) == Intervals(edges) + Contribution(edges, edge)
    ensures LastEdge(edges + [edge]) == if edge != 0 then edge else LastEdge(edges)
  {
    var z, g := NonZero(edges), Gaps(NonZero(edges));
    DropLast(edges, edge);
    NonZeroIsNonZero(edges);
    if edge != 0 {
      assert NonZero(edges + [edge]) == z + [edge];
      DropLast(z, edge);
      if |z| > 0 {
        var gap := ((edge as int) - z[|z| - 1]) % WORD64;
        assert Gaps(z + [edge]) == g + [gap];
        DropLast(g, gap);
      } else {
        assert Gaps(z + [edge]) == g;
      }
    } else {
      assert NonZero(edges + [edge]) == z;
    }
  }

  lemma {:induction false} EdgesStep(events: seq<Event>, e: Event)
    ensures Edges(events + [e]) == Edges(events) + if Accepted(e) then [e.timestamp] else []
  {
    DropLast(events, e);
  }

  // ----- what is accepted --------------------------------------------------------------

  /** A pulse gives an edge if and only if it lasted from 70 to 600 microseconds. */
  lemma {:induction false} PulseExactly(events: seq<Event>, e: Event)
    ensures Edges(events + [e]) ==
            if 70 <= e.duration <= 600 then Edges(events) + [e.timestamp] else Edges(events)
  {
    EdgesStep(events, e);
    assert Edges(events) + [] == Edges(events);
  }

  /**
    An edge gives an interval if and only if neither it nor the last edge is at
    zero and their difference modulo 2^64 is from 70 to 15000 microseconds, and
    then exactly that difference.
  */
  lemma {:induction false} EdgeExactly(edges: seq<nat>, edge: nat)
    ensures var last := LastEdge(edges);
            var gap := ((edge as int) - last) % 0x1_0000_0000_0000_0000;
            Intervals(edges + [edge]) ==
            if edge != 0 && last != 0 && 70 <= gap <= 15000 then Intervals(edges) + [gap as real] else Intervals(edges)
  {
    IntervalsStep(edges, edge);
    assert Intervals(edges) + [] == Intervals(edges);
  }

  /** The last edge is the newest one not at zero, whatever was rejected since. */
  lemma {:induction false} LastEdgeExactly(edges: seq<nat>, edge: nat)
    ensures LastEdge([]) == 0 && LastEdge(edges + [edge]) == if edge != 0 then edge else LastEdge(edges)
  {
    IntervalsStep(edges, edge);
  }

  /** Every two neighbouring edges are from 70 to 15000 microseconds apart. */
  ghost predicate Riding(edges: seq<nat>) {
    && (forall i :: 0 <= i < |edges| ==> 0 < edges[i] < 0x1_0000_0000_0000_0000)
    && forall i, j :: 0 <= i && j == i + 1 < |edges| ==> edges[i] + 70 <= edges[j] <= edges[i] + 15000
  }

  /** At such a speed nothing is lost: the accepted intervals are exactly the differences of neighbouring edges. */
  lemma {:induction false} EveryIntervalCounts(edges: seq<nat>)
    requires Riding(edges) && |edges| > 0
    ensures |Intervals(edges)| == |edges| - 1 && LastEdge(edges) == edges[|edges| - 1]
    ensures forall i :: 0 <= i < |edges| - 1 ==> Intervals(edges)[i] == (edges[i + 1] - edges[i]) as real
  {
    var prior, edge := edges[..|edges| - 1], edges[|edges| - 1];
    assert edges == prior + [edge];
    EdgeExactly(prior, edge);
    LastEdgeExactly(prior, edge);
    if |prior| == 0 {
      assert Intervals(prior) == [];
    } else {
      EveryIntervalCounts(prior);
      SmallDifference(edge, edges[|prior| - 1]);
    }
  }

  lemma {:induction false} SmallDifference(later: nat, earlier: nat)
    requires earlier <= later <= earlier + 15000
    ensures ((later as int) - earlier) % 0x1_0000_0000_0000_0000 == later - earlier
  {
  }
}
