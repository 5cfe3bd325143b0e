/**
  The per-spoke interval table: one gated exponential-average cell per spoke,
  and what repeated visits do to a cell and to the table's total.
*/
module Table {
  import opened Reals
  import opened Inference
  import opened Rounds

  /** The value a new interval is compared against: the cell, or the interval itself when the cell is empty. */
  function Previous(cell: real, x: real): real {
    if cell > 0.0 then cell else x
  }

  function Gate(previous: real): real {
    Max(80.0, 3.5 * 0.08 * previous)
  }

  /** One visit: blend eight percent of `x` into the cell unless `x` falls outside the gate. */
  function CellStep(cell: real, x: real): real {
    if Abs(x - Previous(cell, x)) <= Gate(Previous(cell, x)) then cell + 0.08 * (x - cell) else cell
  }

  // ----- one cell, visited repeatedly with the same interval -------------------

  predicate Captured(cell: real, p: real) { Abs(p - cell) <= Gate(cell) }

  /** 0.92 to the power `r`. */
  function Decay(r: nat): real {
    if r == 0 then 1.0 else 0.92 * Decay(r - 1)
  }

  /** The distance `d` after `r` blends. */
  function Shrunk(d: real, r: nat): real {
    if r == 0 then d else 0.92 * Shrunk(d, r - 1)
  }

  lemma {:induction false} ShrunkIsDecay(d: real, r: nat)
    ensures Shrunk(d, r) == Decay(r) * d
  {
    if r != 0 {
      ShrunkIsDecay(d, r - 1);
    }
  }

  lemma {:induction false} ShrunkAdds(x: real, y: real, r: nat)
    ensures Shrunk(x + y, r) == Shrunk(x, r) + Shrunk(y, r)
  {
    if r != 0 {
      ShrunkAdds(x, y, r - 1);
    }
  }

  lemma {:induction false} ShrunkBetween(d: real, r: nat)
    ensures d >= 0.0 ==> 0.0 <= Shrunk(d, r) <= d
    ensures d <= 0.0 ==> d <= Shrunk(d, r) <= 0.0
  {
    if r != 0 {
      ShrunkBetween(d, r - 1);
    }
  }

  /** Where a cell starting at `c` stands after `r` visits with interval `p`. */
  function Settled(c: real, p: real, r: nat): real {
    if Captured(c, p) then p + Shrunk(c - p, r) else c
  }

  /** Moving towards `p` never leaves the gate. */
  lemma {:induction false} CaptureIsKept(c: real, p: real, d: real)
    requires c > 0.0 && p > 0.0 && Captured(c, p)
    requires 0.0 <= d <= c - p || c - p <= d <= 0.0
    ensures p + d > 0.0 && Captured(p + d, p)
  {
  }

  /** One more visit is one more factor of 0.92 for a captured cell, and nothing for a frozen one. */
  lemma {:induction false} SettledStep(c: real, p: real, r: nat)
    requires c > 0.0 && p > 0.0
    ensures CellStep(Settled(c, p, r), p) == Settled(c, p, r + 1)
  {
    if Captured(c, p) {
      ShrunkBetween(c - p, r);
      CaptureIsKept(c, p, Shrunk(c - p, r));
    }
  }

  /** A positive cell visited with a positive interval stays between the two. */
  lemma {:induction false} CellStaysBetween(cell: real, x: real, lo: real, hi: real)
    requires 0.0 < lo <= cell <= hi && lo <= x <= hi
    ensures lo <= CellStep(cell, x) <= hi
  {
  }

  /**
    An interval moves a filled cell if and only if it differs from it by no more
    than 80 microseconds or 28 percent of the cell, and then by eight percent of
    the distance.
  */
  lemma {:induction false} AdaptationIsBounded(cell: real, x: real)
    requires cell > 0.0
    ensures CellStep(cell, x) != cell <==>
            0.0 < Abs(x - cell) && (Abs(x - cell) <= 80.0 || Abs(x - cell) <= 0.28 * cell)
    ensures CellStep(cell, x) != cell ==> CellStep(cell, x) == 0.92 * cell + 0.08 * x
    ensures Captured(cell, x) <==> Abs(x - cell) <= 80.0 || Abs(x - cell) <= 0.28 * cell
    ensures Abs(CellStep(cell, x) - cell) <= 0.08 * Gate(cell)
    ensures Captured(cell, x) ==> Abs(x - CellStep(cell, x)) == 0.92 * Abs(x - cell)
  {
    var d := x - cell;
    assert CellStep(cell, x) == if Captured(cell, x) then cell + 0.08 * d else cell;
  }

  /** An empty cell takes eight percent of whatever comes. */
  lemma {:induction false} EmptyCellAdapts(x: real)
    ensures CellStep(0.0, x) == 0.08 * x
  {
  }

  // ----- the whole table ------------------------------------------------------

  /** One cell per spoke: cell `j` was captured as `c[j]` and is fed `p[j]`. */
  ghost predicate Positive(s: seq<real>) { forall i :: 0 <= i < |s| ==> s[i] > 0.0 }

  /**
    How often cell `j` has been visited when visiting began at cell `start` and
    has reached cell `k` of round `r`; the round it began in is round 0.
  */
  function VisitsTo(j: nat, start: nat, r: nat, k: nat): nat
    requires r > 0 || start <= k
  {
    (if j < k then r + 1 else r) - if j < start then 1 else 0
  }

  /** The table then. */
  function SettledTable(c: seq<real>, p: seq<real>, start: nat, r: nat, k: nat): (t: seq<real>)
    requires |c| == |p| && (r > 0 || start <= k)
    ensures |t| == |c|
  {
    seq(|c|, j requires 0 <= j < |c| => Settled(c[j], p[j], VisitsTo(j, start, r, k)))
  }

  /** The next visit touches cell `k` and no other. */
  lemma {:induction false} SettledTableStep(c: seq<real>, p: seq<real>, start: nat, r: nat, k: nat)
    requires |c| == |p| && k < |c| && Positive(c) && Positive(p) && (r > 0 || start <= k)
    ensures var t := SettledTable(c, p, start, r, k);
            t[k := CellStep(t[k], p[k])] == SettledTable(c, p, start, r, k + 1)
  {
    SettledStep(c[k], p[k], VisitsTo(k, start, r, k));
  }

  lemma {:induction false} SettledTableWraps(c: seq<real>, p: seq<real>, start: nat, r: nat)
    requires |c| == |p| && start <= |c|
    ensures SettledTable(c, p, start, r, |c|) == SettledTable(c, p, start, r + 1, 0)
  {
  }

  lemma {:induction false} SettledTableStart(c: seq<real>, p: seq<real>, start: nat)
    requires |c| == |p|
    ensures SettledTable(c, p, start, 0, start) == c
  {
  }

  // ----- the one-cell offset and the telescoping total --------------------------

  /** The table captured at lock holds each period one cell early: cell `j` holds what cell `j + 1` will be fed. */
  ghost predicate OneCellEarly(c: seq<real>, p: seq<real>) {
    && |c| == |p| > 0
    && c[|c| - 1] == p[0]
    && forall j :: 0 <= j < |c| - 1 ==> c[j] == p[j + 1]
  }

  ghost predicate AllCaptured(c: seq<real>, p: seq<real>) {
    |c| == |p| && forall i {:trigger Captured(c[i], p[i])} :: 0 <= i < |c| ==> Captured(c[i], p[i])
  }

  /** The interval fed to cell `j`, wrapping after the last cell. */
  function Next(p: seq<real>, j: nat): real
    requires 0 < |p| && j <= |p|
  {
    if j == |p| then p[0] else p[j]
  }

  /** The cells `from` to `to` were captured and have had `visits` visits. */
  ghost predicate Blended(t: seq<real>, c: seq<real>, p: seq<real>, visits: nat, from: nat, to: nat) {
    && |t| == |c| == |p| && to <= |t|
    && forall i {:trigger t[i]} :: from <= i < to ==> t[i] == p[i] + Shrunk(c[i] - p[i], visits)
  }

  /** Over any span of equally visited cells the deviations telescope to the span's two ends. */
  lemma {:induction false} SpanTelescopes(c: seq<real>, p: seq<real>, t: seq<real>, visits: nat, from: nat, to: nat)
    requires OneCellEarly(c, p) && from <= to && Blended(t, c, p, visits, from, to)
    ensures Sum(t, to) - Sum(t, from) == Sum(p, to) - Sum(p, from) + Shrunk(Next(p, to) - Next(p, from), visits)
  {
    if from == to {
      ShrunkBetween(0.0, visits);
    } else {
      SpanTelescopes(c, p, t, visits, from, to - 1);
      SpanStep(p[to - 1], Next(p, to), Next(p, from), visits);
      assert c[to - 1] == Next(p, to);
    }
  }

  lemma {:induction false} SpanStep(here: real, next: real, start: real, visits: nat)
    ensures Shrunk(here - start, visits) + Shrunk(next - here, visits) == Shrunk(next - start, visits)
  {
    ShrunkAdds(here - start, next - here, visits);
    assert (here - start) + (next - here) == next - start;
  }

  lemma {:induction false} ShrunkOpposite(x: real, y: real, r: nat)
    ensures Shrunk(x - y, r + 1) + Shrunk(y - x, r) == 0.08 * Shrunk(y - x, r)
  {
    ShrunkAdds(x - y, y - x, r);
    ShrunkBetween(0.0, r);
  }

  lemma {:induction false} TotalDeviation(t: seq<real>, c: seq<real>, p: seq<real>, r: nat, k: nat)
    requires OneCellEarly(c, p) && k < |c|
    requires Blended(t, c, p, r + 1, 0, k) && Blended(t, c, p, r, k, |c|)
    ensures Sum(t, |c|) == Sum(p, |p|) + 0.08 * Shrunk(p[0] - p[k], r)
  {
    SpanTelescopes(c, p, t, r + 1, 0, k);
    SpanTelescopes(c, p, t, r, k, |c|);
    ShrunkOpposite(p[k], p[0], r);
  }

  /** Eight percent of the distance `d`, decayed over `r` rounds. */
  function Deviation(d: real, r: nat): real {
    0.08 * (Decay(r) * d)
  }

  lemma {:induction false} DeviationIsShrunk(d: real, r: nat)
    ensures Deviation(d, r) == 0.08 * Shrunk(d, r)
  {
    ShrunkIsDecay(d, r);
  }

  /** The table if no cell had a gate. */
  function UngatedTable(c: seq<real>, p: seq<real>, r: nat, k: nat): (t: seq<real>)
    requires |c| == |p|
    ensures |t| == |c|
  {
    seq(|c|, j requires 0 <= j < |c| => p[j] + Shrunk(c[j] - p[j], VisitsTo(j, 0, r, k)))
  }

  lemma {:induction false} UngatedIsBlended(c: seq<real>, p: seq<real>, r: nat, k: nat)
    requires |c| == |p| && k <= |c|
    ensures Blended(UngatedTable(c, p, r, k), c, p, r + 1, 0, k)
    ensures Blended(UngatedTable(c, p, r, k), c, p, r, k, |c|)
  {
  }

  /** How much too high the frozen ones among the first `m` cells are. */
  function Frozen(c: seq<real>, p: seq<real>, m: nat): real
    requires m <= |c| && m <= |p|
  {
    if m == 0 then 0.0
    else Frozen(c, p, m - 1) + if Captured(c[m - 1], p[m - 1]) then 0.0 else c[m - 1] - p[m - 1]
  }

  lemma {:induction false} NothingFrozen(c: seq<real>, p: seq<real>, m: nat)
    requires AllCaptured(c, p) && m <= |c|
    ensures Frozen(c, p, m) == 0.0
  {
    if m != 0 {
      NothingFrozen(c, p, m - 1);
      assert Captured(c[m - 1], p[m - 1]);
    }
  }

  /** The part of the distance `d` that `r` blends close: `(1 - 0.92^r) * d`. */
  function Closed(d: real, r: nat): real {
    d - Shrunk(d, r)
  }

  lemma {:induction false} ClosedAdds(x: real, y: real, r: nat)
    ensures Closed(x + y, r) == Closed(x, r) + Closed(y, r)
    ensures Closed(0.0, r) == 0.0
  {
    ShrunkAdds(x, y, r);
    ShrunkBetween(0.0, r);
  }

  lemma {:induction false} DecayBelowOne(r: nat)
    ensures 0.0 < Decay(r) <= 1.0 && (r > 0 ==> Decay(r) <= 0.92)
  {
    if r != 0 {
      DecayBelowOne(r - 1);
    }
  }

  lemma {:induction false} ClosedZero(d: real, r: nat)
    requires r > 0
    ensures Closed(d, r) == (1.0 - Decay(r)) * d
    ensures Closed(d, r) == 0.0 <==> d == 0.0
  {
    ShrunkIsDecay(d, r);
    DecayBelowOne(r);
    ShrunkBetween(d, r - 1);
  }

  /**
    What the frozen cells add to the total after `r` rounds and `k` visits: the
    distance they would have closed by then, had their gates let them.
  */
  function FrozenError(c: seq<real>, p: seq<real>, r: nat, k: nat): real
    requires |c| == |p| && k <= |c|
  {
    Closed(Frozen(c, p, k), r + 1) + Closed(Frozen(c, p, |c|) - Frozen(c, p, k), r)
  }

  lemma {:induction false} FrozenBefore(c: seq<real>, p: seq<real>, r: nat, k: nat, m: nat)
    requires |c| == |p| && m <= k <= |c|
    ensures Sum(SettledTable(c, p, 0, r, k), m) == Sum(UngatedTable(c, p, r, k), m) + Closed(Frozen(c, p, m), r + 1)
  {
    ClosedAdds(0.0, 0.0, r + 1);
    if m != 0 {
      var j := m - 1;
      FrozenBefore(c, p, r, k, j);
      ClosedAdds(Frozen(c, p, j), if Captured(c[j], p[j]) then 0.0 else c[j] - p[j], r + 1);
    }
  }

  lemma {:induction false} FrozenFrom(c: seq<real>, p: seq<real>, r: nat, k: nat, m: nat)
    requires |c| == |p| && k <= m <= |c|
    ensures Sum(SettledTable(c, p, 0, r, k), m) ==
            Sum(UngatedTable(c, p, r, k), m)
              + Closed(Frozen(c, p, k), r + 1) + Closed(Frozen(c, p, m) - Frozen(c, p, k), r)
  {
    ClosedAdds(0.0, 0.0, r);
    if m == k {
      FrozenBefore(c, p, r, k, k);
    } else {
      var j := m - 1;
      FrozenFrom(c, p, r, k, j);
      ClosedAdds(Frozen(c, p, j) - Frozen(c, p, k), if Captured(c[j], p[j]) then 0.0 else c[j] - p[j], r);
    }
  }

  /**
    The total after `r` rounds and `k` visits is the true period, plus exactly
    0.08 * 0.92^r * (p[0] - p[k]), plus what the frozen cells keep back; at a round
    boundary it is right if and only if their distances cancel.
  */
  lemma {:induction false} TelescopingTotal(c: seq<real>, p: seq<real>, r: nat, k: nat)
    requires OneCellEarly(c, p) && k < |c|
    ensures Sum(SettledTable(c, p, 0, r, k), |c|) == Sum(p, |p|) + Deviation(p[0] - p[k], r) + FrozenError(c, p, r, k)
  {
    UngatedIsBlended(c, p, r, k);
    TotalDeviation(UngatedTable(c, p, r, k), c, p, r, k);
    DeviationIsShrunk(p[0] - p[k], r);
    FrozenFrom(c, p, r, k, |c|);
  }

  /** With every cell captured that is the telescoped deviation alone, and nothing at a round boundary. */
  lemma {:induction false} CapturedTotal(c: seq<real>, p: seq<real>, r: nat, k: nat)
    requires OneCellEarly(c, p) && k < |c| && AllCaptured(c, p)
    ensures Sum(SettledTable(c, p, 0, r, k), |c|) == Sum(p, |p|) + Deviation(p[0] - p[k], r)
    ensures k == 0 ==> Sum(SettledTable(c, p, 0, r, k), |c|) == Sum(p, |p|)
  {
    TelescopingTotal(c, p, r, k);
    NothingFrozen(c, p, k);
    NothingFrozen(c, p, |c|);
    ClosedAdds(0.0, 0.0, r);
    ClosedAdds(0.0, 0.0, r + 1);
    DeviationIsShrunk(0.0, r);
    ShrunkBetween(0.0, r);
  }

  /** At a round boundary. */
  lemma {:induction false} BoundaryTotal(c: seq<real>, p: seq<real>, r: nat)
    requires OneCellEarly(c, p) && r > 0
    ensures var total := Sum(SettledTable(c, p, 0, r, 0), |c|);
            && total == Sum(p, |p|) + Closed(Frozen(c, p, |c|), r)
            && (total == Sum(p, |p|) <==> Frozen(c, p, |c|) == 0.0)
  {
    TelescopingTotal(c, p, r, 0);
    DeviationIsShrunk(0.0, r);
    ClosedAdds(0.0, 0.0, r);
    ClosedAdds(0.0, 0.0, r + 1);
    ShrunkBetween(0.0, r);
    ClosedZero(Frozen(c, p, |c|), r);
  }

  // ----- convergence of the total ---------------------------------------------------

  /** The total distance of the first `k` cells from what they are fed. */
  function Distance(c: seq<real>, p: seq<real>, k: nat): real
    requires k <= |c| && k <= |p|
  {
    if k == 0 then 0.0 else Distance(c, p, k - 1) + Abs(c[k - 1] - p[k - 1])
  }

  lemma {:induction false} DistanceNonNegative(c: seq<real>, p: seq<real>, k: nat)
    requires k <= |c| && k <= |p|
    ensures Distance(c, p, k) >= 0.0
  {
    if k != 0 {
      DistanceNonNegative(c, p, k - 1);
    }
  }

  lemma {:induction false} FewerVisits(d: real, least: nat, visits: nat)
    requires least <= visits
    ensures Abs(Shrunk(d, visits)) <= Shrunk(Abs(d), least)
  {
    ShrunkBetween(d, visits);
    if least < visits {
      FewerVisits(d, least, visits - 1);
      ShrunkBetween(d, visits - 1);
    } else {
      ShrunkIsDecay(d, visits);
      ShrunkIsDecay(Abs(d), visits);
      assert d < 0.0 ==> Decay(visits) * Abs(d) == -(Decay(visits) * d);
    }
  }

  /** Where the table is heading: captured cells to what they are fed, frozen ones nowhere. */
  function Limit(c: seq<real>, p: seq<real>): (t: seq<real>)
    requires |c| == |p|
    ensures |t| == |c|
  {
    seq(|c|, j requires 0 <= j < |c| => if Captured(c[j], p[j]) then p[j] else c[j])
  }

  lemma {:induction false} LimitTotal(c: seq<real>, p: seq<real>, m: nat)
    requires |c| == |p| && m <= |c|
    ensures Sum(Limit(c, p), m) == Sum(p, m) + Frozen(c, p, m)
  {
    if m != 0 {
      LimitTotal(c, p, m - 1);
    }
  }

  /**
    When every cell has had at least `least` visits, the total is off its limit by
    at most the first distance shrunk that often.
  */
  lemma {:induction false} TotalConverges(c: seq<real>, p: seq<real>, start: nat, r: nat, k: nat, least: nat, m: nat)
    requires |c| == |p| && m <= |c| && (r > 0 || start <= k)
    requires forall j: nat :: j < m ==> VisitsTo(j, start, r, k) >= least
    ensures Abs(Sum(SettledTable(c, p, start, r, k), m) - Sum(Limit(c, p), m))
              <= Shrunk(Distance(c, Limit(c, p), m), least)
  {
    if m == 0 {
      ShrunkBetween(0.0, least);
    } else {
      var j := m - 1;
      TotalConverges(c, p, start, r, k, least, j);
      FewerVisits(c[j] - Limit(c, p)[j], least, VisitsTo(j, start, r, k));
      ShrunkBetween(0.0, VisitsTo(j, start, r, k));
      ShrunkAdds(Distance(c, Limit(c, p), j), Abs(c[j] - Limit(c, p)[j]), least);
    }
  }

  /** Every wrap but the first has visited every cell. */
  lemma {:induction false} WrapsConverge(c: seq<real>, p: seq<real>, start: nat, r: nat, k: nat)
    requires |c| == |p| && r > 0
    ensures var t := SettledTable(c, p, start, r, k);
            Abs(Sum(t, |t|) - (Sum(p, |p|) + Frozen(c, p, |p|))) <= Shrunk(Distance(c, Limit(c, p), |p|), r - 1)
  {
    TotalConverges(c, p, start, r, k, r - 1, |p|);
    LimitTotal(c, p, |p|);
  }

  // ----- how fast 0.92^r vanishes ---------------------------------------------------

  lemma {:induction false} DecayVanishes(r: nat)
    ensures Decay(r) * (1.0 + 0.08 * r as real) <= 1.0
  {
    if r != 0 {
      DecayVanishes(r - 1);
      DecayBelowOne(r - 1);
      var d, q := Decay(r - 1), (r - 1) as real;
      assert 0.92 * (1.0 + 0.08 * (q + 1.0)) <= 1.0 + 0.08 * q;
      assert d * (0.92 * (1.0 + 0.08 * (q + 1.0))) <= d * (1.0 + 0.08 * q);
    }
  }

  /** After enough rounds the distance `d` has shrunk below `bound`, for ever. */
  lemma {:induction false} ShrunkVanishes(d: real, bound: real) returns (rounds: nat)
    requires d >= 0.0 && bound > 0.0
    ensures forall r: nat :: r >= rounds ==> Shrunk(d, r) < bound
  {
    rounds := (d / bound * 12.5).Floor + 1;
    forall r: nat | r >= rounds
      ensures Shrunk(d, r) < bound
    {
      DecayVanishes(r);
      DecayBelowOne(r);
      ShrunkIsDecay(d, r);
      BelowBound(d, bound, Decay(r), r as real);
    }
  }

  lemma {:induction false} BelowBound(d: real, bound: real, f: real, r: real)
    requires d >= 0.0 && bound > 0.0 && f >= 0.0 && f * (1.0 + 0.08 * r) <= 1.0
    requires r >= d / bound * 12.5
    ensures f * d < bound
  {
    var q := d / bound;
    assert q * bound == d;
    assert f * (1.0 + q) <= f * (1.0 + 0.08 * r);
    assert f * (1.0 + q) * bound <= bound;
    assert f * (1.0 + q) * bound == f * bound + f * d;
  }

  // ----- feeding a stream to the cells in turn -------------------------------------

  datatype Feed = Feed(cells: seq<real>, index: nat)

  function NextSpoke(i: nat, n: nat): nat {
    if i + 1 == n then 0 else i + 1
  }

  /** One interval goes to the current cell, and the next cell becomes current. */
  function Visit(f: Feed, x: real): (g: Feed)
    requires f.index < |f.cells|
    ensures g.index < |g.cells| == |f.cells|
  {
    Feed(f.cells[f.index := CellStep(f.cells[f.index], x)], NextSpoke(f.index, |f.cells|))
  }

  /** The feed `f` with every interval of the run from position `from` on fed to its cells in turn. */
  function FeedFrom(f: Feed, a: seq<real>, from: nat): (g: Feed)
    requires f.index < |f.cells|
    ensures g.index < |g.cells| == |f.cells|
  {
    if |a| <= from then f else Visit(FeedFrom(f, Prior(a), from), Back(a, 0))
  }

  /** The cell that takes the `i`-th interval when cell `start` takes the first. */
  function Slot(start: nat, i: nat, n: nat): nat
    requires 0 < n
  {
    (start + i) % n
  }

  /** From position `from` on, starting with cell `start`, the run keeps feeding `p[j]` to cell `j`. */
  ghost predicate Cyclic(a: seq<real>, from: nat, start: nat, p: seq<real>) {
    |p| > 0 && forall i: nat {:trigger Slot(start, i, |p|)} :: from + i < |a| ==> a[from + i] == p[Slot(start, i, |p|)]
  }

  /** A cyclic run brings the table to its settled form, cell by cell. */
  lemma {:induction false} CyclicFeed(c: seq<real>, p: seq<real>, a: seq<real>, from: nat, start: nat, r: nat, k: nat)
    requires |c| == |p| > 1 && start < |c| && Positive(c) && Positive(p) && Cyclic(a, from, start, p)
    requires from <= |a| && k < |p| && |a| - from + start == Visits(r, k, |p|)
    ensures r > 0 || start <= k
    ensures FeedFrom(Feed(c, start), a, from) == Feed(SettledTable(c, p, start, r, k), k)
  {
    var n := |p|;
    VisitsFrom(r, k, n);
    OneVisitEarlier(|a| - from + start, n, r, k);
    if |a| == from {
      SettledTableStart(c, p, start);
    } else {
      var r', k' := if k > 0 then r else r - 1, if k > 0 then k - 1 else n - 1;
      CyclicPrior(a, from, start, p);
      CyclicFeed(c, p, Prior(a), from, start, r', k');
      VisitedCell(r', k', n);
      CyclicVisit(c, p, start, r', k');
      assert Back(a, 0) == p[Slot(start, |a| - 1 - from, n)];
    }
  }

  lemma {:induction false} CyclicPrior(a: seq<real>, from: nat, start: nat, p: seq<real>)
    requires |a| > from && Cyclic(a, from, start, p)
    ensures Cyclic(Prior(a), from, start, p)
  {
  }

  lemma {:induction false} CyclicVisit(c: seq<real>, p: seq<real>, start: nat, r: nat, k: nat)
    requires |c| == |p| > 0 && start < |c| && k < |p| && Positive(c) && Positive(p) && (r > 0 || start <= k)
    ensures Visit(Feed(SettledTable(c, p, start, r, k), k), p[k]) ==
            if k + 1 == |p| then Feed(SettledTable(c, p, start, r + 1, 0), 0)
            else Feed(SettledTable(c, p, start, r, k + 1), k + 1)
  {
    SettledTableStep(c, p, start, r, k);
    SettledTableWraps(c, p, start, r);
  }
}
