/**
  Rebuilding event times from a finished capture: tick conversion, and laying
  the captured phases out backwards from the callback time.
*/
module Timeline {
  import opened EventStream
  import opened Words

  /** Resolutions a validated configuration allows: eight times the least carrier up to 80 MHz. */
  predicate ValidResolution(hz: nat) { 200000 <= hz <= 80000000 }

  /** A phase length in ticks: a 15-bit field of a symbol word. */
  type Ticks = t: nat | t < 0x8000

  datatype Symbol = Symbol(duration0: Ticks, level0: bool, duration1: Ticks, level1: bool)

  datatype Phase = Phase(ticks: Ticks, high: bool)

  /** The nearest number of microseconds. */
  function Rounded(ticks: nat, hz: nat): nat
    requires hz > 0
  {
    (ticks * 1000000 + hz / 2) / hz
  }

  /** Ticks to microseconds, rounded to nearest, truncated to a 32-bit word. */
  function TicksToUs(ticks: nat, hz: nat): nat
    requires hz > 0
  {
    Rounded(ticks, hz) % WORD32
  }

  /** The phases of a capture in time order, two to a symbol. */
  function Phases(symbols: seq<Symbol>): (p: seq<Phase>)
    ensures |p| == 2 * |symbols|
  {
    if |symbols| == 0 then []
    else
      var s := symbols[|symbols| - 1];
      Phases(symbols[..|symbols| - 1]) + [Phase(s.duration0, s.level0), Phase(s.duration1, s.level1)]
  }

  /** The converted length of all phases. */
  function Length(p: seq<Phase>, hz: nat): nat
    requires hz > 0
  {
    if |p| == 0 then 0 else Length(p[..|p| - 1], hz) + TicksToUs(p[|p| - 1].ticks, hz)
  }

  function TotalTicks(p: seq<Phase>): nat {
    if |p| == 0 then 0 else TotalTicks(p[..|p| - 1]) + p[|p| - 1].ticks
  }

  /** The blockages among the phases, the first phase starting at `start`: every low phase that is not empty. */
  function Blockages(p: seq<Phase>, start: nat, hz: nat): seq<Event>
    requires hz > 0
  {
    if |p| == 0 then []
    else
      var prior, us := p[..|p| - 1], TicksToUs(p[|p| - 1].ticks, hz);
      Blockages(prior, start, hz) +
      if !p[|p| - 1].high && us != 0 then [Event(start + Length(prior, hz), us)] else []
  }

  /** The assumed start of a capture whose callback runs at `now`. */
  function Start(p: seq<Phase>, now: nat, hz: nat): nat
    requires hz > 0
  {
    if now > Length(p, hz) then now - Length(p, hz) else 0
  }

  function Captured(symbols: seq<Symbol>, now: nat, hz: nat): seq<Event>
    requires hz > 0
  {
    var p := Phases(symbols);
    Blockages(p, Start(p, now, hz), hz)
  }

  // ----- conversion ------------------------------------------------------------------

  /** Twice the error of converting `ticks`, scaled by the resolution. */
  function Error2(us: nat, ticks: nat, hz: nat): int {
    2 * (us * hz - ticks * 1000000)
  }

  lemma {:induction false} QuotientBelow(x: nat, hz: nat, bound: nat)
    requires hz > 0 && x < bound * 200000 && hz >= 200000
    ensures x / hz < bound
  {
    var q := x / hz;
    assert q * 200000 <= q * hz <= x;
  }

  lemma {:induction false} NoTruncation(ticks: Ticks, hz: nat)
    requires ValidResolution(hz)
    ensures TicksToUs(ticks, hz) == Rounded(ticks, hz)
  {
    QuotientBelow(ticks * 1000000 + hz / 2, hz, WORD32);
  }

  /** The converted length of a symbol, its two phases added in 32 bits. */
  function SymbolUs(s: Symbol, hz: nat): nat
    requires hz > 0
  {
    (TicksToUs(s.duration0, hz) + TicksToUs(s.duration1, hz)) % WORD32
  }

  lemma {:induction false} PhaseIsShort(ticks: Ticks, hz: nat)
    requires ValidResolution(hz)
    ensures TicksToUs(ticks, hz) < 200000
  {
    NoTruncation(ticks, hz);
    QuotientBelow(ticks * 1000000 + hz / 2, hz, 200000);
  }

  /** That addition never wraps. */
  lemma {:induction false} SymbolFits(s: Symbol, hz: nat)
    requires ValidResolution(hz)
    ensures SymbolUs(s, hz) == TicksToUs(s.duration0, hz) + TicksToUs(s.duration1, hz)
  {
    PhaseIsShort(s.duration0, hz);
    PhaseIsShort(s.duration1, hz);
  }

  /** The nearest number, the larger of two equally near ones. */
  lemma {:induction false} RoundedError(ticks: nat, hz: nat)
    requires hz > 0
    ensures -(hz as int) < Error2(Rounded(ticks, hz), ticks, hz) <= hz
  {
    var x := ticks * 1000000 + hz / 2;
    assert Rounded(ticks, hz) * hz == x - x % hz;
  }

  /** Conversion never truncates and is off by at most half a microsecond. */
  lemma {:induction false} ConversionRounds(ticks: Ticks, hz: nat)
    requires ValidResolution(hz)
    ensures TicksToUs(ticks, hz) == Rounded(ticks, hz)
    ensures -(hz as int) < Error2(TicksToUs(ticks, hz), ticks, hz) <= hz
  {
    NoTruncation(ticks, hz);
    RoundedError(ticks, hz);
  }

  /** Over `k` phases the drift is at most `k` half-microseconds at every valid resolution. */
  lemma {:induction false} DriftIsBounded(p: seq<Phase>, hz: nat)
    requires ValidResolution(hz)
    ensures -(|p| * hz) <= Error2(Length(p, hz), TotalTicks(p), hz) <= |p| * hz
  {
    if |p| != 0 {
      var prior, t := p[..|p| - 1], p[|p| - 1].ticks;
      DriftIsBounded(prior, hz);
      ConversionRounds(t, hz);
      ErrorsAdd(Length(prior, hz), TicksToUs(t, hz), TotalTicks(prior), t, |prior|, hz);
    }
  }

  lemma {:induction false} ErrorsAdd(us: nat, us': nat, ticks: nat, ticks': nat, k: nat, hz: nat)
    requires -(k * hz) <= Error2(us, ticks, hz) <= k * hz
    requires -(hz as int) <= Error2(us', ticks', hz) <= hz
    ensures -((k + 1) * hz) <= Error2(us + us', ticks + ticks', hz) <= (k + 1) * hz
  {
    assert (us + us') * hz == us * hz + us' * hz;
    assert (k + 1) * hz == k * hz + hz;
  }

  /** At one megahertz there is none. */
  lemma {:induction false} NoDriftAtOneMegahertz(p: seq<Phase>)
    ensures Length(p, 1000000) == TotalTicks(p)
  {
    if |p| != 0 {
      NoDriftAtOneMegahertz(p[..|p| - 1]);
    }
  }

  // ----- order -----------------------------------------------------------------------------

  /** Each event starts no earlier than the one before it ended. */
  ghost predicate Disjoint(e: seq<Event>) {
    forall i, j :: 0 <= i < j < |e| ==> e[i].timestamp + e[i].duration <= e[j].timestamp
  }

  ghost predicate Within(e: seq<Event>, lo: nat, hi: nat) {
    forall i :: 0 <= i < |e| ==> lo <= e[i].timestamp && 0 < e[i].duration && e[i].timestamp + e[i].duration <= hi
  }

  lemma {:induction false} BlockagesInOrder(p: seq<Phase>, start: nat, hz: nat)
    requires hz > 0
    ensures Disjoint(Blockages(p, start, hz))
    ensures Within(Blockages(p, start, hz), start, start + Length(p, hz))
  {
    if |p| != 0 {
      BlockagesInOrder(p[..|p| - 1], start, hz);
    }
  }

  /**
    The reconstructed blockages are ordered and pairwise disjoint whatever the
    clock says; they fit between the start of time and the callback exactly when
    the captured length does not exceed the clock value, or nothing was captured
    beyond it.
  */
  lemma {:induction false} CaptureInOrder(symbols: seq<Symbol>, now: nat, hz: nat)
    requires hz > 0
    ensures Disjoint(Captured(symbols, now, hz))
    ensures var p := Phases(symbols); var begin := Start(p, now, hz);
            && Within(Captured(symbols, now, hz), begin, begin + Length(p, hz))
            && (begin + Length(p, hz) == now <==> Length(p, hz) <= now)
            && (Length(p, hz) > now ==> begin == 0)
  {
    var p := Phases(symbols);
    BlockagesInOrder(p, Start(p, now, hz), hz);
  }

  /** `k` is the phase event `e` comes from: it starts as long before `end` as the phases from `k` on last. */
  ghost predicate EndsAt(e: Event, p: seq<Phase>, k: nat, end: nat, hz: nat)
    requires hz > 0
  {
    && k < |p| && !p[k].high && e.duration == TicksToUs(p[k].ticks, hz)
    && e.timestamp + (Length(p, hz) - Length(p[..k], hz)) == end
  }

  lemma {:induction false} EveryBlockageHasItsPhase(p: seq<Phase>, start: nat, hz: nat, i: nat) returns (k: nat)
    requires hz > 0 && i < |Blockages(p, start, hz)|
    ensures EndsAt(Blockages(p, start, hz)[i], p, k, start + Length(p, hz), hz)
  {
    var prior := p[..|p| - 1];
    if i < |Blockages(prior, start, hz)| {
      k := EveryBlockageHasItsPhase(prior, start, hz, i);
      assert prior[..k] == p[..k];
    } else {
      k := |p| - 1;
    }
  }

  /**
    When the capture fits the clock, every event starts at the callback time minus
    the converted durations from its phase on.
  */
  lemma {:induction false} StartsCountBack(symbols: seq<Symbol>, now: nat, hz: nat, i: nat) returns (k: nat)
    requires hz > 0 && i < |Captured(symbols, now, hz)| && Length(Phases(symbols), hz) <= now
    ensures EndsAt(Captured(symbols, now, hz)[i], Phases(symbols), k, now, hz)
  {
    var p := Phases(symbols);
    k := EveryBlockageHasItsPhase(p, Start(p, now, hz), hz, i);
  }

  /** Conversely every low phase that is not empty has its event, at its own place in the capture. */
  lemma {:induction false} EveryPhaseHasItsBlockage(p: seq<Phase>, start: nat, hz: nat, k: nat) returns (i: nat)
    requires hz > 0 && k < |p| && !p[k].high && TicksToUs(p[k].ticks, hz) != 0
    ensures i < |Blockages(p, start, hz)|
    ensures Blockages(p, start, hz)[i] == Event(start + Length(p[..k], hz), TicksToUs(p[k].ticks, hz))
  {
    var prior := p[..|p| - 1];
    if k < |p| - 1 {
      i := EveryPhaseHasItsBlockage(prior, start, hz, k);
      assert prior[..k] == p[..k];
    } else {
      i := |Blockages(prior, start, hz)|;
    }
  }

  /** A symbol's first phase comes before its second. */
  lemma {:induction false} PhasesInOrder(symbols: seq<Symbol>, i: nat)
    requires i < |symbols|
    ensures Phases(symbols)[2 * i] == Phase(symbols[i].duration0, symbols[i].level0)
    ensures Phases(symbols)[2 * i + 1] == Phase(symbols[i].duration1, symbols[i].level1)
  {
    if i < |symbols| - 1 {
      PhasesInOrder(symbols[..|symbols| - 1], i);
    }
  }
}
