/**
  The simulated receiver front end: recursive filters, the comparator with
  hysteresis, the output delay and the retriggerable carrier detector.  Each
  stage fills a fresh array in one pass; its contract is a function of the
  samples so far.
*/
module SignalChain {
  import opened Latches
  import opened Reals

  // ----- filters ------------------------------------------------------------------

  /** The low-pass accumulator after all of `x`. */
  function LowpassAcc(x: seq<real>, alpha: real, initial: real): real {
    if |x| == 0 then initial
    else
      var acc := LowpassAcc(x[..|x| - 1], alpha, initial);
      acc + alpha * (x[|x| - 1] - acc)
  }

  function Lowpass(x: seq<real>, alpha: real, initial: real): (y: seq<real>)
    ensures |y| == |x|
  {
    if |x| == 0 then [] else Lowpass(x[..|x| - 1], alpha, initial) + [LowpassAcc(x, alpha, initial)]
  }

  function Difference(x: seq<real>, y: seq<real>): (z: seq<real>)
    requires |x| == |y|
    ensures |z| == |x|
  {
    seq(|x|, i requires 0 <= i < |x| => x[i] - y[i])
  }

  function Highpass(x: seq<real>, alpha: real): (y: seq<real>)
    requires |x| > 0
    ensures |y| == |x|
  {
    Difference(x, Lowpass(x, alpha, x[0]))
  }

  function Alpha(dt: real, tau: real): real
    requires tau + dt != 0.0
  {
    dt / (tau + dt)
  }

  method RcLowpass(x: array<real>, dt: real, tau: real, initial: real) returns (y: array<real>)
    requires tau + dt != 0.0
    ensures fresh(y) && y[..] == Lowpass(x[..], Alpha(dt, tau), initial)
  {
    var alpha := dt / (tau + dt);
    y := new real[x.Length];
    var acc := initial;
    for i := 0 to x.Length
      invariant acc == LowpassAcc(x[..i], alpha, initial)
      invariant y[..i] == Lowpass(x[..i], alpha, initial)
    {
      assert x[..i + 1][..i] == x[..i];
      acc := acc + alpha * (x[i] - acc);
      y[i] := acc;
    }
    assert x[..x.Length] == x[..] && y[..y.Length] == y[..];
  }

  method RcHighpass(x: array<real>, dt: real, tau: real) returns (y: array<real>)
    requires tau + dt != 0.0 && x.Length > 0
    ensures fresh(y) && y[..] == Highpass(x[..], Alpha(dt, tau))
  {
    var baseline := RcLowpass(x, dt, tau, x[0]);
    ghost var input, low := x[..], baseline[..];
    y := new real[x.Length];
    forall i | 0 <= i < x.Length {
      y[i] := x[i] - baseline[i];
    }
    assert x[..] == input && y[..] == Difference(input, low);
  }

  // ----- the filters' equations ----------------------------------------------------------

  /** The sample before the `i`-th, `initial` being the one before the first. */
  function Before(y: seq<real>, initial: real, i: nat): real
    requires i <= |y|
  {
    if i == 0 then initial else y[i - 1]
  }

  lemma {:induction false} LowpassAt(x: seq<real>, alpha: real, initial: real, i: nat)
    requires i < |x|
    ensures var y := Lowpass(x, alpha, initial); y[i] == Before(y, initial, i) + alpha * (x[i] - Before(y, initial, i))
    ensures Lowpass(x, alpha, initial)[|x| - 1] == LowpassAcc(x, alpha, initial)
  {
    var prior := x[..|x| - 1];
    if |prior| > 0 {
      LowpassAt(prior, alpha, initial, if i < |prior| then i else |prior| - 1);
    }
  }

  /** One step of a first-order low-pass: the output changes by `dt` for each `tau` of its distance to the input. */
  predicate FilterStep(before: real, after: real, x: real, dt: real, tau: real) {
    tau * (after - before) == dt * (x - after)
  }

  lemma {:induction false} AlphaSteps(before: real, x: real, dt: real, tau: real)
    requires tau + dt != 0.0
    ensures FilterStep(before, before + Alpha(dt, tau) * (x - before), x, dt, tau)
  {
    var alpha, d := Alpha(dt, tau), x - before;
    assert alpha * (tau + dt) == dt;
    assert tau * (alpha * d) == dt * d - dt * (alpha * d) by {
      assert (alpha * (tau + dt)) * d == tau * (alpha * d) + dt * (alpha * d);
    }
    assert x - (before + alpha * d) == d - alpha * d;
  }

  /** The low-pass obeys the backward difference equation `tau * dy == dt * (x - y)` at every sample. */
  lemma {:induction false} LowpassEquation(x: seq<real>, dt: real, tau: real, initial: real, i: nat)
    requires tau + dt != 0.0 && i < |x|
    ensures var y := Lowpass(x, Alpha(dt, tau), initial); FilterStep(Before(y, initial, i), y[i], x[i], dt, tau)
  {
    LowpassAt(x, Alpha(dt, tau), initial, i);
    AlphaSteps(Before(Lowpass(x, Alpha(dt, tau), initial), initial, i), x[i], dt, tau);
  }

  /** The high-pass starts at zero, and what it takes away follows the input like a low-pass. */
  lemma {:induction false} HighpassEquation(x: seq<real>, dt: real, tau: real, i: nat)
    requires tau + dt != 0.0 && i < |x|
    ensures var z := Highpass(x, Alpha(dt, tau));
            && z[0] == 0.0
            && (i > 0 ==> FilterStep(x[i - 1] - z[i - 1], x[i] - z[i], x[i], dt, tau))
  {
    LowpassEquation(x, dt, tau, x[0], i);
    FirstStep(x, Alpha(dt, tau));
  }

  // ----- offsets -----------------------------------------------------------------------

  /** `y` is `x` raised by `c` everywhere. */
  ghost predicate Raised(x: seq<real>, y: seq<real>, c: real) {
    |y| == |x| && forall i :: 0 <= i < |x| ==> y[i] == x[i] + c
  }

  lemma {:induction false} FilterStepRaised(acc: real, x: real, alpha: real, c: real)
    ensures (acc + c) + alpha * ((x + c) - (acc + c)) == acc + alpha * (x - acc) + c
  {
    assert (x + c) - (acc + c) == x - acc;
  }

  lemma {:induction false} AccRaised(x: seq<real>, y: seq<real>, alpha: real, initial: real, c: real)
    requires Raised(x, y, c)
    ensures LowpassAcc(y, alpha, initial + c) == LowpassAcc(x, alpha, initial) + c
  {
    if |x| != 0 {
      AccRaised(x[..|x| - 1], y[..|y| - 1], alpha, initial, c);
      FilterStepRaised(LowpassAcc(x[..|x| - 1], alpha, initial), x[|x| - 1], alpha, c);
    }
  }

  /** A low-pass started on the offset signal carries the offset through unchanged. */
  lemma {:induction false} LowpassRaised(x: seq<real>, y: seq<real>, alpha: real, initial: real, c: real)
    requires Raised(x, y, c)
    ensures Raised(Lowpass(x, alpha, initial), Lowpass(y, alpha, initial + c), c)
  {
    if |x| != 0 {
      LowpassRaised(x[..|x| - 1], y[..|y| - 1], alpha, initial, c);
      AccRaised(x, y, alpha, initial, c);
    }
  }

  /** A high-pass removes any constant offset entirely. */
  lemma {:induction false} HighpassIgnoresOffset(x: seq<real>, y: seq<real>, alpha: real, c: real)
    requires Raised(x, y, c) && |x| > 0
    ensures Highpass(y, alpha) == Highpass(x, alpha)
  {
    LowpassRaised(x, y, alpha, x[0], c);
    forall i | 0 <= i < |x|
      ensures Highpass(y, alpha)[i] == Highpass(x, alpha)[i]
    {
    }
  }

  // ----- comparator -------------------------------------------------------------------------

  datatype Thresholds = Thresholds(rising: real, falling: real)

  /** The comparator's next output: it rises above the upper and falls below the lower threshold. */
  function Compare(on: bool, v: real, t: Thresholds): bool {
    if !on && v > t.rising then true
    else if on && v < t.falling then false
    else on
  }

  /** The comparator's output after all of `v`, off before the first sample. */
  function ComparatorState(v: seq<real>, t: Thresholds): bool {
    if |v| == 0 then false else Compare(ComparatorState(v[..|v| - 1], t), v[|v| - 1], t)
  }

  function Comparator(v: seq<real>, t: Thresholds): (d: seq<bool>)
    ensures |d| == |v|
  {
    if |v| == 0 then [] else Comparator(v[..|v| - 1], t) + [ComparatorState(v, t)]
  }

  method RunComparator(v: array<real>, t: Thresholds) returns (d: array<bool>)
    ensures fresh(d) && d[..] == Comparator(v[..], t)
  {
    d := new bool[v.Length];
    var on := false;
    for i := 0 to v.Length
      invariant on == ComparatorState(v[..i], t)
      invariant d[..i] == Comparator(v[..i], t)
    {
      assert v[..i + 1][..i] == v[..i];
      var threshold := if on then t.falling else t.rising;
      if !on && v[i] > threshold {
        on := true;
      } else if on && v[i] < threshold {
        on := false;
      }
      d[i] := on;
    }
    assert v[..v.Length] == v[..] && d[..d.Length] == d[..];
  }

  lemma {:induction false} ComparatorAt(v: seq<real>, t: Thresholds, i: nat)
    requires i < |v|
    ensures Comparator(v, t)[i] == ComparatorState(v[..i + 1], t)
  {
    if i < |v| - 1 {
      ComparatorAt(v[..|v| - 1], t, i);
      assert v[..|v| - 1][..i + 1] == v[..i + 1];
    } else {
      assert v[..i + 1] == v;
    }
  }

  /** A sample between the thresholds never changes the output. */
  lemma {:induction false} QuietSampleKeepsOutput(v: seq<real>, t: Thresholds, i: nat)
    requires 0 < i < |v| && t.falling <= v[i] <= t.rising
    ensures Comparator(v, t)[i] == Comparator(v, t)[i - 1]
  {
    ComparatorAt(v, t, i);
    ComparatorAt(v, t, i - 1);
    assert v[..i + 1][..i] == v[..i];
  }

  /** What one sample asks of the comparator. */
  function Asks(v: real, t: Thresholds): Signal {
    if v > t.rising then Set else if v < t.falling then Reset else Keep
  }

  function Requests(v: seq<real>, t: Thresholds): (s: seq<Signal>)
    ensures |s| == |v|
  {
    seq(|v|, i requires 0 <= i < |v| => Asks(v[i], t))
  }

  lemma {:induction false} ComparatorIsLatch(v: seq<real>, t: Thresholds)
    requires t.rising >= t.falling
    ensures ComparatorState(v, t) <==> Latched(Requests(v, t))
  {
    if |v| != 0 {
      ComparatorIsLatch(v[..|v| - 1], t);
      LatchStep(Requests(v, t));
      assert Requests(v, t)[..|v| - 1] == Requests(v[..|v| - 1], t);
    }
  }

  /** No sample from `j` to `i` is below the lower threshold. */
  ghost predicate NeverBelow(v: seq<real>, t: Thresholds, j: nat, i: nat)
    requires i < |v|
  {
    forall k :: j <= k <= i ==> v[k] >= t.falling
  }

  /**
    The output is on at a sample if and only if the signal was above the upper
    threshold at some sample up to then and never below the lower one since.
  */
  lemma {:induction false} ComparatorExactly(v: seq<real>, t: Thresholds, i: nat)
    requires t.rising >= t.falling && i < |v|
    ensures Comparator(v, t)[i] <==> exists j :: 0 <= j <= i && v[j] > t.rising && NeverBelow(v, t, j + 1, i)
  {
    var upTo := v[..i + 1];
    var s := Requests(upTo, t);
    ComparatorAt(v, t, i);
    ComparatorIsLatch(upTo, t);
    if Latched(s) {
      var j :| 0 <= j < |s| && s[j] == Set && NotReset(s, j + 1);
      forall k | j + 1 <= k <= i
        ensures v[k] >= t.falling
      {
        assert s[k] != Reset;
      }
      assert v[j] > t.rising && NeverBelow(v, t, j + 1, i);
    }
    if j :| 0 <= j <= i && v[j] > t.rising && NeverBelow(v, t, j + 1, i) {
      assert s[j] == Set && NotReset(s, j + 1);
    }
  }

  // ----- anti-chatter ------------------------------------------------------------------------------

  function Toggles(v: seq<real>, t: Thresholds): nat {
    if |v| == 0 then 0
    else
      var prior := v[..|v| - 1];
      Toggles(prior, t) + if ComparatorState(v, t) != ComparatorState(prior, t) then 1 else 0
  }

  /** Total variation of the signal. */
  function Variation(v: seq<real>): real {
    if |v| < 2 then 0.0 else Variation(v[..|v| - 1]) + Abs(v[|v| - 1] - v[|v| - 2])
  }

  /** How far the signal has already moved back from the threshold of its last toggle. */
  function Retreat(v: seq<real>, t: Thresholds): real
    requires |v| > 0
  {
    if ComparatorState(v, t) then Max(0.0, t.rising - v[|v| - 1]) else Max(0.0, v[|v| - 1] - t.falling)
  }

  function Times(k: nat, h: real): real {
    if k == 0 then 0.0 else Times(k - 1, h) + h
  }

  lemma {:induction false} VariationCoversToggles(v: seq<real>, t: Thresholds)
    requires t.rising > t.falling && |v| > 0
    ensures Toggles(v, t) > 0 ==>
              Variation(v) >= Times(Toggles(v, t) - 1, t.rising - t.falling) + Retreat(v, t)
    ensures Toggles(v, t) == 0 ==> !ComparatorState(v, t)
    ensures Variation(v) >= 0.0
  {
    if |v| > 1 {
      VariationCoversToggles(v[..|v| - 1], t);
    }
  }

  lemma {:induction false} TimesIsProduct(k: nat, h: real)
    ensures Times(k, h) == k as real * h
  {
    if k != 0 {
      TimesIsProduct(k - 1, h);
      assert (k - 1) as real * h + h == k as real * h;
    }
  }

  /** The thresholds of the summing node with external feedback and internal hysteresis. */
  function NodeThresholds(vref: real, supply: real, ratio: real, internal: real): Thresholds {
    Thresholds(vref * (1.0 + ratio) + 0.5 * internal, vref + (vref - supply) * ratio - 0.5 * internal)
  }

  /**
    The summing node balances input against fed-back output: half the internal
    hysteresis short of the upper threshold it is at the reference with the output
    low, and as much above the lower one with the output high.
  */
  lemma {:induction false} NodeBalances(vref: real, supply: real, ratio: real, internal: real)
    ensures var t := NodeThresholds(vref, supply, ratio, internal);
            && (t.rising - 0.5 * internal) + ratio * 0.0 == vref * (1.0 + ratio)
            && (t.falling + 0.5 * internal) + ratio * supply == vref * (1.0 + ratio)
  {
  }

  lemma {:induction false} HysteresisWidth(vref: real, supply: real, ratio: real, internal: real)
    ensures var t := NodeThresholds(vref, supply, ratio, internal);
            t.rising - t.falling == supply * ratio + internal
  {
  }

  /**
    Every toggle after the first costs the input at least the full hysteresis:
    the feedback share of the supply plus the comparator's own.
  */
  lemma {:induction false} AntiChatter(v: seq<real>, vref: real, supply: real, ratio: real, internal: real)
    requires supply * ratio + internal > 0.0
    requires Toggles(v, NodeThresholds(vref, supply, ratio, internal)) > 0
    ensures Variation(v) >=
            (Toggles(v, NodeThresholds(vref, supply, ratio, internal)) - 1) as real * (supply * ratio + internal)
  {
    var t := NodeThresholds(vref, supply, ratio, internal);
    HysteresisWidth(vref, supply, ratio, internal);
    ToggleCost(v, t, supply * ratio + internal);
  }

  lemma {:induction false} ToggleCost(v: seq<real>, t: Thresholds, h: real)
    requires t.rising - t.falling == h > 0.0 && Toggles(v, t) > 0
    ensures Variation(v) >= (Toggles(v, t) - 1) as real * h
  {
    var k := Toggles(v, t) - 1;
    ToggleVariation(v, t, k, h);
    TimesIsProduct(k, h);
  }

  lemma {:induction false} ToggleVariation(v: seq<real>, t: Thresholds, k: nat, h: real)
    requires t.rising - t.falling == h > 0.0 && Toggles(v, t) == k + 1
    ensures Variation(v) >= Times(k, h)
  {
    VariationCoversToggles(v, t);
  }

  // ----- delay and carrier detector -----------------------------------------------------------------

  /** Samples shifted later by `d`, the first one repeated in front. */
  function Delayed(x: seq<bool>, d: nat): (y: seq<bool>)
    requires |x| > 0
    ensures |y| == |x|
  {
    seq(|x|, i requires 0 <= i < |x| => if i < d then x[0] else x[i - d])
  }

  method DelayedLogic(x: array<bool>, delay: nat) returns (out: array<bool>)
    requires x.Length > 0
    ensures fresh(out) && out[..] == Delayed(x[..], delay)
  {
    out := new bool[x.Length];
    for i := 0 to x.Length
      invariant out[..i] == Delayed(x[..], delay)[..i]
    {
      out[i] := if i < delay then x[0] else x[i - delay];
    }
    assert out[..out.Length] == out[..];
  }

  /** What remains of the hold time after all of `d`. */
  function Countdown(d: seq<bool>, hold: nat): nat {
    if |d| < 2 then 0
    else if d[|d| - 1] != d[|d| - 2] then hold
    else
      var c := Countdown(d[..|d| - 1], hold);
      if c > 0 then c - 1 else 0
  }

  function CarrierPresent(d: seq<bool>, hold: nat): (y: seq<bool>)
    ensures |y| == |d|
  {
    if |d| == 0 then [] else CarrierPresent(d[..|d| - 1], hold) + [Countdown(d, hold) > 0]
  }

  method RmtCarrierRemove(d: array<bool>, hold: nat) returns (out: array<bool>)
    requires d.Length > 0
    ensures fresh(out) && out[..] == CarrierPresent(d[..], hold)
  {
    out := new bool[d.Length];
    var countdown := 0;
    var previous := d[0];
    for i := 0 to d.Length
      invariant countdown == Countdown(d[..i], hold)
      invariant previous == if i == 0 then d[0] else d[i - 1]
      invariant out[..i] == CarrierPresent(d[..i], hold)
    {
      assert d[..i + 1][..i] == d[..i];
      var current := d[i];
      if current != previous {
        countdown := hold;
      } else if countdown > 0 {
        countdown := countdown - 1;
      }
      out[i] := countdown > 0;
      previous := current;
    }
    assert d[..d.Length] == d[..] && out[..out.Length] == out[..];
  }

  /** The input changes at sample `j`. */
  predicate Transition(d: seq<bool>, j: nat)
    requires j < |d|
  {
    j > 0 && d[j] != d[j - 1]
  }

  /** Samples of hold left at `i` after a transition at `j`. */
  lemma {:induction false} CountdownMeansRecent(d: seq<bool>, hold: nat)
    requires |d| > 0
    ensures forall j :: 0 <= j < |d| && Transition(d, j) ==> Countdown(d, hold) + (|d| - 1 - j) >= hold
    ensures Countdown(d, hold) > 0 ==>
              exists j :: 0 <= j < |d| && Transition(d, j) && Countdown(d, hold) + (|d| - 1 - j) == hold
  {
    if |d| > 1 {
      var prior := d[..|d| - 1];
      CountdownMeansRecent(prior, hold);
      forall j | 0 <= j < |d| && Transition(d, j)
        ensures Countdown(d, hold) + (|d| - 1 - j) >= hold
      {
        if j < |d| - 1 {
          assert Transition(prior, j);
        }
      }
      if Countdown(d, hold) > 0 {
        if d[|d| - 1] != d[|d| - 2] {
          assert Transition(d, |d| - 1);
        } else {
          var j :| 0 <= j < |prior| && Transition(prior, j) && Countdown(prior, hold) + (|prior| - 1 - j) == hold;
          assert Transition(d, j);
        }
      }
    }
  }

  lemma {:induction false} CarrierPresentAt(d: seq<bool>, hold: nat, i: nat)
    requires i < |d|
    ensures CarrierPresent(d, hold)[i] == (Countdown(d[..i + 1], hold) > 0)
  {
    if i < |d| - 1 {
      CarrierPresentAt(d[..|d| - 1], hold, i);
      assert d[..|d| - 1][..i + 1] == d[..i + 1];
    } else {
      assert d[..i + 1] == d;
    }
  }

  /** The detector reports carrier exactly when the input changed within the last `hold` samples. */
  lemma {:induction false} CarrierIsRecentTransition(d: seq<bool>, hold: nat, i: nat)
    requires i < |d|
    ensures CarrierPresent(d, hold)[i] <==> exists j :: 0 <= j <= i && i - j < hold && Transition(d, j)
  {
    var upTo := d[..i + 1];
    CarrierPresentAt(d, hold, i);
    CountdownMeansRecent(upTo, hold);
    forall j | 0 <= j <= i
      ensures Transition(upTo, j) == Transition(d, j)
    {
    }
    if Countdown(upTo, hold) > 0 {
      var j :| 0 <= j < |upTo| && Transition(upTo, j) && Countdown(upTo, hold) + (|upTo| - 1 - j) == hold;
      HoldBounded(upTo, hold);
      assert Transition(d, j) && i - j < hold;
    }
    if j :| 0 <= j <= i && i - j < hold && Transition(d, j) {
      assert Transition(upTo, j);
    }
  }

  lemma {:induction false} HoldBounded(d: seq<bool>, hold: nat)
    ensures Countdown(d, hold) <= hold
  {
    if |d| > 1 {
      HoldBounded(d[..|d| - 1], hold);
    }
  }

  // ----- the whole chain ---------------------------------------------------------------------------------

  /** Sample time, component values and detector timing. */
  datatype Parts = Parts(
    dt: real, tiaTau: real, acTau: real, gainTau: real,
    feedbackOhm: real, vref: real, supply: real, gain: real,
    thresholds: Thresholds, delay: nat, hold: nat)

  /** A positive sample time, no negative time constant, and at least one sample of hold. */
  type Circuit = c: Parts | c.dt > 0.0 && c.tiaTau >= 0.0 && c.acTau >= 0.0 && c.gainTau >= 0.0 && c.hold > 0
    witness Parts(1.0, 0.0, 0.0, 0.0, 1.0, 1.0, 2.0, 1.0, Thresholds(1.0, 1.0), 0, 1)

  function Clip(v: real, lo: real, hi: real): real { Min(Max(v, lo), hi) }

  function BelowReference(delta: seq<real>, vref: real): (v: seq<real>)
    ensures |v| == |delta|
  {
    seq(|delta|, i requires 0 <= i < |delta| => vref + -delta[i])
  }

  function Clipped(x: seq<real>, vref: real, supply: real): (v: seq<real>)
    ensures |v| == |x|
  {
    seq(|x|, i requires 0 <= i < |x| => Clip(vref + x[i], 0.04, supply - 0.04))
  }

  function Complement(d: seq<bool>): (r: seq<bool>)
    ensures |r| == |d|
  {
    seq(|d|, i requires 0 <= i < |d| => !d[i])
  }

  /** The transimpedance output for a photocurrent. */
  function Tia(photo: seq<real>, c: Circuit): (v: seq<real>)
    requires |photo| > 0
    ensures |v| == |photo|
  {
    var scaled := Scaled(photo, c.feedbackOhm);
    var delta := Lowpass(scaled, Alpha(c.dt, c.tiaTau), scaled[0]);
    BelowReference(delta, c.vref)
  }

  function AcCoupled(photo: seq<real>, c: Circuit): (v: seq<real>)
    requires |photo| > 0
    ensures |v| == |photo|
  {
    Highpass(Tia(photo, c), Alpha(c.dt, c.acTau))
  }

  function Bandpass(ac: seq<real>, c: Circuit): (v: seq<real>)
    ensures |v| == |ac|
  {
    Clipped(Lowpass(Scaled(ac, c.gain), Alpha(c.dt, c.gainTau), 0.0), c.vref, c.supply)
  }

  function BandpassOf(photo: seq<real>, c: Circuit): (v: seq<real>)
    requires |photo| > 0
    ensures |v| == |photo|
  {
    Bandpass(AcCoupled(photo, c), c)
  }

  /** Blocked is the complement of carrier detected behind the delayed comparator. */
  function Blocked(band: seq<real>, c: Circuit): (b: seq<bool>)
    requires |band| > 0
    ensures |b| == |band|
  {
    Complement(CarrierPresent(Delayed(Comparator(band, c.thresholds), c.delay), c.hold))
  }

  /** The chain from photocurrent to band-pass voltage and blocked output, one array per stage. */
  method Simulate(photo: array<real>, c: Circuit) returns (bandpass: array<real>, blocked: array<bool>)
    requires photo.Length > 0
    ensures fresh(bandpass) && bandpass[..] == BandpassOf(photo[..], c)
    ensures fresh(blocked) && blocked[..] == Blocked(bandpass[..], c)
  {
    bandpass := AnalogFrontEnd(photo, c);
    blocked := BlockedStage(bandpass, c);
  }

  method BlockedStage(bandpass: array<real>, c: Circuit) returns (blocked: array<bool>)
    requires bandpass.Length > 0
    ensures fresh(blocked) && blocked[..] == Blocked(bandpass[..], c)
  {
    ghost var band := bandpass[..];
    var ideal := RunComparator(bandpass, c.thresholds);
    var comparator := DelayedLogic(ideal, c.delay);
    assert bandpass[..] == band;
    var clear := RmtCarrierRemove(comparator, c.hold);
    ghost var present := clear[..];
    blocked := new bool[bandpass.Length];
    forall i | 0 <= i < bandpass.Length {
      blocked[i] := !clear[i];
    }
    assert bandpass[..] == band && blocked[..] == Complement(present);
  }

  method AnalogFrontEnd(photo: array<real>, c: Circuit) returns (bandpass: array<real>)
    requires photo.Length > 0
    ensures fresh(bandpass) && bandpass[..] == BandpassOf(photo[..], c)
  {
    ghost var light := photo[..];
    var tia := TiaStage(photo, c);
    var ac := RcHighpass(tia, c.dt, c.acTau);
    bandpass := BandpassStage(ac, c);
    assert photo[..] == light;
  }

  method TiaStage(photo: array<real>, c: Circuit) returns (tia: array<real>)
    requires photo.Length > 0
    ensures fresh(tia) && tia[..] == Tia(photo[..], c)
  {
    ghost var light := photo[..];
    var scaled := Amplify(photo, c.feedbackOhm);
    assert scaled[0] == scaled[..][0];
    var low := RcLowpass(scaled, c.dt, c.tiaTau, scaled[0]);
    ghost var delta := low[..];
    tia := new real[photo.Length];
    forall i | 0 <= i < photo.Length {
      tia[i] := c.vref + -low[i];
    }
    assert photo[..] == light && tia[..] == BelowReference(delta, c.vref);
  }

  method BandpassStage(ac: array<real>, c: Circuit) returns (bandpass: array<real>)
    ensures fresh(bandpass) && bandpass[..] == Bandpass(ac[..], c)
  {
    ghost var input := ac[..];
    var amplified := Amplify(ac, c.gain);
    var low := RcLowpass(amplified, c.dt, c.gainTau, 0.0);
    ghost var output := low[..];
    bandpass := new real[ac.Length];
    forall i | 0 <= i < ac.Length {
      bandpass[i] := Clip(c.vref + low[i], 0.04, c.supply - 0.04);
    }
    assert ac[..] == input && bandpass[..] == Clipped(output, c.vref, c.supply);
  }

  method Amplify(x: array<real>, factor: real) returns (y: array<real>)
    ensures fresh(y) && y[..] == Scaled(x[..], factor)
  {
    y := new real[x.Length];
    forall i | 0 <= i < x.Length {
      y[i] := x[i] * factor;
    }
    forall i | 0 <= i < x.Length
      ensures y[..][i] == Scaled(x[..], factor)[i]
    {
      assert y[i] == x[..][i] * factor;
    }
  }

  /**
    The stages in circuit terms: the transimpedance output falls below the
    reference by the low-passed product of photocurrent and feedback resistance,
    settled at the first sample; the AC-coupled signal is what the coupling's
    low-pass leaves of it; the band-pass voltage is the reference plus the
    low-passed amplified signal, from zero, held 40 mV inside the rails.
  */
  lemma {:induction false} StageEquations(photo: seq<real>, c: Circuit, i: nat)
    requires i < |photo|
    ensures TiaEquation(photo, Tia(photo, c), c, i)
    ensures CouplingEquation(Tia(photo, c), AcCoupled(photo, c), c, i)
    ensures BandpassEquation(AcCoupled(photo, c), BandpassOf(photo, c), c, i)
  {
    TiaObeys(photo, c, i);
    HighpassEquation(Tia(photo, c), c.dt, c.acTau, i);
    BandpassObeys(AcCoupled(photo, c), c, i);
  }

  lemma {:induction false} TiaObeys(photo: seq<real>, c: Circuit, i: nat)
    requires i < |photo|
    ensures TiaEquation(photo, Tia(photo, c), c, i)
  {
    var x := Scaled(photo, c.feedbackOhm);
    LowpassEquation(x, c.dt, c.tiaTau, x[0], i);
    FirstStep(x, Alpha(c.dt, c.tiaTau));
  }

  lemma {:induction false} FirstStep(x: seq<real>, alpha: real)
    requires |x| > 0
    ensures Lowpass(x, alpha, x[0])[0] == x[0]
  {
    LowpassAt(x, alpha, x[0], 0);
    assert alpha * (x[0] - x[0]) == 0.0;
  }

  lemma {:induction false} BandpassObeys(ac: seq<real>, c: Circuit, i: nat)
    requires i < |ac|
    ensures BandpassEquation(ac, Bandpass(ac, c), c, i)
  {
    LowpassEquation(Scaled(ac, c.gain), c.dt, c.gainTau, 0.0, i);
  }

  predicate TiaEquation(photo: seq<real>, v: seq<real>, c: Circuit, i: nat)
    requires i < |photo| == |v|
  {
    && c.vref - v[0] == photo[0] * c.feedbackOhm
    && (i > 0 ==> FilterStep(c.vref - v[i - 1], c.vref - v[i], photo[i] * c.feedbackOhm, c.dt, c.tiaTau))
  }

  predicate CouplingEquation(v: seq<real>, ac: seq<real>, c: Circuit, i: nat)
    requires i < |v| == |ac|
  {
    ac[0] == 0.0 && (i > 0 ==> FilterStep(v[i - 1] - ac[i - 1], v[i] - ac[i], v[i], c.dt, c.acTau))
  }

  /** `u` is the amplified and low-passed signal behind the band-pass voltage. */
  ghost predicate BandpassEquation(ac: seq<real>, v: seq<real>, c: Circuit, i: nat)
    requires i < |ac| == |v|
  {
    var u := Lowpass(Scaled(ac, c.gain), Alpha(c.dt, c.gainTau), 0.0);
    && FilterStep(Before(u, 0.0, i), u[i], ac[i] * c.gain, c.dt, c.gainTau)
    && v[i] == Railed(c.vref + u[i], c.supply)
  }

  /** The voltage, or the rail's limit it would exceed; the upper one wins. */
  function Railed(v: real, supply: real): real {
    if v > supply - 0.04 then supply - 0.04 else if v < 0.04 then Min(0.04, supply - 0.04) else v
  }

  lemma {:induction false} TiaRaised(photo: seq<real>, lit: seq<real>, c: Circuit, offset: real)
    requires |photo| > 0 && Raised(photo, lit, offset)
    ensures Raised(Tia(photo, c), Tia(lit, c), -(offset * c.feedbackOhm))
  {
    var x, y, shift := Scaled(photo, c.feedbackOhm), Scaled(lit, c.feedbackOhm), offset * c.feedbackOhm;
    forall i | 0 <= i < |photo|
      ensures y[i] == x[i] + shift
    {
      Distribute(photo[i], offset, c.feedbackOhm);
    }
    LowpassRaised(x, y, Alpha(c.dt, c.tiaTau), x[0], shift);
  }

  /**
    Constant light does not matter: whatever the photocurrent, its noise
    included, adding any constant to it leaves the AC-coupled signal, the
    band-pass, the comparator and the blocked output the same at every sample.
  */
  lemma {:induction false} ConstantLightIsRejected(photo: seq<real>, lit: seq<real>, c: Circuit, offset: real)
    requires |photo| > 0 && Raised(photo, lit, offset)
    ensures AcCoupled(lit, c) == AcCoupled(photo, c)
    ensures BandpassOf(lit, c) == BandpassOf(photo, c)
    ensures Comparator(BandpassOf(lit, c), c.thresholds) == Comparator(BandpassOf(photo, c), c.thresholds)
    ensures Blocked(BandpassOf(lit, c), c) == Blocked(BandpassOf(photo, c), c)
  {
    TiaRaised(photo, lit, c, offset);
    HighpassIgnoresOffset(Tia(photo, c), Tia(lit, c), Alpha(c.dt, c.acTau), -(offset * c.feedbackOhm));
  }

  /** The comparator's output changes at sample `j`. */
  ghost predicate Changes(band: seq<real>, t: Thresholds, j: nat) {
    0 < j < |band| && Comparator(band, t)[j] != Comparator(band, t)[j - 1]
  }

  /**
    The output is clear at a sample exactly when the comparator, `delay` samples
    earlier, has changed within the last `hold` samples.
  */
  lemma {:induction false} ClearExactly(band: seq<real>, c: Circuit, i: nat)
    requires i < |band|
    ensures !Blocked(band, c)[i] <==>
            exists j: nat :: j + c.delay <= i < j + c.delay + c.hold && Changes(band, c.thresholds, j)
  {
    var d := Delayed(Comparator(band, c.thresholds), c.delay);
    CarrierIsRecentTransition(d, c.hold, i);
    if !Blocked(band, c)[i] {
      var k :| 0 <= k <= i && i - k < c.hold && Transition(d, k);
      assert Changes(band, c.thresholds, k - c.delay);
    }
    if j: nat :| j + c.delay <= i < j + c.delay + c.hold && Changes(band, c.thresholds, j) {
      assert Transition(d, j + c.delay);
    }
  }

  /**
    Carrier loss is reported on time: while the band-pass stays between the
    thresholds from sample `a` to `b`, the output is blocked from
    `a + delay + hold - 1` to `b + delay`.
  */
  lemma {:induction false} QuietBandIsBlocked(band: seq<real>, c: Circuit, a: nat, b: nat, i: nat)
    requires |band| > 0 && a <= b
    requires forall j :: a <= j <= b && j < |band| ==> c.thresholds.falling <= band[j] <= c.thresholds.rising
    requires a + c.delay + c.hold - 1 <= i <= b + c.delay && i < |band|
    ensures Blocked(band, c)[i]
  {
    ClearExactly(band, c, i);
    forall j: nat | j + c.delay <= i < j + c.delay + c.hold
      ensures !Changes(band, c.thresholds, j)
    {
      if j > 0 {
        QuietSampleKeepsOutput(band, c.thresholds, j);
      }
    }
  }

  /**
    A carrier is reported as clear: if the signal is below the lower threshold at
    some sample, above the upper one at a later sample, and both come within the
    hold time of sample `i`, then the output is not blocked there.
  */
  lemma {:induction false} CarrierIsClear(band: seq<real>, c: Circuit, low: nat, high: nat, i: nat)
    requires c.thresholds.rising >= c.thresholds.falling && low < high && i < |band|
    requires high + c.delay <= i < low + 1 + c.delay + c.hold
    requires band[low] < c.thresholds.falling && band[high] > c.thresholds.rising
    ensures !Blocked(band, c)[i]
  {
    var t := c.thresholds;
    ComparatorExactly(band, t, high);
    assert NeverBelow(band, t, high + 1, high);
    ComparatorExactly(band, t, low);
    forall j | 0 <= j <= low && band[j] > t.rising
      ensures !NeverBelow(band, t, j + 1, low)
    {
    }
    var j := FirstChange(band, t, low, high);
    ClearExactly(band, c, i);
  }

  lemma {:induction false} FirstChange(band: seq<real>, t: Thresholds, low: nat, high: nat) returns (j: nat)
    requires low < high < |band| && !Comparator(band, t)[low] && Comparator(band, t)[high]
    ensures low < j <= high && Changes(band, t, j)
    decreases high - low
  {
    if Comparator(band, t)[low + 1] {
      j := low + 1;
    } else {
      j := FirstChange(band, t, low + 1, high);
    }
  }
}
