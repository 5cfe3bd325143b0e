/**
  CSC Measurement values: event time in 1/1024 s, the little-endian payload, and
  the cumulative wheel state (section 3.1 of the Bluetooth Cycling Speed and
  Cadence Service 1.0.1).
*/
module CscMeasurement {
  import opened Words

  const MAX_REVOLUTIONS := WORD32 - 1
  const TICKS := 65536

  // ----- event time -----------------------------------------------------------

  /** The code's formula: reduce to one rollover period first, then convert and truncate to 16 bits. */
  function EventTime(us: nat): (t: nat)
    ensures t < TICKS
  {
    ((us % 64000000) * 1024 / 1000000) % TICKS
  }

  /** Elapsed 1/1024 s ticks since time zero, without any rollover. */
  function TicksOf(us: nat): nat {
    us * 1024 / 1000000
  }

  /** The 16-bit difference of two event times, as a receiver computes it. */
  function TickDifference(earlier: nat, later: nat): nat {
    ((EventTime(later) as int) - EventTime(earlier)) % TICKS
  }

  /** The reduction is exact: event time is the true tick count modulo 65536, and nothing overflows on the way. */
  lemma {:induction false} EventTimeIsModular(us: nat)
    ensures EventTime(us) == TicksOf(us) % TICKS
    ensures (us % 64000000) * 1024 < WORD64
  {
    var q, r := us / 64000000, us % 64000000;
    assert us * 1024 == (TICKS * q) * 1000000 + r * 1024;
    assert TicksOf(us) == TICKS * q + r * 1024 / 1000000;
  }

  /** Tick counts differ from the exact elapsed time by less than one tick. */
  lemma {:induction false} TicksTrackTime(earlier: nat, later: nat)
    requires earlier <= later
    ensures TicksOf(earlier) <= TicksOf(later)
    ensures -1000000 < (TicksOf(later) - TicksOf(earlier)) * 1000000 - (later - earlier) * 1024 < 1000000
  {
  }

  lemma {:induction false} DifferenceIsModular(earlier: nat, later: nat)
    requires earlier <= later
    ensures TickDifference(earlier, later) == (TicksOf(later) - TicksOf(earlier)) % TICKS
  {
    EventTimeIsModular(earlier);
    EventTimeIsModular(later);
    RemaindersSubtract(TicksOf(later), TicksOf(earlier));
  }

  lemma {:induction false} RemaindersSubtract(x: nat, y: nat)
    ensures (x % TICKS - y % TICKS) % TICKS == (x - y) % TICKS
  {
    assert x - y == TICKS * (x / TICKS - y / TICKS) + (x % TICKS - y % TICKS);
  }

  /**
    Across any rollover the 16-bit difference is within one tick of the true
    elapsed time exactly when fewer than 65536 ticks have passed.
  */
  lemma {:induction false} DifferenceWithinOneTick(earlier: nat, later: nat)
    requires earlier <= later
    ensures -1000000 < TickDifference(earlier, later) * 1000000 - (later - earlier) * 1024 < 1000000
       <==> TicksOf(later) - TicksOf(earlier) < TICKS
  {
    DifferenceIsModular(earlier, later);
    TicksTrackTime(earlier, later);
  }

  /** Sixty-four seconds less one tick is always short enough. */
  lemma {:induction false} ShortElapsedIsEnough(earlier: nat, later: nat)
    requires earlier <= later && (later - earlier) * 1024 <= (TICKS - 1) * 1000000
    ensures -1000000 < TickDifference(earlier, later) * 1000000 - (later - earlier) * 1024 < 1000000
  {
    DifferenceWithinOneTick(earlier, later);
    TicksTrackTime(earlier, later);
  }

  // ----- the payload ------------------------------------------------------------

  /** `n` little-endian bytes of `v`. */
  function LittleEndian(v: nat, n: nat): (b: seq<nat>)
    ensures |b| == n
  {
    if n == 0 then [] else [v % 256] + LittleEndian(v / 256, n - 1)
  }

  function FromLittleEndian(b: seq<nat>): nat {
    if |b| == 0 then 0 else b[0] + 256 * FromLittleEndian(b[1..])
  }

  ghost predicate Bytes(b: seq<nat>) { forall i :: 0 <= i < |b| ==> b[i] < 256 }

  function Power256(n: nat): nat {
    if n == 0 then 1 else 256 * Power256(n - 1)
  }

  lemma {:induction false} LittleEndianRoundTrip(v: nat, n: nat)
    requires v < Power256(n)
    ensures Bytes(LittleEndian(v, n)) && FromLittleEndian(LittleEndian(v, n)) == v
  {
    if n != 0 {
      LittleEndianRoundTrip(v / 256, n - 1);
      assert LittleEndian(v, n)[1..] == LittleEndian(v / 256, n - 1);
    }
  }

  lemma {:induction false} HeadByte(x: nat, rest: nat)
    requires x < 256
    ensures (x + 256 * rest) % 256 == x && (x + 256 * rest) / 256 == rest
  {
  }

  lemma {:induction false} BytesRoundTrip(b: seq<nat>)
    requires Bytes(b)
    ensures FromLittleEndian(b) < Power256(|b|) && LittleEndian(FromLittleEndian(b), |b|) == b
  {
    if |b| != 0 {
      var rest := FromLittleEndian(b[1..]);
      BytesRoundTrip(b[1..]);
      HeadByte(b[0], rest);
      assert LittleEndian(b[0] + 256 * rest, |b|) == [b[0]] + b[1..];
    }
  }

  datatype Measurement = Measurement(revolutions: nat, eventTime: nat)

  predicate Fits(m: Measurement) { m.revolutions <= MAX_REVOLUTIONS && m.eventTime < TICKS }

  /** The seven bytes sent: flags with only wheel data present, revolutions, event time. */
  function EncodeWheelMeasurement(m: Measurement): (b: seq<nat>)
    ensures |b| == 7
  {
    [0x01,
     m.revolutions % 256, m.revolutions / 0x100 % 256, m.revolutions / 0x1_0000 % 256, m.revolutions / 0x100_0000 % 256,
     m.eventTime % 256, m.eventTime / 0x100 % 256]
  }

  /** What a receiver makes of seven bytes: little-endian fields behind the flags. */
  function Decode(b: seq<nat>): Measurement
    requires |b| == 7
  {
    Measurement(FromLittleEndian(b[1..5]), FromLittleEndian(b[5..7]))
  }

  lemma {:induction false} EncodeIsLittleEndian(m: Measurement)
    ensures EncodeWheelMeasurement(m) == [0x01] + LittleEndian(m.revolutions, 4) + LittleEndian(m.eventTime, 2)
  {
    var r, t := m.revolutions, m.eventTime;
    assert r / 0x1_0000 == r / 256 / 256 && r / 0x100_0000 == r / 256 / 256 / 256;
    assert LittleEndian(t, 2) == [t % 256] + ([t / 256 % 256] + LittleEndian(t / 256 / 256, 0));
    assert LittleEndian(r, 4) == [r % 256] + ([r / 256 % 256] + LittleEndian(r / 256 / 256, 2));
    assert LittleEndian(r / 256 / 256, 2) ==
           [r / 256 / 256 % 256] + ([r / 256 / 256 / 256 % 256] + LittleEndian(r / 256 / 256 / 256 / 256, 0));
  }

  /** Encoding loses nothing, and every well-formed payload is the encoding of what it decodes to. */
  lemma {:induction false} MeasurementRoundTrip(m: Measurement)
    requires Fits(m)
    ensures Bytes(EncodeWheelMeasurement(m)) && EncodeWheelMeasurement(m)[0] == 0x01
    ensures Decode(EncodeWheelMeasurement(m)) == m
  {
    var b, r, t := EncodeWheelMeasurement(m), LittleEndian(m.revolutions, 4), LittleEndian(m.eventTime, 2);
    EncodeIsLittleEndian(m);
    PowersOf256();
    LittleEndianRoundTrip(m.revolutions, 4);
    LittleEndianRoundTrip(m.eventTime, 2);
    assert b[1..5] == r && b[5..7] == t;
  }

  /** Byte by byte: flags 1, four bytes of revolutions and two of event time, least significant first. */
  lemma {:induction false} PayloadLayout(m: Measurement)
    requires Fits(m)
    ensures var b := EncodeWheelMeasurement(m);
            && b[0] == 1
            && b[1] + 0x100 * b[2] + 0x1_0000 * b[3] + 0x100_0000 * b[4] == m.revolutions
            && b[5] + 0x100 * b[6] == m.eventTime
  {
    FourDigits(m.revolutions);
    FourDigits(m.eventTime);
  }

  lemma {:induction false} FourDigits(x: nat)
    requires x < 0x1_0000_0000
    ensures x == x % 256 + 0x100 * (x / 0x100 % 256) + 0x1_0000 * (x / 0x1_0000 % 256)
                 + 0x100_0000 * (x / 0x100_0000 % 256)
  {
    var y := x / 0x100;
    var z := y / 0x100;
    assert x / 0x1_0000 == z && x / 0x100_0000 == z / 0x100;
    assert x == x % 256 + 0x100 * y && y == y % 256 + 0x100 * z && z == z % 256 + 0x100 * (z / 0x100);
  }

  lemma {:induction false} PayloadRoundTrip(b: seq<nat>)
    requires |b| == 7 && Bytes(b) && b[0] == 0x01
    ensures Fits(Decode(b)) && EncodeWheelMeasurement(Decode(b)) == b
  {
    PowersOf256();
    BytesRoundTrip(b[1..5]);
    BytesRoundTrip(b[5..7]);
    EncodeIsLittleEndian(Decode(b));
    assert b == [b[0]] + b[1..5] + b[5..7];
  }

  lemma {:induction false} PowersOf256()
    ensures Power256(4) == MAX_REVOLUTIONS + 1 && Power256(2) == TICKS
  {
    assert Power256(2) == 256 * (256 * Power256(0));
    assert Power256(4) == 256 * (256 * Power256(2));
  }

  // ----- the cumulative wheel state -----------------------------------------------

  datatype WheelOp = Turn(us: nat) | SetCumulative(value: nat)

  class WheelState {
    var revolutions: nat
    var lastEventTime: nat

    ghost function View(): Measurement
      reads this
    {
      Measurement(revolutions, lastEventTime)
    }

    constructor ()
      ensures View() == Measurement(0, 0)
    {
      revolutions, lastEventTime := 0, 0;
    }

    method OnRevolution(us: nat)
      modifies this
      ensures View() == Apply(old(View()), Turn(us))
    {
      if revolutions != MAX_REVOLUTIONS {
        revolutions := revolutions + 1;
      }
      lastEventTime := ((us % 64000000) * 1024 / 1000000) % TICKS;
    }

    method SetCumulativeValue(value: nat)
      modifies this
      ensures View() == Apply(old(View()), SetCumulative(value))
    {
      revolutions := value;
    }

    method Payload() returns (b: seq<nat>)
      ensures b == EncodeWheelMeasurement(View())
    {
      b := EncodeWheelMeasurement(Measurement(revolutions, lastEventTime));
    }
  }

  function Apply(m: Measurement, op: WheelOp): Measurement {
    match op
    case Turn(us) =>
      Measurement(if m.revolutions != MAX_REVOLUTIONS then m.revolutions + 1 else m.revolutions, EventTime(us))
    case SetCumulative(value) =>
      m.(revolutions := value)
  }

  function Replay(m: Measurement, ops: seq<WheelOp>): Measurement {
    if |ops| == 0 then m else Apply(Replay(m, ops[..|ops| - 1]), ops[|ops| - 1])
  }

  /** The value last set, or `start` if none was. */
  function Base(start: nat, ops: seq<WheelOp>): nat {
    if |ops| == 0 then start
    else match ops[|ops| - 1]
      case SetCumulative(value) => value
      case Turn(_) => Base(start, ops[..|ops| - 1])
  }

  /** Revolutions since the value was last set. */
  function TurnsSince(ops: seq<WheelOp>): nat {
    if |ops| == 0 || ops[|ops| - 1].SetCumulative? then 0 else TurnsSince(ops[..|ops| - 1]) + 1
  }

  /** The times of all revolutions. */
  function TurnsOf(ops: seq<WheelOp>): seq<nat> {
    if |ops| == 0 then []
    else
      var prior := TurnsOf(ops[..|ops| - 1]);
      if ops[|ops| - 1].Turn? then prior + [ops[|ops| - 1].us] else prior
  }

  predicate WordSized(ops: seq<WheelOp>) {
    forall op :: op in ops && op.SetCumulative? ==> op.value <= MAX_REVOLUTIONS
  }

  function Capped(total: nat): nat {
    if total <= MAX_REVOLUTIONS then total else MAX_REVOLUTIONS
  }

  /**
    The cumulative total is the value last set plus the revolutions since, held
    at the 32-bit maximum instead of wrapping.
  */
  lemma {:induction false} TotalSaturates(m: Measurement, ops: seq<WheelOp>)
    requires Fits(m) && WordSized(ops)
    ensures Fits(Replay(m, ops))
    ensures var total := Base(m.revolutions, ops) + TurnsSince(ops);
            Replay(m, ops).revolutions == Capped(total)
    ensures Base(m.revolutions, ops) <= MAX_REVOLUTIONS
  {
    if |ops| != 0 {
      TotalSaturates(m, ops[..|ops| - 1]);
    }
  }

  lemma {:induction false} ReplayStep(m: Measurement, ops: seq<WheelOp>, op: WheelOp)
    ensures Replay(m, ops + [op]) == Apply(Replay(m, ops), op)
    ensures TurnsOf(ops + [op]) == if op.Turn? then TurnsOf(ops) + [op.us] else TurnsOf(ops)
  {
    assert (ops + [op])[..|ops|] == ops;
  }

  /** The event time after revolutions at these times. */
  function LastEventTime(before: nat, times: seq<nat>): nat {
    if |times| == 0 then before else TicksOf(times[|times| - 1]) % 65536
  }

  /** The event time is that of the last revolution, in 1/1024 s modulo 65536; setting a value does not touch it. */
  lemma {:induction false} EventTimeIsLastTurn(m: Measurement, ops: seq<WheelOp>)
    ensures Replay(m, ops).eventTime == LastEventTime(m.eventTime, TurnsOf(ops))
  {
    if |ops| != 0 {
      EventTimeIsLastTurn(m, ops[..|ops| - 1]);
      if ops[|ops| - 1].Turn? {
        EventTimeIsModular(ops[|ops| - 1].us);
      }
    }
  }
}
