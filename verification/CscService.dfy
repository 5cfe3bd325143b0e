/**
  The CSC service: connection and subscription state, the SC Control Point
  procedure (section 3.4 of the Bluetooth Cycling Speed and Cadence Service
  1.0.1), and the rate limit on measurements.
*/
module CscService {
  import opened CscMeasurement
  import opened Latches
  import opened Words

  /** The invalid connection handle. */
  const NONE := 0xFFFF
  const NOTIFY_INTERVAL_US := 1000000

  // ----- the fields behind the lock, and what each critical section does to them ----------

  datatype Fields = Fields(
    connection: nat,
    control: nat,
    inProgress: bool,
    measurementSubscribed: bool,
    indicationsEnabled: bool,
    wheel: Measurement)

  function Released(f: Fields): Fields { f.(inProgress := false, control := NONE) }

  function Begun(f: Fields, conn: nat): Fields {
    if f.inProgress then f else f.(inProgress := true, control := conn)
  }

  function Disconnected(f: Fields): Fields {
    f.(connection := NONE, control := NONE, inProgress := false, measurementSubscribed := false,
       indicationsEnabled := false)
  }

  /**
    An indication on the control point was reported for `handle`: sent or
    acknowledged, the code does not tell them apart.
  */
  function IndicationReported(f: Fields, handle: nat): Fields {
    if f.control == handle then Released(f) else f
  }

  predicate Permits(f: Fields, conn: nat) { f.connection == conn && f.indicationsEnabled }

  // ----- control point requests ---------------------------------------------------------

  const SET_CUMULATIVE := 0x01
  const RESPONSE_SUCCESS := 0x01
  const RESPONSE_NOT_SUPPORTED := 0x02
  const RESPONSE_FAILED := 0x04

  datatype AccessResult =
    | Done
    | CccdImproperlyConfigured
    | AlreadyInProgress
    | InvalidLength
    | InsufficientResources
    | Unlikely

  /** The request carries a value to set: the right opcode, exactly four more bytes, all of them readable. */
  predicate Sets(request: seq<nat>, readable: bool) {
    |request| == 5 && request[0] == SET_CUMULATIVE && readable
  }

  function Executed(f: Fields, request: seq<nat>, readable: bool): Fields {
    if Sets(request, readable) then
      f.(wheel := Apply(f.wheel, SetCumulative(FromLittleEndian(request[1..5]))))
    else
      f
  }

  function ResponseCode(request: seq<nat>, readable: bool): nat
    requires |request| > 0
  {
    if request[0] != SET_CUMULATIVE then RESPONSE_NOT_SUPPORTED
    else if Sets(request, readable) then RESPONSE_SUCCESS
    else RESPONSE_FAILED
  }

  /** What the host stack does during one write: each part may fail. */
  datatype Stack = Stack(firstReadable: bool, readable: bool, buffer: bool, indicate: bool)

  function AccessCode(f: Fields, conn: nat, request: seq<nat>, stack: Stack): AccessResult {
    if !Permits(f, conn) then CccdImproperlyConfigured
    else if f.inProgress then AlreadyInProgress
    else if |request| == 0 || !stack.firstReadable then InvalidLength
    else if !stack.buffer then InsufficientResources
    else if !stack.indicate then Unlikely
    else Done
  }

  /** The value is set before the indication is attempted, and stays set when that fails. */
  function AccessEffect(f: Fields, conn: nat, request: seq<nat>, stack: Stack): Fields {
    match AccessCode(f, conn, request, stack)
    case CccdImproperlyConfigured => f
    case AlreadyInProgress => f
    case InvalidLength => Released(f)
    case InsufficientResources => Released(Executed(f, request, stack.readable))
    case Unlikely => Released(Executed(f, request, stack.readable))
    case Done => Begun(Executed(f, request, stack.readable), conn)
  }

  /** A write gets past the tests and carries a value to set. */
  predicate WriteSets(f: Fields, conn: nat, request: seq<nat>, stack: Stack) {
    var code := AccessCode(f, conn, request, stack);
    (code == InsufficientResources || code == Unlikely || code == Done) && Sets(request, stack.readable)
  }

  /** Then exactly that value reaches the wheel. */
  lemma {:induction false} WriteSetsWheel(f: Fields, conn: nat, request: seq<nat>, stack: Stack)
    requires Bytes(request)
    ensures AccessEffect(f, conn, request, stack).wheel ==
            if WriteSets(f, conn, request, stack) then Apply(f.wheel, SetCumulative(FromLittleEndian(request[1..5])))
            else f.wheel
    ensures WriteSets(f, conn, request, stack) ==> FromLittleEndian(request[1..5]) <= MAX_REVOLUTIONS
  {
    if Sets(request, stack.readable) {
      PowersOf256();
      BytesRoundTrip(request[1..5]);
    }
  }

  datatype NotifyOutcome = NotConnected | NoMemory | Handed(conn: nat, payload: seq<nat>)

  /** What one notification hands to the stack: the snapshot taken inside the lock. */
  function NotificationOf(f: Fields, buffer: bool): NotifyOutcome {
    if f.connection == NONE || !f.measurementSubscribed then NotConnected
    else if !buffer then NoMemory
    else Handed(f.connection, EncodeWheelMeasurement(f.wheel))
  }

  // ----- what the host stack may call -----------------------------------------------------

  datatype HostEvent =
    | Connected(handle: nat)
    | LinkLost
    | Transmitted(handle: nat, indication: bool, controlPoint: bool)
    | Subscribed(measurement: bool, controlPoint: bool, notify: bool, indicate: bool)
    | Written(conn: nat, request: seq<nat>, stack: Stack)

  function HostEffect(f: Fields, e: HostEvent): Fields {
    match e
    case Connected(handle) => f.(connection := handle)
    case LinkLost => Disconnected(f)
    case Transmitted(handle, indication, controlPoint) =>
      if indication && controlPoint then IndicationReported(f, handle) else f
    case Subscribed(measurement, controlPoint, notify, indicate) =>
      if measurement then f.(measurementSubscribed := notify)
      else if controlPoint then f.(indicationsEnabled := indicate)
      else f
    case Written(conn, request, stack) => AccessEffect(f, conn, request, stack)
  }

  /** The operations `ops` that have reached the wheel, with the one the event adds. */
  function HostRecord(f: Fields, e: HostEvent, ops: seq<WheelOp>): seq<WheelOp> {
    match e
    case Written(conn, request, stack) =>
      if WriteSets(f, conn, request, stack) then ops + [SetCumulative(FromLittleEndian(request[1..5]))] else ops
    case _ => ops
  }

  /** A host event keeps the wheel at the replay of what has reached it, and adds no revolution. */
  lemma {:induction false} HostIsReplayed(f: Fields, e: HostEvent, m: Measurement, ops: seq<WheelOp>)
    requires e.Written? ==> Bytes(e.request)
    requires f.wheel == Replay(m, ops) && Fits(f.wheel) && WordSized(ops)
    ensures var wheel, ops' := HostEffect(f, e).wheel, HostRecord(f, e, ops);
            wheel == Replay(m, ops') && Fits(wheel) && WordSized(ops') && TurnsOf(ops') == TurnsOf(ops)
  {
    if e.Written? {
      WriteSetsWheel(f, e.conn, e.request, e.stack);
      if WriteSets(f, e.conn, e.request, e.stack) {
        ReplayStep(m, ops, SetCumulative(FromLittleEndian(e.request[1..5])));
      }
    }
  }

  /**
    A measurement is handed over if and only if a peer is connected and subscribed
    and memory is found, to that peer, and it decodes to the wheel's state.
  */
  lemma {:induction false} HandedExactly(f: Fields, buffer: bool)
    requires Fits(f.wheel)
    ensures var n := NotificationOf(f, buffer);
            && (n.Handed? <==> f.connection != 0xFFFF && f.measurementSubscribed && buffer)
            && (n.NotConnected? <==> f.connection == 0xFFFF || !f.measurementSubscribed)
            && (n.Handed? ==>
                  n.conn == f.connection && |n.payload| == 7 && n.payload[0] == 1 && Decode(n.payload) == f.wheel)
  {
    MeasurementRoundTrip(f.wheel);
  }

  /** The response in the indication: 1 if a value was set, 2 for any other operation, 4 for a value that is not one. */
  lemma {:induction false} ResponseExactly(f: Fields, request: seq<nat>, readable: bool)
    requires |request| > 0
    ensures var code, isValue := ResponseCode(request, readable), request[0] == 1 && |request| == 5 && readable;
            && (code == 1 <==> isValue)
            && (code == 2 <==> request[0] != 1)
            && (code == 4 <==> request[0] == 1 && !isValue)
            && Executed(f, request, readable) ==
               if isValue then f.(wheel := f.wheel.(revolutions := FromLittleEndian(request[1..5]))) else f
  {
  }

  class NimbleService {
    var connection: nat
    var control: nat
    var inProgress: bool
    var measurementSubscribed: bool
    var indicationsEnabled: bool
    const wheel: WheelState
    var lastNotification: nat

    ghost function View(): Fields
      reads this, wheel
    {
      Fields(connection, control, inProgress, measurementSubscribed, indicationsEnabled, wheel.View())
    }

    constructor ()
      ensures View() == Fields(NONE, NONE, false, false, false, Measurement(0, 0))
      ensures lastNotification == 0 && fresh(wheel)
    {
      connection, control, inProgress, measurementSubscribed, indicationsEnabled := NONE, NONE, false, false, false;
      wheel := new WheelState();
      lastNotification := 0;
    }

    method BeginControlProcedure(conn: nat) returns (available: bool)
      modifies this`inProgress, this`control
      ensures View() == Begun(old(View()), conn) && available == !old(inProgress)
    {
      available := !inProgress;
      if available {
        inProgress := true;
        control := conn;
      }
    }

    method CancelControlProcedure()
      modifies this`inProgress, this`control
      ensures View() == Released(old(View()))
    {
      inProgress := false;
      control := NONE;
    }

    method ControlIndicationsEnabled(conn: nat) returns (enabled: bool)
      ensures enabled == Permits(View(), conn)
    {
      enabled := connection == conn && indicationsEnabled;
    }

    method OnConnect(handle: nat)
      modifies this`connection
      ensures View() == old(View()).(connection := handle)
    {
      connection := handle;
    }

    method OnDisconnect()
      modifies this`connection, this`control, this`inProgress, this`measurementSubscribed, this`indicationsEnabled
      ensures View() == Disconnected(old(View()))
    {
      connection := NONE;
      control := NONE;
      inProgress := false;
      measurementSubscribed := false;
      indicationsEnabled := false;
    }

    method OnNotifyTx(handle: nat, indication: bool, controlPoint: bool)
      modifies this`control, this`inProgress
      ensures View() == if indication && controlPoint then IndicationReported(old(View()), handle) else old(View())
    {
      if indication && controlPoint {
        if control == handle {
          inProgress := false;
          control := NONE;
        }
      }
    }

    method OnSubscribe(measurement: bool, controlPoint: bool, notify: bool, indicate: bool)
      modifies this`measurementSubscribed, this`indicationsEnabled
      ensures View() == if measurement then old(View()).(measurementSubscribed := notify)
                        else if controlPoint then old(View()).(indicationsEnabled := indicate)
                        else old(View())
    {
      if measurement {
        measurementSubscribed := notify;
      } else if controlPoint {
        indicationsEnabled := indicate;
      }
    }

    /**
      One write to the control point.  A write that gets past the busy test and
      then fails leaves no procedure behind; a refused write changes nothing.
    */
    method Access(conn: nat, request: seq<nat>, stack: Stack) returns (result: AccessResult, response: seq<nat>)
      requires Bytes(request)
      modifies this`inProgress, this`control, wheel
      ensures result == AccessCode(old(View()), conn, request, stack)
      ensures View() == AccessEffect(old(View()), conn, request, stack)
      ensures result == Done ==> |request| > 0 && response == [0x10, request[0], ResponseCode(request, stack.readable)]
    {
      response := [];
      var enabled := ControlIndicationsEnabled(conn);
      if !enabled {
        return CccdImproperlyConfigured, [];
      }
      var available := BeginControlProcedure(conn);
      if !available {
        return AlreadyInProgress, [];
      }
      if |request| < 1 || !stack.firstReadable {
        CancelControlProcedure();
        return InvalidLength, [];
      }
      var code := RESPONSE_NOT_SUPPORTED;
      if request[0] == SET_CUMULATIVE {
        if |request| == 5 && stack.readable {
          var value := request[1] + request[2] * 0x100 + request[3] * 0x1_0000 + request[4] * 0x100_0000;
          FourBytes(request[1..5]);
          wheel.SetCumulativeValue(value);
          code := RESPONSE_SUCCESS;
        } else {
          code := RESPONSE_FAILED;
        }
      }
      response := [0x10, request[0], code];
      if !stack.buffer {
        CancelControlProcedure();
        return InsufficientResources, [];
      }
      if !stack.indicate {
        CancelControlProcedure();
        return Unlikely, [];
      }
      return Done, response;
    }

    /** Everything the host stack calls, one event at a time. */
    method OnHostEvent(e: HostEvent)
      requires e.Written? ==> Bytes(e.request)
      modifies this`connection, this`control, this`inProgress
      modifies this`measurementSubscribed, this`indicationsEnabled, wheel
      ensures View() == HostEffect(old(View()), e)
    {
      match e
      case Connected(handle) =>
        OnConnect(handle);
      case LinkLost =>
        OnDisconnect();
      case Transmitted(handle, indication, controlPoint) =>
        OnNotifyTx(handle, indication, controlPoint);
      case Subscribed(measurement, controlPoint, notify, indicate) =>
        OnSubscribe(measurement, controlPoint, notify, indicate);
      case Written(conn, request, stack) =>
        var result, response := Access(conn, request, stack);
    }

    /** A measurement goes out only to a subscribed, connected peer, and carries one consistent snapshot. */
    method Notify(buffer: bool) returns (outcome: NotifyOutcome)
      ensures outcome == NotificationOf(View(), buffer)
    {
      var payload := wheel.Payload();
      if connection == NONE || !measurementSubscribed {
        return NotConnected;
      }
      if !buffer {
        return NoMemory;
      }
      return Handed(connection, payload);
    }

    /** The entry point for one completed revolution. */
    method OnWheelRevolution(us: nat, buffer: bool) returns (attempted: bool, outcome: NotifyOutcome)
      requires us < WORD64 && lastNotification < WORD64
      modifies this`lastNotification, wheel
      ensures View() == old(View()).(wheel := Apply(old(View()).wheel, Turn(us)))
      ensures attempted == Due(old(lastNotification), us)
      ensures lastNotification == if attempted then us else old(lastNotification)
      ensures outcome == if attempted then NotificationOf(View(), buffer) else NotConnected
    {
      outcome := NotConnected;
      wheel.OnRevolution(us);
      attempted := (us - lastNotification) % WORD64 >= NOTIFY_INTERVAL_US;
      if attempted {
        lastNotification := us;
        outcome := Notify(buffer);
      }
    }
  }

  lemma {:induction false} FourBytes(b: seq<nat>)
    requires |b| == 4
    ensures FromLittleEndian(b) == b[0] + b[1] * 0x100 + b[2] * 0x1_0000 + b[3] * 0x100_0000
  {
    assert b[3..][1..] == [] && b[2..][1..] == b[3..] && b[1..][1..] == b[2..];
    assert FromLittleEndian(b[3..]) == b[3];
    assert FromLittleEndian(b[2..]) == b[2] + 256 * b[3];
    assert FromLittleEndian(b[1..]) == b[1] + 256 * (b[2] + 256 * b[3]);
  }

  /**
    A client that writes the opcode and a little-endian value sets exactly that
    value and is told so; any other request leaves the wheel alone and is told
    that it failed or is not supported.
  */
  lemma {:induction false} WrittenValueIsSet(f: Fields, v: nat)
    requires v <= MAX_REVOLUTIONS
    ensures var request := [SET_CUMULATIVE] + LittleEndian(v, 4);
            && Executed(f, request, true) == f.(wheel := f.wheel.(revolutions := v))
            && ResponseCode(request, true) == RESPONSE_SUCCESS
    ensures forall request, readable :: |request| > 0 && ResponseCode(request, readable) != RESPONSE_SUCCESS ==>
              Executed(f, request, readable) == f
  {
    var request := [SET_CUMULATIVE] + LittleEndian(v, 4);
    assert request[1..5] == LittleEndian(v, 4);
    PowersOf256();
    LittleEndianRoundTrip(v, 4);
  }

  // ----- connection and subscriptions over any history ----------------------------------------

  /** The fields after a history of host events. */
  function FieldsAfter(f: Fields, events: seq<HostEvent>): Fields {
    if |events| == 0 then f else HostEffect(FieldsAfter(f, events[..|events| - 1]), events[|events| - 1])
  }

  /** What a host event means to the measurement subscription. */
  function SubscriptionSignal(e: HostEvent): Signal {
    match e
    case Subscribed(true, _, notify, _) => if notify then Set else Reset
    case LinkLost => Reset
    case _ => Keep
  }

  /** What it means to the control point's indications. */
  function IndicationSignal(e: HostEvent): Signal {
    match e
    case Subscribed(false, true, _, indicate) => if indicate then Set else Reset
    case LinkLost => Reset
    case _ => Keep
  }

  /** What it means to a connection with that handle. */
  function ConnectionSignal(e: HostEvent, handle: nat): Signal {
    match e
    case Connected(h) => if h == handle then Set else Reset
    case LinkLost => Reset
    case _ => Keep
  }

  function Signals(events: seq<HostEvent>, meaning: HostEvent -> Signal): (s: seq<Signal>)
    ensures |s| == |events|
  {
    seq(|events|, i requires 0 <= i < |events| => meaning(events[i]))
  }

  lemma {:induction false} SignalsStep(events: seq<HostEvent>, meaning: HostEvent -> Signal)
    requires |events| > 0
    ensures Signals(events, meaning)[|events| - 1] == meaning(events[|events| - 1])
    ensures Signals(events, meaning)[..|events| - 1] == Signals(events[..|events| - 1], meaning)
  {
  }

  /**
    Over any history notifications are on if and only if they were subscribed to at
    some point and neither cancelled nor cut off by a lost link since; so for
    indications; and the connection is the one made last unless it was lost.
  */
  lemma {:induction false} HistoryExactly(f: Fields, events: seq<HostEvent>, handle: nat)
    requires !f.measurementSubscribed && !f.indicationsEnabled && f.connection == NONE && handle != NONE
    ensures var g := FieldsAfter(f, events);
            && (g.measurementSubscribed <==> Latched(Signals(events, SubscriptionSignal)))
            && (g.indicationsEnabled <==> Latched(Signals(events, IndicationSignal)))
            && (g.connection == handle <==> Latched(Signals(events, e => ConnectionSignal(e, handle))))
  {
    if |events| != 0 {
      var connection := e => ConnectionSignal(e, handle);
      HistoryExactly(f, events[..|events| - 1], handle);
      SignalsStep(events, SubscriptionSignal);
      LatchStep(Signals(events, SubscriptionSignal));
      SignalsStep(events, IndicationSignal);
      LatchStep(Signals(events, IndicationSignal));
      SignalsStep(events, connection);
      LatchStep(Signals(events, connection));
    }
  }

  // ----- the notification rate -------------------------------------------------------------

  /** The code's unsigned 64-bit test for one second since the last attempt. */
  predicate Due(last: nat, us: nat) { ((us as int) - last) % WORD64 >= NOTIFY_INTERVAL_US }

  /** The timestamp falls back behind the last attempt, but by less than a second. */
  predicate FallsBack(last: nat, us: nat) { last - NOTIFY_INTERVAL_US < us < last }

  /** A revolution is notified within a second of the last attempt just when its timestamp falls back like that. */
  lemma {:induction false} EarlyExactlyOnFallback(last: nat, us: nat)
    requires last < WORD64 && us < WORD64
    ensures Due(last, us) && !Apart(last, us) <==> FallsBack(last, us)
  {
  }

  /** The times at which a notification is attempted, `start` being the last attempt before. */
  function Attempts(start: nat, times: seq<nat>): (s: seq<nat>)
    ensures |s| > 0
  {
    if |times| == 0 then [start]
    else
      var s := Attempts(start, times[..|times| - 1]);
      if Due(s[|s| - 1], times[|times| - 1]) then s + [times[|times| - 1]] else s
  }

  function LastAttempt(start: nat, times: seq<nat>): nat {
    var s := Attempts(start, times);
    s[|s| - 1]
  }

  /** At least a second lies between the two times, whichever comes first. */
  predicate Apart(x: nat, y: nat) { y - x >= NOTIFY_INTERVAL_US || x - y >= NOTIFY_INTERVAL_US }

  /** Consecutive attempts are at least a second apart. */
  ghost predicate Spaced(s: seq<nat>) {
    forall i :: 0 <= i < |s| - 1 ==> Apart(s[i], s[i + 1])
  }

  /** No timestamp falls back behind the last attempt before it. */
  ghost predicate NoFallback(start: nat, times: seq<nat>) {
    forall i :: 0 <= i < |times| ==> !FallsBack(LastAttempt(start, times[..i]), times[i])
  }

  lemma {:induction false} AttemptsAreWords(start: nat, times: seq<nat>)
    requires start < WORD64 && forall i :: 0 <= i < |times| ==> times[i] < WORD64
    ensures LastAttempt(start, times) < WORD64
  {
    if |times| != 0 {
      AttemptsAreWords(start, times[..|times| - 1]);
    }
  }

  lemma {:induction false} NoFallbackStep(start: nat, times: seq<nat>)
    requires |times| > 0
    ensures var prior, us := times[..|times| - 1], times[|times| - 1];
            NoFallback(start, times) <==> NoFallback(start, prior) && !FallsBack(LastAttempt(start, prior), us)
  {
    var prior := times[..|times| - 1];
    assert forall i :: 0 <= i < |prior| ==> prior[..i] == times[..i] && prior[i] == times[i];
  }

  lemma {:induction false} SpacedStep(s: seq<nat>, x: nat)
    requires |s| > 0
    ensures Spaced(s + [x]) <==> Spaced(s) && Apart(s[|s| - 1], x)
  {
    var t := s + [x];
    assert forall i :: 0 <= i < |s| ==> t[i] == s[i];
    assert t[|s|] == x;
  }

  /**
    Over any run, consecutive attempts keep a second apart exactly when no
    timestamp falls back behind the last attempt by less than a second.
  */
  lemma {:induction false} SpacedExactly(start: nat, times: seq<nat>)
    requires start < WORD64 && forall i :: 0 <= i < |times| ==> times[i] < WORD64
    ensures Spaced(Attempts(start, times)) <==> NoFallback(start, times)
  {
    if |times| != 0 {
      var prior, us := times[..|times| - 1], times[|times| - 1];
      SpacedExactly(start, prior);
      AttemptsAreWords(start, prior);
      NoFallbackStep(start, times);
      EarlyExactlyOnFallback(LastAttempt(start, prior), us);
      SpacedStep(Attempts(start, prior), us);
    }
  }

  lemma {:induction false} AttemptAt(start: nat, times: seq<nat>, us: nat)
    ensures Attempts(start, times + [us]) ==
            if Due(LastAttempt(start, times), us) then Attempts(start, times) + [us] else Attempts(start, times)
  {
    assert (times + [us])[..|times|] == times;
  }

  lemma {:induction false} AttemptsOf(t0: nat, t1: nat, t2: nat)
    requires Due(0, t0) && Due(t0, t1) && Due(t1, t2)
    ensures Attempts(0, [t0, t1]) == [0, t0, t1] && Attempts(0, [t0, t1, t2]) == [0, t0, t1, t2]
  {
    AttemptAt(0, [], t0);
    AttemptAt(0, [t0], t1);
    AttemptAt(0, [t0, t1], t2);
    assert [] + [t0] == [t0] && [t0] + [t1] == [t0, t1] && [t0, t1] + [t2] == [t0, t1, t2];
  }

  /** A timestamp half a second behind the last attempt is notified again at once. */
  lemma {:induction false} FallbackIsNotSpaced()
    ensures Attempts(0, [10000000, 9500000]) == [0, 10000000, 9500000]
    ensures !Spaced(Attempts(0, [10000000, 9500000]))
  {
    var s := [0, 10000000, 9500000];
    AttemptsOf(10000000, 9500000, 20000000);
    assert !Apart(s[1], s[2]);
  }

  /** Only neighbours are kept apart: without a fallback an attempt can still come close to an earlier one. */
  lemma {:induction false} SpacedIsNotPairwise()
    ensures Attempts(0, [10000000, 8000000, 9500000]) == [0, 10000000, 8000000, 9500000]
    ensures NoFallback(0, [10000000, 8000000, 9500000]) && !Apart(10000000, 9500000)
  {
    var s := [0, 10000000, 8000000, 9500000];
    AttemptsOf(10000000, 8000000, 9500000);
    assert Spaced(s);
    SpacedExactly(0, [10000000, 8000000, 9500000]);
  }

  ghost predicate Ordered(start: nat, times: seq<nat>) {
    && (forall i :: 0 <= i < |times| ==> start <= times[i] < WORD64)
    && (forall i, j :: 0 <= i < j < |times| ==> times[i] <= times[j])
  }

  lemma {:induction false} DueForward(last: nat, us: nat)
    requires last <= us < WORD64
    ensures Due(last, us) <==> us - last >= 1000000
  {
  }

  /**
    With timestamps that never run backwards, attempts are at least a second apart
    and none is later than it need be.
  */
  lemma {:induction false} RateIsLimited(start: nat, times: seq<nat>)
    requires Ordered(start, times)
    ensures var s := Attempts(start, times);
            && (forall i :: 0 <= i < |s| - 1 ==> s[i + 1] - s[i] >= NOTIFY_INTERVAL_US)
            && (if |times| == 0 then s == [start]
                else start <= s[|s| - 1] <= times[|times| - 1] < s[|s| - 1] + NOTIFY_INTERVAL_US)
  {
    if |times| != 0 {
      var prior, us := times[..|times| - 1], times[|times| - 1];
      RateIsLimited(start, prior);
      var s := Attempts(start, prior);
      assert s[|s| - 1] <= us;
      DueForward(s[|s| - 1], us);
    }
  }
}
