/**
  What receive task, callback and host stack do to the adapter and the service,
  one step at a time, on values.
*/
module Adapter {
  import opened CscMeasurement
  import opened CscService
  import opened EventStream
  import opened Pipeline
  import opened Timeline
  import opened Words

  const QUEUE_LENGTH := 32
  const RX_SYMBOL_COUNT := 128

  // ----- what a bounded queue keeps --------------------------------------------------

  /** The earliest events of a capture, as many as the empty queue holds. */
  function Fitting(b: seq<Event>): seq<Event> {
    if |b| <= QUEUE_LENGTH then b else b[..QUEUE_LENGTH]
  }

  function Excess(b: seq<Event>): nat {
    if |b| <= QUEUE_LENGTH then 0 else |b| - QUEUE_LENGTH
  }

  function AllOf(captures: seq<seq<Event>>): seq<Event> {
    if |captures| == 0 then [] else AllOf(captures[..|captures| - 1]) + captures[|captures| - 1]
  }

  function KeptOf(captures: seq<seq<Event>>): seq<Event> {
    if |captures| == 0 then [] else KeptOf(captures[..|captures| - 1]) + Fitting(captures[|captures| - 1])
  }

  function DropsOf(captures: seq<seq<Event>>): nat {
    if |captures| == 0 then 0 else DropsOf(captures[..|captures| - 1]) + Excess(captures[|captures| - 1])
  }

  /** Nothing is lost unaccounted: what was kept and what was dropped add up to every blockage captured. */
  lemma {:induction false} KeptAndDropped(captures: seq<seq<Event>>)
    ensures |KeptOf(captures)| + DropsOf(captures) == |AllOf(captures)|
  {
    if |captures| != 0 {
      KeptAndDropped(captures[..|captures| - 1]);
    }
  }

  lemma {:induction false} CaptureAdds(captures: seq<seq<Event>>, c: seq<Event>)
    ensures KeptOf(captures + [c]) == KeptOf(captures) + Fitting(c)
    ensures DropsOf(captures + [c]) == DropsOf(captures) + Excess(c)
    ensures |captures + [c]| % WORD32 == (|captures| % WORD32 + 1) % WORD32
  {
    DropLast(captures, c);
    WrappedSum(|captures|, 1);
  }

  /** One more blockage either still fits, or is dropped and counted. */
  lemma {:induction false} FittingStep(b: seq<Event>, e: Event)
    ensures |Fitting(b)| < QUEUE_LENGTH ==> Fitting(b + [e]) == Fitting(b) + [e] && Excess(b + [e]) == Excess(b)
    ensures |Fitting(b)| >= QUEUE_LENGTH ==> Fitting(b + [e]) == Fitting(b) && Excess(b + [e]) == Excess(b) + 1
  {
  }

  lemma {:induction false} WrappedSum(x: nat, y: nat)
    ensures (x + y) % WORD32 == (x % WORD32 + y) % WORD32
  {
    assert x + y == WORD32 * (x / WORD32) + (x % WORD32 + y);
  }

  // ----- the wheel's account ---------------------------------------------------------------

  /** The clock of the notification rate after one more revolution. */
  function Notified(last: nat, us: nat): nat { if CscService.Due(last, us) then us else last }

  /** The wheel after one more event. */
  function Turned(wheel: Measurement, e: Event, reported: bool): Measurement {
    if reported then Apply(wheel, Turn(e.timestamp)) else wheel
  }

  function Recorded(ops: seq<WheelOp>, e: Event, reported: bool): seq<WheelOp> {
    if reported then ops + [Turn(e.timestamp)] else ops
  }

  /**
    The wheel is what the operations so far make of it, its revolutions are those
    the log marks among the events, and the clock is the last notification attempt.
  */
  ghost predicate Accounted(l: Ledger, events: seq<Event>) {
    && l.fields.wheel == Replay(Measurement(0, 0), l.ops) && Fits(l.fields.wheel) && WordSized(l.ops)
    && Logged(events, l.log) && TurnsOf(l.ops) == MarkedTimes(events, l.log)
    && l.clock == LastAttempt(0, TurnsOf(l.ops)) && l.clock < WORD64
  }

  lemma {:induction false} TurnRecorded(wheel: Measurement, last: nat, ops: seq<WheelOp>, us: nat)
    requires wheel == Replay(Measurement(0, 0), ops) && Fits(wheel) && WordSized(ops) && us < WORD64
    requires last == LastAttempt(0, TurnsOf(ops)) && last < WORD64
    ensures var ops' := ops + [Turn(us)];
            && Apply(wheel, Turn(us)) == Replay(Measurement(0, 0), ops')
            && Fits(Apply(wheel, Turn(us))) && WordSized(ops') && TurnsOf(ops') == TurnsOf(ops) + [us]
            && Notified(last, us) == LastAttempt(0, TurnsOf(ops')) < WORD64
  {
    ReplayStep(Measurement(0, 0), ops, Turn(us));
    AttemptAt(0, TurnsOf(ops), us);
  }

  lemma {:induction false} SettledKeepsAccount(l: Ledger, events: seq<Event>, e: Event)
    requires Accounted(l, events) && Representable(e)
    ensures Accounted(Settled(l, e, Reported(events + [e])), events + [e])
  {
    var reported := Reported(events + [e]);
    LogStep(events, l.log, e, reported);
    if reported {
      TurnRecorded(l.fields.wheel, l.clock, l.ops, e.timestamp);
    }
  }

  lemma {:induction false} HostedKeepsAccount(l: Ledger, events: seq<Event>, e: HostEvent)
    requires Accounted(l, events) && (e.Written? ==> Bytes(e.request))
    ensures Accounted(Hosted(l, e), events)
  {
    HostIsReplayed(l.fields, e, Measurement(0, 0), l.ops);
  }

  /** So the total is the value last set and the revolutions since. */
  lemma {:induction false} AccountedTotal(l: Ledger, events: seq<Event>)
    requires Accounted(l, events)
    ensures l.fields.wheel.revolutions == Capped(Base(0, l.ops) + TurnsSince(l.ops))
  {
    TotalSaturates(Measurement(0, 0), l.ops);
  }

  lemma {:induction false} AccountedEventTime(l: Ledger, events: seq<Event>)
    requires Accounted(l, events)
    ensures l.fields.wheel.eventTime == LastEventTime(0, TurnsOf(l.ops))
  {
    EventTimeIsLastTurn(Measurement(0, 0), l.ops);
  }

  lemma {:induction false} AccountedTimes(l: Ledger, events: seq<Event>)
    requires Accounted(l, events)
    ensures TurnsOf(l.ops) == RevolutionTimes(events)
  {
    LoggedTimes(events, l.log);
  }

  // ----- states and steps --------------------------------------------------------------------

  /** The receive task: about to arm the receiver, waiting for its callback, or draining the queue. */
  datatype Task = Rearming | Waiting | Draining

  datatype Capture = Capture(now: nat, symbols: seq<Symbol>)

  predicate Plausible(c: Capture) { c.now < WORD64 && |c.symbols| <= RX_SYMBOL_COUNT }

  /** The adapter's own variables, and the blockages of every capture so far. */
  datatype Desk = Desk(
    task: Task,
    armed: bool,
    notified: bool,
    queue: seq<Event>,
    captures: seq<seq<Event>>,
    drops: nat,
    count: nat,
    lastSymbols: nat)

  /** The service, what has reached its wheel, and which processed events completed a revolution. */
  datatype Ledger = Ledger(fields: Fields, clock: nat, ops: seq<WheelOp>, log: seq<bool>)

  /** Everything together; `events` are those the pipeline has seen. */
  datatype State = State(desk: Desk, events: seq<Event>, ledger: Ledger)

  function Boot(): State {
    var fields := Fields(NONE, NONE, false, false, false, Measurement(0, 0));
    State(Desk(Rearming, false, false, [], [], 0, 0, 0), [], Ledger(fields, 0, [], []))
  }

  /** A step of the receive task, the callback or the host stack. */
  datatype Action =
    | ArmReceive
    | Complete(capture: Capture)
    | WakeTask
    | Drain(buffer: bool)
    | Finish
    | Host(event: HostEvent)

  ghost predicate Realistic(act: Action) {
    match act
    case Complete(c) => Plausible(c)
    case Host(e) => e.Written? ==> Bytes(e.request)
    case _ => true
  }

  /** A finished capture: the queue takes what it has room for. */
  function Filed(d: Desk, c: seq<Event>, symbols: nat): Desk {
    d.(queue := Fitting(d.queue + c), drops := (d.drops + Excess(d.queue + c)) % WORD32,
       captures := d.captures + [c], count := (d.count + 1) % WORD32, lastSymbols := symbols,
       armed := false, notified := true)
  }

  /** The service after one more processed event. */
  function Settled(l: Ledger, e: Event, reported: bool): Ledger {
    Ledger(l.fields.(wheel := Turned(l.fields.wheel, e, reported)),
           if reported then Notified(l.clock, e.timestamp) else l.clock,
           Recorded(l.ops, e, reported), l.log + [reported])
  }

  /** The oldest event goes through the pipeline, and a revolution it completes to the service. */
  function Drained(s: State): State
    requires s.desk.queue != []
  {
    var e := s.desk.queue[0];
    State(s.desk.(queue := s.desk.queue[1..]), s.events + [e], Settled(s.ledger, e, Reported(s.events + [e])))
  }

  function Hosted(l: Ledger, e: HostEvent): Ledger {
    l.(fields := HostEffect(l.fields, e), ops := HostRecord(l.fields, e, l.ops))
  }

  /** One step; a step that is not possible now changes nothing. */
  function Step(s: State, act: Action, hz: nat): State
    requires hz > 0
  {
    match act
    case ArmReceive => if s.desk.task.Rearming? then s.(desk := s.desk.(armed := true, task := Waiting)) else s
    case Complete(c) =>
      if s.desk.armed then s.(desk := Filed(s.desk, Captured(c.symbols, c.now, hz), |c.symbols|)) else s
    case WakeTask => if s.desk.notified then s.(desk := s.desk.(notified := false, task := Draining)) else s
    case Drain(_) => if s.desk.task.Draining? && s.desk.queue != [] then Drained(s) else s
    case Finish => if s.desk.task.Draining? && s.desk.queue == [] then s.(desk := s.desk.(task := Rearming)) else s
    case Host(e) => s.(ledger := Hosted(s.ledger, e))
  }

  function Steps(s: State, acts: seq<Action>, hz: nat): State
    requires hz > 0
  {
    if |acts| == 0 then s else Step(Steps(s, acts[..|acts| - 1], hz), acts[|acts| - 1], hz)
  }

  // ----- what every step keeps -----------------------------------------------------------------

  lemma {:induction false} LengthFits(p: seq<Phase>, hz: nat)
    requires hz > 0
    ensures Length(p, hz) <= |p| * WORD32
  {
    if |p| != 0 {
      LengthFits(p[..|p| - 1], hz);
    }
  }

  lemma {:induction false} CapturedRepresentable(symbols: seq<Symbol>, now: nat, hz: nat)
    requires hz > 0 && now < WORD64 && |symbols| <= RX_SYMBOL_COUNT
    ensures forall e :: e in Captured(symbols, now, hz) ==> Representable(e)
  {
    var p := Phases(symbols);
    LengthFits(p, hz);
    CaptureInOrder(symbols, now, hz);
    var c := Captured(symbols, now, hz);
    forall i | 0 <= i < |c|
      ensures Representable(c[i])
    {
      var k := EveryBlockageHasItsPhase(p, Start(p, now, hz), hz, i);
    }
  }

  /** The adapter's books, `processed` being the events the pipeline has seen. */
  ghost predicate Booked(d: Desk, processed: seq<Event>) {
    && KeptOf(d.captures) == processed + d.queue
    && d.drops == DropsOf(d.captures) % WORD32
    && d.count == |d.captures| % WORD32
    && (forall e :: e in d.queue ==> Representable(e))
    && (d.armed ==> d.task.Waiting? && !d.notified)
    && (d.notified ==> d.task.Waiting?)
    && (d.task.Waiting? ==> d.armed || d.notified)
    && (d.task.Rearming? || d.armed ==> d.queue == [])
  }

  ghost predicate Sound(s: State) { Booked(s.desk, s.events) && Accounted(s.ledger, s.events) }

  lemma {:induction false} AppendNothing<T>(nothing: seq<T>, s: seq<T>)
    requires |nothing| == 0
    ensures nothing + s == s && s + nothing == s
  {
  }

  lemma {:induction false} FiledKeepsBooks(d: Desk, processed: seq<Event>, c: seq<Event>, symbols: nat)
    requires Booked(d, processed) && d.armed && forall e :: e in c ==> Representable(e)
    ensures Booked(Filed(d, c, symbols), processed)
    ensures Filed(d, c, symbols).queue == Fitting(c)
    ensures Filed(d, c, symbols).drops == (d.drops + Excess(c)) % WORD32 == (DropsOf(d.captures) + Excess(c)) % WORD32
  {
    AppendNothing(d.queue, c);
    AppendNothing(d.queue, processed);
    CaptureAdds(d.captures, c);
    WrappedSum(DropsOf(d.captures), Excess(c));
  }

  lemma {:induction false} DrainedKeepsBooks(d: Desk, processed: seq<Event>)
    requires Booked(d, processed) && d.task.Draining? && d.queue != []
    ensures Representable(d.queue[0]) && Booked(d.(queue := d.queue[1..]), processed + [d.queue[0]])
  {
    assert processed + d.queue == (processed + [d.queue[0]]) + d.queue[1..];
  }

  lemma {:induction false} StepKeepsSound(s: State, act: Action, hz: nat)
    requires ValidResolution(hz) && Sound(s) && Realistic(act)
    ensures Sound(Step(s, act, hz))
  {
    match act
    case Complete(c) =>
      if s.desk.armed {
        CapturedRepresentable(c.symbols, c.now, hz);
        FiledKeepsBooks(s.desk, s.events, Captured(c.symbols, c.now, hz), |c.symbols|);
      }
    case Drain(_) =>
      if s.desk.task.Draining? && s.desk.queue != [] {
        DrainedKeepsBooks(s.desk, s.events);
        SettledKeepsAccount(s.ledger, s.events, s.desk.queue[0]);
      }
    case Host(e) =>
      HostedKeepsAccount(s.ledger, s.events, e);
    case _ =>
  }

  lemma {:induction false} StepsKeepSound(s: State, acts: seq<Action>, hz: nat)
    requires ValidResolution(hz) && Sound(s) && forall i :: 0 <= i < |acts| ==> Realistic(acts[i])
    ensures Sound(Steps(s, acts, hz))
  {
    if |acts| != 0 {
      StepsKeepSound(s, acts[..|acts| - 1], hz);
      StepKeepsSound(Steps(s, acts[..|acts| - 1], hz), acts[|acts| - 1], hz);
    }
  }

  lemma {:induction false} BootIsSound()
    ensures Sound(Boot())
  {
    assert Accounted(Boot().ledger, []);
  }

  /**
    After any interleaving of receive task, callback and host stack: the kept
    blockages are processed first in, first out; every captured one is processed,
    queued or counted as dropped; and no callback finds anything in the queue.
  */
  lemma {:induction false} FirstInFirstOut(acts: seq<Action>, hz: nat)
    requires ValidResolution(hz) && forall i :: 0 <= i < |acts| ==> Realistic(acts[i])
    ensures var s := Steps(Boot(), acts, hz); var d := s.desk;
            && s.events + d.queue == KeptOf(d.captures)
            && |s.events| + |d.queue| + DropsOf(d.captures) == |AllOf(d.captures)|
            && d.drops == DropsOf(d.captures) % WORD32
            && (d.armed ==> d.queue == [])
  {
    BootIsSound();
    StepsKeepSound(Boot(), acts, hz);
    KeptAndDropped(Steps(Boot(), acts, hz).desk.captures);
  }

  /**
    And the wheel, client writes at any moment included, is at the value last set
    plus the revolutions since, held at its maximum.
  */
  lemma {:induction false} WheelTotal(acts: seq<Action>, hz: nat)
    requires ValidResolution(hz) && forall i :: 0 <= i < |acts| ==> Realistic(acts[i])
    ensures var l := Steps(Boot(), acts, hz).ledger;
            l.fields.wheel.revolutions == Capped(Base(0, l.ops) + TurnsSince(l.ops))
  {
    var s := Steps(Boot(), acts, hz);
    BootIsSound();
    StepsKeepSound(Boot(), acts, hz);
    AccountedTotal(s.ledger, s.events);
  }

  /** The revolutions among those operations are the reported ones, and they drive the notification clock. */
  lemma {:induction false} WheelTurns(acts: seq<Action>, hz: nat)
    requires ValidResolution(hz) && forall i :: 0 <= i < |acts| ==> Realistic(acts[i])
    ensures var s := Steps(Boot(), acts, hz);
            && TurnsOf(s.ledger.ops) == RevolutionTimes(s.events)
            && s.ledger.clock == LastAttempt(0, TurnsOf(s.ledger.ops))
  {
    var s := Steps(Boot(), acts, hz);
    BootIsSound();
    StepsKeepSound(Boot(), acts, hz);
    AccountedTimes(s.ledger, s.events);
  }

  /** The wheel's event time is that of the last reported revolution. */
  lemma {:induction false} WheelEventTime(acts: seq<Action>, hz: nat)
    requires ValidResolution(hz) && forall i :: 0 <= i < |acts| ==> Realistic(acts[i])
    ensures var s := Steps(Boot(), acts, hz);
            s.ledger.fields.wheel.eventTime == LastEventTime(0, RevolutionTimes(s.events))
  {
    var s := Steps(Boot(), acts, hz);
    BootIsSound();
    StepsKeepSound(Boot(), acts, hz);
    AccountedEventTime(s.ledger, s.events);
    AccountedTimes(s.ledger, s.events);
  }

  // ----- a turn of the loop always completes ---------------------------------------------------

  /** The queue keeps the earliest 32 events, and the rest are excess. */
  lemma {:induction false} QueueKeeps32(b: seq<Event>)
    ensures |Fitting(b)| == (if |b| < 32 then |b| else 32) && Fitting(b) == b[..|Fitting(b)|]
    ensures Excess(b) == |b| - |Fitting(b)|
  {
  }

  lemma {:induction false} StepsCompose(s: State, x: seq<Action>, y: seq<Action>, hz: nat)
    requires hz > 0
    ensures Steps(s, x + y, hz) == Steps(Steps(s, x, hz), y, hz)
  {
    if |y| == 0 {
      assert x + y == x;
    } else {
      StepsCompose(s, x, y[..|y| - 1], hz);
      assert (x + y)[..|x + y| - 1] == x + y[..|y| - 1];
    }
  }

  lemma {:induction false} OneAct(s: State, act: Action, hz: nat)
    requires hz > 0
    ensures Steps(s, [act], hz) == Step(s, act, hz)
  {
    assert [act][..0] == [];
  }

  /** One drain for each entry, which says whether a notification finds memory. */
  function Drains(buffers: seq<bool>): (acts: seq<Action>)
    ensures |acts| == |buffers|
  {
    seq(|buffers|, i requires 0 <= i < |buffers| => Drain(buffers[i]))
  }

  /** Drains take the oldest events in order, and do nothing once the queue is empty. */
  lemma {:induction false} DrainsInOrder(s: State, buffers: seq<bool>, hz: nat)
    requires hz > 0 && s.desk.task.Draining?
    ensures var t := Steps(s, Drains(buffers), hz);
            var k := if |buffers| < |s.desk.queue| then |buffers| else |s.desk.queue|;
            && t.desk == s.desk.(queue := s.desk.queue[k..])
            && t.events == s.events + s.desk.queue[..k]
  {
    if |buffers| == 0 {
      assert s.desk.queue[0..] == s.desk.queue && s.events + s.desk.queue[..0] == s.events;
    } else {
      var prior := buffers[..|buffers| - 1];
      DrainsInOrder(s, prior, hz);
      assert Drains(buffers)[..|buffers| - 1] == Drains(prior);
      DrainTakesOne(s.desk.queue, |prior|);
    }
  }

  lemma {:induction false} DrainTakesOne(queue: seq<Event>, k: nat)
    ensures k < |queue| ==> queue[k..][1..] == queue[k + 1..] && queue[..k] + [queue[k]] == queue[..k + 1]
  {
  }

  /** What receive task and callback do in one turn of the loop. */
  function TurnActs(c: Capture, buffers: seq<bool>): seq<Action> {
    ([ArmReceive] + ([Complete(c)] + [WakeTask])) + (Drains(buffers) + [Finish])
  }

  /**
    A turn with a drain for every kept blockage takes a task about to arm to a task
    about to arm, with the capture filed and what was kept of it processed.
  */
  lemma {:induction false} TurnCompletes(s: State, c: Capture, buffers: seq<bool>, hz: nat)
    requires hz > 0 && s.desk.task.Rearming? && s.desk.queue == []
    requires |buffers| >= |Fitting(Captured(c.symbols, c.now, hz))|
    ensures var t, b := Steps(s, TurnActs(c, buffers), hz), Captured(c.symbols, c.now, hz);
            && t.desk.task.Rearming? && !t.desk.armed && !t.desk.notified && t.desk.queue == []
            && t.desk.captures == s.desk.captures + [b] && t.events == s.events + Fitting(b)
            && t.desk.drops == (s.desk.drops + Excess(b)) % 0x1_0000_0000
            && t.desk.count == (s.desk.count + 1) % 0x1_0000_0000 && t.desk.lastSymbols == |c.symbols|
  {
    var b := Captured(c.symbols, c.now, hz);
    TurnBegins(s, c, hz);
    var first := [ArmReceive] + ([Complete(c)] + [WakeTask]);
    var t := Steps(s, first, hz);
    StepsCompose(s, first, Drains(buffers) + [Finish], hz);
    StepsCompose(t, Drains(buffers), [Finish], hz);
    DrainsInOrder(t, buffers, hz);
    OneAct(Steps(t, Drains(buffers), hz), Finish, hz);
    assert Fitting(b)[..|Fitting(b)|] == Fitting(b);
  }

  lemma {:induction false} TurnBegins(s: State, c: Capture, hz: nat)
    requires hz > 0 && s.desk.task.Rearming? && s.desk.queue == []
    ensures var t := Steps(s, [ArmReceive] + ([Complete(c)] + [WakeTask]), hz);
            && t.events == s.events
            && t.desk == Filed(s.desk, Captured(c.symbols, c.now, hz), |c.symbols|)
                           .(notified := false, task := Draining)
            && t.desk.queue == Fitting(Captured(c.symbols, c.now, hz))
            && t.desk.drops == (s.desk.drops + Excess(Captured(c.symbols, c.now, hz))) % WORD32
  {
    var s1 := Step(s, ArmReceive, hz);
    var s2 := Step(s1, Complete(c), hz);
    StepsCompose(s, [ArmReceive], [Complete(c)] + [WakeTask], hz);
    OneAct(s, ArmReceive, hz);
    StepsCompose(s1, [Complete(c)], [WakeTask], hz);
    OneAct(s1, Complete(c), hz);
    OneAct(s2, WakeTask, hz);
    AppendNothing(s.desk.queue, Captured(c.symbols, c.now, hz));
  }
}
