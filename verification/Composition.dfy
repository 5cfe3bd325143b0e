/**
  The control procedure inside the whole receiver: whatever receive task,
  callback and host stack do, the service runs through states of the procedure's
  state machine, so its safety holds there too.
*/
module Composition {
  import opened Adapter
  import opened CscMeasurement
  import opened CscService
  import opened Pipeline
  import opened Timeline
  import ControlProcedure

  /** One valid connection at a time, and subscriptions only from it. */
  predicate Proper(f: Fields, e: HostEvent) {
    match e
    case Connected(handle) => f.connection == NONE && handle != NONE
    case LinkLost => f.connection != NONE
    case Transmitted(handle, _, _) => handle != NONE
    case Subscribed(_, _, _, _) => f.connection != NONE
    case Written(conn, _, _) => conn != NONE
  }

  /** The procedure's steps for one host event. */
  function EventSteps(f: Fields, e: HostEvent): seq<ControlProcedure.Step> {
    match e
    case Connected(handle) => [ControlProcedure.Connect(handle)]
    case LinkLost => [ControlProcedure.Disconnect]
    case Transmitted(handle, indication, controlPoint) =>
      if indication && controlPoint then [ControlProcedure.IndicationReport(handle, false)] else []
    case Subscribed(measurement, controlPoint, notify, indicate) =>
      if measurement then [ControlProcedure.Subscribe(true, notify)]
      else if controlPoint then [ControlProcedure.Subscribe(false, indicate)]
      else []
    case Written(conn, request, stack) =>
      if conn == f.connection then ControlProcedure.WriteSteps(f, conn, request, stack) else []
  }

  /** The procedure stands between writes, safely, with these fields. */
  ghost predicate Mirrors(s: ControlProcedure.State, f: Fields) {
    ControlProcedure.Safe(s) && s.handler.Idle? && s.fields == f
  }

  lemma {:induction false} OneStep(s: ControlProcedure.State, step: ControlProcedure.Step)
    requires ControlProcedure.Enabled(s, step)
    ensures ControlProcedure.Possible(s, [step])
    ensures ControlProcedure.After(s, [step]) == ControlProcedure.Next(s, step)
  {
    ControlProcedure.Unfold(s, step, []);
  }

  /** Each host event has exactly the effect of its steps. */
  lemma {:induction false} EventIsRun(s: ControlProcedure.State, f: Fields, e: HostEvent)
    requires Mirrors(s, f) && Proper(f, e)
    ensures ControlProcedure.Possible(s, EventSteps(f, e))
    ensures Mirrors(ControlProcedure.After(s, EventSteps(f, e)), HostEffect(f, e))
  {
    var steps := EventSteps(f, e);
    if e.Written? {
      if e.conn == f.connection {
        ControlProcedure.WriteStepsAreAccess(s, e.conn, e.request, e.stack);
      }
    } else if |steps| == 1 {
      OneStep(s, steps[0]);
    }
    ControlProcedure.RunKeepsSafe(s, steps);
  }

  /** The procedure's steps for one step of the receiver. */
  function ActSteps(a: State, act: Action): seq<ControlProcedure.Step> {
    match act
    case Host(e) => EventSteps(a.ledger.fields, e)
    case Drain(_) =>
      if a.desk.task.Draining? && a.desk.queue != [] && Reported(a.events + [a.desk.queue[0]]) then
        [ControlProcedure.Revolution(a.desk.queue[0].timestamp)]
      else
        []
    case _ => []
  }

  lemma {:induction false} ActIsRun(s: ControlProcedure.State, a: State, act: Action, hz: nat)
    requires hz > 0 && Mirrors(s, a.ledger.fields) && (act.Host? ==> Proper(a.ledger.fields, act.event))
    ensures ControlProcedure.Possible(s, ActSteps(a, act))
    ensures Mirrors(ControlProcedure.After(s, ActSteps(a, act)), Step(a, act, hz).ledger.fields)
  {
    match act
    case Host(e) =>
      EventIsRun(s, a.ledger.fields, e);
    case Drain(_) =>
      var steps := ActSteps(a, act);
      if |steps| == 1 {
        OneStep(s, steps[0]);
        ControlProcedure.RunKeepsSafe(s, steps);
      }
    case _ =>
  }

  /** Every host event of the run is proper when it comes. */
  ghost predicate ProperRun(acts: seq<Action>, hz: nat)
    requires hz > 0
  {
    |acts| > 0 ==>
      var prior, act := acts[..|acts| - 1], acts[|acts| - 1];
      ProperRun(prior, hz) && (act.Host? ==> Proper(Steps(Boot(), prior, hz).ledger.fields, act.event))
  }

  /** The service in the receiver runs like the procedure's state machine. */
  lemma {:induction false} RunIsMirrored(acts: seq<Action>, hz: nat) returns (run: seq<ControlProcedure.Step>)
    requires hz > 0 && ProperRun(acts, hz)
    ensures ControlProcedure.Possible(ControlProcedure.Initial(), run)
    ensures Mirrors(ControlProcedure.After(ControlProcedure.Initial(), run), Steps(Boot(), acts, hz).ledger.fields)
  {
    if |acts| == 0 {
      run := [];
    } else {
      var prior, act := acts[..|acts| - 1], acts[|acts| - 1];
      run := RunIsMirrored(prior, hz);
      var s, a := ControlProcedure.After(ControlProcedure.Initial(), run), Steps(Boot(), prior, hz);
      ActIsRun(s, a, act, hz);
      ControlProcedure.RunsCompose(ControlProcedure.Initial(), run, ActSteps(a, act));
      run := run + ActSteps(a, act);
    }
  }

  /**
    So in the whole receiver, too, a procedure is in progress exactly when a
    connection is stored for it, and that connection is the live one.
  */
  lemma {:induction false} ReceiverNeverStuck(acts: seq<Action>, hz: nat)
    requires hz > 0 && ProperRun(acts, hz)
    ensures var f := Steps(Boot(), acts, hz).ledger.fields;
            && (f.inProgress <==> f.control != NONE)
            && (f.inProgress ==> f.control == f.connection != NONE)
  {
    var run := RunIsMirrored(acts, hz);
    ControlProcedure.ProcedureNeverStuck(run);
  }
}
