/**
  The control procedure as a state machine.  Each critical section of the
  service is one step; the host stack, the link and the other task may take
  steps between any two of them.
*/
module ControlProcedure {
  import opened CscMeasurement
  import opened CscService

  /** Where the control point handler stands in its current write. */
  datatype Handler =
    | Idle
    | Permitted(conn: nat, request: seq<nat>)
    | Working(conn: nat, request: seq<nat>)
    | Answering(conn: nat)
    | Returning(conn: nat, sent: bool)

  /** The service's fields, the handler, and the surroundings: the live link and its unacknowledged indications. */
  datatype State = State(fields: Fields, handler: Handler, link: nat, outstanding: nat)

  datatype Step =
    | Connect(handle: nat)
    | Disconnect
    | IndicationReport(handle: nat, acknowledged: bool)
    | Subscribe(measurement: bool, enable: bool)
    | Revolution(us: nat)
    | Write(conn: nat, request: seq<nat>)
    | Begin
    | RejectLength
    | Execute(readable: bool)
    | NoBuffer
    | Indicate(ok: bool)
    | Return

  function Initial(): State {
    State(Fields(NONE, NONE, false, false, false, Measurement(0, 0)), Idle, NONE, 0)
  }

  /**
    What the surroundings may do: one valid link at a time, writes from that link,
    acknowledgements of what was sent.
  */
  predicate Enabled(s: State, step: Step) {
    match step
    case Connect(handle) => s.link == NONE && handle != NONE
    case Disconnect => s.link != NONE
    case IndicationReport(handle, acknowledged) =>
      handle != NONE && (acknowledged ==> handle == s.link && s.outstanding > 0)
    case Subscribe(_, _) => s.link != NONE
    case Revolution(_) => true
    case Write(conn, _) => s.handler.Idle? && conn == s.link != NONE
    case Begin => s.handler.Permitted?
    case RejectLength => s.handler.Working?
    case Execute(_) => s.handler.Working? && |s.handler.request| > 0
    case NoBuffer => s.handler.Answering?
    case Indicate(ok) => s.handler.Answering? && (ok ==> s.handler.conn == s.link)
    case Return => s.handler.Returning?
  }

  function Next(s: State, step: Step): State
    requires Enabled(s, step)
  {
    match step
    case Connect(handle) => s.(fields := s.fields.(connection := handle), link := handle, outstanding := 0)
    case Disconnect => s.(fields := Disconnected(s.fields), link := NONE, outstanding := 0)
    case IndicationReport(handle, acknowledged) =>
      s.(fields := IndicationReported(s.fields, handle),
         outstanding := if acknowledged then s.outstanding - 1 else s.outstanding)
    case Subscribe(measurement, enable) =>
      s.(fields := if measurement then s.fields.(measurementSubscribed := enable)
                   else s.fields.(indicationsEnabled := enable))
    case Revolution(us) => s.(fields := s.fields.(wheel := Apply(s.fields.wheel, Turn(us))))
    case Write(conn, request) => if Permits(s.fields, conn) then s.(handler := Permitted(conn, request)) else s
    case Begin =>
      if s.fields.inProgress then s.(handler := Idle)
      else s.(fields := Begun(s.fields, s.handler.conn), handler := Working(s.handler.conn, s.handler.request))
    case RejectLength => s.(fields := Released(s.fields), handler := Idle)
    case Execute(readable) =>
      s.(fields := Executed(s.fields, s.handler.request, readable), handler := Answering(s.handler.conn))
    case NoBuffer => s.(fields := Released(s.fields), handler := Idle)
    case Indicate(ok) =>
      s.(handler := Returning(s.handler.conn, ok), outstanding := if ok then s.outstanding + 1 else s.outstanding)
    case Return => s.(fields := if s.handler.sent then s.fields else Released(s.fields), handler := Idle)
  }

  /** `run` is possible from `s`, one enabled step after the other. */
  predicate Possible(s: State, run: seq<Step>)
    decreases |run|
  {
    |run| > 0 ==> Enabled(s, run[0]) && Possible(Next(s, run[0]), run[1..])
  }

  function After(s: State, run: seq<Step>): State
    requires Possible(s, run)
    decreases |run|
  {
    if |run| == 0 then s else After(Next(s, run[0]), run[1..])
  }

  // ----- safety under any interleaving ------------------------------------------------------

  /** An indication is still unacknowledged on the very connection the procedure belongs to. */
  predicate Awaited(s: State) { s.fields.control == s.link && s.outstanding > 0 }

  predicate Safe(s: State) {
    && s.fields.connection == s.link
    && (s.fields.inProgress <==> s.fields.control != NONE)
    && (s.fields.inProgress ==>
          match s.handler
          case Idle => Awaited(s)
          case Permitted(_, _) => Awaited(s)
          case Working(conn, _) => s.fields.control == conn
          case Answering(conn) => s.fields.control == conn
          case Returning(conn, sent) => if sent then Awaited(s) else s.fields.control == conn)
    && (s.handler.Idle? || s.handler.conn != NONE)
  }

  lemma {:induction false} StepKeepsSafe(s: State, step: Step)
    requires Safe(s) && Enabled(s, step)
    ensures Safe(Next(s, step))
  {
  }

  lemma {:induction false} RunKeepsSafe(s: State, run: seq<Step>)
    requires Safe(s) && Possible(s, run)
    ensures Safe(After(s, run))
    decreases |run|
  {
    if |run| > 0 {
      StepKeepsSafe(s, run[0]);
      RunKeepsSafe(Next(s, run[0]), run[1..]);
    }
  }

  /**
    In every reachable state between writes: a procedure is in progress exactly
    when a connection handle is stored for it, and then an indication on that
    live connection is still to be acknowledged.  No failed write, disconnection
    or interleaving leaves a procedure stuck.
  */
  lemma {:induction false} ProcedureNeverStuck(run: seq<Step>)
    requires Possible(Initial(), run) && After(Initial(), run).handler.Idle?
    ensures var s := After(Initial(), run);
            && (s.fields.inProgress <==> s.fields.control != NONE)
            && (s.fields.inProgress ==> s.fields.control == s.link == s.fields.connection != NONE && s.outstanding > 0)
  {
    RunKeepsSafe(Initial(), run);
  }

  // ----- one procedure at a time ----------------------------------------------------------------

  /** An indication is due from the handler: it passed the busy test and has not yet been answered or given up. */
  predicate Answerable(handler: Handler) {
    match handler
    case Working(_, request) => |request| > 0
    case Answering(_) => true
    case _ => false
  }

  /** The handler is about to return without having sent anything. */
  predicate GivingUp(handler: Handler) {
    match handler
    case Working(_, request) => |request| == 0
    case Returning(_, sent) => !sent
    case _ => false
  }

  /**
    Two things a surrounding step must not do: report an indication of the
    procedure in progress before its acknowledgement, unless the handler is
    giving up anyway; and take the link away from a procedure whose indication
    is still due.
  */
  predicate Orderly(s: State, step: Step) {
    match step
    case IndicationReport(handle, acknowledged) => acknowledged || handle != s.fields.control || GivingUp(s.handler)
    case Disconnect => s.fields.inProgress ==> !Answerable(s.handler)
    case _ => true
  }

  predicate OrderlyRun(s: State, run: seq<Step>)
    requires Possible(s, run)
    decreases |run|
  {
    |run| > 0 ==> Orderly(s, run[0]) && OrderlyRun(Next(s, run[0]), run[1..])
  }

  /** The in-progress flag is exactly "an indication is unacknowledged or about to be sent". */
  predicate Exclusive(s: State) {
    && Safe(s) && s.outstanding <= 1
    && match s.handler
       case Working(_, request) => s.outstanding == 0 && (|request| > 0 ==> s.fields.inProgress)
       case Answering(_) => s.outstanding == 0 && s.fields.inProgress
       case Returning(_, sent) => if sent then s.fields.inProgress == (s.outstanding == 1) else s.outstanding == 0
       case _ => s.fields.inProgress == (s.outstanding == 1)
  }

  /** Of all steps exactly the disorderly ones break the meaning of the flag. */
  lemma {:induction false} OrderlyIsExclusive(s: State, step: Step)
    requires Exclusive(s) && Enabled(s, step)
    ensures Exclusive(Next(s, step)) <==> Orderly(s, step)
  {
  }

  lemma {:induction false} RunKeepsExclusive(s: State, run: seq<Step>)
    requires Exclusive(s) && Possible(s, run) && OrderlyRun(s, run)
    ensures Exclusive(After(s, run))
    decreases |run|
  {
    if |run| > 0 {
      OrderlyIsExclusive(s, run[0]);
      RunKeepsExclusive(Next(s, run[0]), run[1..]);
    }
  }

  /** In orderly runs at most one indication is ever unacknowledged, and a new procedure is refused until it is. */
  lemma {:induction false} OneProcedureAtATime(run: seq<Step>)
    requires Possible(Initial(), run) && OrderlyRun(Initial(), run)
    ensures var s := After(Initial(), run);
            && s.outstanding <= 1
            && (s.handler.Permitted? ==> (Next(s, Begin).handler.Working? <==> s.outstanding == 0))
  {
    RunKeepsExclusive(Initial(), run);
  }

  /** Even if everything goes orderly from now on, two indications can end up unacknowledged at once. */
  ghost predicate Overlaps(s: State) {
    exists run :: Possible(s, run) && OrderlyRun(s, run) && After(s, run).outstanding > 1
  }

  lemma {:induction false} OverlapsNow(s: State)
    requires s.outstanding > 1
    ensures Overlaps(s)
  {
    assert Possible(s, []) && OrderlyRun(s, []) && After(s, []) == s;
  }

  lemma {:induction false} OverlapsLater(s: State, step: Step)
    requires Enabled(s, step) && Orderly(s, step) && Overlaps(Next(s, step))
    ensures Overlaps(s)
  {
    var t := Next(s, step);
    var rest :| Possible(t, rest) && OrderlyRun(t, rest) && After(t, rest).outstanding > 1;
    Unfold(s, step, rest);
    assert ([step] + rest)[1..] == rest && OrderlyRun(s, [step] + rest);
  }

  /** With the flag clear although an indication is unacknowledged, one more write overlaps. */
  lemma {:induction false} NextWriteOverlaps(s: State)
    requires s.handler.Idle? && !s.fields.inProgress && s.outstanding > 0
    requires s.fields.connection == s.link != NONE
    ensures Overlaps(s)
  {
    var s1 := Next(s, Subscribe(false, true));
    var s2 := Next(s1, Write(s.link, [0x07]));
    var s3 := Next(s2, Begin);
    var s4 := Next(s3, Execute(true));
    OverlapsNow(Next(s4, Indicate(true)));
    OverlapsLater(s4, Indicate(true));
    OverlapsLater(s3, Execute(true));
    OverlapsLater(s2, Begin);
    OverlapsLater(s1, Write(s.link, [0x07]));
    OverlapsLater(s, Subscribe(false, true));
  }

  /** So does finishing the current write first, whether or not it got past the busy test. */
  lemma {:induction false} ClearFlagOverlaps(s: State)
    requires !s.fields.inProgress && s.outstanding > 0 && s.fields.connection == s.link != NONE
    requires s.handler.Idle? || s.handler.Permitted? || (s.handler.Returning? && s.handler.sent)
    ensures Overlaps(s)
  {
    match s.handler
    case Idle =>
      NextWriteOverlaps(s);
    case Returning(_, _) =>
      NextWriteOverlaps(Next(s, Return));
      OverlapsLater(s, Return);
    case Permitted(_, request) =>
      var s1 := Next(s, Begin);
      if |request| == 0 {
        NextWriteOverlaps(Next(s1, RejectLength));
        OverlapsLater(s1, RejectLength);
      } else {
        var s2 := Next(s1, Execute(true));
        NextWriteOverlaps(Next(s2, NoBuffer));
        OverlapsLater(s2, NoBuffer);
        OverlapsLater(s1, Execute(true));
      }
      OverlapsLater(s, Begin);
  }

  /** An answer that is due although the flag is clear is sent sooner or later, if need be after a reconnection. */
  lemma {:induction false} UnownedAnswerOverlaps(s: State)
    requires s.handler.Answering? && s.handler.conn != NONE && !s.fields.inProgress && s.fields.connection == s.link
    ensures Overlaps(s)
    decreases if s.link == s.handler.conn then 0 else if s.link == NONE then 1 else 2
  {
    if s.link == s.handler.conn {
      ClearFlagOverlaps(Next(s, Indicate(true)));
      OverlapsLater(s, Indicate(true));
    } else {
      var step := if s.link == NONE then Connect(s.handler.conn) else Disconnect;
      UnownedAnswerOverlaps(Next(s, step));
      OverlapsLater(s, step);
    }
  }

  /** One disorderly step is enough. */
  lemma {:induction false} DisorderOverlaps(s: State, step: Step)
    requires Exclusive(s) && Enabled(s, step) && !Orderly(s, step)
    ensures Overlaps(Next(s, step))
  {
    var t := Next(s, step);
    match t.handler
    case Working(_, _) =>
      UnownedAnswerOverlaps(Next(t, Execute(true)));
      OverlapsLater(t, Execute(true));
    case Answering(_) =>
      UnownedAnswerOverlaps(t);
    case _ =>
      ClearFlagOverlaps(t);
  }

  lemma {:induction false} ExclusiveNeverOverlaps(s: State)
    requires Exclusive(s)
    ensures !Overlaps(s)
  {
    forall run | Possible(s, run) && OrderlyRun(s, run)
      ensures After(s, run).outstanding <= 1
    {
      RunKeepsExclusive(s, run);
    }
  }

  /** At no point of the run has an overlap become possible. */
  ghost predicate NeverOverlaps(s: State, run: seq<Step>)
    requires Possible(s, run)
    decreases |run|
  {
    !Overlaps(s) && (|run| > 0 ==> NeverOverlaps(Next(s, run[0]), run[1..]))
  }

  lemma {:induction false} OrderlyExactly(s: State, run: seq<Step>)
    requires Exclusive(s) && Possible(s, run)
    ensures NeverOverlaps(s, run) <==> OrderlyRun(s, run)
    decreases |run|
  {
    ExclusiveNeverOverlaps(s);
    if |run| > 0 {
      OrderlyIsExclusive(s, run[0]);
      if Orderly(s, run[0]) {
        OrderlyExactly(Next(s, run[0]), run[1..]);
      } else {
        DisorderOverlaps(s, run[0]);
      }
    }
  }

  /**
    The exact condition for one procedure at a time.  A run is orderly if and
    only if it never reaches a point from which orderly steps alone can leave
    two indications unacknowledged.
  */
  lemma {:induction false} OneProcedureExactly(run: seq<Step>)
    requires Possible(Initial(), run)
    ensures NeverOverlaps(Initial(), run) <==> OrderlyRun(Initial(), run)
  {
    OrderlyExactly(Initial(), run);
  }

  // ----- the handler without interference --------------------------------------------------------

  lemma {:induction false} Unfold(s: State, step: Step, rest: seq<Step>)
    ensures Possible(s, [step] + rest) <==> Enabled(s, step) && Possible(Next(s, step), rest)
    ensures Possible(s, [step] + rest) ==> After(s, [step] + rest) == After(Next(s, step), rest)
  {
    assert ([step] + rest)[1..] == rest;
  }

  /** What the handler still does once it owns the procedure. */
  function WorkSteps(request: seq<nat>, stack: Stack): seq<Step> {
    if |request| == 0 || !stack.firstReadable then [RejectLength]
    else [Execute(stack.readable)] + if stack.buffer then [Indicate(stack.indicate)] + [Return] else [NoBuffer]
  }

  /** The steps of one write that nothing interrupts. */
  function WriteSteps(f: Fields, conn: nat, request: seq<nat>, stack: Stack): seq<Step> {
    [Write(conn, request)] +
    if !Permits(f, conn) then [] else [Begin] + if f.inProgress then [] else WorkSteps(request, stack)
  }

  /** The indication count after the write: one more if it got as far as being sent. */
  function Sent(code: AccessResult): nat { if code == Done then 1 else 0 }

  lemma {:induction false} WorkStepsComplete(s: State, request: seq<nat>, stack: Stack)
    requires s.handler == Working(s.link, request)
    ensures var steps := WorkSteps(request, stack);
            && Possible(s, steps)
            && After(s, steps) ==
               if |request| == 0 || !stack.firstReadable then s.(fields := Released(s.fields), handler := Idle)
               else if stack.buffer && stack.indicate then
                 s.(fields := Executed(s.fields, request, stack.readable), handler := Idle,
                    outstanding := s.outstanding + 1)
               else s.(fields := Released(Executed(s.fields, request, stack.readable)), handler := Idle)
  {
    var x, i := Execute(stack.readable), Indicate(stack.indicate);
    if |request| == 0 || !stack.firstReadable {
      Unfold(s, RejectLength, []);
    } else if !stack.buffer {
      Unfold(s, x, [NoBuffer]);
      Unfold(Next(s, x), NoBuffer, []);
    } else {
      var s' := Next(s, x);
      Unfold(s, x, [i] + [Return]);
      Unfold(s', i, [Return]);
      Unfold(Next(s', i), Return, []);
    }
  }

  /** Undisturbed, the steps of a write add up to what the handler's contract says. */
  lemma {:induction false} WriteStepsAreAccess(s: State, conn: nat, request: seq<nat>, stack: Stack)
    requires Safe(s) && s.handler.Idle? && conn == s.link != NONE
    ensures var steps, code := WriteSteps(s.fields, conn, request, stack), AccessCode(s.fields, conn, request, stack);
            && Possible(s, steps)
            && After(s, steps) ==
               s.(fields := AccessEffect(s.fields, conn, request, stack), outstanding := s.outstanding + Sent(code))
  {
    var steps, w := WriteSteps(s.fields, conn, request, stack), Write(conn, request);
    var rest := steps[1..];
    assert steps == [w] + rest;
    Unfold(s, w, rest);
    if Permits(s.fields, conn) {
      var s1 := Next(s, w);
      assert rest == [Begin] + rest[1..];
      Unfold(s1, Begin, rest[1..]);
      if !s.fields.inProgress {
        assert rest[1..] == WorkSteps(request, stack);
        WorkStepsComplete(Next(s1, Begin), request, stack);
      }
    }
  }

  /** Each result is the answer to one way in which the handler ends a write. */
  lemma {:induction false} ResultExactly(f: Fields, conn: nat, request: seq<nat>, stack: Stack)
    ensures var steps, code := WriteSteps(f, conn, request, stack), AccessCode(f, conn, request, stack);
            && (code == CccdImproperlyConfigured <==> steps == [Write(conn, request)])
            && (code == AlreadyInProgress <==> steps == [Write(conn, request), Begin])
            && (code == InvalidLength <==> steps == [Write(conn, request), Begin, RejectLength])
            && (code == InsufficientResources <==>
                  steps == [Write(conn, request), Begin, Execute(stack.readable), NoBuffer])
            && (code == Unlikely <==>
                  steps == [Write(conn, request), Begin, Execute(stack.readable), Indicate(false), Return])
            && (code == Done <==>
                  steps == [Write(conn, request), Begin, Execute(stack.readable), Indicate(true), Return])
  {
    assert WorkSteps(request, stack) ==
           if |request| == 0 || !stack.firstReadable then [RejectLength]
           else if !stack.buffer then [Execute(stack.readable), NoBuffer]
           else [Execute(stack.readable), Indicate(stack.indicate), Return];
    assert WriteSteps(f, conn, request, stack) ==
           if !Permits(f, conn) then [Write(conn, request)]
           else if f.inProgress then [Write(conn, request), Begin]
           else [Write(conn, request), Begin] + WorkSteps(request, stack);
    var steps := WriteSteps(f, conn, request, stack);
    assert |steps| == 5 ==> steps[3] == Indicate(stack.indicate);
    var sent := [Write(conn, request), Begin, Execute(stack.readable), Indicate(true), Return];
    var failed := [Write(conn, request), Begin, Execute(stack.readable), Indicate(false), Return];
    assert sent[3] == Indicate(true) && failed[3] == Indicate(false);
  }

  lemma {:induction false} RunsCompose(s: State, x: seq<Step>, y: seq<Step>)
    requires Possible(s, x) && Possible(After(s, x), y)
    ensures Possible(s, x + y) && After(s, x + y) == After(After(s, x), y)
    decreases |x|
  {
    if |x| == 0 {
      assert x + y == y;
    } else {
      RunsCompose(Next(s, x[0]), x[1..], y);
      assert x + y == [x[0]] + (x[1..] + y);
      Unfold(s, x[0], x[1..] + y);
    }
  }

  // ----- why both conditions matter ----------------------------------------------------------------

  /** A write whose indication is sent and then merely reported as transmitted. */
  function Overlapping(conn: nat, request: seq<nat>): seq<Step> {
    [Write(conn, request)] +
    ([Begin] + ([Execute(true)] + ([Indicate(true)] + ([IndicationReport(conn, false)] + [Return]))))
  }

  lemma {:induction false} OverlappingWrite(s: State, conn: nat, request: seq<nat>, rest: seq<Step>)
    requires s.handler.Idle? && conn == s.link != NONE && |request| > 0
    requires Permits(s.fields, conn) && !s.fields.inProgress
    ensures var t := s.(fields := Released(Executed(s.fields, request, true)), outstanding := s.outstanding + 1);
            && Possible(s, Overlapping(conn, request) + rest) == Possible(t, rest)
            && (Possible(t, rest) ==> After(s, Overlapping(conn, request) + rest) == After(t, rest))
  {
    var r1 := [Return] + rest;
    var r2 := [IndicationReport(conn, false)] + r1;
    var r3 := [Indicate(true)] + r2;
    var r4 := [Execute(true)] + r3;
    var r5 := [Begin] + r4;
    var s5 := Next(s, Write(conn, request));
    var s4 := Next(s5, Begin);
    var s3 := Next(s4, Execute(true));
    var s2 := Next(s3, Indicate(true));
    var s1 := Next(s2, IndicationReport(conn, false));
    assert Overlapping(conn, request) + rest == [Write(conn, request)] + r5;
    Unfold(s, Write(conn, request), r5);
    Unfold(s5, Begin, r4);
    Unfold(s4, Execute(true), r3);
    Unfold(s3, Indicate(true), r2);
    Unfold(s2, IndicationReport(conn, false), r1);
    Unfold(s1, Return, rest);
  }

  /** Connecting, and then two such writes. */
  function PrematureRun(): seq<Step> {
    [Connect(1)] + ([Subscribe(false, true)] + (Overlapping(1, [0x07]) + (Overlapping(1, [0x07]) + [])))
  }

  lemma {:induction false} PrematureRunOverlaps()
    ensures Possible(Initial(), PrematureRun()) && After(Initial(), PrematureRun()).outstanding == 2
  {
    var request := [0x07];
    var w := Overlapping(1, request);
    var s1 := Next(Initial(), Connect(1));
    var s2 := Next(s1, Subscribe(false, true));
    Unfold(Initial(), Connect(1), [Subscribe(false, true)] + (w + (w + [])));
    Unfold(s1, Subscribe(false, true), w + (w + []));
    OverlappingWrite(s2, 1, request, w + []);
    var s3 := s2.(fields := Released(Executed(s2.fields, request, true)), outstanding := 1);
    OverlappingWrite(s3, 1, request, []);
  }

  /** The link stays up, and nothing is reported but acknowledgements. */
  predicate LinkKept(run: seq<Step>) { forall i :: 0 <= i < |run| ==> !run[i].Disconnect? }

  predicate AcknowledgedOnly(run: seq<Step>) {
    forall i :: 0 <= i < |run| && run[i].IndicationReport? ==> run[i].acknowledged
  }

  lemma {:induction false} PrematureRunKeepsLink()
    ensures LinkKept(PrematureRun())
  {
  }

  /**
    On an undisturbed link, reports of mere transmission let a second procedure
    finish while the first is still unacknowledged.
  */
  lemma {:induction false} PrematureReportOverlaps() returns (run: seq<Step>)
    ensures Possible(Initial(), run) && LinkKept(run) && After(Initial(), run).outstanding == 2
  {
    run := PrematureRun();
    PrematureRunOverlaps();
    PrematureRunKeepsLink();
  }

  /** A write during which the client reconnects. */
  function Interrupted(request: seq<nat>): seq<Step> {
    [Write(1, request)] +
    ([Begin] + ([Disconnect] + ([Connect(1)] + ([Execute(true)] + ([Indicate(true)] + [Return])))))
  }

  /** It leaves its indication unacknowledged with the flag clear. */
  lemma {:induction false} InterruptedWrite(s: State, request: seq<nat>, rest: seq<Step>)
    requires Safe(s) && s.handler.Idle? && s.link == 1 && |request| > 0
    requires Permits(s.fields, 1) && !s.fields.inProgress
    ensures var t := s.(fields := Executed(Disconnected(s.fields).(connection := 1), request, true), outstanding := 1);
            && Possible(s, Interrupted(request) + rest) == Possible(t, rest)
            && (Possible(t, rest) ==> After(s, Interrupted(request) + rest) == After(t, rest))
  {
    var r1 := [Return] + rest;
    var r2 := [Indicate(true)] + r1;
    var r3 := [Execute(true)] + r2;
    var r4 := [Connect(1)] + r3;
    var r5 := [Disconnect] + r4;
    var r6 := [Begin] + r5;
    var s6 := Next(s, Write(1, request));
    var s5 := Next(s6, Begin);
    var s4 := Next(s5, Disconnect);
    var s3 := Next(s4, Connect(1));
    var s2 := Next(s3, Execute(true));
    var s1 := Next(s2, Indicate(true));
    assert Interrupted(request) + rest == [Write(1, request)] + r6;
    Unfold(s, Write(1, request), r6);
    Unfold(s6, Begin, r5);
    Unfold(s5, Disconnect, r4);
    Unfold(s4, Connect(1), r3);
    Unfold(s3, Execute(true), r2);
    Unfold(s2, Indicate(true), r1);
    Unfold(s1, Return, rest);
  }

  /** Connecting, such a write, and the beginning of another one. */
  function ReconnectionRun(): seq<Step> {
    [Connect(1)] + ([Subscribe(false, true)] + (Interrupted([0x07]) + SecondWrite()))
  }

  function SecondWrite(): seq<Step> {
    [Subscribe(false, true)] + ([Write(1, [0x07])] + ([Begin] + ([Execute(true)] + [Indicate(true)])))
  }

  lemma {:induction false} SecondWriteOverlaps(s: State)
    requires s.handler.Idle? && s.fields.connection == s.link == 1 && !s.fields.inProgress
    ensures Possible(s, SecondWrite()) && After(s, SecondWrite()).outstanding == s.outstanding + 1
  {
    var r1 := [Execute(true)] + [Indicate(true)];
    var r2 := [Begin] + r1;
    var s1 := Next(s, Subscribe(false, true));
    var s2 := Next(s1, Write(1, [0x07]));
    var s3 := Next(s2, Begin);
    var s4 := Next(s3, Execute(true));
    Unfold(s, Subscribe(false, true), [Write(1, [0x07])] + r2);
    Unfold(s1, Write(1, [0x07]), r2);
    Unfold(s2, Begin, r1);
    Unfold(s3, Execute(true), [Indicate(true)]);
    Unfold(s4, Indicate(true), []);
  }

  lemma {:induction false} ReconnectionRunOverlaps()
    ensures Possible(Initial(), ReconnectionRun()) && After(Initial(), ReconnectionRun()).outstanding == 2
  {
    var rest := Interrupted([0x07]) + SecondWrite();
    var s1 := Next(Initial(), Connect(1));
    var s2 := Next(s1, Subscribe(false, true));
    var s3 := s2.(fields := Executed(Disconnected(s2.fields).(connection := 1), [0x07], true), outstanding := 1);
    Unfold(Initial(), Connect(1), [Subscribe(false, true)] + rest);
    Unfold(s1, Subscribe(false, true), rest);
    InterruptedWrite(s2, [0x07], SecondWrite());
    SecondWriteOverlaps(s3);
  }

  lemma {:induction false} ReconnectionRunAcknowledged()
    ensures AcknowledgedOnly(ReconnectionRun())
  {
  }

  /**
    Acknowledgements alone are not enough: a reconnection in the middle of a write
    overlaps without any report at all.
  */
  lemma {:induction false} ReconnectionOverlaps() returns (run: seq<Step>)
    ensures Possible(Initial(), run) && AcknowledgedOnly(run) && After(Initial(), run).outstanding == 2
  {
    run := ReconnectionRun();
    ReconnectionRunOverlaps();
    ReconnectionRunAcknowledged();
  }
}
