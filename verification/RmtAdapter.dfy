/**
  The receive side: the capture callback fills a bounded queue, the receive task
  drains it into the pipeline and reports completed revolutions.  One armed
  receive yields one callback.
*/
module RmtAdapter {
  import opened Adapter
  import opened CscMeasurement
  import opened CscService
  import opened EventStream
  import opened Learner
  import opened Pipeline
  import opened Timeline
  import opened Words

  /** The event a phase contributes, when it starts at `at`. */
  function PhaseEvent(f: Phase, at: nat, hz: nat): seq<Event>
    requires hz > 0
  {
    var us := TicksToUs(f.ticks, hz);
    if !f.high && us != 0 then [Event(at, us)] else []
  }

  lemma {:induction false} OnePhase(p: seq<Phase>, f: Phase, start: nat, hz: nat)
    requires hz > 0
    ensures Blockages(p + [f], start, hz) == Blockages(p, start, hz) + PhaseEvent(f, start + Length(p, hz), hz)
    ensures Length(p + [f], hz) == Length(p, hz) + TicksToUs(f.ticks, hz)
  {
    DropLast(p, f);
  }

  // ----- the adapter ---------------------------------------------------------------------

  class Receiver {
    const hz: nat
    const pipeline: SpokePipeline
    const service: NimbleService
    var queue: seq<Event>
    var captureCount: nat
    var queueDrops: nat
    var lastSymbolCount: nat
    var task: Task
    var armed: bool
    var notified: bool

    /** The blockages of every capture so far, in order. */
    ghost var captures: seq<seq<Event>>

    /** Every reported revolution and every value a client has set, in the order in which they reached the wheel. */
    ghost var wheelOps: seq<WheelOp>

    /** Which of the processed events completed a revolution. */
    ghost var log: seq<bool>

    ghost function DeskView(): Desk
      reads this
    {
      Desk(task, armed, notified, queue, captures, queueDrops, captureCount, lastSymbolCount)
    }

    ghost function LedgerView(): Ledger
      reads this, service, service.wheel
    {
      Ledger(service.View(), service.lastNotification, wheelOps, log)
    }

    ghost function View(): State
      reads this, pipeline, service, service.wheel
    {
      State(DeskView(), pipeline.events, LedgerView())
    }

    ghost predicate Valid()
      reads this, pipeline, pipeline.detector, pipeline.pattern, pipeline.pattern.history, pipeline.pattern.intervalLut
      reads service, service.wheel
    {
      && ValidResolution(hz) && pipeline.Valid()
      && Booked(DeskView(), pipeline.events) && Accounted(LedgerView(), pipeline.events)
    }

    constructor (hz: nat)
      requires ValidResolution(hz)
      ensures Valid() && this.hz == hz && View() == Boot()
      ensures fresh(pipeline) && fresh(pipeline.detector) && fresh(pipeline.pattern)
      ensures fresh(pipeline.pattern.history) && fresh(pipeline.pattern.intervalLut)
      ensures fresh(service) && fresh(service.wheel)
    {
      this.hz := hz;
      pipeline := new SpokePipeline();
      service := new NimbleService();
      queue, captures, wheelOps, log := [], [], [], [];
      captureCount, queueDrops, lastSymbolCount := 0, 0, 0;
      task, armed, notified := Rearming, false, false;
      new;
      assert View() == Boot();
      BootIsSound();
    }

    /** Sends from the callback; a full queue refuses. */
    method SendFromIsr(e: Event) returns (sent: bool)
      modifies this`queue
      ensures sent == (|old(queue)| < QUEUE_LENGTH)
      ensures queue == if sent then old(queue) + [e] else old(queue)
    {
      sent := |queue| < QUEUE_LENGTH;
      if sent {
        queue := queue + [e];
      }
    }

    /** Offers one phase of a capture whose earlier blockages are `b`. */
    method OfferPhase(f: Phase, at: nat, ghost b: seq<Event>, ghost base: nat)
      requires hz > 0 && queue == Fitting(b) && queueDrops == (base + Excess(b)) % WORD32
      modifies this`queue, this`queueDrops
      ensures queue == Fitting(b + PhaseEvent(f, at, hz))
      ensures queueDrops == (base + Excess(b + PhaseEvent(f, at, hz))) % WORD32
    {
      var us := if f.high then 0 else TicksToUs(f.ticks, hz);
      assert b + [] == b;
      FittingStep(b, Event(at, us));
      if us != 0 {
        var sent := SendFromIsr(Event(at, us));
        if !sent {
          WrappedSum(base + Excess(b), 1);
          queueDrops := (queueDrops + 1) % WORD32;
        }
      }
    }

    /** The total length of a finished capture. */
    method CapturedUs(symbols: seq<Symbol>) returns (captured: nat)
      requires ValidResolution(hz)
      ensures captured == Length(Phases(symbols), hz)
    {
      captured := 0;
      for i := 0 to |symbols|
        invariant captured == Length(Phases(symbols[..i]), hz)
      {
        PhasesOfPrefix(symbols, i);
        var p, s := Phases(symbols[..i]), symbols[i];
        OnePhase(p, Phase(s.duration0, s.level0), 0, hz);
        OnePhase(p + [Phase(s.duration0, s.level0)], Phase(s.duration1, s.level1), 0, hz);
        captured := captured + TicksToUs(s.duration0, hz);
        captured := captured + TicksToUs(s.duration1, hz);
      }
      assert symbols[..|symbols|] == symbols;
    }

    /** Both phases of one symbol, after the phases `p`; returns where the next symbol starts. */
    method EnqueueSymbol(s: Symbol, cursor: nat, ghost p: seq<Phase>, ghost start: nat, ghost base: nat)
      returns (next: nat)
      requires ValidResolution(hz) && cursor == start + Length(p, hz)
      requires queue == Fitting(Blockages(p, start, hz))
      requires queueDrops == (base + Excess(Blockages(p, start, hz))) % WORD32
      modifies this`queue, this`queueDrops
      ensures var q := p + [Phase(s.duration0, s.level0)] + [Phase(s.duration1, s.level1)];
              && next == start + Length(q, hz)
              && queue == Fitting(Blockages(q, start, hz))
              && queueDrops == (base + Excess(Blockages(q, start, hz))) % WORD32
    {
      var first, second := Phase(s.duration0, s.level0), Phase(s.duration1, s.level1);
      OnePhase(p, first, start, hz);
      OnePhase(p + [first], second, start, hz);
      OfferPhase(first, cursor, Blockages(p, start, hz), base);
      OfferPhase(second, cursor + TicksToUs(s.duration0, hz), Blockages(p + [first], start, hz), base);
      SymbolFits(s, hz);
      next := cursor + SymbolUs(s, hz);
    }

    /** Walks the phases of a capture that began at `start`, sending each blockage to the empty queue. */
    method EnqueuePhases(symbols: seq<Symbol>, start: nat, ghost base: nat)
      requires ValidResolution(hz) && queue == [] && queueDrops == base % WORD32
      modifies this`queue, this`queueDrops
      ensures queue == Fitting(Blockages(Phases(symbols), start, hz))
      ensures queueDrops == (base + Excess(Blockages(Phases(symbols), start, hz))) % WORD32
    {
      var cursor := start;
      for i := 0 to |symbols|
        invariant cursor == start + Length(Phases(symbols[..i]), hz)
        invariant queue == Fitting(Blockages(Phases(symbols[..i]), start, hz))
        invariant queueDrops == (base + Excess(Blockages(Phases(symbols[..i]), start, hz))) % WORD32
      {
        PhasesOfPrefix(symbols, i);
        cursor := EnqueueSymbol(symbols[i], cursor, Phases(symbols[..i]), start, base);
      }
      assert symbols[..|symbols|] == symbols;
    }

    /**
      The callback of a finished capture.  The queue is empty when it starts, so
      exactly the first blockages that fit are kept and the rest are counted.
    */
    method RxDone(now: nat, symbols: seq<Symbol>, ghost processed: seq<Event>)
      requires ValidResolution(hz) && Booked(DeskView(), processed)
      requires armed && now < WORD64 && |symbols| <= RX_SYMBOL_COUNT
      modifies this`queue, this`queueDrops, this`captures, this`captureCount, this`lastSymbolCount
      modifies this`armed, this`notified
      ensures Booked(DeskView(), processed)
      ensures DeskView() == Filed(old(DeskView()), Captured(symbols, now, hz), |symbols|)
      ensures queue == Fitting(Captured(symbols, now, hz))
      ensures queueDrops == (old(queueDrops) + Excess(Captured(symbols, now, hz))) % WORD32
    {
      ghost var c, d := Captured(symbols, now, hz), DeskView();
      CapturedRepresentable(symbols, now, hz);
      FiledKeepsBooks(d, processed, c, |symbols|);
      EnqueueCapture(now, symbols, DropsOf(captures));
      Hand(|symbols|, c);
      assert DeskView() == Filed(d, c, |symbols|);
    }

    /** Lays a capture out backwards from the clock and sends its blockages to the empty queue. */
    method EnqueueCapture(now: nat, symbols: seq<Symbol>, ghost base: nat)
      requires ValidResolution(hz) && queue == [] && queueDrops == base % WORD32
      modifies this`queue, this`queueDrops
      ensures queue == Fitting(Captured(symbols, now, hz))
      ensures queueDrops == (base + Excess(Captured(symbols, now, hz))) % WORD32
    {
      var captured := CapturedUs(symbols);
      EnqueuePhases(symbols, if now > captured then now - captured else 0, base);
    }

    /** Counts a finished capture and hands it to the task. */
    method Hand(symbolCount: nat, ghost c: seq<Event>)
      modifies this`captures, this`captureCount, this`lastSymbolCount, this`armed, this`notified
      ensures DeskView() == old(DeskView()).(captures := old(captures) + [c], count := (old(captureCount) + 1) % WORD32,
                                             lastSymbols := symbolCount, armed := false, notified := true)
    {
      captures := captures + [c];
      lastSymbolCount := symbolCount;
      captureCount := (captureCount + 1) % WORD32;
      armed, notified := false, true;
    }

    /** Arms the receiver for one capture. */
    method Arm(ghost processed: seq<Event>)
      requires Booked(DeskView(), processed) && task.Rearming?
      modifies this`task, this`armed
      ensures Booked(DeskView(), processed)
      ensures DeskView() == old(DeskView()).(armed := true, task := Waiting)
    {
      armed, task := true, Waiting;
    }

    /** The task takes the callback's notification and starts draining. */
    method Wake(ghost processed: seq<Event>)
      requires Booked(DeskView(), processed) && notified
      modifies this`task, this`notified
      ensures Booked(DeskView(), processed)
      ensures DeskView() == old(DeskView()).(notified := false, task := Draining)
    {
      notified, task := false, Draining;
    }

    /** The queue is empty: back to the top of the loop. */
    method FinishDraining(ghost processed: seq<Event>)
      requires Booked(DeskView(), processed) && task.Draining? && queue == []
      modifies this`task
      ensures Booked(DeskView(), processed)
      ensures DeskView() == old(DeskView()).(task := Rearming)
    {
      task := Rearming;
    }

    /** Takes the oldest event through the pipeline, and reports a revolution when it completes one. */
    method DrainOne(buffer: bool) returns (reported: bool)
      requires Valid() && task.Draining? && queue != []
      modifies this`queue, this`wheelOps, this`log, service`lastNotification, service.wheel
      modifies pipeline, pipeline.detector, pipeline.pattern, pipeline.pattern.history, pipeline.pattern.intervalLut
      ensures Valid() && View() == Drained(old(View()))
      ensures reported == Reported(pipeline.events)
    {
      ghost var processed := pipeline.events;
      var event := TakeOldest(processed);
      reported := IngestAndTest(event);
      Settle(event, reported, buffer, processed);
    }

    /** A completed revolution goes to the service. */
    method Settle(e: Event, reported: bool, buffer: bool, ghost processed: seq<Event>)
      requires Accounted(LedgerView(), processed) && Representable(e) && reported == Reported(processed + [e])
      modifies this`wheelOps, this`log, service`lastNotification, service.wheel
      ensures Accounted(LedgerView(), processed + [e])
      ensures LedgerView() == Settled(old(LedgerView()), e, reported)
    {
      SettledKeepsAccount(LedgerView(), processed, e);
      if reported {
        Report(e.timestamp, buffer);
      }
      wheelOps, log := Recorded(wheelOps, e, reported), log + [reported];
    }

    /** Reports one revolution to the service. */
    method Report(us: nat, buffer: bool)
      requires us < WORD64 && service.lastNotification < WORD64
      modifies service`lastNotification, service.wheel
      ensures service.wheel.View() == Apply(old(service.wheel.View()), Turn(us))
      ensures service.lastNotification == Notified(old(service.lastNotification), us)
    {
      var attempted, outcome := service.OnWheelRevolution(us, buffer);
    }

    /** The task's test around one pulse: was locked and inside a revolution, and is now back at spoke zero. */
    method IngestAndTest(event: Event) returns (reported: bool)
      requires pipeline.Valid() && Representable(event)
      modifies pipeline, pipeline.detector, pipeline.pattern, pipeline.pattern.history, pipeline.pattern.intervalLut
      ensures pipeline.Valid() && pipeline.events == old(pipeline.events) + [event]
      ensures reported == Reported(pipeline.events)
    {
      DropLast(pipeline.events, event);
      ghost var before := EstimateAfter(pipeline.events);
      assert pipeline.pattern.View() == before;
      var wasLocked, previousSpoke := pipeline.pattern.countLocked, pipeline.pattern.currentSpoke;
      var result := pipeline.Ingest(event);
      reported := result == PulseAccepted && wasLocked && previousSpoke != 0 &&
                  pipeline.pattern.countLocked && pipeline.pattern.currentSpoke == 0;
    }

    /** Removes the oldest event; the books stay right once the pipeline has seen it. */
    method TakeOldest(ghost processed: seq<Event>) returns (event: Event)
      requires Booked(DeskView(), processed) && task.Draining? && queue != []
      modifies this`queue
      ensures event == old(queue)[0] && Representable(event)
      ensures DeskView() == old(DeskView()).(queue := old(queue)[1..])
      ensures Booked(DeskView(), processed + [event])
    {
      DrainedKeepsBooks(DeskView(), processed);
      event := queue[0];
      queue := queue[1..];
    }

    /**
      Drains the queue: every queued event reaches the pipeline, in order;
      `buffer` says when a notification finds memory.
    */
    method DrainAll(buffer: nat -> bool)
      requires Valid() && task.Draining?
      modifies this`queue, this`wheelOps, this`log, service`lastNotification, service.wheel
      modifies pipeline, pipeline.detector, pipeline.pattern, pipeline.pattern.history, pipeline.pattern.intervalLut
      ensures Valid() && task.Draining? && queue == []
      ensures Advanced(old(service.wheel.revolutions), service.wheel.revolutions,
                       old(Reports(pipeline.events)), Reports(pipeline.events))
    {
      ghost var w, r := service.wheel.revolutions, Reports(pipeline.events);
      while queue != []
        invariant Valid() && task.Draining?
        invariant Advanced(w, service.wheel.revolutions, r, Reports(pipeline.events))
        decreases |queue|
      {
        ghost var before, e := pipeline.events, queue[0];
        var reported := DrainOne(buffer(|queue|));
        DropLast(before, e);
        assert Reports(pipeline.events) == Reports(before) + if reported then 1 else 0;
      }
    }

    /** The first half of a turn: arm, one callback, wake up. */
    method TakeCapture(c: Capture, ghost processed: seq<Event>)
      requires ValidResolution(hz) && Booked(DeskView(), processed) && task.Rearming? && Plausible(c)
      modifies this`task, this`armed, this`notified
      modifies this`queue, this`queueDrops, this`captures, this`captureCount, this`lastSymbolCount
      ensures Booked(DeskView(), processed) && task.Draining?
      ensures captures == old(captures) + [Captured(c.symbols, c.now, hz)]
    {
      Arm(processed);
      RxDone(c.now, c.symbols, processed);
      Wake(processed);
    }

    /** One turn of the receive loop. */
    method OneTurn(c: Capture, buffer: nat -> bool)
      requires Valid() && task.Rearming? && Plausible(c)
      modifies this, service`lastNotification, service.wheel
      modifies pipeline, pipeline.detector, pipeline.pattern, pipeline.pattern.history, pipeline.pattern.intervalLut
      ensures Valid() && task.Rearming?
      ensures captures == old(captures) + [Captured(c.symbols, c.now, hz)]
      ensures Advanced(old(service.wheel.revolutions), service.wheel.revolutions,
                       old(Reports(pipeline.events)), Reports(pipeline.events))
    {
      TakeCapture(c, pipeline.events);
      DrainAll(buffer);
      FinishDraining(pipeline.events);
    }

    /**
      Any number of turns.  The learner has seen exactly the kept blockages of all
      captures in order, and the wheel has advanced by exactly the revolutions they
      contain, held at its maximum.
    */
    method Serve(work: seq<Capture>, buffers: seq<nat -> bool>)
      requires Valid() && task.Rearming? && |buffers| == |work|
      requires forall i :: 0 <= i < |work| ==> Plausible(work[i])
      modifies this, service`lastNotification, service.wheel
      modifies pipeline, pipeline.detector, pipeline.pattern, pipeline.pattern.history, pipeline.pattern.intervalLut
      ensures Valid() && task.Rearming?
      ensures captures == old(captures) + CapturesOf(work, hz)
      ensures pipeline.events == KeptOf(captures) && pipeline.pattern.View() == EstimateAfter(KeptOf(captures))
      ensures Advanced(old(service.wheel.revolutions), service.wheel.revolutions,
                       old(Reports(pipeline.events)), Reports(pipeline.events))
    {
      TakeTurns(work, buffers);
      CaughtUp();
    }

    method TakeTurns(work: seq<Capture>, buffers: seq<nat -> bool>)
      requires Valid() && task.Rearming? && |buffers| == |work|
      requires forall i :: 0 <= i < |work| ==> Plausible(work[i])
      modifies this, service`lastNotification, service.wheel
      modifies pipeline, pipeline.detector, pipeline.pattern, pipeline.pattern.history, pipeline.pattern.intervalLut
      ensures Valid() && task.Rearming?
      ensures captures == old(captures) + CapturesOf(work, hz)
      ensures Advanced(old(service.wheel.revolutions), service.wheel.revolutions,
                       old(Reports(pipeline.events)), Reports(pipeline.events))
    {
      ghost var w, r, earlier := service.wheel.revolutions, Reports(pipeline.events), captures;
      for i := 0 to |work|
        invariant Valid() && task.Rearming?
        invariant captures == earlier + CapturesOf(work[..i], hz)
        invariant Advanced(w, service.wheel.revolutions, r, Reports(pipeline.events))
      {
        CapturesStep(earlier, work, i, hz);
        OneTurn(work[i], buffers[i]);
      }
      assert work[..|work|] == work;
    }

    /** The wheel stands at the value last set plus the revolutions since, held at its maximum. */
    lemma {:induction false} WheelStands()
      requires Valid()
      ensures service.wheel.revolutions == Capped(Base(0, wheelOps) + TurnsSince(wheelOps))
    {
      AccountedTotal(LedgerView(), pipeline.events);
    }

    /** The revolutions that reached the wheel are the reported ones, and they drive the notification clock. */
    lemma {:induction false} ClockStands()
      requires Valid()
      ensures TurnsOf(wheelOps) == RevolutionTimes(pipeline.events)
      ensures service.lastNotification == LastAttempt(0, TurnsOf(wheelOps))
    {
      AccountedTimes(LedgerView(), pipeline.events);
    }

    /** Between turns everything kept has been processed. */
    lemma {:induction false} CaughtUp()
      requires Valid() && task.Rearming?
      ensures pipeline.events == KeptOf(captures) && pipeline.pattern.View() == EstimateAfter(KeptOf(captures))
    {
    }

    // ----- any interleaving ---------------------------------------------------------------

    /** An event from the host stack, at any moment; a written value reaches the wheel. */
    method HostActs(e: HostEvent)
      requires Valid() && (e.Written? ==> Bytes(e.request))
      modifies this`wheelOps, service, service.wheel
      ensures Valid() && View() == old(View()).(ledger := Hosted(old(LedgerView()), e))
    {
      ghost var f := service.View();
      HostedKeepsAccount(LedgerView(), pipeline.events, e);
      service.OnHostEvent(e);
      wheelOps := HostRecord(f, e, wheelOps);
    }

    /** One step of the task, the callback or the host stack; a step that is not possible now is skipped. */
    method Act(act: Action)
      requires Valid() && Realistic(act)
      modifies this, service, service.wheel
      modifies pipeline, pipeline.detector, pipeline.pattern, pipeline.pattern.history, pipeline.pattern.intervalLut
      ensures Valid()
      ensures View() == Step(old(View()), act, hz)
    {
      match act
      case ArmReceive =>
        if task.Rearming? { Arm(pipeline.events); }
      case Complete(c) =>
        if armed { RxDone(c.now, c.symbols, pipeline.events); }
      case WakeTask =>
        if notified { Wake(pipeline.events); }
      case Drain(buffer) =>
        if task.Draining? && queue != [] {
          var reported := DrainOne(buffer);
        }
      case Finish =>
        if task.Draining? && queue == [] { FinishDraining(pipeline.events); }
      case Host(e) =>
        HostActs(e);
    }

    /**
      Any interleaving of receive task, callback and host stack.  What the learner
      has seen and what is queued are the kept blockages in order, and the wheel
      stands at the value last set plus the revolutions reported since, held at
      its maximum.
    */
    method Run(acts: seq<Action>)
      requires Valid() && forall i :: 0 <= i < |acts| ==> Realistic(acts[i])
      modifies this, service, service.wheel
      modifies pipeline, pipeline.detector, pipeline.pattern, pipeline.pattern.history, pipeline.pattern.intervalLut
      ensures Valid() && View() == Steps(old(View()), acts, hz)
      ensures KeptOf(captures) == pipeline.events + queue
      ensures service.wheel.revolutions == Capped(Base(0, wheelOps) + TurnsSince(wheelOps))
    {
      ActAll(acts);
      WheelStands();
    }

    method ActAll(acts: seq<Action>)
      requires Valid() && forall i :: 0 <= i < |acts| ==> Realistic(acts[i])
      modifies this, service, service.wheel
      modifies pipeline, pipeline.detector, pipeline.pattern, pipeline.pattern.history, pipeline.pattern.intervalLut
      ensures Valid() && View() == Steps(old(View()), acts, hz)
    {
      ghost var s := View();
      for i := 0 to |acts|
        invariant Valid() && View() == Steps(s, acts[..i], hz)
      {
        assert acts[..i + 1][..i] == acts[..i];
        Act(acts[i]);
      }
      assert acts[..|acts|] == acts;
    }
  }

  /** The wheel advanced by the reported revolutions, held at its maximum. */
  predicate Advanced(wheelBefore: nat, wheelAfter: nat, reportsBefore: nat, reportsAfter: nat) {
    reportsBefore <= reportsAfter && wheelAfter == Capped(wheelBefore + reportsAfter - reportsBefore)
  }

  /** The blockages of each capture. */
  function CapturesOf(work: seq<Capture>, hz: nat): seq<seq<Event>>
    requires hz > 0
  {
    if |work| == 0 then []
    else
      var c := work[|work| - 1];
      CapturesOf(work[..|work| - 1], hz) + [Captured(c.symbols, c.now, hz)]
  }

  lemma {:induction false} CapturesStep(earlier: seq<seq<Event>>, work: seq<Capture>, i: nat, hz: nat)
    requires i < |work| && hz > 0
    ensures earlier + CapturesOf(work[..i], hz) + [Captured(work[i].symbols, work[i].now, hz)] ==
            earlier + CapturesOf(work[..i + 1], hz)
  {
    assert work[..i + 1][..i] == work[..i];
  }

  lemma {:induction false} PhasesOfPrefix(symbols: seq<Symbol>, i: nat)
    requires i < |symbols|
    ensures var s := symbols[i];
            Phases(symbols[..i + 1]) ==
            Phases(symbols[..i]) + [Phase(s.duration0, s.level0)] + [Phase(s.duration1, s.level1)]
  {
    assert symbols[..i + 1][..i] == symbols[..i];
  }
}
