/** Whole runs of one live session: every interleaving of store operations, lost saves, crashes and
    finalisers that commit an event computed from an earlier load. */
module LiveRuns {
  import opened Text
  import opened LiveContract
  import opened LiveRecord
  import opened LiveOps
  import opened LiveInvariant

  datatype Step =
    | Create(create: CreateRequest, created: CreateResponse, now: int)
    | Issue(key: KeyRequest, issued: KeyResponse)
    | Complete(requestId: string)
    | Start(now: int)
    | Poll(segments: seq<Segment>, now: int)
    | Beat(now: int, interval: int)
    | Presence(online: bool, now: int)
    | Restart(code: LadderCode, now: int, window: int)
    | Stall(now: int)
    | Evaluate(now: int, stallAfter: int, failAfter: int)
    | Begin(reason: CloseReason, target: LiveState)
    | FinalizeLoad(now: int)
    | FinalizeCommit(event: Event)
    | Ack(eventId: string)
    | Attempted(eventId: string, now: int, initial: int, maximum: int, digest: nat)
    | RetryFailed(eventId: string, status: nat, errorCode: string)
    | Reject(eventId: string, status: nat, errorCode: string, now: int)
    | Erase
    | Crash

  datatype Settled = Settled(event: Event, accepted: bool)

  datatype Intent = Intent(reason: CloseReason, target: LiveState)

  /** One session's durable record with its history: all events ever enqueued, the ones that left the
      outbox, all segments of successful polls, the first durable termination intent, and the terminal
      events that running finalisers have computed but not committed. */
  datatype Sys = Sys(
    record: Option<Record>, log: seq<Event>, settled: seq<Settled>, polled: seq<Segment>,
    intent: Option<Intent>, finalizing: set<Event>)

  const INITIAL := Sys(None, [], [], [], None, {})

  function Plain<T>(o: Outcome<T>): Outcome<()>
  {
    match o
    case Saved(r, _) => Saved(r, ())
    case Kept(_) => Kept(())
    case Refused(why) => Refused(why)
  }

  /** What a step does to an existing record. */
  function Transform(s: Sys, r: Record, step: Step): Outcome<()>
  {
    match step
    case Create(q, a, now) => Replay(r, q)
    case Issue(q, a) => Plain(IssueKey(r, q, a))
    case Complete(id) => CompleteActivation(r, id)
    case Start(now) => Advance(r, StartedEvent(r, now))
    case Poll(segments, now) => Plain(RecordSegments(r, segments, now))
    case Beat(now, interval) => Plain(RecordHeartbeat(r, now, interval))
    case Presence(online, now) => RecordPresence(r, online, now)
    case Restart(code, now, window) => Plain(RecordRestart(r, code, now, window))
    case Stall(now) => RecordStalled(r, now)
    case Evaluate(now, stallAfter, failAfter) => Plain(EvaluateHealth(r, now, stallAfter, failAfter))
    case Begin(reason, target) => Plain(BeginTerminal(r, reason, target))
    case FinalizeLoad(now) => Kept(())
    case FinalizeCommit(e) => if e in s.finalizing then Advance(r, e) else Kept(())
    case Ack(id) => Acknowledge(r, id)
    case Attempted(id, now, initial, maximum, digest) => Reserve(r, id, now, initial, maximum, digest % 501)
    case RetryFailed(id, status, code) => RecordRetryFailure(r, id, status, code)
    case Reject(id, status, code, now) => Park(r, id, status, code, now)
    case Erase => ClearSecrets(r)
    case Crash => Kept(())
  }

  /** The history after a save that replaced `r` by `r'`. */
  function Remember(s: Sys, r: Record, r': Record, step: Step): Sys
  {
    var log := if r'.outbox.lastSequence != r.outbox.lastSequence && r'.outbox.pending != []
               then s.log + [r'.outbox.pending[|r'.outbox.pending| - 1]] else s.log;
    var settled := if (step.Ack? || step.Reject?) && r.outbox.pending != []
                   then s.settled + [Settled(r.outbox.pending[0], step.Ack?)] else s.settled;
    var polled := if step.Poll? then s.polled + step.segments else s.polled;
    var intent := if step.Begin? && s.intent.None? then Some(Intent(step.reason, step.target)) else s.intent;
    Sys(Some(r'), log, settled, polled, intent, s.finalizing)
  }

  /** One step of session `id`. A save replaces the whole record or, when not `persisted`, does not happen. */
  function Next(id: string, s: Sys, step: Step, persisted: bool): Sys
  {
    if s.record.None? then
      if step.Create? && step.create.sessionId == id && persisted
         && ValidCreateRequest(step.create) && ValidCreateResponse(step.created)
      then INITIAL.(record := Some(FreshRecord(step.create, step.created, step.now)))
      else s
    else
      var r := s.record.value;
      match Transform(s, r, step)
      case Saved(r', _) => if persisted then Remember(s, r, r', step) else s
      case Kept(_) =>
        if step.Poll? then s.(polled := s.polled + step.segments)
        else if step.FinalizeLoad? && step.now != 0 && r.lifecycle.state == Active && r.lifecycle.stopping
        then s.(finalizing := s.finalizing + {TerminalEvent(r, step.now)})
        else if step.Crash? then s.(finalizing := {})
        else s
      case Refused(_) => s
  }

  datatype Move = Move(step: Step, persisted: bool)

  function Run(id: string, moves: seq<Move>): Sys
  {
    if moves == [] then INITIAL
    else
      var last := moves[|moves| - 1];
      Next(id, Run(id, moves[..|moves| - 1]), last.step, last.persisted)
  }

  // ----- the invariant of a run -----

  /** Finalisers hold exactly the event the stopping record asks for, until the session is terminal. */
  ghost predicate FinalizersAgree(s: Sys, r: Record)
  {
    r.lifecycle.state == Active ==>
      forall e :: e in s.finalizing ==> r.lifecycle.stopping && e == TerminalEvent(r, e.at)
  }

  /** All events ever enqueued: numbered 1, 2, 3, ..., with usage that never decreases. */
  ghost predicate LogOrdered(runner: string, log: seq<Event>, lastSequence: nat, usageTotal: nat)
  {
    && |log| == lastSequence
    && (forall i :: 0 <= i < |log| ==>
          log[i].seqNo == i + 1 && ValidEvent(log[i]) && log[i].id == EventId(runner, i + 1))
    && UsageNeverDecreases(log)
    && (forall i :: 0 <= i < |log| && log[i].usage.Some? ==> log[i].usage.value <= usageTotal)
  }

  /** Every event ever enqueued either left the outbox, in order, or is still pending, in order. */
  ghost predicate LogConserved(log: seq<Event>, settled: seq<Settled>, pending: seq<Event>)
  {
    && |log| == |settled| + |pending|
    && (forall i :: 0 <= i < |settled| ==> settled[i].event == log[i])
    && log[|settled|..] == pending
  }

  ghost predicate IntentKept(intent: Option<Intent>, l: Lifecycle)
  {
    match intent
    case None => l.state == Active && !l.stopping
    case Some(i) =>
      || (l.state == Active && l.stopping && l.pendingReason == Some(i.reason) && l.pendingState == Some(i.target))
      || (l.state == i.target && i.target != Active && l.closeReason == Some(i.reason))
  }

  /** A terminal session's log ends with its one terminal event; nobody else's log has one. */
  ghost predicate TerminalIsLast(log: seq<Event>, l: Lifecycle, usageTotal: nat)
  {
    && (forall i :: 0 <= i < |log| && log[i].state != Active ==> i == |log| - 1 && l.state != Active)
    && (l.state != Active ==>
          && |log| > 0
          && log[|log| - 1].state == l.state && log[|log| - 1].closeReason == l.closeReason
          && log[|log| - 1].usage == Some(usageTotal))
  }

  ghost predicate SysInv(id: string, s: Sys)
  {
    match s.record
    case None => s == INITIAL
    case Some(r) =>
      && Inv(r, id)
      && FinalizersAgree(s, r)
      && LogOrdered(r.runner, s.log, r.outbox.lastSequence, r.outbox.usageTotal)
      && LogConserved(s.log, s.settled, r.outbox.pending)
      && MeterAll(Meter(0, []), s.polled) == Some(r.meter)
      && IntentKept(s.intent, r.lifecycle)
      && TerminalIsLast(s.log, r.lifecycle, r.outbox.usageTotal)
  }

  predicate IsDeliveryStep(step: Step)
  {
    step.Ack? || step.Attempted? || step.RetryFailed? || step.Reject? || step.Erase? || step.Begin?
        || step.FinalizeCommit?
  }

  lemma DeliveryStepKeepsInv(id: string, s: Sys, r: Record, step: Step)
    requires Inv(r, id) && FinalizersAgree(s, r) && IsDeliveryStep(step) && Transform(s, r, step).Saved?
    ensures Inv(Transform(s, r, step).record, id)
  {
    match step
    case Begin(reason, target) => BeginTerminalKeepsInv(r, id, reason, target);
    case FinalizeCommit(e) => FinalizeKeepsInv(r, id, e.at);
    case Ack(k) => AcknowledgeKeepsInv(r, id, k);
    case Attempted(k, now, initial, maximum, digest) => ReserveKeepsInv(r, id, k, now, initial, maximum, digest % 501);
    case RetryFailed(k, status, code) => RetryFailureKeepsInv(r, id, k, status, code);
    case Reject(k, status, code, now) => ParkKeepsInv(r, id, k, status, code, now);
    case Erase => ClearSecretsKeepsInv(r, id);
  }

  predicate IsHealthStep(step: Step)
  {
    step.Beat? || step.Presence? || step.Restart? || step.Stall? || step.Evaluate?
  }

  lemma HealthStepKeepsInv(id: string, s: Sys, r: Record, step: Step)
    requires Inv(r, id) && IsHealthStep(step) && Transform(s, r, step).Saved?
    ensures Inv(Transform(s, r, step).record, id)
  {
    match step
    case Beat(now, interval) => HeartbeatKeepsInv(r, id, now, interval);
    case Presence(online, now) => PresenceKeepsInv(r, id, online, now);
    case Restart(code, now, window) => RestartKeepsInv(r, id, code, now, window);
    case _ => StallStepKeepsInv(id, s, r, step);
  }

  lemma StallStepKeepsInv(id: string, s: Sys, r: Record, step: Step)
    requires Inv(r, id) && (step.Stall? || step.Evaluate?) && Transform(s, r, step).Saved?
    ensures Inv(Transform(s, r, step).record, id)
  {
    MarkStalledKeepsInv(r, id, step.now);
  }

  lemma WorkStepKeepsInv(id: string, s: Sys, r: Record, step: Step)
    requires Inv(r, id) && !IsDeliveryStep(step) && !IsHealthStep(step) && Transform(s, r, step).Saved?
    ensures Inv(Transform(s, r, step).record, id)
  {
    match step
    case Issue(q, a) => IssueKeyKeepsInv(r, id, q, a);
    case Complete(k) => CompleteActivationKeepsInv(r, id, k);
    case Start(now) => StartKeepsInv(r, id, now);
    case Poll(segments, now) => RecordSegmentsKeepsInv(r, id, segments, now);
    case Create(_, _, _) =>
    case FinalizeLoad(_) =>
    case Crash =>
  }

  /** Every step that saves keeps the record invariant. */
  lemma TransformKeepsInv(id: string, s: Sys, r: Record, step: Step)
    requires Inv(r, id) && FinalizersAgree(s, r)
    requires Transform(s, r, step).Saved?
    ensures Inv(Transform(s, r, step).record, id)
  {
    if IsDeliveryStep(step) {
      DeliveryStepKeepsInv(id, s, r, step);
    } else if IsHealthStep(step) {
      HealthStepKeepsInv(id, s, r, step);
    } else {
      WorkStepKeepsInv(id, s, r, step);
    }
  }

  predicate Settles(step: Step) { step.Ack? || step.Reject? }

  /** What a saved step may do to the outbox: append one numbered event, drop the head, or nothing. */
  ghost predicate OutboxMoves(r: Record, r': Record, step: Step)
  {
    var o, o' := r.outbox, r'.outbox;
    && r'.runner == r.runner
    && if Settles(step) then
         |o.pending| > 0 && o'.pending == o.pending[1..]
         && o'.lastSequence == o.lastSequence && o'.usageTotal == o.usageTotal
       else if o'.lastSequence == o.lastSequence then o'.pending == o.pending && o'.usageTotal == o.usageTotal
       else
         exists e :: o'.pending == o.pending + [e] && o'.usageTotal >= o.usageTotal && Appended(r, o', e)
  }

  ghost predicate Appended(r: Record, o': Outbox, e: Event)
  {
    && e.seqNo == r.outbox.lastSequence + 1 == o'.lastSequence && ValidEvent(e) && e.id == EventId(r.runner, e.seqNo)
    && (e.usage.Some? ==> e.usage.value == o'.usageTotal)
    && (e.usage.None? ==> o'.usageTotal == r.outbox.usageTotal)
  }

  lemma EnqueueMovesOutbox(r: Record, r': Record, e: Event, step: Step)
    requires r'.runner == r.runner && r'.outbox == Enqueue(r.outbox, e) && !Settles(step)
    requires e.seqNo == r.outbox.lastSequence + 1 && ValidEvent(e) && e.id == EventId(r.runner, e.seqNo)
    requires e.usage.Some? ==> e.usage.value >= r.outbox.usageTotal
    ensures OutboxMoves(r, r', step)
  {
    assert Appended(r, r'.outbox, e);
  }

  lemma NextEventMovesOutbox(r: Record, r': Record, kind: EventKind, now: int, usage: Option<nat>, step: Step)
    requires r.outbox.lastSequence <= MAX_U64 && ValidEvent(NextEvent(r, kind, now, usage)) && !Settles(step)
    requires r'.runner == r.runner && r'.outbox == Enqueue(r.outbox, NextEvent(r, kind, now, usage))
    requires usage.Some? ==> usage.value >= r.outbox.usageTotal
    ensures OutboxMoves(r, r', step)
  {
    EnqueueMovesOutbox(r, r', NextEvent(r, kind, now, usage), step);
  }

  lemma AdvanceMovesOutbox(s: Sys, r: Record, step: Step)
    requires r.outbox.lastSequence <= MAX_U64 && FinalizersAgree(s, r)
    requires step.Start? || step.FinalizeCommit?
    requires Transform(s, r, step).Saved?
    ensures OutboxMoves(r, Transform(s, r, step).record, step)
  {
    var e := if step.Start? then StartedEvent(r, step.now) else step.event;
    EnqueueMovesOutbox(r, Transform(s, r, step).record, e, step);
  }

  lemma TransformMovesOutbox(s: Sys, r: Record, step: Step)
    requires r.outbox.lastSequence <= MAX_U64 && FinalizersAgree(s, r)
    requires Transform(s, r, step).Saved?
    ensures OutboxMoves(r, Transform(s, r, step).record, step)
  {
    var r' := Transform(s, r, step).record;
    if step.Start? || step.FinalizeCommit? {
      AdvanceMovesOutbox(s, r, step);
    } else if step.Poll? && r'.outbox != r.outbox {
      NextEventMovesOutbox(r, r', UsageTick, step.now, Some(r'.meter.micros / MICROS_PER_SECOND), step);
    } else if step.Beat? {
      NextEventMovesOutbox(r, r', Heartbeat, step.now, Some(r.outbox.usageTotal), step);
    } else if step.Restart? {
      NextEventMovesOutbox(r, r', LadderRestart, step.now, None, step);
    } else if step.Stall? || step.Evaluate? {
      NextEventMovesOutbox(r, r', OutputStalled, step.now, None, step);
    }
  }

  // ----- lifecycle moves -----

  ghost predicate SameLifecycle(r: Record, r': Record)
  {
    && r'.lifecycle.state == r.lifecycle.state && r'.lifecycle.stopping == r.lifecycle.stopping
    && r'.lifecycle.pendingReason == r.lifecycle.pendingReason && r'.lifecycle.pendingState == r.lifecycle.pendingState
    && r'.lifecycle.closeReason == r.lifecycle.closeReason
  }

  /** Only Begin and a terminal event change the lifecycle; only a poll changes the meter; and once a
      termination is recorded no liveness or usage event can be enqueued any more. */
  lemma TransformMovesLifecycle(s: Sys, r: Record, step: Step)
    requires FinalizersAgree(s, r) && ValidLifecycle(r.lifecycle)
    requires Transform(s, r, step).Saved?
    ensures var r' := Transform(s, r, step).record;
            && (!step.Poll? ==> r'.meter == r.meter)
            && (step.Begin? ==> Open(r) && r'.lifecycle.state == Active && r'.lifecycle.stopping
                                && r'.lifecycle.pendingReason == Some(step.reason)
                                && r'.lifecycle.pendingState == Some(step.target) && step.target != Active)
            && (step.FinalizeCommit? ==>
                  r.lifecycle.state == Active && r.lifecycle.stopping && step.event == TerminalEvent(r, step.event.at)
                  && r'.lifecycle.state == r.lifecycle.pendingState.value != Active
                  && r'.lifecycle.closeReason == r.lifecycle.pendingReason && !r'.lifecycle.stopping)
            && (!step.Begin? && !step.FinalizeCommit? ==> SameLifecycle(r, r'))
            && (!Open(r) && !step.FinalizeCommit? ==>
                  r'.outbox.lastSequence == r.outbox.lastSequence && r'.outbox.usageTotal == r.outbox.usageTotal
                  && r'.meter == r.meter)
  {
  }

  lemma LogAppend(runner: string, log: seq<Event>, last: nat, usage: nat, usage': nat, e: Event)
    requires LogOrdered(runner, log, last, usage) && usage <= usage'
    requires e.seqNo == last + 1 && ValidEvent(e) && e.id == EventId(runner, e.seqNo)
    requires e.usage.Some? ==> e.usage.value == usage'
    ensures LogOrdered(runner, log + [e], last + 1, usage')
  {
    var log' := log + [e];
    assert forall i :: 0 <= i < |log| ==> log'[i] == log[i];
  }

  lemma LogSettle(log: seq<Event>, settled: seq<Settled>, pending: seq<Event>, accepted: bool)
    requires LogConserved(log, settled, pending) && |pending| > 0
    ensures LogConserved(log, settled + [Settled(pending[0], accepted)], pending[1..])
  {
    assert pending[0] == log[|settled|];
  }

  lemma LogStep(s: Sys, r: Record, r': Record, step: Step)
    requires LogOrdered(r.runner, s.log, r.outbox.lastSequence, r.outbox.usageTotal)
    requires LogConserved(s.log, s.settled, r.outbox.pending)
    requires OutboxMoves(r, r', step)
    ensures var s' := Remember(s, r, r', step);
            && LogOrdered(r'.runner, s'.log, r'.outbox.lastSequence, r'.outbox.usageTotal)
            && LogConserved(s'.log, s'.settled, r'.outbox.pending)
  {
    var o, o' := r.outbox, r'.outbox;
    if o'.lastSequence != o.lastSequence {
      var e :| o'.pending == o.pending + [e] && o'.usageTotal >= o.usageTotal && Appended(r, o', e);
      LogAppend(r.runner, s.log, o.lastSequence, o.usageTotal, o'.usageTotal, e);
      assert (s.log + [e])[|s.settled|..] == s.log[|s.settled|..] + [e];
    } else if Settles(step) {
      LogSettle(s.log, s.settled, o.pending, step.Ack?);
    }
  }

  /** Metering a concatenation is metering its parts one after the other; it fails exactly when a part fails. */
  lemma {:induction false} MeterAllSplit(m: Meter, a: seq<Segment>, b: seq<Segment>)
    ensures MeterAll(m, a + b) == if MeterAll(m, a).None? then None else MeterAll(MeterAll(m, a).value, b)
  {
    if b == [] {
      assert a + b == a;
    } else {
      var front := b[..|b| - 1];
      MeterAllSplit(m, a, front);
      assert (a + b)[..|a + b| - 1] == a + front;
    }
  }

  lemma FinalizersStep(s: Sys, r: Record, step: Step)
    requires FinalizersAgree(s, r) && ValidLifecycle(r.lifecycle) && r.outbox.lastSequence <= MAX_U64
    requires Transform(s, r, step).Saved?
    ensures var r' := Transform(s, r, step).record; FinalizersAgree(Remember(s, r, r', step), r')
  {
    TransformMovesLifecycle(s, r, step);
    TransformMovesOutbox(s, r, step);
  }

  lemma IntentStep(s: Sys, r: Record, step: Step)
    requires FinalizersAgree(s, r) && ValidLifecycle(r.lifecycle) && IntentKept(s.intent, r.lifecycle)
    requires Transform(s, r, step).Saved?
    ensures var r' := Transform(s, r, step).record; IntentKept(Remember(s, r, r', step).intent, r'.lifecycle)
  {
    TransformMovesLifecycle(s, r, step);
  }

  lemma TerminalStep(s: Sys, r: Record, step: Step)
    requires FinalizersAgree(s, r) && ValidLifecycle(r.lifecycle) && r.outbox.lastSequence <= MAX_U64
    requires TerminalIsLast(s.log, r.lifecycle, r.outbox.usageTotal)
    requires Transform(s, r, step).Saved?
    ensures var r' := Transform(s, r, step).record;
            TerminalIsLast(Remember(s, r, r', step).log, r'.lifecycle, r'.outbox.usageTotal)
  {
    var r' := Transform(s, r, step).record;
    var log' := Remember(s, r, r', step).log;
    TransformMovesLifecycle(s, r, step);
    TransformMovesOutbox(s, r, step);
    if r'.outbox.lastSequence != r.outbox.lastSequence {
      var e := r'.outbox.pending[|r.outbox.pending|];
      assert log' == s.log + [e];
      LivenessEventsAreActive(s, r, step);
    }
  }

  lemma LivenessEventsAreActive(s: Sys, r: Record, step: Step)
    requires Transform(s, r, step).Saved?
    requires Transform(s, r, step).record.outbox.lastSequence != r.outbox.lastSequence
    requires |Transform(s, r, step).record.outbox.pending| == |r.outbox.pending| + 1
    ensures var e := Transform(s, r, step).record.outbox.pending[|r.outbox.pending|];
            if step.FinalizeCommit? then e == step.event else e.state == Active
  {
  }

  lemma MeterStep(s: Sys, r: Record, step: Step)
    requires MeterAll(Meter(0, []), s.polled) == Some(r.meter)
    requires FinalizersAgree(s, r) && ValidLifecycle(r.lifecycle)
    requires Transform(s, r, step).Saved?
    ensures var r' := Transform(s, r, step).record;
            MeterAll(Meter(0, []), Remember(s, r, r', step).polled) == Some(r'.meter)
  {
    TransformMovesLifecycle(s, r, step);
    if step.Poll? {
      MeterAllSplit(Meter(0, []), s.polled, step.segments);
    }
  }

  lemma SaveKeepsInv(id: string, s: Sys, r: Record, step: Step)
    requires SysInv(id, s) && s.record == Some(r)
    requires Transform(s, r, step).Saved?
    ensures SysInv(id, Remember(s, r, Transform(s, r, step).record, step))
  {
    var r' := Transform(s, r, step).record;
    assert Inv(r', id) by { TransformKeepsInv(id, s, r, step); }
    assert OutboxMoves(r, r', step) by { TransformMovesOutbox(s, r, step); }
    LogStep(s, r, r', step);
    FinalizersStep(s, r, step);
    IntentStep(s, r, step);
    TerminalStep(s, r, step);
    MeterStep(s, r, step);
  }

  lemma RereadKeepsInv(id: string, s: Sys, r: Record, segments: seq<Segment>)
    requires SysInv(id, s) && s.record == Some(r) && MeterAll(r.meter, segments) == Some(r.meter)
    ensures SysInv(id, s.(polled := s.polled + segments))
  {
    MeterAllSplit(Meter(0, []), s.polled, segments);
  }

  lemma FinalizerKeepsInv(id: string, s: Sys, r: Record, finalizing: set<Event>)
    requires SysInv(id, s) && s.record == Some(r) && FinalizersAgree(s.(finalizing := finalizing), r)
    ensures SysInv(id, s.(finalizing := finalizing))
  {
  }

  lemma KeptKeepsInv(id: string, s: Sys, r: Record, step: Step, persisted: bool)
    requires SysInv(id, s) && s.record == Some(r)
    requires Transform(s, r, step).Kept?
    ensures SysInv(id, Next(id, s, step, persisted))
  {
    if step.Poll? {
      RereadKeepsInv(id, s, r, step.segments);
    } else {
      FinalizerKeepsInv(id, s, r, Next(id, s, step, persisted).finalizing);
    }
  }

  lemma StepKeepsInv(id: string, s: Sys, step: Step, persisted: bool)
    requires SysInv(id, s)
    ensures SysInv(id, Next(id, s, step, persisted))
  {
    match s.record
    case None =>
      if step.Create? && ValidCreateRequest(step.create) && ValidCreateResponse(step.created) {
        FreshKeepsInv(step.create, step.created, step.now);
      }
    case Some(r) =>
      match Transform(s, r, step)
      case Saved(r', _) => SaveKeepsInv(id, s, r, step);
      case Kept(_) => KeptKeepsInv(id, s, r, step, persisted);
      case Refused(_) =>
  }

  lemma NextRecord(id: string, s: Sys, step: Step, persisted: bool)
    requires s.record.Some?
    ensures Next(id, s, step, persisted).record ==
              if persisted && Transform(s, s.record.value, step).Saved?
              then Some(Transform(s, s.record.value, step).record) else s.record
  {
  }

  lemma RunOneMore(id: string, moves: seq<Move>, more: seq<Move>)
    requires more != []
    ensures var front, last := more[..|more| - 1], more[|more| - 1];
            Run(id, moves + more) == Next(id, Run(id, moves + front), last.step, last.persisted)
  {
    var all := moves + more;
    assert all[..|all| - 1] == moves + more[..|more| - 1];
  }

  lemma {:induction false} RunKeepsInv(id: string, moves: seq<Move>)
    ensures SysInv(id, Run(id, moves))
  {
    if moves != [] {
      var front, last := moves[..|moves| - 1], moves[|moves| - 1];
      RunKeepsInv(id, front);
      StepKeepsInv(id, Run(id, front), last.step, last.persisted);
    }
  }
}
