/** The invariant every store operation keeps. The loader's own check is not inductive: it must be
    strengthened by bounds on pending usage, by the exact meter equation and by gap-free sequences. */
module LiveInvariant {
  import opened Text
  import opened LiveContract
  import opened LiveRecord
  import opened LiveOps
  import CallbackRetry

  /** Pending events carry the last consecutive sequence numbers. */
  ghost predicate Contiguous(o: Outbox)
  {
    && |o.pending| <= o.lastSequence
    && forall i :: 0 <= i < |o.pending| ==> o.pending[i].seqNo == o.lastSequence - |o.pending| + 1 + i
  }

  ghost predicate UsageCovered(o: Outbox)
  {
    forall i :: 0 <= i < |o.pending| && o.pending[i].usage.Some? ==> o.pending[i].usage.value <= o.usageTotal
  }

  ghost predicate StrongOutbox(runner: string, o: Outbox)
  {
    ValidOutbox(runner, o) && Contiguous(o) && UsageCovered(o)
  }

  ghost predicate Inv(r: Record, id: string)
  {
    && Loadable(r, id)
    && StrongOutbox(r.runner, r.outbox)
    && r.outbox.usageTotal == r.meter.micros / MICROS_PER_SECOND
    && (r.secrets.None? ==> r.outbox.pending == [])
  }

  // ----- outbox lemmas -----

  lemma EnqueueKeepsOutbox(runner: string, o: Outbox, e: Event)
    requires StrongOutbox(runner, o)
    requires ValidEvent(e) && e.id == EventId(runner, e.seqNo)
    requires e.seqNo == o.lastSequence + 1 <= MAX_U64
    requires e.usage.Some? ==> e.usage.value >= o.usageTotal
    ensures StrongOutbox(runner, Enqueue(o, e))
  {
    var o' := Enqueue(o, e);
    assert forall i :: 0 <= i < |o.pending| ==> o'.pending[i] == o.pending[i];
    assert o'.pending[|o.pending|] == e;
    assert ValidDelivery(o');
  }

  lemma DropHeadKeepsOutbox(runner: string, o: Outbox)
    requires StrongOutbox(runner, o) && |o.pending| > 0
    ensures StrongOutbox(runner, o.(pending := o.pending[1..], delivery := None))
  {
    var o' := o.(pending := o.pending[1..], delivery := None);
    assert forall i :: 0 <= i < |o'.pending| ==> o'.pending[i] == o.pending[i + 1];
  }

  lemma NextEventFits(r: Record, kind: EventKind, now: int, usage: Option<nat>)
    requires ValidEvent(NextEvent(r, kind, now, usage))
    requires r.outbox.lastSequence <= MAX_U64
    ensures NextEvent(r, kind, now, usage).seqNo == r.outbox.lastSequence + 1 <= MAX_U64
  {
  }

  /** Any liveness event appended by the store keeps the outbox invariant. */
  lemma NextEventKeepsOutbox(r: Record, id: string, kind: EventKind, now: int, usage: Option<nat>)
    requires Inv(r, id)
    requires ValidEvent(NextEvent(r, kind, now, usage))
    requires usage.Some? ==> usage.value >= r.outbox.usageTotal
    ensures StrongOutbox(r.runner, Enqueue(r.outbox, NextEvent(r, kind, now, usage)))
  {
    NextEventFits(r, kind, now, usage);
    EnqueueKeepsOutbox(r.runner, r.outbox, NextEvent(r, kind, now, usage));
  }

  // ----- one lemma per operation -----

  lemma FreshKeepsInv(q: CreateRequest, a: CreateResponse, now: int)
    requires ValidCreateRequest(q) && ValidCreateResponse(a)
    ensures Inv(FreshRecord(q, a, now), q.sessionId)
  {
  }

  lemma IssueKeyKeepsInv(r: Record, id: string, q: KeyRequest, a: KeyResponse)
    requires Inv(r, id) && IssueKey(r, q, a).Saved?
    ensures Inv(IssueKey(r, q, a).record, id)
  {
    var r' := IssueKey(r, q, a).record;
    var s, s' := r.secrets.value, r'.secrets.value;
    forall k | k in s'.keys ensures ValidStoredKey(k, s'.keys[k], s'.currentKey) {
      if k != q.requestId {
        assert ValidStoredKey(k, s.keys[k], s.currentKey);
      }
    }
  }

  lemma CompleteActivationKeepsInv(r: Record, id: string, requestId: string)
    requires Inv(r, id) && CompleteActivation(r, requestId).Saved?
    ensures Inv(CompleteActivation(r, requestId).record, id)
  {
  }

  lemma {:induction false} MeterAllKeeps(m: Meter, segments: seq<Segment>)
    requires Distinct(m.segments) && m.micros <= MAX_U64 && (m.segments != [] ==> m.micros > 0)
    requires MeterAll(m, segments).Some?
    ensures var m' := MeterAll(m, segments).value;
            && Distinct(m'.segments) && m.micros <= m'.micros <= MAX_U64 && (m'.segments != [] ==> m'.micros > 0)
            && m.segments <= m'.segments && (m' != m ==> m'.micros > 0)
  {
    if segments != [] {
      MeterAllKeeps(m, segments[..|segments| - 1]);
    }
  }

  lemma RecordSegmentsKeepsInv(r: Record, id: string, segments: seq<Segment>, now: int)
    requires Inv(r, id) && RecordSegments(r, segments, now).Saved?
    ensures Inv(RecordSegments(r, segments, now).record, id)
  {
    MeterAllKeeps(r.meter, segments);
    var m := MeterAll(r.meter, segments).value;
    var total := m.micros / MICROS_PER_SECOND;
    assert r.outbox.usageTotal <= total;
    if total > r.outbox.usageTotal {
      NextEventKeepsOutbox(r, id, UsageTick, now, Some(total));
    }
  }

  lemma HeartbeatKeepsInv(r: Record, id: string, now: int, interval: int)
    requires Inv(r, id) && RecordHeartbeat(r, now, interval).Saved?
    ensures Inv(RecordHeartbeat(r, now, interval).record, id)
  {
    NextEventKeepsOutbox(r, id, Heartbeat, now, Some(r.outbox.usageTotal));
  }

  lemma PresenceKeepsInv(r: Record, id: string, online: bool, now: int)
    requires Inv(r, id) && RecordPresence(r, online, now).Saved?
    ensures Inv(RecordPresence(r, online, now).record, id)
  {
  }

  lemma RestartKeepsInv(r: Record, id: string, code: LadderCode, now: int, window: int)
    requires Inv(r, id) && RecordRestart(r, code, now, window).Saved?
    ensures Inv(RecordRestart(r, code, now, window).record, id)
  {
    NextEventKeepsOutbox(r, id, LadderRestart, now, None);
  }

  lemma MarkStalledKeepsInv(r: Record, id: string, now: int)
    requires Inv(r, id) && Open(r) && MarkStalled(r, now).Saved?
    ensures Inv(MarkStalled(r, now).record, id)
  {
    NextEventKeepsOutbox(r, id, OutputStalled, now, None);
  }

  lemma BeginTerminalKeepsInv(r: Record, id: string, reason: CloseReason, target: LiveState)
    requires Inv(r, id) && BeginTerminal(r, reason, target).Saved?
    ensures Inv(BeginTerminal(r, reason, target).record, id)
  {
    var r' := BeginTerminal(r, reason, target).record;
    assert ValidLifecycle(r'.lifecycle);
    assert ValidSecrets(r', r'.secrets.value) by {
      assert ValidSecretsIdentity(r', r'.secrets.value);
    }
  }

  lemma AcknowledgeKeepsInv(r: Record, id: string, eventId: string)
    requires Inv(r, id) && Acknowledge(r, eventId).Saved?
    ensures Inv(Acknowledge(r, eventId).record, id)
  {
    DropHeadKeepsOutbox(r.runner, r.outbox);
  }

  lemma ReserveKeepsInv(r: Record, id: string, eventId: string, now: int, initial: int, maximum: int, jitter: nat)
    requires Inv(r, id) && Reserve(r, eventId, now, initial, maximum, jitter).Saved? && jitter <= 500
    ensures Inv(Reserve(r, eventId, now, initial, maximum, jitter).record, id)
  {
    var d := r.outbox.delivery;
    CallbackRetry.DelayBounds(if d.Some? then d.value.attempts + 1 else 1, initial, maximum, jitter);
  }

  lemma RetryFailureKeepsInv(r: Record, id: string, eventId: string, status: nat, code: string)
    requires Inv(r, id) && RecordRetryFailure(r, eventId, status, code).Saved?
    ensures Inv(RecordRetryFailure(r, eventId, status, code).record, id)
  {
  }

  lemma ParkKeepsInv(r: Record, id: string, eventId: string, status: nat, code: string, now: int)
    requires Inv(r, id) && Park(r, eventId, status, code, now).Saved?
    ensures Inv(Park(r, eventId, status, code, now).record, id)
  {
    DropHeadKeepsOutbox(r.runner, r.outbox);
    var o, o' := r.outbox, Park(r, eventId, status, code, now).record.outbox;
    var letter := DeadLetter(o.pending[0], o.delivery.value.attempts, status, code, now);
    assert ValidLetter(r.runner, letter, o.lastSequence);
    forall i | 0 <= i < |o'.letters| ensures ValidLetter(r.runner, o'.letters[i], o.lastSequence) {
      var all := o.letters + [letter];
      assert o'.letters[i] == all[i + |all| - |o'.letters|];
    }
  }

  lemma ClearSecretsKeepsInv(r: Record, id: string)
    requires Inv(r, id) && ClearSecrets(r).Saved?
    ensures Inv(ClearSecrets(r).record, id)
  {
  }

  // ----- Advance as its real callers use it -----

  lemma IdsArePending(r: Record, id: string, n: nat)
    requires Inv(r, id) && n > r.outbox.lastSequence
    ensures EventId(r.runner, n) !in RecordCursor(r.outbox).seenIds
  {
    var o := r.outbox;
    forall i | 0 <= i < |o.pending| ensures o.pending[i].id != EventId(r.runner, n) {
      if o.pending[i].id == EventId(r.runner, n) {
        EventIdInjective(r.runner, o.pending[i].seqNo, n);
      }
    }
  }

  lemma StartKeepsInv(r: Record, id: string, now: int)
    requires Inv(r, id) && Advance(r, StartedEvent(r, now)).Saved?
    ensures Inv(Advance(r, StartedEvent(r, now)).record, id)
  {
    EnqueueKeepsOutbox(r.runner, r.outbox, StartedEvent(r, now));
  }

  /** A session whose termination is recorded can be finalised exactly when the next sequence number
      exists and the identity it yields still fits the identifier pattern. */
  lemma FinalizeSucceedsIff(r: Record, id: string, now: int)
    requires Inv(r, id) && r.lifecycle.state == Active && r.lifecycle.stopping
    ensures Advance(r, TerminalEvent(r, now)).Saved? <==>
              r.outbox.lastSequence < MAX_U64 && EventIdFits(r.runner, r.outbox.lastSequence + 1)
  {
    var e := TerminalEvent(r, now);
    EventIdIsOpaque(r.runner, e.seqNo);
    if r.outbox.lastSequence < MAX_U64 {
      IdsArePending(r, id, e.seqNo);
    }
  }

  lemma FinalizeKeepsInv(r: Record, id: string, now: int)
    requires Inv(r, id) && r.lifecycle.state == Active && r.lifecycle.stopping
    requires Advance(r, TerminalEvent(r, now)).Saved?
    ensures Inv(Advance(r, TerminalEvent(r, now)).record, id)
  {
    FinalizeSucceedsIff(r, id, now);
    EnqueueKeepsOutbox(r.runner, r.outbox, TerminalEvent(r, now));
  }
}
