/** The session store itself: a directory of records that each method loads, changes step by step and
    replaces atomically (EncryptedFileSessionStoreV1 in live-runner/store.go). */
module LiveStore {
  import opened Text
  import opened LiveContract
  import opened LiveRecord
  import opened LiveOps
  import opened Durable
  import CallbackRetry

  datatype Failure = Declined(why: Refusal) | NotLoadable | NotDurable

  datatype Reply<+T> = Done(value: T) | Error(why: Failure)

  type Files = map<string, Record>

  /** An outcome for a record, served through the directory: on every refusal, and for every other session,
      the directory is unchanged. */
  ghost predicate Served<T>(
    before: Files, after: Files, id: string, op: Record -> Outcome<T>, save: SaveResult, reply: Reply<T>)
  {
    if id !in before || !Loadable(before[id], id) then after == before && reply.Error?
    else
      match op(before[id])
      case Saved(r, v) =>
        && after == (if save.Lost? then before else before[id := r])
        && reply == (if save.Confirmed? then Done(v) else Error(NotDurable))
      case Kept(v) => after == before && reply == Done(v)
      case Refused(why) => after == before && reply == Error(Declined(why))
  }

  class SessionStore {
    var files: Files

    constructor ()
      ensures files == map[]
    {
      files := map[];
    }

    method Load(id: string) returns (r: Option<Record>)
      ensures r == if id in files && Loadable(files[id], id) then Some(files[id]) else None
    {
      if id !in files {
        return None;
      }
      var ok := ValidateLoaded(files[id], id);
      return if ok then Some(files[id]) else None;
    }

    method Save<T>(id: string, record: Record, save: SaveResult, value: T) returns (reply: Reply<T>)
      modifies this
      ensures files == if save.Lost? then old(files) else old(files)[id := record]
      ensures reply == if save.Confirmed? then Done(value) else Error(NotDurable)
    {
      if !save.Lost? {
        files := files[id := record];
      }
      return if save.Confirmed? then Done(value) else Error(NotDurable);
    }

    method CreateOrReplay(q: CreateRequest, a: CreateResponse, now: int, save: SaveResult)
      returns (reply: Reply<Record>)
      modifies this
      ensures !ValidCreateRequest(q) || !ValidCreateResponse(a) ==> files == old(files) && reply.Error?
      ensures ValidCreateRequest(q) && ValidCreateResponse(a) && q.sessionId !in old(files) ==>
                && files == (if save.Lost? then old(files) else old(files)[q.sessionId := FreshRecord(q, a, now)])
                && (reply.Done? <==> save.Confirmed?)
                && (reply.Done? ==> reply.value == FreshRecord(q, a, now))
      ensures q.sessionId in old(files) ==> files == old(files)
      ensures ValidCreateRequest(q) && ValidCreateResponse(a)
                && q.sessionId in old(files) && Loadable(old(files)[q.sessionId], q.sessionId) ==>
                match Replay(old(files)[q.sessionId], q)
                case Kept(_) => reply == Done(old(files)[q.sessionId])
                case Refused(why) => reply == Error(Declined(why))
                case Saved(_, _) => false
    {
      if !ValidCreateRequest(q) || !ValidCreateResponse(a) {
        return Error(Declined(Invalid));
      }
      if q.sessionId in files {
        var loaded := Load(q.sessionId);
        if loaded.None? {
          return Error(NotLoadable);
        }
        var record := loaded.value;
        if record.fingerprint != q {
          return Error(Declined(SessionIdReuse));
        }
        if record.lifecycle.state != Active || record.lifecycle.stopping || record.secrets.None? {
          return Error(Declined(SessionTerminal));
        }
        return Done(record);
      }
      var record := FreshRecord(q, a, now);
      reply := Save(q.sessionId, record, save, record);
    }

    /** The earlier keys are blanked one by one, in map order, before the new one is added. */
    method BlankKeys(keys: map<string, StoredKey>) returns (blanked: map<string, StoredKey>)
      ensures blanked == SupersedeAll(keys)
    {
      blanked := keys;
      var remaining := keys.Keys;
      while remaining != {}
        invariant remaining <= keys.Keys == blanked.Keys
        invariant forall id :: id in keys ==>
          blanked[id] == if id in remaining then keys[id] else Superseded(keys[id])
        decreases remaining
      {
        var id :| id in remaining;
        var stored := blanked[id];
        stored := stored.(response := stored.response.(streamKey := ""));
        blanked := blanked[id := stored];
        remaining := remaining - {id};
      }
    }

    method RecordKeyIssue(id: string, q: KeyRequest, a: KeyResponse, save: SaveResult)
      returns (reply: Reply<KeyResponse>)
      modifies this
      ensures Served(old(files), files, id, r => IssueKey(r, q, a), save, reply)
    {
      var loaded := Load(id);
      if loaded.None? {
        return Error(NotLoadable);
      }
      var record := loaded.value;
      if !ValidKeyRequest(q) || !ValidKeyResponse(q, a) {
        return Error(Declined(Invalid));
      }
      if record.lifecycle.state != Active || record.lifecycle.stopping || record.secrets.None? {
        return Error(Declined(SessionTerminal));
      }
      var secrets := record.secrets.value;
      if q.requestId in secrets.keys {
        var stored := secrets.keys[q.requestId];
        if stored.fingerprint != q {
          return Error(Declined(RequestIdReuse));
        }
        if secrets.currentKey != q.requestId {
          return Error(Declined(RequestSuperseded));
        }
        return Done(stored.response);
      }
      if record.lifecycle.pendingActivation.Some? {
        return Error(Declined(ActivationInFlight));
      }
      var keys := BlankKeys(secrets.keys);
      if secrets.currentKey != "" {
        record := record.(lifecycle := record.lifecycle.(pendingActivation := Some(q.requestId)));
      }
      keys := keys[q.requestId := StoredKey(q, q, a)];
      secrets := secrets.(keys := keys, currentKey := q.requestId);
      record := record.(secrets := Some(secrets));
      reply := Save(id, record, save, a);
    }

    method CompleteKeyActivation(id: string, requestId: string, save: SaveResult) returns (reply: Reply<()>)
      modifies this
      ensures Served(old(files), files, id, r => CompleteActivation(r, requestId), save, reply)
    {
      var loaded := Load(id);
      if loaded.None? {
        return Error(NotLoadable);
      }
      var record := loaded.value;
      if !OpaqueId(requestId) {
        return Error(Declined(Invalid));
      }
      if record.lifecycle.state != Active || record.lifecycle.stopping || record.secrets.None? {
        return Error(Declined(SessionTerminal));
      }
      if record.lifecycle.pendingActivation.None? {
        return Done(());
      }
      if record.lifecycle.pendingActivation.value != requestId || record.secrets.value.currentKey != requestId {
        return Error(Declined(Invalid));
      }
      record := record.(lifecycle := record.lifecycle.(pendingActivation := None));
      reply := Save(id, record, save, ());
    }

    /** The identities of the pending events, gathered into the cursor that judges the next event. */
    method PendingIds(pending: seq<Event>) returns (ids: set<string>)
      ensures ids == set i | 0 <= i < |pending| :: pending[i].id
    {
      ids := {};
      for i := 0 to |pending|
        invariant ids == set k | 0 <= k < i :: pending[k].id
      {
        ids := ids + {pending[i].id};
      }
    }

    method Advance(id: string, event: Event, save: SaveResult) returns (reply: Reply<()>)
      modifies this
      ensures Served(old(files), files, id, r => LiveOps.Advance(r, event), save, reply)
    {
      var loaded := Load(id);
      if loaded.None? {
        return Error(NotLoadable);
      }
      var record := loaded.value;
      var l := record.lifecycle;
      if l.state != Active || (l.stopping && event.state == Active) {
        return Error(Declined(SessionTerminal));
      }
      if l.stopping && (event.closeReason.None? || event.closeReason != l.pendingReason) {
        return Error(Declined(Invalid));
      }
      if event.id != EventId(record.runner, event.seqNo) || MeterDisagrees(record.meter, event) {
        return Error(Declined(Invalid));
      }
      var seen := PendingIds(record.outbox.pending);
      var cursor := new EventCursor(
        Cursor(record.outbox.lastSequence, record.outbox.usageTotal, record.outbox.lastSequence > 0, seen));
      var accepted := cursor.AcceptEvent(event);
      if !accepted {
        return Error(Declined(Invalid));
      }
      record := record.(outbox := record.outbox.(
        lastSequence := cursor.sequence, usageTotal := cursor.usageTotal, lastEventAt := Some(event.at),
        pending := record.outbox.pending + [event]));
      if event.state != Active {
        record := record.(lifecycle := Lifecycle(event.state, false, None, None, event.closeReason, None));
      }
      reply := Save(id, record, save, ());
    }

    /** The exactly-once cursor: a segment counts when its identity was not seen before. */
    method MeterSegments(start: Meter, segments: seq<Segment>) returns (metered: Option<Meter>, changed: bool)
      ensures metered == MeterAll(start, segments)
      ensures metered.Some? ==> (changed <==> metered.value != start)
    {
      var meter := start;
      var seen := set i | 0 <= i < |start.segments| :: start.segments[i];
      changed := false;
      for k := 0 to |segments|
        invariant MeterAll(start, segments[..k]) == Some(meter)
        invariant forall uri :: uri in seen <==> uri in meter.segments
        invariant |meter.segments| >= |start.segments|
        invariant changed <==> |meter.segments| > |start.segments|
        invariant !changed ==> meter == start
      {
        var segment := segments[k];
        assert segments[..k + 1][..k] == segments[..k];
        if segment.uri == "" || segment.micros == 0 {
          MeterFailurePropagates(start, segments, k + 1);
          return None, changed;
        }
        if segment.uri !in seen {
          if meter.micros + segment.micros > MAX_U64 {
            MeterFailurePropagates(start, segments, k + 1);
            return None, changed;
          }
          meter := Meter(meter.micros + segment.micros, meter.segments + [segment.uri]);
          seen := seen + {segment.uri};
          changed := true;
        }
      }
      assert segments[..|segments|] == segments;
      metered := Some(meter);
    }

    method RecordFinalizedSegments(id: string, segments: seq<Segment>, now: int, save: SaveResult)
      returns (reply: Reply<bool>)
      modifies this
      ensures Served(old(files), files, id, r => RecordSegments(r, segments, now), save, reply)
    {
      var loaded := Load(id);
      if loaded.None? {
        return Error(NotLoadable);
      }
      var record := loaded.value;
      if now == 0 {
        return Error(Declined(Invalid));
      }
      if record.lifecycle.state != Active || record.lifecycle.stopping {
        return Error(Declined(SessionTerminal));
      }
      if record.outbox.lastSequence == 0 {
        return Error(Declined(Invalid));
      }
      var metered, changed := MeterSegments(record.meter, segments);
      if metered.None? {
        return Error(Declined(Invalid));
      }
      if !changed {
        return Done(false);
      }
      var health := record.health;
      if health.firstSegmentAt.None? {
        health := health.(firstSegmentAt := Some(now));
      }
      health := health.(lastSegmentAt := Some(now));
      if health.output != Producing {
        health := health.(output := Producing, outputSince := now);
      }
      health := health.(windowAt := None, failures := 0);
      record := record.(meter := metered.value, health := health);
      var total := record.meter.micros / MICROS_PER_SECOND;
      var emitted := total > record.outbox.usageTotal;
      if emitted {
        var event := NextEvent(record, UsageTick, now, Some(total));
        if !ValidEvent(event) {
          return Error(Declined(Invalid));
        }
        record := record.(outbox := record.outbox.(
          lastSequence := event.seqNo, usageTotal := total, lastEventAt := Some(now),
          pending := record.outbox.pending + [event]));
      }
      reply := Save(id, record, save, emitted);
    }

    method Heartbeat(id: string, now: int, interval: int, save: SaveResult) returns (reply: Reply<bool>)
      modifies this
      ensures Served(old(files), files, id, r => RecordHeartbeat(r, now, interval), save, reply)
    {
      var loaded := Load(id);
      if loaded.None? {
        return Error(NotLoadable);
      }
      var record := loaded.value;
      if now == 0 || interval <= 0 {
        return Error(Declined(Invalid));
      }
      if record.lifecycle.state != Active || record.lifecycle.stopping {
        return Error(Declined(SessionTerminal));
      }
      if record.outbox.lastSequence == 0 {
        return Error(Declined(Invalid));
      }
      if record.outbox.lastEventAt.Some? && now < record.outbox.lastEventAt.value + interval {
        return Done(false);
      }
      var event := NextEvent(record, LiveContract.Heartbeat, now, Some(record.outbox.usageTotal));
      if !ValidEvent(event) {
        return Error(Declined(Invalid));
      }
      record := record.(outbox := record.outbox.(
        lastSequence := event.seqNo, lastEventAt := Some(now), pending := record.outbox.pending + [event]));
      reply := Save(id, record, save, true);
    }

    method LadderRestarted(id: string, code: LadderCode, now: int, window: int, save: SaveResult)
      returns (reply: Reply<nat>)
      modifies this
      ensures Served(old(files), files, id, r => RecordRestart(r, code, now, window), save, reply)
    {
      var loaded := Load(id);
      if loaded.None? {
        return Error(NotLoadable);
      }
      var record := loaded.value;
      if !ValidLadderCode(code) || now == 0 || window <= 0 {
        return Error(Declined(Invalid));
      }
      if record.lifecycle.state != Active || record.lifecycle.stopping {
        return Error(Declined(SessionTerminal));
      }
      var health := record.health;
      if health.windowAt.None? || now - health.windowAt.value > window {
        health := health.(windowAt := Some(now), failures := 0);
      }
      if health.failures == MAX_U32 {
        return Error(Declined(Invalid));
      }
      health := health.(failures := health.failures + 1, lastCode := Some(code));
      var event := NextEvent(record, LadderRestart, now, None);
      if !ValidEvent(event) {
        return Error(Declined(Invalid));
      }
      record := record.(health := health, outbox := record.outbox.(
        lastSequence := event.seqNo, lastEventAt := Some(now), pending := record.outbox.pending + [event]));
      reply := Save(id, record, save, health.failures);
    }

    method IngestPresence(id: string, online: bool, now: int, save: SaveResult) returns (reply: Reply<()>)
      modifies this
      ensures Served(old(files), files, id, r => RecordPresence(r, online, now), save, reply)
    {
      var loaded := Load(id);
      if loaded.None? {
        return Error(NotLoadable);
      }
      var record := loaded.value;
      if now == 0 {
        return Error(Declined(Invalid));
      }
      if record.lifecycle.state != Active || record.lifecycle.stopping {
        return Error(Declined(SessionTerminal));
      }
      var health, changed := record.health, false;
      if online && health.ingestOnlineAt.None? {
        health, changed := health.(ingestOnlineAt := Some(now), output := Waiting, outputSince := now), true;
      } else if !online && health.ingestOnlineAt.Some? {
        health := health.(ingestOnlineAt := None, output := Waiting, outputSince := now);
        health, changed := health.(windowAt := None, failures := 0), true;
      }
      if !changed {
        return Done(());
      }
      reply := Save(id, record.(health := health), save, ());
    }

    method EvaluateOutputHealth(id: string, now: int, stallAfter: int, failAfter: int, save: SaveResult)
      returns (reply: Reply<Verdict>)
      modifies this
      ensures Served(old(files), files, id, r => EvaluateHealth(r, now, stallAfter, failAfter), save, reply)
    {
      var loaded := Load(id);
      if loaded.None? {
        return Error(NotLoadable);
      }
      var record := loaded.value;
      if now == 0 || stallAfter <= 0 || failAfter <= stallAfter {
        return Error(Declined(Invalid));
      }
      if record.lifecycle.state != Active || record.lifecycle.stopping {
        return Error(Declined(SessionTerminal));
      }
      if record.health.ingestOnlineAt.None? {
        return Done(Healthy);
      }
      var since := record.health.ingestOnlineAt.value;
      if record.health.lastSegmentAt.Some? && record.health.lastSegmentAt.value > since {
        since := record.health.lastSegmentAt.value;
      }
      var elapsed := now - since;
      if elapsed >= failAfter {
        return Done(OutputLost);
      }
      if elapsed < stallAfter || record.health.output == Stalled {
        return Done(Healthy);
      }
      var event := NextEvent(record, OutputStalled, now, None);
      if !ValidEvent(event) {
        return Error(Declined(Invalid));
      }
      record := record.(health := record.health.(output := Stalled, outputSince := now), outbox := record.outbox.(
        lastSequence := event.seqNo, lastEventAt := Some(now), pending := record.outbox.pending + [event]));
      reply := Save(id, record, save, NewlyStalled);
    }

    method BeginTermination(id: string, reason: CloseReason, target: LiveState, save: SaveResult)
      returns (reply: Reply<bool>)
      modifies this
      ensures Served(old(files), files, id, r => BeginTerminal(r, reason, target), save, reply)
    {
      var loaded := Load(id);
      if loaded.None? {
        return Error(NotLoadable);
      }
      var record := loaded.value;
      if !ValidCloseReason(reason) || target == Active {
        return Error(Declined(Invalid));
      }
      if record.lifecycle.state != Active || record.lifecycle.stopping {
        return Done(false);
      }
      record := record.(lifecycle := record.lifecycle.(
        stopping := true, pendingReason := Some(reason), pendingState := Some(target), pendingActivation := None));
      reply := Save(id, record, save, true);
    }

    method AcknowledgeEvent(id: string, eventId: string, save: SaveResult) returns (reply: Reply<()>)
      modifies this
      ensures Served(old(files), files, id, r => Acknowledge(r, eventId), save, reply)
    {
      var loaded := Load(id);
      if loaded.None? {
        return Error(NotLoadable);
      }
      var record := loaded.value;
      if !HeadIs(record.outbox, eventId) {
        return Error(Declined(Invalid));
      }
      record := record.(outbox := record.outbox.(pending := record.outbox.pending[1..], delivery := None));
      reply := Save(id, record, save, ());
    }

    /** The delivery boundary is durable before the callback is sent; `jitter` is the event's digest modulo 501. */
    method ReserveCallbackAttempt(
      id: string, eventId: string, now: int, initial: CallbackRetry.Duration, maximum: CallbackRetry.Duration,
      jitter: nat, save: SaveResult)
      returns (reply: Reply<()>)
      requires jitter <= 500
      modifies this
      ensures Served(old(files), files, id, r => Reserve(r, eventId, now, initial as int, maximum as int, jitter),
              save, reply)
    {
      var loaded := Load(id);
      if loaded.None? {
        return Error(NotLoadable);
      }
      var record := loaded.value;
      if eventId == "" || now == 0 || initial <= 0 || maximum < initial || !HeadIs(record.outbox, eventId) {
        return Error(Declined(Invalid));
      }
      var attempts := 1;
      if record.outbox.delivery.Some? {
        var previous := record.outbox.delivery.value;
        if previous.eventId != eventId || previous.attempts == MAX_U32 {
          return Error(Declined(Invalid));
        }
        if now < previous.nextAt {
          return Error(Declined(NotDue));
        }
        attempts := previous.attempts + 1;
      }
      var delay := CallbackRetry.RetryDelay(attempts, initial, maximum, jitter);
      var attempt := Attempt(eventId, attempts, now, now + delay as int, 0, "");
      record := record.(outbox := record.outbox.(delivery := Some(attempt)));
      reply := Save(id, record, save, ());
    }

    method RecordCallbackRetryFailure(id: string, eventId: string, status: nat, code: string, save: SaveResult)
      returns (reply: Reply<()>)
      modifies this
      ensures Served(old(files), files, id, r => RecordRetryFailure(r, eventId, status, code), save, reply)
    {
      var loaded := Load(id);
      if loaded.None? {
        return Error(NotLoadable);
      }
      var record := loaded.value;
      if !ValidFailure(status, code, true) || !CursorIs(record.outbox, eventId) || !HeadIs(record.outbox, eventId) {
        return Error(Declined(Invalid));
      }
      var attempt := record.outbox.delivery.value.(status := status, code := code);
      record := record.(outbox := record.outbox.(delivery := Some(attempt)));
      reply := Save(id, record, save, ());
    }

    method ParkCallbackRejection(id: string, eventId: string, status: nat, code: string, now: int, save: SaveResult)
      returns (reply: Reply<()>)
      modifies this
      ensures Served(old(files), files, id, r => Park(r, eventId, status, code, now), save, reply)
    {
      var loaded := Load(id);
      if loaded.None? {
        return Error(NotLoadable);
      }
      var record := loaded.value;
      if now == 0 || !ValidFailure(status, code, false) {
        return Error(Declined(Invalid));
      }
      if !HeadIs(record.outbox, eventId) || !CursorIs(record.outbox, eventId) {
        return Error(Declined(Invalid));
      }
      var o := record.outbox;
      var letter := DeadLetter(o.pending[0], o.delivery.value.attempts, status, code, now);
      o := o.(pending := o.pending[1..], delivery := None);
      if o.rejected == MAX_U64 {
        return Error(Declined(Invalid));
      }
      o := o.(rejected := o.rejected + 1, letters := o.letters + [letter]);
      if |o.letters| > MAX_DEAD_LETTERS {
        o := o.(letters := o.letters[|o.letters| - MAX_DEAD_LETTERS..]);
      }
      record := record.(outbox := o);
      reply := Save(id, record, save, ());
    }

    method ClearTerminalSecrets(id: string, save: SaveResult) returns (reply: Reply<()>)
      modifies this
      ensures Served(old(files), files, id, ClearSecrets, save, reply)
    {
      var loaded := Load(id);
      if loaded.None? {
        return Error(NotLoadable);
      }
      var record := loaded.value;
      if record.lifecycle.state == Active || |record.outbox.pending| != 0 {
        return Error(Declined(Invalid));
      }
      record := record.(secrets := None);
      reply := Save(id, record, save, ());
    }
  }

  lemma {:induction false} MeterFailurePropagates(m: Meter, segments: seq<Segment>, k: nat)
    requires k <= |segments| && MeterAll(m, segments[..k]).None?
    ensures MeterAll(m, segments).None?
    decreases |segments| - k
  {
    if k == |segments| {
      assert segments[..k] == segments;
    } else {
      assert segments[..k + 1][..k] == segments[..k];
      MeterFailurePropagates(m, segments, k + 1);
    }
  }
}
