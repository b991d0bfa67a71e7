/** What each operation of the live session store does to one record, as a function of the record it
    loads (live-runner/store.go, and the terminal event of live-runner/recovery.go). */
module LiveOps {
  import opened Text
  import opened LiveContract
  import opened LiveRecord
  import CallbackRetry

  datatype Refusal =
    | SessionTerminal | SessionIdReuse | RequestIdReuse | RequestSuperseded | ActivationInFlight | NotDue | Invalid

  /** An operation either replaces the stored record, succeeds without saving, or refuses. */
  datatype Outcome<+T> = Saved(record: Record, value: T) | Kept(value: T) | Refused(why: Refusal)

  predicate Open(r: Record) { r.lifecycle.state == Active && !r.lifecycle.stopping }

  // ----- creation and stream keys -----

  function FreshRecord(q: CreateRequest, a: CreateResponse, now: int): Record
  {
    Record(q.sessionId, a.runnerSessionId, q, a.publicUrls, a.grant,
           Lifecycle(Active, false, None, None, None, None),
           Health(None, None, None, Waiting, now, None, None, 0),
           Meter(0, []),
           Outbox(0, 0, None, [], None, [], 0),
           Some(Secrets(q, a, "", map[])))
  }

  /** CreateOrReplay on a session that exists already. */
  function Replay(r: Record, q: CreateRequest): Outcome<()>
  {
    if r.fingerprint != q then Refused(SessionIdReuse)
    else if !Open(r) || r.secrets.None? then Refused(SessionTerminal)
    else Kept(())
  }

  function Superseded(k: StoredKey): StoredKey { k.(response := k.response.(streamKey := "")) }

  function SupersedeAll(keys: map<string, StoredKey>): map<string, StoredKey>
  {
    map id | id in keys :: Superseded(keys[id])
  }

  function IssueKey(r: Record, q: KeyRequest, a: KeyResponse): Outcome<KeyResponse>
  {
    if !ValidKeyRequest(q) || !ValidKeyResponse(q, a) then Refused(Invalid)
    else if !Open(r) || r.secrets.None? then Refused(SessionTerminal)
    else
      var s := r.secrets.value;
      if q.requestId in s.keys then
        if s.keys[q.requestId].fingerprint != q then Refused(RequestIdReuse)
        else if s.currentKey != q.requestId then Refused(RequestSuperseded)
        else Kept(s.keys[q.requestId].response)
      else if r.lifecycle.pendingActivation.Some? then Refused(ActivationInFlight)
      else
        var keys := SupersedeAll(s.keys)[q.requestId := StoredKey(q, q, a)];
        var activation := if s.currentKey != "" then Some(q.requestId) else None;
        Saved(r.(lifecycle := r.lifecycle.(pendingActivation := activation),
                 secrets := Some(s.(keys := keys, currentKey := q.requestId))), a)
  }

  function CompleteActivation(r: Record, requestId: string): Outcome<()>
  {
    if !OpaqueId(requestId) then Refused(Invalid)
    else if !Open(r) || r.secrets.None? then Refused(SessionTerminal)
    else if r.lifecycle.pendingActivation.None? then Kept(())
    else if r.lifecycle.pendingActivation.value != requestId || r.secrets.value.currentKey != requestId
    then Refused(Invalid)
    else Saved(r.(lifecycle := r.lifecycle.(pendingActivation := None)), ())
  }

  // ----- the event outbox -----

  /** The sequence number after `last`, in unsigned 64-bit arithmetic. */
  function NextSequence(last: nat): nat { (last + 1) % (MAX_U64 + 1) }

  function NextEvent(r: Record, kind: EventKind, at: int, usage: Option<nat>): Event
  {
    var n := NextSequence(r.outbox.lastSequence);
    Event(EventId(r.runner, n), n, kind, at, Active, usage, None)
  }

  function Enqueue(o: Outbox, e: Event): Outbox
  {
    o.(lastSequence := e.seqNo,
       usageTotal := if e.usage.Some? then e.usage.value else o.usageTotal,
       lastEventAt := Some(e.at),
       pending := o.pending + [e])
  }

  /** The event a session emits when its runtime starts (EnsureSession). */
  function StartedEvent(r: Record, now: int): Event
  {
    Event(EventId(r.runner, 1), 1, Started, now, Active, None, None)
  }

  /** The one event that ends a stopping session (FinalizeLiveTerminationV1). */
  function TerminalEvent(r: Record, now: int): Event
  {
    var n := NextSequence(r.outbox.lastSequence);
    var state := if r.lifecycle.pendingState.Some? then r.lifecycle.pendingState.value else Ended;
    Event(EventId(r.runner, n), n, if state == Failed then SessionFailed else SessionEnded, now, state,
          Some(r.outbox.usageTotal), r.lifecycle.pendingReason)
  }

  function RecordCursor(o: Outbox): Cursor
  {
    Cursor(o.lastSequence, o.usageTotal, o.lastSequence > 0, set i | 0 <= i < |o.pending| :: o.pending[i].id)
  }

  predicate MeterDisagrees(m: Meter, e: Event)
  {
    (m.micros > 0 || m.segments != []) && e.usage.Some? && e.usage.value != m.micros / MICROS_PER_SECOND
  }

  function Advance(r: Record, e: Event): Outcome<()>
  {
    var l := r.lifecycle;
    if l.state != Active || (l.stopping && e.state == Active) then Refused(SessionTerminal)
    else if l.stopping && (e.closeReason.None? || e.closeReason != l.pendingReason) then Refused(Invalid)
    else if e.id != EventId(r.runner, e.seqNo) || MeterDisagrees(r.meter, e) then Refused(Invalid)
    else if !Acceptable(RecordCursor(r.outbox), e) then Refused(Invalid)
    else
      var lifecycle := if e.state == Active then l else Lifecycle(e.state, false, None, None, e.closeReason, None);
      Saved(r.(outbox := Enqueue(r.outbox, e), lifecycle := lifecycle), ())
  }

  // ----- metering -----

  /** A complete media segment of the metering rendition; its URI is its identity. */
  datatype Segment = Segment(uri: string, micros: nat)

  function MeterOne(m: Meter, s: Segment): Option<Meter>
  {
    if s.uri == "" || s.micros == 0 then None
    else if s.uri in m.segments then Some(m)
    else if m.micros + s.micros > MAX_U64 then None
    else Some(Meter(m.micros + s.micros, m.segments + [s.uri]))
  }

  /** The cursor after a whole playlist; None when one segment is invalid or the timeline overflows. */
  function MeterAll(m: Meter, segments: seq<Segment>): Option<Meter>
  {
    if segments == [] then Some(m)
    else
      var front := MeterAll(m, segments[..|segments| - 1]);
      if front.None? then None else MeterOne(front.value, segments[|segments| - 1])
  }

  function Produced(h: Health, now: int): Health
  {
    Health(h.ingestOnlineAt,
           if h.firstSegmentAt.None? then Some(now) else h.firstSegmentAt,
           Some(now),
           Producing,
           if h.output == Producing then h.outputSince else now,
           h.lastCode, None, 0)
  }

  function RecordSegments(r: Record, segments: seq<Segment>, now: int): Outcome<bool>
  {
    if now == 0 then Refused(Invalid)
    else if !Open(r) then Refused(SessionTerminal)
    else if r.outbox.lastSequence == 0 then Refused(Invalid)
    else
      var metered := MeterAll(r.meter, segments);
      if metered.None? then Refused(Invalid)
      else if metered.value == r.meter then Kept(false)
      else
        var r1 := r.(meter := metered.value, health := Produced(r.health, now));
        var total := metered.value.micros / MICROS_PER_SECOND;
        if total <= r.outbox.usageTotal then Saved(r1, false)
        else
          var e := NextEvent(r, UsageTick, now, Some(total));
          if ValidEvent(e) then Saved(r1.(outbox := Enqueue(r.outbox, e)), true) else Refused(Invalid)
  }

  // ----- liveness and output health -----

  function RecordHeartbeat(r: Record, now: int, interval: int): Outcome<bool>
  {
    if now == 0 || interval <= 0 then Refused(Invalid)
    else if !Open(r) then Refused(SessionTerminal)
    else if r.outbox.lastSequence == 0 then Refused(Invalid)
    else if r.outbox.lastEventAt.Some? && now < r.outbox.lastEventAt.value + interval then Kept(false)
    else
      var e := NextEvent(r, Heartbeat, now, Some(r.outbox.usageTotal));
      if ValidEvent(e) then Saved(r.(outbox := Enqueue(r.outbox, e)), true) else Refused(Invalid)
  }

  function RecordPresence(r: Record, online: bool, now: int): Outcome<()>
  {
    if now == 0 then Refused(Invalid)
    else if !Open(r) then Refused(SessionTerminal)
    else
      var h := r.health;
      if online && h.ingestOnlineAt.None? then
        Saved(r.(health := h.(ingestOnlineAt := Some(now), output := Waiting, outputSince := now)), ())
      else if !online && h.ingestOnlineAt.Some? then
        Saved(r.(health := h.(ingestOnlineAt := None, output := Waiting, outputSince := now,
                              windowAt := None, failures := 0)), ())
      else Kept(())
  }

  function RecordRestart(r: Record, code: LadderCode, now: int, window: int): Outcome<nat>
  {
    if !ValidLadderCode(code) || now == 0 || window <= 0 then Refused(Invalid)
    else if !Open(r) then Refused(SessionTerminal)
    else
      var h := r.health;
      var expired := h.windowAt.None? || now - h.windowAt.value > window;
      var failures := if expired then 0 else h.failures;
      if failures == MAX_U32 then Refused(Invalid)
      else
        var h1 := h.(windowAt := if expired then Some(now) else h.windowAt, failures := failures + 1,
                     lastCode := Some(code));
        var e := NextEvent(r, LadderRestart, now, None);
        if ValidEvent(e) then Saved(r.(health := h1, outbox := Enqueue(r.outbox, e)), failures + 1)
        else Refused(Invalid)
  }

  function MarkStalled(r: Record, now: int): Outcome<()>
  {
    var e := NextEvent(r, OutputStalled, now, None);
    if ValidEvent(e) then
      Saved(r.(health := r.health.(output := Stalled, outputSince := now), outbox := Enqueue(r.outbox, e)), ())
    else Refused(Invalid)
  }

  function RecordStalled(r: Record, now: int): Outcome<()>
  {
    if now == 0 then Refused(Invalid)
    else if !Open(r) then Refused(SessionTerminal)
    else if r.health.output == Stalled then Kept(())
    else MarkStalled(r, now)
  }

  datatype Verdict = Healthy | NewlyStalled | OutputLost

  function EvaluateHealth(r: Record, now: int, stallAfter: int, failAfter: int): Outcome<Verdict>
  {
    if now == 0 || stallAfter <= 0 || failAfter <= stallAfter then Refused(Invalid)
    else if !Open(r) then Refused(SessionTerminal)
    else if r.health.ingestOnlineAt.None? then Kept(Healthy)
    else
      var online := r.health.ingestOnlineAt.value;
      var since := if r.health.lastSegmentAt.Some? && r.health.lastSegmentAt.value > online
                   then r.health.lastSegmentAt.value else online;
      if now - since >= failAfter then Kept(OutputLost)
      else if now - since < stallAfter || r.health.output == Stalled then Kept(Healthy)
      else match MarkStalled(r, now)
           case Saved(r', _) => Saved(r', NewlyStalled)
           case Kept(_) => Kept(Healthy)
           case Refused(why) => Refused(why)
  }

  // ----- termination -----

  /** beginTerminalV1: the first caller leaves its reason and target state; later callers find them. */
  function BeginTerminal(r: Record, reason: CloseReason, target: LiveState): Outcome<bool>
  {
    if !ValidCloseReason(reason) || target == Active then Refused(Invalid)
    else if !Open(r) then Kept(false)
    else
      var stopping := Lifecycle(Active, true, Some(reason), Some(target), r.lifecycle.closeReason, None);
      Saved(r.(lifecycle := stopping), true)
  }

  // ----- callback delivery -----

  predicate HeadIs(o: Outbox, eventId: string) { |o.pending| > 0 && o.pending[0].id == eventId }

  predicate CursorIs(o: Outbox, eventId: string) { o.delivery.Some? && o.delivery.value.eventId == eventId }

  function Acknowledge(r: Record, eventId: string): Outcome<()>
  {
    if !HeadIs(r.outbox, eventId) then Refused(Invalid)
    else Saved(r.(outbox := r.outbox.(pending := r.outbox.pending[1..], delivery := None)), ())
  }

  function Reserve(r: Record, eventId: string, now: int, initial: int, maximum: int, jitter: nat): Outcome<()>
  {
    if eventId == "" || now == 0 || initial <= 0 || maximum < initial then Refused(Invalid)
    else if !HeadIs(r.outbox, eventId) then Refused(Invalid)
    else
      var d := r.outbox.delivery;
      if d.Some? && (d.value.eventId != eventId || d.value.attempts == MAX_U32) then Refused(Invalid)
      else if d.Some? && now < d.value.nextAt then Refused(NotDue)
      else
        var attempts := if d.Some? then d.value.attempts + 1 else 1;
        var delay := CallbackRetry.Jittered(CallbackRetry.Base(attempts, initial, maximum), 750 + jitter, maximum);
        Saved(r.(outbox := r.outbox.(delivery := Some(Attempt(eventId, attempts, now, now + delay, 0, "")))), ())
  }

  function RecordRetryFailure(r: Record, eventId: string, status: nat, code: string): Outcome<()>
  {
    if !ValidFailure(status, code, true) then Refused(Invalid)
    else if !CursorIs(r.outbox, eventId) || !HeadIs(r.outbox, eventId) then Refused(Invalid)
    else
      var d := r.outbox.delivery.value;
      Saved(r.(outbox := r.outbox.(delivery := Some(d.(status := status, code := code)))), ())
  }

  function LastOf<T>(s: seq<T>, n: nat): seq<T> { if |s| > n then s[|s| - n..] else s }

  /** Moves a permanently rejected head into the bounded dead-letter audit. */
  function Park(r: Record, eventId: string, status: nat, code: string, now: int): Outcome<()>
  {
    var o := r.outbox;
    if now == 0 || !ValidFailure(status, code, false) then Refused(Invalid)
    else if !HeadIs(o, eventId) || !CursorIs(o, eventId) then Refused(Invalid)
    else if o.rejected == MAX_U64 then Refused(Invalid)
    else
      var letter := DeadLetter(o.pending[0], o.delivery.value.attempts, status, code, now);
      Saved(r.(outbox := o.(pending := o.pending[1..], delivery := None, rejected := o.rejected + 1,
                            letters := LastOf(o.letters + [letter], MAX_DEAD_LETTERS))), ())
  }

  function ClearSecrets(r: Record): Outcome<()>
  {
    if r.lifecycle.state == Active || r.outbox.pending != [] then Refused(Invalid)
    else Saved(r.(secrets := None), ())
  }
}
