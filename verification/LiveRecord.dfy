/** The durable record of one live session, and the two validators a stored record must pass to be
    loaded again (live-runner/store.go). */
module LiveRecord {
  import opened Text
  import opened LiveContract

  // ----- create and stream-key exchanges; a hash of a request is modelled as the request itself -----

  datatype CreateRequest = CreateRequest(
    sessionId: string, workId: string, publisherMode: string, callbackUrl: string, callbackToken: string)

  predicate ValidCreateRequest(q: CreateRequest)
  {
    OpaqueId(q.sessionId) && OpaqueId(q.workId) && q.callbackToken != ""
  }

  datatype Grant = Grant(id: string, secret: string, expiresAt: int)

  datatype CreateResponse = CreateResponse(runnerSessionId: string, publicUrls: string, grant: Grant)

  predicate ValidCreateResponse(a: CreateResponse)
  {
    OpaqueId(a.runnerSessionId) && OpaqueId(a.grant.id) && a.grant.secret != ""
  }

  datatype KeyRequest = KeyRequest(requestId: string, audience: string)

  predicate ValidKeyRequest(q: KeyRequest)
  {
    OpaqueId(q.requestId) && (q.audience == "gateway-relay" || q.audience == "direct-publisher")
  }

  datatype KeyResponse = KeyResponse(requestId: string, streamKey: string, expiresAt: int)

  predicate ValidKeyResponse(q: KeyRequest, a: KeyResponse)
  {
    a.requestId == q.requestId && !Blank(a.streamKey) && |a.streamKey| <= 512
  }

  datatype StoredKey = StoredKey(fingerprint: KeyRequest, request: KeyRequest, response: KeyResponse)

  /** The encrypted part of a record; `currentKey` is "" before the first issue. */
  datatype Secrets = Secrets(
    request: CreateRequest, response: CreateResponse, currentKey: string, keys: map<string, StoredKey>)

  // ----- the record, grouped by concern -----

  datatype Lifecycle = Lifecycle(
    state: LiveState, stopping: bool, pendingReason: Option<CloseReason>, pendingState: Option<LiveState>,
    closeReason: Option<CloseReason>, pendingActivation: Option<string>)

  datatype Health = Health(
    ingestOnlineAt: Option<int>, firstSegmentAt: Option<int>, lastSegmentAt: Option<int>,
    output: OutputState, outputSince: int, lastCode: Option<LadderCode>, windowAt: Option<int>, failures: nat)

  /** The exactly-once segment cursor: total microseconds, and segment identities in the order first seen. */
  datatype Meter = Meter(micros: nat, segments: seq<string>)

  /** A delivery attempt; status 0 stands for a transport failure or no answer yet. */
  datatype Attempt = Attempt(eventId: string, attempts: nat, lastAt: int, nextAt: int, status: nat, code: string)

  datatype DeadLetter = DeadLetter(event: Event, attempts: nat, status: nat, code: string, rejectedAt: int)

  datatype Outbox = Outbox(
    usageTotal: nat, lastSequence: nat, lastEventAt: Option<int>, pending: seq<Event>,
    delivery: Option<Attempt>, letters: seq<DeadLetter>, rejected: nat)

  datatype Record = Record(
    broker: string, runner: string, fingerprint: CreateRequest, publicUrls: string, grant: Grant,
    lifecycle: Lifecycle, health: Health, meter: Meter, outbox: Outbox, secrets: Option<Secrets>)

  const MAX_DEAD_LETTERS: nat := 32
  const MICROS_PER_SECOND: nat := 1_000_000
  const MAX_U32: nat := 0xFFFF_FFFF

  // ----- validateSessionRecordV1 -----

  predicate ValidErrorCode(code: string)
  {
    && 1 <= |code| <= 64
    && 'a' <= code[0] <= 'z'
    && forall i :: 0 <= i < |code| ==>
         'a' <= code[i] <= 'z' || IsDigit(code[i]) || code[i] == '_' || code[i] == '.' || code[i] == '-'
  }

  predicate ValidFailure(status: nat, code: string, allowTransport: bool)
  {
    if status == 0 then allowTransport && (code == "" || code == "transport_error")
    else 100 <= status <= 599 && ValidErrorCode(code)
  }

  predicate ValidLifecycle(l: Lifecycle)
  {
    && (l.state != Active) == l.closeReason.Some?
    && (l.closeReason.Some? ==> ValidCloseReason(l.closeReason.value))
    && l.stopping == l.pendingReason.Some?
    && l.stopping == l.pendingState.Some?
    && (l.pendingState.Some? ==> l.pendingState.value != Active)
    && (l.pendingReason.Some? ==> ValidCloseReason(l.pendingReason.value))
    && !(l.state != Active && l.stopping)
    && (l.pendingActivation.Some? ==> OpaqueId(l.pendingActivation.value) && l.state == Active && !l.stopping)
  }

  predicate ValidHealth(h: Health)
  {
    && (h.lastCode.Some? ==> ValidLadderCode(h.lastCode.value))
    && (h.failures > 0) == h.windowAt.Some?
    && h.failures <= MAX_U32
  }

  ghost predicate ValidMeter(m: Meter, usageTotal: nat)
  {
    && (m.micros > 0 || m.segments != [] ==> m.micros / MICROS_PER_SECOND == usageTotal)
    && (m.segments != [] ==> m.micros > 0)
    && Distinct(m.segments)
    && m.micros <= MAX_U64
  }

  ghost predicate Distinct<T>(s: seq<T>) { forall i, j :: 0 <= i < j < |s| ==> s[i] != s[j] }

  predicate ValidPending(runner: string, e: Event, lastSequence: nat)
  {
    ValidEvent(e) && e.id == EventId(runner, e.seqNo) && e.seqNo <= lastSequence
  }

  ghost predicate UsageNeverDecreases(events: seq<Event>)
  {
    forall i, j :: 0 <= i < j < |events| && events[i].usage.Some? && events[j].usage.Some? ==>
      events[i].usage.value <= events[j].usage.value
  }

  ghost predicate SequencesIncrease(events: seq<Event>)
  {
    forall i, j :: 0 <= i < j < |events| ==> events[i].seqNo < events[j].seqNo
  }

  predicate ValidDelivery(o: Outbox)
  {
    o.delivery.Some? ==>
      var a := o.delivery.value;
      && |o.pending| > 0 && o.pending[0].id == a.eventId
      && 0 < a.attempts <= MAX_U32
      && ValidFailure(a.status, a.code, true)
      && a.lastAt <= a.nextAt
  }

  predicate ValidLetter(runner: string, letter: DeadLetter, lastSequence: nat)
  {
    ValidPending(runner, letter.event, lastSequence) && letter.attempts > 0
    && ValidFailure(letter.status, letter.code, false)
  }

  predicate ValidLast(o: Outbox)
  {
    |o.pending| > 0 ==>
      var last := o.pending[|o.pending| - 1];
      last.seqNo == o.lastSequence && (last.usage.Some? ==> last.usage.value == o.usageTotal)
  }

  ghost predicate ValidOutbox(runner: string, o: Outbox)
  {
    && (forall i :: 0 <= i < |o.pending| ==> ValidPending(runner, o.pending[i], o.lastSequence))
    && SequencesIncrease(o.pending)
    && UsageNeverDecreases(o.pending)
    && ValidDelivery(o)
    && |o.letters| <= MAX_DEAD_LETTERS
    && |o.letters| <= o.rejected
    && (forall i :: 0 <= i < |o.letters| ==> ValidLetter(runner, o.letters[i], o.lastSequence))
    && (o.usageTotal > 0 ==> o.lastSequence > 0)
    && (o.lastEventAt.Some? ==> o.lastSequence > 0)
    && ValidLast(o)
    && o.lastSequence <= MAX_U64 && o.rejected <= MAX_U64
  }

  /** What validateSessionRecordV1 accepts. */
  ghost predicate ValidRecord(r: Record, id: string)
  {
    && r.broker == id
    && OpaqueId(r.runner)
    && OpaqueId(r.grant.id)
    && (r.lifecycle.state == Active ==> r.secrets.Some?)
    && ValidHealth(r.health)
    && ValidLifecycle(r.lifecycle)
    && ValidOutbox(r.runner, r.outbox)
    && ValidMeter(r.meter, r.outbox.usageTotal)
  }

  // ----- validateSessionSecretsV1 -----

  predicate ValidStoredKey(id: string, k: StoredKey, current: string)
  {
    && id == k.request.requestId
    && k.fingerprint == k.request
    && if id == current then ValidKeyResponse(k.request, k.response)
       else k.response.requestId == id && k.response.streamKey == ""
  }

  predicate ValidSecretsIdentity(r: Record, s: Secrets)
  {
    && ValidCreateRequest(s.request) && ValidCreateResponse(s.response)
    && s.request == r.fingerprint && s.request.sessionId == r.broker
    && s.response.runnerSessionId == r.runner && s.response.publicUrls == r.publicUrls && s.response.grant == r.grant
    && (s.currentKey != "" ==> s.currentKey in s.keys)
    && (r.lifecycle.pendingActivation.Some? ==> r.lifecycle.pendingActivation.value == s.currentKey)
  }

  /** What validateSessionSecretsV1 accepts. */
  ghost predicate ValidSecrets(r: Record, s: Secrets)
  {
    ValidSecretsIdentity(r, s) && forall id :: id in s.keys ==> ValidStoredKey(id, s.keys[id], s.currentKey)
  }

  /** A stored record can be loaded again: the loader runs both validators. */
  ghost predicate Loadable(r: Record, id: string)
  {
    ValidRecord(r, id) && (r.secrets.Some? ==> ValidSecrets(r, r.secrets.value))
  }

  // ----- the validators as the loader runs them -----

  /** The last usage total among events, if any carries one. */
  function LatestUsage(events: seq<Event>): Option<nat>
  {
    if events == [] then None
    else if events[|events| - 1].usage.Some? then events[|events| - 1].usage
    else LatestUsage(events[..|events| - 1])
  }

  lemma {:induction false} LatestUsageIsLargest(events: seq<Event>, k: nat)
    requires UsageNeverDecreases(events) && k < |events| && events[k].usage.Some?
    ensures LatestUsage(events).Some? && events[k].usage.value <= LatestUsage(events).value
  {
    if events[|events| - 1].usage.None? {
      LatestUsageIsLargest(events[..|events| - 1], k);
    }
  }

  lemma {:induction false} LatestUsageOccurs(events: seq<Event>) returns (k: nat)
    requires LatestUsage(events).Some?
    ensures k < |events| && events[k].usage == LatestUsage(events)
  {
    if events[|events| - 1].usage.Some? {
      k := |events| - 1;
    } else {
      k := LatestUsageOccurs(events[..|events| - 1]);
    }
  }

  predicate Follows(events: seq<Event>, e: Event)
  {
    && (events != [] ==> events[|events| - 1].seqNo < e.seqNo)
    && (e.usage.Some? && LatestUsage(events).Some? ==> LatestUsage(events).value <= e.usage.value)
  }

  /** Order of sequences and of usage is decided by the latest of each. */
  lemma OrderedOneMore(events: seq<Event>, e: Event)
    requires SequencesIncrease(events) && UsageNeverDecreases(events)
    ensures Follows(events, e) <==> SequencesIncrease(events + [e]) && UsageNeverDecreases(events + [e])
  {
    var all, n := events + [e], |events|;
    assert all[n] == e && forall i :: 0 <= i < n ==> all[i] == events[i];
    forall i | Follows(events, e) && 0 <= i < n && events[i].usage.Some? && e.usage.Some?
      ensures events[i].usage.value <= e.usage.value
    {
      LatestUsageIsLargest(events, i);
    }
    if UsageNeverDecreases(all) && e.usage.Some? && LatestUsage(events).Some? {
      var k := LatestUsageOccurs(events);
      assert all[k].usage.value <= all[n].usage.value;
    }
  }

  lemma OrderOfPrefix(events: seq<Event>, k: nat)
    requires k <= |events| && SequencesIncrease(events) && UsageNeverDecreases(events)
    ensures SequencesIncrease(events[..k]) && UsageNeverDecreases(events[..k])
  {
  }

  ghost predicate OrderedEvents(events: seq<Event>) { SequencesIncrease(events) && UsageNeverDecreases(events) }

  /** The two comparisons the loop makes with what it remembers of the events before. */
  lemma OrderDecided(events: seq<Event>, i: nat, previousSequence: nat, previousUsage: Option<nat>)
    requires i < |events| && OrderedEvents(events[..i]) && events[i].seqNo > 0
    requires previousSequence == (if i == 0 then 0 else events[i - 1].seqNo)
            && previousUsage == LatestUsage(events[..i])
    ensures var e := events[i];
            var late := e.seqNo <= previousSequence
                        || (e.usage.Some? && previousUsage.Some? && e.usage.value < previousUsage.value);
            && (late <==> !OrderedEvents(events[..i + 1])) && (late ==> !OrderedEvents(events))
    ensures LatestUsage(events[..i + 1]) == if events[i].usage.Some? then events[i].usage else previousUsage
  {
    assert events[..i + 1] == events[..i] + [events[i]] && events[..i + 1][..i] == events[..i];
    OrderedOneMore(events[..i], events[i]);
    if OrderedEvents(events) {
      OrderOfPrefix(events, i + 1);
    }
  }

  method ValidateOutboxEvents(runner: string, o: Outbox) returns (ok: bool)
    ensures ok == (
      && (forall i :: 0 <= i < |o.pending| ==> ValidPending(runner, o.pending[i], o.lastSequence))
      && SequencesIncrease(o.pending)
      && UsageNeverDecreases(o.pending))
  {
    var previousSequence, previousUsage := 0, None;
    for i := 0 to |o.pending|
      invariant forall k :: 0 <= k < i ==> ValidPending(runner, o.pending[k], o.lastSequence)
      invariant OrderedEvents(o.pending[..i])
      invariant previousSequence == if i == 0 then 0 else o.pending[i - 1].seqNo
      invariant previousUsage == LatestUsage(o.pending[..i])
    {
      var event := o.pending[i];
      if !ValidPending(runner, event, o.lastSequence) {
        return false;
      }
      OrderDecided(o.pending, i, previousSequence, previousUsage);
      if event.seqNo <= previousSequence {
        return false;
      }
      if event.usage.Some? && previousUsage.Some? && event.usage.value < previousUsage.value {
        return false;
      }
      previousSequence := event.seqNo;
      if event.usage.Some? {
        previousUsage := event.usage;
      }
    }
    assert o.pending[..|o.pending|] == o.pending;
    return true;
  }

  method ValidateDeadLetters(runner: string, o: Outbox) returns (ok: bool)
    ensures ok == (
      && |o.letters| <= MAX_DEAD_LETTERS && |o.letters| <= o.rejected
      && forall i :: 0 <= i < |o.letters| ==> ValidLetter(runner, o.letters[i], o.lastSequence))
  {
    if |o.letters| > MAX_DEAD_LETTERS || |o.letters| > o.rejected {
      return false;
    }
    for i := 0 to |o.letters|
      invariant forall k :: 0 <= k < i ==> ValidLetter(runner, o.letters[k], o.lastSequence)
    {
      if !ValidLetter(runner, o.letters[i], o.lastSequence) {
        return false;
      }
    }
    return true;
  }

  method ValidateSegmentCursor(m: Meter, usageTotal: nat) returns (ok: bool)
    ensures ok == ValidMeter(m, usageTotal)
  {
    var hasCursor := m.micros > 0 || |m.segments| > 0;
    if m.micros > MAX_U64 || (hasCursor && m.micros / MICROS_PER_SECOND != usageTotal)
        || (|m.segments| > 0 && m.micros == 0) {
      return false;
    }
    var seen := {};
    for i := 0 to |m.segments|
      invariant seen == set k | 0 <= k < i :: m.segments[k]
      invariant Distinct(m.segments[..i])
    {
      if m.segments[i] in seen {
        return false;
      }
      seen := seen + {m.segments[i]};
    }
    assert m.segments[..|m.segments|] == m.segments;
    return true;
  }

  /** The key issues are visited in map order, which Go leaves open. */
  method ValidateSessionSecrets(r: Record, s: Secrets) returns (ok: bool)
    ensures ok == ValidSecrets(r, s)
  {
    if !ValidSecretsIdentity(r, s) {
      return false;
    }
    var remaining := s.keys.Keys;
    while remaining != {}
      invariant remaining <= s.keys.Keys
      invariant forall id :: id in s.keys && id !in remaining ==> ValidStoredKey(id, s.keys[id], s.currentKey)
      decreases remaining
    {
      var id :| id in remaining;
      if !ValidStoredKey(id, s.keys[id], s.currentKey) {
        return false;
      }
      remaining := remaining - {id};
    }
    return true;
  }

  /** The loader's verdict on a decoded record (integrity and decryption are left out); an integer too wide
      for its field counts as undecodable. */
  method ValidateLoaded(r: Record, id: string) returns (ok: bool)
    ensures ok == Loadable(r, id)
  {
    if r.broker != id || !OpaqueId(r.runner) || (r.lifecycle.state == Active && r.secrets.None?) {
      return false;
    }
    if !ValidHealth(r.health) || !OpaqueId(r.grant.id) || !ValidLifecycle(r.lifecycle) {
      return false;
    }
    var o := r.outbox;
    if o.lastSequence > MAX_U64 || o.rejected > MAX_U64 {
      return false;
    }
    var events := ValidateOutboxEvents(r.runner, o);
    if !events || !ValidDelivery(o) {
      return false;
    }
    var letters := ValidateDeadLetters(r.runner, o);
    if !letters || (o.usageTotal > 0 && o.lastSequence == 0) {
      return false;
    }
    var segments := ValidateSegmentCursor(r.meter, o.usageTotal);
    if !segments || (o.lastEventAt.Some? && o.lastSequence == 0) || !ValidLast(o) {
      return false;
    }
    if r.secrets.None? {
      return true;
    }
    ok := ValidateSessionSecrets(r, r.secrets.value);
  }
}
