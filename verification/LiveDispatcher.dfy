/** Delivery of a session's outbox to the broker: one event at a time, while every other component keeps
    using the store between the dispatcher's own steps (live-runner/callback.go). */
module LiveDispatcher {
  import opened Text
  import opened LiveContract
  import opened LiveRecord
  import opened LiveOps
  import opened LiveInvariant
  import opened LiveRuns
  import opened LiveStore
  import opened Durable
  import CallbackRetry

  // ----- what the other components may do in between -----

  /** Steps that do not belong to the dispatcher: only the dispatcher settles events and erases credentials. */
  predicate Foreign(step: Step)
  {
    !(step.Ack? || step.Attempted? || step.RetryFailed? || step.Reject? || step.Erase?)
  }

  function OtherStep(r: Record, step: Step): Record
  {
    var finalizing := if step.FinalizeCommit? && r.lifecycle.stopping then {TerminalEvent(r, step.event.at)} else {};
    match Transform(INITIAL.(finalizing := finalizing), r, step)
    case Saved(r', _) => r'
    case _ => r
  }

  /** Others only append to the outbox; they leave the delivery cursor and the dead letters alone. */
  ghost predicate Grown(r: Record, r': Record)
  {
    && r.outbox.pending <= r'.outbox.pending
    && r'.outbox.delivery == r.outbox.delivery
    && r'.outbox.letters == r.outbox.letters && r'.outbox.rejected == r.outbox.rejected
    && r'.secrets.Some? == r.secrets.Some?
  }

  lemma OthersLeaveDelivery(s: Sys, r: Record, step: Step)
    requires Foreign(step) && Transform(s, r, step).Saved?
    ensures var r' := Transform(s, r, step).record;
            && r'.outbox.delivery == r.outbox.delivery
            && r'.outbox.letters == r.outbox.letters && r'.outbox.rejected == r.outbox.rejected
            && r'.secrets.Some? == r.secrets.Some?
  {
  }

  lemma OtherStepGrows(id: string, r: Record, step: Step)
    requires Inv(r, id) && Foreign(step)
    ensures Inv(OtherStep(r, step), id) && Grown(r, OtherStep(r, step))
  {
    var finalizing := if step.FinalizeCommit? && r.lifecycle.stopping then {TerminalEvent(r, step.event.at)} else {};
    var s := INITIAL.(finalizing := finalizing);
    if Transform(s, r, step).Saved? {
      var r' := Transform(s, r, step).record;
      assert Inv(r', id) by { TransformKeepsInv(id, s, r, step); }
      assert r.outbox.pending <= r'.outbox.pending by { TransformMovesOutbox(s, r, step); }
      OthersLeaveDelivery(s, r, step);
    }
  }

  method OthersRun(store: SessionStore, id: string, others: seq<Step>)
    requires id in store.files && Inv(store.files[id], id)
    requires forall i :: 0 <= i < |others| ==> Foreign(others[i])
    modifies store
    ensures id in store.files && store.files == old(store.files)[id := store.files[id]]
    ensures Inv(store.files[id], id) && Grown(old(store.files)[id], store.files[id])
  {
    for i := 0 to |others|
      invariant id in store.files && store.files == old(store.files)[id := store.files[id]]
      invariant Inv(store.files[id], id) && Grown(old(store.files)[id], store.files[id])
    {
      OtherStepGrows(id, store.files[id], others[i]);
      store.files := store.files[id := OtherStep(store.files[id], others[i])];
    }
  }

  // ----- classifying the broker's answer -----

  /** A broker answer: none at all, or a status with the two error strings of its body. */
  datatype Answer = Transport | Response(status: nat, error: string, code: string)

  predicate Retryable(status: nat) { status == 408 || status == 429 || 500 <= status <= 599 }

  predicate Success(status: nat) { 200 <= status < 300 }

  /** Broker error codes that are safe to keep; they must also match the error-code pattern. */
  predicate SafeBrokerCode(code: string)
  {
    && ValidErrorCode(code)
    && code in {"duplicate_event", "event_not_supported", "invalid_event", "sequence_conflict", "session_terminal"}
  }

  const AUTH_REJECTED := "callback_auth_rejected"
  const BROKER_TERMINAL := "broker_session_terminal"

  function SafeErrorCode(a: Answer): string
    requires a.Response?
  {
    if a.status == 401 || a.status == 403 then AUTH_REJECTED
    else if a.status == 404 || a.status == 410 then BROKER_TERMINAL
    else if SafeBrokerCode(a.error) then a.error
    else if SafeBrokerCode(a.code) then a.code
    else HttpCode(a.status)
  }

  function HttpCode(status: nat): string { "http_" + Decimal(status) }

  lemma HttpCodeIsValid(status: nat)
    requires status < 1000
    ensures ValidErrorCode(HttpCode(status))
  {
    var digits, code := Decimal(status), HttpCode(status);
    DecimalLength(status, 3);
    forall i | 5 <= i < |code| ensures IsDigit(code[i]) {
      assert code[i] == digits[i - 5];
    }
  }

  lemma FixedCodesAreValid()
    ensures ValidErrorCode(AUTH_REJECTED) && ValidErrorCode(BROKER_TERMINAL)
  {
  }

  lemma SafeErrorCodeIsValid(a: Answer)
    requires a.Response? && a.status < 1000
    ensures ValidErrorCode(SafeErrorCode(a))
  {
    FixedCodesAreValid();
    HttpCodeIsValid(a.status);
  }

  // ----- delivery -----

  datatype Delivery =
    | Idle
    | Delivered(event: Event)
    | Retried(event: Event)
    | Parked(event: Event)
    | Broken

  datatype Policy = Policy(initial: CallbackRetry.Duration, maximum: CallbackRetry.Duration, jitter: nat)

  predicate ValidPolicy(p: Policy) { 0 < p.initial <= p.maximum && p.jitter <= 500 }

  /** Everything outside the dispatcher that one delivery meets. */
  datatype Surroundings = Surroundings(
    now: int, beforeReserve: seq<Step>, beforeCommit: seq<Step>, answer: Answer,
    reserved: SaveResult, committed: SaveResult)

  ghost predicate ValidSurroundings(w: Surroundings)
  {
    && w.now != 0
    && (w.answer.Response? ==> w.answer.status < 1000)
    && (forall i :: 0 <= i < |w.beforeReserve| ==> Foreign(w.beforeReserve[i]))
    && (forall i :: 0 <= i < |w.beforeCommit| ==> Foreign(w.beforeCommit[i]))
  }

  /** The store refuses to record an answer exactly when its status is no HTTP status it knows. */
  predicate Recordable(a: Answer) { a.Transport? || 100 <= a.status <= 599 }

  ghost predicate Due(r: Record, now: int) { r.outbox.delivery.Some? ==> r.outbox.delivery.value.nextAt <= now }

  ghost predicate CountersExhausted(r: Record)
  {
    r.outbox.rejected == MAX_U64 || (r.outbox.delivery.Some? && r.outbox.delivery.value.attempts == MAX_U32)
  }

  /** An answer that rejects the event for good, with a status the store can record. */
  predicate Rejects(a: Answer)
  {
    a.Response? && Recordable(a) && !Success(a.status) && !Retryable(a.status)
  }

  /** A delivery that broke off left everything in place, unless its last save was done without confirmation;
      then the head, and only the head, may be settled. */
  ghost predicate HeadKept(r0: Record, r: Record, w: Surroundings)
  {
    || r0.outbox.pending <= r.outbox.pending
    || (w.committed.Unconfirmed? && Recordable(w.answer)
        && r0.outbox.pending != [] && r0.outbox.pending[1..] <= r.outbox.pending)
  }

  /** What a delivery may have done to the record it started from. */
  ghost predicate DeliveryOf(r0: Record, r: Record, d: Delivery, w: Surroundings)
  {
    match d
    case Idle => Grown(r0, r) && (r0.outbox.pending == [] || !Due(r0, w.now))
    case Delivered(e) =>
      && r0.outbox.pending != [] && e == r0.outbox.pending[0] && r0.outbox.pending[1..] <= r.outbox.pending
      && r.outbox.delivery.None? && r.outbox.letters == r0.outbox.letters
      && r.outbox.rejected == r0.outbox.rejected && r.secrets.Some?
      && w.answer.Response? && Success(w.answer.status)
    case Parked(e) =>
      && r0.outbox.pending != [] && e == r0.outbox.pending[0] && r0.outbox.pending[1..] <= r.outbox.pending
      && r.outbox.delivery.None? && r.outbox.rejected == r0.outbox.rejected + 1 && r.secrets.Some?
      && |r.outbox.letters| > 0 && r.outbox.letters[|r.outbox.letters| - 1].event == e
      && Rejects(w.answer)
    case Retried(e) =>
      && r0.outbox.pending != [] && e == r0.outbox.pending[0] && r0.outbox.pending <= r.outbox.pending
      && CursorIs(r.outbox, e.id) && w.now < r.outbox.delivery.value.nextAt
      && (w.answer.Transport? || Retryable(w.answer.status))
    case Broken =>
      && HeadKept(r0, r, w)
      && (!w.reserved.Confirmed? || !w.committed.Confirmed? || !Recordable(w.answer) || CountersExhausted(r0))
  }

  /** What recording the answer to a reserved attempt may have done to the record. */
  ghost predicate SettlementOf(r0: Record, r: Record, d: Delivery, event: Event, w: Surroundings)
    requires |r0.outbox.pending| > 0
  {
    match d
    case Idle => false
    case Delivered(e) =>
      && e == event && r.outbox == r0.outbox.(pending := r0.outbox.pending[1..], delivery := None)
      && r.secrets == r0.secrets && w.answer.Response? && Success(w.answer.status)
    case Parked(e) =>
      && e == event && r.outbox.pending == r0.outbox.pending[1..] && r.outbox.delivery.None?
      && r.outbox.rejected == r0.outbox.rejected + 1 && r.secrets == r0.secrets
      && |r.outbox.letters| > 0 && r.outbox.letters[|r.outbox.letters| - 1].event == e
      && Rejects(w.answer)
    case Retried(e) =>
      && e == event && r.outbox.pending == r0.outbox.pending
      && CursorIs(r.outbox, e.id) && CursorIs(r0.outbox, e.id)
      && r.outbox.delivery.value.nextAt == r0.outbox.delivery.value.nextAt
      && (w.answer.Transport? || Retryable(w.answer.status))
    case Broken =>
      && HeadKept(r0, r, w)
      && (!w.committed.Confirmed? || !Recordable(w.answer) || r0.outbox.rejected == MAX_U64)
  }

  lemma SettlementCompletes(r0: Record, r1: Record, r: Record, d: Delivery, w: Surroundings)
    requires Reserved(r0, r1, w.now) && SettlementOf(r1, r, d, r0.outbox.pending[0], w)
    ensures DeliveryOf(r0, r, d, w)
  {
  }

  /** Posts at most one event, the head of the outbox. A success removes exactly that head, a permanent
      rejection moves exactly that head to the dead letters, anything else leaves it in place; what the other
      components append meanwhile is kept behind it. The delivery breaks off only over a save that was not
      confirmed, an unknown status or an exhausted counter, never over ordering or missing credentials. */
  method DeliverNext(store: SessionStore, id: string, policy: Policy, w: Surroundings) returns (d: Delivery)
    requires id in store.files && Inv(store.files[id], id)
    requires ValidPolicy(policy) && ValidSurroundings(w)
    modifies store
    ensures id in store.files && store.files == old(store.files)[id := store.files[id]]
    ensures Inv(store.files[id], id)
    ensures DeliveryOf(old(store.files)[id], store.files[id], d, w)
  {
    var loaded := store.Load(id);
    var record := loaded.value;
    if |record.outbox.pending| == 0 {
      return Idle;
    }
    assert record.secrets.Some?;
    var event := record.outbox.pending[0];
    if record.outbox.delivery.Some? && w.now < record.outbox.delivery.value.nextAt {
      return Idle;
    }
    var reserved := ReserveHead(store, id, policy, w);
    if !reserved {
      return Broken;
    }
    ghost var r1 := store.files[id];
    d := Settle(store, id, event, w);
    SettlementCompletes(old(store.files)[id], r1, store.files[id], d, w);
  }

  /** The head of `r0` has a reserved attempt in `r`, with everything appended meanwhile behind it. */
  ghost predicate Reserved(r0: Record, r: Record, now: int)
  {
    && |r0.outbox.pending| > 0 && r0.outbox.pending <= r.outbox.pending
    && CursorIs(r.outbox, r0.outbox.pending[0].id) && now < r.outbox.delivery.value.nextAt
    && r.outbox.letters == r0.outbox.letters && r.outbox.rejected == r0.outbox.rejected
    && r.secrets.Some?
  }

  method ReserveHead(store: SessionStore, id: string, policy: Policy, w: Surroundings) returns (ok: bool)
    requires id in store.files && Inv(store.files[id], id)
    requires store.files[id].outbox.pending != [] && Due(store.files[id], w.now)
    requires ValidPolicy(policy) && ValidSurroundings(w)
    modifies store
    ensures id in store.files && store.files == old(store.files)[id := store.files[id]]
    ensures Inv(store.files[id], id)
    ensures ok ==> Reserved(old(store.files)[id], store.files[id], w.now)
    ensures !ok ==> !w.reserved.Confirmed? || CountersExhausted(old(store.files)[id])
    ensures old(store.files)[id].outbox.pending <= store.files[id].outbox.pending
  {
    var eventId := store.files[id].outbox.pending[0].id;
    OthersRun(store, id, w.beforeReserve);
    ghost var r := store.files[id];
    HeadHasId(r, id);
    ReserveInv(r, id, eventId, w.now, policy);
    var reply := store.ReserveCallbackAttempt(
      id, eventId, w.now, policy.initial, policy.maximum, policy.jitter, w.reserved);
    ok := reply.Done?;
    if ok {
      OthersRun(store, id, w.beforeCommit);
    }
  }

  lemma HeadHasId(r: Record, id: string)
    requires Inv(r, id) && r.outbox.pending != []
    ensures r.outbox.pending[0].id != ""
  {
    assert ValidPending(r.runner, r.outbox.pending[0], r.outbox.lastSequence);
  }

  lemma ReserveInv(r: Record, id: string, eventId: string, now: int, p: Policy)
    requires Inv(r, id) && ValidPolicy(p)
    ensures var o := Reserve(r, eventId, now, p.initial as int, p.maximum as int, p.jitter);
            o.Saved? ==> Inv(o.record, id) && now < o.record.outbox.delivery.value.nextAt
  {
    var o := Reserve(r, eventId, now, p.initial as int, p.maximum as int, p.jitter);
    if o.Saved? {
      ReserveKeepsInv(r, id, eventId, now, p.initial as int, p.maximum as int, p.jitter);
      CallbackRetry.DelayBounds(o.record.outbox.delivery.value.attempts, p.initial as int, p.maximum as int, p.jitter);
    }
  }

  /** Records the broker's answer to a reserved attempt. */
  method Settle(store: SessionStore, id: string, event: Event, w: Surroundings) returns (d: Delivery)
    requires id in store.files && Inv(store.files[id], id) && ValidSurroundings(w)
    requires HeadIs(store.files[id].outbox, event.id) && CursorIs(store.files[id].outbox, event.id)
    requires store.files[id].outbox.pending[0] == event
    modifies store
    ensures id in store.files && store.files == old(store.files)[id := store.files[id]]
    ensures Inv(store.files[id], id)
    ensures SettlementOf(old(store.files)[id], store.files[id], d, event, w)
  {
    ghost var r := store.files[id];
    if w.answer.Transport? {
      var noted := store.RecordCallbackRetryFailure(id, event.id, 0, "transport_error", w.committed);
      RetryFailureKept(r, id, event.id, 0, "transport_error");
      return if noted.Error? then Broken else Retried(event);
    }
    if !Success(w.answer.status) {
      d := SettleFailure(store, id, event, w);
      return;
    }
    var acknowledged := store.AcknowledgeEvent(id, event.id, w.committed);
    AcknowledgeKeepsInv(r, id, event.id);
    return if acknowledged.Error? then Broken else Delivered(event);
  }

  /** An answer that is no success: noted for a retry, or parked. */
  method SettleFailure(store: SessionStore, id: string, event: Event, w: Surroundings) returns (d: Delivery)
    requires id in store.files && Inv(store.files[id], id) && ValidSurroundings(w)
    requires HeadIs(store.files[id].outbox, event.id) && CursorIs(store.files[id].outbox, event.id)
    requires store.files[id].outbox.pending[0] == event
    requires w.answer.Response? && !Success(w.answer.status)
    modifies store
    ensures id in store.files && store.files == old(store.files)[id := store.files[id]]
    ensures Inv(store.files[id], id)
    ensures SettlementOf(old(store.files)[id], store.files[id], d, event, w)
  {
    ghost var r := store.files[id];
    var code := SafeErrorCode(w.answer);
    SafeErrorCodeIsValid(w.answer);
    if Retryable(w.answer.status) {
      var noted := store.RecordCallbackRetryFailure(id, event.id, w.answer.status, code, w.committed);
      RetryFailureKept(r, id, event.id, w.answer.status, code);
      return if noted.Error? then Broken else Retried(event);
    }
    var parked := store.ParkCallbackRejection(id, event.id, w.answer.status, code, w.now, w.committed);
    ParkKept(r, id, event.id, w.answer.status, code, w.now);
    return if parked.Error? then Broken else Parked(event);
  }

  lemma RetryFailureKept(r: Record, id: string, eventId: string, status: nat, code: string)
    requires Inv(r, id)
    ensures var o := RecordRetryFailure(r, eventId, status, code); o.Saved? ==> Inv(o.record, id)
  {
    if RecordRetryFailure(r, eventId, status, code).Saved? {
      RetryFailureKeepsInv(r, id, eventId, status, code);
    }
  }

  lemma ParkKept(r: Record, id: string, eventId: string, status: nat, code: string, now: int)
    requires Inv(r, id)
    ensures var o := Park(r, eventId, status, code, now);
            o.Saved? ==>
              && Inv(o.record, id) && |o.record.outbox.letters| > 0
              && o.record.outbox.letters[|o.record.outbox.letters| - 1].event == r.outbox.pending[0]
  {
    if Park(r, eventId, status, code, now).Saved? {
      ParkKeepsInv(r, id, eventId, status, code, now);
    }
  }

  // ----- which answers break a delivery off -----

  /** With both saves confirmed, a due head and counters left, a delivery breaks off if and only if the store
      cannot record the broker's status; the head then stays where it was. */
  lemma BreaksOffIff(r0: Record, r: Record, d: Delivery, w: Surroundings)
    requires DeliveryOf(r0, r, d, w) && w.reserved.Confirmed? && w.committed.Confirmed?
    requires r0.outbox.pending != [] && Due(r0, w.now) && !CountersExhausted(r0)
    ensures d.Broken? <==> !Recordable(w.answer)
    ensures d.Broken? ==> r0.outbox.pending <= r.outbox.pending
  {
  }

  /** Status 600, which an HTTP client hands on like any other three digits: neither retried nor parked. */
  lemma Status600BreaksOff(r0: Record, r: Record, d: Delivery, w: Surroundings, error: string, code: string)
    requires DeliveryOf(r0, r, d, w) && w.reserved.Confirmed? && w.committed.Confirmed?
    requires r0.outbox.pending != [] && Due(r0, w.now) && !CountersExhausted(r0)
    requires w.answer == Response(600, error, code)
    ensures d == Broken && r0.outbox.pending[0] == r.outbox.pending[0]
  {
    BreaksOffIff(r0, r, d, w);
  }

  /** What becomes of the head, by status: with both saves confirmed, a due head and counters left. */
  lemma FateByStatus(r0: Record, r: Record, d: Delivery, w: Surroundings)
    requires DeliveryOf(r0, r, d, w) && w.reserved.Confirmed? && w.committed.Confirmed?
    requires r0.outbox.pending != [] && Due(r0, w.now) && !CountersExhausted(r0)
    ensures d.Delivered? <==> w.answer.Response? && 200 <= w.answer.status <= 299
    ensures d.Retried? <==> w.answer.Transport? || w.answer.status in {408, 429} || 500 <= w.answer.status <= 599
    ensures d.Parked? <==>
              && w.answer.Response? && 100 <= w.answer.status <= 499 && !(200 <= w.answer.status <= 299)
              && w.answer.status !in {408, 429}
  {
  }

  /** Four statuses have a meaning of their own, whatever the body says. */
  lemma StatusesWithMeaning(a: Answer)
    requires a.Response?
    ensures a.status in {401, 403} ==> SafeErrorCode(a) == "callback_auth_rejected"
    ensures a.status in {404, 410} ==> SafeErrorCode(a) == "broker_session_terminal"
    ensures SafeErrorCode(a) in {"callback_auth_rejected", "broker_session_terminal"} ==>
              a.status in {401, 403, 404, 410}
  {
    if a.status !in {401, 403, 404, 410} {
      assert HttpCode(a.status)[0] == 'h';
      assert AUTH_REJECTED[0] == 'c' && BROKER_TERMINAL[0] == 'b';
    }
  }

  // ----- one sweep over a session -----

  /** Surroundings in which an attempt settles the head for good. */
  ghost predicate Conclusive(w: Surroundings)
  {
    && w.reserved.Confirmed? && w.committed.Confirmed?
    && w.answer.Response? && 100 <= w.answer.status <= 599 && !Retryable(w.answer.status)
  }

  lemma ConclusiveSettles(r0: Record, r: Record, d: Delivery, w: Surroundings)
    requires DeliveryOf(r0, r, d, w) && Conclusive(w)
    requires r0.outbox.pending != [] && Due(r0, w.now) && !CountersExhausted(r0)
    ensures d.Delivered? || d.Parked?
  {
  }

  /** After settling `count` events of `r0`, in order. */
  ghost predicate Progress(r0: Record, count: nat, r: Record)
  {
    && count <= |r0.outbox.pending| && r0.outbox.pending[count..] <= r.outbox.pending
    && r.outbox.rejected <= r0.outbox.rejected + count
    && (count == 0 ==> r == r0)
    && (count > 0 ==> r.outbox.delivery.None?)
  }

  lemma SettledProgress(r0: Record, count: nat, before: Record, after: Record, d: Delivery, w: Surroundings)
    requires Progress(r0, count, before) && count < |r0.outbox.pending|
    requires DeliveryOf(before, after, d, w) && (d.Delivered? || d.Parked?)
    ensures Progress(r0, count + 1, after)
  {
    assert r0.outbox.pending[count + 1..] == r0.outbox.pending[count..][1..];
  }

  lemma UnsettledProgress(r0: Record, count: nat, before: Record, after: Record, d: Delivery, w: Surroundings)
    requires Progress(r0, count, before) && DeliveryOf(before, after, d, w) && (d.Idle? || d.Retried?)
    ensures r0.outbox.pending[count..] <= after.outbox.pending
  {
  }

  /** A sweep that broke off after `count` events: the rest is in place, or its head was settled by a save that
      was done without confirmation. */
  ghost predicate BrokenAt(r0: Record, count: nat, r: Record, w: Surroundings)
  {
    && count < |r0.outbox.pending|
    && (|| r0.outbox.pending[count..] <= r.outbox.pending
        || (w.committed.Unconfirmed? && r0.outbox.pending[count + 1..] <= r.outbox.pending))
  }

  lemma BrokenProgress(r0: Record, count: nat, before: Record, after: Record, w: Surroundings)
    requires Progress(r0, count, before) && count < |r0.outbox.pending| && HeadKept(before, after, w)
    ensures BrokenAt(r0, count, after, w)
  {
    assert r0.outbox.pending[count + 1..] == r0.outbox.pending[count..][1..];
  }

  /** A session whose first attempt is due and whose counters cannot run out during a sweep. */
  ghost predicate Ready(r0: Record, now: int)
  {
    Due(r0, now) && !CountersExhausted(r0) && r0.outbox.rejected + |r0.outbox.pending| < MAX_U64
  }

  lemma ReadyProgress(r0: Record, count: nat, before: Record, after: Record, d: Delivery, w: Surroundings)
    requires Progress(r0, count, before) && count < |r0.outbox.pending|
    requires Ready(r0, w.now) || (count > 0 && r0.outbox.rejected + |r0.outbox.pending| < MAX_U64)
    requires DeliveryOf(before, after, d, w) && Conclusive(w)
    ensures d.Delivered? || d.Parked?
  {
    ConclusiveSettles(before, after, d, w);
  }

  ghost predicate CannotFail(r0: Record, count: nat, w: Surroundings)
  {
    Conclusive(w) && r0.outbox.rejected + |r0.outbox.pending| < MAX_U64 && (count > 0 || Ready(r0, w.now))
  }

  /** One attempt of a sweep that has already settled `count` events of `r0`. */
  method SweepOne(store: SessionStore, id: string, policy: Policy, w: Surroundings, ghost r0: Record, ghost count: nat)
    returns (settled: bool, broken: bool)
    requires id in store.files && Inv(store.files[id], id) && ValidPolicy(policy) && ValidSurroundings(w)
    requires Progress(r0, count, store.files[id]) && count < |r0.outbox.pending|
    modifies store
    ensures id in store.files && store.files == old(store.files)[id := store.files[id]]
    ensures Inv(store.files[id], id)
    ensures settled ==> !broken && Progress(r0, count + 1, store.files[id])
    ensures !settled && !broken ==> r0.outbox.pending[count..] <= store.files[id].outbox.pending
    ensures broken ==> BrokenAt(r0, count, store.files[id], w)
    ensures CannotFail(r0, count, w) ==> settled
  {
    ghost var before := store.files[id];
    var d := DeliverNext(store, id, policy, w);
    ghost var after := store.files[id];
    if CannotFail(r0, count, w) {
      ReadyProgress(r0, count, before, after, d, w);
    }
    settled, broken := d.Delivered? || d.Parked?, d.Broken?;
    if settled {
      SettledProgress(r0, count, before, after, d, w);
    } else if broken {
      BrokenProgress(r0, count, before, after, w);
    } else {
      UnsettledProgress(r0, count, before, after, d, w);
    }
  }

  ghost predicate AllValid(ws: seq<Surroundings>) { forall i :: 0 <= i < |ws| ==> ValidSurroundings(ws[i]) }

  ghost predicate AllConclusive(ws: seq<Surroundings>)
  {
    |ws| > 0 && forall i :: 0 <= i < |ws| ==> Conclusive(ws[i])
  }

  lemma ConclusiveCannotFail(r0: Record, count: nat, ws: seq<Surroundings>)
    requires AllConclusive(ws) && Ready(r0, ws[0].now) && count < |ws|
    ensures CannotFail(r0, count, ws[count])
  {
  }

  /** What a drain that settled `count` events of `r0` leaves: the rest in place, but for a head that an unconfirmed
      save may have settled where it broke off; and with conclusive answers nothing is left over. */
  ghost predicate Drained(r0: Record, r: Record, count: nat, broken: bool, ws: seq<Surroundings>)
  {
    && count <= |r0.outbox.pending|
    && (!broken ==> r0.outbox.pending[count..] <= r.outbox.pending)
    && (broken ==> count < |ws| && BrokenAt(r0, count, r, ws[count]))
    && (AllConclusive(ws) && Ready(r0, ws[0].now) ==> !broken && count == |r0.outbox.pending|)
  }

  lemma StoppedDrain(r0: Record, r: Record, count: nat, broken: bool, ws: seq<Surroundings>)
    requires count < |r0.outbox.pending| && count < |ws| && !CannotFail(r0, count, ws[count])
    requires !broken ==> r0.outbox.pending[count..] <= r.outbox.pending
    requires broken ==> BrokenAt(r0, count, r, ws[count])
    ensures Drained(r0, r, count, broken, ws)
  {
    if AllConclusive(ws) && Ready(r0, ws[0].now) {
      ConclusiveCannotFail(r0, count, ws);
    }
  }

  /** Drains the outbox snapshot: a prefix of the events pending at the start, in order, and all of them when
      every attempt is conclusive. */
  method Drain(store: SessionStore, id: string, policy: Policy, ws: seq<Surroundings>)
    returns (count: nat, broken: bool)
    requires id in store.files && Inv(store.files[id], id) && ValidPolicy(policy)
    requires |ws| >= |store.files[id].outbox.pending|
    requires AllValid(ws)
    modifies store
    ensures id in store.files && store.files == old(store.files)[id := store.files[id]]
    ensures Inv(store.files[id], id)
    ensures Drained(old(store.files)[id], store.files[id], count, broken, ws)
  {
    ghost var r0 := store.files[id];
    var n := |store.files[id].outbox.pending|;
    count := 0;
    while count < n
      invariant count <= n && id in store.files && store.files == old(store.files)[id := store.files[id]]
      invariant Inv(store.files[id], id) && Progress(r0, count, store.files[id])
    {
      var settled, failed := SweepOne(store, id, policy, ws[count], r0, count);
      if !settled {
        StoppedDrain(r0, store.files[id], count, failed, ws);
        return count, failed;
      }
      count := count + 1;
    }
    return count, false;
  }

  /** One sweep over a session: the drain, and then the credentials of a terminal session go once its outbox is
      empty, and only then. */
  method SweepSession(store: SessionStore, id: string, policy: Policy, ws: seq<Surroundings>, erased: SaveResult)
    returns (ok: bool)
    requires id in store.files && Inv(store.files[id], id) && ValidPolicy(policy)
    requires |ws| >= |store.files[id].outbox.pending|
    requires AllValid(ws)
    modifies store
    ensures id in store.files && store.files == old(store.files)[id := store.files[id]]
    ensures Inv(store.files[id], id)
    ensures ok && store.files[id].lifecycle.state != Active && store.files[id].outbox.pending == []
            ==> store.files[id].secrets.None?
    ensures store.files[id].secrets.None? ==>
              store.files[id].lifecycle.state != Active && store.files[id].outbox.pending == []
  {
    var _, broken := Drain(store, id, policy, ws);
    if broken {
      return false;
    }
    var loaded := store.Load(id);
    var current := loaded.value;
    ok := true;
    if current.lifecycle.state != Active && |current.outbox.pending| == 0 && current.secrets.Some? {
      var reply := store.ClearTerminalSecrets(id, erased);
      ClearSecretsKeepsInv(current, id);
      ok := reply.Done?;
    }
  }

  /** Each session has surroundings for every event of its snapshot. */
  ghost predicate Provided(files: Files, ids: seq<string>, wss: seq<seq<Surroundings>>)
  {
    && |wss| == |ids|
    && (forall i, k :: 0 <= i < k < |ids| ==> ids[i] != ids[k])
    && (forall i :: 0 <= i < |ids| ==> ids[i] in files && Inv(files[ids[i]], ids[i]))
    && (forall i :: 0 <= i < |ids| ==> |wss[i]| >= |files[ids[i]].outbox.pending|)
    && (forall i :: 0 <= i < |wss| ==> AllValid(wss[i]))
  }

  /** The files of the sessions from `n` on are as they were. */
  ghost predicate Untouched(before: Files, after: Files, ids: seq<string>, n: nat)
  {
    forall i :: n <= i < |ids| && ids[i] in before ==> ids[i] in after && after[ids[i]] == before[ids[i]]
  }

  /** A whole sweep: `swept` sessions were completed. A delivery that breaks off ends the sweep at once, so the
      sessions behind it are not served by it at all. */
  method SweepOnce(
    store: SessionStore, ids: seq<string>, policy: Policy, wss: seq<seq<Surroundings>>, erased: SaveResult)
    returns (ok: bool, swept: nat)
    requires ValidPolicy(policy) && Provided(store.files, ids, wss)
    modifies store
    ensures swept <= |ids| && (ok <==> swept == |ids|)
    ensures forall i :: 0 <= i < |ids| ==> ids[i] in store.files && Inv(store.files[ids[i]], ids[i])
    ensures Untouched(old(store.files), store.files, ids, swept + 1)
  {
    swept := 0;
    while swept < |ids|
      invariant swept <= |ids| && Untouched(old(store.files), store.files, ids, swept)
      invariant forall i :: 0 <= i < |ids| ==> ids[i] in store.files && Inv(store.files[ids[i]], ids[i])
    {
      ghost var before := store.files;
      ok := SweepSession(store, ids[swept], policy, wss[swept], erased);
      OneSwept(old(store.files), before, store.files, ids, swept);
      if !ok {
        return false, swept;
      }
      swept := swept + 1;
    }
    return true, swept;
  }

  lemma OneSwept(start: Files, before: Files, after: Files, ids: seq<string>, n: nat)
    requires n < |ids| && Untouched(start, before, ids, n)
    requires forall i, k :: 0 <= i < k < |ids| ==> ids[i] != ids[k]
    requires forall i :: 0 <= i < |ids| ==> ids[i] in before && Inv(before[ids[i]], ids[i])
    requires ids[n] in after && after == before[ids[n] := after[ids[n]]] && Inv(after[ids[n]], ids[n])
    ensures Untouched(start, after, ids, n + 1)
    ensures forall i :: 0 <= i < |ids| ==> ids[i] in after && Inv(after[ids[i]], ids[i])
  {
    forall i | 0 <= i < |ids| ensures ids[i] in after && Inv(after[ids[i]], ids[i]) {
      if i != n {
        assert ids[i] != ids[n] && after[ids[i]] == before[ids[i]];
      }
    }
  }
}
