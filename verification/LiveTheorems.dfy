/** What holds of every run of a live session: it can always be reloaded, its outbox loses and reorders
    nothing, its meter counts each segment once, its first termination intent wins, and its credentials
    outlive its events. */
module LiveTheorems {
  import opened Text
  import opened LiveContract
  import opened LiveRecord
  import opened LiveOps
  import opened LiveInvariant
  import opened LiveRuns

  // ----- reloading -----

  lemma EveryReachableRecordLoads(id: string, moves: seq<Move>)
    ensures var s := Run(id, moves); s.record.Some? ==> Loadable(s.record.value, id)
  {
    RunKeepsInv(id, moves);
  }

  /** The loader's predicate alone does not survive a poll: from a merely loadable record the saved record
      loads again exactly when the recorded usage does not exceed the new meter and, if a tick is emitted,
      no pending event claims more than that tick. */
  lemma PollStaysLoadableIff(r: Record, id: string, segments: seq<Segment>, now: int)
    requires Loadable(r, id) && RecordSegments(r, segments, now).Saved?
    ensures var total := MeterAll(r.meter, segments).value.micros / MICROS_PER_SECOND;
            Loadable(RecordSegments(r, segments, now).record, id) <==>
              && r.outbox.usageTotal <= total
              && (r.outbox.usageTotal < total ==>
                    forall i :: 0 <= i < |r.outbox.pending| && r.outbox.pending[i].usage.Some? ==>
                      r.outbox.pending[i].usage.value <= total)
  {
    MeterAllKeeps(r.meter, segments);
    var m := MeterAll(r.meter, segments).value;
    var total := m.micros / MICROS_PER_SECOND;
    var r' := RecordSegments(r, segments, now).record;
    var o, o' := r.outbox, r'.outbox;
    if o.usageTotal < total {
      NextEventFits(r, UsageTick, now, Some(total));
      var e := NextEvent(r, UsageTick, now, Some(total));
      assert o'.pending[|o.pending|] == e;
      assert forall i :: 0 <= i < |o.pending| ==> o'.pending[i] == o.pending[i];
      assert ValidDelivery(o');
    }
  }

  /** Advance by itself accepts a usage tick before any segment is metered, and the next poll then saves a
      record that never loads again. The runtime never calls it that way. */
  lemma BareUsageTickBreaksReload(r: Record, id: string, now: int)
    requires Inv(r, id) && Open(r) && r.outbox.lastSequence > 0 && r.meter == Meter(0, []) && now != 0
    requires r.outbox.lastSequence < MAX_U64 && EventIdFits(r.runner, r.outbox.lastSequence + 1)
    ensures var ticked := Advance(r, NextEvent(r, UsageTick, now, Some(2)));
            && ticked.Saved?
            && var polled := RecordSegments(ticked.record, [Segment("segment0.mp4", 1_000_000)], now);
               polled.Saved? && !Loadable(polled.record, id)
  {
    var e := NextEvent(r, UsageTick, now, Some(2));
    EventIdIsOpaque(r.runner, e.seqNo);
    IdsArePending(r, id, e.seqNo);
    var r1 := Advance(r, e).record;
    var segments := [Segment("segment0.mp4", 1_000_000)];
    assert segments[..0] == [];
    assert MeterAll(r1.meter, segments[..0]) == Some(r1.meter);
    assert r1.meter.segments + ["segment0.mp4"] == ["segment0.mp4"];
    assert MeterAll(r1.meter, segments) == Some(Meter(1_000_000, ["segment0.mp4"]));
  }

  /** Advance keeps the invariant if and only if its event claims no usage or exactly the recorded one, and
      follows the pending events, if there are any, without a gap. */
  lemma AdvanceKeepsInvIff(r: Record, id: string, e: Event)
    requires Inv(r, id) && Advance(r, e).Saved? && e.seqNo <= MAX_U64
    ensures Inv(Advance(r, e).record, id) <==>
              && (r.outbox.pending == [] || e.seqNo == r.outbox.lastSequence + 1)
              && (e.usage.None? || e.usage.value == r.outbox.usageTotal)
  {
    var r' := Advance(r, e).record;
    var o, o' := r.outbox, r'.outbox;
    assert o'.pending[|o.pending|] == e;
    assert forall i :: 0 <= i < |o.pending| ==> o'.pending[i] == o.pending[i];
    if o.pending != [] {
      assert o'.pending[|o.pending| - 1].seqNo == o.lastSequence;
    }
    if (o.pending == [] || e.seqNo == o.lastSequence + 1) && (e.usage.None? || e.usage.value == o.usageTotal) {
      AppendKeepsOutbox(r.runner, o, e);
    }
  }

  lemma AppendKeepsOutbox(runner: string, o: Outbox, e: Event)
    requires StrongOutbox(runner, o) && ValidEvent(e) && e.id == EventId(runner, e.seqNo)
    requires o.lastSequence < e.seqNo <= MAX_U64 && (o.pending == [] || e.seqNo == o.lastSequence + 1)
    requires e.usage.None? || e.usage.value == o.usageTotal
    ensures StrongOutbox(runner, Enqueue(o, e))
  {
    if e.seqNo == o.lastSequence + 1 {
      EnqueueKeepsOutbox(runner, o, e);
    } else {
      var o' := Enqueue(o, e);
      assert o'.pending == [e];
      assert ValidDelivery(o');
    }
  }

  // ----- creation -----

  lemma FingerprintStays(s: Sys, r: Record, step: Step)
    requires Transform(s, r, step).Saved?
    ensures var r' := Transform(s, r, step).record;
            r'.fingerprint == r.fingerprint && r'.broker == r.broker && r'.runner == r.runner
  {
  }

  ghost predicate CreatedBy(s: Sys, q: CreateRequest, a: CreateResponse)
  {
    && s.record.Some? && s.record.value.fingerprint == q
    && s.record.value.broker == q.sessionId && s.record.value.runner == a.runnerSessionId
  }

  lemma NextCreatedBy(id: string, s: Sys, step: Step, persisted: bool, q: CreateRequest, a: CreateResponse)
    requires CreatedBy(s, q, a)
    ensures CreatedBy(Next(id, s, step, persisted), q, a)
  {
    if Transform(s, s.record.value, step).Saved? {
      FingerprintStays(s, s.record.value, step);
    }
  }

  lemma {:induction false} StaysCreatedBy(id: string, moves: seq<Move>, more: seq<Move>, q: CreateRequest,
      a: CreateResponse)
    requires CreatedBy(Run(id, moves), q, a)
    ensures CreatedBy(Run(id, moves + more), q, a)
  {
    if more == [] {
      assert moves + more == moves;
    } else {
      var front, last := more[..|more| - 1], more[|more| - 1];
      StaysCreatedBy(id, moves, front, q, a);
      RunOneMore(id, moves, more);
      NextCreatedBy(id, Run(id, moves + front), last.step, last.persisted, q, a);
    }
  }

  /** A session belongs to the request that created it for good: in every continuation a create request is answered
      from the record if and only if it is that request and the session is still open, and another one is refused. */
  lemma ReplayedExactly(id: string, moves: seq<Move>, more: seq<Move>, q: CreateRequest, a: CreateResponse,
      other: CreateRequest)
    requires CreatedBy(Run(id, moves), q, a)
    ensures var s := Run(id, moves + more);
            && CreatedBy(s, q, a)
            && (Replay(s.record.value, other).Kept? <==> other == q && Open(s.record.value))
            && (other != q ==> Replay(s.record.value, other) == Refused(SessionIdReuse))
  {
    StaysCreatedBy(id, moves, more, q, a);
    PendingEventsHaveCredentials(id, moves + more);
  }

  // ----- the outbox -----

  function EventsOf(settled: seq<Settled>): seq<Event>
  {
    seq(|settled|, i requires 0 <= i < |settled| => settled[i].event)
  }

  /** At every point the events ever enqueued are those acknowledged or parked, in order, followed by the
      pending ones, and their sequence numbers are 1 to the last sequence without a gap. */
  lemma OutboxConserved(id: string, moves: seq<Move>)
    ensures var s := Run(id, moves);
            s.record.Some? ==>
              && s.log == EventsOf(s.settled) + s.record.value.outbox.pending
              && |s.log| == s.record.value.outbox.lastSequence
              && forall i :: 0 <= i < |s.log| ==> s.log[i].seqNo == i + 1
  {
    RunKeepsInv(id, moves);
    var s := Run(id, moves);
    if s.record.Some? {
      LogInParts(s.log, s.settled, s.record.value.outbox.pending);
    }
  }

  lemma LogInParts(log: seq<Event>, settled: seq<Settled>, pending: seq<Event>)
    requires LogConserved(log, settled, pending)
    ensures log == EventsOf(settled) + pending
  {
    var parts := EventsOf(settled) + pending;
    assert forall i :: |settled| <= i < |log| ==> log[i] == log[|settled|..][i - |settled|];
    assert forall i :: 0 <= i < |log| ==> parts[i] == log[i];
  }

  /** The events the broker acknowledged, without those it rejected. */
  function AcceptedEvents(settled: seq<Settled>): seq<Event>
  {
    if settled == [] then []
    else
      var last := settled[|settled| - 1];
      AcceptedEvents(settled[..|settled| - 1]) + if last.accepted then [last.event] else []
  }

  /** Events of one runner, in order, none of which a cursor that has only seen earlier ones refuses. */
  ghost predicate Orderly(runner: string, events: seq<Event>)
  {
    && (forall i :: 0 <= i < |events| ==> ValidEvent(events[i]) && events[i].id == EventId(runner, events[i].seqNo))
    && SequencesIncrease(events)
    && UsageNeverDecreases(events)
  }

  lemma OrderlyAppend(runner: string, events: seq<Event>, e: Event)
    requires Orderly(runner, events) && ValidEvent(e) && e.id == EventId(runner, e.seqNo)
    requires forall i :: 0 <= i < |events| ==> events[i].seqNo < e.seqNo
    requires forall i :: 0 <= i < |events| && events[i].usage.Some? && e.usage.Some? ==>
            events[i].usage.value <= e.usage.value
    ensures Orderly(runner, events + [e])
  {
    assert forall i :: 0 <= i < |events| ==> (events + [e])[i] == events[i];
  }

  lemma {:induction false} AcceptedEventsOrderly(runner: string, settled: seq<Settled>)
    requires Orderly(runner, EventsOf(settled))
    ensures Orderly(runner, AcceptedEvents(settled))
    ensures forall e :: e in AcceptedEvents(settled) ==> e in EventsOf(settled)
  {
    if settled != [] {
      var front, last := settled[..|settled| - 1], settled[|settled| - 1];
      var all, before := EventsOf(settled), EventsOf(front);
      assert all == before + [last.event];
      assert Orderly(runner, before) by {
        assert forall i :: 0 <= i < |before| ==> before[i] == all[i];
      }
      AcceptedEventsOrderly(runner, front);
      if last.accepted {
        var kept := AcceptedEvents(front);
        assert all[|front|] == last.event;
        forall i | 0 <= i < |kept|
          ensures kept[i].seqNo < last.event.seqNo
          ensures kept[i].usage.Some? && last.event.usage.Some? ==> kept[i].usage.value <= last.event.usage.value
        {
          assert kept[i] in before;
          var j :| 0 <= j < |front| && before[j] == kept[i];
          assert all[j] == kept[i];
        }
        OrderlyAppend(runner, kept, last.event);
      }
    }
  }

  /** A cursor that is behind an orderly stream accepts all of it. */
  lemma {:induction false} OrderlyStreamAccepted(runner: string, c: Cursor, events: seq<Event>)
    requires Orderly(runner, events)
    requires forall i :: 0 <= i < |events| ==> events[i].seqNo > c.sequence
    requires forall i :: 0 <= i < |events| ==> events[i].id !in c.seenIds
    requires forall i :: 0 <= i < |events| && events[i].usage.Some? && c.hasUsage ==>
            events[i].usage.value >= c.usageTotal
    ensures AcceptsAll(c, events)
    decreases |events|
  {
    if events != [] {
      var head, rest := events[0], events[1..];
      forall i | 0 <= i < |rest| ensures rest[i].id != head.id && rest[i].seqNo > head.seqNo {
        assert rest[i] == events[i + 1];
        if rest[i].id == head.id {
          EventIdInjective(runner, rest[i].seqNo, head.seqNo);
        }
      }
      assert forall i :: 0 <= i < |rest| ==> rest[i] == events[i + 1];
      OrderlyStreamAccepted(runner, Accept(c, head), rest);
    }
  }

  /** Events a cursor could have seen in this order: valid, with growing sequences, fresh identities and usage that
      never falls, and all of them behind what it has seen. */
  ghost predicate AcceptableStream(c: Cursor, events: seq<Event>)
  {
    && (forall i :: 0 <= i < |events| ==> ValidEvent(events[i]) && events[i].seqNo > c.sequence)
    && (forall i :: 0 <= i < |events| ==> events[i].id !in c.seenIds)
    && (forall i :: 0 <= i < |events| && events[i].usage.Some? && c.hasUsage ==> events[i].usage.value >= c.usageTotal)
    && SequencesIncrease(events) && UsageNeverDecreases(events)
    && (forall i, k :: 0 <= i < k < |events| ==> events[i].id != events[k].id)
  }

  lemma StreamSplits(c: Cursor, events: seq<Event>)
    requires events != []
    ensures AcceptableStream(c, events) ==>
            Acceptable(c, events[0]) && AcceptableStream(Accept(c, events[0]), events[1..])
  {
    var head, rest := events[0], events[1..];
    if AcceptableStream(c, events) {
      assert forall i :: 0 <= i < |rest| ==> rest[i] == events[i + 1];
      assert forall i :: 0 <= i < |rest| ==> head.seqNo < rest[i].seqNo && head.id != rest[i].id;
    }
  }

  lemma StreamJoins(c: Cursor, events: seq<Event>)
    requires events != [] && Acceptable(c, events[0]) && AcceptableStream(Accept(c, events[0]), events[1..])
    requires c.hasUsage || c.usageTotal == 0
    ensures AcceptableStream(c, events)
  {
    var head, rest := events[0], events[1..];
    forall i | 0 < i < |events|
      ensures ValidEvent(events[i]) && events[i].seqNo > head.seqNo && events[i].id != head.id
      ensures events[i].id !in c.seenIds
      ensures events[i].usage.Some? && head.usage.Some? ==> events[i].usage.value >= head.usage.value
      ensures events[i].usage.Some? && c.hasUsage ==> events[i].usage.value >= c.usageTotal
    {
      assert events[i] == rest[i - 1];
    }
    forall i, k | 0 <= i < k < |events|
      ensures events[i].seqNo < events[k].seqNo && events[i].id != events[k].id
      ensures events[i].usage.Some? && events[k].usage.Some? ==> events[i].usage.value <= events[k].usage.value
    {
      if i > 0 {
        assert events[i] == rest[i - 1] && events[k] == rest[k - 1];
      }
    }
  }

  /** A cursor accepts a stream if and only if it is such a stream: comparing with the last event is comparing with
      all of them. */
  lemma {:induction false} CursorAcceptsIff(c: Cursor, events: seq<Event>)
    requires c.hasUsage || c.usageTotal == 0
    ensures AcceptsAll(c, events) <==> AcceptableStream(c, events)
    decreases |events|
  {
    if events != [] {
      if Acceptable(c, events[0]) {
        CursorAcceptsIff(Accept(c, events[0]), events[1..]);
        if AcceptsAll(c, events) {
          StreamJoins(c, events);
        }
      }
      StreamSplits(c, events);
    }
  }

  /** Parked events leave no trace a broker cursor could stumble over: what was acknowledged is accepted in full. */
  lemma AcknowledgedEventsAccepted(id: string, moves: seq<Move>)
    ensures AcceptsAll(FRESH_CURSOR, AcceptedEvents(Run(id, moves).settled))
  {
    RunKeepsInv(id, moves);
    var s := Run(id, moves);
    if s.record.Some? {
      var runner, all := s.record.value.runner, EventsOf(s.settled);
      assert forall i :: 0 <= i < |all| ==> all[i] == s.log[i];
      AcceptedEventsOrderly(runner, s.settled);
      OrderlyStreamAccepted(runner, FRESH_CURSOR, AcceptedEvents(s.settled));
    }
  }

  // ----- exactly-once metering -----

  predicate ObservedBefore(polled: seq<Segment>, n: nat, uri: string)
    requires n <= |polled|
  {
    exists j :: 0 <= j < n && polled[j].uri == uri
  }

  /** The first `n` observations, keeping only those whose identity was not observed before. */
  function FirstObservations(polled: seq<Segment>, n: nat): seq<Segment>
    requires n <= |polled|
  {
    if n == 0 then []
    else if ObservedBefore(polled, n - 1, polled[n - 1].uri) then FirstObservations(polled, n - 1)
    else FirstObservations(polled, n - 1) + [polled[n - 1]]
  }

  function Uris(segments: seq<Segment>): seq<string>
  {
    seq(|segments|, i requires 0 <= i < |segments| => segments[i].uri)
  }

  function Durations(segments: seq<Segment>): seq<nat>
  {
    seq(|segments|, i requires 0 <= i < |segments| => segments[i].micros)
  }

  lemma OneMoreObservation(before: seq<Segment>, last: Segment)
    ensures Uris(before + [last]) == Uris(before) + [last.uri]
    ensures Sum(Durations(before + [last])) == Sum(Durations(before)) + last.micros
  {
    assert Durations(before + [last]) == Durations(before) + [last.micros];
    SumAppend(Durations(before), [last.micros]);
    assert [last.micros][..0] == [];
    assert Sum([last.micros]) == last.micros;
  }

  lemma {:induction false} FirstObservationsCoverAll(polled: seq<Segment>, n: nat, uri: string)
    requires n <= |polled|
    ensures uri in Uris(FirstObservations(polled, n)) <==> ObservedBefore(polled, n, uri)
  {
    if n > 0 {
      FirstObservationsCoverAll(polled, n - 1, uri);
      OneMoreObservation(FirstObservations(polled, n - 1), polled[n - 1]);
      assert ObservedBefore(polled, n, uri) <==> ObservedBefore(polled, n - 1, uri) || polled[n - 1].uri == uri;
    }
  }

  lemma {:induction false} MeterIsFirstObservations(polled: seq<Segment>, n: nat)
    requires n <= |polled| && MeterAll(Meter(0, []), polled[..n]).Some?
    ensures var first := FirstObservations(polled, n);
            MeterAll(Meter(0, []), polled[..n]) == Some(Meter(Sum(Durations(first)), Uris(first)))
  {
    if n > 0 {
      assert polled[..n][..n - 1] == polled[..n - 1];
      MeterIsFirstObservations(polled, n - 1);
      OneMoreObservation(FirstObservations(polled, n - 1), polled[n - 1]);
      FirstObservationsCoverAll(polled, n - 1, polled[n - 1].uri);
    } else {
      assert polled[..0] == [] && Durations([]) == [] && Uris([]) == [];
    }
  }

  /** After any sequence of polls, rereads, overlaps and restarts the meter is the sum over distinct segment
      identities of the duration first recorded, and the claimed usage is its whole seconds. */
  lemma MeterCountsEachSegmentOnce(id: string, moves: seq<Move>)
    ensures var s := Run(id, moves);
            s.record.Some? ==>
              var first := FirstObservations(s.polled, |s.polled|);
              var r := s.record.value;
              && r.meter == Meter(Sum(Durations(first)), Uris(first))
              && Distinct(r.meter.segments)
              && r.outbox.usageTotal == Sum(Durations(first)) / 1_000_000
  {
    RunKeepsInv(id, moves);
    var s := Run(id, moves);
    if s.record.Some? {
      assert s.polled[..|s.polled|] == s.polled;
      MeterIsFirstObservations(s.polled, |s.polled|);
    }
  }

  /** The usage a run claims is what CalculateOutputSecondsV1 computes from the deduplicated timeline. */
  method RecalculateUsage(id: string, moves: seq<Move>) returns (seconds: Option<nat>)
    requires Run(id, moves).record.Some?
    ensures seconds == Some(Run(id, moves).record.value.outbox.usageTotal)
  {
    RunKeepsInv(id, moves);
    MeterCountsEachSegmentOnce(id, moves);
    var polled := Run(id, moves).polled;
    seconds := CalculateOutputSeconds(Durations(FirstObservations(polled, |polled|)));
  }

  ghost predicate SameMeterAndUsage(a: Record, b: Record)
  {
    a.meter == b.meter && a.outbox.usageTotal == b.outbox.usageTotal
  }

  function AfterPoll(r: Record, segments: seq<Segment>, now: int): Record
  {
    match RecordSegments(r, segments, now) case Saved(r', _) => r' case _ => r
  }

  lemma PollOutcome(r: Record, id: string, segments: seq<Segment>, now: int)
    requires Inv(r, id) && !RecordSegments(r, segments, now).Refused?
    ensures var r' := AfterPoll(r, segments, now);
            && Inv(r', id) && MeterAll(r.meter, segments) == Some(r'.meter)
            && r'.outbox.usageTotal == r'.meter.micros / MICROS_PER_SECOND
  {
    if RecordSegments(r, segments, now).Saved? {
      RecordSegmentsKeepsInv(r, id, segments, now);
    }
  }

  /** The part of an outcome that the comparison below needs. */
  lemma PollMeters(r: Record, id: string, segments: seq<Segment>, now: int)
    requires Inv(r, id) && !RecordSegments(r, segments, now).Refused?
    ensures var r' := AfterPoll(r, segments, now);
            MeterAll(r.meter, segments) == Some(r'.meter) && r'.outbox.usageTotal == r'.meter.micros / MICROS_PER_SECOND
  {
    PollOutcome(r, id, segments, now);
  }

  lemma PollAdmitted(r: Record, segments: seq<Segment>, now: int)
    requires OpaqueId(r.runner) && Open(r) && now != 0
    requires 0 < r.outbox.lastSequence < MAX_U64 && EventIdFits(r.runner, r.outbox.lastSequence + 1)
    requires MeterAll(r.meter, segments).Some?
    ensures !RecordSegments(r, segments, now).Refused?
    ensures var r' := AfterPoll(r, segments, now);
            && Open(r') && r'.runner == r.runner
            && r.outbox.lastSequence <= r'.outbox.lastSequence <= r.outbox.lastSequence + 1
  {
    EventIdIsOpaque(r.runner, r.outbox.lastSequence + 1);
    var e := NextEvent(r, UsageTick, now, Some(MeterAll(r.meter, segments).value.micros / MICROS_PER_SECOND));
    assert e.seqNo == r.outbox.lastSequence + 1 && ValidEvent(e);
  }

  /** Splitting a playlist across two polls meters and claims the same as one poll; and whenever one poll
      succeeds both halves do, given room for the second event. */
  lemma SplitPollsAgree(r: Record, id: string, a: seq<Segment>, b: seq<Segment>, now: int, later: int)
    requires Inv(r, id) && now != 0 && later != 0
    requires !RecordSegments(r, a + b, later).Refused?
    requires r.outbox.lastSequence + 2 <= MAX_U64
    requires EventIdFits(r.runner, r.outbox.lastSequence + 1) && EventIdFits(r.runner, r.outbox.lastSequence + 2)
    ensures !RecordSegments(r, a, now).Refused? && !RecordSegments(AfterPoll(r, a, now), b, later).Refused?
    ensures SameMeterAndUsage(AfterPoll(AfterPoll(r, a, now), b, later), AfterPoll(r, a + b, later))
  {
    HalvesAdmitted(r, id, a, b, now, later);
    SameMeters(r, id, a, b, now, later);
  }

  lemma HalvesAdmitted(r: Record, id: string, a: seq<Segment>, b: seq<Segment>, now: int, later: int)
    requires Inv(r, id) && now != 0 && later != 0
    requires !RecordSegments(r, a + b, later).Refused?
    requires r.outbox.lastSequence + 2 <= MAX_U64
    requires EventIdFits(r.runner, r.outbox.lastSequence + 1) && EventIdFits(r.runner, r.outbox.lastSequence + 2)
    ensures !RecordSegments(r, a, now).Refused? && !RecordSegments(AfterPoll(r, a, now), b, later).Refused?
  {
    var mid := AfterPoll(r, a, now);
    PollNeeds(r, id, a + b, later);
    MeterAllSplit(r.meter, a, b);
    PollAdmitted(r, a, now);
    assert MeterAll(r.meter, a) == Some(mid.meter) by { PollMeters(r, id, a, now); }
    PollAdmitted(mid, b, later);
  }

  lemma PollNeeds(r: Record, id: string, segments: seq<Segment>, now: int)
    requires Inv(r, id) && !RecordSegments(r, segments, now).Refused?
    ensures OpaqueId(r.runner) && Open(r) && 0 < r.outbox.lastSequence && MeterAll(r.meter, segments).Some?
  {
  }

  lemma SameMeters(r: Record, id: string, a: seq<Segment>, b: seq<Segment>, now: int, later: int)
    requires Inv(r, id) && !RecordSegments(r, a, now).Refused? && !RecordSegments(r, a + b, later).Refused?
    requires !RecordSegments(AfterPoll(r, a, now), b, later).Refused?
    ensures SameMeterAndUsage(AfterPoll(AfterPoll(r, a, now), b, later), AfterPoll(r, a + b, later))
  {
    MeterAllSplit(r.meter, a, b);
    PollOutcome(r, id, a, now);
    PollMeters(AfterPoll(r, a, now), id, b, later);
    PollMeters(r, id, a + b, later);
  }

  /** A reread of segments that were all metered before changes nothing. */
  lemma {:induction false} RereadIsFree(m: Meter, again: seq<Segment>)
    requires forall i :: 0 <= i < |again| ==> again[i].uri != "" && again[i].micros > 0 && again[i].uri in m.segments
    ensures MeterAll(m, again) == Some(m)
  {
    if again != [] {
      RereadIsFree(m, again[..|again| - 1]);
    }
  }

  // ----- termination -----

  ghost predicate Carries(s: Sys, s': Sys)
  {
    (s.intent.Some? ==> s'.intent == s.intent) && (s.record.Some? ==> s'.record.Some?)
  }

  lemma NextCarries(id: string, s: Sys, step: Step, persisted: bool)
    requires s.record.None? ==> s == INITIAL
    ensures Carries(s, Next(id, s, step, persisted))
  {
  }

  lemma {:induction false} RunExtends(id: string, moves: seq<Move>, more: seq<Move>)
    ensures Carries(Run(id, moves), Run(id, moves + more))
  {
    if more == [] {
      assert moves + more == moves;
    } else {
      var front, last := more[..|more| - 1], more[|more| - 1];
      RunExtends(id, moves, front);
      RunOneMore(id, moves, more);
      assert Run(id, moves + front).record.None? ==> Run(id, moves + front) == INITIAL by {
        RunKeepsInv(id, moves + front);
      }
      NextCarries(id, Run(id, moves + front), last.step, last.persisted);
    }
  }

  /** Once a termination intent is durable, every continuation of the run either still waits for it or has
      ended with exactly its state and reason; the log then ends with the one terminal event, which claims
      the final meter. */
  lemma FirstIntentWins(id: string, moves: seq<Move>, more: seq<Move>)
    requires Run(id, moves).intent.Some?
    ensures var i := Run(id, moves).intent.value;
            var s := Run(id, moves + more);
            && s.record.Some?
            && var r := s.record.value;
               if r.lifecycle.state == Active then
                 && r.lifecycle.stopping && r.lifecycle.pendingReason == Some(i.reason)
                 && r.lifecycle.pendingState == Some(i.target)
                 && forall k :: 0 <= k < |s.log| ==> s.log[k].state == Active
               else
                 && |s.log| > 0
                 && s.log[|s.log| - 1].state == r.lifecycle.state == i.target
                 && s.log[|s.log| - 1].closeReason == r.lifecycle.closeReason == Some(i.reason)
                 && s.log[|s.log| - 1].usage == Some(r.meter.micros / 1_000_000)
                 && forall k :: 0 <= k < |s.log| - 1 ==> s.log[k].state == Active
  {
    RunKeepsInv(id, moves);
    RunKeepsInv(id, moves + more);
    RunExtends(id, moves, more);
  }

  /** No session ends without a recorded intent. */
  lemma NoTerminalWithoutIntent(id: string, moves: seq<Move>)
    ensures var s := Run(id, moves); s.record.Some? && s.intent.None? ==> Open(s.record.value)
  {
    RunKeepsInv(id, moves);
  }

  /** Committing a finaliser's event, however stale, ends a stopping session exactly when the next sequence
      number exists and its identity fits; on a session that has ended it is told so. */
  lemma FinalizerCommits(id: string, moves: seq<Move>, e: Event)
    requires Run(id, moves).record.Some? && e in Run(id, moves).finalizing
    ensures var r := Run(id, moves).record.value;
            if r.lifecycle.state != Active then Advance(r, e) == Refused(SessionTerminal)
            else Advance(r, e).Saved? <==>
                   r.outbox.lastSequence < MAX_U64 && EventIdFits(r.runner, r.outbox.lastSequence + 1)
  {
    RunKeepsInv(id, moves);
    var r := Run(id, moves).record.value;
    if r.lifecycle.state == Active {
      FinalizeSucceedsIff(r, id, e.at);
    }
  }

  /** A stopping session for which no further event identity exists. */
  ghost predicate Exhausted(s: Sys)
  {
    s.record.Some? && ExhaustedRecord(s.record.value)
  }

  ghost predicate ExhaustedRecord(r: Record)
  {
    && r.lifecycle.state == Active && r.lifecycle.stopping
    && !(r.outbox.lastSequence < MAX_U64 && EventIdFits(r.runner, r.outbox.lastSequence + 1))
  }

  lemma NoCommitWhenExhausted(id: string, s: Sys, r: Record, e: Event)
    requires Inv(r, id) && FinalizersAgree(s, r) && ExhaustedRecord(r) && e in s.finalizing
    ensures !Advance(r, e).Saved?
  {
    FinalizeSucceedsIff(r, id, e.at);
  }

  lemma SaveKeepsExhausted(id: string, s: Sys, r: Record, step: Step)
    requires FinalizersAgree(s, r) && ValidLifecycle(r.lifecycle) && r.outbox.lastSequence <= MAX_U64
    requires ExhaustedRecord(r) && Transform(s, r, step).Saved? && !step.FinalizeCommit?
    ensures ExhaustedRecord(Transform(s, r, step).record)
  {
    TransformMovesLifecycle(s, r, step);
    TransformMovesOutbox(s, r, step);
  }

  lemma SoundBounds(r: Record, id: string)
    requires Inv(r, id)
    ensures ValidLifecycle(r.lifecycle) && r.outbox.lastSequence <= MAX_U64
  {
  }

  lemma NextKeepsExhausted(id: string, s: Sys, step: Step, persisted: bool)
    requires Exhausted(s) && Inv(s.record.value, id) && FinalizersAgree(s, s.record.value)
    ensures Exhausted(Next(id, s, step, persisted))
  {
    var r := s.record.value;
    SoundBounds(r, id);
    if Transform(s, r, step).Saved? {
      if step.FinalizeCommit? {
        NoCommitWhenExhausted(id, s, r, step.event);
      } else {
        SaveKeepsExhausted(id, s, r, step);
      }
    }
  }

  /** It can never be finalised: in every continuation it is still active, stopping and exhausted. */
  lemma {:induction false} ExhaustedNeverEnds(id: string, moves: seq<Move>, more: seq<Move>)
    requires Exhausted(Run(id, moves))
    ensures Exhausted(Run(id, moves + more))
  {
    if more == [] {
      assert moves + more == moves;
    } else {
      var front, last := more[..|more| - 1], more[|more| - 1];
      ExhaustedNeverEnds(id, moves, front);
      RunOneMore(id, moves, more);
      var s := Run(id, moves + front);
      assert Inv(s.record.value, id) && FinalizersAgree(s, s.record.value) by { RunKeepsInv(id, moves + front); }
      NextKeepsExhausted(id, s, last.step, last.persisted);
    }
  }

  // ----- secret erasure -----

  /** Credentials are gone only from a terminal session with a drained outbox, so the delivery error
      "pending runner event has no callback credentials" cannot occur. */
  lemma PendingEventsHaveCredentials(id: string, moves: seq<Move>)
    ensures var s := Run(id, moves);
            s.record.Some? && s.record.value.secrets.None? ==>
              s.record.value.lifecycle.state != Active && s.record.value.outbox.pending == []
  {
    RunKeepsInv(id, moves);
  }

  ghost predicate Erased(s: Sys, log: seq<Event>)
  {
    s.record.Some? && s.record.value.secrets.None? && s.log == log
  }

  lemma SilentStep(id: string, s: Sys, step: Step, persisted: bool, log: seq<Event>)
    requires Erased(s, log) && s.record.value.lifecycle.state != Active && s.record.value.outbox.pending == []
    ensures Erased(Next(id, s, step, persisted), log)
  {
  }

  /** After erasure nothing is ever enqueued again: the log is final and the credentials stay gone. */
  lemma {:induction false} ErasedSessionIsSilent(id: string, moves: seq<Move>, more: seq<Move>, log: seq<Event>)
    requires Erased(Run(id, moves), log)
    ensures Erased(Run(id, moves + more), log)
  {
    if more == [] {
      assert moves + more == moves;
    } else {
      var front, last := more[..|more| - 1], more[|more| - 1];
      ErasedSessionIsSilent(id, moves, front, log);
      RunOneMore(id, moves, more);
      PendingEventsHaveCredentials(id, moves + front);
      SilentStep(id, Run(id, moves + front), last.step, last.persisted, log);
    }
  }
}
