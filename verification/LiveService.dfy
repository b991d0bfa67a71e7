/** The session store as its callers use it: every call on the store object, in whatever order and for however many
    sessions, is one step of the transition system of its session, so all that holds of runs holds of the files
    (live-runner/store.go with its callers in runtime.go, recovery.go, server.go and callback.go). */
module LiveService {
  import opened Text
  import opened LiveContract
  import opened LiveRecord
  import opened LiveOps
  import opened LiveInvariant
  import opened LiveRuns
  import opened LiveStore
  import opened LiveTheorems
  import opened Durable
  import CallbackRetry

  type Histories = map<string, seq<Move>>

  function HistoryOf(moves: Histories, id: string): seq<Move> { if id in moves then moves[id] else [] }

  function FileOf(files: Files, id: string): Option<Record> { if id in files then Some(files[id]) else None }

  ghost predicate Tracked(moves: Histories, files: Files, id: string)
  {
    Run(id, HistoryOf(moves, id)).record == FileOf(files, id)
  }

  /** Every file is the record its session's history leads to, and there is no other file. */
  ghost predicate Tracks(moves: Histories, files: Files) { forall id :: Tracked(moves, files, id) }

  function Extended(moves: Histories, id: string, move: Move): Histories
  {
    moves[id := HistoryOf(moves, id) + [move]]
  }

  ghost predicate TouchesOnly(before: Files, after: Files, id: string)
  {
    forall k :: k != id ==> FileOf(after, k) == FileOf(before, k)
  }

  lemma RunExtended(id: string, moves: seq<Move>, move: Move)
    ensures Run(id, moves + [move]) == Next(id, Run(id, moves), move.step, move.persisted)
  {
    assert (moves + [move])[..|moves|] == moves;
  }

  lemma TracksExtended(moves: Histories, before: Files, after: Files, id: string, move: Move)
    requires Tracks(moves, before) && TouchesOnly(before, after, id)
    requires Next(id, Run(id, HistoryOf(moves, id)), move.step, move.persisted).record == FileOf(after, id)
    ensures Tracks(Extended(moves, id, move), after)
  {
    RunExtended(id, HistoryOf(moves, id), move);
    forall k ensures Tracked(Extended(moves, id, move), after, k) {
      assert Tracked(moves, before, k);
      if k != id {
        assert HistoryOf(Extended(moves, id, move), k) == HistoryOf(moves, k);
      }
    }
  }

  /** A call served through the directory is the step of its session: saved when the file was replaced, and also
      when the confirmation was lost. */
  lemma ServedIsNext<T>(
    id: string, s: Sys, before: Files, after: Files, step: Step, op: Record -> Outcome<T>, save: SaveResult,
        reply: Reply<T>)
    requires SysInv(id, s) && s.record == FileOf(before, id) && Served(before, after, id, op, save, reply)
    requires !step.Create? && (id in before ==> Plain(op(before[id])) == Transform(s, before[id], step))
    ensures TouchesOnly(before, after, id)
    ensures Next(id, s, step, !save.Lost?).record == FileOf(after, id)
  {
    if id in before {
      assert Loadable(before[id], id);
    }
  }

  class Service {
    const store: SessionStore
    ghost var moves: Histories

    ghost predicate Valid()
      reads this, store
    {
      Tracks(moves, store.files)
    }

    constructor (store: SessionStore)
      requires store.files == map[]
      ensures this.store == store && Valid() && moves == map[]
    {
      this.store, moves := store, map[];
    }

    ghost method Log(before: Files, id: string, step: Step, persisted: bool)
      requires Tracks(moves, before) && TouchesOnly(before, store.files, id)
      requires Next(id, Run(id, HistoryOf(moves, id)), step, persisted).record == FileOf(store.files, id)
      modifies this`moves
      ensures Valid() && moves == Extended(old(moves), id, Move(step, persisted))
    {
      TracksExtended(moves, before, store.files, id, Move(step, persisted));
      moves := Extended(moves, id, Move(step, persisted));
    }

    ghost method LogServed<T>(
      before: Files, id: string, step: Step, op: Record -> Outcome<T>, save: SaveResult, reply: Reply<T>)
      requires Tracks(moves, before) && Served(before, store.files, id, op, save, reply) && !step.Create?
      requires id in before ==> Plain(op(before[id])) == Transform(Run(id, HistoryOf(moves, id)), before[id], step)
      modifies this`moves
      ensures Valid() && moves == Extended(old(moves), id, Move(step, !save.Lost?))
    {
      var s := Run(id, HistoryOf(moves, id));
      RunKeepsInv(id, HistoryOf(moves, id));
      assert Tracked(moves, before, id);
      ServedIsNext(id, s, before, store.files, step, op, save, reply);
      Log(before, id, step, !save.Lost?);
    }

    method CreateSession(q: CreateRequest, a: CreateResponse, now: int, save: SaveResult) returns (reply: Reply<Record>)
      requires Valid()
      modifies this`moves, store
      ensures Valid() && moves == Extended(old(moves), q.sessionId, Move(Create(q, a, now), !save.Lost?))
    {
      ghost var before, id := store.files, q.sessionId;
      assert Tracked(moves, before, id);
      reply := store.CreateOrReplay(q, a, now, save);
      Log(before, id, Create(q, a, now), !save.Lost?);
    }

    method IssueKey(id: string, q: KeyRequest, a: KeyResponse, save: SaveResult) returns (reply: Reply<KeyResponse>)
      requires Valid()
      modifies this`moves, store
      ensures Valid() && moves == Extended(old(moves), id, Move(Issue(q, a), !save.Lost?))
    {
      ghost var before := store.files;
      reply := store.RecordKeyIssue(id, q, a, save);
      LogServed(before, id, Issue(q, a), r => LiveOps.IssueKey(r, q, a), save, reply);
    }

    method CompleteKey(id: string, requestId: string, save: SaveResult) returns (reply: Reply<()>)
      requires Valid()
      modifies this`moves, store
      ensures Valid() && moves == Extended(old(moves), id, Move(Complete(requestId), !save.Lost?))
    {
      ghost var before := store.files;
      reply := store.CompleteKeyActivation(id, requestId, save);
      LogServed(before, id, Complete(requestId), r => CompleteActivation(r, requestId), save, reply);
    }

    method RecordPoll(id: string, segments: seq<Segment>, now: int, save: SaveResult) returns (reply: Reply<bool>)
      requires Valid()
      modifies this`moves, store
      ensures Valid() && moves == Extended(old(moves), id, Move(Poll(segments, now), !save.Lost?))
    {
      ghost var before := store.files;
      reply := store.RecordFinalizedSegments(id, segments, now, save);
      LogServed(before, id, Poll(segments, now), r => RecordSegments(r, segments, now), save, reply);
    }

    method RecordBeat(id: string, now: int, interval: int, save: SaveResult) returns (reply: Reply<bool>)
      requires Valid()
      modifies this`moves, store
      ensures Valid() && moves == Extended(old(moves), id, Move(Beat(now, interval), !save.Lost?))
    {
      ghost var before := store.files;
      reply := store.Heartbeat(id, now, interval, save);
      LogServed(before, id, Beat(now, interval), r => RecordHeartbeat(r, now, interval), save, reply);
    }

    method ObserveIngest(id: string, online: bool, now: int, save: SaveResult) returns (reply: Reply<()>)
      requires Valid()
      modifies this`moves, store
      ensures Valid() && moves == Extended(old(moves), id, Move(Presence(online, now), !save.Lost?))
    {
      ghost var before := store.files;
      reply := store.IngestPresence(id, online, now, save);
      LogServed(before, id, Presence(online, now), r => RecordPresence(r, online, now), save, reply);
    }

    method RestartLadder(id: string, code: LadderCode, now: int, window: int, save: SaveResult)
      returns (reply: Reply<nat>)
      requires Valid()
      modifies this`moves, store
      ensures Valid() && moves == Extended(old(moves), id, Move(Restart(code, now, window), !save.Lost?))
    {
      ghost var before := store.files;
      reply := store.LadderRestarted(id, code, now, window, save);
      LogServed(before, id, Restart(code, now, window), r => RecordRestart(r, code, now, window), save, reply);
    }

    method CheckHealth(id: string, now: int, stallAfter: int, failAfter: int, save: SaveResult)
      returns (reply: Reply<Verdict>)
      requires Valid()
      modifies this`moves, store
      ensures Valid() && moves == Extended(old(moves), id, Move(Evaluate(now, stallAfter, failAfter), !save.Lost?))
    {
      ghost var before := store.files;
      reply := store.EvaluateOutputHealth(id, now, stallAfter, failAfter, save);
      LogServed(before, id, Evaluate(now, stallAfter, failAfter), r => EvaluateHealth(r, now, stallAfter, failAfter),
          save, reply);
    }

    method BeginEnd(id: string, reason: CloseReason, target: LiveState, save: SaveResult) returns (reply: Reply<bool>)
      requires Valid()
      modifies this`moves, store
      ensures Valid() && moves == Extended(old(moves), id, Move(Begin(reason, target), !save.Lost?))
    {
      ghost var before := store.files;
      reply := store.BeginTermination(id, reason, target, save);
      LogServed(before, id, Begin(reason, target), r => BeginTerminal(r, reason, target), save, reply);
    }

    method AcknowledgeHead(id: string, eventId: string, save: SaveResult) returns (reply: Reply<()>)
      requires Valid()
      modifies this`moves, store
      ensures Valid() && moves == Extended(old(moves), id, Move(Ack(eventId), !save.Lost?))
    {
      ghost var before := store.files;
      reply := store.AcknowledgeEvent(id, eventId, save);
      LogServed(before, id, Ack(eventId), r => Acknowledge(r, eventId), save, reply);
    }

    method ReserveAttempt(
      id: string, eventId: string, now: int, initial: CallbackRetry.Duration, maximum: CallbackRetry.Duration,
      jitter: nat, save: SaveResult)
      returns (reply: Reply<()>)
      requires Valid() && jitter <= 500
      modifies this`moves, store
      ensures Valid()
      ensures var step := Attempted(eventId, now, initial as int, maximum as int, jitter);
              moves == Extended(old(moves), id, Move(step, !save.Lost?))
    {
      ghost var before := store.files;
      reply := store.ReserveCallbackAttempt(id, eventId, now, initial, maximum, jitter, save);
      LogServed(before, id, Attempted(eventId, now, initial as int, maximum as int, jitter),
          r => Reserve(r, eventId, now, initial as int, maximum as int, jitter), save, reply);
    }

    method NoteRetryFailure(id: string, eventId: string, status: nat, code: string, save: SaveResult)
      returns (reply: Reply<()>)
      requires Valid()
      modifies this`moves, store
      ensures Valid() && moves == Extended(old(moves), id, Move(RetryFailed(eventId, status, code), !save.Lost?))
    {
      ghost var before := store.files;
      reply := store.RecordCallbackRetryFailure(id, eventId, status, code, save);
      LogServed(before, id, RetryFailed(eventId, status, code), r => RecordRetryFailure(r, eventId, status, code),
          save, reply);
    }

    method ParkHead(id: string, eventId: string, status: nat, code: string, now: int, save: SaveResult)
      returns (reply: Reply<()>)
      requires Valid()
      modifies this`moves, store
      ensures Valid() && moves == Extended(old(moves), id, Move(Reject(eventId, status, code, now), !save.Lost?))
    {
      ghost var before := store.files;
      reply := store.ParkCallbackRejection(id, eventId, status, code, now, save);
      LogServed(before, id, Reject(eventId, status, code, now), r => Park(r, eventId, status, code, now), save, reply);
    }

    method EraseSecrets(id: string, save: SaveResult) returns (reply: Reply<()>)
      requires Valid()
      modifies this`moves, store
      ensures Valid() && moves == Extended(old(moves), id, Move(Erase, !save.Lost?))
    {
      ghost var before := store.files;
      reply := store.ClearTerminalSecrets(id, save);
      LogServed(before, id, Erase, ClearSecrets, save, reply);
    }

    /** The only use of Advance besides a finaliser: the first event of a session that has none. */
    method StartSession(id: string, now: int, save: SaveResult) returns (reply: Reply<()>)
      requires Valid()
      modifies this`moves, store
      ensures Valid()
    {
      ghost var before := store.files;
      var loaded := store.Load(id);
      if loaded.None? || loaded.value.outbox.lastSequence > 0 {
        return Error(NotLoadable);
      }
      var event := StartedEvent(loaded.value, now);
      reply := store.Advance(id, event, save);
      LogServed(before, id, Start(now), r => Advance(r, event), save, reply);
    }

    /** The first half of a finaliser: it computes the terminal event from what it loads. */
    method LoadFinal(id: string, now: int) returns (event: Option<Event>)
      requires Valid() && now != 0
      modifies this`moves
      ensures Valid()
      ensures event.Some? ==> event.value in Run(id, HistoryOf(moves, id)).finalizing
    {
      var loaded := store.Load(id);
      if loaded.None? || loaded.value.lifecycle.state != Active || !loaded.value.lifecycle.stopping {
        return None;
      }
      event := Some(TerminalEvent(loaded.value, now));
      assert Tracked(moves, store.files, id);
      RunExtended(id, HistoryOf(moves, id), Move(FinalizeLoad(now), true));
      Log(store.files, id, FinalizeLoad(now), true);
    }

    /** The second half, however much later and whatever happened in between. */
    method CommitFinal(id: string, event: Event, save: SaveResult) returns (reply: Reply<()>)
      requires Valid() && event in Run(id, HistoryOf(moves, id)).finalizing
      modifies this`moves, store
      ensures Valid() && moves == Extended(old(moves), id, Move(FinalizeCommit(event), !save.Lost?))
    {
      ghost var before := store.files;
      reply := store.Advance(id, event, save);
      LogServed(before, id, FinalizeCommit(event), r => Advance(r, event), save, reply);
    }

    /** A crash of the process: the files stay, the finalisers under way are gone. */
    ghost method CrashProcess(id: string)
      requires Valid()
      modifies this`moves
      ensures Valid() && moves == Extended(old(moves), id, Move(Crash, true))
    {
      assert Tracked(moves, store.files, id);
      Log(store.files, id, Crash, true);
    }
  }

  // ----- what the run theorems say about the files -----

  /** After any sequence of calls, whatever became of their saves, every file loads and keeps the whole invariant. */
  lemma EveryFileLoads(service: Service, id: string)
    requires service.Valid() && id in service.store.files
    ensures Inv(service.store.files[id], id) && Loadable(service.store.files[id], id)
  {
    assert Tracked(service.moves, service.store.files, id);
    RunKeepsInv(id, HistoryOf(service.moves, id));
  }

  /** After any sequence of calls, a file's pending events are the unsettled end of all events of its session, and
      its usage is that of each segment counted once. */
  lemma FilesAccountForEverything(service: Service, id: string)
    requires service.Valid() && id in service.store.files
    ensures var s, r := Run(id, HistoryOf(service.moves, id)), service.store.files[id];
            && s.log == EventsOf(s.settled) + r.outbox.pending && |s.log| == r.outbox.lastSequence
            && var first := FirstObservations(s.polled, |s.polled|);
               r.meter == Meter(Sum(Durations(first)), Uris(first))
                   && r.outbox.usageTotal == Sum(Durations(first)) / 1_000_000
  {
    assert Tracked(service.moves, service.store.files, id);
    OutboxConserved(id, HistoryOf(service.moves, id));
    MeterCountsEachSegmentOnce(id, HistoryOf(service.moves, id));
  }
}
