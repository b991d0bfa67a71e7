/** The broker's terminate request against sessions that may fail on their own at the same time
    (handleTerminateV1 in live-runner/server.go, CompleteLiveTerminationV1 in live-runner/recovery.go). */
module LiveTermination {
  import opened Text
  import opened LiveContract
  import opened LiveRecord
  import opened LiveOps
  import opened LiveInvariant
  import opened LiveRuns

  datatype Answer =
    | BadRequest
    | NoSession
    | Unavailable
    | Terminated(state: LiveState, reason: Option<CloseReason>)

  /** The record BeginTermination hands back: the one it saved, or the one it found. */
  function Begun(r: Record, reason: CloseReason): Option<Record>
  {
    match BeginTerminal(r, reason, Ended)
    case Saved(r', _) => Some(r')
    case Kept(_) => Some(r)
    case Refused(_) => None
  }

  /** CompleteLiveTerminationV1 refuses a record that is not stopping before it touches the media. */
  predicate CompletionAdmits(r: Record)
  {
    && r.lifecycle.state == Active && r.lifecycle.stopping
    && r.lifecycle.pendingReason.Some? && ValidCloseReason(r.lifecycle.pendingReason.value)
  }

  /** The handler's answer, given the record it loads first, the record BeginTermination finds, whether the
      media teardown succeeds, and the record the finaliser reads back at the end. */
  function HandleTerminate(
    loaded: Option<Record>, atBegin: Record, reason: CloseReason, tornDown: bool, final: Record): Answer
  {
    if !ValidCloseReason(reason) then BadRequest
    else if loaded.None? then NoSession
    else if loaded.value.lifecycle.state != Active
    then Terminated(loaded.value.lifecycle.state, loaded.value.lifecycle.closeReason)
    else
      var begun := Begun(atBegin, reason);
      if begun.None? || !CompletionAdmits(begun.value) || !tornDown then Unavailable
      else Terminated(final.lifecycle.state, final.lifecycle.closeReason)
  }

  ghost function RecordAt(id: string, moves: seq<Move>): Record
    requires Run(id, moves).record.Some?
  {
    Run(id, moves).record.value
  }

  /** A terminate request that finds its session active reaches the media teardown exactly when the session
      is still active at BeginTermination: one overtaken by another finaliser is answered "unavailable",
      although the contract promises that repeated termination succeeds. */
  lemma TeardownReachedIff(id: string, moves: seq<Move>, reason: CloseReason)
    requires Run(id, moves).record.Some? && ValidCloseReason(reason)
    ensures var begun := Begun(RecordAt(id, moves), reason);
            begun.Some? && (CompletionAdmits(begun.value) <==> RecordAt(id, moves).lifecycle.state == Active)
  {
    RunKeepsInv(id, moves);
    assert ValidLifecycle(RecordAt(id, moves).lifecycle);
  }

  /** Such overtaking happens in every run where a finaliser commits between the handler's load and its
      BeginTermination, and the answer then does not depend on the teardown. */
  lemma TerminateOvertaken(id: string, moves: seq<Move>, e: Event, reason: CloseReason, tornDown: bool)
    requires Run(id, moves).record.Some? && ValidCloseReason(reason)
    requires RecordAt(id, moves).lifecycle.state == Active
    requires e in Run(id, moves).finalizing && Advance(RecordAt(id, moves), e).Saved?
    ensures var after := moves + [Move(FinalizeCommit(e), true)];
            && Run(id, after).record.Some? && RecordAt(id, after).lifecycle.state != Active
            && HandleTerminate(Some(RecordAt(id, moves)), RecordAt(id, after), reason, tornDown, RecordAt(id, after))
               == Unavailable
  {
    var after := moves + [Move(FinalizeCommit(e), true)];
    CommitEnds(id, moves, e);
    TeardownReachedIff(id, after, reason);
  }

  lemma CommitEnds(id: string, moves: seq<Move>, e: Event)
    requires Run(id, moves).record.Some? && e in Run(id, moves).finalizing && Advance(RecordAt(id, moves), e).Saved?
    ensures var after := moves + [Move(FinalizeCommit(e), true)];
            Run(id, after).record.Some? && RecordAt(id, after).lifecycle.state != Active
  {
    var s, r := Run(id, moves), RecordAt(id, moves);
    RunFrom(id, moves, Move(FinalizeCommit(e), true));
    assert FinalizersAgree(s, r) && ValidLifecycle(r.lifecycle) by { RunKeepsInv(id, moves); }
    CommitNext(id, s, r, e);
  }

  lemma CommitNext(id: string, s: Sys, r: Record, e: Event)
    requires s.record == Some(r) && FinalizersAgree(s, r) && ValidLifecycle(r.lifecycle)
    requires e in s.finalizing && Advance(r, e).Saved?
    ensures var s' := Next(id, s, FinalizeCommit(e), true);
            s'.record.Some? && s'.record.value.lifecycle.state != Active
  {
    TransformMovesLifecycle(s, r, FinalizeCommit(e));
  }

  lemma RunFrom(id: string, moves: seq<Move>, move: Move)
    ensures Run(id, moves + [move]) == Next(id, Run(id, moves), move.step, move.persisted)
  {
    assert (moves + [move])[..|moves|] == moves;
  }

  lemma CreatedNext(q: CreateRequest, a: CreateResponse, now: int)
    requires ValidCreateRequest(q) && ValidCreateResponse(a)
    ensures Next(q.sessionId, INITIAL, Create(q, a, now), true) == INITIAL.(record := Some(FreshRecord(q, a, now)))
  {
  }

  lemma BegunNext(id: string, s: Sys, own: CloseReason)
    requires s.record.Some? && Open(s.record.value) && ValidCloseReason(own)
    ensures var s' := Next(id, s, Begin(own, Failed), true);
            && s'.record.Some? && s'.record.value.runner == s.record.value.runner
            && s'.record.value.outbox == s.record.value.outbox
            && s'.record.value.lifecycle.state == Active && s'.record.value.lifecycle.stopping
  {
  }

  lemma LoadedNext(id: string, s: Sys, now: int)
    requires s.record.Some? && s.record.value.lifecycle.state == Active && s.record.value.lifecycle.stopping && now != 0
    ensures var s' := Next(id, s, FinalizeLoad(now), true);
            s'.record == s.record && TerminalEvent(s.record.value, now) in s'.finalizing
  {
  }

  /** A session that was just created and has failed on its own, with its finaliser about to commit. */
  lemma OvertakingReached(q: CreateRequest, a: CreateResponse, own: CloseReason, now: int)
    returns (moves: seq<Move>, e: Event)
    requires ValidCreateRequest(q) && ValidCreateResponse(a) && |a.runnerSessionId| <= 107
    requires ValidCloseReason(own) && now != 0
    ensures Run(q.sessionId, moves).record.Some? && RecordAt(q.sessionId, moves).lifecycle.state == Active
    ensures e in Run(q.sessionId, moves).finalizing && Advance(RecordAt(q.sessionId, moves), e).Saved?
  {
    var id := q.sessionId;
    var m1, m2, m3 := Move(Create(q, a, now), true), Move(Begin(own, Failed), true), Move(FinalizeLoad(now), true);
    var moves1, moves2 := [] + [m1], [] + [m1] + [m2];
    moves := moves2 + [m3];
    RunFrom(id, [], m1);
    CreatedNext(q, a, now);
    RunFrom(id, moves1, m2);
    BegunNext(id, Run(id, moves1), own);
    RunFrom(id, moves2, m3);
    LoadedNext(id, Run(id, moves2), now);
    var r := RecordAt(id, moves);
    e := TerminalEvent(r, now);
    ShortRunnerIdsAlwaysFit(r.runner, 1);
    assert Inv(r, id) by { RunKeepsInv(id, moves); }
    FinalizeSucceedsIff(r, id, now);
  }

  /** Such a session is lost to a terminate request that was already under way. */
  lemma OvertakenSessionExists(q: CreateRequest, a: CreateResponse, own: CloseReason, reason: CloseReason, now: int)
    returns (moves: seq<Move>, after: seq<Move>)
    requires ValidCreateRequest(q) && ValidCreateResponse(a) && |a.runnerSessionId| <= 107
    requires ValidCloseReason(own) && ValidCloseReason(reason) && now != 0
    ensures Run(q.sessionId, moves).record.Some? && Run(q.sessionId, after).record.Some? && moves < after
    ensures RecordAt(q.sessionId, moves).lifecycle.state == Active
            && RecordAt(q.sessionId, after).lifecycle.state != Active
    ensures HandleTerminate(
              Some(RecordAt(q.sessionId, moves)), RecordAt(q.sessionId, after), reason, true,
                  RecordAt(q.sessionId, after))
            == Unavailable
  {
    var e;
    moves, e := OvertakingReached(q, a, own, now);
    after := moves + [Move(FinalizeCommit(e), true)];
    TerminateOvertaken(q.sessionId, moves, e, reason, true);
  }

  /** A request that gets through is answered with the end its session came to: the state and reason of the first
      durable intent, its own or another's. */
  lemma TerminateReportsEnd(id: string, moves: seq<Move>, more: seq<Move>, reason: CloseReason)
    requires Run(id, moves).record.Some? && ValidCloseReason(reason) && RecordAt(id, moves).lifecycle.state == Active
    requires Run(id, moves + more).record.Some? && RecordAt(id, moves + more).lifecycle.state != Active
    ensures Run(id, moves + more).intent.Some?
    ensures var i := Run(id, moves + more).intent.value;
            HandleTerminate(Some(RecordAt(id, moves)), RecordAt(id, moves), reason, true, RecordAt(id, moves + more))
            == Terminated(i.target, Some(i.reason))
  {
    TeardownReachedIff(id, moves, reason);
    RunKeepsInv(id, moves + more);
  }

  /** A retry after that is answered with the state and reason of the intent that won. */
  lemma RetriedTerminateReports(id: string, moves: seq<Move>, reason: CloseReason, atBegin: Record, final: Record)
    requires Run(id, moves).record.Some? && ValidCloseReason(reason)
    requires RecordAt(id, moves).lifecycle.state != Active
    ensures Run(id, moves).intent.Some?
    ensures var i := Run(id, moves).intent.value;
            HandleTerminate(Some(RecordAt(id, moves)), atBegin, reason, true, final)
            == Terminated(i.target, Some(i.reason))
  {
    RunKeepsInv(id, moves);
  }

  /** The broker's own request ends an open session, it does not fail it: the intent it leaves, and the event that
      carries it out, say "ended" and its reason. */
  lemma RequestEndsSession(r: Record, reason: CloseReason, now: int)
    requires Open(r) && ValidCloseReason(reason)
    ensures Begun(r, reason).Some?
    ensures var e := TerminalEvent(Begun(r, reason).value, now);
            e.kind == SessionEnded && e.state == Ended && e.closeReason == Some(reason)
  {
  }
}
