/** The repository's methods as they change the database statement by statement; a transaction works on its own
    copy and either commits all of it or none (transcode-gateway/src/repo/paidOperations.ts). */
module GatewayRepo {
  import opened Text
  import opened Gateway
  import opened GatewayRuns

  /** A call as its caller sees it: it took effect exactly when it reported success, and a refusal, a database
      fault or a rolled-back transaction left every table as it was. */
  ghost predicate Served(before: Db, after: Db, call: Call, clock: int, fault: bool, ok: bool)
  {
    match Apply(before, call, clock)
    case None => !ok && after == before
    case Some(db) => if fault then !ok && after == before else ok && after == db
  }

  /** The rows a query may return: those that match and that no other transaction has locked. */
  ghost predicate Matching(rows: map<string, Row>, locked: set<string>, eligible: Row -> bool, id: string)
  {
    id in rows && id !in locked && eligible(rows[id])
  }

  /** On the columns: an open operation of the kind that is due and whose lease, if any, has run out. */
  predicate Abandoned(row: Row, kind: Kind, now: int)
  {
    && row.kind == kind && row.terminalAt == None
    && (row.nextRetryAt == None || row.nextRetryAt.value <= now)
    && (row.lease == None || row.lease.value <= now)
  }

  /** On the columns: an open session of the stream that is the owner's own, or whose lease has run out. */
  predicate Takeable(row: Row, stream: string, owner: string, now: int)
  {
    && row.kind == Session && row.liveStreamId == Some(stream) && row.terminalAt == None
    && (row.owner == Some(owner) || row.lease == None || row.lease.value <= now)
  }

  ghost predicate MissesNone(db: Db, kind: Kind, now: int, locked: set<string>, ids: set<string>)
  {
    forall id :: id in db.rows && id !in locked && Abandoned(db.rows[id], kind, now) ==> id in ids
  }

  /** SELECT id ... LIMIT: stops only when the limit is reached or nothing is left. */
  method SelectUpTo(rows: map<string, Row>, locked: set<string>, eligible: Row -> bool, limit: nat)
    returns (ids: set<string>)
    ensures |ids| <= limit
    ensures forall id :: id in ids ==> Matching(rows, locked, eligible, id)
    ensures |ids| < limit ==> forall id :: Matching(rows, locked, eligible, id) ==> id in ids
  {
    ids := {};
    var left := rows.Keys;
    while left != {} && |ids| < limit
      invariant left <= rows.Keys && |ids| <= limit && ids !! left
      invariant forall id :: id in ids ==> Matching(rows, locked, eligible, id)
      invariant forall id :: Matching(rows, locked, eligible, id) && id !in left ==> id in ids
      decreases left
    {
      var id :| id in left;
      left := left - {id};
      if id !in locked && eligible(rows[id]) {
        ids := ids + {id};
      }
    }
  }

  /** SELECT id ... ORDER BY rotation_generation DESC LIMIT 1. */
  method SelectLatest(rows: map<string, Row>, locked: set<string>, eligible: Row -> bool) returns (best: Option<string>)
    ensures best.None? <==> forall id :: !Matching(rows, locked, eligible, id)
    ensures best.Some? ==> Matching(rows, locked, eligible, best.value)
                           && forall id :: Matching(rows, locked, eligible, id) ==>
                               rows[id].generation <= rows[best.value].generation
  {
    best := None;
    var left := rows.Keys;
    while left != {}
      invariant left <= rows.Keys
      invariant best.None? ==> forall id :: Matching(rows, locked, eligible, id) ==> id in left
      invariant best.Some? ==> Matching(rows, locked, eligible, best.value)
      invariant best.Some? ==> forall id :: Matching(rows, locked, eligible, id) && id !in left ==>
                  rows[id].generation <= rows[best.value].generation
      decreases left
    {
      var id :| id in left;
      left := left - {id};
      if id !in locked && eligible(rows[id]) && (best.None? || rows[best.value].generation < rows[id].generation) {
        best := Some(id);
      }
    }
  }

  ghost predicate Listed(outputs: seq<Output>, id: string)
  {
    exists i :: 0 <= i < |outputs| && outputs[i].renditionId == id
  }

  lemma ListedMore(outputs: seq<Output>, o: Output, id: string)
    ensures Listed(outputs + [o], id) <==> Listed(outputs, id) || o.renditionId == id
  {
    var all := outputs + [o];
    assert all[|outputs|] == o;
    assert forall i :: 0 <= i < |outputs| ==> all[i] == outputs[i];
  }

  /** Where the listed renditions stand after the updates. */
  lemma {:induction false} CompletedSoFar(
    renditions: map<string, RenditionRow>, outputs: seq<Output>, at: int, id: string)
    ensures CompleteAll(renditions, outputs, at).Keys == renditions.Keys
    ensures id in renditions ==>
              var r := CompleteAll(renditions, outputs, at)[id];
              r.assetId == renditions[id].assetId
                  && r.status == (if Listed(outputs, id) then "completed" else renditions[id].status)
  {
    if outputs != [] {
      var front, o := outputs[..|outputs| - 1], outputs[|outputs| - 1];
      CompletedSoFar(renditions, front, at, id);
      assert outputs == front + [o];
      ListedMore(front, o, id);
    }
  }

  lemma FitMore(renditions: map<string, RenditionRow>, assetId: string, outputs: seq<Output>, o: Output)
    requires OutputsFit(renditions, assetId, outputs)
    ensures OutputsFit(renditions, assetId, outputs + [o]) <==>
              o.renditionId in renditions && Unfinished(renditions[o.renditionId], assetId)
                  && !Listed(outputs, o.renditionId)
  {
    var all := outputs + [o];
    assert all[|outputs|] == o;
    assert forall i :: 0 <= i < |outputs| ==> all[i] == outputs[i];
    if Listed(outputs, o.renditionId) {
      var i :| 0 <= i < |outputs| && outputs[i].renditionId == o.renditionId;
      assert all[i].renditionId == all[|outputs|].renditionId;
    }
  }

  /** Completing renditions one by one fits exactly when every one of them is unfinished and none repeats. */
  lemma NextOutputFits(renditions: map<string, RenditionRow>, assetId: string, outputs: seq<Output>, at: int, o: Output)
    requires OutputsFit(renditions, assetId, outputs)
    ensures var done, id := CompleteAll(renditions, outputs, at), o.renditionId;
            (id in done && Unfinished(done[id], assetId)) <==> OutputsFit(renditions, assetId, outputs + [o])
  {
    CompletedSoFar(renditions, outputs, at, o.renditionId);
    FitMore(renditions, assetId, outputs, o);
    assert "completed"[0] == 'c' && "queued"[0] == 'q' && "running"[0] == 'r';
  }

  // ----- what a write does to a row, for its caller -----

  /** Only this operation's row and its secrets may differ. */
  ghost predicate OneRow(before: Db, after: Db, id: string)
  {
    && id in before.rows && id in after.rows
    && after == before.(rows := before.rows[id := after.rows[id]], secrets := after.secrets)
  }

  /** The old token is spent and the new one is the row's. */
  ghost predicate Traded(before: Db, after: Db, id: string, spent: Claim, next: Claim)
  {
    OneRow(before, after, id) && Held(before, id, spent) && Held(after, id, next) && !Held(after, id, spent)
  }

  /** All but owner, lease and version. */
  predicate SameWork(r: Row, r': Row) { r'.(version := r.version, owner := r.owner, lease := r.lease) == r }

  /** What no progress may change. */
  predicate SameIdentity(r: Row, r': Row)
  {
    && r'.kind == r.kind && r'.assetId == r.assetId && r'.liveStreamId == r.liveStreamId
    && r'.evidence == r.evidence && r'.terminalAt.None? && r.terminalAt.None?
  }

  predicate Given<T(==)>(v: Option<T>, was: Option<T>, now: Option<T>) { if v.Some? then now == v else now == was }

  /** Columns that were given are as given; of the rest only the error code and the retry time are cleared. */
  predicate Reported(r: Row, r': Row, p: Progress)
  {
    && r'.status == p.status && r'.errorCode == p.errorCode && r'.nextRetryAt == p.nextRetryAt
    && Given(p.retryCount, Some(r.retryCount), Some(r'.retryCount))
    && Given(p.generation, Some(r.generation), Some(r'.generation))
    && Given(p.requestId, Some(r.requestId), Some(r'.requestId))
    && Given(p.settlement, Some(r.settlement), Some(r'.settlement))
    && Given(p.locOperationId, r.locOperationId, r'.locOperationId)
    && Given(p.brokerJobId, r.brokerJobId, r'.brokerJobId)
    && Given(p.brokerSessionId, r.brokerSessionId, r'.brokerSessionId)
    && Given(p.claimedUnits, r.claimedUnits, r'.claimedUnits) && Given(p.runtime, r.runtime, r'.runtime)
  }

  predicate RowEnded(r: Row, r': Row, v: Settlement)
  {
    && r'.terminalAt == Some(v.terminalAt) && r'.evidence == Some(v.evidence) && r'.status == "settled"
    && r'.claimedUnits == Some(v.claimedUnits) && r'.settlement == v.settlement
    && r'.owner.None? && r'.lease.None? && r'.nextRetryAt.None? && r'.errorCode.None? && r'.version == r.version + 1
    && r'.kind == r.kind && r'.assetId == r.assetId && r'.liveStreamId == r.liveStreamId
  }

  /** This operation has ended, for everyone, with its settlement;
      exactly its secrets are gone and no other row moved. */
  ghost predicate EndedFor(before: Db, after: Db, id: string, v: Settlement)
  {
    && id in before.rows && id in after.rows && before.rows[id].terminalAt.None?
    && (forall k :: k in before.rows && k != id ==> k in after.rows && after.rows[k] == before.rows[k])
    && after.rows.Keys == before.rows.Keys
    && RowEnded(before.rows[id], after.rows[id], v)
    && id !in after.secrets
    && (forall k :: k in before.secrets && k != id ==> k in after.secrets && after.secrets[k] == before.secrets[k])
    && (forall k :: k in after.secrets ==> k in before.secrets)
  }

  /** The stream was open and is ended now, no playback id of it is left, and all other streams and playbacks are as
      they were. */
  ghost predicate StreamEnded(before: Db, after: Db, stream: string, at: int)
  {
    && stream in before.streams && before.streams[stream].endedAt.None?
    && stream in after.streams && after.streams[stream] == Stream("ended", Some(at), Some(at))
    && after.streams.Keys == before.streams.Keys
    && (forall k :: k in before.streams && k != stream ==> k in after.streams && after.streams[k] == before.streams[k])
    && (forall p :: p in after.playbacks ==> after.playbacks[p].liveStreamId != Some(stream))
    && (forall p :: p in before.playbacks && before.playbacks[p].liveStreamId != Some(stream) ==>
          p in after.playbacks && after.playbacks[p] == before.playbacks[p])
    && (forall p :: p in after.playbacks ==> p in before.playbacks)
  }

  predicate NamedAfter(r: Row, v: VodTerminal)
  {
    && r.locOperationId == Some(v.locOperationId) && r.brokerJobId == Some(v.brokerJobId)
    && r.requestId == v.brokerRequestId
  }

  /** The outputs of an asset are published: each named rendition was unfinished and is complete as delivered, all
      others are as they were; the job and the asset are done; the asset can be played, by a new id only if it had
      none. */
  ghost predicate Published(before: Db, after: Db, v: VodTerminal)
  {
    var at := Some(v.settled.terminalAt);
    && after.renditions.Keys == before.renditions.Keys
    && (forall i :: 0 <= i < |v.outputs| ==> OutputPublished(before, after, v, v.outputs[i]))
    && (forall k :: k in before.renditions && !Listed(v.outputs, k) ==> after.renditions[k] == before.renditions[k])
    && v.encodingJobId in before.jobs && before.jobs[v.encodingJobId].assetId == v.assetId
    && after.jobs == before.jobs[v.encodingJobId := JobRow(v.assetId, "completed", at)]
    && v.assetId in before.assets && after.assets == before.assets[v.assetId := AssetRow("ready", at)]
    && HasPlayback(after, v.assetId)
    && (if HasPlayback(before, v.assetId) then after.playbacks == before.playbacks
        else v.playbackId !in before.playbacks
             && after.playbacks == before.playbacks[v.playbackId := Playback(Some(v.assetId), None)])
  }

  ghost predicate OutputPublished(before: Db, after: Db, v: VodTerminal, o: Output)
  {
    && o.renditionId in before.renditions && o.renditionId in after.renditions
    && before.renditions[o.renditionId].assetId == v.assetId
    && before.renditions[o.renditionId].status in {"queued", "running"}
    && after.renditions[o.renditionId]
       == RenditionRow(v.assetId, "completed", o.storageKey, Some(o.seconds), Some(v.settled.terminalAt))
  }

  /** After the updates every listed rendition is complete as its output says, and the others are untouched. */
  lemma {:induction false} CompletedExactly(
    renditions: map<string, RenditionRow>, assetId: string, outputs: seq<Output>, at: int)
    requires OutputsFit(renditions, assetId, outputs)
    ensures var done := CompleteAll(renditions, outputs, at);
            && done.Keys == renditions.Keys
            && (forall i :: 0 <= i < |outputs| ==>
                  done[outputs[i].renditionId]
                  == RenditionRow(assetId, "completed", outputs[i].storageKey, Some(outputs[i].seconds), Some(at)))
            && (forall k :: k in renditions && !Listed(outputs, k) ==> done[k] == renditions[k])
  {
    if outputs != [] {
      var n := |outputs| - 1;
      var front, o := outputs[..n], outputs[n];
      assert outputs == front + [o];
      CompletedExactly(renditions, assetId, front, at);
      forall k ensures Listed(outputs, k) <==> Listed(front, k) || o.renditionId == k {
        ListedMore(front, o, k);
      }
      assert !Listed(front, o.renditionId) by {
        FitMore(renditions, assetId, front, o);
      }
      forall i | 0 <= i < n ensures outputs[i].renditionId != o.renditionId {
        assert outputs[i] == front[i];
      }
    }
  }

  lemma VodPublishes(before: Db, after: Db, id: string, c: Claim, v: VodTerminal, clock: int)
    requires EndVod(before, id, c, v, clock) == Some(after)
    ensures Published(before, after, v)
  {
    CompletedExactly(before.renditions, v.assetId, v.outputs, v.settled.terminalAt);
    if !HasPlayback(before, v.assetId) {
      assert v.playbackId in after.playbacks && after.playbacks[v.playbackId].assetId == Some(v.assetId);
    }
  }

  lemma RunGrows(events: seq<Event>, dbs: seq<Db>, e: Event, next: Db)
    requires Run(events, dbs) && Next(dbs[|events|], e, next)
    ensures Run(events + [e], dbs + [next]) && (dbs + [next])[|events| + 1] == next
  {
    var more, all := events + [e], dbs + [next];
    forall i | 0 <= i < |more| ensures StepAt(more, all, i) {
      if i < |events| {
        assert StepAt(events, dbs, i);
        assert all[i] == dbs[i] && more[i] == events[i] && all[i + 1] == dbs[i + 1];
      }
    }
  }

  /** The repository. Its history is ghost: every method call is one event of a run, so whatever holds of all runs
      holds after any sequence of calls. */
  class PaidOperationRepo {
    var db: Db
    ghost var events: seq<Event>
    ghost var dbs: seq<Db>

    ghost predicate Valid()
      reads this
    {
      Run(events, dbs) && dbs[|events|] == db
    }

    constructor (db: Db)
      requires db.rows == map[] && db.secrets == map[]
      ensures Valid() && this.db == db && events == []
    {
      this.db, events, dbs := db, [], [db];
    }

    /** The call just made is the next event. */
    ghost predicate Logged(before: seq<Event>, call: Call, clock: int, ok: bool)
      reads this
    {
      events == before + [if ok then Did(call, clock) else Declined(call)]
    }

    method Commit(ghost call: Call, ghost clock: int, next: Db)
      requires Valid() && Apply(db, call, clock) == Some(next)
      modifies this
      ensures Valid() && db == next && Logged(old(events), call, clock, true)
    {
      RunGrows(events, dbs, Did(call, clock), next);
      db, events, dbs := next, events + [Did(call, clock)], dbs + [next];
    }

    ghost method Decline(call: Call)
      requires Valid()
      modifies this`events, this`dbs
      ensures Valid() && Logged(old(events), call, 0, false)
    {
      RunGrows(events, dbs, Declined(call), db);
      events, dbs := events + [Declined(call)], dbs + [db];
    }

    /** Other parts of the gateway change the other tables. */
    method ChangeElsewhere(next: Db)
      requires Valid() && next.rows == db.rows && next.secrets == db.secrets
      modifies this
      ensures Valid() && db == next && events == old(events) + [Elsewhere]
    {
      RunGrows(events, dbs, Elsewhere, next);
      db, events, dbs := next, events + [Elsewhere], dbs + [next];
    }

    // ----- claims -----

    method ClaimRows(kind: Kind, owner: string, now: int, lease: int, limit: nat, locked: set<string>, fault: bool)
      returns (ids: set<string>)
      requires Valid()
      modifies this
      ensures Valid()
      ensures fault || !ValidOwner(owner) || !(1 <= limit <= 1000) || lease <= now ==> ids == {} && db == old(db)
      ensures !fault && ValidOwner(owner) && 1 <= limit <= 1000 && now < lease ==>
                && Logged(old(events), ClaimRecoverable(kind, owner, now, lease, limit, ids), now, true)
                && (|ids| < limit ==> MissesNone(old(db), kind, now, locked, ids))
      ensures forall id :: id in ids ==>
                id in old(db).rows && Abandoned(old(db).rows[id], kind, now)
                && Held(db, id, Claim(owner, old(db).rows[id].version + 1, lease))
    {
      if !ValidOwner(owner) || !(1 <= limit <= 1000) || lease <= now || fault {
        return {};
      }
      var eligible := (row: Row) => Recoverable(row, kind, now);
      ids := SelectUpTo(db.rows, locked, eligible, limit);
      assert forall id :: id in ids ==> Matching(db.rows, locked, eligible, id);
      assert forall id :: id in db.rows && id !in locked && Recoverable(db.rows[id], kind, now) ==>
          Matching(db.rows, locked, eligible, id);
      Commit(ClaimRecoverable(kind, owner, now, lease, limit, ids), now,
             db.(rows := TakeAll(db.rows, ids, owner, lease)));
    }

    method ClaimSessionByStream(stream: string, owner: string, now: int, lease: int, locked: set<string>, fault: bool)
      returns (id: Option<string>)
      requires Valid()
      modifies this
      ensures Valid()
      ensures id.None? ==> db == old(db)
      ensures id.Some? ==> Logged(old(events), ClaimSession(stream, owner, now, lease, id.value), now, true)
      ensures id.Some? ==> id.value in old(db).rows && Takeable(old(db).rows[id.value], stream, owner, now)
                           && Held(db, id.value, Claim(owner, old(db).rows[id.value].version + 1, lease))
      ensures id.Some? ==>
              forall k :: k in old(db).rows && k !in locked && Takeable(old(db).rows[k], stream, owner, now) ==>
                             old(db).rows[k].generation <= old(db).rows[id.value].generation
      ensures !fault && ValidOwner(owner) && stream != "" && now < lease && id.None? ==>
                forall k :: k in db.rows && k !in locked ==> !Takeable(db.rows[k], stream, owner, now)
    {
      if !ValidOwner(owner) || stream == "" || lease <= now || fault {
        return None;
      }
      var eligible := (row: Row) => Claimable(row, stream, owner, now);
      id := SelectLatest(db.rows, locked, eligible);
      assert forall k :: k in db.rows && k !in locked && Claimable(db.rows[k], stream, owner, now) ==>
          Matching(db.rows, locked, eligible, k);
      if id.Some? {
        Commit(ClaimSession(stream, owner, now, lease, id.value), now,
               Set(db, id.value, TakenBy(db.rows[id.value], owner, lease)));
      }
    }

    /** Unlike the claims, the wind-down waits for locked rows: it misses no open session. */
    method RequestWinddown(stream: string, reason: string, fault: bool) returns (id: Option<string>)
      requires Valid()
      modifies this
      ensures Valid()
      ensures id.None? ==> db == old(db)
      ensures id.Some? ==> Logged(old(events), Winddown(stream, reason, id.value), 0, true)
      ensures id.Some? ==> id.value in db.rows && forall c :: !Held(db, id.value, c)
      ensures id.Some? ==> OneRow(old(db), db, id.value) && db.secrets == old(db).secrets
      ensures id.Some? ==> var r, r' := old(db).rows[id.value], db.rows[id.value];
                           && r.kind == Session && r.liveStreamId == Some(stream) && SameIdentity(r, r')
                           && r'.status == "winddown_requested" && r'.version == r.version + 1
                           && (r.runtime.Some? ==> r'.runtime == Some(Runtime(r.runtime.value.state, Some(reason))))
                           && (r.runtime.None? ==> r'.runtime.None?)
      ensures id.Some? ==> forall k :: k in old(db).rows && OpenSession(old(db).rows[k], stream) ==>
                             id.value in old(db).rows
                             && old(db).rows[k].generation <= old(db).rows[id.value].generation
      ensures !fault && stream != "" && ValidReason(reason) && id.None? ==>
                forall k :: k in db.rows ==> !OpenSession(db.rows[k], stream)
    {
      if stream == "" || !ValidReason(reason) || fault {
        return None;
      }
      var eligible := (row: Row) => OpenSession(row, stream);
      id := SelectLatest(db.rows, {}, eligible);
      assert forall k :: k in db.rows && OpenSession(db.rows[k], stream) ==> Matching(db.rows, {}, eligible, k);
      if id.Some? {
        Commit(Winddown(stream, reason, id.value), 0, Set(db, id.value, WoundDown(db.rows[id.value], reason)));
      }
    }

    method InsertOperation(id: string, value: NewOperation, secret: string, owner: string, lease: int, fault: bool)
      returns (ok: bool)
      requires Valid()
      modifies this
      ensures Valid() && Logged(old(events), InsertWithSecrets(id, value, secret, owner, lease), 0, ok)
      ensures Served(old(db), db, InsertWithSecrets(id, value, secret, owner, lease), 0, fault, ok)
      ensures ok ==> Held(db, id, Claim(owner, 1, lease)) && id !in old(db).rows
      ensures ok ==> id in db.secrets && db.secrets[id] == secret
      ensures ok ==> var r := db.rows[id];
                     && r.kind == value.kind && r.assetId == value.assetId && r.liveStreamId == value.liveStreamId
                     && r.requestId == value.requestId && r.generation == value.generation
                     && r.status == value.status && r.runtime == value.runtime
                     && r.terminalAt.None? && r.evidence.None? && r.nextRetryAt.None? && r.retryCount == 0
    {
      if !ValidOwner(owner) || id in db.rows {
        Decline(InsertWithSecrets(id, value, secret, owner, lease));
        return false;
      }
      var tx := Set(db, id, Inserted(value).(version := 1, owner := Some(owner), lease := Some(lease)));
      tx := tx.(secrets := tx.secrets[id := secret]);
      if fault {
        Decline(InsertWithSecrets(id, value, secret, owner, lease));
        return false;
      }
      Commit(InsertWithSecrets(id, value, secret, owner, lease), 0, tx);
      return true;
    }

    // ----- writes under a claim: what they do to the claim, and what they leave alone -----

    /** Renewal trades the caller's token for the next one. A terminal row never grants one: its own test of the
        terminal column is not needed. */
    method RenewClaim(id: string, c: Claim, until: int, clock: int, fault: bool) returns (token: Option<Claim>)
      requires Valid()
      modifies this
      ensures Valid() && Logged(old(events), Renew(id, c, until), clock, token.Some?)
      ensures token.Some? <==> !fault && c.lease < until && Live(old(db), id, c, clock)
      ensures token.Some? ==>
              token.value == Claim(c.owner, c.version + 1, until) && Traded(old(db), db, id, c, token.value)
      ensures token.Some? ==> SameWork(old(db).rows[id], db.rows[id]) && db.secrets == old(db).secrets
      ensures token.None? ==> db == old(db)
    {
      RunKeepsInv(events, dbs, |events|);
      if fault || until <= c.lease || !Live(db, id, c, clock) || db.rows[id].terminalAt.Some? {
        Decline(Renew(id, c, until));
        return None;
      }
      var row := db.rows[id];
      row := row.(lease := Some(until));
      row := row.(version := row.version + 1);
      Commit(Renew(id, c, until), clock, Set(db, id, row));
      return Some(Claim(c.owner, row.version, until));
    }

    /** A released row is held by nobody and can be recovered at once, by anyone with any clock. */
    method ReleaseClaim(id: string, c: Claim, fault: bool) returns (ok: bool)
      requires Valid()
      modifies this
      ensures Valid() && Logged(old(events), Release(id, c), 0, ok)
      ensures ok <==> !fault && Held(old(db), id, c)
      ensures ok ==> OneRow(old(db), db, id) && db.secrets == old(db).secrets && SameWork(old(db).rows[id], db.rows[id])
      ensures ok ==> forall other :: !Held(db, id, other)
      ensures ok && db.rows[id].nextRetryAt.None? ==> forall now :: Recoverable(db.rows[id], db.rows[id].kind, now)
      ensures !ok ==> db == old(db)
    {
      RunKeepsInv(events, dbs, |events|);
      if fault || !Held(db, id, c) {
        Decline(Release(id, c));
        return false;
      }
      var row := db.rows[id];
      row := row.(owner := None, lease := None);
      row := row.(version := row.version + 1);
      Commit(Release(id, c), 0, Set(db, id, row));
      return true;
    }

    /** Progress trades the token and keeps the lease, the operation's identity and everything it is not given. */
    method WriteProgress(id: string, c: Claim, p: Progress, clock: int, fault: bool) returns (token: Option<Claim>)
      requires Valid()
      modifies this
      ensures Valid() && Logged(old(events), RecordProgress(id, c, p), clock, token.Some?)
      ensures token.Some? <==> !fault && Live(old(db), id, c, clock)
      ensures token.Some? ==> token.value == c.(version := c.version + 1) && Traded(old(db), db, id, c, token.value)
      ensures token.Some? ==> SameIdentity(old(db).rows[id], db.rows[id]) && db.secrets == old(db).secrets
      ensures token.Some? ==> Reported(old(db).rows[id], db.rows[id], p)
      ensures token.None? ==> db == old(db)
    {
      RunKeepsInv(events, dbs, |events|);
      if fault || !Live(db, id, c, clock) {
        Decline(RecordProgress(id, c, p));
        return None;
      }
      var row := db.rows[id];
      Commit(RecordProgress(id, c, p), clock, Set(db, id, Progressed(row, p)));
      return Some(Claim(c.owner, c.version + 1, c.lease));
    }

    /** A retry trades the token and hides the row from recovery until its time. */
    method WriteRetry(
      id: string, c: Claim, status: string, nextRetryAt: int, errorCode: string, clock: int, fault: bool)
      returns (token: Option<Claim>)
      requires Valid()
      modifies this
      ensures Valid() && Logged(old(events), RecordRetry(id, c, status, nextRetryAt, errorCode), clock, token.Some?)
      ensures token.Some? <==> !fault && Live(old(db), id, c, clock)
      ensures token.Some? ==> token.value == c.(version := c.version + 1) && Traded(old(db), db, id, c, token.value)
      ensures token.Some? ==> SameIdentity(old(db).rows[id], db.rows[id]) && db.secrets == old(db).secrets
      ensures token.Some? ==> db.rows[id].retryCount == old(db).rows[id].retryCount + 1
      ensures token.Some? ==> db.rows[id].status == status && db.rows[id].errorCode == Some(errorCode)
      ensures token.Some? ==> forall kind, now :: now < nextRetryAt ==> !Recoverable(db.rows[id], kind, now)
      ensures token.None? ==> db == old(db)
    {
      RunKeepsInv(events, dbs, |events|);
      if fault || !Live(db, id, c, clock) {
        Decline(RecordRetry(id, c, status, nextRetryAt, errorCode));
        return None;
      }
      var row := db.rows[id];
      row := row.(status := status, retryCount := row.retryCount + 1);
      row := row.(nextRetryAt := Some(nextRetryAt), errorCode := Some(errorCode));
      row := row.(version := row.version + 1);
      Commit(RecordRetry(id, c, status, nextRetryAt, errorCode), clock, Set(db, id, row));
      return Some(Claim(c.owner, row.version, c.lease));
    }

    /** A terminal write ends the row for everyone: no token is held, no recovery or session claim can pick it, and
        its secrets are gone. */
    method WriteTerminal(id: string, c: Claim, v: Settlement, clock: int, fault: bool) returns (ok: bool)
      requires Valid()
      modifies this
      ensures Valid() && Logged(old(events), RecordTerminal(id, c, v), clock, ok)
      ensures ok <==> !fault && Live(old(db), id, c, clock)
      ensures ok ==> OneRow(old(db), db, id)
      ensures ok ==> var r, r' := old(db).rows[id], db.rows[id];
                     SameIdentity(r, r'.(terminalAt := None, evidence := r.evidence))
      ensures ok ==> db.rows[id].terminalAt == Some(v.terminalAt) && db.rows[id].evidence == Some(v.evidence)
      ensures ok ==> db.rows[id].claimedUnits == Some(v.claimedUnits) && db.rows[id].settlement == v.settlement
      ensures ok ==> db.rows[id].status == v.status && db.rows[id].nextRetryAt.None? && db.rows[id].errorCode.None?
      ensures ok ==> forall other :: !Held(db, id, other)
      ensures ok ==> forall kind, now :: !Recoverable(db.rows[id], kind, now)
      ensures ok ==> forall stream :: !OpenSession(db.rows[id], stream)
      ensures ok ==> db.secrets == old(db).secrets - {id}
      ensures !ok ==> db == old(db)
    {
      RunKeepsInv(events, dbs, |events|);
      if fault || !Live(db, id, c, clock) {
        Decline(RecordTerminal(id, c, v));
        return false;
      }
      var tx := Set(db, id, Settled(db.rows[id], v));
      tx := tx.(secrets := tx.secrets - {id});
      Commit(RecordTerminal(id, c, v), clock, tx);
      return true;
    }

    /** The live transaction: the operation, its stream, the stream's playback ids, the secrets. */
    method WriteLiveTerminal(id: string, c: Claim, v: LiveTerminal, clock: int, fault: bool) returns (ok: bool)
      requires Valid()
      modifies this
      ensures Valid() && Logged(old(events), RecordLiveTerminal(id, c, v), clock, ok)
      ensures Served(old(db), db, RecordLiveTerminal(id, c, v), clock, fault, ok)
      ensures ok ==> Live(old(db), id, c, clock) && EndedFor(old(db), db, id, v.settled)
      ensures ok ==> old(db).rows[id].kind == Session && old(db).rows[id].liveStreamId == Some(v.liveStreamId)
      ensures ok ==> StreamEnded(old(db), db, v.liveStreamId, v.settled.terminalAt)
      ensures ok ==> db.renditions == old(db).renditions && db.jobs == old(db).jobs && db.assets == old(db).assets
      ensures !ok ==> db == old(db)
    {
      var tx := db;
      if !Live(tx, id, c, clock) || !OpenSession(tx.rows[id], v.liveStreamId) {
        Decline(RecordLiveTerminal(id, c, v));
        return false;
      }
      tx := Set(tx, id, Settled(tx.rows[id], v.settled.(status := "settled")));
      if v.liveStreamId !in tx.streams || tx.streams[v.liveStreamId].endedAt.Some? {
        Decline(RecordLiveTerminal(id, c, v));
        return false;
      }
      var at := Some(v.settled.terminalAt);
      tx := tx.(streams := tx.streams[v.liveStreamId := Stream("ended", at, at)]);
      tx := tx.(playbacks := WithoutStream(tx.playbacks, v.liveStreamId));
      tx := tx.(secrets := tx.secrets - {id});
      if fault {
        Decline(RecordLiveTerminal(id, c, v));
        return false;
      }
      Commit(RecordLiveTerminal(id, c, v), clock, tx);
      return true;
    }

    /** The renditions of a VOD terminal, one UPDATE each; any that does not match exactly one row aborts. */
    method CompleteRenditions(renditions: map<string, RenditionRow>, assetId: string, outputs: seq<Output>, at: int)
      returns (done: Option<map<string, RenditionRow>>)
      ensures done.Some? <==> OutputsFit(renditions, assetId, outputs)
      ensures done.Some? ==> done.value == CompleteAll(renditions, outputs, at)
    {
      var updated := renditions;
      for i := 0 to |outputs|
        invariant OutputsFit(renditions, assetId, outputs[..i]) && updated == CompleteAll(renditions, outputs[..i], at)
      {
        var o := outputs[i];
        assert outputs[..i + 1] == outputs[..i] + [o] && outputs[..i + 1][..i] == outputs[..i];
        NextOutputFits(renditions, assetId, outputs[..i], at, o);
        if o.renditionId !in updated || !Unfinished(updated[o.renditionId], assetId) {
          PrefixFits(renditions, assetId, outputs, i + 1);
          return None;
        }
        updated := updated[o.renditionId := Completed(updated[o.renditionId], o, at)];
      }
      assert outputs[..|outputs|] == outputs;
      return Some(updated);
    }

    /** The VOD transaction: the operation, its renditions, the encoding job, the asset, a playback id, the secrets. */
    method WriteVodTerminal(id: string, c: Claim, v: VodTerminal, clock: int, fault: bool) returns (ok: bool)
      requires Valid()
      modifies this
      ensures Valid() && Logged(old(events), RecordVodTerminal(id, c, v), clock, ok)
      ensures Served(old(db), db, RecordVodTerminal(id, c, v), clock, fault, ok)
      ensures ok ==> Live(old(db), id, c, clock) && EndedFor(old(db), db, id, v.settled)
      ensures ok ==> old(db).rows[id].assetId == Some(v.assetId) && NamedAfter(db.rows[id], v)
      ensures ok ==> Published(old(db), db, v) && db.streams == old(db).streams
      ensures !ok ==> db == old(db)
    {
      var tx := db;
      if !Live(tx, id, c, clock) || tx.rows[id].assetId != Some(v.assetId) || tx.rows[id].terminalAt.Some? {
        Decline(RecordVodTerminal(id, c, v));
        return false;
      }
      var at := v.settled.terminalAt;
      tx := Set(tx, id, SettledVod(tx.rows[id], v));
      var renditions := CompleteRenditions(tx.renditions, v.assetId, v.outputs, at);
      if renditions.None? {
        Decline(RecordVodTerminal(id, c, v));
        return false;
      }
      tx := tx.(renditions := renditions.value);
      if v.encodingJobId !in tx.jobs || tx.jobs[v.encodingJobId].assetId != v.assetId {
        Decline(RecordVodTerminal(id, c, v));
        return false;
      }
      tx := tx.(jobs := tx.jobs[v.encodingJobId := Done(tx.jobs[v.encodingJobId], at)]);
      if v.assetId !in tx.assets {
        Decline(RecordVodTerminal(id, c, v));
        return false;
      }
      tx := tx.(assets := tx.assets[v.assetId := AssetRow("ready", Some(at))]);
      if !HasPlayback(db, v.assetId) {
        if v.playbackId in tx.playbacks {
          Decline(RecordVodTerminal(id, c, v));
          return false;
        }
        tx := tx.(playbacks := tx.playbacks[v.playbackId := Playback(Some(v.assetId), None)]);
      }
      tx := tx.(secrets := tx.secrets - {id});
      if fault {
        Decline(RecordVodTerminal(id, c, v));
        return false;
      }
      VodPublishes(db, tx, id, c, v, clock);
      Commit(RecordVodTerminal(id, c, v), clock, tx);
      return true;
    }

    // ----- secrets: written, read and erased under the same token, which stays good -----

    method WriteSecrets(id: string, c: Claim, secret: string, clock: int, fault: bool) returns (ok: bool)
      requires Valid()
      modifies this
      ensures Valid() && Logged(old(events), PutSecrets(id, c, secret), clock, ok)
      ensures ok <==> !fault && Live(old(db), id, c, clock)
      ensures ok ==> Live(db, id, c, clock) && id in db.secrets && db.secrets[id] == secret
      ensures ok ==> db == old(db).(secrets := db.secrets) && db.secrets - {id} == old(db).secrets - {id}
      ensures !ok ==> db == old(db)
    {
      if fault || !Live(db, id, c, clock) {
        Decline(PutSecrets(id, c, secret));
        return false;
      }
      ghost var before := db.secrets;
      Commit(PutSecrets(id, c, secret), clock, db.(secrets := db.secrets[id := secret]));
      assert db.secrets - {id} == before - {id};
      return true;
    }

    method GetSecrets(id: string, c: Claim, clock: int, fault: bool) returns (secret: Option<string>)
      ensures Served(db, db, ReadSecrets(id, c), clock, fault, secret.Some?)
      ensures secret.Some? ==> id in db.secrets && secret.value == db.secrets[id]
    {
      if fault || !Live(db, id, c, clock) || id !in db.secrets {
        return None;
      }
      return Some(db.secrets[id]);
    }

    method EraseSecrets(id: string, c: Claim, clock: int, fault: bool) returns (ok: bool)
      requires Valid()
      modifies this
      ensures Valid() && Logged(old(events), DeleteSecrets(id, c), clock, ok)
      ensures ok <==> !fault && Live(old(db), id, c, clock) && id in old(db).secrets
      ensures ok ==> Live(db, id, c, clock) && id !in db.secrets
      ensures ok ==> db == old(db).(secrets := db.secrets) && forall k :: k in old(db).secrets && k != id ==>
                       k in db.secrets && db.secrets[k] == old(db).secrets[k]
      ensures !ok ==> db == old(db)
    {
      if fault || !Live(db, id, c, clock) || id !in db.secrets {
        Decline(DeleteSecrets(id, c));
        return false;
      }
      Commit(DeleteSecrets(id, c), clock, db.(secrets := db.secrets - {id}));
      return true;
    }

    /** What was written is what is read, under the same token and however often. */
    method WriteThenRead(id: string, c: Claim, secret: string, clock: int) returns (got: Option<string>)
      requires Valid()
      modifies this
      ensures Valid()
      ensures got == if Live(old(db), id, c, clock) then Some(secret) else None
    {
      var ok := WriteSecrets(id, c, secret, clock, false);
      got := GetSecrets(id, c, clock, false);
    }
  }

  // ----- what the run theorems say about the repository object -----

  /** After any sequence of calls: a token behind some earlier state of its row is not held, and never will be. */
  lemma RepoIsFenced(repo: PaidOperationRepo, i: nat, id: string, c: Claim)
    requires repo.Valid() && i < |repo.dbs| && id in repo.dbs[i].rows && c.version < repo.dbs[i].rows[id].version
    ensures id in repo.db.rows && !Held(repo.db, id, c)
  {
    VersionsOnlyGrow(repo.events, repo.dbs, i, |repo.events|, id);
  }

  /** After any sequence of calls: what was terminal at some point is still exactly that, without secrets. */
  lemma RepoIsFinal(repo: PaidOperationRepo, i: nat, id: string)
    requires repo.Valid() && i < |repo.dbs| && id in repo.dbs[i].rows && repo.dbs[i].rows[id].terminalAt.Some?
    ensures id in repo.db.rows && repo.db.rows[id] == repo.dbs[i].rows[id] && id !in repo.db.secrets
    ensures forall c :: !Held(repo.db, id, c)
  {
    TerminalRowFrozen(repo.events, repo.dbs, i, |repo.events|, id);
    RunKeepsInv(repo.events, repo.dbs, |repo.events|);
    TerminalHasNothing(repo.db, id);
  }

  lemma PrefixFits(renditions: map<string, RenditionRow>, assetId: string, outputs: seq<Output>, k: nat)
    requires k <= |outputs| && !OutputsFit(renditions, assetId, outputs[..k])
    ensures !OutputsFit(renditions, assetId, outputs)
  {
    if OutputsFit(renditions, assetId, outputs) {
      assert forall i :: 0 <= i < k ==> outputs[..k][i] == outputs[i];
      assert OutputsFit(renditions, assetId, outputs[..k]);
      assert false;
    }
  }
}
