/** The version fence and terminal finality over every run of the gateway's calls, under arbitrary caller and
    database clocks (transcode-gateway/src/repo/paidOperations.ts). */
module GatewayRuns {
  import opened Text
  import opened Gateway

  /** A call that took effect, a call that did not, or a change to tables other than the operations'. */
  datatype Event = Did(call: Call, clock: int) | Declined(refused: Call) | Elsewhere

  ghost predicate Next(db: Db, e: Event, db': Db)
  {
    match e
    case Did(call, clock) => Apply(db, call, clock) == Some(db')
    case Declined(_) => db' == db
    case Elsewhere => db'.rows == db.rows && db'.secrets == db.secrets
  }

  /** A history that starts before the first operation is inserted. */
  ghost predicate Run(events: seq<Event>, dbs: seq<Db>)
  {
    && |dbs| == |events| + 1
    && dbs[0].rows == map[] && dbs[0].secrets == map[]
    && forall i :: 0 <= i < |events| ==> StepAt(events, dbs, i)
  }

  ghost predicate StepAt(events: seq<Event>, dbs: seq<Db>, i: nat)
    requires i < |events| && |dbs| == |events| + 1
  {
    Next(dbs[i], events[i], dbs[i + 1])
  }

  // ----- the invariant -----

  /** Owner and lease are set or null together, and a terminal row has neither. */
  predicate RowInv(row: Row)
  {
    (row.owner.None? <==> row.lease.None?) && (row.terminalAt.Some? ==> row.owner.None?)
  }

  ghost predicate Inv(db: Db)
  {
    && (forall id :: id in db.rows ==> RowInv(db.rows[id]))
    && (forall id :: id in db.secrets ==> id in db.rows && db.rows[id].terminalAt.None?)
  }

  /** How one step may change a row: not at all, or by consuming its version while it is not terminal. */
  predicate RowMove(r: Row, r': Row)
  {
    r' == r || (r.terminalAt.None? && r'.version == r.version + 1 && RowInv(r'))
  }

  ghost predicate Moves(db: Db, db': Db)
  {
    && (forall id :: id in db.rows ==> id in db'.rows && RowMove(db.rows[id], db'.rows[id]))
    && (forall id :: id in db'.rows && id !in db.rows ==> RowInv(db'.rows[id]) && db'.rows[id].terminalAt.None?)
    && (forall id :: id in db'.secrets ==> id in db'.rows && db'.rows[id].terminalAt.None?)
  }

  lemma RowUpdateMoves(db: Db, id: string, row: Row)
    requires Inv(db) && id in db.rows && RowMove(db.rows[id], row) && row.terminalAt.None?
    ensures Moves(db, Set(db, id, row))
  {
  }

  lemma InsertMoves(db: Db, id: string, row: Row)
    requires Inv(db) && id !in db.rows && RowInv(row) && row.terminalAt.None?
    ensures Moves(db, Set(db, id, row))
  {
  }

  lemma TakeAllMoves(db: Db, ids: set<string>, owner: string, lease: int)
    requires Inv(db) && forall id :: id in ids ==> id in db.rows && db.rows[id].terminalAt.None?
    ensures Moves(db, db.(rows := TakeAll(db.rows, ids, owner, lease)))
  {
  }

  lemma UnclaimedMoves(db: Db, call: Call)
    requires Inv(db) && !CarriesClaim(call) && ApplyUnclaimed(db, call).Some?
    ensures Moves(db, ApplyUnclaimed(db, call).value)
  {
    match call
    case Insert(id, v) => InsertMoves(db, id, Inserted(v));
    case InsertWithSecrets(id, v, _, owner, lease) =>
      InsertMoves(db, id, Inserted(v).(version := 1, owner := Some(owner), lease := Some(lease)));
    case ClaimRecoverable(_, owner, _, lease, _, ids) => TakeAllMoves(db, ids, owner, lease);
    case ClaimSession(_, owner, _, lease, id) => RowUpdateMoves(db, id, TakenBy(db.rows[id], owner, lease));
    case Winddown(_, reason, id) => RowUpdateMoves(db, id, WoundDown(db.rows[id], reason));
  }

  /** A call that carries a claim succeeds only while the claim is held, and touches no other row. */
  lemma ClaimedTouchesOne(db: Db, call: Call, clock: int)
    requires CarriesClaim(call) && ApplyClaimed(db, call, clock).Some?
    ensures Held(db, call.id, call.claim)
    ensures var db' := ApplyClaimed(db, call, clock).value;
            && call.id in db'.rows && db'.rows == db.rows[call.id := db'.rows[call.id]]
            && (Versioned(call) ==> db'.rows[call.id].version == call.claim.version + 1)
            && (!Versioned(call) ==> db'.rows == db.rows)
  {
  }

  lemma ClaimedRowKeepsInv(db: Db, call: Call, clock: int)
    requires CarriesClaim(call) && ApplyClaimed(db, call, clock).Some? && RowInv(db.rows[call.id])
    ensures RowInv(ApplyClaimed(db, call, clock).value.rows[call.id])
  {
  }

  lemma ClaimedSecrets(db: Db, call: Call, clock: int)
    requires CarriesClaim(call) && ApplyClaimed(db, call, clock).Some?
    ensures var db' := ApplyClaimed(db, call, clock).value;
            && db'.secrets.Keys <= db.secrets.Keys + {call.id}
            && (db'.rows[call.id].terminalAt.Some? && db.rows[call.id].terminalAt.None? ==> call.id !in db'.secrets)
  {
  }

  lemma ClaimedMoves(db: Db, call: Call, clock: int)
    requires Inv(db) && CarriesClaim(call) && ApplyClaimed(db, call, clock).Some?
    ensures Moves(db, ApplyClaimed(db, call, clock).value)
  {
    ClaimedTouchesOne(db, call, clock);
    ClaimedRowKeepsInv(db, call, clock);
    ClaimedSecrets(db, call, clock);
  }

  lemma NextMoves(db: Db, e: Event, db': Db)
    requires Inv(db) && Next(db, e, db')
    ensures Moves(db, db') && Inv(db')
  {
    if e.Did? {
      if CarriesClaim(e.call) {
        ClaimedMoves(db, e.call, e.clock);
      } else {
        UnclaimedMoves(db, e.call);
      }
    }
  }

  /** Reachable databases keep owner and lease together, and a terminal operation has neither, nor secrets. */
  lemma {:induction false} RunKeepsInv(events: seq<Event>, dbs: seq<Db>, k: nat)
    requires Run(events, dbs) && k < |dbs|
    ensures Inv(dbs[k])
  {
    if k > 0 {
      RunKeepsInv(events, dbs, k - 1);
      assert StepAt(events, dbs, k - 1);
      NextMoves(dbs[k - 1], events[k - 1], dbs[k]);
    }
  }

  // ----- the version fence -----

  /** Rows are never lost, versions never fall, and a claim's owner and lease change only with the version. */
  predicate Fenced(r: Row, r': Row)
  {
    r.version <= r'.version && (r.version == r'.version ==> r' == r)
  }

  lemma FencedAddsUp(a: Row, b: Row, c: Row)
    requires Fenced(a, b) && RowMove(b, c)
    ensures Fenced(a, c)
  {
  }

  lemma RunMovesRow(events: seq<Event>, dbs: seq<Db>, k: nat, id: string)
    requires Run(events, dbs) && k < |events| && id in dbs[k].rows
    ensures id in dbs[k + 1].rows && RowMove(dbs[k].rows[id], dbs[k + 1].rows[id])
  {
    RunKeepsInv(events, dbs, k);
    assert StepAt(events, dbs, k);
    NextMoves(dbs[k], events[k], dbs[k + 1]);
  }

  lemma {:induction false} VersionsOnlyGrow(events: seq<Event>, dbs: seq<Db>, i: nat, k: nat, id: string)
    requires Run(events, dbs) && i <= k < |dbs| && id in dbs[i].rows
    ensures id in dbs[k].rows && Fenced(dbs[i].rows[id], dbs[k].rows[id])
  {
    if i < k {
      VersionsOnlyGrow(events, dbs, i, k - 1, id);
      RunMovesRow(events, dbs, k - 1, id);
      FencedAddsUp(dbs[i].rows[id], dbs[k - 1].rows[id], dbs[k].rows[id]);
    }
  }

  ghost predicate Succeeds(events: seq<Event>, k: nat, id: string, c: Claim)
  {
    && k < |events| && events[k].Did? && CarriesClaim(events[k].call)
    && events[k].call.id == id && events[k].call.claim == c
  }

  lemma SuccessNeedsClaim(events: seq<Event>, dbs: seq<Db>, k: nat, id: string, c: Claim)
    requires Run(events, dbs) && Succeeds(events, k, id, c)
    ensures Held(dbs[k], id, c)
    ensures Versioned(events[k].call) ==> id in dbs[k + 1].rows && dbs[k + 1].rows[id].version == c.version + 1
  {
    assert StepAt(events, dbs, k);
    ClaimedTouchesOne(dbs[k], events[k].call, events[k].clock);
  }

  /** A token overtaken, by another claim, a renewal, a write, a wind-down or a terminal, fails forever. */
  lemma OvertakenFailsForever(events: seq<Event>, dbs: seq<Db>, i: nat, k: nat, id: string, c: Claim)
    requires Run(events, dbs) && i <= k < |events| && id in dbs[i].rows && c.version < dbs[i].rows[id].version
    ensures !Succeeds(events, k, id, c)
  {
    if Succeeds(events, k, id, c) {
      SuccessNeedsClaim(events, dbs, k, id, c);
      VersionsOnlyGrow(events, dbs, i, k, id);
    }
  }

  /** Each version is consumed by at most one successful versioned write, whatever the claims say. */
  lemma VersionConsumedOnce(events: seq<Event>, dbs: seq<Db>, i: nat, k: nat, id: string, a: Claim, b: Claim)
    requires Run(events, dbs) && i < k
    requires Succeeds(events, i, id, a) && Versioned(events[i].call)
    requires Succeeds(events, k, id, b) && Versioned(events[k].call)
    ensures a.version < b.version
  {
    SuccessNeedsClaim(events, dbs, i, id, a);
    SuccessNeedsClaim(events, dbs, k, id, b);
    VersionsOnlyGrow(events, dbs, i + 1, k, id);
  }

  /** A token that some row once granted. */
  ghost predicate Issued(dbs: seq<Db>, k: nat, id: string, c: Claim)
  {
    exists i :: 0 <= i <= k < |dbs| && id in dbs[i].rows && Holds(dbs[i].rows[id], c)
  }

  /** At any time at most one token issued so far can still succeed: the one the row holds now. */
  lemma OneTokenCanSucceed(events: seq<Event>, dbs: seq<Db>, now: nat, k: nat, id: string, c: Claim)
    requires Run(events, dbs) && now <= k && Issued(dbs, now, id, c) && Succeeds(events, k, id, c)
    ensures id in dbs[now].rows && Holds(dbs[now].rows[id], c)
  {
    var i :| 0 <= i <= now < |dbs| && id in dbs[i].rows && Holds(dbs[i].rows[id], c);
    VersionsOnlyGrow(events, dbs, i, now, id);
    SuccessNeedsClaim(events, dbs, k, id, c);
    VersionsOnlyGrow(events, dbs, now, k, id);
  }

  lemma SameHolderSameToken(row: Row, a: Claim, b: Claim)
    requires Holds(row, a) && Holds(row, b)
    ensures a == b
  {
  }

  /** Hence of two different issued tokens at most one ever succeeds again. */
  lemma TwoTokensExclude(events: seq<Event>, dbs: seq<Db>, now: nat, k: nat, l: nat, id: string, a: Claim, b: Claim)
    requires Run(events, dbs) && now <= k && now <= l && Issued(dbs, now, id, a) && Issued(dbs, now, id, b)
    requires Succeeds(events, k, id, a) && Succeeds(events, l, id, b)
    ensures a == b
  {
    OneTokenCanSucceed(events, dbs, now, k, id, a);
    OneTokenCanSucceed(events, dbs, now, l, id, b);
    SameHolderSameToken(dbs[now].rows[id], a, b);
  }

  // ----- clocks -----

  /** A recovery claim takes a token only if its lease has run out on the claimer's clock, and so does a session claim
      by anyone but the owner; all other tokens are held as before. */
  lemma LiveTokensSurviveClaims(events: seq<Event>, dbs: seq<Db>, k: nat, id: string, c: Claim)
    requires Run(events, dbs) && k < |events| && Held(dbs[k], id, c) && events[k].Did?
    requires events[k].call.ClaimRecoverable? || (events[k].call.ClaimSession? && events[k].call.owner != c.owner)
    requires events[k].call.now < c.lease
    ensures Held(dbs[k + 1], id, c) && dbs[k + 1].rows[id] == dbs[k].rows[id]
  {
    assert StepAt(events, dbs, k);
  }

  /** A claim that took effect was made by a proper owner, with a lease ahead of the claimer's own clock, on at most a
      thousand rows. */
  lemma ClaimsLookAhead(events: seq<Event>, dbs: seq<Db>, k: nat)
    requires Run(events, dbs) && k < |events| && events[k].Did?
    requires events[k].call.ClaimRecoverable? || events[k].call.ClaimSession?
    ensures 0 < |events[k].call.owner| <= 255 && events[k].call.now < events[k].call.lease
    ensures events[k].call.ClaimRecoverable? ==> |events[k].call.ids| <= events[k].call.limit <= 1000
  {
    assert StepAt(events, dbs, k);
  }

  /** Only a release may come late: every other call with a claim that took effect had a lease ahead of the
      database's clock, and a claim of a proper owner. */
  lemma ExpiredTokensWriteNothing(events: seq<Event>, dbs: seq<Db>, k: nat)
    requires Run(events, dbs) && k < |events| && events[k].Did? && CarriesClaim(events[k].call)
    ensures 0 < |events[k].call.claim.owner| <= 255
    ensures !events[k].call.Release? ==> events[k].clock < events[k].call.claim.lease
  {
    assert StepAt(events, dbs, k);
  }

  // ----- terminal finality -----

  lemma {:induction false} TerminalRowFrozen(events: seq<Event>, dbs: seq<Db>, i: nat, k: nat, id: string)
    requires Run(events, dbs) && i <= k < |dbs| && id in dbs[i].rows && dbs[i].rows[id].terminalAt.Some?
    ensures id in dbs[k].rows && dbs[k].rows[id] == dbs[i].rows[id]
  {
    if i < k {
      TerminalRowFrozen(events, dbs, i, k - 1, id);
      RunMovesRow(events, dbs, k - 1, id);
    }
  }

  lemma TerminalHasNothing(db: Db, id: string)
    requires Inv(db) && id in db.rows && db.rows[id].terminalAt.Some?
    ensures id !in db.secrets && forall c :: !Held(db, id, c)
  {
    if id in db.secrets {
      assert false;
    }
  }

  /** Once terminal: the row never changes again, the secrets are gone and never come back, and no call that
      carries a claim succeeds. */
  lemma TerminalIsFinal(events: seq<Event>, dbs: seq<Db>, i: nat, k: nat, id: string, c: Claim)
    requires Run(events, dbs) && i <= k < |dbs| && id in dbs[i].rows && dbs[i].rows[id].terminalAt.Some?
    ensures id in dbs[k].rows && dbs[k].rows[id] == dbs[i].rows[id] && id !in dbs[k].secrets
    ensures !Succeeds(events, k, id, c)
  {
    TerminalRowFrozen(events, dbs, i, k, id);
    RunKeepsInv(events, dbs, k);
    TerminalHasNothing(dbs[k], id);
    if Succeeds(events, k, id, c) {
      SuccessNeedsClaim(events, dbs, k, id, c);
    }
  }

  // ----- the wrappers' tokens (transcode-gateway/src/livepeer/paidSessionStore.ts) -----

  /** The token taken from a returned row; None where the wrapper throws. */
  function ClaimFor(row: Row, owner: string): Option<Claim>
  {
    if row.kind != Session || row.liveStreamId.None? || row.liveStreamId == Some("") || row.runtime.None?
       || row.owner != Some(owner) || row.lease.None? then None
    else Some(Claim(owner, row.version, row.lease.value))
  }

  lemma TokenIsHeld(row: Row, owner: string)
    requires ClaimFor(row, owner).Some?
    ensures Holds(row, ClaimFor(row, owner).value) && ClaimFor(row, owner).value.version == row.version
  {
  }

  /** The database in which a wrapper saw the row whose token its `j`-th call carries: the one at the start, or the
      one its previous call returned. */
  function SeenAt(start: nat, uses: seq<nat>, j: nat): nat
    requires j <= |uses|
  {
    if j == 0 then start else uses[j - 1] + 1
  }

  ghost predicate Uses(events: seq<Event>, dbs: seq<Db>, id: string, owner: string, seen: nat, at: nat)
  {
    && seen <= at < |events| && seen < |dbs| && id in dbs[seen].rows && ClaimFor(dbs[seen].rows[id], owner).Some?
    && Succeeds(events, at, id, ClaimFor(dbs[seen].rows[id], owner).value)
    && (events[at].call.RecordProgress? || events[at].call.Renew?)
  }

  /** A chain of wrapper calls in a run, each with the token of the row the one before returned. */
  ghost predicate WrapperChain(events: seq<Event>, dbs: seq<Db>, id: string, owner: string, start: nat, uses: seq<nat>)
  {
    forall j :: 0 <= j < |uses| ==> LinkAt(events, dbs, id, owner, start, uses, j)
  }

  ghost predicate LinkAt(
    events: seq<Event>, dbs: seq<Db>, id: string, owner: string, start: nat, uses: seq<nat>, j: nat)
    requires j < |uses|
  {
    Uses(events, dbs, id, owner, SeenAt(start, uses, j), uses[j])
  }

  /** Nobody changed the row between the wrapper's look and its call, and the row it returned yields the next token. */
  ghost predicate Unbroken(dbs: seq<Db>, id: string, owner: string, seen: nat, at: nat)
  {
    && seen <= at && at + 1 < |dbs|
    && id in dbs[seen].rows && id in dbs[at].rows && id in dbs[at + 1].rows
    && dbs[at].rows[id] == dbs[seen].rows[id]
    && dbs[at + 1].rows[id].version == dbs[seen].rows[id].version + 1
    && ClaimFor(dbs[at + 1].rows[id], owner).Some?
  }

  lemma TokenPassedOn(events: seq<Event>, dbs: seq<Db>, id: string, owner: string, seen: nat, at: nat)
    requires Run(events, dbs) && Uses(events, dbs, id, owner, seen, at)
    ensures Unbroken(dbs, id, owner, seen, at)
  {
    var c := ClaimFor(dbs[seen].rows[id], owner).value;
    SuccessNeedsClaim(events, dbs, at, id, c);
    VersionsOnlyGrow(events, dbs, seen, at, id);
    assert StepAt(events, dbs, at);
  }

  /** However the calls of others fall between them, a chain of wrapper calls is unbroken: each call finds the very
      row the wrapper last saw, the token it carries is the row's current one, versions go up by one per call, and
      the row it returns yields the token for the next. */
  lemma {:induction false} WrapperChainUnbroken(
    events: seq<Event>, dbs: seq<Db>, id: string, owner: string, start: nat, uses: seq<nat>, j: nat)
    requires Run(events, dbs) && WrapperChain(events, dbs, id, owner, start, uses) && j < |uses|
    ensures Unbroken(dbs, id, owner, SeenAt(start, uses, j), uses[j])
    ensures start < |dbs| && id in dbs[start].rows
    ensures dbs[uses[j]].rows[id].version == dbs[start].rows[id].version + j
  {
    assert LinkAt(events, dbs, id, owner, start, uses, j);
    TokenPassedOn(events, dbs, id, owner, SeenAt(start, uses, j), uses[j]);
    if j > 0 {
      WrapperChainUnbroken(events, dbs, id, owner, start, uses, j - 1);
    }
  }
}
