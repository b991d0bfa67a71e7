/** The gateway's paid operations: rows guarded by a recovery lease and a lifecycle version, each SQL statement
    or transaction one atomic step (transcode-gateway/src/repo/paidOperations.ts). */
module Gateway {
  import opened Text

  datatype Kind = Job | Session

  /** The session's non-secret runtime object; only its wind-down reason is looked into here. */
  datatype Runtime = Runtime(state: string, winddownReason: Option<string>)

  datatype Row = Row(
    kind: Kind, assetId: Option<string>, liveStreamId: Option<string>,
    status: string, requestId: string, generation: nat,
    locOperationId: Option<string>, brokerJobId: Option<string>, brokerSessionId: Option<string>,
    claimedUnits: Option<string>, settlement: string, evidence: Option<string>, runtime: Option<Runtime>,
    retryCount: nat, nextRetryAt: Option<int>, errorCode: Option<string>,
    version: nat, owner: Option<string>, lease: Option<int>, terminalAt: Option<int>)

  datatype Stream = Stream(status: string, lastSeenAt: Option<int>, endedAt: Option<int>)
  datatype Playback = Playback(assetId: Option<string>, liveStreamId: Option<string>)
  datatype RenditionRow = RenditionRow(assetId: string, status: string, storageKey: string, seconds: Option<real>,
      completedAt: Option<int>)
  datatype JobRow = JobRow(assetId: string, status: string, completedAt: Option<int>)
  datatype AssetRow = AssetRow(status: string, readyAt: Option<int>)

  datatype Db = Db(
    rows: map<string, Row>, secrets: map<string, string>,
    streams: map<string, Stream>, playbacks: map<string, Playback>,
    renditions: map<string, RenditionRow>, jobs: map<string, JobRow>, assets: map<string, AssetRow>)

  /** What a caller holds: the owner, version and lease it last saw. */
  datatype Claim = Claim(owner: string, version: nat, lease: int)

  const MAX_OWNER_LENGTH: nat := 255

  predicate ValidOwner(owner: string) { 0 < |owner| <= MAX_OWNER_LENGTH }

  // ----- guards -----

  /** The row still has the claim's owner, version and lease. */
  predicate Holds(row: Row, c: Claim)
  {
    row.owner == Some(c.owner) && row.version == c.version && row.lease == Some(c.lease)
  }

  predicate Held(db: Db, id: string, c: Claim) { ValidOwner(c.owner) && id in db.rows && Holds(db.rows[id], c) }

  /** Held, and the lease has not expired on the database's clock. */
  predicate Live(db: Db, id: string, c: Claim, clock: int) { Held(db, id, c) && c.lease > clock }

  predicate Recoverable(row: Row, kind: Kind, now: int)
  {
    && row.kind == kind && row.terminalAt.None?
    && (row.nextRetryAt.None? || row.nextRetryAt.value <= now)
    && (row.lease.None? || row.lease.value <= now)
  }

  predicate OpenSession(row: Row, liveStreamId: string)
  {
    row.liveStreamId == Some(liveStreamId) && row.kind == Session && row.terminalAt.None?
  }

  predicate Claimable(row: Row, liveStreamId: string, owner: string, now: int)
  {
    OpenSession(row, liveStreamId) && (row.owner == Some(owner) || row.lease.None? || row.lease.value <= now)
  }

  predicate ValidReason(reason: string)
  {
    && 3 <= |reason| <= 64 && 'a' <= reason[0] <= 'z'
    && forall i :: 0 <= i < |reason| ==> 'a' <= reason[i] <= 'z' || IsDigit(reason[i]) || reason[i] == '_'
  }

  // ----- row updates -----

  function Bump(row: Row): Row { row.(version := row.version + 1) }

  function TakenBy(row: Row, owner: string, lease: int): Row { Bump(row).(owner := Some(owner), lease := Some(lease)) }

  function Freed(row: Row): Row { Bump(row).(owner := None, lease := None) }

  datatype NewOperation = NewOperation(
    kind: Kind, assetId: Option<string>, liveStreamId: Option<string>, requestId: string, generation: nat,
    status: string, runtime: Option<Runtime>)

  function Inserted(v: NewOperation): Row
  {
    Row(v.kind, v.assetId, v.liveStreamId, v.status, v.requestId, v.generation, None, None, None, None, "0", None,
        v.runtime, 0, None, None, 0, None, None, None)
  }

  /** The optional fields of a progress write; an absent error code or retry time clears the column. */
  datatype Progress = Progress(
    status: string, errorCode: Option<string>, retryCount: Option<nat>, nextRetryAt: Option<int>,
    generation: Option<nat>, requestId: Option<string>, locOperationId: Option<string>, brokerJobId: Option<string>,
    brokerSessionId: Option<string>, claimedUnits: Option<string>, settlement: Option<string>, runtime: Option<Runtime>)

  function Or<T>(v: Option<T>, was: T): T { if v.Some? then v.value else was }

  function Kept<T>(v: Option<T>, was: Option<T>): Option<T> { if v.Some? then v else was }

  function Progressed(row: Row, p: Progress): Row
  {
    Bump(row).(
      status := p.status, errorCode := p.errorCode, nextRetryAt := p.nextRetryAt,
      retryCount := Or(p.retryCount, row.retryCount), generation := Or(p.generation, row.generation),
      requestId := Or(p.requestId, row.requestId), locOperationId := Kept(p.locOperationId, row.locOperationId),
      brokerJobId := Kept(p.brokerJobId, row.brokerJobId),
      brokerSessionId := Kept(p.brokerSessionId, row.brokerSessionId),
      claimedUnits := Kept(p.claimedUnits, row.claimedUnits), settlement := Or(p.settlement, row.settlement),
      runtime := Kept(p.runtime, row.runtime))
  }

  datatype Settlement = Settlement(status: string, claimedUnits: string, settlement: string, evidence: string,
      terminalAt: int)

  function Settled(row: Row, v: Settlement): Row
  {
    Freed(row).(
      status := v.status, claimedUnits := Some(v.claimedUnits), settlement := v.settlement,
      evidence := Some(v.evidence),
      terminalAt := Some(v.terminalAt), nextRetryAt := None, errorCode := None)
  }

  // ----- the two terminal transactions; None is a rollback -----

  function WithoutStream(playbacks: map<string, Playback>, stream: string): map<string, Playback>
  {
    map p | p in playbacks && playbacks[p].liveStreamId != Some(stream) :: playbacks[p]
  }

  datatype LiveTerminal = LiveTerminal(liveStreamId: string, settled: Settlement)

  function EndLive(db: Db, id: string, c: Claim, v: LiveTerminal, clock: int): Option<Db>
  {
    if !Live(db, id, c, clock) || !OpenSession(db.rows[id], v.liveStreamId) then None
    else if v.liveStreamId !in db.streams || db.streams[v.liveStreamId].endedAt.Some? then None
    else
      var at := Some(v.settled.terminalAt);
      Some(db.(rows := db.rows[id := Settled(db.rows[id], v.settled.(status := "settled"))],
               streams := db.streams[v.liveStreamId := Stream("ended", at, at)],
               playbacks := WithoutStream(db.playbacks, v.liveStreamId),
               secrets := db.secrets - {id}))
  }

  datatype Output = Output(renditionId: string, storageKey: string, seconds: real)

  datatype VodTerminal = VodTerminal(
    assetId: string, settled: Settlement, locOperationId: string, brokerJobId: string, brokerRequestId: string,
    outputs: seq<Output>, encodingJobId: string, playbackId: string)

  predicate Unfinished(r: RenditionRow, assetId: string)
  {
    r.assetId == assetId && (r.status == "queued" || r.status == "running")
  }

  function Completed(r: RenditionRow, o: Output, at: int): RenditionRow
  {
    r.(status := "completed", storageKey := o.storageKey, seconds := Some(o.seconds), completedAt := Some(at))
  }

  /** The outputs name unfinished renditions of the asset, each once. */
  ghost predicate OutputsFit(renditions: map<string, RenditionRow>, assetId: string, outputs: seq<Output>)
  {
    && (forall i :: 0 <= i < |outputs| ==>
          outputs[i].renditionId in renditions && Unfinished(renditions[outputs[i].renditionId], assetId))
    && (forall i, k :: 0 <= i < k < |outputs| ==> outputs[i].renditionId != outputs[k].renditionId)
  }

  function CompleteAll(renditions: map<string, RenditionRow>, outputs: seq<Output>, at: int): map<string, RenditionRow>
  {
    if outputs == [] then renditions
    else
      var done, o := CompleteAll(renditions, outputs[..|outputs| - 1], at), outputs[|outputs| - 1];
      if o.renditionId in done then done[o.renditionId := Completed(done[o.renditionId], o, at)] else done
  }

  function Done(job: JobRow, at: int): JobRow { job.(status := "completed", completedAt := Some(at)) }

  predicate HasPlayback(db: Db, assetId: string)
  {
    exists p :: p in db.playbacks && db.playbacks[p].assetId == Some(assetId)
  }

  function SettledVod(row: Row, v: VodTerminal): Row
  {
    Settled(row, v.settled.(status := "settled")).(
      locOperationId := Some(v.locOperationId), brokerJobId := Some(v.brokerJobId), requestId := v.brokerRequestId)
  }

  /** Everything the VOD transaction needs beyond a live claim. */
  ghost predicate VodFits(db: Db, v: VodTerminal)
  {
    && OutputsFit(db.renditions, v.assetId, v.outputs)
    && v.encodingJobId in db.jobs && db.jobs[v.encodingJobId].assetId == v.assetId
    && v.assetId in db.assets
    && (HasPlayback(db, v.assetId) || v.playbackId !in db.playbacks)
  }

  ghost function EndVod(db: Db, id: string, c: Claim, v: VodTerminal, clock: int): Option<Db>
  {
    if !Live(db, id, c, clock) || db.rows[id].assetId != Some(v.assetId) || db.rows[id].terminalAt.Some? then None
    else if !VodFits(db, v) then None
    else
      var at := v.settled.terminalAt;
      Some(db.(rows := db.rows[id := SettledVod(db.rows[id], v)],
               renditions := CompleteAll(db.renditions, v.outputs, at),
               jobs := db.jobs[v.encodingJobId := Done(db.jobs[v.encodingJobId], at)],
               assets := db.assets[v.assetId := AssetRow("ready", Some(at))],
               playbacks := if HasPlayback(db, v.assetId) then db.playbacks
                            else db.playbacks[v.playbackId := Playback(Some(v.assetId), None)],
               secrets := db.secrets - {id}))
  }

  // ----- all calls -----

  /** Candidate rows the database picks (`ids`, `id` of the claims and the wind-down) are part of the call. */
  datatype Call =
    | Insert(id: string, value: NewOperation)
    | InsertWithSecrets(id: string, value: NewOperation, secret: string, owner: string, lease: int)
    | ClaimRecoverable(kind: Kind, owner: string, now: int, lease: int, limit: nat, ids: set<string>)
    | ClaimSession(liveStreamId: string, owner: string, now: int, lease: int, id: string)
    | Winddown(liveStreamId: string, reason: string, id: string)
    | Renew(id: string, claim: Claim, until: int)
    | Release(id: string, claim: Claim)
    | RecordProgress(id: string, claim: Claim, progress: Progress)
    | RecordRetry(id: string, claim: Claim, status: string, nextRetryAt: int, errorCode: string)
    | RecordTerminal(id: string, claim: Claim, settled: Settlement)
    | RecordLiveTerminal(id: string, claim: Claim, live: LiveTerminal)
    | RecordVodTerminal(id: string, claim: Claim, vod: VodTerminal)
    | PutSecrets(id: string, claim: Claim, secret: string)
    | ReadSecrets(id: string, claim: Claim)
    | DeleteSecrets(id: string, claim: Claim)

  /** Writes that carry a claim and consume its version. */
  predicate Versioned(call: Call)
  {
    call.Renew? || call.Release? || call.RecordProgress? || call.RecordRetry? || call.RecordTerminal?
    || call.RecordLiveTerminal? || call.RecordVodTerminal?
  }

  predicate CarriesClaim(call: Call) { Versioned(call) || call.PutSecrets? || call.ReadSecrets? || call.DeleteSecrets? }

  function Set(db: Db, id: string, row: Row): Db { db.(rows := db.rows[id := row]) }

  function TakeAll(rows: map<string, Row>, ids: set<string>, owner: string, lease: int): map<string, Row>
  {
    map id | id in rows :: if id in ids then TakenBy(rows[id], owner, lease) else rows[id]
  }

  predicate PicksRecoverable(db: Db, call: Call)
    requires call.ClaimRecoverable?
  {
    && ValidOwner(call.owner) && 1 <= call.limit <= 1000 && call.now < call.lease && |call.ids| <= call.limit
    && forall id :: id in call.ids ==> id in db.rows && Recoverable(db.rows[id], call.kind, call.now)
  }

  predicate PicksOpen(db: Db, call: Call)
    requires call.ClaimSession? || call.Winddown?
  {
    && call.liveStreamId != "" && call.id in db.rows
    && match call
       case ClaimSession(stream, owner, now, lease, id) =>
         ValidOwner(owner) && now < lease && Claimable(db.rows[id], stream, owner, now)
       case Winddown(stream, reason, id) => ValidReason(reason) && OpenSession(db.rows[id], stream)
  }

  /** The wind-down reason is merged into the session runtime, if there is one. */
  function WoundDown(row: Row, reason: string): Row
  {
    Freed(row).(status := "winddown_requested",
                runtime := if row.runtime.Some? then Some(row.runtime.value.(winddownReason := Some(reason))) else None)
  }

  /** Creation, claims and the wind-down: the calls that need no claim. */
  function ApplyUnclaimed(db: Db, call: Call): Option<Db>
    requires !CarriesClaim(call)
  {
    match call
    case Insert(id, v) => if id in db.rows then None else Some(Set(db, id, Inserted(v)))
    case InsertWithSecrets(id, v, secret, owner, lease) =>
      if id in db.rows || !ValidOwner(owner) then None
      else Some(Set(db, id, Inserted(v).(version := 1, owner := Some(owner), lease := Some(lease)))
                  .(secrets := db.secrets[id := secret]))
    case ClaimRecoverable(_, owner, _, lease, _, ids) =>
      if PicksRecoverable(db, call) then Some(db.(rows := TakeAll(db.rows, ids, owner, lease))) else None
    case ClaimSession(_, owner, _, lease, id) =>
      if PicksOpen(db, call) then Some(Set(db, id, TakenBy(db.rows[id], owner, lease))) else None
    case Winddown(_, reason, id) =>
      if PicksOpen(db, call) then Some(Set(db, id, WoundDown(db.rows[id], reason))) else None
  }

  /** Calls that carry a claim; `clock` is the database's own NOW(). */
  ghost function ApplyClaimed(db: Db, call: Call, clock: int): Option<Db>
    requires CarriesClaim(call)
  {
    match call
    case Renew(id, c, until) =>
      if until <= c.lease || !Live(db, id, c, clock) || db.rows[id].terminalAt.Some? then None
      else Some(Set(db, id, Bump(db.rows[id]).(lease := Some(until))))
    case Release(id, c) => if !Held(db, id, c) then None else Some(Set(db, id, Freed(db.rows[id])))
    case RecordProgress(id, c, p) => if !Live(db, id, c, clock) then None
        else Some(Set(db, id, Progressed(db.rows[id], p)))
    case RecordRetry(id, c, status, at, code) =>
      if !Live(db, id, c, clock) then None
      else Some(Set(db, id, Bump(db.rows[id]).(
        status := status, retryCount := db.rows[id].retryCount + 1, nextRetryAt := Some(at), errorCode := Some(code))))
    case RecordTerminal(id, c, v) =>
      if !Live(db, id, c, clock) then None
      else Some(Set(db, id, Settled(db.rows[id], v)).(secrets := db.secrets - {id}))
    case RecordLiveTerminal(id, c, v) => EndLive(db, id, c, v, clock)
    case RecordVodTerminal(id, c, v) => EndVod(db, id, c, v, clock)
    case PutSecrets(id, c, secret) => if !Live(db, id, c, clock) then None
        else Some(db.(secrets := db.secrets[id := secret]))
    case ReadSecrets(id, c) => if !Live(db, id, c, clock) || id !in db.secrets then None else Some(db)
    case DeleteSecrets(id, c) =>
      if !Live(db, id, c, clock) || id !in db.secrets then None else Some(db.(secrets := db.secrets - {id}))
  }

  /** The effect of a call that succeeds; None when it is refused or matches no row. */
  ghost function Apply(db: Db, call: Call, clock: int): Option<Db>
  {
    if CarriesClaim(call) then ApplyClaimed(db, call, clock) else ApplyUnclaimed(db, call)
  }
}
