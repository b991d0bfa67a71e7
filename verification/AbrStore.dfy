/** The workload store itself: a directory of journals that each method loads, validates, changes and replaces
    (FileWorkloadStoreV2 in abr-runner/workload_store_v2.go), and the terminal write of an execution
    (run in abr-runner/abr_handler_v2.go). */
module AbrStore {
  import opened Text
  import opened AbrContract
  import opened AbrJournal
  import opened AbrRuns
  import opened Durable

  type Files = map<string, Journal>

  ghost predicate LoadsAs(files: Files, id: string)
  {
    id in files && files[id].workloadId == id && ValidJournal(files[id])
  }

  /** One journal operation served through the directory: refusals and lost saves leave every journal as it
      was, and no call touches another workload. */
  ghost predicate Served(before: Files, after: Files, id: string, op: JournalOp, save: SaveResult, ok: bool)
  {
    if !LoadsAs(before, id) then after == before && !ok
    else
      match Apply(before[id], op)
      case None => after == before && !ok
      case Some(j) => after == (if save.Lost? then before else before[id := j]) && ok == save.Confirmed?
  }

  method ValidatePrepared(prepared: map<string, Prepared>) returns (ok: bool)
    ensures ok <==> forall n :: n in prepared ==> n == prepared[n].name && SafePrepared(prepared[n])
  {
    var left := prepared.Keys;
    while left != {}
      invariant left <= prepared.Keys
      invariant forall n :: n in prepared && n !in left ==> n == prepared[n].name && SafePrepared(prepared[n])
      decreases left
    {
      var n :| n in left;
      if n != prepared[n].name || !SafePrepared(prepared[n]) {
        return false;
      }
      left := left - {n};
    }
    return true;
  }

  method ValidateDelivered(delivered: map<string, Rendition>, prepared: map<string, Prepared>) returns (ok: bool)
    ensures ok <==> forall n :: n in delivered ==>
                      n == delivered[n].name && n in prepared && Matches(prepared[n], delivered[n])
  {
    var left := delivered.Keys;
    while left != {}
      invariant left <= delivered.Keys
      invariant forall n :: n in delivered && n !in left ==>
        n == delivered[n].name && n in prepared && Matches(prepared[n], delivered[n])
      decreases left
    {
      var n :| n in left;
      if n !in prepared || n != delivered[n].name || !Matches(prepared[n], delivered[n]) {
        return false;
      }
      left := left - {n};
    }
    return true;
  }

  method ValidateJournal(j: Journal) returns (ok: bool)
    ensures ok == ValidJournal(j)
  {
    if !OpaqueId(j.workloadId) || !IsSha256(j.requestHash) || j.next == 0 {
      return false;
    }
    if (j.state != InProgress) != j.terminal.Some? {
      return false;
    }
    if j.terminal.Some? && (j.terminal.value.seqNo >= j.next || j.terminal.value.payload.ProgressNote?) {
      return false;
    }
    var prepared := ValidatePrepared(j.prepared);
    if !prepared {
      return false;
    }
    var delivered := ValidateDelivered(j.delivered, j.prepared);
    if !delivered {
      return false;
    }
    if j.manifestPrepared.Some?
       && (!SafePath(j.manifestPrepared.value.path) || !IsSha256(j.manifestPrepared.value.hash)) {
      return false;
    }
    return j.manifestUri == "" || (j.manifestPrepared.Some? && ValidArtifactUri(j.manifestUri));
  }

  /** The delivered checkpoints in the order in which the map happens to be enumerated. */
  method Enumerate(delivered: map<string, Rendition>) returns (listed: seq<Rendition>)
    requires WellNamed(delivered)
    ensures Lists(listed, delivered)
  {
    listed := [];
    var left := delivered.Keys;
    while left != {}
      invariant left <= delivered.Keys && Names(listed) == delivered.Keys - left
      invariant NamesDistinct(listed)
      invariant forall i :: 0 <= i < |listed| ==> listed[i].name in delivered && delivered[listed[i].name] == listed[i]
      decreases left
    {
      var n :| n in left;
      assert forall i :: 0 <= i < |listed| ==> listed[i].name in Names(listed);
      NamesOfMore(listed, delivered[n]);
      listed := listed + [delivered[n]];
      left := left - {n};
    }
  }

  /** Compares a result with the checkpoints one rendition at a time. */
  method CompareCheckpoints(renditions: seq<Rendition>, delivered: map<string, Rendition>) returns (same: bool)
    ensures same == SameAsCheckpoints(renditions, delivered)
  {
    if |renditions| != |delivered| {
      return false;
    }
    for i := 0 to |renditions|
      invariant forall k :: 0 <= k < i ==>
        renditions[k].name in delivered && delivered[renditions[k].name] == renditions[k]
    {
      var r := renditions[i];
      if r.name !in delivered || delivered[r.name] != r {
        return false;
      }
    }
    return true;
  }

  class WorkloadStore {
    var files: Files

    constructor ()
      ensures files == map[]
    {
      files := map[];
    }

    method Load(id: string) returns (j: Option<Journal>)
      ensures j == if LoadsAs(files, id) then Some(files[id]) else None
    {
      if id !in files || files[id].workloadId != id {
        return None;
      }
      var ok := ValidateJournal(files[id]);
      return if ok then Some(files[id]) else None;
    }

    method Save(id: string, j: Journal, save: SaveResult) returns (ok: bool)
      modifies this
      ensures files == if save.Lost? then old(files) else old(files)[id := j]
      ensures ok == save.Confirmed?
    {
      if !save.Lost? {
        files := files[id := j];
      }
      return save.Confirmed?;
    }

    /** A new identity starts a journal; a known one is resumed, replayed or refused, and never changed. */
    method LoadOrCreate(id: string, requestHash: string, save: SaveResult)
      returns (j: Option<Journal>, how: Disposition)
      modifies this
      ensures id in old(files) ==> files == old(files)
      ensures id !in old(files) ==>
                files == if OpaqueId(id) && IsSha256(requestHash) && !save.Lost?
                         then old(files)[id := Fresh(id, requestHash)] else old(files)
      ensures j.Some? <==> OpaqueId(id) && IsSha256(requestHash)
                           && (if id in old(files) then LoadsAs(old(files), id) else save.Confirmed?)
      ensures j.Some? ==> id in files && j.value == files[id]
      ensures j.Some? ==> (how == RejectIdReuse <==> files[id].requestHash != requestHash)
      ensures j.Some? ==> (how == ReplayTerminal <==> files[id].requestHash == requestHash && files[id].terminal.Some?)
    {
      how := Resume;
      if !OpaqueId(id) || !IsSha256(requestHash) {
        return None, how;
      }
      if id !in files {
        var ok := Save(id, Fresh(id, requestHash), save);
        return if ok then Some(Fresh(id, requestHash)) else None, how;
      }
      j := Load(id);
      if j.Some? {
        how := ClassifyReplay(j.value.requestHash, requestHash, j.value.state != InProgress);
      }
    }

    method AppendProgress(id: string, note: Payload, save: SaveResult) returns (event: Option<StoredEvent>)
      modifies this
      ensures Served(old(files), files, id, Append(note), save, event.Some?)
      ensures event.Some? ==> id in files && files[id].progress != []
                              && event.value == files[id].progress[|files[id].progress| - 1]
    {
      var loaded := Load(id);
      if loaded.None? {
        return None;
      }
      var j := loaded.value;
      if j.state != InProgress || !note.ProgressNote? || note.phase.UnknownPhase?
         || note.percent < 0.0 || note.percent > 100.0 {
        return None;
      }
      var stored := StoredEvent(j.next, note);
      j := j.(next := j.next + 1, progress := j.progress + [stored]);
      if |j.progress| > MAX_STORED_PROGRESS {
        j := j.(progress := j.progress[|j.progress| - MAX_STORED_PROGRESS..]);
      }
      var ok := Save(id, j, save);
      return if ok then Some(stored) else None;
    }

    method SavePrepared(id: string, p: Prepared, save: SaveResult) returns (ok: bool)
      modifies this
      ensures Served(old(files), files, id, Prepare(p), save, ok)
    {
      var loaded := Load(id);
      if loaded.None? {
        return false;
      }
      var j := loaded.value;
      if j.state != InProgress || p.name == "" || !SafePrepared(p) || !PositiveVideo(p.video) {
        return false;
      }
      if p.name in j.delivered {
        return false;
      }
      j := j.(prepared := j.prepared[p.name := p]);
      ok := Save(id, j, save);
    }

    method SaveDelivered(id: string, r: Rendition, save: SaveResult) returns (ok: bool)
      modifies this
      ensures Served(old(files), files, id, Deliver(r), save, ok)
    {
      var loaded := Load(id);
      if loaded.None? {
        return false;
      }
      var j := loaded.value;
      if j.state != InProgress {
        return false;
      }
      if r.name !in j.prepared || !Matches(j.prepared[r.name], r) {
        return false;
      }
      if !ValidArtifactUri(r.playlistUri) || !ValidArtifactUri(r.streamUri) {
        return false;
      }
      j := j.(delivered := j.delivered[r.name := r]);
      ok := Save(id, j, save);
    }

    method SavePreparedManifest(id: string, a: Artifact, save: SaveResult) returns (ok: bool)
      modifies this
      ensures Served(old(files), files, id, PrepareManifest(a), save, ok)
    {
      var loaded := Load(id);
      if loaded.None? {
        return false;
      }
      var j := loaded.value;
      if j.state != InProgress || j.manifestUri != "" || !SafePath(a.path) || !IsSha256(a.hash) {
        return false;
      }
      j := j.(manifestPrepared := Some(a));
      ok := Save(id, j, save);
    }

    method SaveDeliveredManifest(id: string, uri: string, save: SaveResult) returns (ok: bool)
      modifies this
      ensures Served(old(files), files, id, DeliverManifest(uri), save, ok)
    {
      var loaded := Load(id);
      if loaded.None? {
        return false;
      }
      var j := loaded.value;
      if j.state != InProgress || j.manifestPrepared.None? || !ValidArtifactUri(uri) {
        return false;
      }
      j := j.(manifestUri := uri);
      ok := Save(id, j, save);
    }

    method RecordTerminalResult(id: string, result: TerminalResult, save: SaveResult) returns (ok: bool)
      modifies this
      ensures Served(old(files), files, id, Succeed(result), save, ok)
    {
      var valid := ValidateTerminalResult(result);
      if !valid {
        return false;
      }
      var loaded := Load(id);
      if loaded.None? {
        return false;
      }
      var j := loaded.value;
      if j.state != InProgress || result.workloadId != j.workloadId || result.requestHash != j.requestHash
         || result.manifestUri != j.manifestUri {
        return false;
      }
      var same := CompareCheckpoints(result.renditions, j.delivered);
      if !same {
        return false;
      }
      ok := Save(id, Finish(j, Succeeded, ResultNote(result)), save);
    }

    /** Recomputes the claim from the checkpoints, in map order. */
    method RecordTerminalError(id: string, error: TerminalError, save: SaveResult) returns (ok: bool)
      modifies this
      ensures Served(old(files), files, id, Fail(error), save, ok)
    {
      if !ValidError(error) {
        return false;
      }
      var loaded := Load(id);
      if loaded.None? {
        return false;
      }
      var j := loaded.value;
      if j.state != InProgress || error.workloadId != j.workloadId || error.requestHash != j.requestHash {
        return false;
      }
      var listed := Enumerate(j.delivered);
      ListingDecidesClaim(listed, j.delivered, error.units);
      var units := CalculateUnits(listed);
      if units != Some(error.units) {
        return false;
      }
      ok := Save(id, Finish(j, Failed, ErrorNote(error)), save);
    }

    method DeliveredWorkUnits(id: string) returns (units: Option<nat>)
      ensures units.Some? ==> LoadsAs(files, id) && ClaimIs(files[id].delivered, units.value)
      ensures LoadsAs(files, id) && units.None? ==> forall claim: nat :: !ClaimIs(files[id].delivered, claim)
    {
      var loaded := Load(id);
      if loaded.None? {
        return None;
      }
      var listed := Enumerate(loaded.value.delivered);
      units := CalculateUnits(listed);
      forall claim: nat ensures ClaimIs(loaded.value.delivered, claim) <==> units == Some(claim) {
        ListingDecidesClaim(listed, loaded.value.delivered, claim);
      }
    }
  }

  // ----- the terminal write of an execution -----

  /** A failure that may be persisted, or the generic one. */
  function SafeFailure(w: string, h: string, code: string, message: string): (e: TerminalError)
    ensures e.workloadId == w && e.requestHash == h && e.code != "" && e.message != "" && Redacted(e.message)
    ensures code != "" && message != "" && Redacted(message) ==> e.code == code && e.message == message
    ensures !(code != "" && message != "" && Redacted(message)) ==> e.code == "execution_failed"
  {
    if code != "" && message != "" && Redacted(message) then TerminalError(w, h, code, message, 0)
    else
      assert Redacted("ABR execution failed") by { GenericFailureIsRedacted(); }
      TerminalError(w, h, "execution_failed", "ABR execution failed", 0)
  }

  lemma GenericFailureIsRedacted()
    ensures Redacted("ABR execution failed") && Redacted("usage measurement failed")
  {
    var a, b := "ABR execution failed", "usage measurement failed";
    assert forall i :: 0 <= i < |a| ==> a[i] != '/' && a[i] != '=';
    assert forall i :: 0 <= i < |b| ==> b[i] != '/' && b[i] != '=';
    FreeOf(a, "http://", 6);
    FreeOf(a, "https://", 7);
    FreeOf(a, "sig=", 3);
    FreeOf(b, "http://", 6);
    FreeOf(b, "https://", 7);
    FreeOf(b, "sig=", 3);
  }

  lemma FreeOf(s: string, word: string, k: nat)
    requires k < |word| && !('a' <= word[k] <= 'z') && forall i :: 0 <= i < |s| ==> s[i] != word[k]
    ensures Free(s, word)
  {
    forall i | 0 <= i <= |s| - |word| ensures !Occurs(s, word, i) {
      assert Lower(s[i + k]) != word[k];
    }
  }

  /** The claim a failure carries: the delivered units, or zero with code "usage_failed" when they overflow. */
  method FailureFor(store: WorkloadStore, id: string, requestHash: string, code: string, message: string)
    returns (failure: TerminalError)
    requires LoadsAs(store.files, id) && store.files[id].requestHash == requestHash
    ensures ValidError(failure) && failure.workloadId == id && failure.requestHash == requestHash
    ensures forall claim: nat :: ClaimIs(store.files[id].delivered, claim) ==> failure.units == claim
    ensures forall claim: nat :: ClaimIs(store.files[id].delivered, claim) ==>
              failure == SafeFailure(id, requestHash, code, message).(units := claim)
    ensures (forall claim: nat :: !ClaimIs(store.files[id].delivered, claim)) ==> failure.code == "usage_failed"
  {
    failure := SafeFailure(id, requestHash, code, message);
    var units := store.DeliveredWorkUnits(id);
    if units.None? {
      GenericFailureIsRedacted();
      failure := TerminalError(id, requestHash, "usage_failed", "usage measurement failed", 0);
    } else {
      failure := failure.(units := units.value);
      OneClaimOnly(store.files[id].delivered);
    }
  }

  lemma OneClaimOnly(m: map<string, Rendition>)
    requires WellNamed(m)
    ensures forall a: nat, b: nat :: ClaimIs(m, a) && ClaimIs(m, b) ==> a == b
  {
    var s := ListingExists(m);
  }

  lemma FailureAccepted(j: Journal, failure: TerminalError)
    requires JournalInv(j) && j.state == InProgress
    requires ValidError(failure) && failure.workloadId == j.workloadId && failure.requestHash == j.requestHash
    requires forall claim: nat :: ClaimIs(j.delivered, claim) ==> failure.units == claim
    ensures AcceptsError(j, failure) <==> !Overflows(j.delivered)
  {
    FailureRecordableIff(j, failure);
    if !Overflows(j.delivered) {
      var units: nat :| AcceptsError(j, failure.(units := units));
    }
  }

  lemma ServedDecides(before: Files, after: Files, id: string, op: JournalOp, save: SaveResult, ok: bool)
    requires Served(before, after, id, op, save, ok) && LoadsAs(before, id)
    ensures save.Confirmed? ==> ok == Apply(before[id], op).Some?
    ensures Apply(before[id], op).None? ==> after == before && !ok
  {
  }

  /** The success branch of run, after Execute returned and the context is still alive. */
  method RecordSuccess(store: WorkloadStore, id: string, result: TerminalResult, save: SaveResult)
    returns (recorded: bool)
    requires LoadsAs(store.files, id)
    modifies store
    ensures Served(old(store.files), store.files, id, Succeed(result), save, recorded)
    ensures save.Confirmed? ==> (recorded <==> AcceptsResult(old(store.files[id]), result))
  {
    recorded := store.RecordTerminalResult(id, result, save);
    ServedDecides(old(store.files), store.files, id, Succeed(result), save, recorded);
  }

  lemma FailureServed(before: Files, after: Files, id: string, failure: TerminalError, save: SaveResult, ok: bool)
    requires Served(before, after, id, Fail(failure), save, ok) && LoadsAs(before, id)
    requires JournalInv(before[id]) && before[id].state == InProgress
    requires ValidError(failure) && failure.workloadId == id && failure.requestHash == before[id].requestHash
    requires forall claim: nat :: ClaimIs(before[id].delivered, claim) ==> failure.units == claim
    ensures save.Confirmed? ==> (ok <==> !Overflows(before[id].delivered))
    ensures Overflows(before[id].delivered) ==> after == before && !ok
  {
    FailureAccepted(before[id], failure);
    ServedDecides(before, after, id, Fail(failure), save, ok);
  }

  /** The failure branch of run: a confirmed save records the failure exactly when the delivered pixels do not
      overflow. When they do, the fallback "usage_failed" is refused and nothing is written. */
  method RecordFailure(
    store: WorkloadStore, id: string, requestHash: string, code: string, message: string, save: SaveResult)
    returns (recorded: bool, failure: TerminalError)
    requires LoadsAs(store.files, id) && store.files[id].requestHash == requestHash
    requires JournalInv(store.files[id]) && store.files[id].state == InProgress
    modifies store
    ensures Served(old(store.files), store.files, id, Fail(failure), save, recorded)
    ensures save.Confirmed? ==> (recorded <==> !Overflows(old(store.files[id].delivered)))
    ensures Overflows(old(store.files[id].delivered)) ==> store.files == old(store.files) && !recorded
  {
    failure := FailureFor(store, id, requestHash, code, message);
    recorded := store.RecordTerminalError(id, failure, save);
    FailureServed(old(store.files), store.files, id, failure, save, recorded);
  }
}
