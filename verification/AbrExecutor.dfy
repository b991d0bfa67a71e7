/** The durable executor: a loop over the preset's renditions that can stop anywhere, because of a failure or
    because the process died, and is started again from the journal (abr-runner/abr_executor_v2.go). */
module AbrExecutor {
  import opened Text
  import opened AbrContract
  import opened AbrJournal
  import opened AbrRuns
  import opened AbrStore
  import opened Durable

  datatype Destination = Destination(playlistUri: string, streamUri: string)

  datatype Request = Request(id: string, hash: string, manifestUri: string, outputs: map<string, Destination>)

  /** What ValidateABRRequestV2 demands of a request and the names of the selected preset. */
  ghost predicate ValidRequest(req: Request, names: seq<string>)
  {
    && OpaqueId(req.id) && IsSha256(req.hash) && ValidArtifactUri(req.manifestUri) && names != []
    && (forall i, k :: 0 <= i < k < |names| ==> names[i] != names[k])
    && (forall i :: 0 <= i < |names| ==> !Blank(names[i]) && names[i] in req.outputs)
  }

  // ----- what was done, over all attempts -----

  /** An attempt begins to encode, finds files it had prepared still good, has uploaded prepared files, or has
      written a delivered checkpoint; likewise for the manifest. */
  datatype Action =
    | Encoded(name: string)
    | Verified(name: string)
    | Uploaded(prepared: Prepared)
    | Checkpointed(name: string)
    | ManifestPackaged
    | ManifestVerified
    | ManifestUploaded
    | ManifestCheckpointed

  /** Nothing is encoded or uploaded once its checkpoint is there; an upload directly follows the encoding or the
      verification of the same rendition, and a checkpoint directly follows its upload. */
  predicate Needed(past: seq<Action>, action: Action)
  {
    match action
    case Encoded(n) => Checkpointed(n) !in past
    case Verified(n) => Checkpointed(n) !in past
    case Uploaded(p) => Checkpointed(p.name) !in past && (Last(past, Encoded(p.name)) || Last(past, Verified(p.name)))
    case Checkpointed(n) =>
      Checkpointed(n) !in past && past != [] && past[|past| - 1].Uploaded? && past[|past| - 1].prepared.name == n
    case ManifestPackaged => ManifestCheckpointed !in past
    case ManifestVerified => ManifestCheckpointed !in past
    case ManifestUploaded =>
      ManifestCheckpointed !in past && (Last(past, ManifestPackaged) || Last(past, ManifestVerified))
    case ManifestCheckpointed => ManifestCheckpointed !in past && Last(past, ManifestUploaded)
  }

  predicate Last(past: seq<Action>, action: Action) { past != [] && past[|past| - 1] == action }

  ghost predicate NoRework(log: seq<Action>)
  {
    forall k :: 0 <= k < |log| ==> Needed(log[..k], log[k])
  }

  lemma NoReworkGrows(log: seq<Action>, action: Action)
    requires NoRework(log) && Needed(log, action)
    ensures NoRework(log + [action])
  {
    var all := log + [action];
    forall k | 0 <= k < |all| ensures Needed(all[..k], all[k]) {
      if k < |log| {
        assert all[..k] == log[..k];
      } else {
        assert all[..k] == log;
      }
    }
  }

  /** The log's checkpoints are the journal's, and what was uploaded for each is its prepared checkpoint. */
  ghost predicate LogMatches(log: seq<Action>, j: Journal)
  {
    && (forall n :: Checkpointed(n) in log <==> n in j.delivered)
    && (forall n :: n in j.delivered ==> n in j.prepared && Uploaded(j.prepared[n]) in log)
    && (ManifestCheckpointed in log <==> j.manifestUri != "")
  }

  /** A name that is one directory of the workload's own. */
  predicate SafeName(name: string) { SafePath(name) && '/' !in name }

  /** A delivered rendition stands where the request wants it, as the prepared checkpoint measured it. */
  predicate DeliveredAs(req: Request, r: Rendition, p: Prepared)
  {
    && r.name in req.outputs && SafeName(r.name)
    && r.playlistUri == req.outputs[r.name].playlistUri && r.streamUri == req.outputs[r.name].streamUri
    && r.video == p.video && r.bytes == p.bytes
  }

  /** The journal of this request under this preset. */
  ghost predicate Owned(req: Request, names: seq<string>, j: Journal)
  {
    && j.workloadId == req.id && j.requestHash == req.hash
    && (forall n :: n in j.delivered ==> n in names && n == j.delivered[n].name)
    && (forall n :: n in j.delivered ==> n in j.prepared && DeliveredAs(req, j.delivered[n], j.prepared[n]))
    && (j.manifestUri == "" || j.manifestUri == req.manifestUri)
  }

  ghost predicate SameWork(j: Journal, j': Journal)
  {
    && j'.workloadId == j.workloadId && j'.requestHash == j.requestHash
    && j'.delivered == j.delivered && j'.manifestUri == j.manifestUri
    && j'.state == j.state
  }

  ghost predicate SamePreparedBut(j: Journal, j': Journal, name: string)
  {
    forall n :: n in j.prepared && n != name ==> n in j'.prepared && j'.prepared[n] == j.prepared[n]
  }

  lemma CheckpointsComplete(delivered: seq<Rendition>, j: Journal)
    requires NamesDistinct(delivered)
    requires forall i :: 0 <= i < |delivered| ==>
            delivered[i].name in j.delivered && j.delivered[delivered[i].name] == delivered[i]
    requires j.delivered.Keys <= Names(delivered)
    ensures SameAsCheckpoints(delivered, j.delivered)
  {
    DistinctNamesCount(delivered);
    assert j.delivered.Keys == Names(delivered);
    assert |j.delivered| == |j.delivered.Keys|;
  }

  predicate ListsPreset(renditions: seq<Rendition>, names: seq<string>)
  {
    |renditions| == |names| && forall i :: 0 <= i < |names| ==> renditions[i].name == names[i]
  }

  /** After `i` renditions: `done` are their checkpoints, and the rest of the journal is as it was loaded. */
  ghost predicate CaughtUp(names: seq<string>, i: nat, done: seq<Rendition>, record: Journal, j: Journal)
  {
    && i <= |names| && ListsPreset(done, names[..i])
    && (forall k :: 0 <= k < i ==> names[k] in j.delivered && j.delivered[names[k]] == done[k])
    && (forall k :: i <= k < |names| ==>
          (names[k] in j.delivered <==> names[k] in record.delivered)
          && (names[k] in record.delivered ==> j.delivered[names[k]] == record.delivered[names[k]]))
    && (forall k :: i <= k < |names| && names[k] in record.prepared ==>
          names[k] in j.prepared && j.prepared[names[k]] == record.prepared[names[k]])
    && (forall n :: n in record.prepared ==> record.prepared[n].name == n)
    && (forall n :: n in record.delivered ==> record.delivered[n].name == n)
    && j.manifestUri == record.manifestUri
  }

  lemma StartCaughtUp(names: seq<string>, record: Journal)
    requires ValidJournal(record)
    ensures CaughtUp(names, 0, [], record, record)
  {
  }

  lemma KeepCheckpoint(names: seq<string>, i: nat, done: seq<Rendition>, record: Journal, j: Journal)
    requires CaughtUp(names, i, done, record, j) && i < |names| && names[i] in record.delivered
    ensures CaughtUp(names, i + 1, done + [record.delivered[names[i]]], record, j)
  {
  }

  lemma AddProduct(
    names: seq<string>, i: nat, done: seq<Rendition>, record: Journal, j: Journal, j': Journal, r: Rendition)
    requires CaughtUp(names, i, done, record, j) && i < |names| && r.name == names[i]
    requires forall a, b :: 0 <= a < b < |names| ==> names[a] != names[b]
    requires j'.delivered == j.delivered[names[i] := r] && j'.manifestUri == j.manifestUri
    requires SamePreparedBut(j, j', names[i])
    ensures CaughtUp(names, i + 1, done + [r], record, j')
  {
  }

  /** A complete list of checkpoints in preset order is a result the journal accepts. */
  lemma ResultAccepted(
    req: Request, names: seq<string>, record: Journal, j: Journal, delivered: seq<Rendition>, units: nat)
    requires ValidRequest(req, names) && JournalInv(j) && Owned(req, names, j)
    requires j.state == InProgress && j.manifestUri == req.manifestUri
    requires CaughtUp(names, |names|, delivered, record, j.(manifestUri := record.manifestUri))
    requires Computable(delivered) && units == UnitsFor(TotalPixels(delivered))
    ensures ListsPreset(delivered, names)
    ensures AcceptsResult(j, TerminalResult(req.id, req.hash, req.manifestUri, delivered, units))
  {
    assert names[..|names|] == names;
    forall n | n in j.delivered ensures n in Names(delivered) {
      var i :| 0 <= i < |names| && names[i] == n;
      assert delivered[i].name == n;
    }
    CheckpointsComplete(delivered, j);
    forall i | 0 <= i < |delivered| ensures ValidRendition(delivered[i]) {
      assert ValidRendition(j.delivered[names[i]]);
    }
  }

  lemma PrepareStep(req: Request, names: seq<string>, log: seq<Action>, j: Journal, p: Prepared, j': Journal)
    requires JournalInv(j) && Owned(req, names, j) && LogMatches(log, j) && Next(j, Prepare(p), j')
    ensures JournalInv(j')
    ensures Owned(req, names, j') && LogMatches(log, j') && SameWork(j, j') && SamePreparedBut(j, j', p.name)
  {
    StepKeepsInv(j, Prepare(p), j');
  }

  lemma DeliverStepOwned(req: Request, names: seq<string>, j: Journal, r: Rendition, j': Journal)
    requires Owned(req, names, j) && Next(j, AbrRuns.Deliver(r), j') && r.name in names
    requires r.name in j.prepared && DeliveredAs(req, r, j.prepared[r.name])
    ensures Owned(req, names, j') && j'.prepared == j.prepared
  {
  }

  lemma DeliverStepLog(log: seq<Action>, j: Journal, r: Rendition, j': Journal)
    requires LogMatches(log, j) && Next(j, AbrRuns.Deliver(r), j') && r.name !in j.delivered
    requires r.name in j.prepared && Uploaded(j.prepared[r.name]) in log
    ensures LogMatches(if r.name in j'.delivered then log + [Checkpointed(r.name)] else log, j')
  {
  }

  /** Everything one delivered checkpoint does to the journal and its log. */
  lemma DeliverStep(req: Request, names: seq<string>, log: seq<Action>, j: Journal, r: Rendition, j': Journal)
    requires JournalInv(j) && Owned(req, names, j) && LogMatches(log, j) && Next(j, AbrRuns.Deliver(r), j')
    requires r.name in names && r.name !in j.delivered && r.name in j.prepared
    requires DeliveredAs(req, r, j.prepared[r.name]) && Uploaded(j.prepared[r.name]) in log
    ensures JournalInv(j') && Owned(req, names, j')
    ensures LogMatches(if r.name in j'.delivered then log + [Checkpointed(r.name)] else log, j')
    ensures j' == j.(delivered := j'.delivered)
    ensures j'.delivered == j.delivered || j'.delivered == j.delivered[r.name := r]
  {
    StepKeepsInv(j, AbrRuns.Deliver(r), j');
    DeliverStepOwned(req, names, j, r, j');
    DeliverStepLog(log, j, r, j');
  }

  lemma EndStep(req: Request, names: seq<string>, log: seq<Action>, j: Journal, op: JournalOp, j': Journal)
    requires JournalInv(j) && Owned(req, names, j) && LogMatches(log, j) && Next(j, op, j') && (op.Succeed? || op.Fail?)
    ensures JournalInv(j') && Owned(req, names, j') && LogMatches(log, j')
  {
    StepKeepsInv(j, op, j');
  }

  lemma ErrorServed(before: Files, after: Files, id: string, error: TerminalError, save: SaveResult, ok: bool)
    requires Served(before, after, id, Fail(error), save, ok) && LoadsAs(before, id)
    ensures id in after && Next(before[id], Fail(error), after[id])
  {
  }

  lemma DeliveredServed(before: Files, after: Files, id: string, r: Rendition, save: SaveResult, ok: bool)
    requires Served(before, after, id, AbrRuns.Deliver(r), save, ok) && LoadsAs(before, id)
    ensures id in after && Next(before[id], AbrRuns.Deliver(r), after[id])
    ensures ok ==> after[id].delivered == before[id].delivered[r.name := r]
  {
  }

  lemma ResultServed(before: Files, after: Files, id: string, result: TerminalResult, save: SaveResult, ok: bool)
    requires Served(before, after, id, Succeed(result), save, ok) && LoadsAs(before, id)
    ensures id in after && Next(before[id], Succeed(result), after[id])
    ensures save.Confirmed? && AcceptsResult(before[id], result) ==> after[id].state == Succeeded
  {
  }

  class Executor {
    const store: WorkloadStore
    ghost var log: seq<Action>

    constructor (store: WorkloadStore)
      ensures this.store == store && log == []
    {
      this.store, log := store, [];
    }

    ghost predicate Valid(req: Request, names: seq<string>)
      reads this, store
    {
      && ValidRequest(req, names)
      && req.id in store.files && JournalInv(store.files[req.id]) && Owned(req, names, store.files[req.id])
      && NoRework(log) && LogMatches(log, store.files[req.id])
    }

    ghost function Current(req: Request): (j: Journal)
      requires req.id in store.files
      reads this, store
    {
      store.files[req.id]
    }

    /** A progress report; it succeeds only on a journal in progress. */
    method Progress(req: Request, names: seq<string>, note: Payload) returns (ok: bool)
      requires Valid(req, names)
      modifies store
      ensures Valid(req, names) && SameWork(old(Current(req)), Current(req))
      ensures Current(req).prepared == old(Current(req)).prepared
      ensures ok ==> Current(req).state == InProgress
    {
      var save: SaveResult := *;
      ghost var j := Current(req);
      var event := store.AppendProgress(req.id, note, save);
      StepKeepsInv(j, Append(note), Current(req));
      return event.Some?;
    }

    /** Encodes one rendition and checkpoints the output: encoding may fail, and yields anything it likes
        under the rendition's name. */
    method Encode(req: Request, names: seq<string>, name: string) returns (prepared: Option<Prepared>)
      requires Valid(req, names) && name in names && name !in Current(req).delivered
      modifies store, this`log
      ensures Valid(req, names) && SameWork(old(Current(req)), Current(req))
      ensures SamePreparedBut(old(Current(req)), Current(req), name) && Last(log, Encoded(name))
      ensures prepared.Some? ==> name in Current(req).prepared && Current(req).prepared[name] == prepared.value
    {
      log := log + [Encoded(name)];
      NoReworkGrows(old(log), Encoded(name));
      var output: Option<Prepared> :| output.Some? ==> output.value.name == name;
      if output.None? {
        return None;
      }
      var save: SaveResult := *;
      ghost var j := Current(req);
      var ok := store.SavePrepared(req.id, output.value, save);
      PrepareStep(req, names, log, j, output.value, Current(req));
      return if ok then output else None;
    }

    /** Uploads one prepared rendition and checkpoints its delivery. */
    method Deliver(req: Request, names: seq<string>, name: string, prepared: Prepared)
      returns (result: Option<Rendition>)
      requires Valid(req, names) && name in names && SafeName(name) && name !in Current(req).delivered
      requires name in Current(req).prepared && Current(req).prepared[name] == prepared
      requires Last(log, Encoded(name)) || Last(log, Verified(name))
      modifies store, this`log
      ensures Valid(req, names) && Current(req).manifestUri == old(Current(req)).manifestUri
      ensures Current(req).state == old(Current(req)).state
      ensures Current(req).delivered == old(Current(req)).delivered
              || exists r: Rendition :: r.name == name
                  && Current(req).delivered == old(Current(req)).delivered[name := r]
      ensures result.Some? ==>
              result.value.name == name && Current(req).delivered == old(Current(req)).delivered[name := result.value]
      ensures result.Some? ==> DeliveredAs(req, result.value, prepared)
      ensures Current(req).prepared == old(Current(req)).prepared
    {
      var sent: bool := *;
      if !sent {
        return None;
      }
      log := log + [Uploaded(prepared)];
      NoReworkGrows(old(log), Uploaded(prepared));
      var destination := req.outputs[name];
      var r := Rendition(name, destination.playlistUri, destination.streamUri, prepared.video, prepared.bytes);
      var ok := Checkpoint(req, names, r);
      return if ok then Some(r) else None;
    }

    method Checkpoint(req: Request, names: seq<string>, r: Rendition) returns (ok: bool)
      requires Valid(req, names) && r.name in names && r.name !in Current(req).delivered
      requires r.name in Current(req).prepared && DeliveredAs(req, r, Current(req).prepared[r.name])
      requires Current(req).prepared[r.name].name == r.name && Last(log, Uploaded(Current(req).prepared[r.name]))
      modifies store, this`log
      ensures Valid(req, names) && Current(req).manifestUri == old(Current(req)).manifestUri
      ensures Current(req).state == old(Current(req)).state && Current(req).prepared == old(Current(req)).prepared
      ensures Current(req).delivered == old(Current(req)).delivered
              || Current(req).delivered == old(Current(req)).delivered[r.name := r]
      ensures ok ==> Current(req).delivered == old(Current(req)).delivered[r.name := r]
    {
      var save: SaveResult := *;
      ghost var j := Current(req);
      ok := store.SaveDelivered(req.id, r, save);
      DeliveredServed(old(store.files), store.files, req.id, r, save, ok);
      DeliverStep(req, names, log, j, r, Current(req));
      if r.name in Current(req).delivered {
        NoReworkGrows(log, Checkpointed(r.name));
        log := log + [Checkpointed(r.name)];
      }
    }

    method PackageManifest(req: Request, names: seq<string>) returns (ok: bool)
      requires Valid(req, names) && Current(req).manifestUri == ""
      modifies store, this`log
      ensures Valid(req, names) && SameWork(old(Current(req)), Current(req)) && Last(log, ManifestPackaged)
    {
      NoReworkGrows(log, ManifestPackaged);
      log := log + [ManifestPackaged];
      var artifact: Option<Artifact> :| true;
      if artifact.None? {
        return false;
      }
      var save: SaveResult := *;
      ghost var j := Current(req);
      ok := store.SavePreparedManifest(req.id, artifact.value, save);
      StepKeepsInv(j, PrepareManifest(artifact.value), Current(req));
    }

    /** Uploads the packaged manifest and checkpoints its delivery. */
    method DeliverManifest(req: Request, names: seq<string>) returns (ok: bool)
      requires Valid(req, names) && Current(req).manifestUri == ""
      requires Last(log, ManifestPackaged) || Last(log, ManifestVerified)
      modifies store, this`log
      ensures Valid(req, names)
      ensures Current(req).delivered == old(Current(req)).delivered && Current(req).state == old(Current(req)).state
      ensures ok ==> Current(req).manifestUri == req.manifestUri
    {
      var sent: bool := *;
      if !sent {
        return false;
      }
      NoReworkGrows(log, ManifestUploaded);
      log := log + [ManifestUploaded];
      var save: SaveResult := *;
      ghost var j := Current(req);
      ok := store.SaveDeliveredManifest(req.id, req.manifestUri, save);
      StepKeepsInv(j, AbrRuns.DeliverManifest(req.manifestUri), Current(req));
      if Current(req).manifestUri != "" {
        NoReworkGrows(log, ManifestCheckpointed);
        log := log + [ManifestCheckpointed];
      }
    }

    /** Whether prepared files still have their recorded hashes; only a check that succeeds counts as one. */
    method Verify(name: string, ghost req: Request, ghost names: seq<string>) returns (intact: bool)
      requires Valid(req, names) && name !in Current(req).delivered
      modifies this`log
      ensures Valid(req, names) && (if intact then Last(log, Verified(name)) else log == old(log))
    {
      intact := *;
      if intact {
        NoReworkGrows(log, Verified(name));
        log := log + [Verified(name)];
      }
    }

    method VerifyManifest(ghost req: Request, ghost names: seq<string>) returns (intact: bool)
      requires Valid(req, names) && Current(req).manifestUri == ""
      modifies this`log
      ensures Valid(req, names) && (if intact then Last(log, ManifestVerified) else log == old(log))
    {
      intact := *;
      if intact {
        NoReworkGrows(log, ManifestVerified);
        log := log + [ManifestVerified];
      }
    }

    /** One rendition of the loop that has no delivered checkpoint in the journal loaded at the start. */
    method Produce(req: Request, names: seq<string>, name: string, record: Journal) returns (result: Option<Rendition>)
      requires Valid(req, names) && name in names && SafeName(name) && name !in Current(req).delivered
      requires name in record.prepared ==>
                 name in Current(req).prepared && Current(req).prepared[name] == record.prepared[name]
      modifies store, this`log
      ensures Valid(req, names) && Current(req).manifestUri == old(Current(req)).manifestUri
      ensures SamePreparedBut(old(Current(req)), Current(req), name)
      ensures result.Some? ==>
              result.value.name == name && Current(req).delivered == old(Current(req)).delivered[name := result.value]
    {
      var intact := false;
      if name in record.prepared {
        intact := Verify(name, req, names);
      }
      var prepared: Prepared;
      if intact {
        prepared := record.prepared[name];
      } else {
        var output := Encode(req, names, name);
        if output.None? {
          return None;
        }
        prepared := output.value;
      }
      var note: Payload :| true;
      var ok := Progress(req, names, note);
      if !ok {
        return None;
      }
      result := Deliver(req, names, name, prepared);
    }

    /** One turn of the loop over the preset. */
    method ProduceNext(req: Request, names: seq<string>, i: nat, done: seq<Rendition>, record: Journal)
      returns (more: Option<seq<Rendition>>)
      requires Valid(req, names) && i < |names| && CaughtUp(names, i, done, record, Current(req))
      modifies store, this`log
      ensures Valid(req, names)
      ensures more.Some? ==> CaughtUp(names, i + 1, more.value, record, Current(req))
    {
      if !SafeName(names[i]) {
        return None;
      }
      if names[i] in record.delivered {
        KeepCheckpoint(names, i, done, record, Current(req));
        return Some(done + [record.delivered[names[i]]]);
      }
      ghost var j := Current(req);
      var produced := Produce(req, names, names[i], record);
      if produced.None? {
        return None;
      }
      AddProduct(names, i, done, record, j, Current(req), produced.value);
      return Some(done + [produced.value]);
    }

    /** The loop over the preset, against the journal loaded before it. */
    method ProduceAll(req: Request, names: seq<string>, record: Journal) returns (delivered: Option<seq<Rendition>>)
      requires Valid(req, names) && Current(req) == record
      modifies store, this`log
      ensures Valid(req, names)
      ensures delivered.Some? ==> CaughtUp(names, |names|, delivered.value, record, Current(req))
    {
      StartCaughtUp(names, record);
      delivered := Some([]);
      for i := 0 to |names|
        invariant Valid(req, names) && delivered.Some? && CaughtUp(names, i, delivered.value, record, Current(req))
      {
        delivered := ProduceNext(req, names, i, delivered.value, record);
        if delivered.None? {
          return;
        }
      }
    }

    /** One attempt. It may stop anywhere; when it succeeds, its result lists the preset's renditions in order,
        each where the request wants it, also those of earlier attempts, and the journal accepts it. */
    method Execute(req: Request, names: seq<string>) returns (result: Option<TerminalResult>)
      requires Valid(req, names)
      modifies store, this`log
      ensures Valid(req, names)
      ensures result.Some? ==> ListsPreset(result.value.renditions, names) && AcceptsResult(Current(req), result.value)
      ensures result.Some? ==> forall i :: 0 <= i < |names| ==>
                names[i] in Current(req).prepared
                && DeliveredAs(req, result.value.renditions[i], Current(req).prepared[names[i]])
    {
      var note: Payload :| true;
      var ok := Progress(req, names, note);
      var probed: bool := *;
      if !ok || !probed {
        return None;
      }
      var loaded := store.Load(req.id);
      if loaded.None? {
        return None;
      }
      var record := loaded.value;
      var delivered := ProduceAll(req, names, record);
      if delivered.None? {
        return None;
      }
      ok := Progress(req, names, note);
      if !ok {
        return None;
      }
      ok := FinishManifest(req, names, record);
      if !ok {
        return None;
      }
      var units := CalculateUnits(delivered.value);
      if units.None? {
        return None;
      }
      ResultAccepted(req, names, record, Current(req), delivered.value, units.value);
      return Some(TerminalResult(req.id, req.hash, req.manifestUri, delivered.value, units.value));
    }

    /** Nothing to do when the manifest was delivered before; packaging is skipped when it is still good. */
    method FinishManifest(req: Request, names: seq<string>, record: Journal) returns (ok: bool)
      requires Valid(req, names) && Current(req).manifestUri == record.manifestUri
      modifies store, this`log
      ensures Valid(req, names)
      ensures Current(req).delivered == old(Current(req)).delivered && Current(req).state == old(Current(req)).state
      ensures ok ==> Current(req).manifestUri == req.manifestUri
    {
      if record.manifestUri != "" {
        return true;
      }
      var intact := false;
      if record.manifestPrepared.Some? {
        intact := VerifyManifest(req, names);
      }
      if !intact {
        var packaged := PackageManifest(req, names);
        if !packaged {
          return false;
        }
      }
      ok := DeliverManifest(req, names);
    }

    method RecordResult(req: Request, names: seq<string>, result: TerminalResult, save: SaveResult)
      requires Valid(req, names)
      modifies store
      ensures Valid(req, names)
      ensures save.Confirmed? && AcceptsResult(old(Current(req)), result) ==> Current(req).state == Succeeded
    {
      ghost var j := Current(req);
      var recorded := store.RecordTerminalResult(req.id, result, save);
      ResultServed(old(store.files), store.files, req.id, result, save, recorded);
      EndStep(req, names, log, j, Succeed(result), Current(req));
    }

    method RecordError(req: Request, names: seq<string>, error: TerminalError, save: SaveResult)
      requires Valid(req, names)
      modifies store
      ensures Valid(req, names)
    {
      ghost var j := Current(req);
      var recorded := store.RecordTerminalError(req.id, error, save);
      ErrorServed(old(store.files), store.files, req.id, error, save, recorded);
      EndStep(req, names, log, j, Fail(error), Current(req));
    }

    /** The terminal write after an attempt, if the process lives to make it. */
    method RecordEnding(
      req: Request, names: seq<string>, result: Option<TerminalResult>, error: TerminalError, save: SaveResult)
      requires Valid(req, names)
      modifies store
      ensures Valid(req, names)
      ensures result.Some? && save.Confirmed? && AcceptsResult(old(Current(req)), result.value) ==>
              Current(req).state == Succeeded
    {
      if result.Some? {
        RecordResult(req, names, result.value, save);
      } else {
        RecordError(req, names, error, save);
      }
    }

    /** Any number of attempts, each of which may fail or die anywhere and may or may not get to record its
        ending: nothing delivered is ever produced again. */
    method Attempt(req: Request, names: seq<string>, attempts: nat)
      requires Valid(req, names)
      modifies store, this`log
      ensures Valid(req, names)
    {
      for i := 0 to attempts
        invariant Valid(req, names)
      {
        var result := Execute(req, names);
        var alive: bool := *;
        if alive {
          var error: TerminalError :| true;
          var save: SaveResult := *;
          RecordEnding(req, names, result, error, save);
        }
      }
    }
  }

  /** From the first request on, in every schedule of failures, crashes and restarts with the same request and
      preset: no rendition and no manifest is encoded, uploaded or checkpointed once its checkpoint is there, every
      upload directly follows an encoding or a check of the same files, and every delivered rendition stands where
      the request wants it with the measures of the prepared files that were uploaded. */
  method EverySchedule(store: WorkloadStore, req: Request, names: seq<string>, attempts: nat) returns (e: Executor)
    requires ValidRequest(req, names) && req.id !in store.files
    modifies store
    ensures e.store == store && NoRework(e.log)
    ensures req.id in store.files ==>
              var j := store.files[req.id];
              JournalInv(j) && LogMatches(e.log, j) && Owned(req, names, j)
  {
    e := new Executor(store);
    var save: SaveResult := *;
    var j, how := store.LoadOrCreate(req.id, req.hash, save);
    if req.id in store.files {
      FreshInv(req.id, req.hash);
      e.Attempt(req, names, attempts);
    }
  }
}
