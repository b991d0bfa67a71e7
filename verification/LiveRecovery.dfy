/** Recovery after a restart: sessions found stopping are torn down and finalised, sessions found with a
    half-finished key rotation complete it, the others are started again (live-runner/recovery.go). */
module LiveRecovery {
  import opened Text
  import opened LiveContract
  import opened LiveRecord
  import opened LiveOps
  import opened LiveInvariant
  import opened LiveStore
  import opened Durable

  ghost predicate AllSound(files: Files) { forall id :: id in files ==> Inv(files[id], id) }

  /** Neither half-terminated nor half-rotated. */
  predicate Settled(r: Record) { !r.lifecycle.stopping && r.lifecycle.pendingActivation.None? }

  ghost predicate OnlyTouches(before: Files, after: Files, id: string)
  {
    after.Keys == before.Keys && forall k :: k in before && k != id ==> after[k] == before[k]
  }

  /** A served operation whose saved records keep the invariant keeps it for the whole directory. */
  lemma ServedKeepsSound<T>(
    before: Files, after: Files, id: string, op: Record -> Outcome<T>, save: SaveResult, reply: Reply<T>)
    requires AllSound(before) && id in before && Served(before, after, id, op, save, reply)
    requires op(before[id]).Saved? ==> Inv(op(before[id]).record, id)
    ensures AllSound(after) && OnlyTouches(before, after, id)
  {
    if after != before {
      assert after == before[id := op(before[id]).record];
      SoundUpdate(before, id, op(before[id]).record);
    }
  }

  /** An event that leaves the session active leaves its lifecycle alone. */
  lemma StartServed(before: Files, after: Files, id: string, now: int, save: SaveResult, reply: Reply<()>)
    requires id in before && Loadable(before[id], id)
    requires Served(before, after, id, r => Advance(r, StartedEvent(before[id], now)), save, reply)
    ensures id in after && after[id].lifecycle == before[id].lifecycle
    ensures reply.Done? ==> after[id].outbox.lastSequence == 1
  {
  }

  lemma SoundUpdate(before: Files, id: string, r: Record)
    requires AllSound(before) && id in before && Inv(r, id)
    ensures AllSound(before[id := r]) && OnlyTouches(before, before[id := r], id)
  {
    var after := before[id := r];
    forall k | k in after ensures Inv(after[k], k) {
      if k != id {
        assert k in before && after[k] == before[k];
      }
    }
  }

  ghost predicate SettledBut(files: Files, left: set<string>)
  {
    forall id :: id in files && id !in left ==> Settled(files[id])
  }

  lemma SettledOneMore(before: Files, after: Files, left: set<string>, id: string)
    requires SettledBut(before, left) && OnlyTouches(before, after, id) && id in before && Settled(after[id])
    ensures SettledBut(after, left - {id})
  {
  }

  /** FinalizeLiveTerminationV1: on a session that is stopping it fails only when its save does, or when no
      further event identity exists; on one that has ended it reports the recorded end. */
  method FinalizeLiveTermination(store: SessionStore, id: string, now: int, save: SaveResult)
    returns (ended: Option<Record>)
    requires id in store.files && AllSound(store.files) && now != 0
    modifies store
    ensures AllSound(store.files) && OnlyTouches(old(store.files), store.files, id)
    ensures ended.Some? ==> ended.value == store.files[id] && store.files[id].lifecycle.state != Active
    ensures old(store.files[id]).lifecycle.state != Active ==> ended.Some? && store.files == old(store.files)
    ensures Open(old(store.files[id])) ==> ended.None? && store.files == old(store.files)
    ensures var r := old(store.files[id]);
            r.lifecycle.state == Active && r.lifecycle.stopping && save.Confirmed? ==>
              (ended.Some? <==> r.outbox.lastSequence < MAX_U64 && EventIdFits(r.runner, r.outbox.lastSequence + 1))
  {
    var loaded := store.Load(id);
    if loaded.None? {
      return None;
    }
    var record := loaded.value;
    if record.lifecycle.state != Active {
      return loaded;
    }
    if !record.lifecycle.stopping {
      return None;
    }
    var event := TerminalEvent(record, now);
    FinalizeSucceedsIff(record, id, now);
    if Advance(record, event).Saved? {
      FinalizeKeepsInv(record, id, now);
      FinalStateIsTerminal(record, id, now);
    }
    var reply := store.Advance(id, event, save);
    ServedKeepsSound(old(store.files), store.files, id, r => Advance(r, event), save, reply);
    if reply.Error? {
      return None;
    }
    ended := store.Load(id);
  }

  lemma FinalStateIsTerminal(r: Record, id: string, now: int)
    requires Inv(r, id) && r.lifecycle.state == Active && r.lifecycle.stopping
            && Advance(r, TerminalEvent(r, now)).Saved?
    ensures Advance(r, TerminalEvent(r, now)).record.lifecycle.state != Active
  {
    assert ValidLifecycle(r.lifecycle);
  }

  /** EnsureSession as far as the store sees it: the first start enqueues the session's first event. */
  method EnsureSession(store: SessionStore, id: string, now: int, admitted: bool, save: SaveResult) returns (ok: bool)
    requires id in store.files && AllSound(store.files)
    modifies store
    ensures AllSound(store.files) && OnlyTouches(old(store.files), store.files, id)
    ensures store.files[id].lifecycle == old(store.files[id]).lifecycle
    ensures ok ==> admitted && Open(store.files[id]) && store.files[id].outbox.lastSequence > 0
    ensures !admitted || old(store.files[id]).outbox.lastSequence > 0 ==> store.files == old(store.files)
  {
    var loaded := store.Load(id);
    if loaded.None? || !Open(loaded.value) || !admitted {
      return false;
    }
    var record := loaded.value;
    if record.outbox.lastSequence > 0 {
      return true;
    }
    var event := StartedEvent(record, now);
    if Advance(record, event).Saved? {
      StartKeepsInv(record, id, now);
    }
    var reply := store.Advance(id, event, save);
    ServedKeepsSound(old(store.files), store.files, id, r => Advance(r, event), save, reply);
    StartServed(old(store.files), store.files, id, now, save, reply);
    return reply.Done?;
  }

  method FinishRotation(store: SessionStore, id: string, kicked: bool, save: SaveResult) returns (ok: bool)
    requires id in store.files && AllSound(store.files) && Open(store.files[id])
    modifies store
    ensures AllSound(store.files) && OnlyTouches(old(store.files), store.files, id)
    ensures Open(store.files[id])
    ensures ok ==> Settled(store.files[id])
    ensures kicked && save.Confirmed? ==> ok
    ensures !kicked && old(store.files[id]).lifecycle.pendingActivation.Some? ==> !ok && store.files == old(store.files)
  {
    var record := store.files[id];
    assert ValidRecord(record, id) && ValidLifecycle(record.lifecycle);
    if record.lifecycle.pendingActivation.None? {
      return true;
    }
    if !kicked {
      return false;
    }
    var requestId := record.lifecycle.pendingActivation.value;
    RotationCompletes(record, id);
    CompleteActivationKeepsInv(record, id, requestId);
    var reply := store.CompleteKeyActivation(id, requestId, save);
    ServedKeepsSound(old(store.files), store.files, id, r => CompleteActivation(r, requestId), save, reply);
    return reply.Done?;
  }

  /** A pending activation is always the current key's, so completing it is never refused. */
  lemma RotationCompletes(r: Record, id: string)
    requires Inv(r, id) && Open(r) && r.lifecycle.pendingActivation.Some?
    ensures CompleteActivation(r, r.lifecycle.pendingActivation.value).Saved?
  {
    assert r.secrets.Some?;
    var s := r.secrets.value;
    assert ValidSecretsIdentity(r, s) && s.currentKey in s.keys;
    assert ValidStoredKey(s.currentKey, s.keys[s.currentKey], s.currentKey);
  }

  /** One session of the recovery loop, under an arbitrary fate of each save. Without the media's consent, to the
      teardown or to the kick, nothing is finalised and no rotation is completed. */
  method RecoverSession(store: SessionStore, id: string, now: int, media: bool) returns (ok: bool)
    requires id in store.files && AllSound(store.files) && now != 0
    modifies store
    ensures AllSound(store.files) && OnlyTouches(old(store.files), store.files, id)
    ensures ok ==> Settled(store.files[id])
    ensures !media && old(store.files[id]).lifecycle.state == Active && !Settled(old(store.files[id])) ==>
              !ok && store.files == old(store.files)
  {
    var save: SaveResult := *;
    var loaded := store.Load(id);
    if loaded.None? {
      return false;
    }
    var record := loaded.value;
    assert ValidLifecycle(record.lifecycle);
    if record.lifecycle.state != Active {
      return true;
    }
    if record.lifecycle.stopping {
      if !media {
        return false;
      }
      var ended := FinalizeLiveTermination(store, id, now, save);
      assert ended.Some? ==> ValidLifecycle(store.files[id].lifecycle);
      return ended.Some?;
    }
    ok := FinishRotation(store, id, media, save);
    if !ok {
      return false;
    }
    var admitted: bool := *;
    save := *;
    ok := EnsureSession(store, id, now, admitted, save);
  }

  /** RecoverLiveSessionsV1: when it succeeds no session is left half-terminated or half-rotated; when it stops
      at an error the directory is still sound, so it can be run again. */
  method RecoverLiveSessions(store: SessionStore, now: int) returns (ok: bool)
    requires AllSound(store.files) && now != 0
    modifies store
    ensures AllSound(store.files) && store.files.Keys == old(store.files).Keys
    ensures ok ==> SettledBut(store.files, {})
  {
    var left := store.files.Keys;
    while left != {}
      invariant left <= store.files.Keys == old(store.files).Keys && AllSound(store.files)
      invariant SettledBut(store.files, left)
      decreases left
    {
      var id :| id in left;
      ghost var before := store.files;
      var media: bool := *;
      ok := RecoverSession(store, id, now, media);
      if !ok {
        return false;
      }
      SettledOneMore(before, store.files, left, id);
      left := left - {id};
    }
    return true;
  }
}
