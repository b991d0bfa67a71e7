/** Stream-key rotation as a protocol of store steps, router kicks and publisher admissions
    (live-runner/store.go, server.go, recovery.go and media.go). */
module LiveKeys {
  import opened Text
  import opened LiveContract
  import opened LiveRecord
  import opened LiveOps
  import opened LiveRuns
  import opened LiveMedia

  // ----- what a stored key can still yield -----

  /** At most one stored stream key is non-empty, and it is the current one. */
  lemma OnlyCurrentKeyStored(id: string, moves: seq<Move>, k: string)
    requires Run(id, moves).record.Some? && Run(id, moves).record.value.secrets.Some?
    requires k in Run(id, moves).record.value.secrets.value.keys
    ensures var s := Run(id, moves).record.value.secrets.value;
            s.keys[k].response.streamKey != "" <==> k == s.currentKey
  {
    RunKeepsInv(id, moves);
    var s := Run(id, moves).record.value.secrets.value;
    assert ValidStoredKey(k, s.keys[k], s.currentKey);
  }

  ghost predicate SupersededIn(r: Record, k: string)
  {
    r.secrets.None? || (k in r.secrets.value.keys && k != r.secrets.value.currentKey)
  }

  ghost predicate CurrentWith(r: Record, k: string, a: KeyResponse)
  {
    r.secrets.Some? && r.secrets.value.currentKey == k && k in r.secrets.value.keys
    && r.secrets.value.keys[k].response == a
  }

  /** What a saved step may do to the keys: issue one more, erase all, or nothing. */
  ghost predicate KeysMove(r: Record, r': Record, step: Step)
  {
    if step.Issue? then
      r' == r || (IssueKey(r, step.key, step.issued).Saved? && r' == IssueKey(r, step.key, step.issued).record)
    else
      && (r'.secrets == r.secrets || (r'.secrets.None? && r.lifecycle.state != Active))
      && (Open(r') ==> Open(r) && r'.secrets == r.secrets)
      && (Open(r') && !step.Complete? ==> r'.lifecycle.pendingActivation == r.lifecycle.pendingActivation)
      && (step.Complete? && r' != r ==>
            r'.lifecycle.pendingActivation.None? && r.lifecycle.pendingActivation == Some(step.requestId))
  }

  lemma TransformMovesKeys(s: Sys, r: Record, step: Step)
    requires Transform(s, r, step).Saved?
    ensures KeysMove(r, Transform(s, r, step).record, step)
  {
  }

  lemma NextMovesKeys(id: string, s: Sys, step: Step, persisted: bool)
    requires s.record.Some?
    ensures Next(id, s, step, persisted).record.Some?
    ensures KeysMove(s.record.value, Next(id, s, step, persisted).record.value, step)
  {
    if Transform(s, s.record.value, step).Saved? {
      TransformMovesKeys(s, s.record.value, step);
    }
  }

  lemma SupersededMove(r: Record, r': Record, step: Step, k: string)
    requires KeysMove(r, r', step) && SupersededIn(r, k)
    ensures SupersededIn(r', k)
  {
  }

  lemma CurrentMove(r: Record, r': Record, step: Step, k: string, a: KeyResponse)
    requires KeysMove(r, r', step) && CurrentWith(r, k, a)
    ensures CurrentWith(r', k, a) || SupersededIn(r', k)
  {
  }

  ghost predicate HasSuperseded(s: Sys, k: string) { s.record.Some? && SupersededIn(s.record.value, k) }

  ghost predicate HasCurrent(s: Sys, k: string, a: KeyResponse) { s.record.Some? && CurrentWith(s.record.value, k, a) }

  lemma SupersededNext(id: string, s: Sys, step: Step, persisted: bool, k: string)
    requires HasSuperseded(s, k)
    ensures HasSuperseded(Next(id, s, step, persisted), k)
  {
    NextMovesKeys(id, s, step, persisted);
    SupersededMove(s.record.value, Next(id, s, step, persisted).record.value, step, k);
  }

  lemma CurrentNext(id: string, s: Sys, step: Step, persisted: bool, k: string, a: KeyResponse)
    requires HasCurrent(s, k, a)
    ensures HasCurrent(Next(id, s, step, persisted), k, a) || HasSuperseded(Next(id, s, step, persisted), k)
  {
    NextMovesKeys(id, s, step, persisted);
    CurrentMove(s.record.value, Next(id, s, step, persisted).record.value, step, k, a);
  }

  lemma {:induction false} SupersededPersists(id: string, moves: seq<Move>, more: seq<Move>, k: string)
    requires HasSuperseded(Run(id, moves), k)
    ensures HasSuperseded(Run(id, moves + more), k)
  {
    if more == [] {
      assert moves + more == moves;
    } else {
      var front, last := more[..|more| - 1], more[|more| - 1];
      SupersededPersists(id, moves, front, k);
      RunOneMore(id, moves, more);
      SupersededNext(id, Run(id, moves + front), last.step, last.persisted, k);
    }
  }

  /** A request identity that was overtaken once never yields a key again, whatever happens later. */
  lemma SupersededForever(id: string, moves: seq<Move>, more: seq<Move>, q: KeyRequest, a: KeyResponse)
    requires Run(id, moves).record.Some? && SupersededIn(Run(id, moves).record.value, q.requestId)
    ensures var s := Run(id, moves + more); s.record.Some? && IssueKey(s.record.value, q, a).Refused?
  {
    SupersededPersists(id, moves, more, q.requestId);
  }

  /** A current key stays current with the same response, or is superseded for good, or its session is over. */
  lemma {:induction false} CurrentKeyPersists(id: string, moves: seq<Move>, more: seq<Move>, k: string, a: KeyResponse)
    requires HasCurrent(Run(id, moves), k, a)
    ensures HasCurrent(Run(id, moves + more), k, a) || HasSuperseded(Run(id, moves + more), k)
  {
    if more == [] {
      assert moves + more == moves;
    } else {
      var front, last := more[..|more| - 1], more[|more| - 1];
      CurrentKeyPersists(id, moves, front, k, a);
      RunOneMore(id, moves, more);
      if HasCurrent(Run(id, moves + front), k, a) {
        CurrentNext(id, Run(id, moves + front), last.step, last.persisted, k, a);
      } else {
        SupersededNext(id, Run(id, moves + front), last.step, last.persisted, k);
      }
    }
  }

  /** Repeating the current request returns the stored key, not the freshly minted one, for as long as it is
      current and the session is open, and never mints a second key. */
  lemma CurrentRequestRepeats(
    id: string, moves: seq<Move>, more: seq<Move>, q: KeyRequest, stored: KeyResponse, minted: KeyResponse)
    requires Run(id, moves).record.Some? && CurrentWith(Run(id, moves).record.value, q.requestId, stored)
    ensures var s := Run(id, moves + more);
            && s.record.Some?
            && !IssueKey(s.record.value, q, minted).Saved?
            && (IssueKey(s.record.value, q, minted).Kept? ==> IssueKey(s.record.value, q, minted).value == stored)
  {
    CurrentKeyPersists(id, moves, more, q.requestId, stored);
  }

  ghost predicate Rotating(s: Sys, k: string, a: KeyResponse)
  {
    s.record.Some? && (Open(s.record.value) ==>
      CurrentWith(s.record.value, k, a) && s.record.value.lifecycle.pendingActivation == Some(k))
  }

  lemma RotatingNext(id: string, s: Sys, step: Step, persisted: bool, k: string, a: KeyResponse)
    requires Rotating(s, k, a) && !step.Complete?
    ensures Rotating(Next(id, s, step, persisted), k, a)
  {
    NextMovesKeys(id, s, step, persisted);
  }

  /** A rotation is finished before the next begins: until its activation is completed, a new key stays the current
      one with its response, whatever else is requested. */
  lemma {:induction false} RotationIsFinishedFirst(
    id: string, moves: seq<Move>, more: seq<Move>, k: string, a: KeyResponse)
    requires Rotating(Run(id, moves), k, a) && forall i :: 0 <= i < |more| ==> !more[i].step.Complete?
    ensures Rotating(Run(id, moves + more), k, a)
  {
    if more == [] {
      assert moves + more == moves;
    } else {
      var front, last := more[..|more| - 1], more[|more| - 1];
      RotationIsFinishedFirst(id, moves, front, k, a);
      RunOneMore(id, moves, more);
      RotatingNext(id, Run(id, moves + front), last.step, last.persisted, k, a);
    }
  }

  // ----- who is connected -----

  /** An admitted publisher, remembered with the path and the token it presented. */
  datatype Publisher = Publisher(connection: nat, path: string, token: string)

  /** What the publisher presented is what the current stream key says. */
  ghost predicate Presents(p: Publisher, s: Secrets)
  {
    && s.currentKey in s.keys
    && ParseStreamKey(s.keys[s.currentKey].response.streamKey) == Some(StreamKey(p.path, p.token))
  }

  /** A request handler or the start-up recovery, on its way to completing an activation. */
  datatype Activation = MustKick(requestId: string) | Kicked(requestId: string)

  datatype Ingest = Ingest(sys: Sys, publishers: set<Publisher>, handlers: map<nat, Activation>)

  datatype IngestStep =
    | Store(step: Step, persisted: bool)
    | Observe(handler: nat)
    | Kick(handler: nat)
    | Finish(handler: nat, persisted: bool)
    | Connect(connection: nat, path: string, token: string, now: int)
    | Disconnect(publisher: Publisher)
    | KickSession
    | ProcessCrash

  /** Authorise-and-connect and kick are atomic; a crash of the runner leaves publishers connected. No lock
      around a whole handler is assumed. */
  function IngestNext(id: string, w: Ingest, step: IngestStep): Ingest
  {
    match step
    case Store(st, persisted) => if st.Complete? then w else w.(sys := Next(id, w.sys, st, persisted))
    case Observe(h) =>
      if w.sys.record.Some? && w.sys.record.value.lifecycle.pendingActivation.Some?
      then w.(handlers := w.handlers[h := MustKick(w.sys.record.value.lifecycle.pendingActivation.value)])
      else w
    case Kick(h) =>
      if h in w.handlers && w.handlers[h].MustKick?
      then w.(publishers := {}, handlers := w.handlers[h := Kicked(w.handlers[h].requestId)])
      else w
    case Finish(h, persisted) =>
      if h in w.handlers && w.handlers[h].Kicked?
      then w.(sys := Next(id, w.sys, Complete(w.handlers[h].requestId), persisted), handlers := w.handlers - {h})
      else w
    case Connect(c, path, token, now) =>
      if w.sys.record.Some? && MayPublish(w.sys.record.value, path, token, now)
      then w.(publishers := w.publishers + {Publisher(c, path, token)})
      else w
    case Disconnect(p) => w.(publishers := w.publishers - {p})
    case KickSession => w.(publishers := {})
    case ProcessCrash => w.(handlers := map[], sys := Next(id, w.sys, Crash, true))
  }

  function IngestRun(id: string, steps: seq<IngestStep>): Ingest
  {
    if steps == [] then Ingest(INITIAL, {}, map[])
    else IngestNext(id, IngestRun(id, steps[..|steps| - 1]), steps[|steps| - 1])
  }

  ghost predicate OpenIngest(w: Ingest, r: Record, s: Secrets)
  {
    && "" !in s.keys
    && (r.lifecycle.pendingActivation.Some? ==> r.lifecycle.pendingActivation.value in s.keys)
    && (s.currentKey == "" ==> w.publishers == {})
    && (r.lifecycle.pendingActivation.None? ==> forall p :: p in w.publishers ==> Presents(p, s))
    && (forall h :: h in w.handlers ==> w.handlers[h].requestId in s.keys)
    && (forall h :: h in w.handlers && w.handlers[h] == Kicked(w.handlers[h].requestId) ==>
          r.lifecycle.pendingActivation == Some(w.handlers[h].requestId) ==> w.publishers == {})
  }

  ghost predicate IngestInv(w: Ingest)
  {
    match w.sys.record
    case None => w.publishers == {} && w.handlers == map[]
    case Some(r) => Open(r) ==> r.secrets.Some? && OpenIngest(w, r, r.secrets.value)
  }

  lemma IssueKeepsIngest(w: Ingest, w': Ingest, q: KeyRequest, a: KeyResponse)
    requires IngestInv(w) && w.sys.record.Some? && IssueKey(w.sys.record.value, q, a).Saved?
    requires w'.sys.record == Some(IssueKey(w.sys.record.value, q, a).record)
    requires w'.publishers == w.publishers && w'.handlers == w.handlers
    ensures IngestInv(w')
  {
    var s, s' := w.sys.record.value.secrets.value, w'.sys.record.value.secrets.value;
    assert forall k :: k in s.keys ==> k in s'.keys;
    assert q.requestId !in s.keys;
  }

  lemma StoreKeepsIngest(id: string, w: Ingest, step: Step, persisted: bool)
    requires IngestInv(w) && !step.Complete?
    ensures IngestInv(w.(sys := Next(id, w.sys, step, persisted)))
  {
    var w' := w.(sys := Next(id, w.sys, step, persisted));
    if w.sys.record.Some? {
      NextMovesKeys(id, w.sys, step, persisted);
      if step.Issue? && w'.sys.record != w.sys.record {
        IssueKeepsIngest(w, w', step.key, step.issued);
      }
    }
  }

  lemma FinishKeepsIngest(id: string, w: Ingest, h: nat, persisted: bool)
    requires IngestInv(w) && h in w.handlers && w.handlers[h].Kicked?
    ensures IngestInv(IngestNext(id, w, Finish(h, persisted)))
  {
    if w.sys.record.Some? {
      NextMovesKeys(id, w.sys, Complete(w.handlers[h].requestId), persisted);
    }
  }

  lemma ProtocolKeepsIngest(id: string, w: Ingest, step: IngestStep)
    requires IngestInv(w) && !step.Store? && !step.Finish? && !step.ProcessCrash?
    ensures IngestInv(IngestNext(id, w, step))
  {
  }

  lemma StepKeepsIngest(id: string, w: Ingest, step: IngestStep)
    requires IngestInv(w)
    ensures IngestInv(IngestNext(id, w, step))
  {
    if step.Store? {
      if !step.step.Complete? {
        StoreKeepsIngest(id, w, step.step, step.persisted);
      }
    } else if step.Finish? {
      if step.handler in w.handlers && w.handlers[step.handler].Kicked? {
        FinishKeepsIngest(id, w, step.handler, step.persisted);
      }
    } else if step.ProcessCrash? {
      StoreKeepsIngest(id, w.(handlers := map[]), Crash, true);
    } else {
      ProtocolKeepsIngest(id, w, step);
    }
  }

  lemma {:induction false} RunKeepsIngest(id: string, steps: seq<IngestStep>)
    ensures IngestInv(IngestRun(id, steps))
  {
    if steps != [] {
      RunKeepsIngest(id, steps[..|steps| - 1]);
      StepKeepsIngest(id, IngestRun(id, steps[..|steps| - 1]), steps[|steps| - 1]);
    }
  }

  /** While a session is open and no activation is pending, every connected publisher presented the path and the
      secret of the current key; a rotation therefore leaves no publisher of an older key behind. */
  lemma PublishersHoldCurrentKey(id: string, steps: seq<IngestStep>, p: Publisher)
    requires var w := IngestRun(id, steps);
             w.sys.record.Some? && Open(w.sys.record.value)
             && w.sys.record.value.lifecycle.pendingActivation.None? && p in w.publishers
    ensures var s := IngestRun(id, steps).sys.record.value.secrets; s.Some? && Presents(p, s.value)
  {
    RunKeepsIngest(id, steps);
  }

  // ----- keys as the runner issues them -----

  /** The current key was issued for this session with this secret. */
  ghost predicate CurrentSecret(r: Record, secret: string)
  {
    && AllBytes(secret) && r.secrets.Some? && r.secrets.value.currentKey in r.secrets.value.keys
    && BuildStreamKey(r.runner, secret)
       == Some(r.secrets.value.keys[r.secrets.value.currentKey].response.streamKey)
  }

  /** A session admits a publisher exactly when it is active and not stopping, no activation is pending, and the
      publisher comes on the session's own path with the secret of the current key before that key expires. */
  lemma AdmittedIff(r: Record, secret: string, path: string, token: string, now: int)
    requires CurrentSecret(r, secret)
    ensures MayPublish(r, path, token, now) <==>
              && r.lifecycle.state == Active && !r.lifecycle.stopping
              && r.lifecycle.pendingActivation.None?
              && path == "ingest/" + r.runner && token == secret
              && now < r.secrets.value.keys[r.secrets.value.currentKey].response.expiresAt
  {
    StreamKeyRoundTrip(r.runner, secret);
  }

  /** In every run the connected publishers are those who know the current secret. */
  lemma PublishersKnowTheSecret(id: string, steps: seq<IngestStep>, p: Publisher, secret: string)
    requires var w := IngestRun(id, steps);
             w.sys.record.Some? && Open(w.sys.record.value) && CurrentSecret(w.sys.record.value, secret)
             && w.sys.record.value.lifecycle.pendingActivation.None? && p in w.publishers
    ensures p.path == "ingest/" + IngestRun(id, steps).sys.record.value.runner && p.token == secret
  {
    PublishersHoldCurrentKey(id, steps, p);
    StreamKeyRoundTrip(IngestRun(id, steps).sys.record.value.runner, secret);
  }

  /** A secret other than the current one, such as that of every superseded key, is refused on every path. */
  lemma OldSecretRefused(r: Record, secret: string, former: string, path: string, now: int)
    requires CurrentSecret(r, secret) && former != secret
    ensures !MayPublish(r, path, former, now)
  {
    StreamKeyRoundTrip(r.runner, secret);
  }

  /** In every continuation of a run in which a secret was current and its key has been superseded since by one with
      another secret, or the session is over, the old secret is refused. */
  lemma SupersededSecretRefused(
    id: string, moves: seq<Move>, more: seq<Move>, k: string, a: KeyResponse, former: string, secret: string,
    path: string, now: int)
    requires HasCurrent(Run(id, moves), k, a) && AllBytes(former)
    requires BuildStreamKey(Run(id, moves).record.value.runner, former) == Some(a.streamKey)
    requires var s := Run(id, moves + more);
             s.record.Some? && s.record.value.secrets.Some? && s.record.value.secrets.value.currentKey != k ==>
               CurrentSecret(s.record.value, secret) && secret != former
    ensures var s := Run(id, moves + more);
            s.record.Some? && (HasCurrent(s, k, a) || !MayPublish(s.record.value, path, former, now))
  {
    CurrentKeyPersists(id, moves, more, k, a);
    var s := Run(id, moves + more);
    if !HasCurrent(s, k, a) && s.record.value.secrets.Some? {
      OldSecretRefused(s.record.value, secret, former, path, now);
    }
  }

  /** The first key of a session needs no activation: whoever has it is admitted at once. */
  lemma FirstKeyAdmitsAtOnce(r: Record, q: KeyRequest, a: KeyResponse, secret: string, now: int)
    requires r.secrets.Some? && r.secrets.value.currentKey == "" && r.lifecycle.pendingActivation.None?
    requires IssueKey(r, q, a).Saved? && AllBytes(secret) && BuildStreamKey(r.runner, secret) == Some(a.streamKey)
    ensures MayPublish(IssueKey(r, q, a).record, "ingest/" + r.runner, secret, now) <==> now < a.expiresAt
  {
    AdmittedIff(IssueKey(r, q, a).record, secret, "ingest/" + r.runner, secret, now);
  }

  /** A later key is not usable before its predecessor's publishers were dealt with. */
  lemma LaterKeyMustWait(r: Record, q: KeyRequest, a: KeyResponse, path: string, token: string, now: int)
    requires r.secrets.Some? && r.secrets.value.currentKey != "" && IssueKey(r, q, a).Saved?
    ensures !MayPublish(IssueKey(r, q, a).record, path, token, now)
    ensures IssueKey(r, q, a).record.lifecycle.pendingActivation == Some(q.requestId)
  {
  }
}
