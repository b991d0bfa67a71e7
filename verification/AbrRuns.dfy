/** Every run of one workload journal: any caller, any order, any save lost (abr-runner/workload_store_v2.go). */
module AbrRuns {
  import opened Text
  import opened AbrContract
  import opened AbrJournal

  datatype JournalOp =
    | Append(note: Payload)
    | Prepare(prepared: Prepared)
    | Deliver(rendition: Rendition)
    | PrepareManifest(artifact: Artifact)
    | DeliverManifest(uri: string)
    | Succeed(result: TerminalResult)
    | Fail(error: TerminalError)

  ghost function Apply(j: Journal, op: JournalOp): Option<Journal>
  {
    match op
    case Append(note) => AppendProgress(j, note)
    case Prepare(p) => SavePrepared(j, p)
    case Deliver(r) => SaveDelivered(j, r)
    case PrepareManifest(a) => SavePreparedManifest(j, a)
    case DeliverManifest(uri) => SaveDeliveredManifest(j, uri)
    case Succeed(result) => if AcceptsResult(j, result) then Some(Finish(j, Succeeded, ResultNote(result))) else None
    case Fail(error) => if AcceptsError(j, error) then Some(Finish(j, Failed, ErrorNote(error))) else None
  }

  /** One step: the change is saved, refused, or lost. */
  ghost predicate Next(j: Journal, op: JournalOp, j': Journal)
  {
    j' == j || Apply(j, op) == Some(j')
  }

  /** The states of a journal from its creation on, with the calls between them. */
  ghost predicate Run(workloadId: string, requestHash: string, ops: seq<JournalOp>, js: seq<Journal>)
  {
    && OpaqueId(workloadId) && IsSha256(requestHash)
    && |js| == |ops| + 1
    && js[0] == Fresh(workloadId, requestHash)
    && forall i :: 0 <= i < |ops| ==> Next(js[i], ops[i], js[i + 1])
  }

  // ----- the invariant -----

  /** How many progress events were ever appended. */
  function Appended(j: Journal): int { if j.terminal.Some? then j.next - 2 else j.next - 1 }

  function Smaller(a: int, b: int): int { if a < b then a else b }

  /** A progress note a client can show: a known phase, between nothing and all done. */
  predicate ShownNote(note: Payload)
  {
    && note.ProgressNote? && 0.0 <= note.percent <= 100.0
    && note.phase in {Accepted, Downloading, Probing, Encoding, Packaging, Uploading}
  }

  /** The stored progress events are the most recent min(256, n) of the n appended, numbered without a gap,
      and the terminal event has the number after them. */
  ghost predicate Window(j: Journal)
  {
    && Appended(j) >= 0
    && |j.progress| == Smaller(Appended(j), MAX_STORED_PROGRESS)
    && (forall i :: 0 <= i < |j.progress| ==>
          ShownNote(j.progress[i].payload) && j.progress[i].seqNo == Appended(j) - |j.progress| + 1 + i)
    && (j.terminal.Some? ==> j.terminal.value.seqNo == j.next - 1)
  }

  ghost predicate SoundCheckpoints(j: Journal)
  {
    && (forall n :: n in j.prepared ==> n != "" && PositiveVideo(j.prepared[n].video))
    && (forall n :: n in j.delivered ==> ValidRendition(j.delivered[n]))
  }

  /** What a terminal event says about the checkpoints it was recorded over. */
  ghost predicate HonestTerminal(j: Journal, payload: Payload)
  {
    match payload
    case ResultNote(result) =>
      && j.state == Succeeded
      && result.workloadId == j.workloadId && result.requestHash == j.requestHash
      && result.manifestUri == j.manifestUri && j.manifestUri != ""
      && Lists(result.renditions, j.delivered) && ClaimIs(j.delivered, result.units)
    case ErrorNote(error) =>
      && j.state == Failed && error.code != "" && error.message != "" && Redacted(error.message)
      && error.workloadId == j.workloadId && error.requestHash == j.requestHash
      && ClaimIs(j.delivered, error.units)
    case ProgressNote(_, _, _, _) => false
  }

  ghost predicate JournalInv(j: Journal)
  {
    && ValidJournal(j) && Window(j) && SoundCheckpoints(j)
    && (j.terminal.Some? ==> HonestTerminal(j, j.terminal.value.payload))
  }

  lemma AppendKeepsInv(j: Journal, note: Payload)
    requires JournalInv(j) && AppendProgress(j, note).Some?
    ensures JournalInv(AppendProgress(j, note).value)
  {
    var j' := AppendProgress(j, note).value;
    var all := j.progress + [StoredEvent(j.next, note)];
    assert forall i :: 0 <= i < |all| ==> ShownNote(all[i].payload) && all[i].seqNo == Appended(j') - |all| + 1 + i;
  }

  lemma PreparedKeepsInv(j: Journal, p: Prepared)
    requires JournalInv(j) && SavePrepared(j, p).Some?
    ensures JournalInv(SavePrepared(j, p).value)
  {
  }

  lemma DeliveredKeepsInv(j: Journal, r: Rendition)
    requires JournalInv(j) && SaveDelivered(j, r).Some?
    ensures JournalInv(SaveDelivered(j, r).value)
  {
    var j' := SaveDelivered(j, r).value;
    assert ValidRendition(r);
    assert SoundCheckpoints(j');
  }

  lemma ManifestKeepsInv(j: Journal, op: JournalOp)
    requires JournalInv(j) && Apply(j, op).Some? && (op.PrepareManifest? || op.DeliverManifest?)
    ensures JournalInv(Apply(j, op).value)
  {
  }

  lemma ResultKeepsInv(j: Journal, result: TerminalResult)
    requires JournalInv(j) && AcceptsResult(j, result)
    ensures JournalInv(Finish(j, Succeeded, ResultNote(result)))
  {
    CheckpointsAreListed(result.renditions, j.delivered);
    ListingDecidesClaim(result.renditions, j.delivered, result.units);
  }

  lemma StepKeepsInv(j: Journal, op: JournalOp, j': Journal)
    requires JournalInv(j) && Next(j, op, j')
    ensures JournalInv(j')
  {
    if j' != j {
      match op
      case Append(note) => AppendKeepsInv(j, note);
      case Succeed(result) => ResultKeepsInv(j, result);
      case Fail(error) =>
      case Prepare(p) => PreparedKeepsInv(j, p);
      case Deliver(r) => DeliveredKeepsInv(j, r);
      case _ => ManifestKeepsInv(j, op);
    }
  }

  lemma StepKeepsIdentity(j: Journal, op: JournalOp, j': Journal)
    requires Next(j, op, j')
    ensures j'.workloadId == j.workloadId && j'.requestHash == j.requestHash
  {
  }

  lemma FreshInv(w: string, h: string)
    requires OpaqueId(w) && IsSha256(h)
    ensures JournalInv(Fresh(w, h))
  {
  }

  /** Every journal that any run can save loads again, and keeps the whole invariant. */
  lemma {:induction false} EveryReachableJournalLoads(
    w: string, h: string, ops: seq<JournalOp>, js: seq<Journal>, k: nat)
    requires Run(w, h, ops, js) && k < |js|
    ensures JournalInv(js[k])
    ensures js[k].workloadId == w && js[k].requestHash == h
  {
    if k == 0 {
      FreshInv(w, h);
    } else {
      EveryReachableJournalLoads(w, h, ops, js, k - 1);
      assert Next(js[k - 1], ops[k - 1], js[k]);
      StepKeepsInv(js[k - 1], ops[k - 1], js[k]);
      StepKeepsIdentity(js[k - 1], ops[k - 1], js[k]);
    }
  }

  // ----- what a step can never undo -----

  /** Checkpoints are never withdrawn or re-measured, the sequence never falls, and a terminal journal is frozen. */
  ghost predicate Progressed(j: Journal, j': Journal)
  {
    && j.next <= j'.next
    && (forall n :: n in j.delivered ==> n in j'.delivered && j'.delivered[n].video == j.delivered[n].video
                                                            && j'.delivered[n].bytes == j.delivered[n].bytes)
    && (forall n :: n in j.delivered && n in j.prepared ==> n in j'.prepared && j'.prepared[n] == j.prepared[n])
    && (j.manifestUri != "" ==> j'.manifestUri != "" && j'.manifestPrepared == j.manifestPrepared)
    && (j.terminal.Some? ==> j' == j)
    && (j'.next == j.next ==> j'.terminal == j.terminal)
  }

  lemma StepProgresses(j: Journal, op: JournalOp, j': Journal)
    requires ValidJournal(j) && Next(j, op, j')
    ensures Progressed(j, j')
  {
    if j' != j && op.DeliverManifest? {
      assert Blank("");
    }
    if j' != j && op.Deliver? {
      DeliveryProgresses(j, op.rendition);
    }
  }

  lemma DeliveryProgresses(j: Journal, r: Rendition)
    requires ValidJournal(j) && SaveDelivered(j, r).Some?
    ensures Progressed(j, SaveDelivered(j, r).value)
  {
    assert r.name in j.delivered ==> Matches(j.prepared[r.name], j.delivered[r.name]);
  }

  lemma ProgressAddsUp(a: Journal, b: Journal, c: Journal)
    requires Progressed(a, b) && Progressed(b, c)
    ensures Progressed(a, c)
  {
  }

  lemma RunStepProgresses(w: string, h: string, ops: seq<JournalOp>, js: seq<Journal>, k: nat)
    requires Run(w, h, ops, js) && k < |ops|
    ensures Progressed(js[k], js[k + 1])
  {
    EveryReachableJournalLoads(w, h, ops, js, k);
    StepProgresses(js[k], ops[k], js[k + 1]);
  }

  lemma {:induction false} RunsOnlyProgress(w: string, h: string, ops: seq<JournalOp>, js: seq<Journal>, i: nat, k: nat)
    requires Run(w, h, ops, js) && i <= k < |js|
    ensures Progressed(js[i], js[k])
  {
    if i < k {
      RunsOnlyProgress(w, h, ops, js, i, k - 1);
      RunStepProgresses(w, h, ops, js, k - 1);
      ProgressAddsUp(js[i], js[k - 1], js[k]);
    }
  }

  // ----- the claim -----

  function ClaimedUnits(payload: Payload): nat
  {
    match payload
    case ResultNote(result) => result.units
    case ErrorNote(error) => error.units
    case ProgressNote(_, _, _, _) => 0
  }

  lemma NamesOfMore(s: seq<Rendition>, r: Rendition)
    ensures Names(s + [r]) == Names(s) + {r.name}
  {
    var all := s + [r];
    assert forall i :: 0 <= i < |s| ==> all[i] == s[i];
    assert all[|s|] == r;
  }

  lemma {:induction false} ListingExists(m: map<string, Rendition>) returns (s: seq<Rendition>)
    requires WellNamed(m)
    ensures Lists(s, m)
    decreases |m|
  {
    if m == map[] {
      s := [];
    } else {
      var n :| n in m;
      var rest := ListingExists(m - {n});
      s := rest + [m[n]];
      NamesOfMore(rest, m[n]);
    }
  }

  /** Every recorded terminal event, success or failure, claims the ceiling of all delivered pixels over one
      million, in whatever order the delivered map is read; a success lists exactly that map. */
  lemma TerminalClaimsDelivered(w: string, h: string, ops: seq<JournalOp>, js: seq<Journal>, k: nat)
    requires Run(w, h, ops, js) && k < |js| && js[k].terminal.Some?
    ensures exists s :: Lists(s, js[k].delivered)
    ensures forall s :: Lists(s, js[k].delivered) ==>
              && TotalPixels(s) <= MAX_U64
              && ClaimedUnits(js[k].terminal.value.payload) == UnitsFor(TotalPixels(s))
    ensures js[k].terminal.value.payload.ResultNote? ==>
              Lists(js[k].terminal.value.payload.result.renditions, js[k].delivered)
  {
    EveryReachableJournalLoads(w, h, ops, js, k);
    var s := ListingExists(js[k].delivered);
  }

  /** Rounded up, and never by a whole unit. */
  lemma UnitsAreCeiling(pixels: nat)
    ensures (UnitsFor(pixels) - 1) * PIXELS_PER_UNIT < pixels <= UnitsFor(pixels) * PIXELS_PER_UNIT
  {
  }

  // ----- when a workload can be finished at all -----

  /** Some listing of the delivered checkpoints, hence every listing, sums beyond 64 bits. */
  ghost predicate Overflows(m: map<string, Rendition>)
  {
    exists s :: Lists(s, m) && TotalPixels(s) > MAX_U64
  }

  lemma OverflowIsOrderless(m: map<string, Rendition>, s: seq<Rendition>)
    requires Lists(s, m)
    ensures Overflows(m) <==> TotalPixels(s) > MAX_U64
  {
    if Overflows(m) {
      var t :| Lists(t, m) && TotalPixels(t) > MAX_U64;
      ListingsHaveSameMembers(s, t, m);
      TotalIgnoresOrder(s, t);
    }
  }

  lemma ListedHeightsArePositive(j: Journal, s: seq<Rendition>)
    requires SoundCheckpoints(j) && Lists(s, j.delivered)
    ensures Computable(s) <==> TotalPixels(s) <= MAX_U64
  {
    assert PositiveHeights(s) by {
      forall i | 0 <= i < |s| && s[i].video.Some? ensures s[i].video.value.height > 0 {
        assert ValidRendition(j.delivered[s[i].name]);
      }
    }
    FailsOnlyBeyond64Bits(s);
  }

  /** A failure can be recorded exactly while the delivered pixels fit 64 bits. The handler's fallback for the
      other case, a zero claim with code "usage_failed", is therefore always refused. */
  lemma FailureRecordableIff(j: Journal, error: TerminalError)
    requires JournalInv(j) && j.state == InProgress
    requires ValidError(error) && error.workloadId == j.workloadId && error.requestHash == j.requestHash
    ensures (exists units: nat :: AcceptsError(j, error.(units := units))) <==> !Overflows(j.delivered)
  {
    var s := ListingExists(j.delivered);
    OverflowIsOrderless(j.delivered, s);
    ListedHeightsArePositive(j, s);
    ListingDecidesClaim(s, j.delivered, UnitsFor(TotalPixels(s)));
    if !Overflows(j.delivered) {
      var e := error.(units := UnitsFor(TotalPixels(s)));
      assert ValidError(e);
      assert AcceptsError(j, e);
    }
  }

  lemma ListingAfterDelivery(m: map<string, Rendition>, s: seq<Rendition>, r: Rendition) returns (s': seq<Rendition>)
    requires WellNamed(m) && Lists(s, m)
    requires r.name in m ==> m[r.name].video == r.video
    ensures Lists(s', m[r.name := r]) && TotalPixels(s') >= TotalPixels(s)
  {
    if r.name in m {
      assert r.name in Names(s);
      var i :| 0 <= i < |s| && s[i].name == r.name;
      s' := s[i := r];
      RenamedListing(m, s, r, i);
      RemoveOne(s, i);
      RemoveOne(s', i);
      assert s'[..i] + s'[i + 1..] == s[..i] + s[i + 1..];
    } else {
      s' := s + [r];
      assert s'[..|s|] == s;
      NamesOfMore(s, r);
    }
  }

  lemma RenamedListing(m: map<string, Rendition>, s: seq<Rendition>, r: Rendition, i: nat)
    requires Lists(s, m) && i < |s| && s[i].name == r.name
    ensures Lists(s[i := r], m[r.name := r])
  {
    var s' := s[i := r];
    assert forall k :: 0 <= k < |s| ==> s'[k].name == s[k].name;
    assert Names(s') == Names(s);
  }

  lemma NoResultOverflows(m: map<string, Rendition>, result: TerminalResult)
    requires SameAsCheckpoints(result.renditions, m) && ValidResult(result)
    ensures !Overflows(m)
  {
    CheckpointsAreListed(result.renditions, m);
    OverflowIsOrderless(m, result.renditions);
  }

  lemma NoClaimOverflows(m: map<string, Rendition>, units: nat)
    requires ClaimIs(m, units)
    ensures !Overflows(m)
  {
  }

  lemma DeliveryKeepsOverflow(m: map<string, Rendition>, r: Rendition)
    requires WellNamed(m) && Overflows(m)
    requires r.name in m ==> m[r.name].video == r.video
    ensures Overflows(m[r.name := r])
  {
    var s :| Lists(s, m) && TotalPixels(s) > MAX_U64;
    var s' := ListingAfterDelivery(m, s, r);
  }

  ghost predicate Stuck(j: Journal) { j.state == InProgress && Overflows(j.delivered) }

  lemma OverflowPersists(j: Journal, op: JournalOp, j': Journal)
    requires ValidJournal(j) && Stuck(j) && Next(j, op, j')
    ensures Stuck(j')
  {
    match op
    case Deliver(r) =>
      if SaveDelivered(j, r).Some? {
        DeliveryKeepsOverflow(j.delivered, r);
      }
    case Succeed(result) =>
      if AcceptsResult(j, result) {
        NoResultOverflows(j.delivered, result);
        assert false;
      }
    case Fail(error) =>
      if AcceptsError(j, error) {
        NoClaimOverflows(j.delivered, error.units);
        assert false;
      }
    case Append(_) =>
    case Prepare(_) =>
    case PrepareManifest(_) =>
    case DeliverManifest(_) =>
  }

  /** Once the delivered pixels overflow, the workload never becomes terminal: no success, no failure. */
  lemma {:induction false} OverflowNeverEnds(
    w: string, h: string, ops: seq<JournalOp>, js: seq<Journal>, i: nat, k: nat)
    requires Run(w, h, ops, js) && i <= k < |js|
    requires Stuck(js[i])
    ensures Stuck(js[k])
  {
    if i < k {
      OverflowNeverEnds(w, h, ops, js, i, k - 1);
      EveryReachableJournalLoads(w, h, ops, js, k - 1);
      assert Next(js[k - 1], ops[k - 1], js[k]);
      OverflowPersists(js[k - 1], ops[k - 1], js[k]);
    }
  }

  // ----- such a workload is reachable -----

  /** 2^32 frames of 65536 by 65537 pixels: one more row than 64 bits of pixels hold. */
  const HUGE: Video := Video(0x1_0000_0000, 65_536, 65_537)

  function Zeros(k: nat): (s: string)
    ensures |s| == k && forall i :: 0 <= i < k ==> s[i] == '0'
  {
    if k == 0 then "" else Zeros(k - 1) + ['0']
  }

  lemma PlainNames(name: string)
    requires name == "a"
    ensures SafePath(name) && ValidArtifactUri(name) && OpaqueId(name)
  {
    IndexOfAbsent(name, '/', "");
    assert !IsSpace(name[0]);
  }

  lemma DeliveredOverflows(j: Journal, r: Rendition)
    requires j.state == InProgress && j.delivered == map[r.name := r] && Pixels(r) > MAX_U64
    ensures Stuck(j)
  {
    var s := [r];
    assert s[..0] == [] && s[0] == r;
    assert TotalPixels(s) == Pixels(r);
    assert s[0].name in Names(s);
    assert Lists(s, j.delivered);
  }

  lemma HugePixels(r: Rendition)
    requires r.video == Some(HUGE)
    ensures Pixels(r) > MAX_U64
  {
  }

  /** One rendition, prepared and delivered, and the workload can never end. */
  lemma OverflowReached() returns (w: string, h: string, ops: seq<JournalOp>, js: seq<Journal>)
    ensures Run(w, h, ops, js) && Stuck(js[|ops|])
  {
    w, h := "a", Zeros(64);
    PlainNames(w);
    var p := Prepared(w, w, w, h, h, Some(HUGE), 1);
    var r := Rendition(w, w, w, Some(HUGE), 1);
    var j := Fresh(w, h);
    var j1 := j.(prepared := map[w := p]);
    var j2 := j1.(delivered := map[w := r]);
    assert IsSha256(h);
    assert j.prepared[w := p] == j1.prepared && j1.delivered[w := r] == j2.delivered;
    assert Apply(j, Prepare(p)) == Some(j1);
    assert Apply(j1, Deliver(r)) == Some(j2);
    HugePixels(r);
    DeliveredOverflows(j2, r);
    ops, js := [Prepare(p), Deliver(r)], [j, j1, j2];
  }

  // ----- what a journal never contains -----

  predicate Stable(uri: string)
  {
    0 < |uri| <= 1024 && forall i :: 0 <= i < |uri| ==> uri[i] !in {'?', '\r', '\n'}
  }

  /** In every run the URIs of delivered renditions and of the manifest are short, single-line references without a
      query, so a signed address never gets into a journal or a result. */
  lemma NoSignedUris(w: string, h: string, ops: seq<JournalOp>, js: seq<Journal>, k: nat)
    requires Run(w, h, ops, js) && k < |js|
    ensures forall n :: n in js[k].delivered ==>
              Stable(js[k].delivered[n].playlistUri) && Stable(js[k].delivered[n].streamUri)
    ensures js[k].manifestUri != "" ==> Stable(js[k].manifestUri)
  {
    EveryReachableJournalLoads(w, h, ops, js, k);
    forall n | n in js[k].delivered
      ensures Stable(js[k].delivered[n].playlistUri) && Stable(js[k].delivered[n].streamUri)
    {
      assert ValidRendition(js[k].delivered[n]);
      ArtifactsAreStable(js[k].delivered[n].playlistUri);
      ArtifactsAreStable(js[k].delivered[n].streamUri);
    }
    if js[k].manifestUri != "" {
      ArtifactsAreStable(js[k].manifestUri);
    }
  }

  lemma ArtifactsAreStable(uri: string)
    requires ValidArtifactUri(uri)
    ensures Stable(uri)
  {
  }

  lemma {:induction false} SplitAppend(a: string, b: string, c: char)
    ensures Split(a + [c] + b, c) == Split(a, c) + Split(b, c)
    decreases |a|
  {
    var s, i := a + [c] + b, IndexOf(a, c);
    if i == |a| {
      assert c !in a[..i] && a[..i] == a;
      IndexOfAbsent(a, c, b);
      assert s[..|a|] == a && s[|a| + 1..] == b;
    } else {
      var head, tail := a[..i], a[i + 1..];
      assert a == head + [c] + tail;
      assert s == head + [c] + (tail + [c] + b);
      IndexOfAbsent(head, c, tail + [c] + b);
      assert s[..i] == head && s[i + 1..] == tail + [c] + b;
      SplitAppend(tail, b, c);
    }
  }

  lemma BadPart(path: string, i: nat)
    requires i < |Split(path, '/')| && |path| > 1 && (Split(path, '/')[i] == "" || Split(path, '/')[i] == "..")
    ensures !SafePath(path)
  {
  }

  lemma NoSlash(part: string)
    requires '/' !in part
    ensures Split(part, '/') == [part]
  {
    IndexOfAbsent(part, '/', "");
  }

  /** No path of a prepared checkpoint leaves the store: it is not absolute, and the directory above is not named at
      its beginning, its end or in between. */
  lemma PathsStayInside(a: string, dots: string, b: string)
    requires dots == ".." && b != ""
    ensures !SafePath(['/'] + b) && !SafePath(dots) && !SafePath(dots + ['/'] + b)
    ensures !SafePath(a + ['/'] + dots) && !SafePath(a + ['/'] + (dots + ['/'] + b))
  {
    NoSlash("");
    NoSlash(dots);
    SplitAppend("", b, '/');
    assert "" + ['/'] + b == ['/'] + b;
    BadPart(['/'] + b, 0);
    BadPart(dots, 0);
    SplitAppend(dots, b, '/');
    BadPart(dots + ['/'] + b, 0);
    SplitAppend(a, dots, '/');
    BadPart(a + ['/'] + dots, |Split(a, '/')|);
    SplitAppend(a, dots + ['/'] + b, '/');
    BadPart(a + ['/'] + (dots + ['/'] + b), |Split(a, '/')|);
  }
}
