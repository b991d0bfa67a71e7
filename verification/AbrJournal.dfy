/** The durable workload journal: prepared and delivered checkpoints, a bounded window of progress events
    and at most one terminal event (abr-runner/workload_store_v2.go). */
module AbrJournal {
  import opened Text
  import opened AbrContract

  datatype JournalState = InProgress | Succeeded | Failed

  datatype Phase = Accepted | Downloading | Probing | Encoding | Packaging | Uploading | UnknownPhase(text: string)

  datatype Payload =
    | ProgressNote(phase: Phase, percent: real, rendition: string, frames: nat)
    | ResultNote(result: TerminalResult)
    | ErrorNote(error: TerminalError)

  datatype StoredEvent = StoredEvent(seqNo: nat, payload: Payload)

  datatype Prepared = Prepared(
    name: string, playlistPath: string, streamPath: string, playlistHash: string, streamHash: string,
    video: Option<Video>, bytes: nat)

  datatype Artifact = Artifact(path: string, hash: string)

  datatype Journal = Journal(
    workloadId: string, requestHash: string, state: JournalState, next: nat,
    prepared: map<string, Prepared>, delivered: map<string, Rendition>,
    manifestPrepared: Option<Artifact>, manifestUri: string,
    progress: seq<StoredEvent>, terminal: Option<StoredEvent>)

  const MAX_STORED_PROGRESS: nat := 256

  // ----- pieces of the validators -----

  /** A clean relative path that does not leave its directory. */
  predicate SafePath(path: string)
  {
    || path == "."
    || (path != "" && forall i :: 0 <= i < |Split(path, '/')| ==>
          Split(path, '/')[i] != "" && Split(path, '/')[i] != "." && Split(path, '/')[i] != "..")
  }

  predicate PositiveVideo(video: Option<Video>)
  {
    video.Some? ==> video.value.frames > 0 && video.value.width > 0 && video.value.height > 0
  }

  predicate SafePrepared(p: Prepared)
  {
    SafePath(p.playlistPath) && SafePath(p.streamPath) && IsSha256(p.playlistHash) && IsSha256(p.streamHash)
  }

  predicate Matches(p: Prepared, r: Rendition) { p.name == r.name && p.bytes == r.bytes && p.video == r.video }

  /** What loadLocked and validateJournalLocked accept under the identity in the record. */
  ghost predicate ValidJournal(j: Journal)
  {
    && OpaqueId(j.workloadId) && IsSha256(j.requestHash)
    && j.next > 0
    && (j.state != InProgress) == j.terminal.Some?
    && (j.terminal.Some? ==> j.terminal.value.seqNo < j.next && !j.terminal.value.payload.ProgressNote?)
    && (forall n :: n in j.prepared ==> n == j.prepared[n].name && SafePrepared(j.prepared[n]))
    && (forall n :: n in j.delivered ==>
          n == j.delivered[n].name && n in j.prepared && Matches(j.prepared[n], j.delivered[n]))
    && (j.manifestPrepared.Some? ==> SafePath(j.manifestPrepared.value.path) && IsSha256(j.manifestPrepared.value.hash))
    && (j.manifestUri != "" ==> j.manifestPrepared.Some? && ValidArtifactUri(j.manifestUri))
  }

  // ----- operations on one journal; None is a refusal -----

  function Fresh(workloadId: string, requestHash: string): Journal
  {
    Journal(workloadId, requestHash, InProgress, 1, map[], map[], None, "", [], None)
  }

  datatype Disposition = Resume | ReplayTerminal | RejectIdReuse

  function ClassifyReplay(existing: string, incoming: string, terminal: bool): Disposition
  {
    if existing != incoming then RejectIdReuse else if terminal then ReplayTerminal else Resume
  }

  function Newest(events: seq<StoredEvent>): seq<StoredEvent>
  {
    if |events| > MAX_STORED_PROGRESS then events[|events| - MAX_STORED_PROGRESS..] else events
  }

  function AppendProgress(j: Journal, note: Payload): Option<Journal>
  {
    if j.state != InProgress || !note.ProgressNote? || note.phase.UnknownPhase?
       || note.percent < 0.0 || note.percent > 100.0 then None
    else Some(j.(next := j.next + 1, progress := Newest(j.progress + [StoredEvent(j.next, note)])))
  }

  function SavePrepared(j: Journal, p: Prepared): Option<Journal>
  {
    if j.state != InProgress || p.name == "" || !SafePrepared(p) || !PositiveVideo(p.video) || p.name in j.delivered
    then None
    else Some(j.(prepared := j.prepared[p.name := p]))
  }

  function SaveDelivered(j: Journal, r: Rendition): Option<Journal>
  {
    if j.state != InProgress || r.name !in j.prepared || !Matches(j.prepared[r.name], r)
       || !ValidArtifactUri(r.playlistUri) || !ValidArtifactUri(r.streamUri) then None
    else Some(j.(delivered := j.delivered[r.name := r]))
  }

  function SavePreparedManifest(j: Journal, a: Artifact): Option<Journal>
  {
    if j.state != InProgress || j.manifestUri != "" || !SafePath(a.path) || !IsSha256(a.hash) then None
    else Some(j.(manifestPrepared := Some(a)))
  }

  function SaveDeliveredManifest(j: Journal, uri: string): Option<Journal>
  {
    if j.state != InProgress || j.manifestPrepared.None? || !ValidArtifactUri(uri) then None
    else Some(j.(manifestUri := uri))
  }

  function Finish(j: Journal, state: JournalState, note: Payload): Journal
  {
    j.(next := j.next + 1, state := state, terminal := Some(StoredEvent(j.next, note)))
  }

  /** The renditions of a result are the delivered checkpoints it names, as many as there are. */
  predicate SameAsCheckpoints(renditions: seq<Rendition>, delivered: map<string, Rendition>)
  {
    && |renditions| == |delivered|
    && forall i :: 0 <= i < |renditions| ==>
         renditions[i].name in delivered && delivered[renditions[i].name] == renditions[i]
  }

  ghost predicate AcceptsResult(j: Journal, result: TerminalResult)
  {
    && ValidResult(result) && j.state == InProgress
    && result.workloadId == j.workloadId && result.requestHash == j.requestHash
    && result.manifestUri == j.manifestUri && SameAsCheckpoints(result.renditions, j.delivered)
  }

  /** `s` lists a map of renditions, each once, in some order. */
  ghost predicate Lists(s: seq<Rendition>, m: map<string, Rendition>)
  {
    && NamesDistinct(s)
    && (forall i :: 0 <= i < |s| ==> s[i].name in m && m[s[i].name] == s[i])
    && m.Keys <= Names(s)
  }

  ghost function Names(s: seq<Rendition>): set<string> { set i | 0 <= i < |s| :: s[i].name }

  ghost predicate WellNamed(m: map<string, Rendition>) { forall n :: n in m ==> m[n].name == n }

  /** The units the journal itself computes for its delivered checkpoints, in whatever order it lists them. */
  ghost predicate ClaimIs(m: map<string, Rendition>, units: nat)
  {
    forall s :: Lists(s, m) ==> Computable(s) && units == UnitsFor(TotalPixels(s))
  }

  ghost predicate AcceptsError(j: Journal, error: TerminalError)
  {
    && ValidError(error) && j.state == InProgress
    && error.workloadId == j.workloadId && error.requestHash == j.requestHash
    && ClaimIs(j.delivered, error.units)
  }

  // ----- listings of the delivered map -----

  lemma {:induction false} CountInDistinct(s: seq<Rendition>, x: Rendition)
    requires NamesDistinct(s)
    ensures multiset(s)[x] == if x in s then 1 else 0
  {
    if s != [] {
      var front, last := s[..|s| - 1], s[|s| - 1];
      assert s == front + [last];
      CountInDistinct(front, x);
      assert forall i :: 0 <= i < |front| ==> front[i].name != last.name;
    }
  }

  lemma ListingsHaveSameMembers(a: seq<Rendition>, b: seq<Rendition>, m: map<string, Rendition>)
    requires Lists(a, m) && Lists(b, m)
    ensures multiset(a) == multiset(b)
  {
    forall x ensures multiset(a)[x] == multiset(b)[x] {
      CountInDistinct(a, x);
      CountInDistinct(b, x);
      assert x in a ==> x.name in Names(b);
      assert x in b ==> x.name in Names(a);
    }
  }

  lemma ListingDecidesClaim(s: seq<Rendition>, m: map<string, Rendition>, units: nat)
    requires Lists(s, m)
    ensures ClaimIs(m, units) <==> Computable(s) && units == UnitsFor(TotalPixels(s))
  {
    forall t | Lists(t, m) ensures Computable(t) <==> Computable(s) ensures TotalPixels(t) == TotalPixels(s) {
      ListingsHaveSameMembers(s, t, m);
      ComputableIgnoresOrder(s, t);
      TotalIgnoresOrder(s, t);
    }
  }

  /** As many distinct names as the map has keys, all of them keys, leave no key out. */
  lemma CheckpointsAreListed(renditions: seq<Rendition>, m: map<string, Rendition>)
    requires SameAsCheckpoints(renditions, m) && NamesDistinct(renditions)
    ensures Lists(renditions, m)
  {
    DistinctNamesCount(renditions);
    assert Names(renditions) <= m.Keys;
    SubsetOfSameSize(Names(renditions), m.Keys);
  }

  lemma {:induction false} DistinctNamesCount(s: seq<Rendition>)
    requires NamesDistinct(s)
    ensures |Names(s)| == |s|
  {
    if s != [] {
      var front, last := s[..|s| - 1], s[|s| - 1];
      DistinctNamesCount(front);
      assert Names(s) == Names(front) + {last.name};
    }
  }

  lemma SubsetOfSameSize<T>(a: set<T>, b: set<T>)
    requires a <= b && |a| == |b|
    ensures a == b
  {
    if a != b {
      var x :| x in b && x !in a;
      SubsetIsSmaller(a, b - {x});
    }
  }

  lemma SubsetIsSmaller<T>(a: set<T>, b: set<T>)
    requires a <= b
    ensures |a| <= |b|
  {
    assert b == a + (b - a);
  }
}
