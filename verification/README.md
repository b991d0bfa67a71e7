# Verification of the paid transcoding services

A Dafny model of the durable state machines of a paid transcoding system, with proofs of what they promise over
whole runs: every interleaving, every lost or unconfirmed save, every crash. `dafny verify dfyconfig.toml` checks
the project.

- **Live sessions** (`Live*.dfy`, `CallbackRetry.dfy`). One durable record per session: exactly-once meter, ordered
  event outbox with retries and dead letters, two-phase key rotation, two-phase termination. `LiveOps` gives each
  store operation as a function on records and `LiveStore` is the store that serves them from a directory. `LiveRuns`
  and `LiveTheorems` quantify over all runs, and `LiveService` shows that any sequence of calls on the store is a run.
  `LiveKeys` adds publishers, `LiveTermination` and `LiveRecovery` the two termination paths, `LiveHealth` and
  `LiveDelivery` what health columns and the delivery cursor remember, `LiveDispatcher` the delivery loop with
  interference.
- **Playlists** (`Hls*.dfy`). The HLS media playlist parser and its decimal arithmetic (sections 4.3.1.1 and 4.3.2.1
  of RFC 8216).
- **ABR workloads** (`Abr*.dfy`). Journal, store, executor with restarts, event stream, execution coordinator and
  the 64-bit billing claim.
- **Gateway** (`Gateway*.dfy`, `RateLimiter.dfy`). Paid operations with a recovery lease and a version fence, each
  SQL statement or transaction one step under arbitrary clocks; the sliding-window rate limiter.
- **GPU admission** (`GpuAdmission.dfy`). Three advisory locks shared by many processes, one lock call at a time.

Times are integers. A save is one atomic replace that is confirmed, lost, or done with the confirmation lost. A
request fingerprint is the request itself. Random choices, clocks, the network, the media process and the broker are
arguments or nondeterministic choices of the methods. Where a protocol runs concurrently it is a transition system
whose steps are what the source does under one lock or in one system call.

## What the proofs found

- The record validator is not inductive: `LiveTheorems.PollStaysLoadableIff` gives the exact condition, and the
  invariant that holds in every run adds that usage is the metered microseconds over one million and that no pending
  event claims more. `Advance` alone would break it (`BareUsageTickBreaksReload`, exactly when by
  `AdvanceKeepsInvIff`); its callers never do.
- A stopping session at the last 64-bit sequence, or whose next event identity exceeds 128 characters, cannot be
  finalised (`LiveInvariant.FinalizeSucceedsIff`), now or in any continuation (`LiveTheorems.ExhaustedNeverEnds`).
- A terminate request overtaken by another finaliser between its load and its intent is answered "unavailable"
  although the contract promises that repeated termination succeeds (`LiveTermination.TeardownReachedIff`; a run that
  reaches it is in `OvertakenSessionExists`).
- A broker status outside 100 to 599 can be neither recorded as a retry nor parked: the delivery breaks off exactly
  then, the head stays, and the sweep ends with it (`LiveDispatcher.BreaksOffIff`, `Status600BreaksOff`, `SweepOnce`).
- ABR: when the delivered pixels overflow 64 bits, the handler's "usage_failed" event is refused by the store, which
  recomputes the claim; no run ever records a terminal event for such a workload (`AbrRuns.OverflowNeverEnds`), and one
  is reached by a single rendition (`OverflowReached`).
- A duration of 18446744073710 seconds or more passes the 58-bit bound and wraps (`HlsDuration.HugeDurationWraps`).
- A playlist over the size limit is refused exactly when what fits has no complete line (`HlsTheorems.TooLargeIff`);
  otherwise it is cut, and a URI that straddles the limit is metered under its first part (`OversizeTextExists`).
- Secrets erased by a terminal write come back if and only if a write that had already found its claim was still in
  flight (`GatewaySecrets.ErasureIsFinalIff`): the statement of `putSecrets` takes no lock on the operation.
- The rate limiter forgets too much for windows over sixty seconds (`RateLimiter.LimiterAgreesIff`). Its comment calls
  it a token bucket; the code keeps a sliding log, and the model follows the code.
- GPU admission can refuse its own shared lock, but only while the kernel is still closing a dead prober's files
  (`GpuAdmission.OwnLockRefusedIff`; a run that reaches it is in `OwnLockRefusalReached`).

## Model

| member | source | states |
|---|---|---|
| `LiveContract.EventIdIsOpaque` | live-runner/store.go:284-286 | an event identity, runner id and sequence number joined by a colon, matches the identifier pattern exactly when its length allows it |
| `LiveContract.EventIdInjective` | live-runner/store.go:284-286 | different sequence numbers of one runner give different event identities |
| `LiveContract.ShortRunnerIdsAlwaysFit` | live-runner/recovery.go:91-95 | runner ids of at most 107 characters never run out of event identities, whatever the 64-bit sequence |
| `LiveContract.EventCursor.AcceptEvent` | live-runner/contract.go:393-416 | the cursor accepts exactly fresh, valid events with a higher sequence and a usage that does not fall, and then stands at that event; a refusal leaves it unchanged |
| `LiveContract.CalculateOutputSeconds` | live-runner/contract.go:477-487 | whole seconds of the summed durations; fails exactly when the true sum exceeds 64 bits |
| `LiveRecord.ValidateOutboxEvents` | live-runner/store.go:1062-1077 | the one-pass loop over pending events decides the pairwise order of sequences and of usage totals, with nothing missed |
| `LiveRecord.OrderedOneMore` | live-runner/store.go:1062-1077 | comparing with the last sequence and the last reported usage decides the order with respect to all earlier events |
| `LiveRecord.ValidateDeadLetters` | live-runner/store.go:1089-1102 | the loop over dead letters decides that each of them is valid |
| `LiveRecord.ValidateSegmentCursor` | live-runner/store.go:1106-1119 | the loop over the segment cursor decides that identities are distinct and that usage and meter agree |
| `LiveRecord.ValidateSessionSecrets` | live-runner/store.go:1134-1171 | the loop over the key map decides that exactly the current key is non-empty and that every stored pair belongs to its request |
| `LiveRecord.ValidateLoaded` | live-runner/store.go:844-916 | a record loads exactly when both validators accept it |
| `LiveStore.SessionStore.CreateOrReplay` | live-runner/store.go:138-181 | an unknown session is created once; a known one is replayed, refused for a changed request, or refused as terminal, and never changed |
| `LiveStore.SessionStore.BlankKeys` | live-runner/store.go:229-232 | earlier keys lose their stream key in whatever order the map is enumerated, and nothing else about them changes |
| `LiveStore.SessionStore.RecordKeyIssue` | live-runner/store.go:198-246 | issue, repeat or refuse a key for one session; refusals, lost saves and other sessions leave the directory as it was |
| `LiveStore.SessionStore.CompleteKeyActivation` | live-runner/store.go:248-269 | completes exactly the pending activation of the current key |
| `LiveStore.SessionStore.Advance` | live-runner/store.go:271-310 | appends an accepted event through the cursor, moves to its state when it is terminal, and changes nothing when refused |
| `LiveStore.SessionStore.MeterSegments` | live-runner/store.go:331-353 | the exactly-once loop: each identity counts once, the sum is refused beyond 64 bits, and "changed" says whether any identity was new |
| `LiveStore.SessionStore.RecordFinalizedSegments` | live-runner/store.go:315-393 | one atomic update of meter, usage total and the usage tick that reports it |
| `LiveStore.SessionStore.Heartbeat` | live-runner/store.go:395-440 | enqueues a heartbeat with the current usage once the interval since the last event has passed, and changes nothing before |
| `LiveStore.SessionStore.IngestPresence` | live-runner/store.go:445-478 | records when ingest came and went |
| `LiveStore.SessionStore.LadderRestarted` | live-runner/store.go:480-517 | restarts are counted within their window |
| `LiveStore.SessionStore.EvaluateOutputHealth` | live-runner/store.go:521-564 | marks a stalled output and says when the stall is fatal |
| `LiveStore.SessionStore.BeginTermination` | live-runner/store.go:628-655 | records the first termination intent and reports a later one as already begun |
| `LiveStore.SessionStore.AcknowledgeEvent` | live-runner/store.go:657-670 | removes the head of the outbox, and only the head |
| `LiveStore.SessionStore.ReserveCallbackAttempt` | live-runner/store.go:676-717 | reserves one more attempt of the head before anything is posted, with the wait that belongs to its number |
| `LiveStore.SessionStore.RecordCallbackRetryFailure` | live-runner/store.go:719-735 | notes a failed attempt of the reserved head |
| `LiveStore.SessionStore.ParkCallbackRejection` | live-runner/store.go:740-769 | moves the head to the bounded dead letters and counts it |
| `LiveStore.SessionStore.ClearTerminalSecrets` | live-runner/store.go:771-786 | erases credentials of a terminal session with an empty outbox, and of no other |
| `LiveDelivery.AttemptsAreCounted` | live-runner/store.go:676-717 | in every run the stored attempt number is the number of saved reservations since the head became the head |
| `LiveDelivery.KthTryWaits` | live-runner/store.go:700-716 | in every run the k-th try stores attempt k and waits at least three quarters of min(maximum, initial * 2^(k-1)) and at most the maximum |
| `LiveDelivery.DeadLettersAreLatest` | live-runner/store.go:740-769 | in every run the dead letters are the latest 32 rejected events in order, and the counter counts all of them |
| `LiveDelivery.LetterTellsAll` | live-runner/store.go:740-769 | a new dead letter holds the head, the number of its tries, the answer and the time |
| `LiveInvariant.IssueKeyKeepsInv` | live-runner/store.go:198-246 | issuing a key keeps the strengthened record invariant |
| `LiveInvariant.RecordSegmentsKeepsInv` | live-runner/store.go:315-393 | a poll keeps the invariant, with usage equal to the metered microseconds over one million |
| `LiveInvariant.RestartKeepsInv` | live-runner/store.go:480-517 | a ladder restart keeps the invariant |
| `LiveInvariant.MarkStalledKeepsInv` | live-runner/store.go:591-610 | marking a stalled output keeps the invariant |
| `LiveInvariant.BeginTerminalKeepsInv` | live-runner/store.go:628-655 | recording an intent keeps the invariant |
| `LiveInvariant.AcknowledgeKeepsInv` | live-runner/store.go:657-670 | acknowledging keeps the invariant |
| `LiveInvariant.ReserveKeepsInv` | live-runner/store.go:676-717 | reserving keeps the invariant |
| `LiveInvariant.ParkKeepsInv` | live-runner/store.go:740-769 | parking keeps the invariant, also when the dead letters are full |
| `LiveInvariant.ClearSecretsKeepsInv` | live-runner/store.go:771-786 | erasing keeps the invariant |
| `LiveInvariant.FinalizeSucceedsIff` | live-runner/recovery.go:64-105 | a stopping session can be finalised if and only if a next sequence number exists and its identity fits the identifier pattern |
| `LiveRuns.TransformKeepsInv` | live-runner/store.go:138-786 | every saved step of every operation, used as its callers use it, keeps the record invariant |
| `LiveRuns.MeterAllSplit` | live-runner/store.go:331-353 | metering a list is metering its parts one after the other, including when it fails |
| `LiveRuns.RunKeepsInv` | live-runner/store.go:138-786 | the invariant of records, log, meter, intent and finalisers holds after every run, with lost saves, crashes and stale finalisers |
| `LiveTheorems.EveryReachableRecordLoads` | live-runner/store.go:1010-1171 | every record any run can save passes both validators |
| `LiveTheorems.PollStaysLoadableIff` | live-runner/store.go:315-393 | the validator alone is not inductive: from a merely loadable record a poll saves a loadable one if and only if the recorded and pending usage do not exceed the new meter |
| `LiveTheorems.BareUsageTickBreaksReload` | live-runner/store.go:271-310 | a usage tick given to Advance before any segment is metered is accepted, and the next poll then saves a record that never loads again |
| `LiveTheorems.AdvanceKeepsInvIff` | live-runner/store.go:271-310 | Advance keeps the invariant if and only if its event claims no usage or the recorded one and follows the pending events without a gap |
| `LiveTheorems.ReplayedExactly` | live-runner/store.go:138-181 | in every continuation a create request is answered from the record if and only if it is the one that created it and the session is open |
| `LiveTheorems.OutboxConserved` | live-runner/store.go:657-769 | in every run the events ever enqueued are the settled ones in order followed by the pending ones, numbered 1 to the last sequence |
| `LiveTheorems.AcceptedEventsOrderly` | live-runner/callback.go:142-212 | leaving out parked events keeps the rest in order, with usage that does not fall |
| `LiveTheorems.OrderlyStreamAccepted` | live-runner/contract.go:393-416 | a cursor behind an orderly stream accepts all of it |
| `LiveTheorems.CursorAcceptsIff` | live-runner/contract.go:393-416 | a cursor accepts a stream if and only if its events are valid, behind what it has seen, with growing sequences, fresh identities and usage that never falls, pairwise |
| `LiveTheorems.AcknowledgedEventsAccepted` | live-runner/contract.go:393-416 | in every run a fresh cursor accepts all acknowledged events, even where parked ones are missing |
| `LiveTheorems.MeterIsFirstObservations` | live-runner/store.go:331-353 | the meter over any polled list is the list of first observations and the sum of their durations |
| `LiveTheorems.MeterCountsEachSegmentOnce` | live-runner/store.go:315-393 | after any polls, rereads, overlaps and restarts the meter is the sum over distinct identities of their first duration, and usage is its whole seconds |
| `LiveTheorems.RecalculateUsage` | live-runner/contract.go:477-487 | recalculating from the deduplicated list gives the usage total of the run |
| `LiveTheorems.SplitPollsAgree` | live-runner/store.go:315-393 | splitting a list across two polls gives the same meter and usage, and both halves succeed where the whole does |
| `LiveTheorems.RereadIsFree` | live-runner/store.go:331-353 | rereading metered segments changes nothing |
| `LiveTheorems.FirstIntentWins` | live-runner/store.go:628-655 | in every continuation the session still waits for its first intent or has ended with that state and reason, by one terminal event that is the last event and claims the final meter |
| `LiveTheorems.NoTerminalWithoutIntent` | live-runner/runtime.go:459-483 | no session stops or ends without a recorded intent |
| `LiveTheorems.FinalizerCommits` | live-runner/recovery.go:64-105 | a finaliser's event, however stale, ends a stopping session below the sequence limit, and on an ended session it is told so |
| `LiveTheorems.ExhaustedNeverEnds` | live-runner/recovery.go:91-105 | a stopping session without a further event identity is never finalised, in any continuation |
| `LiveTheorems.PendingEventsHaveCredentials` | live-runner/callback.go:142-152 | in every run credentials are missing only from a terminal session with a drained outbox |
| `LiveTheorems.ErasedSessionIsSilent` | live-runner/store.go:771-786 | after erasure no run ever enqueues another event or brings credentials back |
| `LiveHealth.HeartbeatsAreSpaced` | live-runner/store.go:395-440 | in every run a heartbeat is at least the interval later than the event enqueued before it and carries the usage; starts, restarts and stalls carry none |
| `LiveHealth.OneStallPerEpoch` | live-runner/store.go:519-610 | in every run a stalled session reports no second stall until segments arrive or its publisher changes |
| `LiveHealth.VerdictFollowsSilence` | live-runner/store.go:521-564 | silence is measured from the later of arrival and last segment: lost from the fail limit on, newly stalled only between the limits and only once |
| `LiveHealth.HealthIsRemembered` | live-runner/store.go:445-564 | in every run the record knows since when the publisher has been there, when segments came first and last, and since when the output has been in its state |
| `LiveHealth.HeartbeatDueIff` | live-runner/store.go:395-440 | a heartbeat is enqueued if and only if the interval since the last event has passed |
| `LiveHealth.RestartsAreCounted` | live-runner/store.go:480-517 | in every run the failure counter counts the latest restarts, all within one window, and only segments or the publisher's leaving start it over |
| `LiveHealth.WindowOpensIff` | live-runner/store.go:494-505 | a restart opens a new window exactly when the old one is over |
| `LiveHealth.TicksReportGrowth` | live-runner/store.go:355-392 | in every run a usage tick reports more than any event before it |
| `LiveTermination.TeardownReachedIff` | live-runner/server.go:217-247 | a terminate request that found its session active reaches the teardown if and only if the session is still active when the intent is recorded |
| `LiveTermination.TerminateOvertaken` | live-runner/server.go:217-247 | overtaken by a finaliser that commits in between it is answered "unavailable", although the session has ended |
| `LiveTermination.OvertakenSessionExists` | live-runner/server.go:217-247 | for every valid create request there is such a run: created, failed on its own, finalised between the handler's load and its intent |
| `LiveTermination.RetriedTerminateReports` | live-runner/server.go:217-247 | a retry is answered with the state and reason of the intent that won |
| `LiveTermination.TerminateReportsEnd` | live-runner/server.go:217-247 | a request that gets through is answered with the state and reason of the first durable intent |
| `LiveTermination.RequestEndsSession` | live-runner/store.go:620-622 | the broker's request leaves an intent, and then an event, that says "ended" with its reason |
| `LiveRecovery.FinalizeLiveTermination` | live-runner/recovery.go:64-105 | finalising keeps every record sound, ends a stopping session unless its save or its event identity fails, and reports a session that had ended |
| `LiveRecovery.RotationCompletes` | live-runner/recovery.go:38-46 | a pending activation is the current key's, so completing it is never refused |
| `LiveRecovery.EnsureSession` | live-runner/runtime.go:236-289 | the first admitted start enqueues event number one; a later one, or one that is not admitted, changes nothing |
| `LiveRecovery.RecoverSession` | live-runner/recovery.go:21-50 | one session of the loop under arbitrary saves; without the media's consent nothing is finalised and no rotation is completed |
| `LiveRecovery.RecoverLiveSessions` | live-runner/recovery.go:10-52 | after a successful recovery no session is half-terminated or half-rotated; after a failed one the directory is still sound |
| `LiveService.ServedIsNext` | live-runner/store.go:138-786 | a call served through the directory is the step of its session, saved exactly when the file was replaced, and no other session moves |
| `LiveService.Service.CreateSession` | live-runner/store.go:138-181 | creating or replaying is the next step of its session's history |
| `LiveService.Service.RecordBeat` | live-runner/store.go:395-440 | a heartbeat call, whatever becomes of its save, is the next step of its session's history |
| `LiveService.Service.ObserveIngest` | live-runner/store.go:445-478 | an ingest observation is the next step of its session's history |
| `LiveService.Service.RestartLadder` | live-runner/store.go:480-517 | a ladder restart is the next step of its session's history |
| `LiveService.Service.CheckHealth` | live-runner/store.go:521-564 | an output health check is the next step of its session's history |
| `LiveService.Service.BeginEnd` | live-runner/store.go:628-655 | a termination intent is the next step of its session's history |
| `LiveService.Service.StartSession` | live-runner/runtime.go:267-279 | the one use of Advance for a session without events keeps files and histories together |
| `LiveService.Service.LoadFinal` | live-runner/recovery.go:68-95 | the event a finaliser computes is one the history knows |
| `LiveService.Service.CommitFinal` | live-runner/recovery.go:96-105 | committing it, however much later, is the next step |
| `LiveService.EveryFileLoads` | live-runner/store.go:844-916 | after any sequence of calls on the store object, whatever became of their saves, every file loads and keeps the invariant |
| `LiveService.FilesAccountForEverything` | live-runner/store.go:138-786 | after any sequence of calls a file's pending events are the unsettled end of its session's log and its usage counts each segment once |
| `LiveKeys.OnlyCurrentKeyStored` | live-runner/store.go:198-246 | in every run a stored stream key is non-empty if and only if it is the current one |
| `LiveKeys.SupersededForever` | live-runner/store.go:198-246 | a superseded request id never yields a key again, in any continuation |
| `LiveKeys.CurrentRequestRepeats` | live-runner/store.go:198-246 | a repeated current request gets the stored key, never a new one |
| `LiveKeys.RunKeepsIngest` | live-runner/server.go:287-313 | the invariant of keys, handlers and publishers over every interleaving with crashes |
| `LiveKeys.PublishersHoldCurrentKey` | live-runner/media.go:134-169 | in every run, while a session is open with no pending activation, every connected publisher presented the path and the token of the current stream key |
| `LiveKeys.AdmittedIff` | live-runner/media.go:149-160 | a publisher is admitted if and only if the session is active and not stopping, no activation is pending, and it comes on the session's path with the current secret before the key expires |
| `LiveKeys.PublishersKnowTheSecret` | live-runner/media.go:134-169 | in every run the connected publishers came on the session's path with the current secret |
| `LiveKeys.SupersededSecretRefused` | live-runner/media.go:149-160 | in every continuation the secret of a superseded key is refused on every path |
| `LiveKeys.RotationIsFinishedFirst` | live-runner/store.go:226-228 | until an activation is completed its key stays current, whatever else is requested |
| `LiveKeys.FirstKeyAdmitsAtOnce` | live-runner/store.go:233-243 | the first key of a session is usable at once |
| `LiveKeys.LaterKeyMustWait` | live-runner/store.go:233-243 | a later key is usable only after its activation |
| `LiveMedia.UnescapeEscape` | live-runner/media.go:205-210 | query unescaping undoes query escaping, for every byte string |
| `LiveMedia.StreamKeyRoundTrip` | live-runner/media.go:205-224 | parsing an issued stream key gives back the session's path and the secret |
| `LiveDispatcher.SafeErrorCodeIsValid` | live-runner/callback.go:250-281 | every error code taken from a broker answer is one the store accepts |
| `LiveDispatcher.DeliverNext` | live-runner/callback.go:142-212 | while others append, exactly the head is acknowledged, parked for a recordable rejection, or kept for a strictly later retry; a delivery that breaks off leaves everything in place, but for a head settled by an unconfirmed save |
| `LiveDispatcher.BreaksOffIff` | live-runner/callback.go:190-204 | with confirmed saves, a due head and counters left, a delivery breaks off if and only if the status lies outside 100 to 599, and the head stays |
| `LiveDispatcher.Status600BreaksOff` | live-runner/callback.go:199-201 | status 600 is neither retried nor parked, and the head stays |
| `LiveDispatcher.FateByStatus` | live-runner/callback.go:190-216 | with confirmed saves: 200 to 299 delivers, no answer, 408, 429 and 500 to 599 retry, and the rest of 100 to 499 parks, each if and only if |
| `LiveDispatcher.StatusesWithMeaning` | live-runner/callback.go:250-258 | authorisation and terminal codes are kept exactly for 401, 403, 404 and 410, whatever the body says |
| `LiveDispatcher.Drain` | live-runner/callback.go:104-124 | one sweep settles a prefix of the snapshot in order, all of it when every answer is conclusive; a sweep that breaks off leaves the rest in place, but for a head settled by an unconfirmed save |
| `LiveDispatcher.SweepSession` | live-runner/callback.go:99-137 | after a complete sweep the credentials of a drained terminal session are gone, and of no other |
| `LiveDispatcher.SweepOnce` | live-runner/callback.go:99-137 | a whole sweep keeps every session sound; one that breaks off ends there, and the sessions behind are untouched |
| `CallbackRetry.ExponentialBase` | live-runner/callback.go:218-226 | the doubling loop gives min(maximum, initial * 2^(attempt-1)) with every intermediate value in 64 bits |
| `CallbackRetry.RetryDelay` | live-runner/callback.go:218-248 | the split arithmetic gives the rounded scaled base capped at the maximum, without overflow |
| `CallbackRetry.DelayBounds` | live-runner/callback.go:218-248 | the delay is at least three quarters of the base, at most the maximum, and positive |
| `CallbackRetry.BaseNeverShrinks` | live-runner/callback.go:218-226 | bases never shrink and at most double from one attempt to the next |
| `HlsDuration.DurationIsRead` | live-runner/metering.go:98-122 | exactly the decimals with whole seconds below 2^58 and a non-zero value are read, as their exact microseconds modulo 2^64 |
| `HlsDuration.DurationExactIff` | live-runner/metering.go:98-122 | what is read is exact if and only if the microseconds fit 64 bits, in particular below 18446744073709 seconds |
| `HlsDuration.HugeDurationWraps` | live-runner/metering.go:106-118 | 18446744073709.6 seconds, accepted by the 58-bit bound, is read as 48384 microseconds |
| `HlsPlaylist.ParsePlaylist` | live-runner/metering.go:27-96 | the loop with its pending duration and seen map computes the line-by-line meaning of the text |
| `HlsTheorems.OnlyRelevantLinesCount` | live-runner/metering.go:47-71 | blank lines, comments and tags other than EXTINF may be dropped |
| `HlsTheorems.InsertingIrrelevantLineChangesNothing` | live-runner/metering.go:27-96 | inserting such a line anywhere after the header changes nothing, for texts within the limit |
| `HlsTheorems.OversizeTextIsCut` | live-runner/metering.go:27-30 | a longer text is cut after the limit rather than refused once it has a complete line |
| `HlsTheorems.TooLargeIff` | live-runner/metering.go:27-30 | a playlist is refused for its size if and only if it is over the limit and what fits has no complete line |
| `HlsTheorems.OversizeTextIsRead` | live-runner/metering.go:27-96 | over the limit, a URI that straddles it is metered under its first part |
| `HlsTheorems.OversizeTextExists` | live-runner/metering.go:27-96 | such a text: it names "segment.ts" and is read as a segment "s" |
| `HlsTheorems.ScanIsDeduplicatedPairs` | live-runner/metering.go:37-85 | the parser accepts exactly the well-formed, consistent EXTINF/URI pairs and yields the first pair of each URI in order |
| `HlsTheorems.ParsedUrisAreDistinct` | live-runner/metering.go:75-84 | parsed URIs are distinct and in first-seen order |
| `HlsRoundTrip.CommaEndsDuration` | live-runner/metering.go:54-57 | the duration of an EXTINF line ends at the comma, whatever the title says |
| `HlsRoundTrip.PlaylistRoundTrip` | live-runner/metering.go:27-122 | a playlist written out and read back yields its URIs in first-seen order with the exact microseconds of their decimals, and is refused exactly when empty or inconsistent |
| `HlsRoundTrip.UnpairedIsRefused` | live-runner/metering.go:50-53 | a duration followed by another, or by a URI that is too long or contains a NUL, is refused whatever else the playlist holds |
| `HlsRoundTrip.DanglingIsRefused` | live-runner/metering.go:92-94 | so is a duration without a URI at the end |
| `HlsRoundTrip.ByteOrderMarkIsIgnored` | live-runner/metering.go:40-45 | a byte order mark before the header is ignored |
| `HlsRoundTrip.CarriageReturnIsDropped` | live-runner/metering.go:39 | a carriage return before the newline is dropped |
| `AbrContract.CalculateUnits` | abr-runner/contract_v2.go:297-323 | the 64-bit loop gives the rounded-up quotient of the true pixel sum, or fails exactly when a product or the sum leaves 64 bits |
| `AbrContract.FailsOnlyBeyond64Bits` | abr-runner/contract_v2.go:297-323 | with positive heights it fails if and only if the true sum exceeds 64 bits |
| `AbrContract.ZeroHeightOverflows` | abr-runner/contract_v2.go:304-311 | with a zero height it can fail although the sum is zero |
| `AbrContract.TotalIgnoresOrder` | abr-runner/contract_v2.go:297-323 | the pixel sum does not depend on the order of the renditions |
| `AbrContract.ComputableIgnoresOrder` | abr-runner/contract_v2.go:297-323 | neither does whether it can be computed |
| `AbrContract.ValidateTerminalResult` | abr-runner/contract_v2.go:232-272 | the loop with its seen map decides that names are distinct, renditions complete and the claim exact |
| `AbrContract.LeakIsCaught` | abr-runner/contract_v2.go:284-287 | an address or a signature anywhere in an error message, in any mixture of cases, is caught |
| `AbrJournal.ListingDecidesClaim` | abr-runner/workload_store_v2.go:266-276 | one enumeration of the delivered map decides a claim for all enumerations |
| `AbrJournal.CheckpointsAreListed` | abr-runner/workload_store_v2.go:284-292 | equal counts and matching names make a result's renditions a bijection with the delivered map |
| `AbrRuns.EveryReachableJournalLoads` | abr-runner/workload_store_v2.go:119-441 | every journal any run can save passes the loader, with its event window, sound checkpoints and honest terminal event |
| `AbrRuns.RunsOnlyProgress` | abr-runner/workload_store_v2.go:119-306 | checkpoints are never withdrawn or re-measured, prepared files of delivered ones never replaced, sequences never fall, and a terminal journal never changes |
| `AbrRuns.TerminalClaimsDelivered` | abr-runner/workload_store_v2.go:257-293 | every recorded terminal event, success or failure, claims the rounded-up total of the delivered pixels in any map order; a success lists exactly the delivered map |
| `AbrRuns.UnitsAreCeiling` | abr-runner/contract_v2.go:318-322 | the claim is the ceiling of pixels over one million |
| `AbrRuns.NoSignedUris` | abr-runner/contract_v2.go:338-343 | in every run the URIs of a journal are short single-line references without a query |
| `AbrRuns.PathsStayInside` | abr-runner/workload_store_v2.go:463-466 | no prepared path is absolute or names the directory above |
| `AbrRuns.FailureRecordableIff` | abr-runner/workload_store_v2.go:262-276 | some failure event is accepted if and only if the delivered pixels fit 64 bits |
| `AbrRuns.OverflowNeverEnds` | abr-runner/abr_handler_v2.go:168-182 | once they do not, no continuation ever records a terminal event |
| `AbrRuns.OverflowReached` | abr-runner/workload_store_v2.go:158-200 | a run that reaches such a workload: one rendition of 2^32 frames of 65536 by 65537, prepared and delivered |
| `AbrStore.ValidateJournal` | abr-runner/workload_store_v2.go:403-441 | the loops over both maps decide the loader's predicate |
| `AbrStore.Enumerate` | abr-runner/workload_store_v2.go:266-269 | enumerating the delivered map in any order lists each checkpoint once |
| `AbrStore.WorkloadStore.LoadOrCreate` | abr-runner/workload_store_v2.go:81-110 | a new identity starts a journal; a known one is resumed, replayed or refused for another request, and never changed |
| `AbrStore.WorkloadStore.AppendProgress` | abr-runner/workload_store_v2.go:119-156 | appends one numbered event and keeps the newest 256; refusals and other workloads change nothing |
| `AbrStore.WorkloadStore.SavePrepared` | abr-runner/workload_store_v2.go:158-176 | writes a prepared checkpoint, never over a delivered one |
| `AbrStore.WorkloadStore.SaveDelivered` | abr-runner/workload_store_v2.go:178-200 | writes a delivered checkpoint that matches its prepared one |
| `AbrStore.WorkloadStore.SavePreparedManifest` | abr-runner/workload_store_v2.go:202-214 | writes the prepared manifest until one was delivered |
| `AbrStore.WorkloadStore.SaveDeliveredManifest` | abr-runner/workload_store_v2.go:216-231 | writes the delivered manifest after a prepared one |
| `AbrStore.WorkloadStore.RecordTerminalResult` | abr-runner/workload_store_v2.go:233-306 | records a success exactly when it is valid and agrees with identity, manifest and every checkpoint |
| `AbrStore.CompareCheckpoints` | abr-runner/workload_store_v2.go:284-292 | the loop decides that result and checkpoints are equally many and agree name by name |
| `AbrStore.WorkloadStore.RecordTerminalError` | abr-runner/workload_store_v2.go:240-306 | records a failure exactly when its claim is the one recomputed from the checkpoints |
| `AbrStore.WorkloadStore.DeliveredWorkUnits` | abr-runner/abr_handler_v2.go:190-205 | the handler's own computation gives the claim the store will demand, or fails when no claim exists |
| `AbrStore.SafeFailure` | abr-runner/abr_handler_v2.go:207-220 | a failure that may be persisted keeps its code and message, any other becomes the generic one |
| `AbrStore.FailureFor` | abr-runner/abr_handler_v2.go:168-181 | the failure event is the redacted failure with the delivered units, or "usage_failed" exactly when there is no such number |
| `AbrStore.RecordSuccess` | abr-runner/abr_handler_v2.go:164-167 | with a confirmed save a result is recorded if and only if the journal accepts it |
| `AbrStore.RecordFailure` | abr-runner/abr_handler_v2.go:168-182 | with a confirmed save a failure is recorded if and only if the delivered pixels do not overflow; otherwise nothing is written |
| `AbrStream.WriteJournalEvents` | abr-runner/abr_handler_v2.go:455-475 | sends, up to a failed write, the events after the reader's last number and reports the new last number |
| `AbrStream.ServeEvents` | abr-runner/abr_handler_v2.go:366-406 | the loop sends what its successive reads show and ends with the terminal event |
| `AbrStream.StreamIsOrdered` | abr-runner/abr_handler_v2.go:378-475 | in every run and for all read times numbers strictly increase, the terminal event is last and present as soon as a read saw it |
| `AbrStream.StreamIsGapFreeIff` | abr-runner/workload_store_v2.go:146-151 | the stream has no gap if and only if at most 256 progress events were appended before each read since the one before |
| `AbrExecutor.ResultAccepted` | abr-runner/abr_executor_v2.go:123-135 | a complete list of checkpoints in preset order is a result the journal accepts |
| `AbrExecutor.Executor.Encode` | abr-runner/abr_executor_v2.go:65-74 | encodes and checkpoints a rendition that is not delivered |
| `AbrExecutor.Executor.Deliver` | abr-runner/abr_executor_v2.go:78-92 | uploads prepared files directly after they were encoded or checked, and delivers them at the playlist and stream URIs the request gives for that name, with the measures of the prepared checkpoint |
| `AbrExecutor.Executor.Checkpoint` | abr-runner/abr_executor_v2.go:85-92 | the delivered checkpoint is the rendition as the request wants it, and what was uploaded for it is its prepared checkpoint |
| `AbrExecutor.Executor.ProduceAll` | abr-runner/abr_executor_v2.go:53-93 | the loop yields the checkpoints of the preset in order, reusing those of the loaded journal |
| `AbrExecutor.Executor.FinishManifest` | abr-runner/abr_executor_v2.go:98-122 | the manifest is uploaded only while it has no delivered checkpoint |
| `AbrExecutor.Executor.Execute` | abr-runner/abr_executor_v2.go:32-136 | an attempt may stop anywhere; when it succeeds its result lists the preset in order, each rendition at the request's own URIs, also those of earlier attempts, and the journal accepts it |
| `AbrExecutor.Executor.RecordEnding` | abr-runner/abr_handler_v2.go:161-188 | a successful attempt whose save is confirmed leaves the journal succeeded |
| `AbrExecutor.EverySchedule` | abr-runner/abr_executor_v2.go:49-135 | in every schedule of failures, crashes and restarts nothing is encoded, uploaded or checkpointed once its delivered checkpoint is there, every upload directly follows an encoding or a check, and every delivered rendition stands where the request wants it |
| `AbrCoordinator.RunKeepsInv` | abr-runner/abr_handler_v2.go:91-246 | executions and runs correspond one to one, terminal workloads only wind up, registered channels are open, waiting handlers are registered or closed, in every interleaving |
| `AbrCoordinator.OneExecution` | abr-runner/abr_handler_v2.go:109-131 | at most one execution per workload, and it is registered, so a notification always finds it |
| `AbrCoordinator.NothingRunsAfterTerminal` | abr-runner/abr_handler_v2.go:98-107 | after a terminal write no execution of the workload starts, and the one left only notifies and finishes |
| `AbrCoordinator.CancelledIffAbandoned` | abr-runner/abr_handler_v2.go:148-159 | in every run an execution is cancelled if and only if it was once without a subscriber |
| `AbrCoordinator.WritesWhenFollowed` | abr-runner/abr_handler_v2.go:161-188 | an execution that returns with subscribers it never lost writes a terminal event before it finishes, and one that was ever abandoned before it returned writes none |
| `AbrCoordinator.NothingBeforeReturn` | abr-runner/abr_handler_v2.go:161-188 | nothing is written or finished before the execution has returned |
| `AbrCoordinator.RecordedIsAnnounced` | abr-runner/abr_handler_v2.go:183-187 | a recorded terminal event is announced before the channels are closed |
| `AbrCoordinator.ProgressIsAnnounced` | abr-runner/abr_handler_v2.go:253-259 | a progress event is announced before the execution goes on |
| `AbrCoordinator.NotificationReaches` | abr-runner/abr_handler_v2.go:222-231 | a notification reaches exactly the registered subscribers |
| `AbrCoordinator.TerminalIffRecorded` | abr-runner/abr_handler_v2.go:164-182 | a workload is terminal if and only if a terminal write for it reached the disk |
| `AbrCoordinator.NoLostWakeup` | abr-runner/abr_handler_v2.go:222-246 | a handler waiting on a terminal workload has a pending signal, a closed channel, or a run that still has to notify or close |
| `AbrCoordinator.FinishWakesEveryone` | abr-runner/abr_handler_v2.go:233-246 | after a run has finished every handler of its workload can receive |
| `AbrCoordinator.WaiterCanBeServed` | abr-runner/abr_handler_v2.go:380-397 | from every reachable world a handler waiting on a terminal workload is at most four enabled steps (mutex let go, notify or close, receive, read) from having delivered the terminal event |
| `AbrCoordinator.ClosedHandlerLeaves` | abr-runner/abr_handler_v2.go:380-397 | once its channel is closed a handler leaves on its own, with the terminal event exactly if there is one |
| `AbrCoordinator.HandlersAreHonest` | abr-runner/abr_handler_v2.go:380-397 | a handler that has delivered a terminal event had one to deliver |
| `AbrCoordinator.ChannelsStayOpenWhileRegistered` | abr-runner/abr_handler_v2.go:222-246 | no signal goes to a closed channel and none is closed twice |
| `AbrCoordinator.DetachSparesFollowed` | abr-runner/abr_handler_v2.go:148-159 | an execution is cancelled only by the detach that leaves it without subscribers; a stale detach changes nothing about it |
| `AbrCoordinator.CapacityHolds` | abr-runner/abr_handler_v2.go:110-113 | there are never more executions than the limit |
| `AbrSubscribers.Coordinator.Subscribe` | abr-runner/abr_handler_v2.go:109-145 | joins the registered execution or starts one, refused exactly over the limit or the GPU |
| `AbrSubscribers.Coordinator.DetachSubscriber` | abr-runner/abr_handler_v2.go:148-159 | removes a subscriber and cancels an execution left without any |
| `AbrSubscribers.Coordinator.NotifyAll` | abr-runner/abr_handler_v2.go:222-231 | the loop fills every registered one-slot channel and touches no other |
| `AbrSubscribers.Coordinator.NotifyTerminal` | abr-runner/abr_handler_v2.go:183-186 | the terminal notification is one step of the transition system |
| `AbrSubscribers.Coordinator.FinishRun` | abr-runner/abr_handler_v2.go:233-246 | unregistering and closing one channel at a time is one step of the transition system |
| `GatewayRuns.RunKeepsInv` | transcode-gateway/src/repo/paidOperations.ts:286-799 | owner and lease are set or null together, and a terminal operation has neither, nor secrets, in every reachable database |
| `GatewayRuns.ClaimedTouchesOne` | transcode-gateway/src/repo/paidOperations.ts:471-799 | a call with a claim succeeds only while the row holds it, and touches no other operation |
| `GatewayRuns.VersionsOnlyGrow` | transcode-gateway/src/repo/paidOperations.ts:393-605 | versions never fall and a row changes only together with its version |
| `GatewayRuns.OvertakenFailsForever` | transcode-gateway/src/repo/paidOperations.ts:393-605 | a token behind the row's version fails forever, whatever the clocks say |
| `GatewayRuns.VersionConsumedOnce` | transcode-gateway/src/repo/paidOperations.ts:471-739 | each version is consumed by at most one successful versioned write |
| `GatewayRuns.OneTokenCanSucceed` | transcode-gateway/src/repo/paidOperations.ts:393-605 | of the tokens issued so far only the one the row holds now can ever succeed again |
| `GatewayRuns.TwoTokensExclude` | transcode-gateway/src/repo/paidOperations.ts:393-605 | of two different issued tokens at most one ever succeeds again |
| `GatewayRuns.LiveTokensSurviveClaims` | transcode-gateway/src/repo/paidOperations.ts:393-445 | in every run a token whose lease is ahead of the claimer's clock is still held after any recovery claim and after a session claim of anyone but its owner |
| `GatewayRuns.ClaimsLookAhead` | transcode-gateway/src/repo/paidOperations.ts:393-445 | a claim that took effect had a proper owner and a lease ahead of the claimer's clock |
| `GatewayRuns.ExpiredTokensWriteNothing` | transcode-gateway/src/repo/paidOperations.ts:471-799 | in every run only a release takes effect with a lease that has run out on the database's clock |
| `GatewayRuns.TerminalIsFinal` | transcode-gateway/src/repo/paidOperations.ts:506-799 | once terminal a row never changes, its secrets are gone and never return, and no claim succeeds |
| `GatewayRuns.WrapperChainUnbroken` | transcode-gateway/src/livepeer/paidSessionStore.ts:66-91 | in every run each call of a chain of wrapper calls finds the very row the wrapper last saw, versions go up by one per call, and the returned row yields the next token |
| `GatewayRepo.SelectUpTo` | transcode-gateway/src/repo/paidOperations.ts:405-412 | a limited selection of matching, unlocked rows misses one only at the limit |
| `GatewayRepo.SelectLatest` | transcode-gateway/src/repo/paidOperations.ts:433-440 | the selection finds the newest generation among matching, unlocked rows, or there is none |
| `GatewayRepo.PaidOperationRepo.ClaimRows` | transcode-gateway/src/repo/paidOperations.ts:393-421 | on the columns: takes only open rows of the kind that are due and whose lease, if any, has run out on the claimer's clock, all unlocked ones below the limit, and hands out their next tokens |
| `GatewayRepo.PaidOperationRepo.ClaimSessionByStream` | transcode-gateway/src/repo/paidOperations.ts:423-445 | on the columns: takes the highest generation among the unlocked open sessions of the stream that are the owner's own or whose lease has run out, or there is none |
| `GatewayRepo.PaidOperationRepo.RequestWinddown` | transcode-gateway/src/repo/paidOperations.ts:447-469 | takes the newest open session from its owner, so that nobody holds it, and records the request and its reason; or there is none |
| `GatewayRepo.PaidOperationRepo.InsertOperation` | transcode-gateway/src/repo/paidOperations.ts:292-312 | operation, as given and open, and secrets are inserted together, held by version 1, or not at all |
| `GatewayRepo.PaidOperationRepo.RenewClaim` | transcode-gateway/src/repo/paidOperations.ts:471-490 | exactly the live token is traded for the next one with the longer lease: the old one is spent, the work is unchanged, and the test of the terminal column is implied |
| `GatewayRepo.PaidOperationRepo.ReleaseClaim` | transcode-gateway/src/repo/paidOperations.ts:492-504 | exactly the held token, expired or not, is given up: nobody holds the row, the work is unchanged, and any clock may recover it at once |
| `GatewayRepo.PaidOperationRepo.WriteProgress` | transcode-gateway/src/repo/paidOperations.ts:506-550 | exactly the live token is traded for the next; columns given are as given, the others keep their value but for error code and retry time, and identity and lease stay |
| `GatewayRepo.PaidOperationRepo.WriteRetry` | transcode-gateway/src/repo/paidOperations.ts:552-572 | exactly the live token is traded for the next; one more retry is counted, and no recovery with an earlier clock can pick the row |
| `GatewayRepo.PaidOperationRepo.WriteTerminal` | transcode-gateway/src/repo/paidOperations.ts:574-605 | under exactly the live token the row ends for everyone: evidence and units are recorded, no token, recovery or session claim fits it again, and exactly its secrets are gone |
| `GatewayRepo.PaidOperationRepo.WriteLiveTerminal` | transcode-gateway/src/repo/paidOperations.ts:607-663 | the operation ends with its settlement, its stream ends at that time, no playback of it is left, exactly its secrets are gone, and every other row of every table is as it was; or nothing changed |
| `GatewayRepo.PaidOperationRepo.CompleteRenditions` | transcode-gateway/src/repo/paidOperations.ts:700-708 | the loop of updates goes through exactly when every output names a different unfinished rendition of the asset |
| `GatewayRepo.PaidOperationRepo.WriteVodTerminal` | transcode-gateway/src/repo/paidOperations.ts:665-739 | the operation ends with its settlement, exactly the listed unfinished renditions are complete as delivered, job and asset are done, the asset has a playback id, exactly its secrets are gone; or nothing changed |
| `GatewayRepo.PaidOperationRepo.WriteSecrets` | transcode-gateway/src/repo/paidOperations.ts:741-769 | exactly the live token may write; the token stays good and no other secret changes |
| `GatewayRepo.PaidOperationRepo.GetSecrets` | transcode-gateway/src/repo/paidOperations.ts:771-785 | secrets are read exactly under the live claim |
| `GatewayRepo.PaidOperationRepo.EraseSecrets` | transcode-gateway/src/repo/paidOperations.ts:787-799 | exactly the live token may delete what is there; the token stays good and no other secret changes |
| `GatewayRepo.PaidOperationRepo.WriteThenRead` | transcode-gateway/src/repo/paidOperations.ts:741-785 | what was written under a live token is what is read under it |
| `GatewayRepo.RepoIsFenced` | transcode-gateway/src/repo/paidOperations.ts:393-605 | after any sequence of calls on the repository object a token behind any earlier version of its row is not held |
| `GatewayRepo.RepoIsFinal` | transcode-gateway/src/repo/paidOperations.ts:506-799 | after any sequence of calls a row that was terminal at any earlier point is exactly that, without secrets or holder |
| `GatewaySecrets.ErasureIsFinalIff` | transcode-gateway/src/repo/paidOperations.ts:741-769 | with check and insert of putSecrets as two steps: secrets erased by a terminal write never return, in any continuation, if and only if no checked write was in flight then |
| `GatewaySecrets.TerminalErases` | transcode-gateway/src/repo/paidOperations.ts:574-591 | the terminal write erases whatever has landed |
| `GatewaySecrets.SecretsReturn` | transcode-gateway/src/repo/paidOperations.ts:741-769 | a run in which a write in flight across the terminal write leaves secrets on a terminal operation |
| `GpuAdmission.RunKeepsInv` | transcode-core/gpu_admission.go:69-157 | every lock is accounted for and a call that cleared its probe sees no opposing lease, in every interleaving |
| `GpuAdmission.CohortsExclude` | transcode-core/gpu_admission.go:69-121 | batch and live leases are never held together, however processes die |
| `GpuAdmission.RefusedIffOpposed` | transcode-core/gpu_admission.go:95-107 | a request is refused at its probe if and only if an opposing lease is held then, or a dying process still has its probe's lock |
| `GpuAdmission.OwnLockRefusedIff` | transcode-core/gpu_admission.go:109-119 | the own shared lock is refused if and only if a dying process still has its probe's lock |
| `GpuAdmission.OwnLockRefusalReached` | transcode-core/gpu_admission.go:109-119 | a run of ten lock steps in which a batch call is refused its own lock although no lease is held |
| `GpuAdmission.AtomicExitsRefuseExactly` | transcode-core/gpu_admission.go:69-121 | when exits drop all locks in one step, a probe is refused exactly when opposed and the own lock never |
| `GpuAdmission.ClosedOnce` | transcode-core/gpu_admission.go:141-157 | in every run at most one Close of a lease changes anything, and it is the one that finds it held |
| `RateLimiter.Limiter.Check` | transcode-gateway/src/auth/rateLimit.ts:28-40 | answers from the window and leaves the pruned log |
| `RateLimiter.Limiter.Sweep` | transcode-gateway/src/auth/rateLimit.ts:14-24 | the sweep loop drops and rewrites keys to exactly the stamps of the last sixty seconds |
| `RateLimiter.LimiterAgreesIff` | transcode-gateway/src/auth/rateLimit.ts:11-45 | for every interleaving with a clock that does not run backwards the limiter answers like the full history, if and only if the window is at most sixty seconds or the limit is zero |
| `RateLimiter.AcceptsIffFewer` | transcode-gateway/src/auth/rateLimit.ts:30-39 | a request is accepted if and only if fewer than the limit of accepted requests lie inside the window |
| `RateLimiter.NeverOverLimit` | transcode-gateway/src/auth/rateLimit.ts:28-40 | in every run no window holds more accepted requests than the limit |
| `RateLimiter.SweepForgets` | transcode-gateway/src/auth/rateLimit.ts:14-24 | for a longer window a full window, a sweep at sixty seconds and one more request disagree |

## Left out

- Encryption, hashing, JSON, temporary files, fsync and rename: save and load are atomic and lossless; integrity tags and the upgrade of older live records in `loadLocked` are not modelled.
- The `details` document and the usage unit string of events, and the URL, storage and preset checks of create requests.
- Identities, URIs and messages are strings of characters; trimming and lower-casing know ASCII only.
- The `phase` text of a journal and the schema constants of ABR documents carry no behaviour and are not modelled.
- 64-bit wrap-around of the ABR journal's next sequence and of the gateway's BIGINT version: both are unbounded.
- Rows removed by cascading deletes of streams, assets or API keys, read-only queries and the admin listing of the gateway.
- The order of recoverable rows (`updated_at`): the claim may pick any unlocked rows up to its limit.
- LiveRecovery.FinalizeLiveTermination: one caller at a time; commits that race are covered by `LiveTheorems.FinalizerCommits`.
- LiveDispatcher.DeliverNext: a broker status is below 1000, as an HTTP client accepts three digits only; request building and response size limits are not modelled.
- LiveDispatcher.SweepOnce: other components act on the session being swept only; cancellation of the sweep is not modelled.
- GatewayRuns.TerminalIsFinal: takes each SQL statement as one atomic step; `GatewaySecrets` gives the exact condition for secrets when the check and the insert of `putSecrets` are two.
- LiveKeys.PublishersHoldCurrentKey: authorise-and-connect and kick are taken as atomic, and read-side media paths are not modelled.
- LiveKeys.SupersededSecretRefused: the random secrets of two keys of one session are taken to be different.
- AbrExecutor.Executor.Execute: what an encoder yields is arbitrary apart from its name; cancellation is one of the failures, and exclusive use of the journal is what `AbrCoordinator.OneExecution` proves.
- AbrCoordinator.NoLostWakeup: a safety statement; that runs and handlers are eventually scheduled is assumed of the runtime. A subscriber may join an execution that is already cancelled; it is then woken by the close without a terminal event.
- AbrSubscribers.Coordinator.Subscribe: the journal's request identity is fixed per workload, so the identity mismatch answers are the refused step of the transition system.
- GpuAdmission.CohortsExclude: a gate without a configured path, which admits everything, and errors of the lock calls other than "would block" beyond the failed opens.
- RateLimiter.LimiterAgreesIff: windows are whole milliseconds and `stop` is not modelled.
- The VOD runner (a single-rendition form of the ABR journal), FFmpeg command building, GPU detection, presets, media server supervision, HLS proxying, LOC and broker clients, route selection, authentication, e-mail, storage, configuration and the user interfaces: they would add easier members only.
