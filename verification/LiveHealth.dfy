/** What the liveness events of a session promise over whole runs: heartbeats keep their distance from the event
    before, and each epoch without output is reported stalled once (live-runner/store.go). */
module LiveHealth {
  import opened Text
  import opened LiveContract
  import opened LiveRecord
  import opened LiveOps
  import opened LiveRuns

  /** A saved step enqueues nothing, or one event whose time becomes the last event time. */
  ghost predicate EventMove(r: Record, r': Record, step: Step)
  {
    var o, o' := r.outbox, r'.outbox;
    if o'.lastSequence == o.lastSequence then o'.lastEventAt == o.lastEventAt
    else
      && |o'.pending| > 0
      && var e := o'.pending[|o'.pending| - 1];
         && o'.lastEventAt == Some(e.at)
         && (e.kind == Heartbeat ==>
             step.Beat? && (o.lastEventAt.Some? ==> e.at >= o.lastEventAt.value + step.interval))
         && (e.kind == OutputStalled ==> r.health.output != Stalled)
         && Reports(e, o.usageTotal) && e.at == TimeOf(step)
  }

  /** What an event says about usage: heartbeats and the end repeat the total, a start, a restart or a stall say
      nothing. */
  predicate Reports(e: Event, total: nat)
  {
    && (e.kind in {Heartbeat, SessionEnded, SessionFailed} ==> e.usage == Some(total))
    && (e.kind in {Started, LadderRestart, OutputStalled} ==> e.usage.None?)
  }

  /** When a step that enqueues an event happens. */
  function TimeOf(step: Step): int
  {
    match step
    case Start(now) => now
    case Poll(_, now) => now
    case Beat(now, _) => now
    case Restart(_, now, _) => now
    case Stall(now) => now
    case Evaluate(now, _, _) => now
    case FinalizeCommit(e) => e.at
    case _ => 0
  }

  /** Only new segments or a publisher that comes or goes end a stall. */
  predicate EndsStall(step: Step) { step.Poll? || step.Presence? }

  lemma TransformEvents(s: Sys, r: Record, step: Step)
    requires FinalizersAgree(s, r) && Transform(s, r, step).Saved?
    ensures EventMove(r, Transform(s, r, step).record, step)
  {
    if step.FinalizeCommit? {
      FinalizerEvent(s, r, step.event);
    }
  }

  lemma FinalizerEvent(s: Sys, r: Record, e: Event)
    requires FinalizersAgree(s, r) && e in s.finalizing && Advance(r, e).Saved?
    ensures (e.kind == SessionEnded || e.kind == SessionFailed) && e.usage == Some(r.outbox.usageTotal)
  {
    assert r.lifecycle.state == Active;
    assert e == TerminalEvent(r, e.at);
  }

  lemma TransformKeepsStall(s: Sys, r: Record, step: Step)
    requires Transform(s, r, step).Saved? && r.health.output == Stalled && !EndsStall(step)
    ensures Transform(s, r, step).record.health.output == Stalled
  {
  }

  // ----- heartbeats -----

  /** The record knows the time of the last event, heartbeats come at least `m` after the event before and carry the
      usage, and starts, restarts and stalls carry none. */
  ghost predicate Spaced(s: Sys, m: int)
  {
    && (s.record.None? ==> s.log == [])
    && (s.record.Some? ==>
          s.record.value.outbox.lastEventAt == if s.log == [] then None else Some(s.log[|s.log| - 1].at))
    && (forall i :: 0 < i < |s.log| && s.log[i].kind == Heartbeat ==> s.log[i].at >= s.log[i - 1].at + m)
    && (forall i :: 0 <= i < |s.log| ==>
          (s.log[i].kind == Heartbeat ==> s.log[i].usage.Some?)
          && (s.log[i].kind in {Started, LadderRestart, OutputStalled} ==> s.log[i].usage.None?))
  }

  lemma SaveSpaced(s: Sys, r: Record, r': Record, step: Step, m: int)
    requires s.record == Some(r) && Spaced(s, m) && EventMove(r, r', step) && (step.Beat? ==> step.interval >= m)
    ensures Spaced(Remember(s, r, r', step), m)
  {
  }

  lemma NextSpaced(id: string, s: Sys, step: Step, persisted: bool, m: int)
    requires Spaced(s, m) && (step.Beat? ==> step.interval >= m)
    requires s.record.Some? ==> FinalizersAgree(s, s.record.value)
    ensures Spaced(Next(id, s, step, persisted), m)
  {
    if s.record.Some? {
      var r := s.record.value;
      if Transform(s, r, step).Saved? {
        TransformEvents(s, r, step);
        SaveSpaced(s, r, Transform(s, r, step).record, step, m);
      }
    }
  }

  ghost predicate BeatsAtLeast(moves: seq<Move>, m: int)
  {
    forall i :: 0 <= i < |moves| && moves[i].step.Beat? ==> moves[i].step.interval >= m
  }

  /** In every run whose heartbeat interval is at least `m`, each heartbeat event is at least `m` later than the
      event enqueued before it, whatever that was. */
  lemma {:induction false} HeartbeatsAreSpaced(id: string, moves: seq<Move>, m: int)
    requires BeatsAtLeast(moves, m)
    ensures Spaced(Run(id, moves), m)
  {
    if moves != [] {
      var front, last := moves[..|moves| - 1], moves[|moves| - 1];
      HeartbeatsAreSpaced(id, front, m);
      RunKeepsInv(id, front);
      NextSpaced(id, Run(id, front), last.step, last.persisted, m);
    }
  }

  // ----- stalls -----

  /** Still stalled, with no stall reported after the first `n` events. */
  ghost predicate QuietSince(s: Sys, n: nat)
  {
    && s.record.Some? && s.record.value.health.output == Stalled && n <= |s.log|
    && forall i :: n <= i < |s.log| ==> s.log[i].kind != OutputStalled
  }

  lemma SaveQuiet(s: Sys, r: Record, r': Record, step: Step, n: nat)
    requires s.record == Some(r) && QuietSince(s, n) && EventMove(r, r', step) && r'.health.output == Stalled
    ensures QuietSince(Remember(s, r, r', step), n)
  {
  }

  lemma NextQuiet(id: string, s: Sys, step: Step, persisted: bool, n: nat)
    requires QuietSince(s, n) && FinalizersAgree(s, s.record.value) && !EndsStall(step)
    ensures QuietSince(Next(id, s, step, persisted), n)
  {
    var r := s.record.value;
    if Transform(s, r, step).Saved? {
      TransformEvents(s, r, step);
      TransformKeepsStall(s, r, step);
      SaveQuiet(s, r, Transform(s, r, step).record, step, n);
    }
  }

  /** A session reported as stalled reports it no second time until segments arrive or its publisher changes. */
  lemma {:induction false} OneStallPerEpoch(id: string, moves: seq<Move>, more: seq<Move>)
    requires Run(id, moves).record.Some? && Run(id, moves).record.value.health.output == Stalled
    requires forall i :: 0 <= i < |more| ==> !EndsStall(more[i].step)
    ensures QuietSince(Run(id, moves + more), |Run(id, moves).log|)
  {
    if more == [] {
      assert moves + more == moves;
    } else {
      var front, last := more[..|more| - 1], more[|more| - 1];
      OneStallPerEpoch(id, moves, front);
      RunOneMore(id, moves, more);
      RunKeepsInv(id, moves + front);
      NextQuiet(id, Run(id, moves + front), last.step, last.persisted, |Run(id, moves).log|);
    }
  }

  /** The verdict measured from the later of the publisher's arrival and the last segment: lost from `failAfter`
      on, newly stalled only in between and only once. */
  lemma VerdictFollowsSilence(r: Record, now: int, stallAfter: int, failAfter: int, since: int)
    requires Open(r) && r.health.ingestOnlineAt.Some? && now != 0 && 0 < stallAfter < failAfter
    requires since >= r.health.ingestOnlineAt.value
            && (r.health.lastSegmentAt.Some? ==> since >= r.health.lastSegmentAt.value)
    requires Some(since) == r.health.ingestOnlineAt || Some(since) == r.health.lastSegmentAt
    requires r.outbox.lastSequence < MAX_U64 && EventIdFits(r.runner, r.outbox.lastSequence + 1) && OpaqueId(r.runner)
    ensures var o := EvaluateHealth(r, now, stallAfter, failAfter);
            && (o == Kept(OutputLost) <==> now >= since + failAfter)
            && (o.Saved? <==> since + stallAfter <= now < since + failAfter && r.health.output != Stalled)
            && (o.Saved? ==> o.value == NewlyStalled && o.record.health.output == Stalled)
  {
    EventIdIsOpaque(r.runner, r.outbox.lastSequence + 1);
  }

  /** Once a session has started,
      a heartbeat is enqueued if and only if the interval since the last event has passed. */
  lemma HeartbeatDueIff(r: Record, now: int, interval: int)
    requires Open(r) && OpaqueId(r.runner) && now != 0 && interval > 0 && r.outbox.lastEventAt.Some?
    requires 0 < r.outbox.lastSequence < MAX_U64 && EventIdFits(r.runner, r.outbox.lastSequence + 1)
    ensures RecordHeartbeat(r, now, interval).Saved? <==> now - r.outbox.lastEventAt.value >= interval
  {
    NextBeatIsValid(r, now);
  }

  lemma NextBeatIsValid(r: Record, now: int)
    requires OpaqueId(r.runner) && r.outbox.lastSequence < MAX_U64
    requires EventIdFits(r.runner, r.outbox.lastSequence + 1)
    ensures ValidEvent(NextEvent(r, Heartbeat, now, Some(r.outbox.usageTotal)))
  {
    var e := NextEvent(r, Heartbeat, now, Some(r.outbox.usageTotal));
    assert e.seqNo == r.outbox.lastSequence + 1 && e.id == EventId(r.runner, e.seqNo);
    EventIdIsOpaque(r.runner, e.seqNo);
  }

  // ----- what the health columns remember -----

  /** What a run has to remember: since when the publisher has been there without a break, when segments were
      metered first and last, and in which state the output has been since when. */
  datatype Memory = Memory(
    onlineSince: Option<int>, firstSegment: Option<int>, lastSegment: Option<int>, output: OutputState, since: int)

  function Enters(m: Memory, output: OutputState, now: int): Memory
  {
    if m.output == output then m else m.(output := output, since := now)
  }

  function Observed(m: Memory, step: Step): Memory
  {
    match step
    case Presence(online, now) =>
      m.(onlineSince := if online then Some(now) else None, output := Waiting, since := now)
    case Poll(_, now) =>
      Enters(m.(firstSegment := if m.firstSegment.None? then Some(now) else m.firstSegment, lastSegment := Some(now)),
             Producing, now)
    case Stall(now) => Enters(m, Stalled, now)
    case Evaluate(now, _, _) => Enters(m, Stalled, now)
    case _ => m
  }

  /** Over the saved steps of a run. */
  ghost function MemoryOf(id: string, moves: seq<Move>): Memory
  {
    if moves == [] then Memory(None, None, None, Waiting, 0)
    else
      var s, last := Run(id, moves[..|moves| - 1]), moves[|moves| - 1];
      var before := MemoryOf(id, moves[..|moves| - 1]);
      if s.record.None? then
        if last.step.Create? then before.(since := last.step.now) else before
      else if last.persisted && Transform(s, s.record.value, last.step).Saved? then Observed(before, last.step)
      else before
  }

  ghost predicate Remembers(record: Option<Record>, m: Memory)
  {
    if record.None? then m == Memory(None, None, None, Waiting, m.since)
    else
      var h := record.value.health;
      m == Memory(h.ingestOnlineAt, h.firstSegmentAt, h.lastSegmentAt, h.output, h.outputSince)
  }

  lemma SaveRemembers(s: Sys, r: Record, step: Step, m: Memory)
    requires Remembers(Some(r), m) && Transform(s, r, step).Saved?
    ensures Remembers(Some(Transform(s, r, step).record), Observed(m, step))
  {
  }

  lemma NextRemembers(id: string, s: Sys, step: Step, persisted: bool, m: Memory)
    requires Remembers(s.record, m) && s.record.Some?
    ensures var saved := persisted && Transform(s, s.record.value, step).Saved?;
            Remembers(Next(id, s, step, persisted).record, if saved then Observed(m, step) else m)
  {
    NextRecord(id, s, step, persisted);
    if Transform(s, s.record.value, step).Saved? {
      SaveRemembers(s, s.record.value, step, m);
    }
  }

  lemma CreatedRemembers(id: string, step: Step, persisted: bool, m: Memory)
    requires Remembers(None, m)
    ensures Remembers(Next(id, INITIAL, step, persisted).record, if step.Create? then m.(since := step.now) else m)
  {
  }

  /** In every run the record knows since when the publisher has been there and when segments came first and last, so
      the silence that a health check measures is the true one. */
  lemma {:induction false} HealthIsRemembered(id: string, moves: seq<Move>)
    ensures Remembers(Run(id, moves).record, MemoryOf(id, moves))
  {
    if moves != [] {
      var front, last := moves[..|moves| - 1], moves[|moves| - 1];
      HealthIsRemembered(id, front);
      assert Run(id, front).record.None? ==> Run(id, front) == INITIAL by { RunKeepsInv(id, front); }
      if Run(id, front).record.None? {
        CreatedRemembers(id, last.step, last.persisted, MemoryOf(id, front));
      } else {
        NextRemembers(id, Run(id, front), last.step, last.persisted, MemoryOf(id, front));
      }
    }
  }

  // ----- ladder restarts -----

  /** Saved restarts since segments last arrived or the publisher last left. */
  function Restarted(times: seq<int>, step: Step): seq<int>
  {
    match step
    case Restart(_, now, _) => times + [now]
    case Poll(_, _) => []
    case Presence(online, _) => if online then times else []
    case _ => times
  }

  ghost function RestartsOf(id: string, moves: seq<Move>): seq<int>
  {
    if moves == [] then []
    else
      var s, last := Run(id, moves[..|moves| - 1]), moves[|moves| - 1];
      var before := RestartsOf(id, moves[..|moves| - 1]);
      if s.record.Some? && last.persisted
          && Transform(s, s.record.value, last.step).Saved? then Restarted(before, last.step)
      else before
  }

  /** The counter counts the latest restarts, all within the window of the first of them; the one before those, if
      any, no longer belongs to it only because a later one came after the window. */
  ghost predicate CountsRestarts(record: Option<Record>, times: seq<int>, window: int)
  {
    if record.None? then times == []
    else
      var h := record.value.health;
      && h.failures <= |times| && (h.failures == 0 <==> times == []) && (h.windowAt.None? <==> times == [])
      && (times != [] ==>
            var first := |times| - h.failures;
            h.windowAt == Some(times[first]) && forall i :: first <= i < |times| ==> times[i] - times[first] <= window)
  }

  lemma SaveCountsRestarts(s: Sys, r: Record, step: Step, times: seq<int>, window: int)
    requires CountsRestarts(Some(r), times, window) && Transform(s, r, step).Saved? && window > 0
    requires step.Restart? ==> step.window == window
    ensures CountsRestarts(Some(Transform(s, r, step).record), Restarted(times, step), window)
  {
    if step.Restart? {
      var more := times + [step.now];
      assert forall i :: 0 <= i < |times| ==> more[i] == times[i];
    }
  }

  lemma NextCountsRestarts(id: string, s: Sys, step: Step, persisted: bool, times: seq<int>, window: int)
    requires CountsRestarts(s.record, times, window) && (s.record.None? ==> s == INITIAL) && window > 0
    requires step.Restart? ==> step.window == window
    ensures var saved := s.record.Some? && persisted && Transform(s, s.record.value, step).Saved?;
            CountsRestarts(Next(id, s, step, persisted).record, if saved then Restarted(times, step) else times, window)
  {
    if s.record.Some? {
      NextRecord(id, s, step, persisted);
      if Transform(s, s.record.value, step).Saved? {
        SaveCountsRestarts(s, s.record.value, step, times, window);
      }
    }
  }

  /** In every run with one restart window, the failure counter counts the latest restarts, all of one window, and
      only new segments or the publisher's leaving start it over. */
  lemma {:induction false} RestartsAreCounted(id: string, moves: seq<Move>, window: int)
    requires window > 0 && forall i :: 0 <= i < |moves| && moves[i].step.Restart? ==> moves[i].step.window == window
    ensures CountsRestarts(Run(id, moves).record, RestartsOf(id, moves), window)
  {
    if moves != [] {
      var front, last := moves[..|moves| - 1], moves[|moves| - 1];
      RestartsAreCounted(id, front, window);
      assert Run(id, front).record.None? ==> Run(id, front) == INITIAL by { RunKeepsInv(id, front); }
      NextCountsRestarts(id, Run(id, front), last.step, last.persisted, RestartsOf(id, front), window);
    }
  }

  /** A restart opens a new window exactly when the old one is over. */
  lemma WindowOpensIff(r: Record, code: LadderCode, now: int, window: int)
    requires RecordRestart(r, code, now, window).Saved? && r.health.windowAt.Some? && r.health.failures > 0
    ensures var h := RecordRestart(r, code, now, window).record.health;
            && (h.failures == 1 <==> now > r.health.windowAt.value + window)
            && (h.windowAt == r.health.windowAt <==> now <= r.health.windowAt.value + window)
            && RecordRestart(r, code, now, window).value == h.failures && h.lastCode == Some(code)
  {
  }

  // ----- usage ticks -----

  /** Every usage tick reports more than all events before it. */
  ghost predicate TicksGrow(log: seq<Event>)
  {
    forall i, k :: 0 <= i < k < |log| && log[k].kind == UsageTick && log[k].usage.Some? && log[i].usage.Some? ==>
      log[i].usage.value < log[k].usage.value
  }

  lemma TickMove(s: Sys, r: Record, step: Step)
    requires FinalizersAgree(s, r) && Transform(s, r, step).Saved?
    ensures var o, o' := r.outbox, Transform(s, r, step).record.outbox;
            o'.lastSequence != o.lastSequence && |o'.pending| > 0 && o'.pending[|o'.pending| - 1].kind == UsageTick ==>
              var e := o'.pending[|o'.pending| - 1]; e.usage.Some? && e.usage.value > o.usageTotal
  {
    if step.FinalizeCommit? {
      FinalizerEvent(s, r, step.event);
    }
  }

  lemma TicksGrowMore(log: seq<Event>, e: Event, total: nat)
    requires TicksGrow(log) && forall i :: 0 <= i < |log| && log[i].usage.Some? ==> log[i].usage.value <= total
    requires e.kind == UsageTick && e.usage.Some? ==> e.usage.value > total
    ensures TicksGrow(log + [e])
  {
    var all := log + [e];
    assert forall i :: 0 <= i < |log| ==> all[i] == log[i];
  }

  lemma NextTicksGrow(id: string, s: Sys, step: Step, persisted: bool)
    requires TicksGrow(s.log) && (s.record.None? ==> s.log == [])
    requires s.record.Some? ==> FinalizersAgree(s, s.record.value) && LogOrdered(
               s.record.value.runner, s.log, s.record.value.outbox.lastSequence, s.record.value.outbox.usageTotal)
    ensures TicksGrow(Next(id, s, step, persisted).log)
  {
    if s.record.Some? {
      var r := s.record.value;
      if Transform(s, r, step).Saved? {
        TickMove(s, r, step);
        var o' := Transform(s, r, step).record.outbox;
        if o'.lastSequence != r.outbox.lastSequence && o'.pending != [] {
          TicksGrowMore(s.log, o'.pending[|o'.pending| - 1], r.outbox.usageTotal);
        }
      }
    }
  }

  /** In every run a usage tick is sent only when there is more to claim than was ever claimed before. */
  lemma {:induction false} TicksReportGrowth(id: string, moves: seq<Move>)
    ensures TicksGrow(Run(id, moves).log)
  {
    if moves != [] {
      var front, last := moves[..|moves| - 1], moves[|moves| - 1];
      TicksReportGrowth(id, front);
      RunKeepsInv(id, front);
      NextTicksGrow(id, Run(id, front), last.step, last.persisted);
    }
  }
}
