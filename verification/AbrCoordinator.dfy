/** The execution coordinator as a transition system: subscribers, run goroutines, terminal writes and the
    handlers' event loops interleave; only what holds the coordinator's mutex is atomic
    (abr-runner/abr_handler_v2.go). */
module AbrCoordinator {
  import opened Text

  /** Where a run goroutine is. `Writing` lies between the context check and the outcome of the terminal write. */
  datatype Pc = Executing | ReportingProgress | Writing | NotifyingTerminal | Finishing

  datatype RunOf = RunOf(workload: string, pc: Pc)

  datatype Execution = Execution(run: nat, cancelled: bool, members: set<nat>)

  /** Where a handler is. `Reading` follows one receive from its channel. */
  datatype Phase = Waiting | Reading(open: bool) | Leaving(sawTerminal: bool) | Gone(sawTerminal: bool)

  /** One subscription: its handler and its channel, a one-slot buffer that may be closed. */
  datatype Subscription = Subscription(workload: string, phase: Phase, pending: bool, closed: bool)

  /** Subscribe loads the journal and registers under one hold of the mutex; terminal writes do not take it. */
  datatype Mutex = Free | Subscribing(workload: string, sawTerminal: bool)

  datatype World = World(
    terminal: set<string>, active: map<string, Execution>, runs: map<nat, RunOf>, nextRun: nat,
    subs: map<nat, Subscription>, nextSub: nat, mutex: Mutex)

  /** What the terminal write did, and whether the caller was told. */
  datatype WriteOutcome = Recorded | RecordedUnconfirmed | NotRecorded

  datatype Step =
    | SubscribeLoad(workload: string)
    | SubscribeRefused
    | SubscribeReplay
    | SubscribeJoin(limit: nat)
    | Detach(id: nat)
    | Report(run: nat)
    | NotifyProgress(run: nat)
    | Returned(run: nat)
    | Write(run: nat, outcome: WriteOutcome)
    | NotifyEnd(run: nat)
    | Finish(run: nat)
    | Receive(id: nat)
    | Read(id: nat)
    | Disconnect(id: nat)
    | Crash

  const START: World := World({}, map[], map[], 0, map[], 0, Free)

  // ----- the steps; None when a step cannot happen -----

  /** A new subscription to an execution that is already registered. */
  function JoinRunning(s: World, w: string): World
    requires w in s.active
  {
    var id := s.nextSub;
    s.(subs := s.subs[id := Subscription(w, Waiting, false, false)], nextSub := id + 1, mutex := Free,
       active := s.active[w := s.active[w].(members := s.active[w].members + {id})])
  }

  function JoinNew(s: World, w: string): World
  {
    var id := s.nextSub;
    s.(subs := s.subs[id := Subscription(w, Waiting, false, false)], nextSub := id + 1, mutex := Free,
       active := s.active[w := Execution(s.nextRun, false, {id})],
       runs := s.runs[s.nextRun := RunOf(w, Executing)], nextRun := s.nextRun + 1)
  }

  function Join(s: World, w: string, limit: nat): Option<World>
  {
    if w in s.active then Some(JoinRunning(s, w))
    else if |s.active| >= limit then None
    else Some(JoinNew(s, w))
  }

  function Leave(s: World, id: nat): World
    requires id in s.subs && s.subs[id].phase.Leaving?
  {
    var sub := s.subs[id];
    var s1 := s.(subs := s.subs[id := sub.(phase := Gone(sub.phase.sawTerminal))]);
    if sub.workload !in s.active then s1
    else
      var execution := s.active[sub.workload];
      var members := execution.members - {id};
      var cancelled := execution.cancelled || members == {};
      s1.(active := s.active[sub.workload := execution.(members := members, cancelled := cancelled)])
  }

  function Signalled(s: World, members: set<nat>): map<nat, Subscription>
  {
    map id | id in s.subs :: if id in members then s.subs[id].(pending := true) else s.subs[id]
  }

  function Closed(s: World, members: set<nat>): map<nat, Subscription>
  {
    map id | id in s.subs :: if id in members then s.subs[id].(closed := true) else s.subs[id]
  }

  /** A notification of the run's workload. The source would fail here if the execution were not registered. */
  function Notify(s: World, run: nat, after: Pc): Option<World>
    requires run in s.runs
  {
    var w := s.runs[run].workload;
    if w !in s.active then None
    else Some(s.(subs := Signalled(s, s.active[w].members), runs := s.runs[run := RunOf(w, after)]))
  }

  function End(s: World, run: nat): World
    requires run in s.runs
  {
    var w := s.runs[run].workload;
    var s1 := s.(runs := s.runs - {run});
    if w !in s.active then s1
    else s1.(subs := Closed(s, s.active[w].members), active := s.active - {w})
  }

  function At(s: World, run: nat, pc: Pc): World
    requires run in s.runs
  {
    s.(runs := s.runs[run := RunOf(s.runs[run].workload, pc)])
  }

  function Cancelled(s: World, run: nat): bool
    requires run in s.runs
  {
    s.runs[run].workload in s.active && s.active[s.runs[run].workload].cancelled
  }

  function Written(s: World, run: nat, outcome: WriteOutcome): World
    requires run in s.runs
  {
    var s1 := At(s, run, if outcome == Recorded then NotifyingTerminal else Finishing);
    if outcome == NotRecorded then s1 else s1.(terminal := s.terminal + {s.runs[run].workload})
  }

  predicate RunIs(s: World, run: nat, pc: Pc) { run in s.runs && s.runs[run].pc == pc }

  function Moved(s: World, id: nat, phase: Phase): World
    requires id in s.subs
  {
    s.(subs := s.subs[id := s.subs[id].(phase := phase)])
  }

  /** A receive takes the buffered signal first and sees the close only when none is left. */
  function Received(s: World, id: nat): Option<World>
    requires id in s.subs
  {
    var sub := s.subs[id];
    if sub.phase != Waiting then None
    else if sub.pending then Some(s.(subs := s.subs[id := sub.(pending := false, phase := Reading(true))]))
    else if sub.closed then Some(Moved(s, id, Reading(false)))
    else None
  }

  function HasRead(s: World, id: nat): Option<World>
    requires id in s.subs
  {
    var sub := s.subs[id];
    if !sub.phase.Reading? then None
    else if sub.workload in s.terminal then Some(Moved(s, id, Leaving(true)))
    else if !sub.phase.open then Some(Moved(s, id, Leaving(false)))
    else Some(Moved(s, id, Waiting))
  }

  predicate IsRunStep(step: Step)
  {
    step.Report? || step.NotifyProgress? || step.Returned? || step.Write? || step.NotifyEnd? || step.Finish?
  }

  predicate IsHandlerStep(step: Step) { step.Receive? || step.Read? || step.Disconnect? || step.Detach? }

  function ApplyRun(s: World, step: Step): Option<World>
    requires IsRunStep(step)
  {
    match step
    case Report(run) => if RunIs(s, run, Executing) then Some(At(s, run, ReportingProgress)) else None
    case NotifyProgress(run) =>
      if s.mutex.Free? && RunIs(s, run, ReportingProgress) then Notify(s, run, Executing) else None
    case Returned(run) =>
      if RunIs(s, run, Executing) then Some(At(s, run, if Cancelled(s, run) then Finishing else Writing)) else None
    case Write(run, outcome) => if RunIs(s, run, Writing) then Some(Written(s, run, outcome)) else None
    case NotifyEnd(run) =>
      if s.mutex.Free? && RunIs(s, run, NotifyingTerminal) then Notify(s, run, Finishing) else None
    case Finish(run) => if s.mutex.Free? && RunIs(s, run, Finishing) then Some(End(s, run)) else None
  }

  function ApplyHandler(s: World, step: Step): Option<World>
    requires IsHandlerStep(step)
  {
    if step.id !in s.subs then None
    else
      match step
      case Receive(id) => Received(s, id)
      case Read(id) => HasRead(s, id)
      case Disconnect(id) =>
        if s.subs[id].phase.Waiting? || s.subs[id].phase.Reading? then Some(Moved(s, id, Leaving(false))) else None
      case Detach(id) => if s.mutex.Free? && s.subs[id].phase.Leaving? then Some(Leave(s, id)) else None
  }

  function Apply(s: World, step: Step): Option<World>
  {
    if IsRunStep(step) then ApplyRun(s, step)
    else if IsHandlerStep(step) then ApplyHandler(s, step)
    else
      match step
      case SubscribeLoad(w) => if s.mutex.Free? then Some(s.(mutex := Subscribing(w, w in s.terminal))) else None
      case SubscribeRefused => if s.mutex.Subscribing? then Some(s.(mutex := Free)) else None
      case SubscribeReplay => if s.mutex.Subscribing? && s.mutex.sawTerminal then Some(s.(mutex := Free)) else None
      case SubscribeJoin(limit) =>
        if s.mutex.Subscribing? && !s.mutex.sawTerminal then Join(s, s.mutex.workload, limit) else None
      case Crash => Some(START.(terminal := s.terminal, nextRun := s.nextRun, nextSub := s.nextSub))
  }

  ghost predicate Run(steps: seq<Step>, worlds: seq<World>)
  {
    && |worlds| == |steps| + 1 && worlds[0] == START
    && forall i :: 0 <= i < |steps| ==> StepAt(steps, worlds, i)
  }

  ghost predicate StepAt(steps: seq<Step>, worlds: seq<World>, i: nat)
    requires i < |steps| && |worlds| == |steps| + 1
  {
    Apply(worlds[i], steps[i]) == Some(worlds[i + 1])
  }

  // ----- the invariant -----

  /** Executions and run goroutines correspond one to one. */
  ghost predicate OneRunEach(s: World)
  {
    && (forall r :: r in s.runs ==>
        r < s.nextRun && s.runs[r].workload in s.active && s.active[s.runs[r].workload].run == r)
    && (forall w :: w in s.active ==> s.active[w].run in s.runs && s.runs[s.active[w].run].workload == w)
  }

  /** A run whose workload is terminal has only its notification and its cleanup left to do. */
  predicate WindingUp(pc: Pc) { pc == NotifyingTerminal || pc == Finishing }

  ghost predicate NoLateRun(s: World)
  {
    forall r :: r in s.runs && s.runs[r].workload in s.terminal ==> WindingUp(s.runs[r].pc)
  }

  /** The journal may become terminal between Subscribe's load and its registration, but then the execution
      that wrote it is still registered. */
  ghost predicate MutexInv(s: World)
  {
    s.mutex.Subscribing? && !s.mutex.sawTerminal && s.mutex.workload in s.terminal ==> s.mutex.workload in s.active
  }

  /** Registered channels are open, and every handler that waits is registered or its channel is closed. */
  ghost predicate Attached(s: World)
  {
    && (forall id :: id in s.subs ==> id < s.nextSub)
    && (forall w, id :: w in s.active && id in s.active[w].members ==>
          id in s.subs && s.subs[id].workload == w && !s.subs[id].closed && !s.subs[id].phase.Gone?)
    && (forall id :: id in s.subs && !s.subs[id].phase.Gone? ==> s.subs[id].closed || Member(s, id))
  }

  predicate Member(s: World, id: nat)
  {
    id in s.subs && s.subs[id].workload in s.active && id in s.active[s.subs[id].workload].members
  }

  /** Only an execution that nobody follows is left without members, and it is cancelled. */
  ghost predicate IdleIsCancelled(s: World)
  {
    forall w :: w in s.active && s.active[w].members == {} ==> s.active[w].cancelled
  }

  ghost predicate Inv(s: World)
  {
    OneRunEach(s) && NoLateRun(s) && MutexInv(s) && Attached(s) && IdleIsCancelled(s)
  }

  lemma NextSubIsFresh(s: World)
    requires Attached(s)
    ensures s.nextSub !in s.subs && forall w :: w in s.active ==> s.nextSub !in s.active[w].members
  {
    forall w, id | w in s.active && id in s.active[w].members ensures id != s.nextSub {
      assert id in s.subs;
    }
  }

  lemma JoinRunningKeepsInv(s: World, w: string)
    requires Inv(s) && w in s.active
    ensures Inv(JoinRunning(s, w))
  {
    var s' := JoinRunning(s, w);
    NextSubIsFresh(s);
    forall k | k in s'.subs && !s'.subs[k].phase.Gone? ensures s'.subs[k].closed || Member(s', k) {
      if k != s.nextSub {
        assert s.subs[k].closed || Member(s, k);
      }
    }
  }

  lemma JoinNewKeepsInv(s: World, w: string)
    requires Inv(s) && w !in s.active && w !in s.terminal
    ensures Inv(JoinNew(s, w))
  {
    var s' := JoinNew(s, w);
    assert OneRunEach(s');
    NextSubIsFresh(s);
    forall k | k in s'.subs && !s'.subs[k].phase.Gone? ensures s'.subs[k].closed || Member(s', k) {
      if k != s.nextSub {
        assert s.subs[k].closed || Member(s, k);
      }
    }
  }

  lemma LeaveKeepsInv(s: World, id: nat)
    requires Inv(s) && id in s.subs && s.subs[id].phase.Leaving?
    ensures Inv(Leave(s, id))
  {
    var s' := Leave(s, id);
    forall k | k in s'.subs && !s'.subs[k].phase.Gone? ensures s'.subs[k].closed || Member(s', k) {
      assert s.subs[k].closed || Member(s, k);
    }
  }

  lemma NotifyKeepsInv(s: World, run: nat, after: Pc)
    requires Inv(s) && run in s.runs
    requires s.runs[run].workload in s.terminal ==> WindingUp(after)
    ensures Notify(s, run, after).Some? && Inv(Notify(s, run, after).value)
  {
    var s' := Notify(s, run, after).value;
    forall k | k in s'.subs && !s'.subs[k].phase.Gone? ensures s'.subs[k].closed || Member(s', k) {
      assert s.subs[k].closed || Member(s, k);
    }
  }

  lemma EndKeepsInv(s: World, run: nat)
    requires Inv(s) && run in s.runs && s.mutex.Free?
    ensures Inv(End(s, run))
  {
    var s' := End(s, run);
    forall k | k in s'.subs && !s'.subs[k].phase.Gone? ensures s'.subs[k].closed || Member(s', k) {
      assert s.subs[k].closed || Member(s, k);
    }
  }

  lemma RunMoveKeepsInv(s: World, run: nat, pc: Pc, terminal: bool)
    requires Inv(s) && run in s.runs
    requires terminal || s.runs[run].workload in s.terminal ==> WindingUp(pc)
    ensures var s1 := At(s, run, pc);
            Inv(if terminal then s1.(terminal := s.terminal + {s.runs[run].workload}) else s1)
  {
    var s1 := At(s, run, pc);
    var s' := if terminal then s1.(terminal := s.terminal + {s.runs[run].workload}) else s1;
    forall k | k in s'.subs && !s'.subs[k].phase.Gone? ensures s'.subs[k].closed || Member(s', k) {
      assert s.subs[k].closed || Member(s, k);
    }
  }

  lemma HandlerMoveKeepsInv(s: World, id: nat, sub: Subscription)
    requires Inv(s) && id in s.subs && sub.workload == s.subs[id].workload && sub.closed == s.subs[id].closed
    requires !s.subs[id].phase.Gone? && !sub.phase.Gone?
    ensures Inv(s.(subs := s.subs[id := sub]))
  {
    var s' := s.(subs := s.subs[id := sub]);
    forall k | k in s'.subs && !s'.subs[k].phase.Gone? ensures s'.subs[k].closed || Member(s', k) {
      assert s.subs[k].closed || Member(s, k);
    }
  }

  lemma MutexKeepsInv(s: World, m: Mutex)
    requires Inv(s) && MutexInv(s.(mutex := m))
    ensures Inv(s.(mutex := m))
  {
    var s' := s.(mutex := m);
    forall k | k in s'.subs && !s'.subs[k].phase.Gone? ensures s'.subs[k].closed || Member(s', k) {
      assert s.subs[k].closed || Member(s, k);
    }
  }

  lemma RunStepKeepsInv(s: World, step: Step, s': World)
    requires Inv(s) && IsRunStep(step) && ApplyRun(s, step) == Some(s')
    ensures Inv(s')
  {
    match step
    case Report(run) => RunMoveKeepsInv(s, run, ReportingProgress, false);
    case NotifyProgress(run) => NotifyKeepsInv(s, run, Executing);
    case Returned(run) => RunMoveKeepsInv(s, run, s'.runs[run].pc, false);
    case Write(run, outcome) => RunMoveKeepsInv(s, run, s'.runs[run].pc, outcome != NotRecorded);
    case NotifyEnd(run) => NotifyKeepsInv(s, run, Finishing);
    case Finish(run) => EndKeepsInv(s, run);
  }

  lemma HandlerStepKeepsInv(s: World, step: Step, s': World)
    requires Inv(s) && IsHandlerStep(step) && ApplyHandler(s, step) == Some(s')
    ensures Inv(s')
  {
    if step.Detach? {
      LeaveKeepsInv(s, step.id);
    } else {
      HandlerMoveKeepsInv(s, step.id, s'.subs[step.id]);
    }
  }

  lemma StepKeepsInv(s: World, step: Step, s': World)
    requires Inv(s) && Apply(s, step) == Some(s')
    ensures Inv(s')
  {
    if IsRunStep(step) {
      RunStepKeepsInv(s, step, s');
    } else if IsHandlerStep(step) {
      HandlerStepKeepsInv(s, step, s');
    } else {
      match step
      case SubscribeLoad(w) => MutexKeepsInv(s, Subscribing(w, w in s.terminal));
      case SubscribeRefused => MutexKeepsInv(s, Free);
      case SubscribeReplay => MutexKeepsInv(s, Free);
      case SubscribeJoin(limit) =>
        if s.mutex.workload in s.active {
          JoinRunningKeepsInv(s, s.mutex.workload);
        } else {
          JoinNewKeepsInv(s, s.mutex.workload);
        }
      case Crash =>
    }
  }

  lemma {:induction false} RunKeepsInv(steps: seq<Step>, worlds: seq<World>, k: nat)
    requires Run(steps, worlds) && k < |worlds|
    ensures Inv(worlds[k])
  {
    if k > 0 {
      RunKeepsInv(steps, worlds, k - 1);
      assert StepAt(steps, worlds, k - 1);
      StepKeepsInv(worlds[k - 1], steps[k - 1], worlds[k]);
    }
  }

  // ----- the theorems -----

  /** Reachable states, by any interleaving. */
  ghost predicate Reachable(s: World)
  {
    exists steps, worlds :: Run(steps, worlds) && worlds[|steps|] == s
  }

  lemma ReachableInv(s: World)
    requires Reachable(s)
    ensures Inv(s)
  {
    var steps, worlds :| Run(steps, worlds) && worlds[|steps|] == s;
    RunKeepsInv(steps, worlds, |steps|);
  }

  /** At most one execution of a workload exists, and it is the registered one, so a notification always finds it. */
  lemma OneExecution(s: World, a: nat, b: nat)
    requires Reachable(s) && a in s.runs && b in s.runs && s.runs[a].workload == s.runs[b].workload
    ensures a == b && s.runs[a].workload in s.active && s.active[s.runs[a].workload].run == a
  {
    ReachableInv(s);
  }

  lemma RunStepStartsNothing(s: World, step: Step, s': World)
    requires IsRunStep(step) && ApplyRun(s, step) == Some(s')
    ensures s.terminal <= s'.terminal
    ensures forall r :: r in s'.runs ==> r in s.runs && s.runs[r].workload == s'.runs[r].workload
    ensures |s'.active| <= |s.active|
  {
    if step.Finish? {
      RemovedSize(s.active, s.runs[step.run].workload);
    }
  }

  lemma HandlerStepStartsNothing(s: World, step: Step, s': World)
    requires IsHandlerStep(step) && ApplyHandler(s, step) == Some(s')
    ensures s'.terminal == s.terminal && s'.runs == s.runs && |s'.active| == |s.active|
  {
    if step.Detach? && s.subs[step.id].workload in s.active {
      var w := s.subs[step.id].workload;
      UpdatedSize(s.active, w, s'.active[w]);
    }
  }

  lemma NoRunStartsLate(s: World, step: Step, s': World, w: string)
    requires MutexInv(s) && Apply(s, step) == Some(s') && w in s.terminal
    ensures w in s'.terminal
    ensures forall r :: r in s'.runs && s'.runs[r].workload == w ==> r in s.runs && s.runs[r].workload == w
  {
    if IsRunStep(step) {
      RunStepStartsNothing(s, step, s');
    } else if IsHandlerStep(step) {
      HandlerStepStartsNothing(s, step, s');
    }
  }

  /** Every run of a terminal workload was there before, and only winds up. */
  ghost predicate OnlyLeftovers(s: World, s': World, w: string)
  {
    && w in s'.terminal
    && forall r :: r in s'.runs && s'.runs[r].workload == w ==>
         r in s.runs && s.runs[r].workload == w && WindingUp(s'.runs[r].pc)
  }

  lemma LeftoversNext(s: World, s1: World, step: Step, s': World, w: string)
    requires Inv(s1) && OnlyLeftovers(s, s1, w) && Apply(s1, step) == Some(s')
    ensures OnlyLeftovers(s, s', w)
  {
    NoRunStartsLate(s1, step, s', w);
    StepKeepsInv(s1, step, s');
  }

  /** From a terminal write on, however the run goes on: the workload stays terminal, no execution of it starts,
      and the one that may be left only notifies and finishes. */
  lemma {:induction false} NothingRunsAfterTerminal(steps: seq<Step>, worlds: seq<World>, i: nat, k: nat, w: string)
    requires Run(steps, worlds) && i <= k < |worlds| && w in worlds[i].terminal
    ensures OnlyLeftovers(worlds[i], worlds[k], w)
  {
    if i == k {
      RunKeepsInv(steps, worlds, i);
    } else {
      NothingRunsAfterTerminal(steps, worlds, i, k - 1, w);
      RunKeepsInv(steps, worlds, k - 1);
      assert StepAt(steps, worlds, k - 1);
      LeftoversNext(worlds[i], worlds[k - 1], steps[k - 1], worlds[k], w);
    }
  }

  /** No lost wake-up: a handler waiting on a workload whose journal has become terminal has a pending signal,
      a closed channel, or is registered with a run that still has to notify or to close it. */
  lemma NoLostWakeup(s: World, id: nat)
    requires Reachable(s) && id in s.subs && s.subs[id].phase == Waiting && s.subs[id].workload in s.terminal
    ensures || s.subs[id].pending || s.subs[id].closed
            || (Member(s, id)
                && s.active[s.subs[id].workload].run in s.runs
                && WindingUp(s.runs[s.active[s.subs[id].workload].run].pc))
  {
    ReachableInv(s);
  }

  /** The last of those steps: when a run finishes, everyone registered with it can receive. */
  lemma FinishWakesEveryone(s: World, run: nat, s': World, id: nat)
    requires Reachable(s) && Apply(s, Finish(run)) == Some(s')
    requires id in s'.subs && s'.subs[id].phase == Waiting && s'.subs[id].workload == s.runs[run].workload
    ensures Apply(s', Receive(id)).Some?
  {
    ReachableInv(s);
    EndKeepsInv(s, run);
  }

  // ----- a waiting handler can always be served -----

  /** The world after a sequence of steps, if each of them can happen in turn. */
  function Exec(s: World, steps: seq<Step>): Option<World>
    decreases |steps|
  {
    if steps == [] then Some(s)
    else if Apply(s, steps[0]).None? then None
    else Exec(Apply(s, steps[0]).value, steps[1..])
  }

  ghost predicate Awaits(s: World, id: nat)
  {
    Inv(s) && id in s.subs && s.subs[id].phase == Waiting && s.subs[id].workload in s.terminal
  }

  ghost predicate Served(s: World, id: nat, steps: seq<Step>)
  {
    Exec(s, steps).Some? && id in Exec(s, steps).value.subs && Exec(s, steps).value.subs[id].phase == Leaving(true)
  }

  lemma ServedAfter(s: World, step: Step, s': World, id: nat, steps: seq<Step>)
    requires Apply(s, step) == Some(s') && Served(s', id, steps)
    ensures Served(s, id, [step] + steps)
  {
    assert ([step] + steps)[1..] == steps;
  }

  /** A signal or a close is received, the journal is read, and the terminal event is delivered. */
  lemma SignalledIsServed(s: World, id: nat) returns (steps: seq<Step>)
    requires Awaits(s, id) && (s.subs[id].pending || s.subs[id].closed)
    ensures |steps| == 2 && Served(s, id, steps)
  {
    var s1 := Apply(s, Receive(id)).value;
    var s2 := Apply(s1, Read(id)).value;
    assert Served(s2, id, []);
    ServedAfter(s1, Read(id), s2, id, []);
    ServedAfter(s, Receive(id), s1, id, [Read(id)] + []);
    steps := [Receive(id)] + ([Read(id)] + []);
  }

  /** With the mutex free, the run that is left notifies or closes first. */
  lemma FreeIsServed(s: World, id: nat) returns (steps: seq<Step>)
    requires Awaits(s, id) && s.mutex.Free?
    ensures |steps| <= 3 && Served(s, id, steps)
  {
    if s.subs[id].pending || s.subs[id].closed {
      steps := SignalledIsServed(s, id);
    } else {
      assert Member(s, id);
      var run := s.active[s.subs[id].workload].run;
      assert run in s.runs && WindingUp(s.runs[run].pc);
      var step := if s.runs[run].pc == NotifyingTerminal then NotifyEnd(run) else Finish(run);
      WindUpSignals(s, id, run, step);
      var s' := Apply(s, step).value;
      StepKeepsInv(s, step, s');
      var rest := SignalledIsServed(s', id);
      ServedAfter(s, step, s', id, rest);
      steps := [step] + rest;
    }
  }

  lemma WindUpSignals(s: World, id: nat, run: nat, step: Step)
    requires OneRunEach(s) && s.mutex.Free? && Member(s, id) && s.active[s.subs[id].workload].run == run
            && run in s.runs
    requires step == if s.runs[run].pc == NotifyingTerminal then NotifyEnd(run) else Finish(run)
    requires WindingUp(s.runs[run].pc)
    ensures Apply(s, step).Some?
    ensures var s' := Apply(s, step).value;
            && id in s'.subs && s'.subs[id].phase == s.subs[id].phase && s'.subs[id].workload == s.subs[id].workload
            && s'.terminal == s.terminal && (s'.subs[id].pending || s'.subs[id].closed)
  {
  }

  /** Whoever holds the mutex can let go of it without disturbing the handler. */
  lemma MutexReleased(s: World, id: nat) returns (step: Step)
    requires Awaits(s, id) && !s.mutex.Free?
    ensures Apply(s, step).Some? && Apply(s, step).value.mutex.Free? && Awaits(Apply(s, step).value, id)
  {
    step := if s.mutex.sawTerminal then SubscribeReplay else SubscribeJoin(|s.active| + 1);
    NextSubIsFresh(s);
    StepKeepsInv(s, step, Apply(s, step).value);
  }

  /** From every reachable world a handler that waits on a terminal workload is at most four enabled steps away from
      having delivered the terminal event: the holder of the mutex lets go, the run notifies or closes, the handler
      receives and reads. */
  lemma WaiterCanBeServed(s: World, id: nat) returns (steps: seq<Step>)
    requires Reachable(s) && id in s.subs && s.subs[id].phase == Waiting && s.subs[id].workload in s.terminal
    ensures |steps| <= 4 && Served(s, id, steps)
  {
    ReachableInv(s);
    if s.mutex.Free? {
      steps := FreeIsServed(s, id);
    } else {
      var step := MutexReleased(s, id);
      var s' := Apply(s, step).value;
      var rest := FreeIsServed(s', id);
      ServedAfter(s, step, s', id, rest);
      steps := [step] + rest;
    }
  }

  /** A signal is never sent on a closed channel, and no channel is closed twice. */
  lemma ChannelsStayOpenWhileRegistered(s: World, w: string, id: nat)
    requires Reachable(s) && w in s.active && id in s.active[w].members
    ensures id in s.subs && !s.subs[id].closed && s.subs[id].workload == w
  {
    ReachableInv(s);
  }

  /** Whoever detaches, and however late, an execution is cancelled only by the step that leaves it without
      subscribers; a detach that is stale for it changes nothing about it. */
  lemma DetachSparesFollowed(s: World, step: Step, s': World, w: string)
    requires Reachable(s) && Apply(s, step) == Some(s')
    requires w in s.active && w in s'.active && s'.active[w].run == s.active[w].run
    ensures s'.active[w].cancelled && !s.active[w].cancelled ==>
              step.Detach? && step.id in s.active[w].members && s'.active[w].members == {}
    ensures step.Detach? && step.id !in s.active[w].members ==> s'.active[w] == s.active[w]
  {
    ReachableInv(s);
  }

  /** No more executions than the largest limit a caller used. */
  lemma {:induction false} CapacityHolds(steps: seq<Step>, worlds: seq<World>, k: nat, limit: nat)
    requires Run(steps, worlds) && k < |worlds|
    requires forall i :: 0 <= i < |steps| && steps[i].SubscribeJoin? ==> steps[i].limit <= limit
    ensures |worlds[k].active| <= limit
  {
    if k > 0 {
      CapacityHolds(steps, worlds, k - 1, limit);
      assert StepAt(steps, worlds, k - 1);
      StepRespectsCapacity(worlds[k - 1], steps[k - 1], worlds[k], limit);
    }
  }

  lemma UpdatedSize(m: map<string, Execution>, w: string, e: Execution)
    ensures |m[w := e]| == if w in m then |m| else |m| + 1
  {
    var m' := m[w := e];
    assert m'.Keys == m.Keys + {w};
    assert |m'| == |m'.Keys| && |m| == |m.Keys|;
  }

  lemma RemovedSize(m: map<string, Execution>, w: string)
    ensures |m - {w}| <= |m|
  {
    var m' := m - {w};
    assert m'.Keys == m.Keys - {w};
    assert |m'| == |m'.Keys| && |m| == |m.Keys|;
  }

  lemma StepRespectsCapacity(s: World, step: Step, s': World, limit: nat)
    requires Apply(s, step) == Some(s') && |s.active| <= limit && (step.SubscribeJoin? ==> step.limit <= limit)
    ensures |s'.active| <= limit
  {
    if IsRunStep(step) {
      RunStepStartsNothing(s, step, s');
    } else if IsHandlerStep(step) {
      HandlerStepStartsNothing(s, step, s');
    } else if step.SubscribeJoin? {
      UpdatedSize(s.active, s.mutex.workload, s'.active[s.mutex.workload]);
    }
  }

  // ----- when a terminal event is written -----

  function MembersOf(s: World, run: nat): set<nat>
    requires run in s.runs
  {
    if s.runs[run].workload in s.active then s.active[s.runs[run].workload].members else {}
  }

  /** At some time up to the `k`-th world the run had no subscriber left. */
  ghost predicate OnceAbandoned(worlds: seq<World>, k: nat, run: nat)
  {
    exists j :: 0 <= j <= k && j < |worlds| && run in worlds[j].runs && MembersOf(worlds[j], run) == {}
  }

  lemma RunStepCancels(s: World, step: Step, s': World, run: nat)
    requires OneRunEach(s) && IsRunStep(step) && ApplyRun(s, step) == Some(s') && run in s'.runs
    ensures run in s.runs && Cancelled(s', run) == Cancelled(s, run) && MembersOf(s', run) == MembersOf(s, run)
  {
  }

  lemma HandlerStepCancels(s: World, step: Step, s': World, run: nat)
    requires OneRunEach(s) && IdleIsCancelled(s)
    requires IsHandlerStep(step) && ApplyHandler(s, step) == Some(s') && run in s'.runs
    ensures run in s.runs && (Cancelled(s', run) <==> Cancelled(s, run) || MembersOf(s', run) == {})
  {
  }

  lemma StepCancels(s: World, step: Step, s': World, run: nat)
    requires Inv(s) && Apply(s, step) == Some(s') && run in s'.runs
    ensures run in s.runs ==> (Cancelled(s', run) <==> Cancelled(s, run) || MembersOf(s', run) == {})
    ensures run !in s.runs ==> run == s.nextRun && !Cancelled(s', run) && MembersOf(s', run) != {}
  {
    if IsRunStep(step) {
      RunStepCancels(s, step, s', run);
    } else if IsHandlerStep(step) {
      HandlerStepCancels(s, step, s', run);
    }
  }

  /** Run numbers are never used again. */
  lemma {:induction false} NumbersAreFresh(steps: seq<Step>, worlds: seq<World>, j: nat, k: nat, run: nat)
    requires Run(steps, worlds) && j <= k < |worlds| && run in worlds[j].runs
    ensures run < worlds[k].nextRun
  {
    RunKeepsInv(steps, worlds, j);
    if j < k {
      NumbersAreFresh(steps, worlds, j, k - 1, run);
      assert StepAt(steps, worlds, k - 1);
      NumbersGrow(worlds[k - 1], steps[k - 1], worlds[k]);
    }
  }

  lemma NotUsedBefore(steps: seq<Step>, worlds: seq<World>, k: nat, run: nat)
    requires Run(steps, worlds) && k < |worlds| && run == worlds[k].nextRun
    ensures forall j :: 0 <= j <= k ==> run !in worlds[j].runs
  {
    forall j | 0 <= j <= k ensures run !in worlds[j].runs {
      if run in worlds[j].runs {
        NumbersAreFresh(steps, worlds, j, k, run);
      }
    }
  }

  lemma NumbersGrow(s: World, step: Step, s': World)
    requires Apply(s, step) == Some(s')
    ensures s.nextRun <= s'.nextRun
  {
  }

  /** An execution is cancelled if and only if it was once without a subscriber. */
  lemma {:induction false} CancelledIffAbandoned(steps: seq<Step>, worlds: seq<World>, k: nat, run: nat)
    requires Run(steps, worlds) && k < |worlds| && run in worlds[k].runs
    ensures Cancelled(worlds[k], run) <==> OnceAbandoned(worlds, k, run)
  {
    if k > 0 {
      assert StepAt(steps, worlds, k - 1);
      RunKeepsInv(steps, worlds, k - 1);
      StepCancels(worlds[k - 1], steps[k - 1], worlds[k], run);
      if run in worlds[k - 1].runs {
        CancelledIffAbandoned(steps, worlds, k - 1, run);
        assert OnceAbandoned(worlds, k, run) <==> OnceAbandoned(worlds, k - 1, run) || MembersOf(worlds[k], run) == {};
      } else {
        NotUsedBefore(steps, worlds, k - 1, run);
      }
    }
  }

  /** A step of the run itself. */
  predicate MovesRun(step: Step, run: nat) { IsRunStep(step) && step.run == run }

  lemma OthersLeaveRun(s: World, step: Step, s': World, run: nat)
    requires OneRunEach(s) && Apply(s, step) == Some(s') && run in s'.runs && !MovesRun(step, run)
    ensures run < s.nextRun ==> run in s.runs && s'.runs[run] == s.runs[run]
  {
  }

  ghost predicate WroteBetween(steps: seq<Step>, run: nat, j: nat, k: nat)
  {
    exists i :: j < i < k && i < |steps| && steps[i].Write? && steps[i].run == run
  }

  /** After a return that found the execution followed, the run is writing until it has written. */
  lemma {:induction false} FollowedReturnWrites(steps: seq<Step>, worlds: seq<World>, j: nat, k: nat, run: nat)
    requires Run(steps, worlds) && j < k < |worlds| && steps[j] == Returned(run)
    requires run in worlds[j].runs && run in worlds[k].runs && !Cancelled(worlds[j], run)
    ensures WroteBetween(steps, run, j, k) || worlds[k].runs[run].pc == Writing
  {
    assert StepAt(steps, worlds, k - 1);
    RunKeepsInv(steps, worlds, k - 1);
    if j < k - 1 {
      NumbersAreFresh(steps, worlds, j, k - 1, run);
      if !MovesRun(steps[k - 1], run) {
        OthersLeaveRun(worlds[k - 1], steps[k - 1], worlds[k], run);
      } else {
        assert run in worlds[k - 1].runs;
      }
      FollowedReturnWrites(steps, worlds, j, k - 1, run);
    }
  }

  /** After a return that found it abandoned, the run only finishes. */
  lemma {:induction false} AbandonedReturnFinishes(steps: seq<Step>, worlds: seq<World>, j: nat, k: nat, run: nat)
    requires Run(steps, worlds) && j < k < |worlds| && steps[j] == Returned(run)
    requires run in worlds[j].runs && run in worlds[k].runs && Cancelled(worlds[j], run)
    ensures worlds[k].runs[run].pc == Finishing
  {
    assert StepAt(steps, worlds, k - 1);
    RunKeepsInv(steps, worlds, k - 1);
    if j < k - 1 {
      NumbersAreFresh(steps, worlds, j, k - 1, run);
      if !MovesRun(steps[k - 1], run) {
        OthersLeaveRun(worlds[k - 1], steps[k - 1], worlds[k], run);
      } else {
        assert run in worlds[k - 1].runs;
      }
      AbandonedReturnFinishes(steps, worlds, j, k - 1, run);
    }
  }

  /** Which terminal writes are made, on the steps of a run and its subscribers alone: an execution that returns with
      subscribers it never lost writes before it finishes, and one that was ever abandoned before it returned does
      not write at all. */
  lemma WritesWhenFollowed(steps: seq<Step>, worlds: seq<World>, j: nat, k: nat, run: nat)
    requires Run(steps, worlds) && j < k < |steps| && steps[j] == Returned(run)
    ensures steps[k] == Finish(run) && !OnceAbandoned(worlds, j, run) ==> WroteBetween(steps, run, j, k)
    ensures steps[k].Write? && steps[k].run == run ==> !OnceAbandoned(worlds, j, run)
  {
    assert StepAt(steps, worlds, j) && StepAt(steps, worlds, k);
    CancelledIffAbandoned(steps, worlds, j, run);
    if MovesRun(steps[k], run) {
      if OnceAbandoned(worlds, j, run) {
        AbandonedReturnFinishes(steps, worlds, j, k, run);
      } else {
        FollowedReturnWrites(steps, worlds, j, k, run);
      }
    }
  }

  ghost predicate ReturnedBefore(steps: seq<Step>, k: nat, run: nat)
  {
    exists j :: 0 <= j < k && j < |steps| && steps[j] == Returned(run)
  }

  /** Nothing is written and nothing finishes before the execution has returned. */
  lemma {:induction false} NothingBeforeReturn(steps: seq<Step>, worlds: seq<World>, k: nat, run: nat)
    requires Run(steps, worlds) && k < |worlds| && run in worlds[k].runs
    ensures worlds[k].runs[run].pc == Executing || worlds[k].runs[run].pc == ReportingProgress
            || ReturnedBefore(steps, k, run)
  {
    if k > 0 {
      assert StepAt(steps, worlds, k - 1);
      RunKeepsInv(steps, worlds, k - 1);
      if run in worlds[k - 1].runs {
        NothingBeforeReturn(steps, worlds, k - 1, run);
        if !MovesRun(steps[k - 1], run) {
          OthersLeaveRun(worlds[k - 1], steps[k - 1], worlds[k], run);
        }
      } else {
        StepCancels(worlds[k - 1], steps[k - 1], worlds[k], run);
      }
    }
  }

  ghost predicate NotifiedBetween(steps: seq<Step>, run: nat, i: nat, k: nat)
  {
    exists j :: i < j < k && j < |steps| && steps[j] == NotifyEnd(run)
  }

  /** A recorded terminal event is announced before the channels are closed. */
  lemma {:induction false} RecordedIsAnnounced(steps: seq<Step>, worlds: seq<World>, i: nat, k: nat, run: nat)
    requires Run(steps, worlds) && i < k < |worlds| && steps[i] == Write(run, Recorded) && run in worlds[k].runs
    ensures worlds[k].runs[run].pc == NotifyingTerminal || NotifiedBetween(steps, run, i, k)
  {
    assert StepAt(steps, worlds, k - 1) && StepAt(steps, worlds, i);
    RunKeepsInv(steps, worlds, k - 1);
    if i < k - 1 {
      NumbersAreFresh(steps, worlds, i, k - 1, run);
      if !MovesRun(steps[k - 1], run) {
        OthersLeaveRun(worlds[k - 1], steps[k - 1], worlds[k], run);
      } else {
        assert run in worlds[k - 1].runs;
      }
      RecordedIsAnnounced(steps, worlds, i, k - 1, run);
    }
  }

  ghost predicate ProgressAnnounced(steps: seq<Step>, run: nat, i: nat, k: nat)
  {
    exists j :: i < j < k && j < |steps| && steps[j] == NotifyProgress(run)
  }

  /** So is every progress event, before the execution goes on. */
  lemma {:induction false} ProgressIsAnnounced(steps: seq<Step>, worlds: seq<World>, i: nat, k: nat, run: nat)
    requires Run(steps, worlds) && i < k < |worlds| && steps[i] == Report(run) && run in worlds[k].runs
    ensures worlds[k].runs[run].pc == ReportingProgress || ProgressAnnounced(steps, run, i, k)
  {
    assert StepAt(steps, worlds, k - 1) && StepAt(steps, worlds, i);
    RunKeepsInv(steps, worlds, k - 1);
    if i < k - 1 {
      NumbersAreFresh(steps, worlds, i, k - 1, run);
      if !MovesRun(steps[k - 1], run) {
        OthersLeaveRun(worlds[k - 1], steps[k - 1], worlds[k], run);
      } else {
        assert run in worlds[k - 1].runs;
      }
      ProgressIsAnnounced(steps, worlds, i, k - 1, run);
    }
  }

  /** Every subscriber registered at a notification has a signal after it, and nobody else gets one. */
  lemma NotificationReaches(s: World, step: Step, s': World, id: nat)
    requires Reachable(s) && Apply(s, step) == Some(s') && (step.NotifyProgress? || step.NotifyEnd?) && id in s.subs
    ensures id in s'.subs && s'.subs[id] == s.subs[id].(pending := s'.subs[id].pending)
    ensures s'.subs[id].pending <==> s.subs[id].pending || id in MembersOf(s, step.run)
  {
    ReachableInv(s);
  }

  // ----- how handlers leave -----

  predicate SawTerminal(phase: Phase)
  {
    (phase.Leaving? && phase.sawTerminal) || (phase.Gone? && phase.sawTerminal)
  }

  ghost predicate HonestHandlers(s: World)
  {
    forall id :: id in s.subs && SawTerminal(s.subs[id].phase) ==> s.subs[id].workload in s.terminal
  }

  lemma StepKeepsHonest(s: World, step: Step, s': World)
    requires HonestHandlers(s) && Apply(s, step) == Some(s')
    ensures HonestHandlers(s')
  {
    if IsRunStep(step) {
      RunStepKeepsHonest(s, step, s');
    } else if IsHandlerStep(step) {
      HandlerStepKeepsHonest(s, step, s');
    }
  }

  lemma RunStepKeepsHonest(s: World, step: Step, s': World)
    requires HonestHandlers(s) && IsRunStep(step) && ApplyRun(s, step) == Some(s')
    ensures HonestHandlers(s')
  {
  }

  lemma HandlerStepKeepsHonest(s: World, step: Step, s': World)
    requires HonestHandlers(s) && IsHandlerStep(step) && ApplyHandler(s, step) == Some(s')
    ensures HonestHandlers(s')
  {
  }

  /** A handler that claims to have delivered a terminal event has one to deliver, in every run. */
  lemma {:induction false} HandlersAreHonest(steps: seq<Step>, worlds: seq<World>, k: nat)
    requires Run(steps, worlds) && k < |worlds|
    ensures HonestHandlers(worlds[k])
  {
    if k > 0 {
      HandlersAreHonest(steps, worlds, k - 1);
      assert StepAt(steps, worlds, k - 1);
      StepKeepsHonest(worlds[k - 1], steps[k - 1], worlds[k]);
    }
  }

  ghost predicate Leaves(s: World, id: nat, steps: seq<Step>)
    requires id in s.subs
  {
    && Exec(s, steps).Some? && id in Exec(s, steps).value.subs
    && Exec(s, steps).value.subs[id].phase == Leaving(s.subs[id].workload in s.terminal)
  }

  lemma TwoSteps(s: World, a: Step, s1: World, b: Step, s2: World, rest: seq<Step>)
    requires Apply(s, a) == Some(s1) && Apply(s1, b) == Some(s2)
    ensures Exec(s, [a] + ([b] + rest)) == Exec(s2, rest)
  {
    assert ([a] + ([b] + rest))[1..] == [b] + rest && ([b] + rest)[1..] == rest;
  }

  /** Once its channel is closed a handler leaves on its own, after at most one more signal: with the terminal event
      if there is one, without it if the execution was abandoned. It never waits again. */
  lemma ClosedHandlerLeaves(s: World, id: nat) returns (steps: seq<Step>)
    requires id in s.subs && s.subs[id].phase == Waiting && s.subs[id].closed
    ensures |steps| <= 4 && (forall i :: 0 <= i < |steps| ==> steps[i] == Receive(id) || steps[i] == Read(id))
    ensures Leaves(s, id, steps)
  {
    var s1 := Apply(s, Receive(id)).value;
    var s2 := Apply(s1, Read(id)).value;
    steps := [Receive(id)] + ([Read(id)] + []);
    TwoSteps(s, Receive(id), s1, Read(id), s2, []);
    if s.subs[id].pending && s.subs[id].workload !in s.terminal {
      var s3 := Apply(s2, Receive(id)).value;
      var s4 := Apply(s3, Read(id)).value;
      var rest := [Receive(id)] + ([Read(id)] + []);
      TwoSteps(s2, Receive(id), s3, Read(id), s4, []);
      TwoSteps(s, Receive(id), s1, Read(id), s2, rest);
      steps := [Receive(id)] + ([Read(id)] + rest);
    }
  }

  // ----- what terminal means -----

  ghost predicate RecordedBefore(steps: seq<Step>, worlds: seq<World>, k: nat, w: string)
  {
    exists i :: 0 <= i < k && RecordsAt(steps, worlds, i, w)
  }

  /** A terminal write for the workload reached the disk in this step, whether its caller was told or not. */
  ghost predicate RecordsAt(steps: seq<Step>, worlds: seq<World>, i: nat, w: string)
  {
    && i < |steps| && i < |worlds| && steps[i].Write? && steps[i].run in worlds[i].runs
    && worlds[i].runs[steps[i].run].workload == w && steps[i].outcome in {Recorded, RecordedUnconfirmed}
  }

  lemma TerminalMoves(s: World, step: Step, s': World)
    requires Apply(s, step) == Some(s')
    ensures s'.terminal == if step.Write? && step.outcome in {Recorded, RecordedUnconfirmed}
                           then s.terminal + {s.runs[step.run].workload} else s.terminal
  {
    if IsHandlerStep(step) {
      HandlerStepStartsNothing(s, step, s');
    }
  }

  /** A workload is terminal if and only if a terminal write for it has reached the disk; a crash undoes none. */
  lemma {:induction false} TerminalIffRecorded(steps: seq<Step>, worlds: seq<World>, k: nat, w: string)
    requires Run(steps, worlds) && k < |worlds|
    ensures w in worlds[k].terminal <==> RecordedBefore(steps, worlds, k, w)
  {
    if k > 0 {
      TerminalIffRecorded(steps, worlds, k - 1, w);
      assert StepAt(steps, worlds, k - 1);
      TerminalMoves(worlds[k - 1], steps[k - 1], worlds[k]);
      assert RecordedBefore(steps, worlds, k, w) <==>
        RecordedBefore(steps, worlds, k - 1, w) || RecordsAt(steps, worlds, k - 1, w);
    }
  }
}
