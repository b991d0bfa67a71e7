/** The coordinator's mutex-protected methods as they change its maps, one subscriber at a time; each is one
    atomic step of the transition system (ABRExecutionCoordinatorV2 in abr-runner/abr_handler_v2.go). */
module AbrSubscribers {
  import opened Text
  import opened AbrCoordinator

  class Coordinator {
    const limit: nat
    var active: map<string, Execution>
    var runs: map<nat, RunOf>
    var nextRun: nat
    var subs: map<nat, Subscription>
    var nextSub: nat

    constructor (limit: nat)
      ensures this.limit == limit && State({}, Free) == START
    {
      this.limit, active, runs, nextRun, subs, nextSub := limit, map[], map[], 0, map[], 0;
    }

    /** The state of the whole system, given the journals and the holder of the mutex. */
    ghost function State(terminal: set<string>, mutex: Mutex): World
      reads this
    {
      World(terminal, active, runs, nextRun, subs, nextSub, mutex)
    }

    /** The rest of Subscribe after the journal was loaded in progress; `gpu` is the GPU admission's answer. */
    method Subscribe(w: string, gpu: bool, ghost terminal: set<string>) returns (id: Option<nat>)
      modifies this
      ensures id.Some? ==>
              Apply(old(State(terminal, Subscribing(w, false))), SubscribeJoin(limit)) == Some(State(terminal, Free))
      ensures id.Some? ==> id.value == old(nextSub)
      ensures id.None? ==> State(terminal, Free) == old(State(terminal, Free))
      ensures id.None? <==> w !in old(active) && (|old(active)| >= limit || !gpu)
    {
      if w !in active {
        if |active| >= limit {
          return None;
        }
        if !gpu {
          return None;
        }
        active := active[w := Execution(nextRun, false, {})];
        runs := runs[nextRun := RunOf(w, Executing)];
        nextRun := nextRun + 1;
      }
      subs := subs[nextSub := Subscription(w, Waiting, false, false)];
      var execution := active[w];
      active := active[w := execution.(members := execution.members + {nextSub})];
      id := Some(nextSub);
      nextSub := nextSub + 1;
      assert w !in old(active) ==> active == old(active)[w := Execution(old(nextRun), false, {old(nextSub)})];
    }

    method DetachSubscriber(id: nat, ghost terminal: set<string>)
      requires id in subs && subs[id].phase.Leaving?
      modifies this
      ensures Apply(old(State(terminal, Free)), Detach(id)) == Some(State(terminal, Free))
    {
      var w := subs[id].workload;
      subs := subs[id := subs[id].(phase := Gone(subs[id].phase.sawTerminal))];
      if w !in active {
        return;
      }
      var execution := active[w];
      execution := execution.(members := execution.members - {id});
      if execution.members == {} {
        execution := execution.(cancelled := true);
      }
      active := active[w := execution];
    }

    /** Fills the one-slot buffer of every subscriber that is not already full. */
    method NotifyAll(w: string, ghost terminal: set<string>)
      requires w in active && Attached(State(terminal, Free))
      modifies this`subs
      ensures subs == Signalled(old(State(terminal, Free)), active[w].members)
    {
      ghost var before := State(terminal, Free);
      var left := active[w].members;
      while left != {}
        invariant left <= active[w].members && subs.Keys == before.subs.Keys
        invariant forall id :: id in subs ==>
          subs[id] == if id in active[w].members - left then before.subs[id].(pending := true) else before.subs[id]
        decreases left
      {
        var id :| id in left;
        assert id in before.subs;
        if !subs[id].pending {
          subs := subs[id := subs[id].(pending := true)];
        }
        left := left - {id};
      }
      assert active[w].members - {} == active[w].members;
    }

    method NotifyTerminal(run: nat, ghost terminal: set<string>)
      requires Inv(State(terminal, Free)) && RunIs(State(terminal, Free), run, NotifyingTerminal)
      modifies this
      ensures Apply(old(State(terminal, Free)), NotifyEnd(run)) == Some(State(terminal, Free))
    {
      var w := runs[run].workload;
      NotifyAll(w, terminal);
      runs := runs[run := RunOf(w, Finishing)];
    }

    /** Unregisters the execution and closes every channel it still has. */
    method FinishRun(run: nat, ghost terminal: set<string>)
      requires Inv(State(terminal, Free)) && RunIs(State(terminal, Free), run, Finishing)
      modifies this
      ensures Apply(old(State(terminal, Free)), Finish(run)) == Some(State(terminal, Free))
    {
      ghost var before := State(terminal, Free);
      var w := runs[run].workload;
      var members := active[w].members;
      active := active - {w};
      runs := runs - {run};
      var left := members;
      while left != {}
        invariant left <= members && subs.Keys == before.subs.Keys
        invariant forall id :: id in subs ==>
          subs[id] == if id in members - left then before.subs[id].(closed := true) else before.subs[id]
        invariant active == before.active - {w} && runs == before.runs - {run}
        invariant nextRun == before.nextRun && nextSub == before.nextSub
        decreases left
      {
        var id :| id in left;
        assert id in before.subs;
        assert !subs[id].closed;
        subs := subs[id := subs[id].(closed := true)];
        left := left - {id};
      }
      assert members - {} == members;
      assert subs == Closed(before, members);
    }
  }
}
