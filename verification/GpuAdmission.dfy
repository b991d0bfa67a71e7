/** GPU admission across processes: a mutex and one lock file per cohort, taken and released one lock call at a
    time, with processes that may die anywhere (transcode-core/gpu_admission.go). */
module GpuAdmission {
  import opened Text

  datatype Cohort = Batch | Live

  function Opposing(c: Cohort): Cohort { if c == Batch then Live else Batch }

  /** Advisory locks on one file: one exclusive holder or any number of shared ones. */
  datatype File = File(ex: Option<nat>, sh: set<nat>)

  datatype Answer = AtCapacity | Broken

  /** Where one call of Acquire is, and then its lease. A dying call's process has ended; its files are being
      closed in some order, and the flags say which of its locks are still there. */
  datatype Pc =
    | Waiting
    | Entered
    | Probing
    | Cleared
    | Admitted
    | Refused(answer: Answer)
    | Leased
    | Ended
    | Dying(mutex: bool, ex: bool, sh: bool)

  datatype Caller = Caller(process: nat, cohort: Cohort, pc: Pc)

  datatype World = World(mutex: Option<nat>, batch: File, live: File, calls: map<nat, Caller>, next: nat)

  const START: World := World(None, File(None, {}), File(None, {}), map[], 0)

  function FileOf(s: World, c: Cohort): File { if c == Batch then s.batch else s.live }

  function WithFile(s: World, c: Cohort, f: File): World { if c == Batch then s.(batch := f) else s.(live := f) }

  function At(s: World, i: nat, pc: Pc): World
    requires i in s.calls
  {
    s.(calls := s.calls[i := s.calls[i].(pc := pc)])
  }

  predicate Is(s: World, i: nat, pc: Pc) { i in s.calls && s.calls[i].pc == pc }

  datatype Step =
    | Request(process: nat, cohort: Cohort)
    | Enter(i: nat)
    | Break(i: nat)
    | Probe(i: nat)
    | Unprobe(i: nat)
    | Share(i: nat)
    | Leave(i: nat)
    | Close(i: nat)
    | Exit(process: nat)
    | Kill(process: nat)
    | DropMutex(i: nat)
    | DropExclusive(i: nat)
    | DropShared(i: nat)

  // ----- lock calls -----

  predicate CanLock(f: File) { f.ex.None? && f.sh == {} }

  predicate CanShare(f: File) { f.ex.None? }

  function TryProbe(s: World, i: nat): World
    requires i in s.calls
  {
    var c := Opposing(s.calls[i].cohort);
    if CanLock(FileOf(s, c)) then At(WithFile(s, c, FileOf(s, c).(ex := Some(i))), i, Probing)
    else At(s, i, Refused(AtCapacity))
  }

  function TryShare(s: World, i: nat): World
    requires i in s.calls
  {
    var c := s.calls[i].cohort;
    if CanShare(FileOf(s, c)) then At(WithFile(s, c, FileOf(s, c).(sh := FileOf(s, c).sh + {i})), i, Admitted)
    else At(s, i, Refused(AtCapacity))
  }

  function Unlock(s: World, c: Cohort): World { WithFile(s, c, FileOf(s, c).(ex := None)) }

  function Unshare(s: World, c: Cohort, i: nat): World { WithFile(s, c, FileOf(s, c).(sh := FileOf(s, c).sh - {i})) }

  // ----- which locks a call has -----

  predicate HasMutex(c: Caller)
  {
    match c.pc
    case Entered => true case Probing => true case Cleared => true case Admitted => true case Refused(_) => true
    case Dying(mutex, _, _) => mutex
    case _ => false
  }

  predicate HasExclusive(c: Caller) { c.pc == Probing || (c.pc.Dying? && c.pc.ex) }

  predicate HasShared(c: Caller) { c.pc == Admitted || c.pc == Leased || (c.pc.Dying? && c.pc.sh) }

  function Died(c: Caller): Caller { c.(pc := Dying(HasMutex(c), HasExclusive(c), HasShared(c))) }

  // ----- steps; None when a step cannot happen -----

  function ExitSlowly(s: World, process: nat): World
  {
    s.(calls := map i | i in s.calls :: if s.calls[i].process == process then Died(s.calls[i]) else s.calls[i])
  }

  predicate Of(s: World, i: nat, process: nat) { i in s.calls && s.calls[i].process == process }

  function Without(s: World, f: File, process: nat): File
  {
    File(if f.ex.Some? && Of(s, f.ex.value, process) then None else f.ex, set i | i in f.sh && !Of(s, i, process))
  }

  /** A process that ends with all its locks in one step. */
  function KillAtOnce(s: World, process: nat): World
  {
    World(if s.mutex.Some? && Of(s, s.mutex.value, process) then None else s.mutex,
          Without(s, s.batch, process), Without(s, s.live, process),
          map i | i in s.calls && s.calls[i].process != process :: s.calls[i], s.next)
  }

  function ApplyCall(s: World, step: Step): Option<World>
    requires step.Enter? || step.Break? || step.Probe? || step.Unprobe? || step.Share? || step.Leave? || step.Close?
  {
    if step.i !in s.calls then None
    else
      var i, call := step.i, s.calls[step.i];
      match step
      case Enter(_) => if call.pc == Waiting && s.mutex.None? then Some(At(s.(mutex := Some(i)), i, Entered)) else None
      case Break(_) => if call.pc == Entered || call.pc == Cleared then Some(At(s, i, Refused(Broken))) else None
      case Probe(_) => if call.pc == Entered then Some(TryProbe(s, i)) else None
      case Unprobe(_) => if call.pc == Probing then Some(At(Unlock(s, Opposing(call.cohort)), i, Cleared)) else None
      case Share(_) => if call.pc == Cleared then Some(TryShare(s, i)) else None
      case Leave(_) =>
        if call.pc == Admitted then Some(At(s.(mutex := None), i, Leased))
        else if call.pc.Refused? then Some(At(s.(mutex := None), i, Ended))
        else None
      case Close(_) =>
        if call.pc == Leased then Some(At(Unshare(s, call.cohort, i), i, Ended))
        else if call.pc == Ended then Some(s)
        else None
  }

  function ApplyDrop(s: World, step: Step): Option<World>
    requires step.DropMutex? || step.DropExclusive? || step.DropShared?
  {
    if step.i !in s.calls || !s.calls[step.i].pc.Dying? then None
    else
      var i, call := step.i, s.calls[step.i];
      match step
      case DropMutex(_) => if call.pc.mutex then Some(At(s.(mutex := None), i, call.pc.(mutex := false))) else None
      case DropExclusive(_) =>
        if call.pc.ex then Some(At(Unlock(s, Opposing(call.cohort)), i, call.pc.(ex := false))) else None
      case DropShared(_) =>
        if call.pc.sh then Some(At(Unshare(s, call.cohort, i), i, call.pc.(sh := false))) else None
  }

  function Apply(s: World, step: Step): Option<World>
  {
    match step
    case Request(process, cohort) =>
      Some(s.(calls := s.calls[s.next := Caller(process, cohort, Waiting)], next := s.next + 1))
    case Exit(process) => Some(ExitSlowly(s, process))
    case Kill(process) => Some(KillAtOnce(s, process))
    case DropMutex(_) => ApplyDrop(s, step)
    case DropExclusive(_) => ApplyDrop(s, step)
    case DropShared(_) => ApplyDrop(s, step)
    case _ => ApplyCall(s, step)
  }

  ghost predicate Run(steps: seq<Step>, worlds: seq<World>)
  {
    && |worlds| == |steps| + 1 && worlds[0] == START
    && forall k :: 0 <= k < |steps| ==> Apply(worlds[k], steps[k]) == Some(worlds[k + 1])
  }

  // ----- the invariant -----

  ghost predicate LocksAccounted(s: World)
  {
    && (forall i :: i in s.calls ==> i < s.next)
    && (s.mutex.Some? ==> s.mutex.value in s.calls)
    && (forall i :: i in s.calls ==> (s.mutex == Some(i) <==> HasMutex(s.calls[i])))
  }

  ghost predicate FileAccounted(s: World, c: Cohort)
  {
    var f := FileOf(s, c);
    && (f.ex.Some? ==> f.ex.value in s.calls)
    && (forall i :: i in f.sh ==> i in s.calls)
    && (forall i :: i in s.calls ==>
        (f.ex == Some(i) <==> s.calls[i].cohort == Opposing(c) && HasExclusive(s.calls[i])))
    && (forall i :: i in s.calls ==> (i in f.sh <==> s.calls[i].cohort == c && HasShared(s.calls[i])))
    && (f.ex.Some? ==> f.sh == {})
  }

  /** A call that has cleared its probe sees no opposing lease until it takes its own. */
  ghost predicate ClearedIsAlone(s: World)
  {
    forall i :: i in s.calls && s.calls[i].pc == Cleared ==> FileOf(s, Opposing(s.calls[i].cohort)).sh == {}
  }

  predicate Excluded(s: World) { s.batch.sh == {} || s.live.sh == {} }

  ghost predicate Inv(s: World)
  {
    LocksAccounted(s) && FileAccounted(s, Batch) && FileAccounted(s, Live) && ClearedIsAlone(s) && Excluded(s)
  }

  // ----- one call moves -----

  /** The file after call `i` came to have, or not have, its two locks. */
  function Adjusted(f: File, i: nat, ex: bool, sh: bool): File
  {
    File(if ex then Some(i) else if f.ex == Some(i) then None else f.ex, if sh then f.sh + {i} else f.sh - {i})
  }

  lemma Unchanged(f: File, i: nat, ex: bool, sh: bool)
    requires (ex <==> f.ex == Some(i)) && (sh <==> i in f.sh)
    ensures Adjusted(f, i, ex, sh) == f
  {
    assert sh ==> f.sh + {i} == f.sh;
    assert !sh ==> f.sh - {i} == f.sh;
  }

  ghost predicate CallerMoves(s: World, s': World, i: nat)
  {
    && i in s.calls && i in s'.calls && s'.calls == s.calls[i := s'.calls[i]] && s'.next == s.next
    && s'.calls[i].cohort == s.calls[i].cohort
  }

  ghost predicate MutexMoves(s: World, s': World, i: nat)
    requires CallerMoves(s, s', i)
  {
    && s'.mutex == (if HasMutex(s'.calls[i]) then Some(i) else if s.mutex == Some(i) then None else s.mutex)
    && (HasMutex(s'.calls[i]) ==> s.mutex == Some(i) || s.mutex.None?)
  }

  ghost predicate FileMoves(s: World, s': World, i: nat, c: Cohort)
    requires CallerMoves(s, s', i)
  {
    var f, f', call := FileOf(s, c), FileOf(s', c), s'.calls[i];
    var ex, sh := call.cohort == Opposing(c) && HasExclusive(call), call.cohort == c && HasShared(call);
    f' == Adjusted(f, i, ex, sh) && (ex ==> f.ex == Some(i) || f.ex.None?) && (f'.ex.Some? ==> f'.sh == {})
  }

  lemma MutexStaysAccounted(s: World, s': World, i: nat)
    requires LocksAccounted(s) && CallerMoves(s, s', i) && MutexMoves(s, s', i)
    ensures LocksAccounted(s')
  {
  }

  lemma FileStaysAccounted(s: World, s': World, i: nat, c: Cohort)
    requires FileAccounted(s, c) && CallerMoves(s, s', i) && FileMoves(s, s', i, c)
    ensures FileAccounted(s', c)
  {
    var f, f' := FileOf(s, c), FileOf(s', c);
    forall k | k in s'.calls
      ensures f'.ex == Some(k) <==> s'.calls[k].cohort == Opposing(c) && HasExclusive(s'.calls[k])
      ensures k in f'.sh <==> s'.calls[k].cohort == c && HasShared(s'.calls[k])
    {
      if k != i {
        assert s'.calls[k] == s.calls[k];
      }
    }
  }

  /** A file that a move does not concern. */
  lemma FileKept(s: World, s': World, i: nat, c: Cohort)
    requires FileAccounted(s, c) && CallerMoves(s, s', i) && FileOf(s', c) == FileOf(s, c)
    requires s.calls[i].cohort == Opposing(c) ==> (HasExclusive(s'.calls[i]) <==> HasExclusive(s.calls[i]))
    requires s.calls[i].cohort == c ==> (HasShared(s'.calls[i]) <==> HasShared(s.calls[i]))
    ensures FileMoves(s, s', i, c)
  {
    var call := s'.calls[i];
    Unchanged(FileOf(s, c), i, call.cohort == Opposing(c) && HasExclusive(call), call.cohort == c && HasShared(call));
  }

  lemma StillAlone(s: World, s': World, i: nat)
    requires Inv(s) && CallerMoves(s, s', i)
    requires FileMoves(s, s', i, Batch) && FileMoves(s, s', i, Live)
    requires HasShared(s'.calls[i]) && !HasShared(s.calls[i]) ==> s.calls[i].pc == Cleared
    requires s'.calls[i].pc == Cleared ==> FileOf(s', Opposing(s'.calls[i].cohort)).sh == {}
    ensures ClearedIsAlone(s') && Excluded(s')
  {
    var c := s.calls[i].cohort;
    assert FileOf(s', Opposing(c)).sh <= FileOf(s, Opposing(c)).sh;
    assert FileOf(s', c).sh <= FileOf(s, c).sh + {i};
    if HasShared(s'.calls[i]) && !HasShared(s.calls[i]) {
      assert FileOf(s, Opposing(c)).sh == {};
      assert HasMutex(s.calls[i]) && s.mutex == Some(i);
      assert forall k :: k in s'.calls && k != i ==> s'.calls[k] == s.calls[k] && !HasMutex(s.calls[k]);
    } else {
      assert FileOf(s', c).sh <= FileOf(s, c).sh by {
        assert HasShared(s'.calls[i]) ==> i in FileOf(s, c).sh;
      }
    }
  }

  lemma MoveKeepsInv(s: World, s': World, i: nat)
    requires Inv(s) && CallerMoves(s, s', i) && MutexMoves(s, s', i)
    requires FileMoves(s, s', i, Batch) && FileMoves(s, s', i, Live)
    requires HasShared(s'.calls[i]) && !HasShared(s.calls[i]) ==> s.calls[i].pc == Cleared
    requires s'.calls[i].pc == Cleared ==> FileOf(s', Opposing(s'.calls[i].cohort)).sh == {}
    ensures Inv(s')
  {
    MutexStaysAccounted(s, s', i);
    FileStaysAccounted(s, s', i, Batch);
    FileStaysAccounted(s, s', i, Live);
    StillAlone(s, s', i);
  }

  /** Steps that take or leave only the mutex, or nothing. */
  lemma PlainMoveKeepsInv(s: World, s': World, i: nat)
    requires Inv(s) && CallerMoves(s, s', i) && MutexMoves(s, s', i) && s'.batch == s.batch && s'.live == s.live
    requires HasExclusive(s'.calls[i]) == HasExclusive(s.calls[i]) && HasShared(s'.calls[i]) == HasShared(s.calls[i])
    requires s'.calls[i].pc != Cleared
    ensures Inv(s')
  {
    FileKept(s, s', i, Batch);
    FileKept(s, s', i, Live);
    MoveKeepsInv(s, s', i);
  }

  lemma PlainKeepsInv(s: World, step: Step)
    requires step.Enter? || step.Break? || step.Leave?
    requires Inv(s) && ApplyCall(s, step).Some?
    ensures Inv(ApplyCall(s, step).value)
  {
    var i, s' := step.i, ApplyCall(s, step).value;
    assert s.mutex == Some(i) <==> HasMutex(s.calls[i]);
    PlainMoveKeepsInv(s, s', i);
  }

  lemma ProbeKeepsInv(s: World, i: nat)
    requires Inv(s) && Is(s, i, Entered)
    ensures Inv(TryProbe(s, i))
  {
    var s', c := TryProbe(s, i), s.calls[i].cohort;
    if CanLock(FileOf(s, Opposing(c))) {
      FileKept(s, s', i, c);
      assert {} - {i} == {};
      MoveKeepsInv(s, s', i);
    } else {
      PlainMoveKeepsInv(s, s', i);
    }
  }

  /** Releasing the exclusive lock of a probe, by the call itself or by a process that is closing its files. */
  lemma UnlockKeepsInv(s: World, i: nat, pc: Pc)
    requires Inv(s) && i in s.calls && HasExclusive(s.calls[i])
    requires var after := s.calls[i].(pc := pc);
             HasMutex(after) == HasMutex(s.calls[i]) && !HasExclusive(after)
                 && HasShared(after) == HasShared(s.calls[i])
    ensures Inv(At(Unlock(s, Opposing(s.calls[i].cohort)), i, pc))
  {
    var c := s.calls[i].cohort;
    var s' := At(Unlock(s, Opposing(c)), i, pc);
    var f := FileOf(s, Opposing(c));
    assert FileAccounted(s, Opposing(c)) && f.ex == Some(i) && f.sh == {};
    assert f.sh - {i} == f.sh;
    FileKept(s, s', i, c);
    assert FileMoves(s, s', i, Opposing(c));
    MoveKeepsInv(s, s', i);
  }

  lemma ShareKeepsInv(s: World, i: nat)
    requires Inv(s) && Is(s, i, Cleared)
    ensures Inv(TryShare(s, i))
  {
    var s', c := TryShare(s, i), s.calls[i].cohort;
    if CanShare(FileOf(s, c)) {
      FileKept(s, s', i, Opposing(c));
      MoveKeepsInv(s, s', i);
    } else {
      PlainMoveKeepsInv(s, s', i);
    }
  }

  /** Releasing the shared lock of a lease, by Close or by a process that is closing its files. */
  lemma UnshareKeepsInv(s: World, i: nat, pc: Pc)
    requires Inv(s) && i in s.calls && HasShared(s.calls[i]) && pc != Cleared
    requires var after := s.calls[i].(pc := pc);
             HasMutex(after) == HasMutex(s.calls[i]) && HasExclusive(after) == HasExclusive(s.calls[i])
                 && !HasShared(after)
    ensures Inv(At(Unshare(s, s.calls[i].cohort, i), i, pc))
  {
    var c := s.calls[i].cohort;
    var s' := At(Unshare(s, c, i), i, pc);
    FileKept(s, s', i, Opposing(c));
    assert FileOf(s, c).ex.None?;
    MoveKeepsInv(s, s', i);
  }

  lemma DropKeepsInv(s: World, step: Step)
    requires step.DropMutex? || step.DropExclusive? || step.DropShared?
    requires Inv(s) && ApplyDrop(s, step).Some?
    ensures Inv(ApplyDrop(s, step).value)
  {
    var i, pc := step.i, s.calls[step.i].pc;
    match step
    case DropMutex(_) => PlainMoveKeepsInv(s, ApplyDrop(s, step).value, i);
    case DropExclusive(_) => UnlockKeepsInv(s, i, pc.(ex := false));
    case DropShared(_) => UnshareKeepsInv(s, i, pc.(sh := false));
  }

  // ----- a process ends -----

  lemma ExitKeepsInv(s: World, process: nat)
    requires Inv(s)
    ensures Inv(ExitSlowly(s, process))
  {
    var s' := ExitSlowly(s, process);
    assert LocksAccounted(s') && ClearedIsAlone(s');
    DyingFileAccounted(s, process, Batch);
    DyingFileAccounted(s, process, Live);
  }

  lemma DyingFileAccounted(s: World, process: nat, c: Cohort)
    requires FileAccounted(s, c)
    ensures FileAccounted(ExitSlowly(s, process), c)
  {
  }

  lemma KillKeepsInv(s: World, process: nat)
    requires Inv(s)
    ensures Inv(KillAtOnce(s, process))
  {
  }

  lemma CallKeepsInv(s: World, step: Step)
    requires step.Enter? || step.Break? || step.Probe? || step.Unprobe? || step.Share? || step.Leave? || step.Close?
    requires Inv(s) && ApplyCall(s, step).Some?
    ensures Inv(ApplyCall(s, step).value)
  {
    match step
    case Probe(i) => ProbeKeepsInv(s, i);
    case Unprobe(i) => UnlockKeepsInv(s, i, Cleared);
    case Share(i) => ShareKeepsInv(s, i);
    case Close(i) =>
      if s.calls[i].pc == Leased {
        UnshareKeepsInv(s, i, Ended);
      }
    case _ => PlainKeepsInv(s, step);
  }

  lemma RequestKeepsInv(s: World, process: nat, cohort: Cohort)
    requires Inv(s)
    ensures Inv(s.(calls := s.calls[s.next := Caller(process, cohort, Waiting)], next := s.next + 1))
  {
  }

  lemma StepKeepsInv(s: World, step: Step, s': World)
    requires Inv(s) && Apply(s, step) == Some(s')
    ensures Inv(s')
  {
    match step
    case Request(process, cohort) => RequestKeepsInv(s, process, cohort);
    case Exit(process) => ExitKeepsInv(s, process);
    case Kill(process) => KillKeepsInv(s, process);
    case DropMutex(_) => DropKeepsInv(s, step);
    case DropExclusive(_) => DropKeepsInv(s, step);
    case DropShared(_) => DropKeepsInv(s, step);
    case _ => CallKeepsInv(s, step);
  }

  lemma {:induction false} RunKeepsInv(steps: seq<Step>, worlds: seq<World>, k: nat)
    requires Run(steps, worlds) && k < |worlds|
    ensures Inv(worlds[k])
  {
    if k > 0 {
      RunKeepsInv(steps, worlds, k - 1);
      assert Apply(worlds[k - 1], steps[k - 1]) == Some(worlds[k]);
      StepKeepsInv(worlds[k - 1], steps[k - 1], worlds[k]);
    }
  }

  // ----- the theorems -----

  /** A call holds a lease of its cohort while its shared lock is there. */
  predicate Leases(s: World, c: Cohort) { exists i :: i in s.calls && s.calls[i].cohort == c && HasShared(s.calls[i]) }

  /** For any number of processes and calls, any interleaving and any way of dying: batch and live leases are
      never held together. */
  lemma CohortsExclude(steps: seq<Step>, worlds: seq<World>, k: nat)
    requires Run(steps, worlds) && k < |worlds|
    ensures !(Leases(worlds[k], Batch) && Leases(worlds[k], Live))
  {
    RunKeepsInv(steps, worlds, k);
  }

  /** A call still dying that had the exclusive lock of its probe. */
  predicate ProberDying(s: World, c: Cohort)
  {
    exists i :: i in s.calls && s.calls[i].cohort == Opposing(c) && s.calls[i].pc.Dying? && s.calls[i].pc.ex
  }

  /** A request is refused at its probe exactly when an opposing lease is held then, or a dying process still has
      the file locked from its own probe. */
  lemma RefusedIffOpposed(steps: seq<Step>, worlds: seq<World>, k: nat, i: nat)
    requires Run(steps, worlds) && k < |steps| && steps[k] == Probe(i)
    ensures i in worlds[k].calls && i in worlds[k + 1].calls
    ensures var s, c := worlds[k], Opposing(worlds[k].calls[i].cohort);
            && (worlds[k + 1].calls[i].pc == Refused(AtCapacity) <==> Leases(s, c) || ProberDying(s, c))
            && (worlds[k + 1].calls[i].pc != Refused(AtCapacity) ==> worlds[k + 1].calls[i].pc == Probing)
  {
    RunKeepsInv(steps, worlds, k);
    assert Apply(worlds[k], steps[k]) == Some(worlds[k + 1]);
    var s, c := worlds[k], Opposing(worlds[k].calls[i].cohort);
    var f := FileOf(s, c);
    assert FileAccounted(s, c);
    if f.ex.Some? {
      assert HasExclusive(s.calls[f.ex.value]);
    }
  }

  /** The shared lock on the call's own cohort file is refused only while a dying process still has it locked. */
  lemma OwnLockRefusedIff(steps: seq<Step>, worlds: seq<World>, k: nat, i: nat)
    requires Run(steps, worlds) && k < |steps| && steps[k] == Share(i)
    ensures i in worlds[k].calls && i in worlds[k + 1].calls
    ensures worlds[k + 1].calls[i].pc != Admitted <==> ProberDying(worlds[k], worlds[k].calls[i].cohort)
  {
    RunKeepsInv(steps, worlds, k);
    assert Apply(worlds[k], steps[k]) == Some(worlds[k + 1]);
    var s, c := worlds[k], worlds[k].calls[i].cohort;
    var f := FileOf(s, c);
    assert FileAccounted(s, c);
    if f.ex.Some? {
      assert HasExclusive(s.calls[f.ex.value]);
    }
  }

  /** Processes that end with all their locks in one step leave nothing dying behind. */
  lemma {:induction false} NothingDies(steps: seq<Step>, worlds: seq<World>, k: nat, i: nat)
    requires Run(steps, worlds) && k < |worlds| && i in worlds[k].calls
    requires forall j :: 0 <= j < |steps| ==> !steps[j].Exit?
    ensures !worlds[k].calls[i].pc.Dying?
  {
    if k > 0 {
      var s := worlds[k - 1];
      assert Apply(s, steps[k - 1]) == Some(worlds[k]);
      if i in s.calls {
        NothingDies(steps, worlds, k - 1, i);
      }
    }
  }

  /** Then a request is refused exactly when an opposing lease is held, and its own lock is never refused. */
  lemma AtomicExitsRefuseExactly(steps: seq<Step>, worlds: seq<World>, k: nat, i: nat)
    requires Run(steps, worlds) && k < |steps| && (steps[k] == Probe(i) || steps[k] == Share(i))
    requires forall j :: 0 <= j < |steps| ==> !steps[j].Exit?
    ensures i in worlds[k].calls && i in worlds[k + 1].calls
    ensures steps[k] == Probe(i) ==>
              (worlds[k + 1].calls[i].pc == Refused(AtCapacity) <==>
                  Leases(worlds[k], Opposing(worlds[k].calls[i].cohort)))
    ensures steps[k] == Share(i) ==> worlds[k + 1].calls[i].pc == Admitted
  {
    assert Apply(worlds[k], steps[k]) == Some(worlds[k + 1]);
    forall c ensures !ProberDying(worlds[k], c) {
      forall j | j in worlds[k].calls ensures !worlds[k].calls[j].pc.Dying? {
        NothingDies(steps, worlds, k, j);
      }
    }
    if steps[k] == Probe(i) {
      RefusedIffOpposed(steps, worlds, k, i);
    } else {
      OwnLockRefusedIff(steps, worlds, k, i);
    }
  }

  // ----- the own lock can be refused -----

  /** A live prober dies, and its mutex goes before its probe's lock. */
  lemma ProberDies(s1: World, s2: World, s3: World, s4: World, s5: World)
    requires s1 == START.(calls := map[0 := Caller(0, Live, Waiting)], next := 1)
    requires s2 == s1.(mutex := Some(0), calls := map[0 := Caller(0, Live, Entered)])
    requires s3 == s2.(batch := File(Some(0), {}), calls := map[0 := Caller(0, Live, Probing)])
    requires s4 == s3.(calls := map[0 := Caller(0, Live, Dying(true, true, false))])
    requires s5 == s4.(mutex := None, calls := map[0 := Caller(0, Live, Dying(false, true, false))])
    ensures Apply(START, Request(0, Live)) == Some(s1) && Apply(s1, Enter(0)) == Some(s2)
    ensures Apply(s2, Probe(0)) == Some(s3) && Apply(s3, Exit(0)) == Some(s4) && Apply(s4, DropMutex(0)) == Some(s5)
  {
    assert START.calls[0 := Caller(0, Live, Waiting)] == s1.calls;
    assert s1.calls[0 := Caller(0, Live, Entered)] == s2.calls;
    assert s2.calls[0 := Caller(0, Live, Probing)] == s3.calls;
    assert ExitSlowly(s3, 0).calls == s4.calls;
    assert s4.calls[0 := Caller(0, Live, Dying(false, true, false))] == s5.calls;
  }

  function Calls(dead: Caller, pc: Pc): map<nat, Caller> { map[0 := dead, 1 := Caller(1, Batch, pc)] }

  /** A batch call that finds no live lease but the dead prober's lock on its own file. */
  lemma OwnLockIsTaken(s: World, dead: Caller)
    requires s == World(None, File(Some(0), {}), File(None, {}), map[0 := dead], 1)
    ensures var s1 := s.(calls := Calls(dead, Waiting), next := 2);
            var s2 := s1.(mutex := Some(1), calls := Calls(dead, Entered));
            var s3 := s2.(live := File(Some(1), {}), calls := Calls(dead, Probing));
            var s4 := s3.(live := File(None, {}), calls := Calls(dead, Cleared));
            var s5 := s4.(calls := Calls(dead, Refused(AtCapacity)));
            && Apply(s, Request(1, Batch)) == Some(s1) && Apply(s1, Enter(1)) == Some(s2)
            && Apply(s2, Probe(1)) == Some(s3) && Apply(s3, Unprobe(1)) == Some(s4) && Apply(s4, Share(1)) == Some(s5)
  {
    assert s.calls[1 := Caller(1, Batch, Waiting)] == Calls(dead, Waiting);
    assert Calls(dead, Waiting)[1 := Caller(1, Batch, Entered)] == Calls(dead, Entered);
    assert Calls(dead, Entered)[1 := Caller(1, Batch, Probing)] == Calls(dead, Probing);
    assert Calls(dead, Probing)[1 := Caller(1, Batch, Cleared)] == Calls(dead, Cleared);
    assert Calls(dead, Cleared)[1 := Caller(1, Batch, Refused(AtCapacity))] == Calls(dead, Refused(AtCapacity));
  }

  lemma RunGrows(steps: seq<Step>, worlds: seq<World>, step: Step, s: World, s': World)
    requires Run(steps, worlds) && worlds[|steps|] == s && Apply(s, step) == Some(s')
    ensures Run(steps + [step], worlds + [s']) && (worlds + [s'])[|steps| + 1] == s'
  {
    var more, all := steps + [step], worlds + [s'];
    forall k | 0 <= k < |more| ensures Apply(all[k], more[k]) == Some(all[k + 1]) {
      if k < |steps| {
        assert all[k] == worlds[k] && more[k] == steps[k] && all[k + 1] == worlds[k + 1];
      }
    }
  }

  lemma RunGrowsByFive(
    steps: seq<Step>, worlds: seq<World>, s: World, a: Step, s1: World, b: Step, s2: World, c: Step, s3: World,
    d: Step, s4: World, e: Step, s5: World)
    returns (more: seq<Step>, all: seq<World>)
    requires Run(steps, worlds) && worlds[|steps|] == s && Apply(s, a) == Some(s1) && Apply(s1, b) == Some(s2)
    requires Apply(s2, c) == Some(s3) && Apply(s3, d) == Some(s4) && Apply(s4, e) == Some(s5)
    ensures Run(more, all) && |more| == |steps| + 5 && more[|steps| + 4] == e
    ensures all[|more| - 1] == s4 && all[|more|] == s5
  {
    RunGrows(steps, worlds, a, s, s1);
    RunGrows(steps + [a], worlds + [s1], b, s1, s2);
    RunGrows(steps + [a] + [b], worlds + [s1] + [s2], c, s2, s3);
    RunGrows(steps + [a] + [b] + [c], worlds + [s1] + [s2] + [s3], d, s3, s4);
    RunGrows(steps + [a] + [b] + [c] + [d], worlds + [s1] + [s2] + [s3] + [s4], e, s4, s5);
    more, all := steps + [a] + [b] + [c] + [d] + [e], worlds + [s1] + [s2] + [s3] + [s4] + [s5];
  }

  function AfterDeath(dead: Caller): World { World(None, File(Some(0), {}), File(None, {}), map[0 := dead], 1) }

  lemma DeathReached(dead: Caller) returns (steps: seq<Step>, worlds: seq<World>)
    requires dead == Caller(0, Live, Dying(false, true, false))
    ensures Run(steps, worlds) && |steps| == 5 && worlds[5] == AfterDeath(dead)
  {
    var s1 := START.(calls := map[0 := Caller(0, Live, Waiting)], next := 1);
    var s2 := s1.(mutex := Some(0), calls := map[0 := Caller(0, Live, Entered)]);
    var s3 := s2.(batch := File(Some(0), {}), calls := map[0 := Caller(0, Live, Probing)]);
    var s4 := s3.(calls := map[0 := Caller(0, Live, Dying(true, true, false))]);
    var s5 := s4.(mutex := None, calls := map[0 := dead]);
    ProberDies(s1, s2, s3, s4, s5);
    steps, worlds := RunGrowsByFive(
      [], [START], START, Request(0, Live), s1, Enter(0), s2, Probe(0), s3, Exit(0), s4, DropMutex(0), s5);
  }

  lemma NobodyLeases(s: World, dead: Caller)
    requires s.calls == Calls(dead, Cleared) && !HasShared(dead)
    ensures !Leases(s, Batch) && !Leases(s, Live)
  {
  }

  lemma RefusalAfterDeath(steps: seq<Step>, worlds: seq<World>, dead: Caller) returns (more: seq<Step>, all: seq<World>)
    requires Run(steps, worlds) && worlds[|steps|] == AfterDeath(dead)
    ensures Run(more, all) && |more| == |steps| + 5 && more[|more| - 1] == Share(1)
    ensures all[|more| - 1].calls == Calls(dead, Cleared) && all[|more|].calls == Calls(dead, Refused(AtCapacity))
  {
    var s := AfterDeath(dead);
    OwnLockIsTaken(s, dead);
    var s1 := s.(calls := Calls(dead, Waiting), next := 2);
    var s2 := s1.(mutex := Some(1), calls := Calls(dead, Entered));
    var s3 := s2.(live := File(Some(1), {}), calls := Calls(dead, Probing));
    var s4 := s3.(live := File(None, {}), calls := Calls(dead, Cleared));
    var s5 := s4.(calls := Calls(dead, Refused(AtCapacity)));
    more, all := RunGrowsByFive(
      steps, worlds, s, Request(1, Batch), s1, Enter(1), s2, Probe(1), s3, Unprobe(1), s4, Share(1), s5);
  }

  /** The refusal happens: a run that ends with the own lock refused although no lease is held. */
  lemma OwnLockRefusalReached() returns (steps: seq<Step>, worlds: seq<World>)
    ensures Run(steps, worlds) && |steps| == 10 && steps[9] == Share(1)
    ensures 1 in worlds[10].calls && worlds[10].calls[1].pc == Refused(AtCapacity)
    ensures !Leases(worlds[9], Batch) && !Leases(worlds[9], Live)
  {
    var dead := Caller(0, Live, Dying(false, true, false));
    var start, before := DeathReached(dead);
    steps, worlds := RefusalAfterDeath(start, before, dead);
    NobodyLeases(worlds[9], dead);
  }

  // ----- a lease is released once -----

  /** A call that is over: it will hold no lease again. */
  ghost predicate Over(s: World, i: nat)
  {
    i < s.next && (i in s.calls ==> s.calls[i].pc == Ended || s.calls[i].pc.Dying?)
  }

  lemma StepKeepsOver(s: World, step: Step, s': World, i: nat)
    requires Apply(s, step) == Some(s') && Over(s, i)
    ensures Over(s', i)
  {
  }

  lemma {:induction false} StaysOver(steps: seq<Step>, worlds: seq<World>, j: nat, k: nat, i: nat)
    requires Run(steps, worlds) && j <= k < |worlds| && Over(worlds[j], i)
    ensures Over(worlds[k], i)
  {
    if j < k {
      StaysOver(steps, worlds, j, k - 1, i);
      assert Apply(worlds[k - 1], steps[k - 1]) == Some(worlds[k]);
      StepKeepsOver(worlds[k - 1], steps[k - 1], worlds[k], i);
    }
  }

  /** In every run at most one Close of a lease changes anything: it is the one that drops the shared lock. */
  lemma ClosedOnce(steps: seq<Step>, worlds: seq<World>, j: nat, k: nat, i: nat)
    requires Run(steps, worlds) && j < k < |steps| && steps[j] == Close(i) && steps[k] == Close(i)
    ensures worlds[k + 1] == worlds[k]
    ensures i in worlds[j].calls && (worlds[j + 1] != worlds[j] <==> worlds[j].calls[i].pc == Leased)
  {
    assert Apply(worlds[j], steps[j]) == Some(worlds[j + 1]);
    assert Apply(worlds[k], steps[k]) == Some(worlds[k + 1]);
    RunKeepsInv(steps, worlds, j);
    assert Over(worlds[j + 1], i);
    StaysOver(steps, worlds, j + 1, k, i);
  }
}
