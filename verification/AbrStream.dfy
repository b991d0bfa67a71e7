/** The event stream of one workload: a reader that repeatedly passes back its last sequence number
    (writeJournalEventsV2 and its loop in abr-runner/abr_handler_v2.go). */
module AbrStream {
  import opened Text
  import opened AbrJournal
  import opened AbrRuns

  function Later(events: seq<StoredEvent>, after: nat): seq<StoredEvent>
  {
    if events == [] then []
    else
      var e := events[|events| - 1];
      Later(events[..|events| - 1], after) + if e.seqNo > after then [e] else []
  }

  /** What one read sends to a reader that has already seen everything up to `after`. */
  function Visible(j: Journal, after: nat): seq<StoredEvent>
  {
    Later(j.progress, after)
    + if j.terminal.Some? && j.terminal.value.seqNo > after then [j.terminal.value] else []
  }

  function LastId(events: seq<StoredEvent>, after: nat): nat
  {
    if events == [] then after else events[|events| - 1].seqNo
  }

  /** Sends events until the connection fails, here after `writes` successful writes. */
  method WriteJournalEvents(j: Journal, after: nat, writes: nat)
    returns (sent: seq<StoredEvent>, last: nat, terminal: bool, ok: bool)
    ensures sent <= Visible(j, after) && last == LastId(sent, after)
    ensures ok <==> |Visible(j, after)| <= writes
    ensures ok ==> sent == Visible(j, after) && terminal == j.terminal.Some?
    ensures !ok ==> |sent| == writes && !terminal
  {
    sent, last := [], after;
    for i := 0 to |j.progress|
      invariant sent == Later(j.progress[..i], after) && |sent| <= writes && last == LastId(sent, after)
    {
      assert j.progress[..i + 1][..i] == j.progress[..i];
      var event := j.progress[i];
      if event.seqNo > after {
        if |sent| == writes {
          LaterGrows(j.progress, i, after);
          LaterGrows(j.progress, i + 1, after);
          return sent, last, false, false;
        }
        sent, last := sent + [event], event.seqNo;
      }
    }
    assert j.progress[..|j.progress|] == j.progress;
    if j.terminal.Some? && j.terminal.value.seqNo > after {
      if |sent| == writes {
        return sent, last, false, false;
      }
      return sent + [j.terminal.value], j.terminal.value.seqNo, true, true;
    }
    return sent, last, j.terminal.Some?, true;
  }

  lemma {:induction false} LaterGrows(events: seq<StoredEvent>, i: nat, after: nat)
    requires i <= |events|
    ensures Later(events[..i], after) <= Later(events, after)
  {
    if i == |events| {
      assert events[..i] == events;
    } else {
      var front := events[..|events| - 1];
      assert events[..i] == front[..i];
      LaterGrows(front, i, after);
    }
  }

  // ----- one read of a journal that keeps its window -----

  ghost predicate NumberedFrom(events: seq<StoredEvent>, first: int)
  {
    forall i :: 0 <= i < |events| ==> events[i].seqNo == first + i
  }

  lemma {:induction false} LaterIsSuffix(events: seq<StoredEvent>, first: int, after: nat)
    requires NumberedFrom(events, first)
    ensures Later(events, after) == events[Skipped(|events|, first, after)..]
  {
    if events != [] {
      var n := |events| - 1;
      var front := events[..n];
      LaterIsSuffix(front, first, after);
      var skip := Skipped(n, first, after);
      assert events[n].seqNo == first + n;
      if events[n].seqNo > after {
        assert skip <= n && Skipped(n + 1, first, after) == skip;
        assert events[skip..] == front[skip..] + [events[n]];
      } else {
        assert front[skip..] == [];
      }
    }
  }

  /** How many of `n` events numbered from `first` a reader has seen. */
  function Skipped(n: nat, first: int, after: int): (k: nat)
    ensures k <= n
  {
    if after < first then 0 else if after + 1 - first < n then after + 1 - first else n
  }

  /** The first number a read can still show. */
  function First(j: Journal, after: nat): int
  {
    var oldest := Appended(j) - |j.progress| + 1;
    if oldest <= after then after + 1 else oldest
  }

  /** The progress events a read shows, and how they end. */
  lemma ShownProgress(j: Journal, after: nat)
    requires Window(j) && after < j.next
    ensures var shown := Later(j.progress, after);
            && NumberedFrom(shown, First(j, after))
            && |shown| == (if First(j, after) <= Appended(j) then Appended(j) + 1 - First(j, after) else 0)
            && forall i :: 0 <= i < |shown| ==> shown[i].payload.ProgressNote?
  {
    var oldest := Appended(j) - |j.progress| + 1;
    assert NumberedFrom(j.progress, oldest);
    LaterIsSuffix(j.progress, oldest, after);
  }

  lemma VisibleIsNumbered(j: Journal, after: nat)
    requires Window(j) && after < j.next
    ensures NumberedFrom(Visible(j, after), First(j, after))
    ensures |Visible(j, after)| == j.next - First(j, after)
    ensures LastId(Visible(j, after), after) == j.next - 1
  {
    ShownProgress(j, after);
  }

  lemma TerminalShownLast(j: Journal, after: nat)
    requires Window(j) && after < j.next
    ensures forall i :: 0 <= i < |Visible(j, after)| && !Visible(j, after)[i].payload.ProgressNote? ==>
              j.terminal == Some(Visible(j, after)[i]) && i == |Visible(j, after)| - 1
    ensures j.terminal.Some? && after < j.next - 1 ==>
              |Visible(j, after)| > 0 && Visible(j, after)[|Visible(j, after)| - 1] == j.terminal.value
  {
    ShownProgress(j, after);
  }

  // ----- a whole stream -----

  /** Everything sent over a sequence of reads, each starting from the last number sent before. */
  function ReadAll(loads: seq<Journal>): seq<StoredEvent>
  {
    if loads == [] then []
    else
      var sent := ReadAll(loads[..|loads| - 1]);
      sent + Visible(loads[|loads| - 1], LastId(sent, 0))
  }

  /** The handler's loop: it ends with the terminal event, a failed write, or when no signal is left.
      Each signal brings the journal loaded then and how many writes still succeed. */
  method ServeEvents(loads: seq<Journal>, writes: seq<nat>) returns (sent: seq<StoredEvent>, polls: nat, ended: bool)
    requires |writes| == |loads|
    ensures polls <= |loads|
    ensures sent <= ReadAll(loads[..polls])
    ensures ended ==> polls > 0 && loads[polls - 1].terminal.Some? && sent == ReadAll(loads[..polls])
    ensures sent == ReadAll(loads[..polls]) && !ended ==> polls == |loads|
  {
    sent, polls, ended := [], 0, false;
    var last := 0;
    while polls < |loads|
      invariant polls <= |loads| && sent == ReadAll(loads[..polls]) && last == LastId(sent, 0)
    {
      assert loads[..polls + 1][..polls] == loads[..polls];
      var batch, next, terminal, ok := WriteJournalEvents(loads[polls], last, writes[polls]);
      sent, last, polls := sent + batch, next, polls + 1;
      if !ok || terminal {
        return sent, polls, terminal;
      }
    }
  }

  /** The journals loaded at a sequence of points of one run, in order. */
  ghost predicate LoadsOf(js: seq<Journal>, points: seq<nat>, loads: seq<Journal>)
  {
    && |loads| == |points|
    && (forall i :: 0 <= i < |points| ==> points[i] < |js| && loads[i] == js[points[i]])
    && (forall i, k :: 0 <= i <= k < |points| ==> points[i] <= points[k])
  }

  ghost predicate Successive(loads: seq<Journal>)
  {
    && (forall i :: 0 <= i < |loads| ==> Window(loads[i]))
    && (forall i, k :: 0 <= i <= k < |loads| ==> Progressed(loads[i], loads[k]))
  }

  lemma LoadsAreSuccessive(
    w: string, h: string, ops: seq<JournalOp>, js: seq<Journal>, points: seq<nat>, loads: seq<Journal>)
    requires Run(w, h, ops, js) && LoadsOf(js, points, loads)
    ensures Successive(loads)
  {
    forall i | 0 <= i < |loads| ensures Window(loads[i]) {
      EveryReachableJournalLoads(w, h, ops, js, points[i]);
    }
    forall i, k | 0 <= i <= k < |loads| ensures Progressed(loads[i], loads[k]) {
      RunsOnlyProgress(w, h, ops, js, points[i], points[k]);
    }
  }

  /** How far a reader is after a sequence of reads: everything recorded by the last of them. */
  function SeenUpTo(loads: seq<Journal>): int { if loads == [] then 0 else loads[|loads| - 1].next - 1 }

  lemma {:induction false} ReaderKeepsUp(loads: seq<Journal>)
    requires Successive(loads)
    ensures LastId(ReadAll(loads), 0) == SeenUpTo(loads)
  {
    if loads != [] {
      var front, j := loads[..|loads| - 1], loads[|loads| - 1];
      ReaderKeepsUp(front);
      if front != [] {
        assert Progressed(loads[|loads| - 2], j);
      }
      VisibleIsNumbered(j, LastId(ReadAll(front), 0));
    }
  }

  ghost predicate Increasing(events: seq<StoredEvent>)
  {
    && (forall i :: 0 <= i < |events| ==> 0 < events[i].seqNo)
    && (forall i, k :: 0 <= i < k < |events| ==> events[i].seqNo < events[k].seqNo)
  }

  lemma JoinIncreasing(a: seq<StoredEvent>, b: seq<StoredEvent>, first: int)
    requires Increasing(a) && NumberedFrom(b, first) && LastId(a, 0) < first
    ensures Increasing(a + b)
  {
    assert forall i :: 0 <= i < |a| ==> a[i].seqNo <= LastId(a, 0);
  }

  lemma {:induction false} ReadsIncrease(loads: seq<Journal>)
    requires Successive(loads)
    ensures Increasing(ReadAll(loads))
  {
    if loads != [] {
      var front, j := loads[..|loads| - 1], loads[|loads| - 1];
      ReadsIncrease(front);
      ReaderKeepsUp(front);
      if front != [] {
        assert Progressed(loads[|loads| - 2], j);
      }
      var after := LastId(ReadAll(front), 0);
      VisibleIsNumbered(j, after);
      JoinIncreasing(ReadAll(front), Visible(j, after), First(j, after));
    }
  }

  /** Only the last event is terminal, and it is there as soon as the last load was terminal. */
  ghost predicate EndsWithTerminal(events: seq<StoredEvent>, loads: seq<Journal>)
  {
    && (forall i :: 0 <= i < |events| && !events[i].payload.ProgressNote? ==> i == |events| - 1)
    && (loads != [] && loads[|loads| - 1].terminal.Some? ==>
          |events| > 0 && loads[|loads| - 1].terminal == Some(events[|events| - 1]))
    && (loads == [] || loads[|loads| - 1].terminal.None? ==>
          forall i :: 0 <= i < |events| ==> events[i].payload.ProgressNote?)
  }

  lemma {:induction false} ReadsEndWithTerminal(loads: seq<Journal>)
    requires Successive(loads)
    ensures EndsWithTerminal(ReadAll(loads), loads)
  {
    if loads != [] {
      var front, j := loads[..|loads| - 1], loads[|loads| - 1];
      ReadsEndWithTerminal(front);
      ReaderKeepsUp(front);
      if front != [] {
        assert Progressed(loads[|loads| - 2], j);
      }
      var after := LastId(ReadAll(front), 0);
      VisibleIsNumbered(j, after);
      TerminalShownLast(j, after);
    }
  }

  /** In every run, however the reads fall between the appends, a reader emits strictly increasing numbers,
      with the terminal event last. */
  lemma StreamIsOrdered(
    w: string, h: string, ops: seq<JournalOp>, js: seq<Journal>, points: seq<nat>, loads: seq<Journal>)
    requires Run(w, h, ops, js) && LoadsOf(js, points, loads)
    ensures Increasing(ReadAll(loads)) && EndsWithTerminal(ReadAll(loads), loads)
    ensures LastId(ReadAll(loads), 0) == SeenUpTo(loads)
  {
    LoadsAreSuccessive(w, h, ops, js, points, loads);
    ReadsIncrease(loads);
    ReadsEndWithTerminal(loads);
    ReaderKeepsUp(loads);
  }

  /** At most 256 progress events were appended before each read since the one before it. */
  ghost predicate NeverOverrun(loads: seq<Journal>)
  {
    forall i :: 0 <= i < |loads| ==> Appended(loads[i]) - SeenUpTo(loads[..i]) <= MAX_STORED_PROGRESS
  }

  lemma {:induction false} GapFreeReads(loads: seq<Journal>)
    requires Successive(loads)
    ensures NumberedFrom(ReadAll(loads), 1) <==> NeverOverrun(loads)
    ensures NumberedFrom(ReadAll(loads), 1) ==> |ReadAll(loads)| == SeenUpTo(loads)
  {
    if loads != [] {
      var n := |loads| - 1;
      var front, j := loads[..n], loads[n];
      GapFreeReads(front);
      ReaderKeepsUp(front);
      if front != [] {
        assert Progressed(loads[n - 1], j);
      }
      JoinGapFree(ReadAll(front), j);
      OverrunSplits(loads);
    }
  }

  lemma OverrunSplits(loads: seq<Journal>)
    requires loads != []
    ensures var front, j := loads[..|loads| - 1], loads[|loads| - 1];
            NeverOverrun(loads) <==>
              NeverOverrun(front) && Appended(j) - SeenUpTo(front) <= MAX_STORED_PROGRESS
  {
    var n := |loads| - 1;
    var front := loads[..n];
    assert forall i :: 0 <= i < n ==> loads[..i] == front[..i] && loads[i] == front[i];
    if NeverOverrun(front) && Appended(loads[n]) - SeenUpTo(front) <= MAX_STORED_PROGRESS {
      forall i | 0 <= i < |loads| ensures Appended(loads[i]) - SeenUpTo(loads[..i]) <= MAX_STORED_PROGRESS {
        if i < n {
          assert Appended(front[i]) - SeenUpTo(front[..i]) <= MAX_STORED_PROGRESS;
        }
      }
    }
    if NeverOverrun(loads) {
      forall i | 0 <= i < n ensures Appended(front[i]) - SeenUpTo(front[..i]) <= MAX_STORED_PROGRESS {
        assert Appended(loads[i]) - SeenUpTo(loads[..i]) <= MAX_STORED_PROGRESS;
      }
    }
  }

  lemma JoinGapFree(sent: seq<StoredEvent>, j: Journal)
    requires Window(j) && LastId(sent, 0) < j.next
    requires NumberedFrom(sent, 1) ==> |sent| == LastId(sent, 0)
    ensures var after := LastId(sent, 0); var all := sent + Visible(j, after);
            && (NumberedFrom(all, 1) <==> NumberedFrom(sent, 1) && Appended(j) - after <= MAX_STORED_PROGRESS)
            && (NumberedFrom(all, 1) ==> |all| == j.next - 1)
  {
    var after := LastId(sent, 0);
    var more := Visible(j, after);
    var all := sent + more;
    VisibleIsNumbered(j, after);
    assert forall i :: 0 <= i < |sent| ==> all[i] == sent[i];
    assert forall i :: 0 <= i < |more| ==> all[|sent| + i] == more[i];
    if NumberedFrom(all, 1) {
      assert NumberedFrom(sent, 1);
      if more != [] {
        assert all[|sent|] == more[0];
      }
    }
  }

  /** The stream shows every event from 1 on without a gap exactly when no read was overrun. */
  lemma StreamIsGapFreeIff(
    w: string, h: string, ops: seq<JournalOp>, js: seq<Journal>, points: seq<nat>, loads: seq<Journal>)
    requires Run(w, h, ops, js) && LoadsOf(js, points, loads)
    ensures NumberedFrom(ReadAll(loads), 1) <==> NeverOverrun(loads)
    ensures NumberedFrom(ReadAll(loads), 1) ==> |ReadAll(loads)| == SeenUpTo(loads)
  {
    LoadsAreSuccessive(w, h, ops, js, points, loads);
    GapFreeReads(loads);
  }
}
