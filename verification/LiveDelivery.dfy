/** What the delivery cursor and the dead letters of a session remember over whole runs: how often the head was
    tried, how long each try waits, and which rejections came last (live-runner/store.go, live-runner/callback.go). */
module LiveDelivery {
  import opened Text
  import opened LiveContract
  import opened LiveRecord
  import opened LiveOps
  import opened LiveRuns
  import CallbackRetry

  /** Whether the last of a sequence of moves replaced the record. */
  ghost predicate SavedLast(id: string, moves: seq<Move>)
    requires moves != []
  {
    var s, last := Run(id, moves[..|moves| - 1]), moves[|moves| - 1];
    s.record.Some? && last.persisted && Transform(s, s.record.value, last.step).Saved?
  }

  /** How many reservations were saved since the head became the head. */
  ghost function Tries(id: string, moves: seq<Move>): nat
  {
    if moves == [] then 0
    else
      var before, step := Tries(id, moves[..|moves| - 1]), moves[|moves| - 1].step;
      if !SavedLast(id, moves) then before
      else if Settles(step) then 0
      else if step.Attempted? then before + 1
      else before
  }

  function Attempts(delivery: Option<Attempt>): nat { if delivery.Some? then delivery.value.attempts else 0 }

  /** What a saved step does to the number of attempts. */
  ghost predicate AttemptsMove(r: Record, r': Record, step: Step)
  {
    if Settles(step) then r'.outbox.delivery.None?
    else if step.Attempted? then r'.outbox.delivery.Some?
        && Attempts(r'.outbox.delivery) == Attempts(r.outbox.delivery) + 1
    else
      r'.outbox.delivery.Some? == r.outbox.delivery.Some? && Attempts(r'.outbox.delivery) == Attempts(r.outbox.delivery)
  }

  lemma TransformMovesAttempts(s: Sys, r: Record, step: Step)
    requires Transform(s, r, step).Saved?
    ensures AttemptsMove(r, Transform(s, r, step).record, step)
  {
  }

  lemma FreshHasNoDelivery(q: CreateRequest, a: CreateResponse, now: int)
    ensures FreshRecord(q, a, now).outbox.delivery.None? && FreshRecord(q, a, now).outbox.letters == []
    ensures FreshRecord(q, a, now).outbox.rejected == 0
  {
  }

  ghost predicate CountsTries(s: Sys, tries: nat)
  {
    if s.record.None? then tries == 0
    else
      var d := s.record.value.outbox.delivery;
      Attempts(d) == tries && (d.None? <==> tries == 0)
  }

  lemma NextCountsTries(id: string, s: Sys, step: Step, persisted: bool, tries: nat)
    requires CountsTries(s, tries) && (s.record.None? ==> s == INITIAL)
    ensures var saved := s.record.Some? && persisted && Transform(s, s.record.value, step).Saved?;
            CountsTries(Next(id, s, step, persisted),
                        if !saved then tries else if Settles(step) then 0 else if step.Attempted? then tries + 1
                            else tries)
  {
    if s.record.Some? {
      NextRecord(id, s, step, persisted);
      if Transform(s, s.record.value, step).Saved? {
        TransformMovesAttempts(s, s.record.value, step);
      }
    } else if step.Create? {
      FreshHasNoDelivery(step.create, step.created, step.now);
    }
  }

  /** In every run the stored attempt number is the number of saved reservations of the present head, however often
      saves were lost, deliveries failed or the process restarted in between. */
  lemma {:induction false} AttemptsAreCounted(id: string, moves: seq<Move>)
    ensures CountsTries(Run(id, moves), Tries(id, moves))
  {
    if moves != [] {
      var front, last := moves[..|moves| - 1], moves[|moves| - 1];
      AttemptsAreCounted(id, front);
      assert Run(id, front).record.None? ==> Run(id, front) == INITIAL by { RunKeepsInv(id, front); }
      NextCountsTries(id, Run(id, front), last.step, last.persisted, Tries(id, front));
    }
  }

  lemma ReservedDelay(r: Record, eventId: string, now: int, initial: int, maximum: int, jitter: nat)
    requires Reserve(r, eventId, now, initial, maximum, jitter).Saved? && jitter <= 500
    ensures var d := Reserve(r, eventId, now, initial, maximum, jitter).record.outbox.delivery;
            var k := Attempts(r.outbox.delivery) + 1;
            && d.Some? && d.value.eventId == eventId && d.value.lastAt == now
            && 3 * CallbackRetry.Min(maximum, initial * CallbackRetry.Pow2(k - 1)) <= 4 * (d.value.nextAt - now)
            && now < d.value.nextAt <= now + maximum
  {
    CallbackRetry.DelayBounds(Attempts(r.outbox.delivery) + 1, initial, maximum, jitter);
  }

  /** In every run the k-th try of a head waits at least three quarters of min(maximum, initial * 2^(k-1)), and never
      longer than the maximum. */
  lemma KthTryWaits(id: string, moves: seq<Move>, eventId: string, now: int, initial: int, maximum: int, digest: nat)
    requires var s := Run(id, moves);
             s.record.Some? && Transform(s, s.record.value, Attempted(eventId, now, initial, maximum, digest)).Saved?
    ensures var after := moves + [Move(Attempted(eventId, now, initial, maximum, digest), true)];
            var s, k := Run(id, after), Tries(id, moves) + 1;
            && Tries(id, after) == k && s.record.Some? && s.record.value.outbox.delivery.Some?
            && var d := s.record.value.outbox.delivery.value;
               && d.attempts == k && d.lastAt == now && now < d.nextAt <= now + maximum
               && 4 * (d.nextAt - now) >= 3 * CallbackRetry.Min(maximum, initial * CallbackRetry.Pow2(k - 1))
  {
    var s, step := Run(id, moves), Attempted(eventId, now, initial, maximum, digest);
    var after := moves + [Move(step, true)];
    assert after[..|moves|] == moves && after[|moves|] == Move(step, true);
    AttemptsAreCounted(id, moves);
    NextRecord(id, s, step, true);
    TransformMovesAttempts(s, s.record.value, step);
    ReservedDelay(s.record.value, eventId, now, initial, maximum, digest % 501);
  }

  // ----- dead letters -----

  /** The rejected events among the settled ones, in order. */
  function RejectedEvents(settled: seq<Settled>): seq<Event>
  {
    if settled == [] then []
    else
      var last := settled[|settled| - 1];
      RejectedEvents(settled[..|settled| - 1]) + if last.accepted then [] else [last.event]
  }

  function LetterEvents(letters: seq<DeadLetter>): seq<Event>
  {
    seq(|letters|, i requires 0 <= i < |letters| => letters[i].event)
  }

  function Latest<T>(s: seq<T>, n: nat): seq<T> { s[if |s| > n then |s| - n else 0..] }

  /** The letters are the last 32 rejections, and the counter has all of them. */
  ghost predicate KeepsRejections(s: Sys)
  {
    s.record.Some? ==>
      var o := s.record.value.outbox;
      var all := RejectedEvents(s.settled);
      o.rejected == |all| && LetterEvents(o.letters) == Latest(all, 32)
  }

  lemma LatestOneMore(all: seq<Event>, letters: seq<DeadLetter>, letter: DeadLetter)
    requires LetterEvents(letters) == Latest(all, 32)
    ensures LetterEvents(LastOf(letters + [letter], MAX_DEAD_LETTERS)) == Latest(all + [letter.event], 32)
  {
    var more := letters + [letter];
    assert LetterEvents(more) == LetterEvents(letters) + [letter.event];
    if |more| > 32 {
      assert LetterEvents(more[1..]) == LetterEvents(more)[1..];
    }
  }

  lemma RejectedOneMore(settled: seq<Settled>, last: Settled)
    ensures RejectedEvents(settled + [last]) == RejectedEvents(settled) + if last.accepted then [] else [last.event]
  {
    assert (settled + [last])[..|settled|] == settled;
  }

  lemma OthersKeepLetters(s: Sys, r: Record, step: Step)
    requires Transform(s, r, step).Saved? && !step.Reject?
    ensures var o, o' := r.outbox, Transform(s, r, step).record.outbox;
            o'.letters == o.letters && o'.rejected == o.rejected
  {
  }

  lemma AckNeedsHead(s: Sys, r: Record, step: Step)
    requires Transform(s, r, step).Saved? && Settles(step)
    ensures |r.outbox.pending| > 0
  {
  }

  lemma SaveKeepsRejections(s: Sys, r: Record, step: Step)
    requires s.record == Some(r) && KeepsRejections(s) && Transform(s, r, step).Saved?
    ensures KeepsRejections(Remember(s, r, Transform(s, r, step).record, step))
  {
    if Settles(step) {
      AckNeedsHead(s, r, step);
      var settled := Settled(r.outbox.pending[0], step.Ack?);
      RejectedOneMore(s.settled, settled);
      if step.Reject? {
        var o := r.outbox;
        var letter := DeadLetter(o.pending[0], o.delivery.value.attempts, step.status, step.errorCode, step.now);
        LatestOneMore(RejectedEvents(s.settled), o.letters, letter);
      }
    }
    if !step.Reject? {
      OthersKeepLetters(s, r, step);
      assert RejectedEvents(s.settled) + [] == RejectedEvents(s.settled);
    }
  }

  lemma NextKeepsRejections(id: string, s: Sys, step: Step, persisted: bool)
    requires KeepsRejections(s) && (s.record.None? ==> s == INITIAL)
    ensures KeepsRejections(Next(id, s, step, persisted))
  {
    if s.record.Some? {
      if Transform(s, s.record.value, step).Saved? {
        SaveKeepsRejections(s, s.record.value, step);
      }
    } else if step.Create? {
      FreshHasNoDelivery(step.create, step.created, step.now);
    }
  }

  /** In every run the dead letters are the latest 32 rejected events, in order, and the counter counts them all. */
  lemma {:induction false} DeadLettersAreLatest(id: string, moves: seq<Move>)
    ensures KeepsRejections(Run(id, moves))
  {
    if moves != [] {
      var front, last := moves[..|moves| - 1], moves[|moves| - 1];
      DeadLettersAreLatest(id, front);
      assert Run(id, front).record.None? ==> Run(id, front) == INITIAL by { RunKeepsInv(id, front); }
      NextKeepsRejections(id, Run(id, front), last.step, last.persisted);
    }
  }

  /** A new letter says what happened: the head, how often it was tried, with which answer and when. */
  lemma LetterTellsAll(id: string, moves: seq<Move>, eventId: string, status: nat, code: string, now: int)
    requires var s := Run(id, moves);
            s.record.Some? && Transform(s, s.record.value, Reject(eventId, status, code, now)).Saved?
    ensures var s := Run(id, moves);
            var letters := Transform(s, s.record.value, Reject(eventId, status, code, now)).record.outbox.letters;
            && |letters| > 0 && |s.record.value.outbox.pending| > 0 && s.record.value.outbox.pending[0].id == eventId
            && letters[|letters| - 1]
               == DeadLetter(s.record.value.outbox.pending[0], Tries(id, moves), status, code, now)
  {
    AttemptsAreCounted(id, moves);
  }
}
