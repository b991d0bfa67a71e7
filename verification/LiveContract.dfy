/** The live runner's event contract: runner events, the broker-side event cursor and the
    output-second meter (live-runner/contract.go). */
module LiveContract {
  import opened Text

  datatype LiveState = Active | Ended | Failed

  /** Close reasons: the finite set the runner accepts, and any other string. */
  datatype CloseReason =
    | GatewayClose | LeaseExpired | HeartbeatLost | RunwayExhausted | RefillRefused | RecoveryFailed
    | PaymentUnrecoverable | RunnerFailed | IngestFailed | OutputFailed
    | RunnerEnded | InsufficientBalance | AuthorizationExhausted | OpenFailed | CapacityExhausted
    | LeaseExhausted | CustomerEnd | PublisherDisconnect | BrokerEnded | RelayFailure
    | RefillPreannouncedRefusal | RefillPolicyExhausted | RefillTotalExceeded
    | UnknownReason(text: string)

  predicate ValidCloseReason(reason: CloseReason) { !reason.UnknownReason? }

  datatype LadderCode =
    | EncoderInitFailed | HwaccelInitFailed | InputUnavailable | OutputRejected | ProcessKilled | UnknownExit
    | UnlistedCode(text: string)

  predicate ValidLadderCode(code: LadderCode) { !code.UnlistedCode? }

  datatype OutputState = Waiting | Producing | Stalled

  datatype EventKind =
    | Started | Heartbeat | LadderRestart | OutputStalled | UsageTick | SessionFailed | SessionEnded
    | UnknownKind(text: string)

  /** A runner event. Times are integers; 0 is the zero time, which every recorder refuses.
      `usage` is the cumulative number of output seconds. */
  datatype Event = Event(
    id: string, seqNo: nat, kind: EventKind, at: int, state: LiveState,
    usage: Option<nat>, closeReason: Option<CloseReason>)

  function EventId(runner: string, seqNo: nat): string { runner + ":" + Decimal(seqNo) }

  predicate ValidEvent(e: Event)
  {
    && OpaqueId(e.id)
    && e.seqNo != 0
    && match e.kind
       case Started | Heartbeat | LadderRestart | OutputStalled => e.state == Active
       case UsageTick => e.state == Active && e.usage.Some?
       case SessionFailed =>
         e.state == Failed && e.usage.Some? && e.closeReason.Some? && ValidCloseReason(e.closeReason.value)
       case SessionEnded =>
         e.state == Ended && e.usage.Some? && e.closeReason.Some? && ValidCloseReason(e.closeReason.value)
       case UnknownKind(_) => false
  }

  /** Whether the event identity derived from a runner session and a sequence number fits the pattern. */
  predicate EventIdFits(runner: string, seqNo: nat) { |runner| + 1 + |Decimal(seqNo)| <= MAX_OPAQUE_LENGTH }

  lemma EventIdIsOpaque(runner: string, seqNo: nat)
    requires OpaqueId(runner)
    ensures OpaqueId(EventId(runner, seqNo)) <==> EventIdFits(runner, seqNo)
  {
    var s, d := EventId(runner, seqNo), Decimal(seqNo);
    forall i | 0 <= i < |s| ensures IsOpaqueChar(s[i]) {
      if i < |runner| {
        assert s[i] == runner[i];
      } else if i > |runner| {
        assert s[i] == d[i - |runner| - 1];
      }
    }
  }

  lemma EventIdInjective(runner: string, a: nat, b: nat)
    requires EventId(runner, a) == EventId(runner, b)
    ensures a == b
  {
    var s := EventId(runner, a);
    assert Decimal(a) == s[|runner| + 1..];
    assert Decimal(b) == s[|runner| + 1..];
    DecimalInjective(a, b);
  }

  /** Runner sessions of at most 107 characters never outgrow the pattern; the runner mints 39-character ones
      ("runner_" and 32 hex digits). */
  lemma ShortRunnerIdsAlwaysFit(runner: string, seqNo: nat)
    requires |runner| <= 107 && seqNo <= MAX_U64
    ensures EventIdFits(runner, seqNo)
  {
    assert Pow10(20) == 100_000_000_000_000_000_000 by {
      assert Pow10(5) == 100_000;
      assert Pow10(10) == 10_000_000_000;
      assert Pow10(15) == 1_000_000_000_000_000;
    }
    DecimalLength(seqNo, 20);
  }

  // ----- the event cursor -----

  datatype Cursor = Cursor(sequence: nat, usageTotal: nat, hasUsage: bool, seenIds: set<string>)

  const FRESH_CURSOR := Cursor(0, 0, false, {})

  predicate Acceptable(c: Cursor, e: Event)
  {
    && ValidEvent(e)
    && e.seqNo > c.sequence
    && e.id !in c.seenIds
    && (e.usage.Some? && c.hasUsage ==> e.usage.value >= c.usageTotal)
  }

  function Accept(c: Cursor, e: Event): Cursor
  {
    Cursor(e.seqNo,
           if e.usage.Some? then e.usage.value else c.usageTotal,
           c.hasUsage || e.usage.Some?,
           c.seenIds + {e.id})
  }

  /** Whether a cursor accepts every event of a stream, one after the other. */
  predicate AcceptsAll(c: Cursor, events: seq<Event>)
    decreases |events|
  {
    events == [] || (Acceptable(c, events[0]) && AcceptsAll(Accept(c, events[0]), events[1..]))
  }

  class EventCursor {
    var sequence: nat
    var usageTotal: nat
    var hasUsage: bool
    var seenIds: set<string>

    constructor (start: Cursor)
      ensures View() == start
    {
      sequence, usageTotal, hasUsage, seenIds := start.sequence, start.usageTotal, start.hasUsage, start.seenIds;
    }

    ghost function View(): Cursor
      reads this
    {
      Cursor(sequence, usageTotal, hasUsage, seenIds)
    }

    method AcceptEvent(e: Event) returns (ok: bool)
      modifies this
      ensures ok == Acceptable(old(View()), e)
      ensures View() == if ok then Accept(old(View()), e) else old(View())
    {
      if !ValidEvent(e) || e.seqNo <= sequence || e.id in seenIds {
        return false;
      }
      if e.usage.Some? && hasUsage && e.usage.value < usageTotal {
        return false;
      }
      sequence := e.seqNo;
      seenIds := seenIds + {e.id};
      if e.usage.Some? {
        usageTotal := e.usage.value;
        hasUsage := true;
      }
      return true;
    }
  }

  // ----- the output-second meter -----

  function Sum(durations: seq<nat>): nat
  {
    if durations == [] then 0 else Sum(durations[..|durations| - 1]) + durations[|durations| - 1]
  }

  lemma {:induction false} SumAppend(a: seq<nat>, b: seq<nat>)
    ensures Sum(a + b) == Sum(a) + Sum(b)
  {
    if b == [] {
      assert a + b == a;
    } else {
      var front := b[..|b| - 1];
      SumAppend(a, front);
      assert (a + b)[..|a + b| - 1] == a + front;
    }
  }

  lemma SumOfPrefix(durations: seq<nat>, k: nat)
    requires k <= |durations|
    ensures Sum(durations[..k]) <= Sum(durations)
  {
    assert durations == durations[..k] + durations[k..];
    SumAppend(durations[..k], durations[k..]);
  }

  /** Whole output seconds of a finalized timeline; the flooring happens once, after the sum. */
  method CalculateOutputSeconds(durations: seq<nat>) returns (seconds: Option<nat>)
    ensures seconds == if Sum(durations) <= MAX_U64 then Some(Sum(durations) / 1_000_000) else None
  {
    var total := 0;
    for i := 0 to |durations|
      invariant total == Sum(durations[..i]) <= MAX_U64
    {
      assert durations[..i + 1][..i] == durations[..i];
      total := total + durations[i];
      if total > MAX_U64 {
        SumOfPrefix(durations, i + 1);
        return None;
      }
    }
    assert durations[..|durations|] == durations;
    return Some(total / 1_000_000);
  }
}
