/** The sliding-window rate limiter: a log per key that every check prunes to its window and a timer prunes to
    sixty seconds (transcode-gateway/src/auth/rateLimit.ts). Times are in milliseconds. */
module RateLimiter {
  const SWEEP_WINDOW: int := 60_000

  type Log = map<string, seq<int>>

  /** The stamps after a cutoff, in order. */
  function Fresh(stamps: seq<int>, cutoff: int): seq<int>
  {
    if stamps == [] then []
    else
      var t := stamps[|stamps| - 1];
      Fresh(stamps[..|stamps| - 1], cutoff) + if t > cutoff then [t] else []
  }

  function Entries(log: Log, key: string): seq<int> { if key in log then log[key] else [] }

  /** Accepts while fewer than `limit` stamps lie in the window; an accepted request leaves its own stamp. */
  function Accepts(stamps: seq<int>, limit: nat, window: int, now: int): bool { |Fresh(stamps, now - window)| < limit }

  function CheckLog(log: Log, key: string, limit: nat, window: int, now: int): Log
  {
    var recent := Fresh(Entries(log, key), now - window);
    log[key := if |recent| < limit then recent + [now] else recent]
  }

  function SweptLog(log: Log, now: int): Log
  {
    map key | key in log && Fresh(log[key], now - SWEEP_WINDOW) != [] :: Fresh(log[key], now - SWEEP_WINDOW)
  }

  class Limiter {
    var log: Log

    constructor ()
      ensures log == map[]
    {
      log := map[];
    }

    method Filter(stamps: seq<int>, cutoff: int) returns (kept: seq<int>)
      ensures kept == Fresh(stamps, cutoff)
    {
      kept := [];
      for i := 0 to |stamps|
        invariant kept == Fresh(stamps[..i], cutoff)
      {
        assert stamps[..i + 1][..i] == stamps[..i];
        if stamps[i] > cutoff {
          kept := kept + [stamps[i]];
        }
      }
      assert stamps[..|stamps|] == stamps;
    }

    method Check(key: string, limit: nat, seconds: int, now: int) returns (ok: bool)
      modifies this
      ensures ok == Accepts(Entries(old(log), key), limit, seconds * 1000, now)
      ensures log == CheckLog(old(log), key, limit, seconds * 1000, now)
    {
      var cutoff := now - seconds * 1000;
      var entries := if key in log then log[key] else [];
      var recent := Filter(entries, cutoff);
      if |recent| >= limit {
        log := log[key := recent];
        return false;
      }
      recent := recent + [now];
      log := log[key := recent];
      return true;
    }

    /** Drops keys without a stamp left, and rewrites only the keys that lost one. */
    method Sweep(now: int)
      modifies this
      ensures log == SweptLog(old(log), now)
    {
      ghost var before := log;
      var cutoff := now - SWEEP_WINDOW;
      var left := log.Keys;
      while left != {}
        invariant left <= before.Keys && left <= log.Keys <= before.Keys
        invariant forall key :: key in left ==> log[key] == before[key]
        invariant forall key :: key in before && key !in left ==> (key in log <==> Fresh(before[key], cutoff) != [])
        invariant forall key :: key in log && key !in left ==> log[key] == Fresh(before[key], cutoff)
        decreases left
      {
        var key :| key in left;
        var stamps := log[key];
        var kept := Filter(stamps, cutoff);
        if |kept| == 0 {
          log := log - {key};
        } else if |kept| != |stamps| {
          log := log[key := kept];
        } else {
          KeptAll(stamps, cutoff);
        }
        left := left - {key};
      }
    }
  }

  // ----- filtering -----

  lemma {:induction false} FreshIsShorter(stamps: seq<int>, cutoff: int)
    ensures |Fresh(stamps, cutoff)| <= |stamps|
  {
    if stamps != [] {
      FreshIsShorter(stamps[..|stamps| - 1], cutoff);
    }
  }

  lemma {:induction false} KeptAll(stamps: seq<int>, cutoff: int)
    requires |Fresh(stamps, cutoff)| == |stamps|
    ensures Fresh(stamps, cutoff) == stamps
  {
    if stamps != [] {
      var front := stamps[..|stamps| - 1];
      FreshIsShorter(front, cutoff);
      KeptAll(front, cutoff);
    }
  }

  lemma FreshAppend(stamps: seq<int>, t: int, cutoff: int)
    ensures Fresh(stamps + [t], cutoff) == Fresh(stamps, cutoff) + if t > cutoff then [t] else []
  {
    assert (stamps + [t])[..|stamps|] == stamps;
  }

  /** Filtering twice is filtering by the later cutoff. */
  lemma {:induction false} FreshTwice(stamps: seq<int>, a: int, b: int)
    requires a <= b
    ensures Fresh(Fresh(stamps, a), b) == Fresh(stamps, b)
  {
    if stamps != [] {
      var front, t := stamps[..|stamps| - 1], stamps[|stamps| - 1];
      FreshTwice(front, a, b);
      if t > a {
        FreshAppend(Fresh(front, a), t, b);
      } else {
        assert Fresh(stamps, a) == Fresh(front, a) && Fresh(stamps, b) == Fresh(front, b);
      }
    }
  }

  // ----- runs -----

  datatype Event = Check(key: string, limit: nat, window: int, now: int) | Sweep(now: int)

  function Step(log: Log, e: Event): Log
  {
    match e
    case Check(key, limit, window, now) => CheckLog(log, key, limit, window, now)
    case Sweep(now) => SweptLog(log, now)
  }

  function LogAfter(events: seq<Event>): Log
  {
    if events == [] then map[] else Step(LogAfter(events[..|events| - 1]), events[|events| - 1])
  }

  /** The reference: every accepted request of a key, never forgotten. */
  function History(events: seq<Event>, key: string): seq<int>
  {
    if events == [] then [] else Remember(History(events[..|events| - 1], key), events[|events| - 1], key)
  }

  function Remember(h: seq<int>, e: Event, key: string): seq<int>
  {
    if e.Check? && e.key == key && Accepts(h, e.limit, e.window, e.now) then h + [e.now] else h
  }

  /** The clock does not run backwards. */
  ghost predicate Ordered(events: seq<Event>)
  {
    forall i, k :: 0 <= i < k < |events| ==> events[i].now <= events[k].now
  }

  /** The key is always checked with the same limit and window. */
  ghost predicate Fixed(events: seq<Event>, key: string, limit: nat, window: int)
  {
    forall i :: 0 <= i < |events| && events[i].Check? && events[i].key == key ==>
      events[i].limit == limit && events[i].window == window
  }

  /** In every interleaving of checks and sweeps the limiter answers the next check as the reference would. */
  ghost predicate AlwaysAgrees(key: string, limit: nat, window: int)
  {
    forall events, now :: Ordered(events + [Sweep(now)]) && Fixed(events, key, limit, window) ==>
      Accepts(Entries(LogAfter(events), key), limit, window, now) == Accepts(History(events, key), limit, window, now)
  }

  // ----- one key at a time -----

  function StampsAfter(stamps: seq<int>, e: Event, key: string): seq<int>
  {
    match e
    case Sweep(now) => Fresh(stamps, now - SWEEP_WINDOW)
    case Check(k, limit, window, now) =>
      if k != key then stamps
      else if |Fresh(stamps, now - window)| < limit then Fresh(stamps, now - window) + [now]
      else Fresh(stamps, now - window)
  }

  lemma EntriesAfter(log: Log, e: Event, key: string)
    ensures Entries(Step(log, e), key) == StampsAfter(Entries(log, key), e, key)
  {
  }

  lemma AfterOneMore(events: seq<Event>, e: Event, key: string)
    ensures Entries(LogAfter(events + [e]), key) == StampsAfter(Entries(LogAfter(events), key), e, key)
    ensures History(events + [e], key) == Remember(History(events, key), e, key)
  {
    assert (events + [e])[..|events|] == events;
    EntriesAfter(LogAfter(events), e, key);
  }

  /** The pruned log and the history look the same from every cutoff that can still be asked about. */
  ghost predicate SameFrom(a: seq<int>, b: seq<int>, from: int)
  {
    forall cutoff :: cutoff >= from ==> Fresh(a, cutoff) == Fresh(b, cutoff)
  }

  lemma SameAfterPruning(a: seq<int>, b: seq<int>, from: int, cut: int, from': int)
    requires SameFrom(a, b, from) && from <= from' && cut <= from'
    ensures SameFrom(Fresh(a, cut), b, from')
  {
    forall cutoff | cutoff >= from' ensures Fresh(Fresh(a, cut), cutoff) == Fresh(b, cutoff) {
      FreshTwice(a, cut, cutoff);
    }
  }

  lemma SameAfterAppending(a: seq<int>, b: seq<int>, from: int, t: int)
    requires SameFrom(a, b, from)
    ensures SameFrom(a + [t], b + [t], from)
  {
    forall cutoff | cutoff >= from ensures Fresh(a + [t], cutoff) == Fresh(b + [t], cutoff) {
      FreshAppend(a, t, cutoff);
      FreshAppend(b, t, cutoff);
    }
  }

  lemma CheckedStamps(a: seq<int>, h: seq<int>, key: string, limit: nat, window: int, now: int)
    requires Fresh(a, now - window) == Fresh(h, now - window)
    ensures var e, recent := Check(key, limit, window, now), Fresh(a, now - window);
            && StampsAfter(a, e, key) == (if |recent| < limit then recent + [now] else recent)
            && Remember(h, e, key) == (if |recent| < limit then h + [now] else h)
  {
  }

  lemma CheckAgrees(a: seq<int>, h: seq<int>, key: string, limit: nat, window: int, now: int, from: int)
    requires from <= now - window && SameFrom(a, h, from)
    ensures var e := Check(key, limit, window, now); SameFrom(StampsAfter(a, e, key), Remember(h, e, key), now - window)
  {
    var cut := now - window;
    assert Fresh(a, cut) == Fresh(h, cut);
    SameAfterPruning(a, h, from, cut, cut);
    CheckedStamps(a, h, key, limit, window, now);
    SameAfterAppending(Fresh(a, cut), h, cut, now);
  }

  lemma StepAgrees(a: seq<int>, h: seq<int>, e: Event, key: string, window: int, from: int)
    requires window <= SWEEP_WINDOW && from <= e.now - window && SameFrom(a, h, from)
    requires e.Check? && e.key == key ==> e.window == window
    ensures SameFrom(StampsAfter(a, e, key), Remember(h, e, key), e.now - window)
  {
    if e.Sweep? {
      SameAfterPruning(a, h, from, e.now - SWEEP_WINDOW, e.now - window);
    } else if e.key == key {
      CheckAgrees(a, h, key, e.limit, window, e.now, from);
    }
  }

  lemma {:induction false} PrunedLogAgrees(events: seq<Event>, key: string, limit: nat, window: int, from: int)
    requires window <= SWEEP_WINDOW && Ordered(events) && Fixed(events, key, limit, window)
    requires events != [] ==> events[|events| - 1].now - window <= from
    ensures SameFrom(Entries(LogAfter(events), key), History(events, key), from)
  {
    if events != [] {
      var front, e := events[..|events| - 1], events[|events| - 1];
      PrunedLogAgrees(front, key, limit, window, e.now - window);
      StepAgrees(Entries(LogAfter(front), key), History(front, key), e, key, window, e.now - window);
      EntriesAfter(LogAfter(front), e, key);
    }
  }

  // ----- longer windows -----

  lemma {:induction false} AllFresh(stamps: seq<int>, cutoff: int)
    requires forall i :: 0 <= i < |stamps| ==> stamps[i] > cutoff
    ensures Fresh(stamps, cutoff) == stamps
  {
    if stamps != [] {
      AllFresh(stamps[..|stamps| - 1], cutoff);
    }
  }

  lemma {:induction false} NoneFresh(stamps: seq<int>, cutoff: int)
    requires forall i :: 0 <= i < |stamps| ==> stamps[i] <= cutoff
    ensures Fresh(stamps, cutoff) == []
  {
    if stamps != [] {
      NoneFresh(stamps[..|stamps| - 1], cutoff);
    }
  }

  function Times<T>(n: nat, x: T): (s: seq<T>)
    ensures |s| == n && forall i :: 0 <= i < n ==> s[i] == x
  {
    if n == 0 then [] else Times(n - 1, x) + [x]
  }

  lemma FillStep(stamps: seq<int>, key: string, limit: nat, window: int)
    requires |stamps| < limit && Fresh(stamps, 0 - window) == stamps
    ensures var e := Check(key, limit, window, 0);
            StampsAfter(stamps, e, key) == stamps + [0] == Remember(stamps, e, key)
  {
  }

  lemma ZerosStep(key: string, limit: nat, window: int, n: nat)
    requires n < limit && window > 0
    ensures var e := Check(key, limit, window, 0);
            StampsAfter(Times(n, 0), e, key) == Times(n + 1, 0) == Remember(Times(n, 0), e, key)
  {
    var stamps := Times(n, 0);
    AllFresh(stamps, 0 - window);
    FillStep(stamps, key, limit, window);
  }

  ghost predicate Filled(events: seq<Event>, key: string, n: nat)
  {
    Entries(LogAfter(events), key) == Times(n, 0) == History(events, key)
  }

  lemma FilledOneMore(events: seq<Event>, key: string, limit: nat, window: int, n: nat)
    requires Filled(events, key, n) && n < limit && window > 0
    ensures Filled(events + [Check(key, limit, window, 0)], key, n + 1)
  {
    AfterOneMore(events, Check(key, limit, window, 0), key);
    ZerosStep(key, limit, window, n);
  }

  lemma {:induction false} ChecksFillTheLog(key: string, limit: nat, window: int, n: nat)
    requires n <= limit && window > 0
    ensures Filled(Times(n, Check(key, limit, window, 0)), key, n)
  {
    if n > 0 {
      ChecksFillTheLog(key, limit, window, n - 1);
      FilledOneMore(Times(n - 1, Check(key, limit, window, 0)), key, limit, window, n - 1);
    }
  }

  lemma ZerosForgotten(limit: nat, window: int)
    requires limit > 0 && window > SWEEP_WINDOW
    ensures Fresh(Times(limit, 0), 0) == [] && !Accepts(Times(limit, 0), limit, window, SWEEP_WINDOW)
    ensures Accepts([], limit, window, SWEEP_WINDOW)
  {
    NoneFresh(Times(limit, 0), 0);
    AllFresh(Times(limit, 0), SWEEP_WINDOW - window);
  }

  lemma AnswersDiffer(key: string, limit: nat, window: int)
    requires limit > 0 && window > SWEEP_WINDOW
    ensures var events := Times(limit, Check(key, limit, window, 0)) + [Sweep(SWEEP_WINDOW)];
            && Accepts(Entries(LogAfter(events), key), limit, window, SWEEP_WINDOW)
            && !Accepts(History(events, key), limit, window, SWEEP_WINDOW)
  {
    ChecksFillTheLog(key, limit, window, limit);
    AfterOneMore(Times(limit, Check(key, limit, window, 0)), Sweep(SWEEP_WINDOW), key);
    ZerosForgotten(limit, window);
  }

  /** A full window at time 0 and a sweep at 60 s: the sweep has forgotten what a longer window still covers. */
  lemma SweepForgets(key: string, limit: nat, window: int)
    requires limit > 0 && window > SWEEP_WINDOW
    ensures !AlwaysAgrees(key, limit, window)
  {
    var filled := Times(limit, Check(key, limit, window, 0));
    var events := filled + [Sweep(SWEEP_WINDOW)];
    assert Ordered(events + [Sweep(SWEEP_WINDOW)]);
    assert Fixed(events, key, limit, window);
    AnswersDiffer(key, limit, window);
  }

  /** The limiter answers like the full history, in every run, exactly for windows of at most sixty seconds (or a
      limit of zero, which refuses everything either way). */
  lemma LimiterAgreesIff(key: string, limit: nat, window: int)
    ensures AlwaysAgrees(key, limit, window) <==> window <= SWEEP_WINDOW || limit == 0
  {
    if window <= SWEEP_WINDOW {
      forall events, now | Ordered(events + [Sweep(now)]) && Fixed(events, key, limit, window)
        ensures Accepts(Entries(LogAfter(events), key), limit, window, now) ==
                Accepts(History(events, key), limit, window, now)
      {
        var all := events + [Sweep(now)];
        assert forall i :: 0 <= i < |events| ==> all[i] == events[i];
        assert all[|events|].now == now;
        PrunedLogAgrees(events, key, limit, window, now - window);
      }
    } else if limit > 0 {
      SweepForgets(key, limit, window);
    }
  }

  // ----- what the window means -----

  /** The accepted requests that lie inside the window that ends now. */
  ghost function InWindow(h: seq<int>, window: int, now: int): set<int>
  {
    set j | 0 <= j < |h| && now - window < h[j]
  }

  lemma {:induction false} FreshCounts(h: seq<int>, window: int, now: int)
    ensures |Fresh(h, now - window)| == |InWindow(h, window, now)|
  {
    if h != [] {
      var n := |h| - 1;
      FreshCounts(h[..n], window, now);
      var before := InWindow(h[..n], window, now);
      assert InWindow(h, window, now) == if h[n] > now - window then before + {n} else before;
    } else {
      assert InWindow(h, window, now) == {};
    }
  }

  /** A request is accepted if and only if fewer than the limit of accepted requests lie inside the window. */
  lemma AcceptsIffFewer(h: seq<int>, limit: nat, window: int, now: int)
    ensures Accepts(h, limit, window, now) <==> |InWindow(h, window, now)| < limit
  {
    FreshCounts(h, window, now);
  }

  ghost predicate WithinLimit(h: seq<int>, limit: nat, window: int)
  {
    forall i :: 0 <= i < |h| ==> |InWindow(h[..i + 1], window, h[i])| <= limit
  }

  lemma OneMoreInWindow(h: seq<int>, window: int, now: int)
    ensures |InWindow(h + [now], window, now)| <= |InWindow(h, window, now)| + 1
  {
    var all, before := h + [now], InWindow(h, window, now);
    assert forall j :: 0 <= j < |h| ==> all[j] == h[j];
    assert InWindow(all, window, now) == if window > 0 then before + {|h|} else before;
  }

  lemma OneMoreWithinLimit(h: seq<int>, limit: nat, window: int, now: int)
    requires WithinLimit(h, limit, window) && Accepts(h, limit, window, now)
    ensures WithinLimit(h + [now], limit, window)
  {
    var all := h + [now];
    AcceptsIffFewer(h, limit, window, now);
    OneMoreInWindow(h, window, now);
    forall i | 0 <= i < |all| ensures |InWindow(all[..i + 1], window, all[i])| <= limit {
      if i < |h| {
        assert all[..i + 1] == h[..i + 1] && all[i] == h[i];
        assert |InWindow(h[..i + 1], window, h[i])| <= limit;
      } else {
        assert all[..i + 1] == all;
      }
    }
  }

  /** In every run of checks and sweeps, with one limit and window for the key, never more than the limit of accepted
      requests of the reference lie in one window. With `LimiterAgreesIff` the same holds of the limiter itself. */
  lemma {:induction false} NeverOverLimit(events: seq<Event>, key: string, limit: nat, window: int)
    requires Fixed(events, key, limit, window)
    ensures WithinLimit(History(events, key), limit, window)
  {
    if events != [] {
      var front, e := events[..|events| - 1], events[|events| - 1];
      NeverOverLimit(front, key, limit, window);
      var h := History(front, key);
      if e.Check? && e.key == key && Accepts(h, limit, window, e.now) {
        OneMoreWithinLimit(h, limit, window, e.now);
      }
    }
  }
}
