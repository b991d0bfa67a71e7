/** The durable callback backoff: exponential, jittered and computed in signed 64-bit nanoseconds
    without overflow (callbackRetryDelayV1 in live-runner/callback.go). */
module CallbackRetry {

  /** A signed 64-bit count of nanoseconds; Dafny checks every operation on it for overflow. */
  newtype Duration = d: int | -0x8000_0000_0000_0000 <= d < 0x8000_0000_0000_0000

  function Min(a: int, b: int): int { if a <= b then a else b }

  function Pow2(k: nat): (p: nat)
    ensures p > 0
  {
    if k == 0 then 1 else 2 * Pow2(k - 1)
  }

  /** The unjittered delay of an attempt: initial, doubled once per earlier attempt, capped. */
  function Base(attempt: nat, initial: int, maximum: int): int
    requires attempt > 0
  {
    Min(maximum, initial * Pow2(attempt - 1))
  }

  /** `base` scaled by factor/1000: rounded up below 1000, rounded down above, and capped. */
  function Jittered(base: int, factor: nat, maximum: int): int
  {
    if factor <= 1000 then -((-(base * factor)) / 1000) else Min(maximum, base * factor / 1000)
  }

  lemma {:induction false} Pow2Monotone(a: nat, b: nat)
    requires a <= b
    ensures Pow2(a) <= Pow2(b)
  {
    if a < b {
      Pow2Monotone(a, b - 1);
    }
  }

  lemma MulMonotone(x: int, a: int, b: int)
    requires x >= 0 && a <= b
    ensures x * a <= x * b
  {
  }

  method ExponentialBase(attempt: nat, initial: Duration, maximum: Duration) returns (base: Duration)
    requires attempt > 0 && 0 < initial <= maximum
    ensures base as int == Base(attempt, initial as int, maximum as int)
    ensures initial <= base <= maximum
  {
    base := initial;
    var index := 1;
    while index < attempt && base < maximum
      invariant 1 <= index <= attempt
      invariant initial <= base <= maximum
      invariant base as int == initial as int * Pow2(index - 1)
    {
      if base > maximum / 2 {
        assert initial as int * Pow2(index) == 2 * base as int > maximum as int;
        Pow2Monotone(index, attempt - 1);
        MulMonotone(initial as int, Pow2(index), Pow2(attempt - 1));
        return maximum;
      }
      base := base * 2;
      index := index + 1;
    }
    Pow2Monotone(index - 1, attempt - 1);
    MulMonotone(initial as int, Pow2(index - 1), Pow2(attempt - 1));
  }

  /** Splitting a product by 1000 before dividing loses nothing. */
  lemma SplitScale(base: int, delta: int)
    requires base >= 0 && delta >= 0
    ensures (base / 1000) * delta + (base % 1000) * delta / 1000 == base * delta / 1000
  {
    var q, r := base / 1000, base % 1000;
    assert base * delta == 1000 * (q * delta) + r * delta by {
      assert base == 1000 * q + r;
    }
    ShiftDivision(q * delta, r * delta);
  }

  lemma ShiftDivision(a: int, b: int)
    ensures (1000 * a + b) / 1000 == a + b / 1000
  {
  }

  lemma ShrunkExactly(base: int, delta: int, maximum: int)
    requires 0 <= base && 0 <= delta <= 250
    ensures base - (base / 1000) * delta - (base % 1000) * delta / 1000 == Jittered(base, 1000 - delta, maximum)
  {
    SplitScale(base, delta);
    assert base * (1000 - delta) == 1000 * base - base * delta;
    NegativeDivision(base, base * delta);
  }

  lemma GrownExactly(base: int, delta: int)
    requires 0 <= base && 0 <= delta <= 250
    ensures base + (base / 1000) * delta + (base % 1000) * delta / 1000 == base * (1000 + delta) / 1000
  {
    SplitScale(base, delta);
    assert base * (1000 + delta) == 1000 * base + base * delta;
    ShiftDivision(base, base * delta);
  }

  /** The scaled share of the base that jitter takes off or adds. */
  method Share(base: Duration, delta: Duration) returns (whole: Duration, rest: Duration)
    requires 0 <= base && 0 <= delta <= 250
    ensures whole as int == (base as int / 1000) * delta as int
    ensures rest as int == (base as int % 1000) * delta as int / 1000
    ensures 0 <= whole && 0 <= rest && whole as int + rest as int <= base as int / 4
  {
    ScaledBound(base as int, delta as int);
    whole := (base / 1000) * delta;
    var product := (base % 1000) * delta;
    rest := product / 1000;
  }

  /** `jitter` stands for the digest of event and attempt reduced modulo 501. */
  method RetryDelay(attempt: nat, initial: Duration, maximum: Duration, jitter: nat) returns (delay: Duration)
    requires attempt > 0 && 0 < initial <= maximum && jitter <= 500
    ensures delay as int == Jittered(Base(attempt, initial as int, maximum as int), 750 + jitter, maximum as int)
  {
    var base := ExponentialBase(attempt, initial, maximum);
    var factor := (750 + jitter) as Duration;
    if factor == 1000 {
      ShrunkExactly(base as int, 0, maximum as int);
      return base;
    }
    if factor < 1000 {
      var whole, rest := Share(base, 1000 - factor);
      ShrunkExactly(base as int, 250 - jitter, maximum as int);
      return base - whole - rest;
    }
    var whole, rest := Share(base, factor - 1000);
    GrownExactly(base as int, jitter - 250);
    var extra := whole + rest;
    if extra > maximum - base {
      return maximum;
    }
    return base + extra;
  }

  lemma ScaledBound(base: int, delta: int)
    requires 0 <= base < 0x8000_0000_0000_0000 && 0 <= delta <= 250
    ensures 0 <= (base / 1000) * delta <= base / 4
    ensures 0 <= (base % 1000) * delta < 250_000
    ensures (base / 1000) * delta + (base % 1000) * delta / 1000 <= base / 4
  {
    MulMonotone(base / 1000, delta, 250);
    MulMonotone(base % 1000, delta, 250);
  }

  lemma NegativeDivision(b: int, x: int)
    ensures -((-(1000 * b - x)) / 1000) == b - x / 1000
  {
  }

  /** The persisted delay is never below three quarters of the base, never above the maximum, and positive,
      so a reserved next attempt lies strictly after the attempt it follows. */
  lemma DelayBounds(attempt: nat, initial: int, maximum: int, jitter: nat)
    requires attempt > 0 && 0 < initial <= maximum && jitter <= 500
    ensures var base := Base(attempt, initial, maximum);
            var delay := Jittered(base, 750 + jitter, maximum);
            initial <= base <= maximum && 3 * base <= 4 * delay && 0 < delay <= maximum
  {
    var base := Base(attempt, initial, maximum);
    Pow2Monotone(0, attempt - 1);
    MulMonotone(initial, 1, Pow2(attempt - 1));
    assert initial <= base <= maximum;
    var product := base * (750 + jitter);
    MulMonotone(base, 750, 750 + jitter);
    if 750 + jitter <= 1000 {
      MulMonotone(base, 750 + jitter, 1000);
    } else {
      MulMonotone(base, 1000, 750 + jitter);
    }
  }

  /** Within one event the unjittered delays never shrink from one attempt to the next. */
  lemma BaseNeverShrinks(attempt: nat, initial: int, maximum: int)
    requires attempt > 0 && 0 < initial <= maximum
    ensures var base := Base(attempt, initial, maximum); base <= Base(attempt + 1, initial, maximum) <= 2 * base
  {
    assert initial * Pow2(attempt) == 2 * (initial * Pow2(attempt - 1));
    assert initial * Pow2(attempt - 1) > 0;
  }
}
