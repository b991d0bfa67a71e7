/** EXTINF durations: decimal seconds read as whole microseconds in unsigned 64-bit arithmetic
    (parseHLSMicrosecondsV1 in live-runner/metering.go; section 4.3.2.1 of RFC 8216). */
module HlsDuration {
  import opened Text

  const TWO_POW_58: nat := 0x400_0000_0000_0000
  const TWO_POW_64: nat := MAX_U64 + 1

  function Zeros(k: nat): (z: string)
    ensures |z| == k && AllDigits(z)
  {
    if k == 0 then [] else Zeros(k - 1) + ['0']
  }

  /** strconv.ParseUint(s, 10, bits): digits only, and below the given bound. */
  function ParseUint(s: string, bound: nat): Option<nat>
  {
    if s == "" || !AllDigits(s) || DigitsValue(s) >= bound then None else Some(DigitsValue(s))
  }

  /** The source's checks in their order; the sum wraps modulo 2^64. */
  function ParseMicros(raw: string): Option<nat>
  {
    if raw == "" || IsSpace(raw[0]) || IsSpace(raw[|raw| - 1]) || raw[0] == '-' || raw[0] == '+' then None
    else
      var parts := Split(raw, '.');
      if |parts| > 2 || parts == [] || parts[0] == "" || (|parts| == 2 && (parts[1] == "" || |parts[1]| > 6)) then None
      else
        var seconds := ParseUint(parts[0], TWO_POW_58);
        var fraction := if |parts| == 2 then ParseUint(parts[1] + Zeros(6 - |parts[1]|), TWO_POW_64) else Some(0);
        if seconds.None? || fraction.None? then None
        else
          var duration := (seconds.value * 1_000_000 + fraction.value) % TWO_POW_64;
          if duration == 0 then None else Some(duration)
  }

  // ----- what the text says -----

  function Whole(raw: string): string { raw[..IndexOf(raw, '.')] }

  function Fraction(raw: string): string
  {
    var i := IndexOf(raw, '.');
    if i < |raw| then raw[i + 1..] else ""
  }

  /** A decimal: digits, optionally followed by a point and one to six digits. */
  predicate IsDecimal(raw: string)
  {
    && Whole(raw) != "" && AllDigits(Whole(raw)) && AllDigits(Fraction(raw)) && |Fraction(raw)| <= 6
    && (IndexOf(raw, '.') < |raw| ==> Fraction(raw) != "")
  }

  /** The exact number of microseconds a decimal denotes. */
  function ExactMicros(raw: string): nat
    requires IsDecimal(raw)
  {
    DigitsValue(Whole(raw)) * 1_000_000 + DigitsValue(Fraction(raw)) * Pow10(6 - |Fraction(raw)|)
  }

  lemma DigitsAppend(s: string, c: char)
    requires AllDigits(s) && IsDigit(c)
    ensures AllDigits(s + [c]) && DigitsValue(s + [c]) == 10 * DigitsValue(s) + DigitValue(c)
  {
    assert (s + [c])[..|s|] == s;
  }

  lemma TenTimes(v: nat, p: nat)
    ensures 10 * (v * p) == v * (10 * p)
  {
  }

  lemma {:induction false} PaddingScales(s: string, k: nat)
    requires AllDigits(s)
    ensures AllDigits(s + Zeros(k)) && DigitsValue(s + Zeros(k)) == DigitsValue(s) * Pow10(k)
  {
    if k == 0 {
      assert s + Zeros(0) == s;
    } else {
      PaddingScales(s, k - 1);
      assert s + Zeros(k) == (s + Zeros(k - 1)) + ['0'];
      DigitsAppend(s + Zeros(k - 1), '0');
      TenTimes(DigitsValue(s), Pow10(k - 1));
    }
  }

  lemma {:induction false} DigitsBelow(s: string)
    requires AllDigits(s)
    ensures DigitsValue(s) < Pow10(|s|)
  {
    if s != [] {
      DigitsBelow(s[..|s| - 1]);
    }
  }

  lemma SplitShape(raw: string)
    ensures var parts := Split(raw, '.');
            && |parts| >= 1 && parts[0] == Whole(raw)
            && (IndexOf(raw, '.') == |raw| <==> |parts| == 1)
            && (IndexOf(raw, '.') < |raw| ==> (|parts| == 2 <==> '.' !in Fraction(raw)))
            && (|parts| == 2 ==> parts[1] == Fraction(raw))
  {
    var i := IndexOf(raw, '.');
    if i < |raw| {
      var rest := raw[i + 1..];
      if '.' !in rest {
        IndexOfAbsent(rest, '.', []);
      } else {
        var j := IndexOf(rest, '.');
        assert rest[..|rest|] == rest;
        assert j < |rest|;
        assert |Split(rest, '.')| >= 2;
      }
    }
  }

  lemma DigitsAreNotPoints(s: string)
    requires AllDigits(s)
    ensures '.' !in s
  {
  }

  lemma DecimalEnds(raw: string)
    requires IsDecimal(raw)
    ensures raw != "" && IsDigit(raw[0]) && IsDigit(raw[|raw| - 1])
  {
    var i := IndexOf(raw, '.');
    assert raw[0] == Whole(raw)[0];
    if i < |raw| {
      assert raw[|raw| - 1] == Fraction(raw)[|Fraction(raw)| - 1];
    } else {
      assert raw[|raw| - 1] == Whole(raw)[|raw| - 1];
    }
  }

  /** Exactly the decimals with whole seconds below 2^58 are read, and what is read is the exact number of
      microseconds modulo 2^64, zero excluded. */
  lemma DurationIsRead(raw: string)
    ensures ParseMicros(raw) ==
            if IsDecimal(raw) && DigitsValue(Whole(raw)) < TWO_POW_58 && ExactMicros(raw) % TWO_POW_64 != 0
            then Some(ExactMicros(raw) % TWO_POW_64) else None
  {
    SplitShape(raw);
    var f := Fraction(raw);
    if IsDecimal(raw) {
      DecimalEnds(raw);
      DigitsAreNotPoints(f);
      PaddingScales(f, 6 - |f|);
      DigitsBelow(f + Zeros(6 - |f|));
      assert Pow10(6) == 1_000_000;
    } else {
      if |Split(raw, '.')| == 2 && |f| <= 6 && !AllDigits(f) {
        PaddedIsNotDigits(f, 6 - |f|);
      }
    }
  }

  lemma PaddedIsNotDigits(s: string, k: nat)
    requires !AllDigits(s)
    ensures !AllDigits(s + Zeros(k))
  {
    var i :| 0 <= i < |s| && !IsDigit(s[i]);
    assert (s + Zeros(k))[i] == s[i];
  }

  lemma ModIsExact(x: nat, m: nat)
    requires m > 0
    ensures x % m == x <==> x < m
  {
  }

  lemma FractionBelowSecond(raw: string)
    requires IsDecimal(raw)
    ensures ExactMicros(raw) < (DigitsValue(Whole(raw)) + 1) * 1_000_000
  {
    var f := Fraction(raw);
    PaddingScales(f, 6 - |f|);
    DigitsBelow(f + Zeros(6 - |f|));
    assert Pow10(6) == 1_000_000;
  }

  lemma SecondsFit(seconds: nat, micros: nat)
    requires seconds < 18_446_744_073_709 && micros < (seconds + 1) * 1_000_000
    ensures micros < TWO_POW_64
  {
  }

  /** A duration that is read is the exact one exactly when it fits 64 bits; the bound of 2^58 seconds alone
      does not ensure that. */
  lemma DurationExactIff(raw: string)
    requires ParseMicros(raw).Some?
    ensures IsDecimal(raw)
    ensures ParseMicros(raw).value == ExactMicros(raw) <==> ExactMicros(raw) < TWO_POW_64
    ensures DigitsValue(Whole(raw)) < 18_446_744_073_709 ==> ParseMicros(raw).value == ExactMicros(raw)
  {
    DurationIsRead(raw);
    var seconds, micros := DigitsValue(Whole(raw)), ExactMicros(raw);
    FractionBelowSecond(raw);
    ModIsExact(micros, TWO_POW_64);
    if seconds < 18_446_744_073_709 {
      SecondsFit(seconds, micros);
    }
  }

  lemma OneDigitFraction(w: string)
    requires AllDigits(w) && w != ""
    ensures var raw := w + ['.'] + ['6'];
            IsDecimal(raw) && Whole(raw) == w && ExactMicros(raw) == DigitsValue(w) * 1_000_000 + 600_000
  {
    var f := ['6'];
    var raw := w + ['.'] + f;
    DigitsAreNotPoints(w);
    IndexOfAbsent(w, '.', f);
    assert Whole(raw) == w && Fraction(raw) == f;
    DigitsAppend([], '6');
    assert [] + ['6'] == f;
    assert Pow10(5) == 100_000;
  }

  lemma WrappedSum(seconds: nat)
    requires seconds == 18_446_744_073_709
    ensures seconds < TWO_POW_58 && (seconds * 1_000_000 + 600_000) % TWO_POW_64 == 48_384
  {
  }

  /** Eighteen trillion seconds, however written, are read as a twentieth of a second. */
  lemma HugeDurationWraps(w: string)
    requires AllDigits(w) && w != "" && DigitsValue(w) == 18_446_744_073_709
    ensures ParseMicros(w + ['.'] + ['6']) == Some(48_384)
  {
    var seconds := DigitsValue(w);
    OneDigitFraction(w);
    WrappedSum(seconds);
    DurationIsRead(w + ['.'] + ['6']);
  }
}
