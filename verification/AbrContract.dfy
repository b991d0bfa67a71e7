/** The ABR result contract: delivered renditions and the frame-megapixel claim computed from them in
    unsigned 64-bit arithmetic (abr-runner/contract_v2.go). */
module AbrContract {
  import opened Text

  datatype Video = Video(frames: nat, width: nat, height: nat)

  /** A delivered rendition; audio-only renditions have no video. */
  datatype Rendition = Rendition(name: string, playlistUri: string, streamUri: string, video: Option<Video>, bytes: nat)

  const PIXELS_PER_UNIT: nat := 1_000_000
  const MAX_URI_LENGTH: nat := 1024

  function Pixels(r: Rendition): nat
  {
    match r.video case None => 0 case Some(v) => v.frames * v.width * v.height
  }

  function TotalPixels(renditions: seq<Rendition>): nat
  {
    if renditions == [] then 0
    else TotalPixels(renditions[..|renditions| - 1]) + Pixels(renditions[|renditions| - 1])
  }

  /** Both 64-bit multiplications of one rendition succeed. */
  predicate ProductFits(r: Rendition)
  {
    match r.video case None => true
                  case Some(v) => v.frames * v.width <= MAX_U64 && v.frames * v.width * v.height <= MAX_U64
  }

  ghost predicate Computable(renditions: seq<Rendition>)
  {
    (forall i :: 0 <= i < |renditions| ==> ProductFits(renditions[i])) && TotalPixels(renditions) <= MAX_U64
  }

  /** Whole units, rounded up. */
  function UnitsFor(pixels: nat): nat { (pixels + PIXELS_PER_UNIT - 1) / PIXELS_PER_UNIT }

  lemma {:induction false} TotalOfPrefix(renditions: seq<Rendition>, k: nat)
    requires k <= |renditions|
    ensures TotalPixels(renditions[..k]) <= TotalPixels(renditions)
  {
    if k == |renditions| {
      assert renditions[..k] == renditions;
    } else {
      var front := renditions[..|renditions| - 1];
      assert renditions[..k] == front[..k];
      TotalOfPrefix(front, k);
    }
  }

  method CalculateUnits(renditions: seq<Rendition>) returns (units: Option<nat>)
    ensures units.Some? <==> Computable(renditions)
    ensures units.Some? ==> units.value == UnitsFor(TotalPixels(renditions)) <= MAX_U64
  {
    var pixels := 0;
    for i := 0 to |renditions|
      invariant pixels == TotalPixels(renditions[..i]) <= MAX_U64
      invariant forall k :: 0 <= k < i ==> ProductFits(renditions[k])
    {
      assert renditions[..i + 1][..i] == renditions[..i];
      if renditions[i].video.Some? {
        var video := renditions[i].video.value;
        var frameWidth := video.frames * video.width;
        if frameWidth > MAX_U64 {
          return None;
        }
        var product := frameWidth * video.height;
        if product > MAX_U64 {
          return None;
        }
        pixels := pixels + product;
        if pixels > MAX_U64 {
          TotalOfPrefix(renditions, i + 1);
          return None;
        }
      }
    }
    assert renditions[..|renditions|] == renditions;
    var whole := pixels / PIXELS_PER_UNIT;
    if pixels % PIXELS_PER_UNIT != 0 {
      whole := whole + 1;
    }
    return Some(whole);
  }

  // ----- when the calculation fails -----

  ghost predicate PositiveHeights(renditions: seq<Rendition>)
  {
    forall i :: 0 <= i < |renditions| && renditions[i].video.Some? ==> renditions[i].video.value.height > 0
  }

  lemma ProductAtLeast(x: nat, h: nat)
    requires h > 0
    ensures x * h >= x
  {
  }

  lemma {:induction false} PixelsBelowTotal(renditions: seq<Rendition>, i: nat)
    requires i < |renditions|
    ensures Pixels(renditions[i]) <= TotalPixels(renditions)
  {
    if i < |renditions| - 1 {
      PixelsBelowTotal(renditions[..|renditions| - 1], i);
    }
  }

  /** With positive heights the claim fails exactly when the true sum of pixels exceeds 64 bits. */
  lemma FailsOnlyBeyond64Bits(renditions: seq<Rendition>)
    requires PositiveHeights(renditions)
    ensures Computable(renditions) <==> TotalPixels(renditions) <= MAX_U64
  {
    if TotalPixels(renditions) <= MAX_U64 {
      forall i | 0 <= i < |renditions| ensures ProductFits(renditions[i]) {
        PixelsBelowTotal(renditions, i);
        if renditions[i].video.Some? {
          var v := renditions[i].video.value;
          ProductAtLeast(v.frames * v.width, v.height);
        }
      }
    }
  }

  /** A zero height makes it fail although the sum is zero. */
  lemma ZeroHeightOverflows()
    ensures var r := Rendition("720p", "p", "s", Some(Video(MAX_U64, 2, 0)), 0);
            TotalPixels([r]) == 0 && !Computable([r])
  {
    var r := Rendition("720p", "p", "s", Some(Video(MAX_U64, 2, 0)), 0);
    assert [r][..0] == [] && [r][0] == r && Pixels(r) == 0;
    assert !ProductFits(r);
  }

  // ----- order does not matter -----

  lemma {:induction false} RemoveOne(renditions: seq<Rendition>, i: nat)
    requires i < |renditions|
    ensures TotalPixels(renditions) == Pixels(renditions[i]) + TotalPixels(renditions[..i] + renditions[i + 1..])
  {
    var last := |renditions| - 1;
    if i == last {
      assert renditions[..i] + renditions[i + 1..] == renditions[..last];
    } else {
      var front := renditions[..last];
      RemoveOne(front, i);
      var rest := renditions[..i] + renditions[i + 1..];
      assert rest[..|rest| - 1] == front[..i] + front[i + 1..];
    }
  }

  lemma MultisetWithout(s: seq<Rendition>, i: nat)
    requires i < |s|
    ensures multiset(s) == multiset(s[..i] + s[i + 1..]) + multiset{s[i]}
  {
    assert s == s[..i] + [s[i]] + s[i + 1..];
  }

  lemma Cancel(x: multiset<Rendition>, y: multiset<Rendition>, z: multiset<Rendition>)
    requires x + z == y + z
    ensures x == y
  {
    assert x == (x + z) - z;
    assert y == (y + z) - z;
  }

  lemma SameWithoutOne(a: seq<Rendition>, b: seq<Rendition>, i: nat)
    requires multiset(a) == multiset(b) && a != [] && i < |b| && b[i] == a[|a| - 1]
    ensures multiset(a[..|a| - 1]) == multiset(b[..i] + b[i + 1..])
  {
    var last := |a| - 1;
    MultisetWithout(a, last);
    MultisetWithout(b, i);
    assert a[..last] + a[last + 1..] == a[..last];
    Cancel(multiset(a[..last]), multiset(b[..i] + b[i + 1..]), multiset{b[i]});
  }

  lemma SameMembers(a: seq<Rendition>, b: seq<Rendition>)
    requires multiset(a) == multiset(b)
    ensures |a| == |b| && forall x :: x in a <==> x in b
  {
    assert |multiset(a)| == |a| && |multiset(b)| == |b|;
    forall x ensures x in a <==> x in b {
      assert x in a <==> x in multiset(a);
      assert x in b <==> x in multiset(b);
    }
  }

  /** The total is a function of what was delivered, not of the order in which a map lists it. */
  lemma {:induction false} TotalIgnoresOrder(a: seq<Rendition>, b: seq<Rendition>)
    requires multiset(a) == multiset(b)
    ensures TotalPixels(a) == TotalPixels(b)
    decreases |a|
  {
    SameMembers(a, b);
    if a != [] {
      var last := |a| - 1;
      assert a[last] in b;
      var i :| 0 <= i < |b| && b[i] == a[last];
      SameWithoutOne(a, b, i);
      TotalIgnoresOrder(a[..last], b[..i] + b[i + 1..]);
      RemoveOne(b, i);
    }
  }

  lemma ComputableIgnoresOrder(a: seq<Rendition>, b: seq<Rendition>)
    requires multiset(a) == multiset(b)
    ensures Computable(a) <==> Computable(b)
  {
    TotalIgnoresOrder(a, b);
    SameMembers(a, b);
    assert forall i :: 0 <= i < |a| ==> a[i] in b;
    assert forall i :: 0 <= i < |b| ==> b[i] in a;
  }

  // ----- validating a terminal result -----

  datatype TerminalResult = TerminalResult(
    workloadId: string, requestHash: string, manifestUri: string, renditions: seq<Rendition>, units: nat)

  datatype TerminalError = TerminalError(workloadId: string, requestHash: string, code: string, message: string,
      units: nat)

  predicate IsSha256(s: string)
  {
    |s| == 64 && forall i :: 0 <= i < |s| ==> IsDigit(s[i]) || 'a' <= s[i] <= 'f'
  }

  /** A stable artifact reference that carries no query. */
  predicate ValidArtifactUri(uri: string)
  {
    !Blank(uri) && |uri| <= MAX_URI_LENGTH
    && forall i :: 0 <= i < |uri| ==> uri[i] != '?' && uri[i] != '\r' && uri[i] != '\n'
  }

  predicate ValidRendition(r: Rendition)
  {
    && r.name != "" && ValidArtifactUri(r.playlistUri) && ValidArtifactUri(r.streamUri)
    && (r.video.Some? ==> r.video.value.frames > 0 && r.video.value.width > 0 && r.video.value.height > 0)
  }

  ghost predicate NamesDistinct(renditions: seq<Rendition>)
  {
    forall i, j :: 0 <= i < j < |renditions| ==> renditions[i].name != renditions[j].name
  }

  /** What ValidateABRTerminalResultV2 accepts. */
  ghost predicate ValidResult(result: TerminalResult)
  {
    && OpaqueId(result.workloadId) && IsSha256(result.requestHash)
    && ValidArtifactUri(result.manifestUri) && result.renditions != []
    && (forall i :: 0 <= i < |result.renditions| ==> ValidRendition(result.renditions[i]))
    && NamesDistinct(result.renditions)
    && Computable(result.renditions) && result.units == UnitsFor(TotalPixels(result.renditions))
  }

  method ValidateTerminalResult(result: TerminalResult) returns (ok: bool)
    ensures ok == ValidResult(result)
  {
    if !OpaqueId(result.workloadId) || !IsSha256(result.requestHash) {
      return false;
    }
    if !ValidArtifactUri(result.manifestUri) || |result.renditions| == 0 {
      return false;
    }
    var seen := {};
    for i := 0 to |result.renditions|
      invariant seen == set k | 0 <= k < i :: result.renditions[k].name
      invariant NamesDistinct(result.renditions[..i])
      invariant forall k :: 0 <= k < i ==> ValidRendition(result.renditions[k])
    {
      var r := result.renditions[i];
      if !ValidRendition(r) {
        return false;
      }
      if r.name in seen {
        return false;
      }
      seen := seen + {r.name};
    }
    assert result.renditions[..|result.renditions|] == result.renditions;
    var units := CalculateUnits(result.renditions);
    return units == Some(result.units);
  }

  function Lower(c: char): char { if 'A' <= c <= 'Z' then c - 'A' + 'a' else c }

  /** `word`, a lower-case text, does not occur in `s` in either case. */
  predicate Free(s: string, word: string)
  {
    forall i :: 0 <= i <= |s| - |word| ==> !Occurs(s, word, i)
  }

  predicate Occurs(s: string, word: string, at: nat)
    requires at + |word| <= |s|
  {
    forall k :: 0 <= k < |word| ==> Lower(s[at + k]) == word[k]
  }

  predicate Redacted(message: string)
  {
    |message| <= 512 && Free(message, "http://") && Free(message, "https://") && Free(message, "sig=")
  }

  /** `w` spells `word` in any mixture of upper and lower case. */
  ghost predicate Spells(w: string, word: string)
  {
    |w| == |word| && forall k :: 0 <= k < |w| ==>
      w[k] == word[k] || ('A' <= w[k] <= 'Z' && 'a' <= word[k] <= 'z' && w[k] - 'A' == word[k] - 'a')
  }

  /** An address or a signature anywhere in a message, in whatever case, is caught. */
  lemma LeakIsCaught(before: string, leak: string, after: string)
    requires Spells(leak, "http://") || Spells(leak, "https://") || Spells(leak, "sig=")
    ensures !Redacted(before + leak + after)
  {
    if Spells(leak, "http://") {
      WordIsFound(before, leak, after, "http://");
    } else if Spells(leak, "https://") {
      WordIsFound(before, leak, after, "https://");
    } else {
      WordIsFound(before, leak, after, "sig=");
    }
  }

  lemma WordIsFound(before: string, leak: string, after: string, word: string)
    requires Spells(leak, word) && forall k :: 0 <= k < |word| ==> !('A' <= word[k] <= 'Z')
    ensures !Free(before + leak + after, word)
  {
    var s := before + leak + after;
    assert forall k :: 0 <= k < |word| ==> s[|before| + k] == leak[k];
    assert Occurs(s, word, |before|);
  }

  /** What ValidateABRTerminalErrorV2 accepts. */
  predicate ValidError(result: TerminalError)
  {
    && OpaqueId(result.workloadId) && IsSha256(result.requestHash)
    && result.code != "" && result.message != "" && Redacted(result.message)
  }
}
