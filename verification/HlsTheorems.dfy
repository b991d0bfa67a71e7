/** What a parsed playlist depends on: only its EXTINF/URI pairs, of which the first of each URI counts. */
module HlsTheorems {
  import opened Text
  import opened LiveRecord
  import opened LiveOps
  import opened HlsDuration
  import opened HlsPlaylist
  import opened LiveTheorems

  lemma {:induction false} ScanSplit(p: Scan, a: seq<string>, b: seq<string>)
    ensures ScanLines(p, a + b) == if ScanLines(p, a).None? then None else ScanLines(ScanLines(p, a).value, b)
  {
    if b == [] {
      assert a + b == a;
    } else {
      var front := b[..|b| - 1];
      ScanSplit(p, a, front);
      assert (a + b)[..|a + b| - 1] == a + front;
    }
  }

  function Relevant(lines: seq<string>): seq<string>
  {
    if lines == [] then []
    else Relevant(lines[..|lines| - 1]) + if Irrelevant(lines[|lines| - 1]) then [] else [lines[|lines| - 1]]
  }

  /** Blank lines, comments and every tag but EXTINF may be dropped. */
  lemma {:induction false} OnlyRelevantLinesCount(p: Scan, lines: seq<string>)
    ensures ScanLines(p, lines) == ScanLines(p, Relevant(lines))
  {
    if lines != [] {
      var front, last := lines[..|lines| - 1], lines[|lines| - 1];
      OnlyRelevantLinesCount(p, front);
      if Irrelevant(last) {
        assert Relevant(lines) == Relevant(front);
      } else {
        assert Relevant(lines)[..|Relevant(lines)| - 1] == Relevant(front);
      }
    }
  }

  // ----- inserting a line into a text -----

  /** Text made of complete lines. */
  predicate WholeLines(text: string) { text == "" || text[|text| - 1] == '\n' }

  lemma {:induction false} IndexOfPrefix(a: string, c: char, b: string)
    requires c in a
    ensures IndexOf(a + b, c) == IndexOf(a, c) < |a|
  {
    if a[0] != c {
      assert (a + b)[1..] == a[1..] + b;
      IndexOfPrefix(a[1..], c, b);
    }
  }

  lemma {:induction false} LinesAppend(a: string, b: string)
    requires WholeLines(a)
    ensures Lines(a + b) == Lines(a) + Lines(b)
    decreases |a|
  {
    if a == "" {
      assert a + b == b;
    } else {
      assert a[|a| - 1] in a;
      IndexOfPrefix(a, '\n', b);
      var i := IndexOf(a, '\n');
      assert (a + b)[..i] == a[..i] && (a + b)[i + 1..] == a[i + 1..] + b;
      assert i < |a| - 1 ==> a[i + 1..][|a[i + 1..]| - 1] == a[|a| - 1];
      LinesAppend(a[i + 1..], b);
    }
  }

  lemma BodiesAppend(a: seq<string>, b: seq<string>)
    ensures Bodies(a + b) == Bodies(a) + Bodies(b)
  {
  }

  lemma ParseTextOfParts(a: string, b: string)
    requires WholeLines(a) && a != "" && |a| + |b| <= MAX_PLAYLIST_BYTES
    ensures ParseText(a + b) == ParseLines(Lines(a) + Lines(b))
  {
    LinesAppend(a, b);
    assert Limited(a + b) == a + b;
  }

  lemma InsertedLineIgnored(head: seq<string>, x: string, tail: seq<string>)
    requires head != [] && Irrelevant(Body(x))
    ensures ParseLines(head + [x] + tail) == ParseLines(head + tail)
  {
    var first := head[1..];
    assert (head + [x] + tail)[1..] == first + [x] + tail && (head + tail)[1..] == first + tail;
    BodiesAppend(first + [x], tail);
    BodiesAppend(first, [x]);
    BodiesAppend(first, tail);
    var p := ScanLines(START, Bodies(first));
    ScanSplit(START, Bodies(first) + Bodies([x]), Bodies(tail));
    ScanSplit(START, Bodies(first), Bodies([x]));
    ScanSplit(START, Bodies(first), Bodies(tail));
    if p.Some? {
      assert Bodies([x]) == [Body(x)];
      assert [Body(x)][..0] == [];
      assert ScanLines(p.value, [Body(x)]) == p;
    }
  }

  /** Inserting a blank line or a tag other than EXTINF anywhere after the header, even between a duration and
      its URI, leaves the result as it was. */
  lemma InsertingIrrelevantLineChangesNothing(before: string, line: string, after: string)
    requires WholeLines(before) && before != ""
    requires '\n' !in line && Irrelevant(Body(DropCR(line)))
    requires |before| + |line| + 1 + |after| <= MAX_PLAYLIST_BYTES
    ensures ParseText(before + (line + ['\n']) + after) == ParseText(before + after)
  {
    var x := line + ['\n'];
    assert before + x + after == (before + x) + after;
    assert WholeLines(before + x);
    ParseTextOfParts(before + x, after);
    ParseTextOfParts(before, after);
    LinesAppend(before, x);
    IndexOfAbsent(line, '\n', []);
    assert x == line + ['\n'] + [] && x[..|line|] == line && x[|line| + 1..] == "";
    assert Lines(x) == [DropCR(line)];
    NonEmptyLines(before);
    InsertedLineIgnored(Lines(before), DropCR(line), Lines(after));
  }

  lemma NonEmptyLines(text: string)
    requires text != ""
    ensures Lines(text) != []
  {
  }

  /** A playlist over the limit is not refused once it has a complete line: it is cut after the limit, so a
      line that straddles the limit is read as its first part. */
  lemma OversizeTextIsCut(lines: string, kept: string, lost: string)
    requires WholeLines(lines) && lines != ""
    requires |lines| + |kept| == MAX_PLAYLIST_BYTES + 1
    ensures ParseText(lines + kept + lost) == ParseLines(Lines(lines) + Lines(kept))
  {
    var text := lines + kept + lost;
    assert Limited(text) == lines + kept;
    assert (lines + kept)[|lines| - 1] == '\n';
    LinesAppend(lines, kept);
  }

  /** A playlist is refused for its size if and only if it is over the limit and what fits has no complete line. */
  lemma TooLargeIff(text: string)
    ensures ParseText(text).TooLarge? <==> |text| > MAX_PLAYLIST_BYTES && '\n' !in text[..MAX_PLAYLIST_BYTES + 1]
  {
    if |text| == MAX_PLAYLIST_BYTES + 1 {
      assert text[..MAX_PLAYLIST_BYTES + 1] == text;
    }
  }

  // ----- a text over the limit that is read -----

  function Newlines(k: nat): (s: string)
    ensures |s| == k && WholeLines(s)
  {
    if k == 0 then "" else Newlines(k - 1) + ['\n']
  }

  /** A header, `k` blank lines and a one-second EXTINF. */
  function Opening(k: nat): string { HEADER + ['\n'] + Newlines(k) + (EXTINF + ['1'] + ['\n']) }

  function Blanks(k: nat): (s: seq<string>)
    ensures |s| == k && forall i :: 0 <= i < k ==> s[i] == ""
  {
    if k == 0 then [] else Blanks(k - 1) + [""]
  }

  lemma OneLine(line: string)
    requires '\n' !in line && (line != "" ==> line[|line| - 1] != '\r')
    ensures Lines(line + ['\n']) == [line]
    ensures line != "" ==> Lines(line) == [line]
  {
    IndexOfAbsent(line, '\n', []);
    var x := line + ['\n'];
    assert x == line + ['\n'] + [] && x[..|line|] == line && x[|line| + 1..] == "";
  }

  lemma {:induction false} LinesOfNewlines(k: nat)
    ensures Lines(Newlines(k)) == Blanks(k)
  {
    if k > 0 {
      LinesOfNewlines(k - 1);
      LinesAppend(Newlines(k - 1), ['\n']);
      OneLine("");
      assert "" + ['\n'] == ['\n'];
    }
  }

  lemma LinesOfOpening(k: nat)
    ensures WholeLines(Opening(k)) && Opening(k) != ""
    ensures Lines(Opening(k)) == [HEADER] + Blanks(k) + [EXTINF + ['1']]
  {
    var a, b, c := HEADER + ['\n'], Newlines(k), EXTINF + ['1'] + ['\n'];
    OneLine(HEADER);
    OneLine(EXTINF + ['1']);
    LinesOfNewlines(k);
    LinesAppend(a, b);
    LinesAppend(a + b, c);
  }

  lemma OneSecond(line: string)
    requires line == EXTINF + ['1']
    ensures IsExtinf(line) && !Irrelevant(line) && ParseMicros(DurationText(line)) == Some(1_000_000)
  {
    var d := ['1'];
    assert line[|EXTINF|..] == d;
    IndexOfAbsent(d, ',', []);
    IndexOfAbsent(d, '.', []);
    assert d[..1] == d;
    assert Whole(d) == d && Fraction(d) == "";
    DigitsAppend([], '1');
    assert [] + ['1'] == d;
    assert DigitsValue(d) == 1;
    DurationIsRead(d);
  }

  lemma {:induction false} BlanksScanAway(k: nat)
    ensures ScanLines(START, Blanks(k)) == Some(START)
  {
    if k > 0 {
      BlanksScanAway(k - 1);
    }
  }

  lemma PairScans(p: Scan, extinf: string, uri: string)
    requires p == START && extinf == EXTINF + ['1']
    requires uri != "" && uri[0] != '#' && ValidUri(uri)
    ensures ScanLines(p, [extinf, uri]) == Some(Scan(None, true, [Segment(uri, 1_000_000)]))
  {
    OneSecond(extinf);
    assert [extinf, uri][..1] == [extinf] && [extinf][..0] == [];
    assert ScanLines(p, [extinf]) == Some(Scan(Some(1_000_000), true, []));
    var q := Scan(Some(1_000_000), true, []);
    assert !IsExtinf(uri) by {
      assert EXTINF[0] == '#';
    }
    assert q.segments + [Segment(uri, 1_000_000)] == [Segment(uri, 1_000_000)];
    assert ScanLine(q, uri) == Some(Scan(None, true, [Segment(uri, 1_000_000)]));
  }

  lemma BodiesAreLines(lines: seq<string>)
    requires forall i :: 0 <= i < |lines| ==> lines[i] == "" || lines[i][|lines[i]| - 1] != '\r'
    ensures Bodies(lines) == lines
  {
  }

  lemma OpeningParses(k: nat, extinf: string, uri: string)
    requires extinf == EXTINF + ['1'] && uri != "" && uri[0] != '#' && ValidUri(uri)
    ensures ParseLines([HEADER] + (Blanks(k) + [extinf, uri])) == Parsed([Segment(uri, 1_000_000)])
  {
    var rest := Blanks(k) + [extinf, uri];
    assert ([HEADER] + rest)[1..] == rest;
    BodiesAreLines(rest);
    BlanksScanAway(k);
    ScanSplit(START, Blanks(k), [extinf, uri]);
    PairScans(START, extinf, uri);
  }

  lemma CutInsideLine(opening: string, lines: seq<string>, kept: string, lost: string)
    requires WholeLines(opening) && opening != "" && Lines(opening) == lines
    requires kept != "" && ValidUri(kept) && |opening| + |kept| == MAX_PLAYLIST_BYTES + 1
    ensures ParseText(opening + kept + lost) == ParseLines(lines + [kept])
  {
    OversizeTextIsCut(opening, kept, lost);
    assert '\n' !in kept;
    OneLine(kept);
  }

  lemma SameLines(lines: seq<string>, k: nat, extinf: string, uri: string)
    requires lines == [HEADER] + Blanks(k) + [extinf]
    ensures lines + [uri] == [HEADER] + (Blanks(k) + [extinf, uri])
  {
  }

  /** A playlist over the limit whose last URI straddles it is read, with the first part of that URI as the
      identity of the segment. */
  lemma OversizeTextIsRead(k: nat, kept: string, lost: string)
    requires kept != "" && kept[0] != '#' && ValidUri(kept)
    requires |Opening(k)| + |kept| == MAX_PLAYLIST_BYTES + 1
    ensures ParseText(Opening(k) + kept + lost) == Parsed([Segment(kept, 1_000_000)])
  {
    var opening, extinf := Opening(k), EXTINF + ['1'];
    LinesOfOpening(k);
    var lines := Lines(opening);
    CutInsideLine(opening, lines, kept, lost);
    SameLines(lines, k, extinf, kept);
    OpeningParses(k, extinf, kept);
  }

  /** Such a text: its only URI is "segment.ts", and the segment metered is "s". */
  lemma OversizeTextExists() returns (text: string)
    ensures |text| > MAX_PLAYLIST_BYTES + 1 && ParseText(text) == Parsed([Segment("s", 1_000_000)])
  {
    var k: nat := MAX_PLAYLIST_BYTES - 18;
    var kept, lost := "s", "egment.ts";
    assert |HEADER| == 7 && |EXTINF| == 8;
    assert |Opening(k)| == k + 18;
    OversizeTextIsRead(k, kept, lost);
    text := Opening(k) + kept + lost;
  }

  // ----- pairs -----

  /** All EXTINF/URI pairs, repetitions included, with the duration still waiting for a URI. */
  function PairLine(p: Scan, line: string): Option<Scan>
  {
    if Irrelevant(line) then Some(p)
    else if IsExtinf(line) then
      var duration := ParseMicros(DurationText(line));
      if p.pending.Some? || duration.None? then None else Some(Scan(duration, true, p.segments))
    else if p.pending.None? then Some(p)
    else if !ValidUri(line) then None
    else Some(Scan(None, p.media, p.segments + [Segment(line, p.pending.value)]))
  }

  function PairLines(lines: seq<string>): Option<Scan>
  {
    if lines == [] then Some(START)
    else
      var front := PairLines(lines[..|lines| - 1]);
      if front.None? then None else PairLine(front.value, lines[|lines| - 1])
  }

  /** No URI is paired with two different durations. */
  ghost predicate Consistent(pairs: seq<Segment>)
  {
    forall i, j :: 0 <= i < j < |pairs| && pairs[i].uri == pairs[j].uri ==> pairs[i].micros == pairs[j].micros
  }

  lemma ObservedInPrefix(a: seq<Segment>, b: seq<Segment>, n: nat, uri: string)
    requires n <= |a|
    ensures ObservedBefore(a + b, n, uri) <==> ObservedBefore(a, n, uri)
  {
    assert forall j :: 0 <= j < n ==> (a + b)[j] == a[j];
  }

  lemma {:induction false} FirstObservationsOfPrefix(a: seq<Segment>, b: seq<Segment>, n: nat)
    requires n <= |a|
    ensures FirstObservations(a + b, n) == FirstObservations(a, n)
  {
    if n > 0 {
      FirstObservationsOfPrefix(a, b, n - 1);
      assert (a + b)[n - 1] == a[n - 1];
      ObservedInPrefix(a, b, n - 1, a[n - 1].uri);
    }
  }

  lemma ObservedOneMore(pairs: seq<Segment>, n: nat, uri: string)
    requires 0 < n <= |pairs|
    ensures ObservedBefore(pairs, n, uri) <==> ObservedBefore(pairs, n - 1, uri) || pairs[n - 1].uri == uri
  {
  }

  ghost predicate AlwaysLasts(pairs: seq<Segment>, uri: string, micros: nat)
  {
    forall j :: 0 <= j < |pairs| && pairs[j].uri == uri ==> pairs[j].micros == micros
  }

  lemma ConsistentLasts(pairs: seq<Segment>, i: nat)
    requires Consistent(pairs) && i < |pairs|
    ensures AlwaysLasts(pairs, pairs[i].uri, pairs[i].micros)
  {
    forall j | 0 <= j < |pairs| && pairs[j].uri == pairs[i].uri ensures pairs[j].micros == pairs[i].micros {
      if j < i {
        assert pairs[j].micros == pairs[i].micros;
      } else if i < j {
        assert pairs[i].micros == pairs[j].micros;
      }
    }
  }

  /** Looking a URI up among the first observations finds exactly the URIs that occur, with their duration. */
  lemma {:induction false} FindFirst(pairs: seq<Segment>, n: nat, uri: string)
    requires n <= |pairs| && Consistent(pairs)
    ensures var found := Find(FirstObservations(pairs, n), uri);
            (found.Some? <==> ObservedBefore(pairs, n, uri)) && (found.Some? ==> AlwaysLasts(pairs, uri, found.value))
  {
    if n > 0 {
      FindFirst(pairs, n - 1, uri);
      ObservedOneMore(pairs, n, uri);
      ConsistentLasts(pairs, n - 1);
      FindAppend(FirstObservations(pairs, n - 1), pairs[n - 1]);
    }
  }

  lemma {:induction false} FirstObservationsDistinct(pairs: seq<Segment>, n: nat)
    requires n <= |pairs|
    ensures Distinct(Uris(FirstObservations(pairs, n)))
  {
    if n > 0 {
      FirstObservationsDistinct(pairs, n - 1);
      FirstObservationsCoverAll(pairs, n - 1, pairs[n - 1].uri);
      OneMoreObservation(FirstObservations(pairs, n - 1), pairs[n - 1]);
    }
  }

  ghost function Deduplicated(q: Option<Scan>): Option<Scan>
  {
    if q.None? || !Consistent(q.value.segments) then None
    else Some(q.value.(segments := FirstObservations(q.value.segments, |q.value.segments|)))
  }

  lemma AppendPair(pairs: seq<Segment>, s: Segment)
    requires Consistent(pairs)
    ensures var found := Find(FirstObservations(pairs, |pairs|), s.uri);
            var all := pairs + [s];
            && (Consistent(all) <==> found.None? || found == Some(s.micros))
            && FirstObservations(all, |all|)
               == FirstObservations(pairs, |pairs|) + if found.None? then [s] else []
  {
    var all, n := pairs + [s], |pairs|;
    var found := Find(FirstObservations(pairs, n), s.uri);
    FindFirst(pairs, n, s.uri);
    FirstObservationsOfPrefix(pairs, [s], n);
    ObservedInPrefix(pairs, [s], n, s.uri);
    assert all[n] == s && forall j :: 0 <= j < n ==> all[j] == pairs[j];
    ConsistentOneMore(pairs, s);
    if found.Some? {
      var j :| 0 <= j < n && pairs[j].uri == s.uri;
      assert pairs[j].micros == found.value;
    }
  }

  lemma ConsistentOneMore(pairs: seq<Segment>, s: Segment)
    requires Consistent(pairs)
    ensures Consistent(pairs + [s]) <==> AlwaysLasts(pairs, s.uri, s.micros)
  {
    var all, n := pairs + [s], |pairs|;
    assert all[n] == s && forall j :: 0 <= j < n ==> all[j] == pairs[j];
    if Consistent(all) {
      forall j | 0 <= j < n && pairs[j].uri == s.uri ensures pairs[j].micros == s.micros {
        assert all[j].micros == all[n].micros;
      }
    }
  }

  /** The parser accepts exactly the line sequences whose pairs are well-formed and consistent, and yields the
      first pair of each URI, in order. */
  lemma {:induction false} ScanIsDeduplicatedPairs(lines: seq<string>)
    ensures ScanLines(START, lines) == Deduplicated(PairLines(lines))
  {
    if lines != [] {
      var front, line := lines[..|lines| - 1], lines[|lines| - 1];
      ScanIsDeduplicatedPairs(front);
      var q := PairLines(front);
      if q.Some? && q.value.pending.Some? && !Irrelevant(line) && !IsExtinf(line) && ValidUri(line) {
        var s := Segment(line, q.value.pending.value);
        if Consistent(q.value.segments) {
          AppendPair(q.value.segments, s);
          var first := FirstObservations(q.value.segments, |q.value.segments|);
          assert first + [] == first;
        } else {
          StaysInconsistent(q.value.segments, s);
        }
      }
    }
  }

  lemma StaysInconsistent(pairs: seq<Segment>, s: Segment)
    requires !Consistent(pairs)
    ensures !Consistent(pairs + [s])
  {
    var i, j :| 0 <= i < j < |pairs| && pairs[i].uri == pairs[j].uri && pairs[i].micros != pairs[j].micros;
    var all := pairs + [s];
    assert all[i] == pairs[i] && all[j] == pairs[j];
  }

  /** The URIs of a parsed playlist are distinct and appear in the order first seen. */
  lemma ParsedUrisAreDistinct(lines: seq<string>)
    requires ParseLines(lines).Parsed?
    ensures PairLines(Bodies(lines[1..])).Some?
    ensures var pairs := PairLines(Bodies(lines[1..])).value.segments;
            && Distinct(Uris(ParseLines(lines).segments))
            && ParseLines(lines).segments == FirstObservations(pairs, |pairs|)
  {
    ScanIsDeduplicatedPairs(Bodies(lines[1..]));
    var pairs := PairLines(Bodies(lines[1..])).value.segments;
    FirstObservationsDistinct(pairs, |pairs|);
  }
}
