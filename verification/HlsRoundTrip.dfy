/** Playlists as packagers write them, written out and read back (live-runner/metering.go; sections 4.3.1.1 and
    4.3.2.1 of RFC 8216). */
module HlsRoundTrip {
  import opened Text
  import opened LiveOps
  import opened LiveTheorems
  import opened HlsDuration
  import opened HlsPlaylist
  import opened HlsTheorems

  /** One media segment: a decimal duration, a title for humans, and the URI. */
  datatype Entry = Entry(duration: string, title: string, uri: string)

  predicate OneLineText(s: string) { forall i :: 0 <= i < |s| ==> s[i] != '\n' && s[i] != '\r' }

  ghost predicate Writable(e: Entry)
  {
    && IsDecimal(e.duration) && 0 < ExactMicros(e.duration) < TWO_POW_64
    && OneLineText(e.title)
    && 0 < |e.uri| <= 2048 && e.uri[0] != '#' && OneLineText(e.uri) && '\0' !in e.uri
  }

  function InfoLine(e: Entry): string { EXTINF + (e.duration + [','] + e.title) }

  function EntryText(e: Entry): string { InfoLine(e) + ['\n'] + (e.uri + ['\n']) }

  function Body(entries: seq<Entry>): string
  {
    if entries == [] then "" else Body(entries[..|entries| - 1]) + EntryText(entries[|entries| - 1])
  }

  function PlaylistText(entries: seq<Entry>): string { HEADER + ['\n'] + Body(entries) }

  function EntryLines(entries: seq<Entry>): seq<string>
  {
    if entries == [] then []
    else
      var last := entries[|entries| - 1];
      EntryLines(entries[..|entries| - 1]) + [InfoLine(last), last.uri]
  }

  /** What the entries denote: their URIs with the exact microseconds of their decimals. */
  ghost function Denoted(entries: seq<Entry>): (segments: seq<Segment>)
    requires AllWritable(entries)
    ensures |segments| == |entries|
    ensures forall i :: 0 <= i < |entries| ==>
              Writable(entries[i]) && segments[i] == Segment(entries[i].uri, ExactMicros(entries[i].duration))
  {
    if entries == [] then []
    else
      var last := entries[|entries| - 1];
      Denoted(entries[..|entries| - 1]) + [Segment(last.uri, ExactMicros(last.duration))]
  }

  lemma DecimalIsPlain(d: string)
    requires IsDecimal(d)
    ensures ',' !in d && OneLineText(d)
  {
    var i := IndexOf(d, '.');
    forall k | 0 <= k < |d| ensures IsDigit(d[k]) || d[k] == '.' {
      if k < i {
        assert d[k] == Whole(d)[k];
      } else if k > i {
        assert d[k] == Fraction(d)[k - i - 1];
      }
    }
  }

  /** The duration ends at the comma, whatever the title says. */
  lemma CommaEndsDuration(e: Entry)
    requires ',' !in e.duration
    ensures IsExtinf(InfoLine(e)) && !Irrelevant(InfoLine(e)) && DurationText(InfoLine(e)) == e.duration
  {
    var raw := e.duration + [','] + e.title;
    assert InfoLine(e)[|EXTINF|..] == raw;
    IndexOfAbsent(e.duration, ',', e.title);
    assert raw[..|e.duration|] == e.duration;
  }

  lemma InfoLineIsOneLine(e: Entry)
    requires Writable(e)
    ensures OneLineText(InfoLine(e)) && InfoLine(e) != ""
  {
    DecimalIsPlain(e.duration);
    var rest := e.duration + [','] + e.title;
    assert OneLineText(rest);
    assert OneLineText(EXTINF);
    assert forall i :: 0 <= i < |InfoLine(e)| ==>
        InfoLine(e)[i] == if i < |EXTINF| then EXTINF[i] else rest[i - |EXTINF|];
  }

  lemma ExactDuration(d: string)
    requires IsDecimal(d) && 0 < ExactMicros(d) < TWO_POW_64
    ensures ParseMicros(d) == Some(ExactMicros(d))
  {
    DurationIsRead(d);
    ModIsExact(ExactMicros(d), TWO_POW_64);
    WholeIsSmall(DigitsValue(Whole(d)), ExactMicros(d));
  }

  lemma WholeIsSmall(seconds: nat, micros: nat)
    requires seconds * 1_000_000 <= micros < TWO_POW_64
    ensures seconds < TWO_POW_58
  {
  }

  lemma TextLine(line: string)
    requires OneLineText(line)
    ensures Lines(line + ['\n']) == [line] && HlsPlaylist.Body(line) == line
  {
    OneLine(line);
  }

  lemma EntryTextLines(e: Entry)
    requires Writable(e)
    ensures WholeLines(EntryText(e)) && Lines(EntryText(e)) == [InfoLine(e), e.uri]
  {
    InfoLineIsOneLine(e);
    assert OneLineText(e.uri);
    TextLine(InfoLine(e));
    TextLine(e.uri);
    LinesAppend(InfoLine(e) + ['\n'], e.uri + ['\n']);
  }

  ghost predicate AllWritable(entries: seq<Entry>) { forall i :: 0 <= i < |entries| ==> Writable(entries[i]) }

  lemma {:induction false} BodyLines(entries: seq<Entry>)
    requires AllWritable(entries)
    ensures WholeLines(Body(entries)) && Lines(Body(entries)) == EntryLines(entries)
    ensures forall i :: 0 <= i < |EntryLines(entries)| ==> OneLineText(EntryLines(entries)[i])
  {
    if entries != [] {
      var front, last := entries[..|entries| - 1], entries[|entries| - 1];
      BodyLines(front);
      EntryTextLines(last);
      InfoLineIsOneLine(last);
      LinesAppend(Body(front), EntryText(last));
    }
  }

  lemma PairOfEntry(p: Scan, e: Entry)
    requires Writable(e) && p.pending.None?
    ensures var q := PairLine(p, InfoLine(e));
            && q == Some(Scan(Some(ExactMicros(e.duration)), true, p.segments))
            && PairLine(q.value, e.uri) ==
                Some(Scan(None, true, p.segments + [Segment(e.uri, ExactMicros(e.duration))]))
  {
    DecimalIsPlain(e.duration);
    CommaEndsDuration(e);
    ExactDuration(e.duration);
    assert EXTINF[0] == '#';
  }

  lemma PairLinesTwoMore(lines: seq<string>, a: string, b: string)
    requires PairLines(lines).Some?
    ensures PairLines(lines + [a, b]) ==
              var q := PairLine(PairLines(lines).value, a); if q.None? then None else PairLine(q.value, b)
  {
    var all := lines + [a, b];
    assert all[..|all| - 1] == lines + [a] && (lines + [a])[..|lines|] == lines;
  }

  lemma {:induction false} PairsOfEntries(entries: seq<Entry>)
    requires AllWritable(entries)
    ensures PairLines(EntryLines(entries)) == Some(Scan(None, entries != [], Denoted(entries)))
  {
    if entries != [] {
      var front, last := entries[..|entries| - 1], entries[|entries| - 1];
      PairsOfEntries(front);
      PairLinesTwoMore(EntryLines(front), InfoLine(last), last.uri);
      PairOfEntry(PairLines(EntryLines(front)).value, last);
    }
  }

  lemma PlaylistLines(entries: seq<Entry>)
    requires AllWritable(entries)
    ensures Lines(PlaylistText(entries)) == [HEADER] + EntryLines(entries)
  {
    assert OneLineText(HEADER);
    TextLine(HEADER);
    BodyLines(entries);
    LinesAppend(HEADER + ['\n'], Body(entries));
  }

  lemma EntriesScan(entries: seq<Entry>)
    requires AllWritable(entries)
    ensures ScanLines(START, EntryLines(entries)) ==
              if !Consistent(Denoted(entries)) then None
              else Some(Scan(None, entries != [], FirstObservations(Denoted(entries), |entries|)))
  {
    PairsOfEntries(entries);
    ScanIsDeduplicatedPairs(EntryLines(entries));
  }

  lemma EntryBodies(entries: seq<Entry>)
    requires AllWritable(entries)
    ensures Bodies(EntryLines(entries)) == EntryLines(entries)
  {
    BodyLines(entries);
    BodiesAreLines(EntryLines(entries));
  }

  lemma ParseHeaded(rest: seq<string>, scan: Option<Scan>)
    requires Bodies(rest) == rest && ScanLines(START, rest) == scan
    ensures ParseLines([HEADER] + rest) ==
              if scan.None? || !scan.value.media || scan.value.pending.Some? then Malformed
              else Parsed(scan.value.segments)
  {
    assert ([HEADER] + rest)[1..] == rest;
  }

  /** Written out and read back: within the limit, a playlist yields the URIs of its entries in first-seen order, each
      with the exact microseconds of its decimal, whatever the titles say; it is refused exactly when it is empty or
      gives one URI two durations. */
  lemma PlaylistRoundTrip(entries: seq<Entry>)
    requires AllWritable(entries) && |PlaylistText(entries)| <= MAX_PLAYLIST_BYTES
    ensures ParseText(PlaylistText(entries)) ==
              if entries == [] || !Consistent(Denoted(entries)) then Malformed
              else Parsed(FirstObservations(Denoted(entries), |entries|))
  {
    PlaylistLines(entries);
    EntryBodies(entries);
    EntriesScan(entries);
    ParseHeaded(EntryLines(entries), ScanLines(START, EntryLines(entries)));
  }

  /** A byte order mark before the header is nothing. */
  lemma ByteOrderMarkIsIgnored(rest: seq<string>)
    ensures ParseLines([BYTE_ORDER_MARK + HEADER] + rest) == ParseLines([HEADER] + rest)
  {
    var marked := BYTE_ORDER_MARK + HEADER;
    assert ([marked] + rest)[1..] == rest == ([HEADER] + rest)[1..];
    assert marked[|marked| - 1] == HEADER[|HEADER| - 1] == 'U';
  }

  /** Lines may end in a carriage return and a newline. */
  lemma CarriageReturnIsDropped(line: string)
    requires OneLineText(line)
    ensures Lines(line + ['\r'] + ['\n']) == [line]
  {
    var full := line + ['\r'];
    assert '\n' !in full;
    IndexOfAbsent(full, '\n', []);
    assert full + ['\n'] == full + ['\n'] + [] && (full + ['\n'])[..|full|] == full
        && (full + ['\n'])[|full| + 1..] == "";
    assert full[..|full| - 1] == line;
  }

  /** A URI that is too long or contains a NUL, a duration without a URI before the next, and one without a URI at the
      end are all refused, whatever else the playlist holds. */
  lemma UnpairedIsRefused(before: seq<string>, line: string, after: seq<string>)
    requires ScanLines(START, before).Some? && ScanLines(START, before).value.pending.Some? && !Irrelevant(line)
    requires IsExtinf(line) || |line| > 2048 || '\0' in line
    ensures ScanLines(START, before + [line] + after).None?
  {
    var all := before + [line];
    assert all[..|before|] == before;
    assert ScanLines(START, all).None?;
    ScanSplit(START, all, after);
  }

  lemma DanglingIsRefused(lines: seq<string>)
    requires lines != [] && ScanLines(START, Bodies(lines[1..])).Some?
    requires ScanLines(START, Bodies(lines[1..])).value.pending.Some?
    ensures ParseLines(lines) == Malformed
  {
  }
}
