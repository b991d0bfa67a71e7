/** The media-playlist parser: complete EXTINF/URI pairs of a playlist text, without repetition
    (ParseFinalizedHLSSegmentsV1 in live-runner/metering.go; sections 4.3.1.1 and 4.3.2.1 of RFC 8216).
    Text is a sequence of bytes, each modelled as a character below 256. */
module HlsPlaylist {
  import opened Text
  import opened LiveOps
  import opened HlsDuration

  const MAX_PLAYLIST_BYTES: nat := 1_048_576
  const MAX_URI_BYTES: nat := 2048
  const HEADER := "#EXTM3U"
  const EXTINF := "#EXTINF:"
  const BYTE_ORDER_MARK := ['\U{EF}', '\U{BB}', '\U{BF}']

  datatype Result = Parsed(segments: seq<Segment>) | TooLarge | Malformed

  // ----- lines -----

  function DropCR(line: string): string
  {
    if line != "" && line[|line| - 1] == '\r' then line[..|line| - 1] else line
  }

  /** The lines a line scanner yields: split at newlines, one trailing carriage return dropped, and no empty
      line after the last newline. */
  function Lines(text: string): seq<string>
    decreases |text|
  {
    if text == "" then []
    else
      var i := IndexOf(text, '\n');
      if i == |text| then [DropCR(text)] else [DropCR(text[..i])] + Lines(text[i + 1..])
  }

  // ----- one line at a time -----

  /** The parser's variables: a duration that waits for its URI, whether any EXTINF was seen, the segments. */
  datatype Scan = Scan(pending: Option<nat>, media: bool, segments: seq<Segment>)

  const START := Scan(None, false, [])

  predicate IsExtinf(line: string) { EXTINF <= line }

  predicate IsComment(line: string) { line != "" && line[0] == '#' && !IsExtinf(line) }

  /** Lines that carry nothing: blank ones and every tag or comment but EXTINF. */
  predicate Irrelevant(line: string) { line == "" || IsComment(line) }

  function DurationText(line: string): string
    requires IsExtinf(line)
  {
    var raw := line[|EXTINF|..];
    raw[..IndexOf(raw, ',')]
  }

  predicate ValidUri(line: string)
  {
    |line| <= MAX_URI_BYTES && forall i :: 0 <= i < |line| ==> line[i] != '\0' && line[i] != '\r' && line[i] != '\n'
  }

  function Find(segments: seq<Segment>, uri: string): Option<nat>
  {
    if segments == [] then None
    else if segments[|segments| - 1].uri == uri then Some(segments[|segments| - 1].micros)
    else Find(segments[..|segments| - 1], uri)
  }

  function ScanLine(p: Scan, line: string): Option<Scan>
  {
    if Irrelevant(line) then Some(p)
    else if IsExtinf(line) then
      var duration := ParseMicros(DurationText(line));
      if p.pending.Some? || duration.None? then None else Some(Scan(duration, true, p.segments))
    else if p.pending.None? then Some(p)
    else if !ValidUri(line) then None
    else
      var previous := Find(p.segments, line);
      if previous.None? then Some(Scan(None, p.media, p.segments + [Segment(line, p.pending.value)]))
      else if previous == p.pending then Some(Scan(None, p.media, p.segments))
      else None
  }

  function ScanLines(p: Scan, lines: seq<string>): Option<Scan>
  {
    if lines == [] then Some(p)
    else
      var front := ScanLines(p, lines[..|lines| - 1]);
      if front.None? then None else ScanLine(front.value, lines[|lines| - 1])
  }

  /** The bytes of a line proper: a second trailing carriage return goes too. */
  function Body(line: string): string { DropCR(line) }

  function Bodies(lines: seq<string>): seq<string>
  {
    seq(|lines|, i requires 0 <= i < |lines| => Body(lines[i]))
  }

  predicate IsHeader(line: string)
  {
    var text := Body(line);
    text == HEADER || text == BYTE_ORDER_MARK + HEADER
  }

  function ParseLines(lines: seq<string>): Result
  {
    if lines == [] || !IsHeader(lines[0]) then Malformed
    else
      var scan := ScanLines(START, Bodies(lines[1..]));
      if scan.None? || !scan.value.media || scan.value.pending.Some? then Malformed else Parsed(scan.value.segments)
  }

  function Limited(text: string): string
  {
    if |text| > MAX_PLAYLIST_BYTES + 1 then text[..MAX_PLAYLIST_BYTES + 1] else text
  }

  /** A reader limited to one byte more than the limit, and a scanner whose buffer is as large as that. */
  function ParseText(text: string): Result
  {
    var read := Limited(text);
    if |read| == MAX_PLAYLIST_BYTES + 1 && '\n' !in read then TooLarge else ParseLines(Lines(read))
  }

  // ----- the loop -----

  method ParsePlaylist(text: string) returns (result: Result)
    ensures result == ParseText(text)
  {
    var read := Limited(text);
    if |read| == MAX_PLAYLIST_BYTES + 1 && '\n' !in read {
      return TooLarge;
    }
    var lines := Lines(read);
    if |lines| == 0 || !IsHeader(lines[0]) {
      return Malformed;
    }
    ghost var bodies := Bodies(lines[1..]);
    var media, pendingDuration, hasPendingDuration := false, 0, false;
    var seen: map<string, nat> := map[];
    var segments: seq<Segment> := [];
    for n := 1 to |lines|
      invariant ScanLines(START, bodies[..n - 1])
                == Some(Scan(if hasPendingDuration then Some(pendingDuration) else None, media, segments))
      invariant forall uri :: Find(segments, uri) == if uri in seen then Some(seen[uri]) else None
    {
      var line := Body(lines[n]);
      assert bodies[..n][..n - 1] == bodies[..n - 1] && bodies[n - 1] == line;
      if line == "" || IsComment(line) {
        continue;
      }
      if IsExtinf(line) {
        var duration := ParseMicros(DurationText(line));
        if hasPendingDuration || duration.None? {
          FailurePropagates(START, bodies, n);
          return Malformed;
        }
        media := true;
        pendingDuration, hasPendingDuration := duration.value, true;
        continue;
      }
      if !hasPendingDuration {
        continue;
      }
      if !ValidUri(line) {
        FailurePropagates(START, bodies, n);
        return Malformed;
      }
      if line in seen {
        if seen[line] != pendingDuration {
          FailurePropagates(START, bodies, n);
          return Malformed;
        }
      } else {
        seen := seen[line := pendingDuration];
        FindAppend(segments, Segment(line, pendingDuration));
        segments := segments + [Segment(line, pendingDuration)];
      }
      hasPendingDuration := false;
    }
    assert bodies[..|bodies|] == bodies;
    if !media || hasPendingDuration {
      return Malformed;
    }
    return Parsed(segments);
  }

  lemma FindAppend(segments: seq<Segment>, s: Segment)
    ensures forall uri :: Find(segments + [s], uri) == if uri == s.uri then Some(s.micros) else Find(segments, uri)
  {
    assert (segments + [s])[..|segments|] == segments;
  }

  lemma {:induction false} FailurePropagates(p: Scan, lines: seq<string>, k: nat)
    requires k <= |lines| && ScanLines(p, lines[..k]).None?
    ensures ScanLines(p, lines).None?
    decreases |lines| - k
  {
    if k == |lines| {
      assert lines[..k] == lines;
    } else {
      assert lines[..k + 1][..k] == lines[..k];
      FailurePropagates(p, lines, k + 1);
    }
  }
}
