/** Private ingest stream keys and the media router's publish authorisation (live-runner/media.go).
    Text is a sequence of bytes, each modelled as a character below 256. */
module LiveMedia {
  import opened Text
  import opened LiveRecord
  import opened LiveOps

  predicate IsByte(c: char) { c as int < 256 }

  // ----- query escaping, as net/url does it for one query component -----

  predicate Unreserved(c: char) { IsAlphanumeric(c) || c == '-' || c == '_' || c == '.' || c == '~' }

  function HexDigit(v: nat): (c: char)
    requires v < 16
    ensures IsAlphanumeric(c) && HexValue(c) == Some(v)
  {
    if v < 10 then DigitChar(v) else ('A' as int + v - 10) as char
  }

  function HexValue(c: char): Option<nat>
  {
    if IsDigit(c) then Some(DigitValue(c))
    else if 'A' <= c <= 'F' then Some(c as int - 'A' as int + 10)
    else if 'a' <= c <= 'f' then Some(c as int - 'a' as int + 10)
    else None
  }

  function EscapeByte(c: char): string
    requires IsByte(c)
  {
    if Unreserved(c) then [c]
    else if c == ' ' then ['+']
    else ['%', HexDigit(c as int / 16), HexDigit(c as int % 16)]
  }

  function QueryEscape(s: string): string
    requires forall i :: 0 <= i < |s| ==> IsByte(s[i])
  {
    if s == [] then [] else EscapeByte(s[0]) + QueryEscape(s[1..])
  }

  function QueryUnescape(s: string): Option<string>
  {
    if s == [] then Some([])
    else if s[0] == '%' then
      if |s| < 3 || HexValue(s[1]).None? || HexValue(s[2]).None? then None
      else
        var rest := QueryUnescape(s[3..]);
        if rest.None? then None
        else Some([(16 * HexValue(s[1]).value + HexValue(s[2]).value) as char] + rest.value)
    else
      var rest := QueryUnescape(s[1..]);
      if rest.None? then None else Some([if s[0] == '+' then ' ' else s[0]] + rest.value)
  }

  lemma {:induction false} UnescapeEscape(s: string)
    requires forall i :: 0 <= i < |s| ==> IsByte(s[i])
    ensures QueryUnescape(QueryEscape(s)) == Some(s)
    ensures forall c :: c in QueryEscape(s) ==> Unreserved(c) || c == '+' || c == '%'
  {
    if s != [] {
      var head, rest := EscapeByte(s[0]), QueryEscape(s[1..]);
      UnescapeEscape(s[1..]);
      assert (head + rest)[|head|..] == rest;
      assert [s[0]] + s[1..] == s;
    }
  }

  // ----- queries -----

  /** One name=value pair of a query; None when the pair is malformed. */
  function ParsePair(piece: string): Option<(string, string)>
  {
    if ';' in piece then None
    else
      var i := IndexOf(piece, '=');
      var name := QueryUnescape(piece[..i]);
      var value := QueryUnescape(if i < |piece| then piece[i + 1..] else []);
      if name.None? || value.None? then None else Some((name.value, value.value))
  }

  /** url.ParseQuery: empty pieces are skipped, one malformed piece fails the whole query. */
  function ParsePairs(pieces: seq<string>): Option<seq<(string, string)>>
  {
    if pieces == [] then Some([])
    else
      var rest := ParsePairs(pieces[1..]);
      if pieces[0] == "" then rest
      else if rest.None? || ParsePair(pieces[0]).None? then None
      else Some([ParsePair(pieces[0]).value] + rest.value)
  }

  // ----- stream keys -----

  function IngestPath(runner: string): string { "ingest/" + runner }

  const MAX_INGEST_SECRET: nat := 256

  function TokenName(): (name: string)
    ensures |name| == 5 && forall i :: 0 <= i < |name| ==> IsAlphanumeric(name[i])
  {
    "token"
  }

  function BuildStreamKey(runner: string, secret: string): Option<string>
    requires forall i :: 0 <= i < |secret| ==> IsByte(secret[i])
  {
    if !OpaqueId(runner) || secret == "" || |secret| > MAX_INGEST_SECRET || '\r' in secret || '\n' in secret then None
    else Some(runner + ['?'] + TokenName() + ['='] + QueryEscape(secret))
  }

  datatype StreamKey = StreamKey(path: string, token: string)

  function ParseStreamKey(key: string): Option<StreamKey>
  {
    var i := IndexOf(key, '?');
    if i == |key| then None
    else
      var runner := key[..i];
      var query := ParsePairs(Split(key[i + 1..], '&'));
      if !OpaqueId(runner) || query.None? || |query.value| != 1 || query.value[0].0 != TokenName()
          || query.value[0].1 == ""
      then None
      else Some(StreamKey(IngestPath(runner), query.value[0].1))
  }

  lemma UnescapePlain(s: string)
    requires forall i :: 0 <= i < |s| ==> IsAlphanumeric(s[i])
    ensures QueryUnescape(s) == Some(s)
  {
    if s != [] {
      UnescapePlain(s[1..]);
      assert [s[0]] + s[1..] == s;
    }
  }

  ghost predicate AllBytes(s: string) { forall i :: 0 <= i < |s| ==> IsByte(s[i]) }

  ghost predicate PlainPiece(s: string) { forall i :: 0 <= i < |s| ==> s[i] != '&' && s[i] != ';' }

  lemma EscapedIsPlain(s: string)
    requires AllBytes(s)
    ensures PlainPiece(QueryEscape(s))
  {
    UnescapeEscape(s);
    var e := QueryEscape(s);
    forall i | 0 <= i < |e| ensures e[i] != '&' && e[i] != ';' {
      assert e[i] in e;
    }
  }

  lemma PairOfParts(name: string, escaped: string, value: string)
    requires QueryUnescape(name) == Some(name) && QueryUnescape(escaped) == Some(value)
    requires '=' !in name && PlainPiece(name) && PlainPiece(escaped)
    ensures ParsePair(name + ['='] + escaped) == Some((name, value))
    ensures PlainPiece(name + ['='] + escaped)
  {
    var piece := name + ['='] + escaped;
    IndexOfAbsent(name, '=', escaped);
    assert piece[..|name|] == name && piece[|name| + 1..] == escaped;
  }

  lemma PairParses(name: string, value: string)
    requires AllBytes(value) && forall i :: 0 <= i < |name| ==> IsAlphanumeric(name[i])
    ensures ParsePair(name + ['='] + QueryEscape(value)) == Some((name, value))
    ensures PlainPiece(name + ['='] + QueryEscape(value))
  {
    UnescapeEscape(value);
    EscapedIsPlain(value);
    UnescapePlain(name);
    PairOfParts(name, QueryEscape(value), value);
  }

  lemma SinglePairQuery(piece: string, pair: (string, string))
    requires piece != "" && PlainPiece(piece) && ParsePair(piece) == Some(pair)
    ensures ParsePairs(Split(piece, '&')) == Some([pair])
  {
    IndexOfAbsent(piece, '&', []);
    var pieces := Split(piece, '&');
    assert pieces == [piece] && pieces[1..] == [];
    assert ParsePairs([]) == Some([]);
    assert [pair] + [] == [pair];
  }

  lemma CutKey(runner: string, piece: string)
    requires OpaqueId(runner)
    ensures var key := runner + ['?'] + piece;
            IndexOf(key, '?') == |runner| && key[..|runner|] == runner && key[|runner| + 1..] == piece
  {
    assert '?' !in runner;
    IndexOfAbsent(runner, '?', piece);
  }

  /** Parsing an issued stream key gives back the session's ingest path and the secret, for every session
      identity and every admissible secret. */
  lemma StreamKeyRoundTrip(runner: string, secret: string)
    requires AllBytes(secret) && BuildStreamKey(runner, secret).Some?
    ensures ParseStreamKey(BuildStreamKey(runner, secret).value) == Some(StreamKey(IngestPath(runner), secret))
  {
    var piece := TokenName() + ['='] + QueryEscape(secret);
    assert BuildStreamKey(runner, secret).value == runner + ['?'] + piece;
    CutKey(runner, piece);
    PairParses(TokenName(), secret);
    SinglePairQuery(piece, (TokenName(), secret));
  }

  /** Whether the router may admit an RTMP publisher on `path` with `token` (the ingest-publish case of Authorize). */
  predicate MayPublish(r: Record, path: string, token: string, now: int)
  {
    && Open(r) && r.secrets.Some?
    && r.lifecycle.pendingActivation.None?
    && var s := r.secrets.value;
       && s.currentKey in s.keys
       && var a := s.keys[s.currentKey].response;
          && now < a.expiresAt
          && ParseStreamKey(a.streamKey) == Some(StreamKey(path, token))
  }
}
