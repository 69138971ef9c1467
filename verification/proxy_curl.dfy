/** The Python proxy server's cURL importer (`parse_curl_command` in
    `api_proxy_server.py`). `shlex.split` is an oracle from text to words,
    failing on unbalanced quotes; the token walk, the query split and the
    header split are modelled exactly. */
module ProxyCurl {
  import opened Wrappers
  import opened Strs
  import opened Seqs
  import opened ApiTypes

  /** The server's own request record: no id, name or tests, and an
      optional body. */
  datatype ProxyRequest = ProxyRequest(
    httpMethod: string,
    url: string,
    headers: seq<KeyValuePair>,
    params: seq<KeyValuePair>,
    body: Option<string>)

  /** The `HTTPException` raised for a command the tokenizer rejects; its
      detail text (the tokenizer's own message) is not modelled. */
  datatype HttpError = HttpError(status: nat)

  /** `shlex.split`: the words, or `None` for the `ValueError` it raises. */
  type Shlex = string -> Option<seq<string>>

  /** The defaults before any token is read. */
  const Initial: ProxyRequest := ProxyRequest("GET", "", [], [], None)

  // ------------------------------------------------------ preparation

  /** `curl ` (any case) is dropped only at the very start; nothing is
      trimmed first. */
  function StripPrefix(cmd: string): (r: string)
    ensures |r| <= |cmd|
  {
    if "curl " <= ToLower(cmd) then cmd[5..] else cmd
  }

  /** Backslash-newline continuations become spaces, LF ones first and
      then CR LF ones. */
  function JoinContinuations(s: string): string {
    ReplaceAll(ReplaceAll(s, "\\\n", " "), "\\\r\n", " ")
  }

  /** A one-line command has no continuation to join. */
  lemma JoinContinuationsOneLine(s: string)
    requires '\n' !in s
    ensures JoinContinuations(s) == s
  {
    NoBreakNoPattern(s, "\\\n");
    ReplaceAllAbsent(s, "\\\n", " ");
    NoBreakNoPattern(s, "\\\r\n");
    ReplaceAllAbsent(s, "\\\r\n", " ");
  }

  lemma NoBreakNoPattern(s: string, pat: string)
    requires '\n' !in s && '\n' in pat
    ensures !Contains(s, pat)
  {
  }

  /** What is handed to the tokenizer. */
  function Prepare(cmd: string): string {
    JoinContinuations(StripPrefix(cmd))
  }

  // ---------------------------------------------------- token classes

  predicate IsMethodFlag(t: string) { t == "--request" || t == "-X" }
  predicate IsUrl(t: string) { "http://" <= t || "https://" <= t }
  predicate IsHeaderFlag(t: string) { t == "--header" || t == "-H" }
  predicate IsDataFlag(t: string) {
    t == "--data" || t == "--data-raw" || t == "--data-binary" || t == "-d"
  }
  predicate IsInlineData(t: string) {
    "--data=" <= t || "--data-raw=" <= t || "-d=" <= t
  }

  // ----------------------------------------------------------- pieces

  /** `s.split(c, 1)` when `c` occurs: the text before the first `c` and
      everything after it. */
  function SplitFirst(s: string, c: char): (r: (string, string))
    requires c in s
    ensures c !in r.0 && s == r.0 + [c] + r.1
  {
    var i := IndexOf(s, c);
    assert s == s[..i] + [c] + s[i + 1..];
    (s[..i], s[i + 1..])
  }

  /** A row as the server builds it: no description, enabled. */
  function Row(key: string, value: string): KeyValuePair {
    KeyValuePair(key, value, None, Some(true))
  }

  /** The pairs of one `&`-separated piece list: pieces without `=` are
      dropped, the rest split at their first `=`; nothing is decoded. */
  function PiecePairs(pieces: seq<string>): (r: seq<KeyValuePair>)
    ensures |r| <= |pieces|
    ensures forall i :: 0 <= i < |r| ==> r[i].enabled == Some(true) && '=' !in r[i].key
    decreases |pieces|
  {
    if |pieces| == 0 then []
    else
      (if '=' in pieces[0] then
         var kv := SplitFirst(pieces[0], '=');
         [Row(kv.0, kv.1)]
       else [])
      + PiecePairs(pieces[1..])
  }

  function QueryPairs(q: string): seq<KeyValuePair> {
    PiecePairs(SplitOn(q, '&'))
  }

  // ------------------------------------------------------------- steps

  /** A URL token overwrites the URL; with a `?` the URL is cut there and
      the query's pairs are appended. */
  function UrlStep(st: ProxyRequest, t: string): (r: ProxyRequest)
    ensures '?' !in r.url
    ensures r.(url := st.url, params := st.params) == st
    ensures st.params <= r.params
  {
    if '?' in t then
      var parts := SplitFirst(t, '?');
      st.(url := parts.0, params := st.params + QueryPairs(parts.1))
    else st.(url := t)
  }

  /** A header argument with a colon adds a stripped pair; one without is
      dropped. An empty key is kept. */
  function HeaderStep(st: ProxyRequest, arg: string): (r: ProxyRequest)
    ensures ':' !in arg ==> r == st
    ensures ':' in arg ==> |r.headers| == |st.headers| + 1 && st.headers <= r.headers
    ensures r.(headers := st.headers) == st
  {
    if ':' in arg then
      var kv := SplitFirst(arg, ':');
      st.(headers := st.headers + [Row(PyStrip(kv.0), PyStrip(kv.1))])
    else st
  }

  /** A body is stored verbatim and turns GET into POST. */
  function DataStep(st: ProxyRequest, b: string): (r: ProxyRequest)
    ensures r.body == Some(b) && r.httpMethod != "GET"
    ensures st.httpMethod != "GET" ==> r.httpMethod == st.httpMethod
    ensures r.(body := st.body, httpMethod := st.httpMethod) == st
  {
    st.(body := Some(b), httpMethod := if st.httpMethod == "GET" then "POST" else st.httpMethod)
  }

  /** One iteration of the token loop on the remaining tokens: how many
      tokens it consumes and the updated request. A flag whose argument
      is missing and any unknown token consume only themselves. */
  function Step(ts: seq<string>, st: ProxyRequest): (r: (nat, ProxyRequest))
    requires |ts| > 0
    ensures 1 <= r.0 <= |ts|
  {
    var t := ts[0];
    if IsMethodFlag(t) then
      if |ts| > 1 then (2, st.(httpMethod := ToUpper(ts[1]))) else (1, st)
    else if IsUrl(t) then (1, UrlStep(st, t))
    else if IsHeaderFlag(t) then
      if |ts| > 1 then (2, HeaderStep(st, ts[1])) else (1, st)
    else if IsDataFlag(t) then
      if |ts| > 1 then (2, DataStep(st, ts[1])) else (1, st)
    else if IsInlineData(t) then
      assert '=' in t by {
        if "--data=" <= t { assert t[6] == '='; }
        else if "--data-raw=" <= t { assert t[10] == '='; }
        else { assert t[2] == '='; }
      }
      (1, DataStep(st, SplitFirst(t, '=').1))
    else (1, st)
  }

  /** The whole loop: it consumes at least one token per step, so it ends. */
  function Scan(ts: seq<string>, st: ProxyRequest): ProxyRequest
    decreases |ts|
  {
    if |ts| == 0 then st
    else
      var (n, next) := Step(ts, st);
      Scan(ts[n..], next)
  }

  /** `parse_curl_command`: a tokenizer failure is the HTTP 400 error. */
  function ParseCurlCommand(cmd: string, shlex: Shlex): (r: Result<ProxyRequest, HttpError>)
    ensures r.Failure? <==> shlex(Prepare(cmd)).None?
    ensures r.Failure? ==> r.error.status == 400
    ensures shlex(Prepare(cmd)) == Some([]) ==> r == Success(Initial)
  {
    match shlex(Prepare(cmd))
    case None => Failure(HttpError(400))
    case Some(ts) => Success(Scan(ts, Initial))
  }

  // ------------------------------------------------------------ lemmas

  /** The prefix test is case-insensitive and the continuations are
      joined before tokenizing. */
  lemma PrepareOneLine(x: string)
    requires '\n' !in x
    ensures Prepare("curl " + x) == x
    ensures Prepare("CURL " + x) == x
  {
    JoinContinuationsOneLine(x);
    var c := "curl " + x;
    var d := "CURL " + x;
    assert c[5..] == x && d[5..] == x;
    assert ToLower(c)[..5] == "curl " by {
      assert forall i :: 0 <= i < 5 ==> ToLower(c)[i] == LowerChar(c[i]);
    }
    assert ToLower(d)[..5] == "curl " by {
      assert forall i :: 0 <= i < 5 ==> ToLower(d)[i] == LowerChar(d[i]);
    }
  }

  /** Tokens the loop does not know are skipped, and so is a trailing flag
      that lacks its argument. */
  lemma SkipUnknown(t: string, rest: seq<string>, st: ProxyRequest)
    requires !IsMethodFlag(t) && !IsUrl(t) && !IsHeaderFlag(t) && !IsDataFlag(t) && !IsInlineData(t)
    ensures Scan([t] + rest, st) == Scan(rest, st)
  {
    assert ([t] + rest)[1..] == rest;
  }

  lemma TrailingFlagSkipped(t: string, st: ProxyRequest)
    requires IsMethodFlag(t) || IsHeaderFlag(t) || IsDataFlag(t)
    ensures Scan([t], st) == st
  {
    assert !IsUrl(t) by {
      assert t[0] == '-' && "http://"[0] == 'h' && "https://"[0] == 'h';
    }
    assert Step([t], st) == (1, st);
    assert [t][1..] == [];
  }

  /** The loop after one step. */
  lemma ScanStep(ts: seq<string>, st: ProxyRequest)
    requires |ts| > 0
    ensures Scan(ts, st) == Scan(ts[Step(ts, st).0..], Step(ts, st).1)
  {
  }

  /** The example of the data rule: an explicit GET followed by a body
      ends as POST. */
  lemma ExplicitGetWithData(b: string)
    ensures Scan(["-X", "GET", "-d", b], Initial).httpMethod == "POST"
    ensures Scan(["-X", "GET", "-d", b], Initial).body == Some(b)
  {
    var ts := ["-X", "GET", "-d", b];
    assert ToUpper("GET") == "GET";
    assert Step(ts, Initial) == (2, Initial);
    ScanStep(ts, Initial);
    var rest := ts[2..];
    assert rest == ["-d", b];
    assert !IsUrl("-d") by { assert "-d"[0] != 'h'; }
    assert Step(rest, Initial) == (2, DataStep(Initial, b));
    ScanStep(rest, Initial);
    assert rest[2..] == [];
  }

  /** Every later URL token overwrites the earlier one. */
  lemma LastUrlWins(u1: string, u2: string, st: ProxyRequest)
    requires IsUrl(u1) && IsUrl(u2) && '?' !in u2
    ensures Scan([u1, u2], st).url == u2
  {
    var ts := [u1, u2];
    assert !IsMethodFlag(u1) && !IsMethodFlag(u2) by {
      assert u1[0] == 'h' && u2[0] == 'h';
    }
    ScanStep(ts, st);
    assert ts[1..] == [u2];
    var st1 := UrlStep(st, u1);
    ScanStep([u2], st1);
    assert [u2][1..] == [];
  }

  // ------------------------------------------------- query round trip

  /** `key=value` pieces joined with `&`. */
  function QueryText(ps: seq<KeyValuePair>): string {
    JoinWith(Pieces(ps), '&')
  }

  function Pieces(ps: seq<KeyValuePair>): (r: seq<string>)
    ensures |r| == |ps|
    ensures forall i :: 0 <= i < |ps| ==> r[i] == ps[i].key + "=" + ps[i].value
  {
    seq(|ps|, i requires 0 <= i < |ps| => ps[i].key + "=" + ps[i].value)
  }

  /** Rows a query string can carry back unchanged. */
  predicate QueryRow(p: KeyValuePair) {
    p == Row(p.key, p.value) && '=' !in p.key && '&' !in p.key && '&' !in p.value
  }

  lemma {:induction false} PiecePairsOfPieces(ps: seq<KeyValuePair>)
    requires forall i :: 0 <= i < |ps| ==> QueryRow(ps[i])
    ensures PiecePairs(Pieces(ps)) == ps
    decreases |ps|
  {
    if |ps| > 0 {
      var p := ps[0];
      var piece := p.key + "=" + p.value;
      assert Pieces(ps)[0] == piece;
      assert '=' in piece by { assert piece[|p.key|] == '='; }
      var kv := SplitFirst(piece, '=');
      assert kv.0 == p.key && kv.1 == p.value by {
        SplitFirstUnique(piece, '=', p.key, p.value);
      }
      assert Pieces(ps)[1..] == Pieces(ps[1..]);
      PiecePairsOfPieces(ps[1..]);
    }
  }

  /** The split at the first `c` is the only one whose left part is free
      of `c`. */
  lemma SplitFirstUnique(s: string, c: char, a: string, b: string)
    requires s == a + [c] + b && c !in a
    ensures c in s && SplitFirst(s, c) == (a, b)
  {
    assert s[|a|] == c;
    var i := IndexOf(s, c);
    assert s[..|a|] == a;
    assert i == |a|;
  }

  /** The query split inverts the query joiner. */
  lemma QueryRoundTrip(ps: seq<KeyValuePair>)
    requires |ps| > 0
    requires forall i :: 0 <= i < |ps| ==> QueryRow(ps[i])
    ensures QueryPairs(QueryText(ps)) == ps
  {
    var pieces := Pieces(ps);
    forall x | x in pieces ensures '&' !in x {
      var i :| 0 <= i < |pieces| && pieces[i] == x;
      assert QueryRow(ps[i]);
    }
    SplitJoin(pieces, '&');
    PiecePairsOfPieces(ps);
  }

  // ---------------------------------------------- command round trip

  /** The words of a command that states a request: method, URL with its
      query, one header flag per header and the body. */
  function Words(r: ProxyRequest): seq<string> {
    ["-X", r.httpMethod, UrlWord(r)] + HeaderWords(r.headers) + BodyWords(r.body)
  }

  function UrlWord(r: ProxyRequest): string {
    if |r.params| == 0 then r.url else r.url + "?" + QueryText(r.params)
  }

  function HeaderWords(hs: seq<KeyValuePair>): (r: seq<string>)
    ensures |r| == 2 * |hs|
    decreases |hs|
  {
    if |hs| == 0 then [] else ["-H", hs[0].key + ": " + hs[0].value] + HeaderWords(hs[1..])
  }

  /** A header the loop reads back unchanged. */
  predicate HeaderRow(h: KeyValuePair) {
    h == Row(h.key, h.value) && ':' !in h.key && PyStripped(h.key) && PyStripped(h.value)
  }

  /** A request its own words describe. */
  predicate Describable(r: ProxyRequest) {
    && r.httpMethod == ToUpper(r.httpMethod)
    && IsUrl(r.url) && '?' !in r.url
    && (forall i :: 0 <= i < |r.params| ==> QueryRow(r.params[i]))
    && (forall h :: h in r.headers ==> HeaderRow(h))
  }

  lemma HeaderArgumentRead(st: ProxyRequest, h: KeyValuePair)
    requires HeaderRow(h)
    ensures HeaderStep(st, h.key + ": " + h.value) == st.(headers := st.headers + [h])
  {
    var arg := h.key + ": " + h.value;
    assert arg == h.key + [':'] + (" " + h.value);
    SplitFirstUnique(arg, ':', h.key, " " + h.value);
    PyStripNoop(h.key);
    PyStripAfterSpace(h.value);
  }

  lemma ScanOneHeader(ts: seq<string>, h: KeyValuePair, st: ProxyRequest)
    requires HeaderRow(h)
    requires |ts| >= 2 && ts[0] == "-H" && ts[1] == h.key + ": " + h.value
    ensures Scan(ts, st) == Scan(ts[2..], st.(headers := st.headers + [h]))
  {
    assert Step(ts, st) == (2, HeaderStep(st, ts[1])) by {
      assert !IsMethodFlag(ts[0]) && IsHeaderFlag(ts[0]);
      assert !IsUrl(ts[0]) by { assert ts[0][0] != 'h'; }
    }
    HeaderArgumentRead(st, h);
    ScanStep(ts, st);
  }

  lemma {:induction false} ScanHeaders(hs: seq<KeyValuePair>, rest: seq<string>, st: ProxyRequest)
    requires forall h :: h in hs ==> HeaderRow(h)
    ensures Scan(HeaderWords(hs) + rest, st) == Scan(rest, st.(headers := st.headers + hs))
    decreases |hs|
  {
    if |hs| == 0 {
      assert HeaderWords(hs) == [];
      assert [] + rest == rest;
      assert st.headers + [] == st.headers;
    } else {
      var st1 := st.(headers := st.headers + [hs[0]]);
      ScanHeaders(hs[1..], rest, st1);
      ScanHeadersCons(hs, rest, st);
    }
  }

  lemma ScanHeadersCons(hs: seq<KeyValuePair>, rest: seq<string>, st: ProxyRequest)
    requires |hs| > 0 && forall h :: h in hs ==> HeaderRow(h)
    requires var st1 := st.(headers := st.headers + [hs[0]]);
      Scan(HeaderWords(hs[1..]) + rest, st1) == Scan(rest, st1.(headers := st1.headers + hs[1..]))
    ensures Scan(HeaderWords(hs) + rest, st) == Scan(rest, st.(headers := st.headers + hs))
  {
    var h := hs[0];
    var ts := HeaderWords(hs) + rest;
    HeaderWordsCons(hs, rest);
    assert HeaderRow(h);
    ScanOneHeader(ts, h, st);
    ConsHeaders(st.headers, hs);
  }

  lemma HeaderWordsCons(hs: seq<KeyValuePair>, rest: seq<string>)
    requires |hs| > 0
    ensures var ts := HeaderWords(hs) + rest;
      |ts| >= 2 && ts[0] == "-H" && ts[1] == hs[0].key + ": " + hs[0].value &&
      ts[2..] == HeaderWords(hs[1..]) + rest
  {
    var w := ["-H", hs[0].key + ": " + hs[0].value];
    assert HeaderWords(hs) == w + HeaderWords(hs[1..]);
    Associative(w, HeaderWords(hs[1..]), rest);
  }

  lemma ConsHeaders(a: seq<KeyValuePair>, hs: seq<KeyValuePair>)
    requires |hs| > 0
    ensures a + [hs[0]] + hs[1..] == a + hs
  {
    Associative(a, [hs[0]], hs[1..]);
    assert [hs[0]] + hs[1..] == hs;
  }

  /** Parsing the words of a describable request gives the request back,
      except that a body turns GET into POST. */
  lemma WordsRoundTrip(r: ProxyRequest)
    requires Describable(r)
    ensures Scan(Words(r), Initial) ==
      r.(httpMethod := if r.body.Some? && r.httpMethod == "GET" then "POST" else r.httpMethod)
  {
    var tail := BodyWords(r.body);
    var s2 := Initial.(httpMethod := r.httpMethod, url := r.url, params := r.params);
    ScanLeadingWords(r);
    ScanHeaders(r.headers, tail, s2);
    var s3 := s2.(headers := r.headers);
    assert s2.headers + r.headers == r.headers;
    match r.body {
      case None =>
        assert Scan(tail, s3) == s3 == r;
      case Some(b) =>
        ScanBody(b, s3);
    }
  }

  function BodyWords(body: Option<string>): seq<string> {
    match body case Some(b) => ["-d", b] case None => []
  }

  /** The method and URL words set the method, the URL and the query. */
  lemma ScanLeadingWords(r: ProxyRequest)
    requires Describable(r)
    ensures Scan(Words(r), Initial) ==
      Scan(HeaderWords(r.headers) + BodyWords(r.body),
           Initial.(httpMethod := r.httpMethod, url := r.url, params := r.params))
  {
    var u := UrlWord(r);
    var rest := HeaderWords(r.headers) + BodyWords(r.body);
    var ts := Words(r);
    assert ts[0] == "-X" && ts[1] == r.httpMethod && ts[2..] == [u] + rest;
    var s1 := Initial.(httpMethod := r.httpMethod);
    assert Scan(ts, Initial) == Scan([u] + rest, s1) by {
      ScanMethodWord(ts, Initial);
      assert Initial.(httpMethod := ToUpper(ts[1])) == s1;
    }
    var s2 := Initial.(httpMethod := r.httpMethod, url := r.url, params := r.params);
    assert Scan([u] + rest, s1) == Scan(rest, s2) by {
      UrlWordRead(r, s1);
      ScanUrlWord([u] + rest, s1);
      assert ([u] + rest)[1..] == rest;
      assert s1.params + r.params == r.params;
    }
  }

  lemma ScanMethodWord(ts: seq<string>, st: ProxyRequest)
    requires |ts| >= 2 && IsMethodFlag(ts[0])
    ensures Scan(ts, st) == Scan(ts[2..], st.(httpMethod := ToUpper(ts[1])))
  {
    ScanStep(ts, st);
  }

  lemma ScanUrlWord(ts: seq<string>, st: ProxyRequest)
    requires |ts| >= 1 && IsUrl(ts[0])
    ensures Scan(ts, st) == Scan(ts[1..], UrlStep(st, ts[0]))
  {
    assert !IsMethodFlag(ts[0]) by { assert ts[0][0] == 'h'; }
    ScanStep(ts, st);
  }

  lemma UrlWordRead(r: ProxyRequest, st: ProxyRequest)
    requires Describable(r)
    ensures IsUrl(UrlWord(r)) && UrlStep(st, UrlWord(r)) == st.(url := r.url, params := st.params + r.params)
  {
    var u := UrlWord(r);
    if |r.params| > 0 {
      assert u == r.url + ['?'] + QueryText(r.params);
      SplitFirstUnique(u, '?', r.url, QueryText(r.params));
      QueryRoundTrip(r.params);
      assert u[..|r.url|] == r.url;
    } else {
      assert st.params + r.params == st.params;
    }
  }

  lemma ScanBody(b: string, st: ProxyRequest)
    ensures Scan(["-d", b], st) == DataStep(st, b)
  {
    assert !IsUrl("-d") by { assert "-d"[0] != 'h'; }
    ScanStep(["-d", b], st);
    assert ["-d", b][2..] == [];
  }
}
