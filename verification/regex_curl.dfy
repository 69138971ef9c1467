/** The older, regular-expression based cURL importer and exporter
    (`src/utils/curlParser.ts`), the variant the request editors use.

    Each regular expression is a hand-written scanner: a `...At(s, k)`
    function says what the expression matches when the engine tries start
    position `k` (with the engine's backtracking worked out), and
    `Scan.Leftmost` picks the first start position that succeeds. */
module RegexCurl {
  import opened Wrappers
  import opened Strs
  import opened Json
  import opened Urls
  import opened ApiTypes
  import opened Scan
  import CurlExport

  // ------------------------------------------------------------- prefix

  /** The command after trimming and dropping a leading `curl ` (any case)
      followed by another trim. */
  function StripCurlPrefix(cmd: string): (r: string)
    ensures Trimmed(r)
  {
    var command := Trim(cmd);
    if "curl " <= ToLower(command) then Trim(command[5..]) else command
  }

  lemma StripCurlPrefixOf(x: string)
    requires |x| > 0 && Trimmed(x)
    ensures StripCurlPrefix("curl " + x) == x
  {
    var c := "curl " + x;
    assert c[5..] == x;
    assert c[0] == 'c' && c[|c| - 1] == x[|x| - 1];
    TrimNoop(c);
    LowerPrefix(c, "curl ");
    TrimNoop(x);
  }

  /** Lower-casing keeps a prefix that is already lower case. */
  lemma LowerPrefix(c: string, p: string)
    requires p <= c
    requires forall i :: 0 <= i < |p| ==> !IsUpper(p[i])
    ensures p <= ToLower(c)
  {
    assert forall i :: 0 <= i < |p| ==> ToLower(c)[i] == LowerChar(c[i]) == p[i];
  }

  // ------------------------------------------------------------ scanners

  predicate NotQuote(c: char) { !IsQuote(c) }
  predicate NotSpace(c: char) { !IsSpace(c) }
  predicate NotColon(c: char) { c != ':' }
  predicate NotLineTerminator(c: char) { !IsLineTerminator(c) }

  /** `/['"]([^'"]+)['"]/` tried at `k`. */
  function QuotedAt(s: string, k: nat): Option<string> {
    if k < |s| && IsQuote(s[k]) then
      var e := Skip(s, k + 1, NotQuote);
      if e > k + 1 && e < |s| then Some(s[k + 1..e]) else None
    else None
  }

  /** What the expression means: a quote, a non-empty run free of quotes,
      a quote. */
  lemma QuotedAtMeaning(s: string, k: nat, t: string)
    ensures QuotedAt(s, k) == Some(t) <==>
      k + |t| + 1 < |s| && IsQuote(s[k]) && |t| > 0 &&
      (forall i :: 0 <= i < |t| ==> !IsQuote(t[i])) &&
      s[k + 1..k + 1 + |t|] == t && IsQuote(s[k + 1 + |t|])
  {
    if k + |t| + 1 < |s| && IsQuote(s[k]) && |t| > 0 &&
       (forall i :: 0 <= i < |t| ==> !IsQuote(t[i])) &&
       s[k + 1..k + 1 + |t|] == t && IsQuote(s[k + 1 + |t|]) {
      var e := Skip(s, k + 1, NotQuote);
      assert forall i :: k + 1 <= i < k + 1 + |t| ==> !IsQuote(s[i]) by {
        forall i | k + 1 <= i < k + 1 + |t| ensures !IsQuote(s[i]) {
          assert s[i] == t[i - k - 1];
        }
      }
      assert e == k + 1 + |t|;
    }
  }

  /** `/\s([^-][^\s]+)/` tried at `k`: a space, any character but `-` (a
      space included), then a non-empty run of non-spaces. */
  function BareAt(s: string, k: nat): Option<string> {
    if k + 2 <= |s| && IsSpace(s[k]) && s[k + 1] != '-' then
      var e := Skip(s, k + 2, NotSpace);
      if e > k + 2 then Some(s[k + 1..e]) else None
    else None
  }

  /** The position after flag `a`, or else flag `b`, written at `k`. */
  function FlagEnd(s: string, k: nat, a: string, b: string): (r: Option<nat>)
    ensures r.Some? ==> k < r.value <= |s|
  {
    if k <= |s| && |a| > 0 && a <= s[k..] then Some(k + |a|)
    else if k <= |s| && |b| > 0 && b <= s[k..] then Some(k + |b|)
    else None
  }

  /** `/(?:-X|--request)\s+([^\s]+)/` tried at `k`. */
  function MethodAt(s: string, k: nat): (r: Option<string>)
    ensures r.Some? ==> |r.value| > 0 && forall i :: 0 <= i < |r.value| ==> !IsSpace(r.value[i])
  {
    match FlagEnd(s, k, "-X", "--request")
    case None => None
    case Some(p) =>
      var a := Skip(s, p, IsSpace);
      var e := Skip(s, a, NotSpace);
      if a > p && e > a then Some(s[a..e]) else None
  }

  /** One match of the header expression: the raw texts before and after
      the colon, and where the engine resumes. */
  datatype HeaderMatch = HeaderMatch(key: string, value: string, end: nat)

  /** `/(?:-H|--header)\s+['"]([^:]+):\s*([^'"]+)['"]/` tried at `k`. The
      key runs from the opening quote to the first colon (quotes and spaces
      included); the value runs from the colon to the next quote. (The
      expression's own value group starts after leading spaces, which
      trimming removes anyway.) */
  function HeaderAt(s: string, k: nat): (r: Option<HeaderMatch>)
    ensures r.Some? ==> k < r.value.end <= |s| && |r.value.key| > 0 && |r.value.value| > 0
    ensures r.Some? ==> ':' !in r.value.key && forall i :: 0 <= i < |r.value.value| ==> !IsQuote(r.value.value[i])
  {
    match FlagEnd(s, k, "-H", "--header")
    case None => None
    case Some(p) =>
      var a := Skip(s, p, IsSpace);
      if a > p && a < |s| && IsQuote(s[a]) then
        var c := Skip(s, a + 1, NotColon);
        if c > a + 1 && c < |s| then
          var q := Skip(s, c + 1, NotQuote);
          if q > c + 1 && q < |s| then Some(HeaderMatch(s[a + 1..c], s[c + 1..q], q + 1)) else None
        else None
      else None
  }

  /** `/(?:--data|-d)\s+['"](.+)['"]/` tried at `k`: the greedy `.+` ends
      at the last quote before the end of the line. */
  function DataAt(s: string, k: nat): (r: Option<string>)
    ensures r.Some? ==> |r.value| > 0
  {
    match FlagEnd(s, k, "--data", "-d")
    case None => None
    case Some(p) =>
      var a := Skip(s, p, IsSpace);
      if a > p && a < |s| && IsQuote(s[a]) then
        var l := Skip(s, a + 1, NotLineTerminator);
        match LastWhere(s, a + 2, l, IsQuote)
        case Some(q) => Some(s[a + 1..q])
        case None => None
      else None
  }

  /** The data match is greedy: its body ends at a quote, and no quote
      follows that one before the line ends. */
  lemma DataAtGreedy(s: string, k: nat)
    requires DataAt(s, k).Some?
    ensures var p := FlagEnd(s, k, "--data", "-d").value;
            var a := Skip(s, p, IsSpace);
            var q := a + 1 + |DataAt(s, k).value|;
            var l := Skip(s, a + 1, NotLineTerminator);
            q < l && IsQuote(s[q]) && forall i :: q < i < l ==> !IsQuote(s[i])
  {
  }

  // -------------------------------------------------------------- parse

  function First<T>(s: string, at: nat -> Option<T>): Option<T> {
    match Leftmost(|s|, 0, at)
    case Some((_, m)) => Some(m)
    case None => None
  }

  /** The non-global `match` of each expression: its leftmost match. */
  function FirstQuoted(s: string): Option<string> { First(s, k => QuotedAt(s, k)) }
  function FirstBare(s: string): Option<string> { First(s, k => BareAt(s, k)) }
  function FirstMethod(s: string): Option<string> { First(s, k => MethodAt(s, k)) }
  function FirstData(s: string): Option<string> { First(s, k => DataAt(s, k)) }

  /** Pairs as this importer stores them: no description, no flag. */
  function PlainRows(q: seq<(string, string)>): (r: seq<KeyValuePair>)
    ensures |r| == |q|
    ensures forall i :: 0 <= i < |r| ==> r[i] == KeyValuePair(q[i].0, q[i].1, None, None)
  {
    seq(|q|, i requires 0 <= i < |q| => KeyValuePair(q[i].0, q[i].1, None, None))
  }

  /** Rows stored without an `enabled` flag, as this importer writes them. */
  predicate NoFlags(ps: seq<KeyValuePair>) {
    forall i :: 0 <= i < |ps| ==> ps[i].enabled.None?
  }

  /** The URL: the first quoted text, which must then parse (the URL
      constructor throws otherwise and the import fails), losing its
      query to the parameters; else the first bare word after a space. */
  function UrlStep(r: ApiRequest, s: string, urls: UrlEngine): (q: Option<ApiRequest>)
    ensures q.None? <==> FirstQuoted(s).Some? && urls.parse(FirstQuoted(s).value).None?
    ensures q.Some? ==> q.value.(url := r.url, params := r.params) == r
    ensures q.Some? && NoFlags(r.params) ==> NoFlags(q.value.params)
  {
    match FirstQuoted(s)
    case Some(t) =>
      (match urls.parse(t)
       case None => None
       case Some(u) => Some(r.(url := SplitOn(t, '?')[0], params := r.params + PlainRows(u.query))))
    case None =>
      match FirstBare(s)
      case Some(t) => Some(r.(url := t))
      case None => Some(r)
  }

  /** The method: the word after the first `-X`/`--request`, upper-cased. */
  function MethodStep(r: ApiRequest, s: string): (q: ApiRequest)
    ensures q.(httpMethod := r.httpMethod) == r
  {
    if Contains(s, "-X") || Contains(s, "--request") then
      match FirstMethod(s)
      case Some(m) => r.(httpMethod := ToUpper(m))
      case None => r
    else r
  }

  /** `matchAll` of the header expression from position `i`. */
  function HeaderMatches(s: string, i: nat): (ms: seq<HeaderMatch>)
    requires i <= |s|
    decreases |s| - i
  {
    match Leftmost(|s|, i, k => HeaderAt(s, k))
    case None => []
    case Some((_, m)) => [m] + HeaderMatches(s, m.end)
  }

  function HeaderRowsOf(ms: seq<HeaderMatch>): (r: seq<KeyValuePair>)
    ensures |r| == |ms|
    ensures forall i :: 0 <= i < |r| ==> r[i] == KeyValuePair(Trim(ms[i].key), Trim(ms[i].value), None, None)
  {
    seq(|ms|, i requires 0 <= i < |ms| => KeyValuePair(Trim(ms[i].key), Trim(ms[i].value), None, None))
  }

  /** The body: the first data match, tidied when it is JSON; a body turns
      a GET into a POST. */
  function DataStep(r: ApiRequest, s: string, json: JsonCodec): (q: ApiRequest)
    ensures FirstData(s).Some? ==> q.httpMethod != "GET" && q.body == Reformat(FirstData(s).value, json)
    ensures FirstData(s).None? ==> q == r
    ensures q.(body := r.body, httpMethod := r.httpMethod) == r
  {
    match FirstData(s)
    case Some(b) =>
      r.(body := Reformat(b, json), httpMethod := if r.httpMethod == "GET" then "POST" else r.httpMethod)
    case None => r
  }

  /** The name: method and last path segment, when the URL parses and has
      a non-empty segment. */
  function NameStep(r: ApiRequest, urls: UrlEngine): (q: ApiRequest)
    ensures q.(name := r.name) == r
  {
    match urls.parse(r.url)
    case Some(u) =>
      var parts := PathSegments(u);
      if |parts| > 0 then r.(name := r.httpMethod + " " + parts[|parts| - 1]) else r
    case None => r
  }

  /** The request the import starts from. */
  function Base(id: string): ApiRequest {
    ApiRequest(id, "Imported from cURL", None, "", "GET", [], [], "", [])
  }

  /** `parseCurlCommand`. `None` is the `null` the outer catch returns. */
  function Parse(cmd: string, urls: UrlEngine, json: JsonCodec, id: string): (r: Option<ApiRequest>)
    ensures var s := StripCurlPrefix(cmd);
      r.None? <==> (FirstQuoted(s).Some? && urls.parse(FirstQuoted(s).value).None?)
    ensures r.Some? ==> r.value.id == id && r.value.tests == [] && r.value.description.None?
    ensures r.Some? ==> NoFlags(r.value.params) && NoFlags(r.value.headers)
    ensures r.Some? && FirstData(StripCurlPrefix(cmd)).Some? ==>
      r.value.httpMethod != "GET" && r.value.body == Reformat(FirstData(StripCurlPrefix(cmd)).value, json)
    ensures r.Some? && FirstData(StripCurlPrefix(cmd)).None? ==> r.value.body == ""
  {
    var s := StripCurlPrefix(cmd);
    match UrlStep(Base(id), s, urls)
    case None => None
    case Some(r1) => Some(LaterSteps(r1, s, urls, json))
  }

  /** The steps after the URL: method, headers, body and name. None of
      them touches the URL, the parameters, the id or the tests. */
  function LaterSteps(r1: ApiRequest, s: string, urls: UrlEngine, json: JsonCodec): (q: ApiRequest)
    ensures q.url == r1.url && q.params == r1.params
    ensures q.id == r1.id && q.tests == r1.tests && q.description == r1.description
    ensures q.headers == HeaderRowsOf(HeaderMatches(s, 0)) && NoFlags(q.headers)
    ensures FirstData(s).Some? ==> q.httpMethod != "GET" && q.body == Reformat(FirstData(s).value, json)
    ensures FirstData(s).None? ==> q.body == r1.body
  {
    var r2 := MethodStep(r1, s);
    var r3 := r2.(headers := HeaderRowsOf(HeaderMatches(s, 0)));
    var r4 := DataStep(r3, s, json);
    NameStep(r4, urls)
  }

  /** The `includes` test before the method match never changes the
      outcome: a match implies the flag occurs. */
  lemma MethodGuardRedundant(s: string)
    requires FirstMethod(s).Some?
    ensures Contains(s, "-X") || Contains(s, "--request")
  {
    var (k, _) := Leftmost(|s|, 0, k => MethodAt(s, k)).value;
    var p := FlagEnd(s, k, "-X", "--request");
    if "-X" <= s[k..] {
      ContainsAt(s, "-X", k);
    } else {
      ContainsAt(s, "--request", k);
    }
  }

  /** A quoted URL supplies the query pairs, in order and unflagged, and
      loses everything from its first `?`. */
  lemma ParseQuotedUrl(cmd: string, urls: UrlEngine, json: JsonCodec, id: string)
    requires var s := StripCurlPrefix(cmd);
      FirstQuoted(s).Some? && urls.parse(FirstQuoted(s).value).Some?
    ensures var s := StripCurlPrefix(cmd);
      var t := FirstQuoted(s).value;
      var r := Parse(cmd, urls, json, id);
      r.Some? && r.value.url == SplitOn(t, '?')[0] && '?' !in r.value.url &&
      r.value.params == PlainRows(urls.parse(t).value.query)
  {
    var s := StripCurlPrefix(cmd);
    var t := FirstQuoted(s).value;
    QuotedUrlStep(Base(id), s, urls);
    ParseFromUrlStep(cmd, urls, json, id);
    QuotedOutcome(UrlStep(Base(id), s, urls).value, Parse(cmd, urls, json, id), t, PlainRows(urls.parse(t).value.query));
  }

  /** The import's URL and parameters, given those of the URL step. */
  lemma QuotedOutcome(q: ApiRequest, r: Option<ApiRequest>, t: string, rows: seq<KeyValuePair>)
    requires q.params == [] + rows && q.url == SplitOn(t, '?')[0]
    requires r.Some? && r.value.url == q.url && r.value.params == q.params
    ensures r.value.url == SplitOn(t, '?')[0] && '?' !in r.value.url && r.value.params == rows
  {
    assert SplitOn(t, '?')[0] in SplitOn(t, '?');
    assert [] + rows == rows;
  }

  /** A quoted URL that parses: cut at its first `?`, its query appended
      to the parameters. */
  lemma QuotedUrlStep(r: ApiRequest, s: string, urls: UrlEngine)
    requires FirstQuoted(s).Some? && urls.parse(FirstQuoted(s).value).Some?
    ensures var t := FirstQuoted(s).value;
      UrlStep(r, s, urls) == Some(r.(url := SplitOn(t, '?')[0], params := r.params + PlainRows(urls.parse(t).value.query)))
  {
  }

  /** The later steps never change the URL or the parameters. */
  lemma ParseFromUrlStep(cmd: string, urls: UrlEngine, json: JsonCodec, id: string)
    requires UrlStep(Base(id), StripCurlPrefix(cmd), urls).Some?
    ensures var q := UrlStep(Base(id), StripCurlPrefix(cmd), urls).value;
      var r := Parse(cmd, urls, json, id);
      r.Some? && r.value.url == q.url && r.value.params == q.params
  {
  }

  /** The method: the upper-cased word after the first method flag, else
      GET; a body then turns GET into POST. */
  lemma ParseMethod(cmd: string, urls: UrlEngine, json: JsonCodec, id: string)
    requires Parse(cmd, urls, json, id).Some?
    ensures var s := StripCurlPrefix(cmd);
      var m := match FirstMethod(s) case Some(w) => ToUpper(w) case None => "GET";
      Parse(cmd, urls, json, id).value.httpMethod ==
        if FirstData(s).Some? && m == "GET" then "POST" else m
  {
    var s := StripCurlPrefix(cmd);
    if FirstMethod(s).Some? {
      MethodGuardRedundant(s);
    }
  }

  /** With no quoted text the URL is the first word after a space that
      does not start with `-`, which may be a flag's argument: the method
      of `curl -X POST https://a` becomes its URL. */
  lemma MethodWordTakenForUrl(s: string, urls: UrlEngine, json: JsonCodec, id: string)
    requires s == "-X POST https://a"
    ensures var r := Parse("curl " + s, urls, json, id);
      r.Some? && r.value.url == "POST" && r.value.httpMethod == "POST"
  {
    ExampleScans(s);
    ExampleTrimmed(s);
    StripCurlPrefixOf(s);
    UnquotedOutcome("curl " + s, s, "POST", "POST", urls, json, id);
  }

  lemma ExampleTrimmed(s: string)
    requires s == "-X POST https://a"
    ensures |s| > 0 && Trimmed(s)
  {
  }

  /** With no quoted text and no data, the URL is the bare word and the
      method is the method word, when that is already upper case. */
  lemma UnquotedOutcome(cmd: string, s: string, w: string, m: string, urls: UrlEngine, json: JsonCodec, id: string)
    requires StripCurlPrefix(cmd) == s && FirstQuoted(s).None? && FirstData(s).None?
    requires FirstBare(s) == Some(w) && FirstMethod(s) == Some(m) && ToUpper(m) == m
    ensures var r := Parse(cmd, urls, json, id);
      r.Some? && r.value.url == w && r.value.httpMethod == m
  {
    ParseUnquoted(cmd, urls, json, id);
    ParseMethod(cmd, urls, json, id);
  }

  /** Without quoted text, the URL is the bare word and the method is the
      upper-cased method word. */
  lemma ParseUnquoted(cmd: string, urls: UrlEngine, json: JsonCodec, id: string)
    requires var s := StripCurlPrefix(cmd); FirstQuoted(s).None?
    ensures var s := StripCurlPrefix(cmd);
      var r := Parse(cmd, urls, json, id);
      r.Some? && r.value.params == [] &&
      r.value.url == (match FirstBare(s) case Some(w) => w case None => "")
  {
    var s := StripCurlPrefix(cmd);
    var u := match FirstBare(s) case Some(w) => w case None => "";
    assert UrlStep(Base(id), s, urls) == Some(Base(id).(url := u));
    ParseFromUrlStep(cmd, urls, json, id);
  }

  /** What each scanner finds in `-X POST https://a`. */
  lemma ExampleScans(s: string)
    requires s == "-X POST https://a"
    ensures FirstQuoted(s).None?
    ensures FirstBare(s) == Some("POST")
    ensures FirstMethod(s) == Some("POST") && ToUpper("POST") == "POST"
    ensures FirstData(s).None?
  {
    NoQuoteNoQuoted(s);
    ExampleBare(s);
    ExampleMethod(s);
    ExampleNoData(s);
  }

  lemma ExampleBare(s: string)
    requires s == "-X POST https://a"
    ensures FirstBare(s) == Some("POST")
  {
    assert s[2] == ' ' && s[3] == 'P' && s[7] == ' ';
    assert s[..7][3..] == "POST";
    assert Skip(s, 4, NotSpace) == 7 by {
      assert NotSpace(s[4]) && NotSpace(s[5]) && NotSpace(s[6]);
    }
    assert BareAt(s, 2) == Some("POST");
    var bare := k => BareAt(s, k);
    assert bare(0).None? && bare(1).None? && bare(2) == Some("POST");
    assert Leftmost(|s|, 2, bare) == Some((2, "POST"));
    assert Leftmost(|s|, 0, bare) == Some((2, "POST"));
  }

  lemma ExampleMethod(s: string)
    requires s == "-X POST https://a"
    ensures FirstMethod(s) == Some("POST") && ToUpper("POST") == "POST"
  {
    assert s[2] == ' ' && s[3] == 'P' && s[7] == ' ';
    assert s[..7][3..] == "POST";
    assert Skip(s, 4, NotSpace) == 7 by {
      assert NotSpace(s[4]) && NotSpace(s[5]) && NotSpace(s[6]);
    }
    assert Skip(s, 2, IsSpace) == 3;
    assert MethodAt(s, 0) == Some("POST");
  }

  lemma ExampleNoData(s: string)
    requires s == "-X POST https://a"
    ensures FirstData(s).None?
  {
    var t := " POST https://a";
    assert s == ['-', 'X'] + t;
    assert '-' !in t;
    NoDataAfterLead(s, 'X', t);
  }

  /** Text whose only `-` is its first character, followed by neither `d`
      nor `-`, has no data flag. */
  lemma NoDataAfterLead(s: string, c: char, t: string)
    requires s == ['-', c] + t && c != 'd' && c != '-' && '-' !in t
    ensures FirstData(s).None?
  {
    forall k | 0 <= k < |s| ensures DataAt(s, k).None? {
      DataNeedsFlag(s, k);
      if k > 1 {
        assert s[k] == t[k - 2];
      }
    }
    FirstNone(s, k => DataAt(s, k));
  }

  /** No match at any position: no match at all. */
  lemma FirstNone<T>(s: string, at: nat -> Option<T>)
    requires forall k :: 0 <= k < |s| ==> at(k).None?
    ensures First(s, at).None?
  {
  }

  lemma DataNeedsFlag(s: string, k: nat)
    ensures k + 1 >= |s| || s[k] != '-' || (s[k + 1] != 'd' && s[k + 1] != '-') ==> DataAt(s, k).None?
  {
    if k + 1 < |s| && "-d" <= s[k..] {
      assert s[k..][1] == s[k + 1];
    }
    if k + 1 < |s| && "--data" <= s[k..] {
      assert s[k..][1] == s[k + 1];
    }
  }

  /** Text without quotes has no quoted part. */
  lemma NoQuoteNoQuoted(s: string)
    requires forall i :: 0 <= i < |s| ==> !IsQuote(s[i])
    ensures FirstQuoted(s).None?
  {
  }

  // ------------------------------------------------------------ convert

  /** `convertToCurl`. `None` is the uncaught exception thrown when there
      are parameters and the URL does not parse. Pairs without a flag count
      as enabled, and the body is single-quoted verbatim. */
  function Convert(r: ApiRequest, urls: UrlEngine): (cmd: Option<string>)
    ensures cmd.None? <==> |r.params| > 0 && urls.parse(r.url).None?
    ensures cmd.Some? ==> "curl -X " + r.httpMethod + " \"" <= cmd.value
    ensures cmd.Some? && |r.params| == 0 ==> "curl -X " + r.httpMethod + " \"" + r.url + "\"" <= cmd.value
    ensures cmd.Some? && r.body != "" ==>
      |cmd.value| >= |r.body| + 6 && cmd.value[|cmd.value| - |r.body| - 6..] == " -d '" + r.body + "'"
    ensures var tail := CurlExport.HeaderFlags(r.headers) + (if r.body == "" then "" else " -d '" + r.body + "'");
      cmd.Some? ==> |cmd.value| >= |tail| && cmd.value[|cmd.value| - |tail|..] == tail
  {
    var url :=
      if |r.params| > 0 then
        match urls.parse(r.url)
        case Some(u) => Some(urls.href(u.(query := u.query + CurlExport.ShownQuery(r.params))))
        case None => None
      else Some(r.url);
    match url
    case None => None
    case Some(v) =>
      var head := "curl -X " + r.httpMethod + " \"" + v + "\"" + CurlExport.HeaderFlags(r.headers);
      var flags := CurlExport.HeaderFlags(r.headers);
      var first := "curl -X " + r.httpMethod + " \"" + v + "\"";
      var tail := if r.body == "" then "" else " -d '" + r.body + "'";
      assert (head + tail)[|head|..] == tail;
      assert head + tail == first + (flags + tail);
      assert (first + (flags + tail))[|first|..] == flags + tail;
      Some(head + tail)
  }
}
