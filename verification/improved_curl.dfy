/** The improved cURL importer and exporter
    (`src/utils/improvedCurlParser.ts`).

    Import works in three stages: a cache lookup keyed by the raw command,
    a shortcut for input that is just a URL, and otherwise normalisation,
    tokenization (`ShellSplit`) and a walk over the tokens. The walk is
    modelled as a segmentation of the tokens into directives (a flag with
    the argument it consumes) followed by a left fold that applies each
    directive to the request being built. */
module ImprovedCurl {
  import opened Wrappers
  import opened Strs
  import opened Seqs
  import opened Json
  import opened Urls
  import opened ApiTypes
  import opened ShellSplit

  // ---------------------------------------------------------------- cache

  /** The cache holds at most this many entries on the tokenizing path. */
  const CacheLimit: nat := 100

  /** `curlCache`: a JavaScript `Map`, i.e. entries in insertion order. */
  datatype Cache = Cache(order: seq<string>, entries: map<string, ApiRequest>)

  const EmptyCache: Cache := Cache([], map[])

  /** Keys are listed once each, and exactly the mapped keys are listed. */
  predicate ValidCache(c: Cache) {
    (forall i, j :: 0 <= i < j < |c.order| ==> c.order[i] != c.order[j]) &&
    c.entries.Keys == set k | k in c.order
  }

  /** `Map.set` of a key that is not present: it becomes the newest. */
  function Insert(c: Cache, key: string, v: ApiRequest): (r: Cache)
    requires ValidCache(c) && key !in c.entries
    ensures ValidCache(r)
    ensures r.order == c.order + [key] && r.entries == c.entries[key := v]
  {
    Cache(c.order + [key], c.entries[key := v])
  }

  /** Deletes the oldest entry (the first key the `Map` iterates) when the
      cache already holds `CacheLimit` entries or more. */
  function EvictOldest(c: Cache): (r: Cache)
    requires ValidCache(c)
    ensures ValidCache(r)
    ensures |c.order| >= CacheLimit ==> r.order == c.order[1..] && r.entries == c.entries - {c.order[0]}
    ensures |c.order| < CacheLimit ==> r == c
  {
    if |c.order| >= CacheLimit then
      var r := Cache(c.order[1..], c.entries - {c.order[0]});
      assert forall k :: k in c.order[1..] ==> k in c.order && k != c.order[0];
      assert forall k :: k in c.order && k != c.order[0] ==> k in c.order[1..];
      r
    else c
  }

  // --------------------------------------------------------- normalising

  /** `replace(/\\\r?\n/g, ' ')`: a backslash line continuation becomes
      one space. */
  function JoinContinuations(s: string): string
    decreases |s|
  {
    if |s| == 0 then ""
    else if "\\\n" <= s then " " + JoinContinuations(s[2..])
    else if "\\\r\n" <= s then " " + JoinContinuations(s[3..])
    else [s[0]] + JoinContinuations(s[1..])
  }

  /** `replace(/\r?\n/g, ' ')`: every line break becomes one space. */
  function JoinLines(s: string): (r: string)
    ensures '\n' !in r
    decreases |s|
  {
    if |s| == 0 then ""
    else if "\n" <= s then " " + JoinLines(s[1..])
    else if "\r\n" <= s then " " + JoinLines(s[2..])
    else [s[0]] + JoinLines(s[1..])
  }

  /** The command as the tokenizer sees it: continuations and line breaks
      turned into spaces, then trimmed. */
  function Normalize(cmd: string): (r: string)
    ensures '\n' !in r
  {
    var joined := JoinLines(JoinContinuations(cmd));
    var r := Trim(joined);
    assert forall c :: c in r ==> c in joined by {
      var k := |joined| - |StripStart(joined, IsSpace)|;
      forall c | c in r ensures c in joined {
        var i :| 0 <= i < |r| && r[i] == c;
        assert joined[k + i] == c;
      }
    }
    r
  }

  lemma {:induction false} JoinContinuationsNoBreak(s: string)
    requires '\n' !in s
    ensures JoinContinuations(s) == s
    decreases |s|
  {
    if |s| > 0 {
      JoinContinuationsNoBreak(s[1..]);
      assert s == [s[0]] + s[1..];
    }
  }

  lemma {:induction false} JoinLinesNoBreak(s: string)
    requires '\n' !in s
    ensures JoinLines(s) == s
    decreases |s|
  {
    if |s| > 0 {
      JoinLinesNoBreak(s[1..]);
      assert s == [s[0]] + s[1..];
    }
  }

  /** On a one-line command normalisation is just trimming. */
  lemma NormalizeOneLine(cmd: string)
    requires '\n' !in cmd
    ensures Normalize(cmd) == Trim(cmd)
  {
    JoinContinuationsNoBreak(cmd);
    JoinLinesNoBreak(cmd);
  }

  // ------------------------------------------------------------- helpers

  /** `s.replace(/^['"]|['"]$/g, '')`: at most one quote character is
      removed from each end. */
  function StripQuotes(s: string): (r: string)
    ensures |s| >= 2 && IsQuote(s[0]) && IsQuote(s[|s| - 1]) ==> r == s[1..|s| - 1]
    ensures (|s| == 0 || (!IsQuote(s[0]) && !IsQuote(s[|s| - 1]))) ==> r == s
    ensures r == s || r == s[1..] || (|s| > 0 && r == s[..|s| - 1]) || (|s| >= 2 && r == s[1..|s| - 1])
  {
    var a := if |s| > 0 && IsQuote(s[0]) then s[1..] else s;
    if |a| > 0 && IsQuote(a[|a| - 1]) then a[..|a| - 1] else a
  }

  /** The URL with `https://` put in front when it has no http(s)
      scheme. */
  function WithScheme(url: string): string {
    if "http://" <= url || "https://" <= url then url else "https://" + url
  }

  /** `getUrlLastSegment`: the last non-empty path segment of the URL (with
      `https://` supplied when no scheme is given), else its host name; if
      the URL does not parse, the text after the last `/`, else the whole
      input. */
  function LastSegment(urls: UrlEngine, url: string): (r: string)
    ensures urls.parse(WithScheme(url)).None? ==>
      (r != "" || url == "") && ('/' !in r || r == url)
    ensures urls.parse(WithScheme(url)).Some? ==>
      var u := urls.parse(WithScheme(url)).value; var segs := PathSegments(u);
      (|segs| > 0 ==> r == segs[|segs| - 1] && r != "" && '/' !in r) && (|segs| == 0 ==> r == u.hostname)
  {
    match urls.parse(WithScheme(url))
    case Some(u) =>
      var parts := PathSegments(u);
      assert |parts| > 0 ==> parts[|parts| - 1] in parts;
      if |parts| > 0 then parts[|parts| - 1] else u.hostname
    case None =>
      var parts := SplitOn(url, '/');
      var last := parts[|parts| - 1];
      assert last in parts;
      if last != "" then last else url
  }

  /** For a URL whose path is `/` followed by non-empty segments without
      `/`, the name is the last of them; for the path `/` it is the host
      name. */
  lemma LastSegmentOfPath(urls: UrlEngine, url: string, segs: seq<string>)
    requires urls.parse(WithScheme(url)).Some?
    requires urls.parse(WithScheme(url)).value.pathname == "/" + JoinWith(segs, '/')
    requires forall p :: p in segs ==> p != "" && '/' !in p
    ensures |segs| > 0 ==> LastSegment(urls, url) == segs[|segs| - 1]
    ensures segs == [] ==> LastSegment(urls, url) == urls.parse(WithScheme(url)).value.hostname
  {
    var u := urls.parse(WithScheme(url)).value;
    if |segs| == 0 {
      RootSegments(u);
    } else {
      SlashSegments(u, segs);
    }
  }

  /** The path `/` has no non-empty segment. */
  lemma RootSegments(u: Url)
    requires u.pathname == "/"
    ensures PathSegments(u) == []
  {
    var parts := ["", ""];
    assert JoinWith(parts, '/') == "/" by {
      assert parts[1..] == [""];
    }
    SplitJoin(parts, '/');
    assert NonEmpty(parts) == NonEmpty(parts[1..]);
    assert NonEmpty(parts[1..]) == NonEmpty([]) by {
      assert parts[1..][1..] == [];
    }
  }

  /** `/` followed by non-empty segments without `/` splits into exactly
      those segments. */
  lemma SlashSegments(u: Url, segs: seq<string>)
    requires |segs| > 0 && u.pathname == "/" + JoinWith(segs, '/')
    requires forall p :: p in segs ==> p != "" && '/' !in p
    ensures PathSegments(u) == segs
  {
    var parts := [""] + segs;
    JoinCons("", segs, '/');
    assert forall p :: p in parts ==> '/' !in p;
    SplitJoin(parts, '/');
    NonEmptyNoop(segs);
    assert parts[1..] == segs;
  }

  /** `isSimpleUrl`: the input parses as a URL, or does so once `https://`
      is put in front of it (only tried when it has no http(s) scheme). */
  predicate IsSimpleUrl(urls: UrlEngine, s: string) {
    urls.parse(s).Some? ||
    (!("http://" <= s) && !("https://" <= s) && urls.parse("https://" + s).Some?)
  }

  // ---------------------------------------------------------- directives

  datatype Kind =
    | CurlWord | MethodFlag | UrlToken | HeaderFlag | DataFlag
    | DataInline | FormFlag | LocationFlag | Other

  /** A token, and the argument token it consumed when it is a flag that
      takes one and one follows. */
  datatype Directive = Directive(kind: Kind, token: string, arg: Option<string>)

  /** The token tests in the order the walk applies them. */
  function KindOf(t: string): Kind {
    if ToLower(t) == "curl" then CurlWord
    else if t == "--request" || t == "-X" then MethodFlag
    else if "http://" <= t || "https://" <= t || "www." <= t then UrlToken
    else if t == "--header" || t == "-H" then HeaderFlag
    else if t == "--data" || t == "--data-raw" || t == "--data-binary" || t == "-d" then DataFlag
    else if "--data=" <= t || "--data-raw=" <= t || "-d=" <= t then DataInline
    else if t == "--form" || t == "-F" then FormFlag
    else if t == "--location" || t == "-L" then LocationFlag
    else Other
  }

  /** Flags that consume the following token. */
  predicate TakesArgument(k: Kind) {
    k == MethodFlag || k == HeaderFlag || k == DataFlag || k == FormFlag
  }

  /** The walk's segmentation of the token list. */
  function Segment(tokens: seq<string>): (ds: seq<Directive>)
    ensures |ds| <= |tokens|
    decreases |tokens|
  {
    if |tokens| == 0 then []
    else
      var k := KindOf(tokens[0]);
      if TakesArgument(k) && |tokens| > 1 then
        [Directive(k, tokens[0], Some(tokens[1]))] + Segment(tokens[2..])
      else
        [Directive(k, tokens[0], None)] + Segment(tokens[1..])
  }

  /** The segmentation of a token list, one directive at a time. */
  lemma SegmentOne(t: string, rest: seq<string>)
    requires !TakesArgument(KindOf(t))
    ensures Segment([t] + rest) == [Directive(KindOf(t), t, None)] + Segment(rest)
  {
    assert ([t] + rest)[1..] == rest;
  }

  lemma SegmentTwo(t: string, a: string, rest: seq<string>)
    requires TakesArgument(KindOf(t))
    ensures Segment([t, a] + rest) == [Directive(KindOf(t), t, Some(a))] + Segment(rest)
  {
    assert ([t, a] + rest)[2..] == rest;
  }

  function Consumed(d: Directive): seq<string> {
    [d.token] + (if d.arg.Some? then [d.arg.value] else [])
  }

  function ConsumedAll(ds: seq<Directive>): seq<string>
    decreases |ds|
  {
    if |ds| == 0 then [] else Consumed(ds[0]) + ConsumedAll(ds[1..])
  }

  /** The segmentation partitions the tokens: every token is consumed once,
      in order, and a flag consumes its argument only when one follows. */
  lemma SegmentCovers(tokens: seq<string>)
    ensures ConsumedAll(Segment(tokens)) == tokens
    ensures forall d :: d in Segment(tokens) ==> (d.arg.Some? ==> TakesArgument(d.kind)) && d.kind == KindOf(d.token)
  {
    SegmentConsumes(tokens);
    SegmentKinds(tokens);
  }

  lemma {:induction false} SegmentConsumes(tokens: seq<string>)
    ensures ConsumedAll(Segment(tokens)) == tokens
    decreases |tokens|
  {
    if |tokens| > 0 {
      var k := KindOf(tokens[0]);
      var n := if TakesArgument(k) && |tokens| > 1 then 2 else 1;
      var d := Directive(k, tokens[0], if n == 2 then Some(tokens[1]) else None);
      SegmentConsumes(tokens[n..]);
      assert Segment(tokens) == [d] + Segment(tokens[n..]);
      assert Consumed(d) == tokens[..n];
      ConsumesStep(tokens, d, n, Segment(tokens[n..]));
    }
  }

  /** A directive that consumed the first `n` tokens, in front of a
      segmentation that consumed the rest. */
  lemma ConsumesStep(tokens: seq<string>, d: Directive, n: nat, rest: seq<Directive>)
    requires n <= |tokens| && Consumed(d) == tokens[..n] && ConsumedAll(rest) == tokens[n..]
    ensures ConsumedAll([d] + rest) == tokens
  {
    ConsumedCons(d, rest);
    assert tokens == tokens[..n] + tokens[n..];
  }

  lemma ConsumedCons(d: Directive, ds: seq<Directive>)
    ensures ConsumedAll([d] + ds) == Consumed(d) + ConsumedAll(ds)
  {
    assert ([d] + ds)[1..] == ds;
  }

  lemma {:induction false} SegmentKinds(tokens: seq<string>)
    ensures forall d :: d in Segment(tokens) ==> (d.arg.Some? ==> TakesArgument(d.kind)) && d.kind == KindOf(d.token)
    decreases |tokens|
  {
    if |tokens| > 0 {
      var k := KindOf(tokens[0]);
      if TakesArgument(k) && |tokens| > 1 {
        SegmentKinds(tokens[2..]);
      } else {
        SegmentKinds(tokens[1..]);
      }
    }
  }

  // ------------------------------------------------- applying directives

  /** The request the walk starts from. */
  function DefaultRequest(id: string): ApiRequest {
    ApiRequest(id, "Imported from cURL", None, "", "GET", [], [], "", [])
  }

  /** Query pairs as enabled parameter rows. */
  function QueryRows(q: seq<(string, string)>): (r: seq<KeyValuePair>)
    ensures |r| == |q|
    ensures forall i :: 0 <= i < |r| ==> r[i] == EnabledPair(q[i].0, q[i].1)
  {
    seq(|q|, i requires 0 <= i < |q| => EnabledPair(q[i].0, q[i].1))
  }

  /** A URL token: quotes stripped; when it parses, its query pairs are
      appended to the parameters and, if there are now any parameters at
      all, the URL is cut at its first `?`. */
  function ApplyUrl(r: ApiRequest, token: string, urls: UrlEngine): ApiRequest {
    var url := StripQuotes(token);
    match urls.parse(url)
    case None => r.(url := url)
    case Some(u) =>
      var params := r.params + QueryRows(u.query);
      r.(params := params, url := if |params| > 0 then SplitOn(url, '?')[0] else url)
  }

  /** The header row an `-H` argument yields, if it has a colon after its
      first character. */
  function HeaderRow(arg: string): Option<KeyValuePair> {
    var h := StripQuotes(arg);
    var colon := IndexOf(h, ':');
    if colon > 0 then Some(EnabledPair(Trim(h[..colon]), Trim(h[colon + 1..]))) else None
  }

  /** Data sets the body and turns a GET into a POST. */
  function ApplyData(r: ApiRequest, data: string, json: JsonCodec): (q: ApiRequest)
    ensures q.httpMethod != "GET"
  {
    r.(body := Reformat(data, json), httpMethod := if r.httpMethod == "GET" then "POST" else r.httpMethod)
  }

  /** An array index in JavaScript's sense: the canonical decimal form of
      a number below 2^32 - 1. */
  predicate IsArrayIndex(key: string) {
    |key| > 0 && (forall i :: 0 <= i < |key| ==> IsDigit(key[i])) &&
    (key[0] != '0' || |key| == 1) && ParseDigits(key) < 0xFFFF_FFFF
  }

  /** The new `length` a string assigns to an array: the empty string is
      0 and a run of decimal digits its value below 2^32; anything else is
      a RangeError (`None`). */
  function ArrayLength(v: string): (r: Option<nat>)
    ensures r.Some? ==> r.value < 0x1_0000_0000
  {
    if v == "" then Some(0)
    else if (forall i :: 0 <= i < |v| ==> IsDigit(v[i])) && ParseDigits(v) < 0x1_0000_0000 then Some(ParseDigits(v))
    else None
  }

  /** A length written in decimal is read back as that length; every
      length the result can have is reached this way. */
  lemma ArrayLengthOfNumeral(n: nat)
    requires n < 0x1_0000_0000
    ensures ArrayLength(NatToString(n)) == Some(n)
  {
    ParseNatToString(n);
  }

  /** `n` array holes; `JSON.stringify` prints each as `null`. */
  function Holes(n: nat): (r: seq<Json>)
    ensures |r| == n && forall i :: 0 <= i < n ==> r[i] == JNull
  {
    seq(n, i => JNull)
  }

  /** `xs[i] = v`: past the end, the array grows with holes. */
  function SetIndex(xs: seq<Json>, i: nat, v: Json): (r: seq<Json>)
    ensures |r| == if i < |xs| then |xs| else i + 1
    ensures r[i] == v
    ensures forall k :: 0 <= k < |r| && k != i ==> r[k] == if k < |xs| then xs[k] else JNull
  {
    if i < |xs| then xs[i := v] else xs + Holes(i - |xs|) + [v]
  }

  /** `xs.length = n`: truncates, or grows with holes. */
  function Resize(xs: seq<Json>, n: nat): (r: seq<Json>)
    ensures |r| == n
    ensures forall k :: 0 <= k < n ==> r[k] == if k < |xs| then xs[k] else JNull
  {
    if n <= |xs| then xs[..n] else xs + Holes(n - |xs|)
  }

  /** `formData[key] = value` on what `JSON.parse` returned (in strict
      mode). On an object the member is set, except that `__proto__` is an
      inherited setter which ignores a string unless the object has an own
      member of that name. On an array an index sets an element, `length`
      resizes, and any other key adds a property `JSON.stringify` does not
      print. On `null`, a boolean, a number or a string the assignment
      throws (`None`). */
  function SetFormField(j: Json, key: string, value: string): (r: Option<Json>)
    ensures j.JObj? ==> r.Some? && r.value.JObj?
    ensures j.JObj? && (key != "__proto__" || Lookup(j.members, key).Some?) ==>
      Lookup(r.value.members, key) == Some(JStr(value)) &&
      forall k :: k != key ==> Lookup(r.value.members, k) == Lookup(j.members, k)
    ensures j.JObj? && key == "__proto__" && Lookup(j.members, key).None? ==> r == Some(j)
    ensures j.JArr? && IsArrayIndex(key) ==>
      r.Some? && r.value.JArr? &&
      |r.value.items| == (if ParseDigits(key) < |j.items| then |j.items| else ParseDigits(key) + 1) &&
      r.value.items[ParseDigits(key)] == JStr(value) &&
      forall k :: 0 <= k < |r.value.items| && k != ParseDigits(key) ==>
        r.value.items[k] == if k < |j.items| then j.items[k] else JNull
    ensures j.JArr? && key == "length" ==>
      (r.None? <==> ArrayLength(value).None?) &&
      (r.Some? ==> r.value.JArr? && |r.value.items| == ArrayLength(value).value &&
                   forall k :: 0 <= k < |j.items| && k < |r.value.items| ==> r.value.items[k] == j.items[k])
    ensures j.JArr? && !IsArrayIndex(key) && key != "length" ==> r == Some(j)
    ensures !j.JObj? && !j.JArr? ==> r.None?
  {
    match j
    case JObj(ms) =>
      if key == "__proto__" && Lookup(ms, key).None? then Some(j)
      else Some(JObj(SetMember(ms, key, JStr(value))))
    case JArr(xs) =>
      if IsArrayIndex(key) then Some(JArr(SetIndex(xs, ParseDigits(key), JStr(value))))
      else if key == "length" then
        (match ArrayLength(value)
         case Some(n) => Some(JArr(Resize(xs, n)))
         case None => None)
      else Some(j)
    case _ => None
  }

  /** The key and value of a form field `key=value`, each trimmed: the
      text split at its first `=`, which must come after the first
      character. */
  function FormField(arg: string): (kv: Option<(string, string)>)
    ensures kv.None? <==> IndexOf(StripQuotes(arg), '=') <= 0
    ensures kv.Some? ==> '=' !in kv.value.0 && |kv.value.0| < |StripQuotes(arg)|
  {
    var f := StripQuotes(arg);
    var eq := IndexOf(f, '=');
    if eq <= 0 then None else Some((Trim(f[..eq]), Trim(f[eq + 1..])))
  }

  /** A form field is assigned into the body read as JSON, an empty body
      starting as `{}`, and the result is printed indented. When the body
      does not parse or the assignment throws, the body keeps its text
      (`{}` if it was empty). */
  function ApplyForm(r: ApiRequest, arg: string, json: JsonCodec): (q: ApiRequest)
    ensures q == r.(body := q.body)
    ensures FormField(arg).None? ==> q == r
    ensures FormField(arg).Some? ==>
      q.body == FormBody(if r.body == "" then "{}" else r.body, FormField(arg).value.0, FormField(arg).value.1, json)
  {
    match FormField(arg)
    case None => r
    case Some((key, value)) => r.(body := FormBody(if r.body == "" then "{}" else r.body, key, value, json))
  }

  /** The body after assigning `key` to `value`: the assigned JSON printed
      indented, or the body unchanged when it does not parse or the
      assignment throws. */
  function FormBody(body: string, key: string, value: string, json: JsonCodec): (b: string)
    ensures json.parse(body).None? ==> b == body
    ensures json.parse(body).Some? && SetFormField(json.parse(body).value, key, value).None? ==> b == body
    ensures json.parse(body).Some? && SetFormField(json.parse(body).value, key, value).Some? ==>
      b == json.pretty(SetFormField(json.parse(body).value, key, value).value)
  {
    match json.parse(body)
    case Some(j) =>
      (match SetFormField(j, key, value)
       case Some(v) => json.pretty(v)
       case None => body)
    case None => body
  }

  /** Under a lawful runtime, a form field set on a well-formed object
      body reads back from the new body: the key holds the value and every
      other key what it held (`__proto__` only when already present). */
  lemma FormReadsBack(r: ApiRequest, arg: string, json: JsonCodec, ms: seq<Member>)
    requires Lawful(json)
    requires FormField(arg).Some?
    requires json.parse(if r.body == "" then "{}" else r.body) == Some(JObj(ms)) && WellFormed(JObj(ms))
    ensures var (key, value) := FormField(arg).value;
      key != "__proto__" || Lookup(ms, key).Some? ==>
        var back := json.parse(ApplyForm(r, arg, json).body);
        back.Some? && back.value.JObj? &&
        Lookup(back.value.members, key) == Some(JStr(value)) &&
        forall k :: k != key ==> Lookup(back.value.members, k) == Lookup(ms, k)
  {
    var (key, value) := FormField(arg).value;
    if key != "__proto__" || Lookup(ms, key).Some? {
      FormOnObject(r, arg, json, ms);
      PrettySetMember(json, ms, key, JStr(value));
    }
  }

  /** A form field on an object body prints the object with the member
      set. */
  lemma FormOnObject(r: ApiRequest, arg: string, json: JsonCodec, ms: seq<Member>)
    requires FormField(arg).Some?
    requires json.parse(if r.body == "" then "{}" else r.body) == Some(JObj(ms))
    ensures var (key, value) := FormField(arg).value;
      key != "__proto__" || Lookup(ms, key).Some? ==>
        ApplyForm(r, arg, json).body == json.pretty(JObj(SetMember(ms, key, JStr(value))))
  {
    var (key, value) := FormField(arg).value;
    if key != "__proto__" || Lookup(ms, key).Some? {
      SetObjectField(ms, key, value);
    }
  }

  /** Setting a field on an object sets its member, except for an absent
      `__proto__`. */
  lemma SetObjectField(ms: seq<Member>, key: string, value: string)
    requires key != "__proto__" || Lookup(ms, key).Some?
    ensures SetFormField(JObj(ms), key, value) == Some(JObj(SetMember(ms, key, JStr(value))))
  {
  }

  /** Under a lawful runtime an object with a member set reads back from
      its printed form. */
  lemma PrettySetMember(json: JsonCodec, ms: seq<Member>, key: string, v: Json)
    requires Lawful(json) && WellFormed(JObj(ms)) && WellFormed(v)
    ensures json.parse(json.pretty(JObj(SetMember(ms, key, v)))) == Some(JObj(SetMember(ms, key, v)))
  {
    SetMemberWellFormed(ms, key, v);
  }

  /** The text after the first `=` of an inline data flag. */
  function AfterEquals(t: string): string {
    var i := IndexOf(t, '=');
    t[i + 1..]
  }

  function Apply(r: ApiRequest, d: Directive, urls: UrlEngine, json: JsonCodec): ApiRequest {
    match d.kind
    case MethodFlag => if d.arg.Some? then r.(httpMethod := ToUpper(d.arg.value)) else r
    case UrlToken => ApplyUrl(r, d.token, urls)
    case HeaderFlag =>
      if d.arg.None? then r
      else (match HeaderRow(d.arg.value)
            case Some(h) => r.(headers := r.headers + [h])
            case None => r)
    case DataFlag => if d.arg.Some? then ApplyData(r, StripQuotes(d.arg.value), json) else r
    case DataInline => ApplyData(r, StripQuotes(AfterEquals(d.token)), json)
    case FormFlag => if d.arg.Some? then ApplyForm(r, d.arg.value, json) else r
    case _ => r
  }

  /** The walk: directives applied left to right. */
  function ApplyAll(r: ApiRequest, ds: seq<Directive>, urls: UrlEngine, json: JsonCodec): ApiRequest
    decreases |ds|
  {
    if |ds| == 0 then r else ApplyAll(Apply(r, ds[0], urls, json), ds[1..], urls, json)
  }

  lemma {:induction false} ApplyAllAppend(r: ApiRequest, a: seq<Directive>, b: seq<Directive>, urls: UrlEngine, json: JsonCodec)
    ensures ApplyAll(r, a + b, urls, json) == ApplyAll(ApplyAll(r, a, urls, json), b, urls, json)
    decreases |a|
  {
    if |a| == 0 {
      assert a + b == b;
    } else {
      assert (a + b)[0] == a[0] && (a + b)[1..] == a[1..] + b;
      ApplyAllAppend(Apply(r, a[0], urls, json), a[1..], b, urls, json);
    }
  }

  /** The header row a directive contributes: one for an `-H` whose
      argument has a colon after its first character, none otherwise. */
  function HeaderOf(d: Directive): seq<KeyValuePair> {
    if d.kind == HeaderFlag && d.arg.Some? && HeaderRow(d.arg.value).Some?
    then [HeaderRow(d.arg.value).value] else []
  }

  /** The header rows the `-H` directives of a walk yield, in order. */
  function HeaderRows(ds: seq<Directive>): seq<KeyValuePair>
    decreases |ds|
  {
    if |ds| == 0 then [] else HeaderOf(ds[0]) + HeaderRows(ds[1..])
  }

  lemma ApplyHeaders(r: ApiRequest, d: Directive, urls: UrlEngine, json: JsonCodec)
    ensures Apply(r, d, urls, json).headers == r.headers + HeaderOf(d)
  {
    match d.kind
    case UrlToken =>
      assert ApplyUrl(r, d.token, urls) == r.(url := ApplyUrl(r, d.token, urls).url, params := ApplyUrl(r, d.token, urls).params);
    case FormFlag =>
      if d.arg.Some? {
        var q := ApplyForm(r, d.arg.value, json);
        assert q == r.(body := q.body);
      }
    case HeaderFlag =>
    case _ =>
      assert HeaderOf(d) == [];
  }

  lemma HeadersCons(r: ApiRequest, ds: seq<Directive>, urls: UrlEngine, json: JsonCodec)
    requires |ds| > 0
    requires ApplyAll(Apply(r, ds[0], urls, json), ds[1..], urls, json).headers
             == Apply(r, ds[0], urls, json).headers + HeaderRows(ds[1..])
    ensures ApplyAll(r, ds, urls, json).headers == r.headers + HeaderRows(ds)
  {
    var next := Apply(r, ds[0], urls, json);
    var here := HeaderOf(ds[0]);
    var rest := HeaderRows(ds[1..]);
    assert ApplyAll(r, ds, urls, json) == ApplyAll(next, ds[1..], urls, json);
    assert HeaderRows(ds) == here + rest;
    assert next.headers == r.headers + here by {
      ApplyHeaders(r, ds[0], urls, json);
    }
    Associative(r.headers, here, rest);
  }

  /** The walk appends exactly the well-formed header arguments, in order,
      and nothing else touches the headers. */
  lemma {:induction false} HeadersOfWalk(r: ApiRequest, ds: seq<Directive>, urls: UrlEngine, json: JsonCodec)
    ensures ApplyAll(r, ds, urls, json).headers == r.headers + HeaderRows(ds)
    decreases |ds|
  {
    if |ds| == 0 {
      assert r.headers + [] == r.headers;
    } else {
      HeadersOfWalk(Apply(r, ds[0], urls, json), ds[1..], urls, json);
      HeadersCons(r, ds, urls, json);
    }
  }

  /** Every row the walk creates is explicitly enabled. */
  predicate AllEnabled(r: ApiRequest) {
    (forall h :: h in r.headers ==> h.enabled == Some(true)) &&
    (forall p :: p in r.params ==> p.enabled == Some(true))
  }

  lemma {:induction false} WalkKeepsEnabled(r: ApiRequest, ds: seq<Directive>, urls: UrlEngine, json: JsonCodec)
    requires AllEnabled(r)
    ensures AllEnabled(ApplyAll(r, ds, urls, json))
    ensures r.params <= ApplyAll(r, ds, urls, json).params
    decreases |ds|
  {
    if |ds| > 0 {
      var next := Apply(r, ds[0], urls, json);
      assert AllEnabled(next) && r.params <= next.params by {
        if ds[0].kind == UrlToken {
          var url := StripQuotes(ds[0].token);
          if urls.parse(url).Some? {
            var q := QueryRows(urls.parse(url).value.query);
            assert next.params == r.params + q;
            assert forall p :: p in q ==> p.enabled == Some(true);
          }
        }
      }
      WalkKeepsEnabled(next, ds[1..], urls, json);
    }
  }

  /** An example from a form field on an array body `[1,2]`: `0=x` sets
      the first element, `length=0` empties the array, and `foo=x` adds
      nothing `JSON.stringify` prints. */
  lemma FormOnArray(xs: seq<Json>)
    requires xs == [JNum(1), JNum(2)]
    ensures SetFormField(JArr(xs), "0", "x") == Some(JArr([JStr("x"), JNum(2)]))
    ensures SetFormField(JArr(xs), "length", "0") == Some(JArr([]))
    ensures SetFormField(JArr(xs), "foo", "x") == Some(JArr(xs))
  {
    assert IsArrayIndex("0") by { assert ParseDigits("0") == 0; }
    assert !IsArrayIndex("length") && !IsArrayIndex("foo") by {
      assert !IsDigit("length"[0]) && !IsDigit("foo"[0]);
    }
    assert ArrayLength("0") == Some(0) by { assert ParseDigits("0") == 0; }
    var r := SetFormField(JArr(xs), "0", "x").value.items;
    assert |r| == 2 && r[0] == JStr("x") && r[1] == JNum(2);
    assert r == [JStr("x"), JNum(2)];
  }

  // ----------------------------------------------------- the walk's fields

  /** A method flag with its argument. */
  predicate IsMethod(d: Directive) {
    d.kind == MethodFlag && d.arg.Some?
  }

  /** A data directive: a data flag with its argument, or an inline
      `--data=` token. */
  predicate IsData(d: Directive) {
    (d.kind == DataFlag && d.arg.Some?) || d.kind == DataInline
  }

  /** A form flag whose argument has a `=` after its first character. */
  predicate IsForm(d: Directive) {
    d.kind == FormFlag && d.arg.Some? && FormField(d.arg.value).Some?
  }

  /** The text a data directive supplies, quotes stripped. */
  function DataText(d: Directive): string
    requires IsData(d)
  {
    if d.kind == DataFlag then StripQuotes(d.arg.value) else StripQuotes(AfterEquals(d.token))
  }

  /** The query rows a URL token contributes: those of the URL when it
      parses, none otherwise. */
  function ParamOf(d: Directive, urls: UrlEngine): seq<KeyValuePair> {
    if d.kind == UrlToken && urls.parse(StripQuotes(d.token)).Some?
    then QueryRows(urls.parse(StripQuotes(d.token)).value.query) else []
  }

  /** The parameter rows the URL tokens of a walk yield, in order. */
  function ParamRows(ds: seq<Directive>, urls: UrlEngine): seq<KeyValuePair>
    decreases |ds|
  {
    if |ds| == 0 then [] else ParamOf(ds[0], urls) + ParamRows(ds[1..], urls)
  }

  /** The upper-cased argument of the last method flag. */
  function MethodWord(ds: seq<Directive>): Option<string>
    decreases |ds|
  {
    if |ds| == 0 then None
    else if MethodWord(ds[1..]).Some? then MethodWord(ds[1..])
    else if IsMethod(ds[0]) then Some(ToUpper(ds[0].arg.value))
    else None
  }

  /** The directives after the last method flag (all of them when there is
      none). */
  function AfterLastMethod(ds: seq<Directive>): (r: seq<Directive>)
    ensures |r| <= |ds|
    decreases |ds|
  {
    if |ds| == 0 then []
    else if MethodWord(ds[1..]).Some? then AfterLastMethod(ds[1..])
    else if IsMethod(ds[0]) then ds[1..]
    else ds
  }

  predicate HasData(ds: seq<Directive>) {
    exists i :: 0 <= i < |ds| && IsData(ds[i])
  }

  /** The method a walk from `m0` leaves: the last method flag's argument
      upper-cased (else `m0`), made POST when that is GET and data comes
      after the flag. */
  function MethodAfter(m0: string, ds: seq<Directive>): string {
    var m := if MethodWord(ds).Some? then MethodWord(ds).value else m0;
    if m == "GET" && HasData(AfterLastMethod(ds)) then "POST" else m
  }

  /** The quote-stripped text of the last URL token. */
  function LastUrl(ds: seq<Directive>): Option<string>
    decreases |ds|
  {
    if |ds| == 0 then None
    else if LastUrl(ds[1..]).Some? then LastUrl(ds[1..])
    else if ds[0].kind == UrlToken then Some(StripQuotes(ds[0].token))
    else None
  }

  /** The URL a walk leaves after `url0` and parameters `params0`: the last
      URL token, cut at its first `?` when it parses and the walk ends with
      some parameters. */
  function UrlAfter(url0: string, params0: seq<KeyValuePair>, ds: seq<Directive>, urls: UrlEngine): string {
    match LastUrl(ds)
    case None => url0
    case Some(t) =>
      if urls.parse(t).Some? && |params0 + ParamRows(ds, urls)| > 0 then SplitOn(t, '?')[0] else t
  }

  /** The last directive that sets the body: data or a form field. */
  function LastBody(ds: seq<Directive>): (r: Option<Directive>)
    ensures r.Some? ==> IsData(r.value) || IsForm(r.value)
    decreases |ds|
  {
    if |ds| == 0 then None
    else if LastBody(ds[1..]).Some? then LastBody(ds[1..])
    else if IsData(ds[0]) || IsForm(ds[0]) then Some(ds[0])
    else None
  }

  /** One directive's effect on each field the walk builds. */
  lemma ApplyParams(r: ApiRequest, d: Directive, urls: UrlEngine, json: JsonCodec)
    ensures Apply(r, d, urls, json).params == r.params + ParamOf(d, urls)
  {
    match d.kind
    case UrlToken =>
    case FormFlag =>
      if d.arg.Some? {
        var q := ApplyForm(r, d.arg.value, json);
        assert q == r.(body := q.body);
      }
    case _ =>
      assert r.params + [] == r.params;
  }

  lemma ApplyUrlField(r: ApiRequest, d: Directive, urls: UrlEngine, json: JsonCodec)
    ensures var q := Apply(r, d, urls, json);
      if d.kind == UrlToken then
        var t := StripQuotes(d.token);
        q.url == if urls.parse(t).Some? && |r.params + ParamOf(d, urls)| > 0 then SplitOn(t, '?')[0] else t
      else q.url == r.url
  {
    match d.kind
    case UrlToken =>
    case FormFlag =>
      if d.arg.Some? {
        var q := ApplyForm(r, d.arg.value, json);
        assert q == r.(body := q.body);
      }
    case _ =>
  }

  lemma ApplyMethod(r: ApiRequest, d: Directive, urls: UrlEngine, json: JsonCodec)
    ensures var q := Apply(r, d, urls, json);
      q.httpMethod ==
        if IsMethod(d) then ToUpper(d.arg.value)
        else if IsData(d) then (if r.httpMethod == "GET" then "POST" else r.httpMethod)
        else r.httpMethod
  {
    match d.kind
    case UrlToken =>
      assert ApplyUrl(r, d.token, urls) == r.(url := ApplyUrl(r, d.token, urls).url, params := ApplyUrl(r, d.token, urls).params);
    case FormFlag =>
      if d.arg.Some? {
        var q := ApplyForm(r, d.arg.value, json);
        assert q == r.(body := q.body);
      }
    case _ =>
  }

  lemma ApplyBody(r: ApiRequest, d: Directive, urls: UrlEngine, json: JsonCodec)
    ensures IsData(d) ==> Apply(r, d, urls, json).body == Reformat(DataText(d), json)
    ensures !IsData(d) && !IsForm(d) ==> Apply(r, d, urls, json).body == r.body
  {
    match d.kind
    case UrlToken =>
      assert ApplyUrl(r, d.token, urls) == r.(url := ApplyUrl(r, d.token, urls).url, params := ApplyUrl(r, d.token, urls).params);
    case _ =>
  }

  /** The walk appends exactly the query rows of the URL tokens that
      parse, in order, and nothing else touches the parameters. */
  lemma {:induction false} ParamsOfWalk(r: ApiRequest, ds: seq<Directive>, urls: UrlEngine, json: JsonCodec)
    ensures ApplyAll(r, ds, urls, json).params == r.params + ParamRows(ds, urls)
    decreases |ds|
  {
    if |ds| == 0 {
      assert r.params + [] == r.params;
    } else {
      var next := Apply(r, ds[0], urls, json);
      ParamsOfWalk(next, ds[1..], urls, json);
      ApplyParams(r, ds[0], urls, json);
      assert ApplyAll(r, ds, urls, json) == ApplyAll(next, ds[1..], urls, json);
      Associative(r.params, ParamOf(ds[0], urls), ParamRows(ds[1..], urls));
    }
  }

  /** Without a URL token no parameter row is added. */
  lemma {:induction false} NoUrlNoParams(ds: seq<Directive>, urls: UrlEngine)
    requires LastUrl(ds).None?
    ensures ParamRows(ds, urls) == []
    decreases |ds|
  {
    if |ds| > 0 {
      NoUrlNoParams(ds[1..], urls);
    }
  }

  /** The URL a walk leaves is the last URL token's text, cut at `?` when
      it parses and the walk has produced parameters; without a URL token
      the URL is untouched. */
  lemma {:induction false} UrlOfWalk(r: ApiRequest, ds: seq<Directive>, urls: UrlEngine, json: JsonCodec)
    ensures ApplyAll(r, ds, urls, json).url == UrlAfter(r.url, r.params, ds, urls)
    decreases |ds|
  {
    if |ds| > 0 {
      var next := Apply(r, ds[0], urls, json);
      UrlOfWalk(next, ds[1..], urls, json);
      ApplyParams(r, ds[0], urls, json);
      ApplyUrlField(r, ds[0], urls, json);
      assert ApplyAll(r, ds, urls, json) == ApplyAll(next, ds[1..], urls, json);
      UrlStep(r.url, r.params, ds, urls, next.url, next.params);
    }
  }

  /** One directive's effect on the URL and parameters, carried through
      the rest of the walk. */
  lemma UrlStep(url0: string, params0: seq<KeyValuePair>, ds: seq<Directive>, urls: UrlEngine,
                url1: string, params1: seq<KeyValuePair>)
    requires |ds| > 0 && params1 == params0 + ParamOf(ds[0], urls)
    requires url1 == if ds[0].kind == UrlToken then
        var t := StripQuotes(ds[0].token);
        if urls.parse(t).Some? && |params0 + ParamOf(ds[0], urls)| > 0 then SplitOn(t, '?')[0] else t
      else url0
    ensures UrlAfter(url1, params1, ds[1..], urls) == UrlAfter(url0, params0, ds, urls)
  {
    var rest := ds[1..];
    assert ParamRows(ds, urls) == ParamOf(ds[0], urls) + ParamRows(rest, urls);
    assert |params1 + ParamRows(rest, urls)| == |params0 + ParamRows(ds, urls)|;
    if LastUrl(rest).Some? {
      assert LastUrl(ds) == LastUrl(rest);
    } else {
      NoUrlNoParams(rest, urls);
      assert params1 + ParamRows(rest, urls) == params1;
      if ds[0].kind == UrlToken {
        assert LastUrl(ds) == Some(StripQuotes(ds[0].token));
      } else {
        assert LastUrl(ds) == None;
      }
    }
  }

  lemma HasDataCons(ds: seq<Directive>)
    requires |ds| > 0
    ensures HasData(ds) <==> IsData(ds[0]) || HasData(ds[1..])
  {
    if HasData(ds[1..]) {
      var i :| 0 <= i < |ds[1..]| && IsData(ds[1..][i]);
      assert IsData(ds[i + 1]);
    }
    if HasData(ds) && !IsData(ds[0]) {
      var i :| 0 <= i < |ds| && IsData(ds[i]);
      assert IsData(ds[1..][i - 1]);
    }
  }

  /** The method a walk leaves is the last method flag's argument
      upper-cased (else the starting method), turned into POST when it is
      GET and some data comes after that flag. */
  lemma {:induction false} MethodOfWalk(r: ApiRequest, ds: seq<Directive>, urls: UrlEngine, json: JsonCodec)
    ensures ApplyAll(r, ds, urls, json).httpMethod == MethodAfter(r.httpMethod, ds)
    decreases |ds|
  {
    if |ds| == 0 {
      assert !HasData(ds);
    } else {
      var next := Apply(r, ds[0], urls, json);
      var rest := ds[1..];
      MethodOfWalk(next, rest, urls, json);
      ApplyMethod(r, ds[0], urls, json);
      assert ApplyAll(r, ds, urls, json) == ApplyAll(next, rest, urls, json);
      if MethodWord(rest).None? && !IsMethod(ds[0]) {
        HasDataCons(ds);
      }
    }
  }

  /** The body a walk leaves: untouched when nothing sets it, the tidied
      text of the last data argument when that is the last directive to
      set it. */
  lemma {:induction false} BodyOfWalk(r: ApiRequest, ds: seq<Directive>, urls: UrlEngine, json: JsonCodec)
    ensures LastBody(ds).None? ==> ApplyAll(r, ds, urls, json).body == r.body
    ensures LastBody(ds).Some? && IsData(LastBody(ds).value) ==>
      ApplyAll(r, ds, urls, json).body == Reformat(DataText(LastBody(ds).value), json)
    decreases |ds|
  {
    if |ds| > 0 {
      var next := Apply(r, ds[0], urls, json);
      BodyOfWalk(next, ds[1..], urls, json);
      ApplyBody(r, ds[0], urls, json);
      assert ApplyAll(r, ds, urls, json) == ApplyAll(next, ds[1..], urls, json);
    }
  }

  /** Whatever came before, a walk that ends with a data argument leaves
      the method other than GET: `-X GET -d x` is sent as a POST. */
  lemma DataLeavesNoGet(r: ApiRequest, ds: seq<Directive>, d: Directive, urls: UrlEngine, json: JsonCodec)
    requires (d.kind == DataFlag && d.arg.Some?) || d.kind == DataInline
    ensures ApplyAll(r, ds + [d], urls, json).httpMethod != "GET"
  {
    ApplyAllAppend(r, ds, [d], urls, json);
  }

  /** The tokens `curl -X GET -d x` import as a POST. */
  lemma ExplicitGetWithDataIsPost(tokens: seq<string>, urls: UrlEngine, json: JsonCodec)
    requires tokens == ["curl", "-X", "GET", "-d", "x"]
    ensures ApplyAll(DefaultRequest(""), Segment(tokens), urls, json).httpMethod == "POST"
  {
    var r0 := DefaultRequest("");
    var ds := [Directive(CurlWord, "curl", None), Directive(MethodFlag, "-X", Some("GET"))];
    var d := Directive(DataFlag, "-d", Some("x"));
    ExampleSegments(tokens);
    ApplyAllAppend(r0, ds, [d], urls, json);
    var r1 := ApplyAll(r0, ds, urls, json);
    assert r1.httpMethod == "GET" by {
      assert ToUpper("GET") == "GET";
      assert ds[1..][1..] == [];
    }
    assert ApplyAll(r1, [d], urls, json) == ApplyData(r1, StripQuotes("x"), json);
  }

  lemma ExampleSegments(tokens: seq<string>)
    requires tokens == ["curl", "-X", "GET", "-d", "x"]
    ensures Segment(tokens) ==
      [Directive(CurlWord, "curl", None), Directive(MethodFlag, "-X", Some("GET"))] + [Directive(DataFlag, "-d", Some("x"))]
  {
    var t1, t2 := ["-X", "GET", "-d", "x"], ["-d", "x"];
    assert tokens == ["curl"] + t1 && t1 == ["-X", "GET"] + t2 && t2 == ["-d", "x"] + [];
    assert KindOf("curl") == CurlWord;
    assert KindOf("-X") == MethodFlag;
    assert KindOf("-d") == DataFlag;
    SegmentOne("curl", t1);
    SegmentTwo("-X", "GET", t2);
    SegmentTwo("-d", "x", []);
  }

  // ----------------------------------------------------------- importing

  /** Sets the descriptive name and attaches the 2xx test. */
  function Finalize(r: ApiRequest, urls: UrlEngine): ApiRequest {
    r.(name := if r.url != "" then r.httpMethod + " " + LastSegment(urls, r.url) else r.name,
       tests := r.tests + [SuccessTest])
  }

  /** The directives the walk applies to a command. */
  function Directives(cmd: string): seq<Directive> {
    Segment(Tokens(Normalize(cmd)))
  }

  /** The tokenizing path of `parseCurlCommand`. */
  function ParseTokens(cmd: string, urls: UrlEngine, json: JsonCodec, id: string): (r: ApiRequest)
    ensures r.id == id
    ensures r.tests == [SuccessTest]
    ensures AllEnabled(r)
    ensures r.url == "" ==> r.name == "Imported from cURL"
    ensures r.url != "" ==> r.name == r.httpMethod + " " + LastSegment(urls, r.url)
  {
    var ds := Directives(cmd);
    var r0 := DefaultRequest(id);
    WalkKeepsEnabled(r0, ds, urls, json);
    IdKept(r0, ds, urls, json);
    Finalize(ApplyAll(r0, ds, urls, json), urls)
  }

  /** What the tokenizing path reads from the directives: every header and
      every parameter row in order, the last method word (a body turning GET
      into POST), the last URL token (cut at `?` when parameters were
      read), and the reformatted text of the last body. */
  lemma ParseTokensReads(cmd: string, urls: UrlEngine, json: JsonCodec, id: string)
    ensures var r := ParseTokens(cmd, urls, json, id); var ds := Directives(cmd);
      r.headers == HeaderRows(ds) &&
      r.params == ParamRows(ds, urls) &&
      r.httpMethod == MethodAfter("GET", ds) &&
      r.url == UrlAfter("", [], ds, urls) &&
      (LastBody(ds).None? ==> r.body == "") &&
      (LastBody(ds).Some? && IsData(LastBody(ds).value) ==> r.body == Reformat(DataText(LastBody(ds).value), json))
  {
    var ds := Directives(cmd);
    var r0 := DefaultRequest(id);
    HeadersOfWalk(r0, ds, urls, json);
    assert [] + HeaderRows(ds) == HeaderRows(ds);
    ParamsOfWalk(r0, ds, urls, json);
    assert [] + ParamRows(ds, urls) == ParamRows(ds, urls);
    MethodOfWalk(r0, ds, urls, json);
    UrlOfWalk(r0, ds, urls, json);
    BodyOfWalk(r0, ds, urls, json);
  }

  lemma {:induction false} IdKept(r: ApiRequest, ds: seq<Directive>, urls: UrlEngine, json: JsonCodec)
    ensures ApplyAll(r, ds, urls, json).id == r.id
    ensures ApplyAll(r, ds, urls, json).tests == r.tests
    ensures ApplyAll(r, ds, urls, json).name == r.name
    decreases |ds|
  {
    if |ds| > 0 {
      ApplyKeepsId(r, ds[0], urls, json);
      IdKept(Apply(r, ds[0], urls, json), ds[1..], urls, json);
    }
  }

  /** No directive touches the id, the tests or the name. */
  lemma ApplyKeepsId(r: ApiRequest, d: Directive, urls: UrlEngine, json: JsonCodec)
    ensures var q := Apply(r, d, urls, json); q.id == r.id && q.tests == r.tests && q.name == r.name
  {
    match d.kind
    case UrlToken =>
      assert ApplyUrl(r, d.token, urls) == r.(url := ApplyUrl(r, d.token, urls).url, params := ApplyUrl(r, d.token, urls).params);
    case FormFlag =>
      if d.arg.Some? {
        var q := ApplyForm(r, d.arg.value, json);
        assert q == r.(body := q.body);
      }
    case _ =>
  }

  /** The shortcut for input that is only a URL. */
  function SimpleRequest(cmd: string, urls: UrlEngine, id: string): ApiRequest {
    var url := Trim(cmd);
    ApiRequest(id, "GET " + LastSegment(urls, url), None, url, "GET", [], [], "", [])
  }

  datatype Outcome = Outcome(result: Option<ApiRequest>, cache: Cache)

  /** `parseCurlCommand`. `freshId` is the identifier `uuidv4()` returns.
      Nothing in the modelled steps throws, so the result is never null. */
  function ParseCurlCommand(cmd: string, cache: Cache, urls: UrlEngine, json: JsonCodec, freshId: string): (r: Outcome)
    requires ValidCache(cache)
    ensures ValidCache(r.cache)
    ensures r.result.Some? && r.result.value.id == freshId
    ensures cmd in cache.entries ==>
      r.result == Some(cache.entries[cmd].(id := freshId)) && r.cache == cache
    ensures cmd !in cache.entries ==>
      cmd in r.cache.entries && r.cache.entries[cmd] == r.result.value &&
      r.cache.order[|r.cache.order| - 1] == cmd
    ensures cmd !in cache.entries && IsSimpleUrl(urls, Trim(cmd)) ==>
      r.cache.order == cache.order + [cmd] &&
      r.result.value == ApiRequest(freshId, "GET " + LastSegment(urls, Trim(cmd)), None, Trim(cmd), "GET", [], [], "", [])
    ensures cmd !in cache.entries && !IsSimpleUrl(urls, Trim(cmd)) ==>
      r.result.value == ParseTokens(cmd, urls, json, freshId)
    ensures cmd !in cache.entries && !IsSimpleUrl(urls, Trim(cmd)) ==>
      r.cache.order == (if |cache.order| >= CacheLimit then cache.order[1..] else cache.order) + [cmd] &&
      r.result.value.tests == [SuccessTest]
  {
    if cmd in cache.entries then
      Outcome(Some(cache.entries[cmd].(id := freshId)), cache)
    else if IsSimpleUrl(urls, Trim(cmd)) then
      var req := SimpleRequest(cmd, urls, freshId);
      Outcome(Some(req), Insert(cache, cmd, req))
    else
      var req := ParseTokens(cmd, urls, json, freshId);
      var kept := EvictOldest(cache);
      Outcome(Some(req), Insert(kept, cmd, req))
  }

  /** The tokenizing path never grows the cache past its limit. */
  lemma TokenPathBounded(cmd: string, cache: Cache, urls: UrlEngine, json: JsonCodec, freshId: string)
    requires ValidCache(cache) && |cache.order| <= CacheLimit
    requires !IsSimpleUrl(urls, Trim(cmd))
    ensures |ParseCurlCommand(cmd, cache, urls, json, freshId).cache.order| <= CacheLimit
  {
  }

  /** The URL shortcut inserts without evicting, so it can take a full
      cache past its limit. */
  lemma UrlPathExceedsLimit(cmd: string, cache: Cache, urls: UrlEngine, json: JsonCodec, freshId: string)
    requires ValidCache(cache) && |cache.order| == CacheLimit
    requires cmd !in cache.entries && IsSimpleUrl(urls, Trim(cmd))
    ensures |ParseCurlCommand(cmd, cache, urls, json, freshId).cache.order| == CacheLimit + 1
  {
  }

  /** A repeated command is served from the cache: the same request with a
      new identifier, whatever the oracles say the second time. */
  lemma RepeatIsCached(cmd: string, cache: Cache, urls: UrlEngine, json: JsonCodec, id1: string, id2: string)
    requires ValidCache(cache)
    ensures var first := ParseCurlCommand(cmd, cache, urls, json, id1);
            var second := ParseCurlCommand(cmd, first.cache, urls, json, id2);
            second.result == Some(first.result.value.(id := id2)) && second.cache == first.cache
  {
  }
}
