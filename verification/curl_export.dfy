/** `convertToCurl` of the improved cURL module
    (`src/utils/improvedCurlParser.ts`), and the round trip back through
    `parseCurlCommand`.

    The exporter writes a command line; the importer's tokenizer undoes the
    quoting (`ShellSplit.LineTokens`), and its walk recovers the method,
    the URL, the enabled headers and the body, provided the request's text
    leaves the quoting unambiguous. */
module CurlExport {
  import opened Wrappers
  import opened Strs
  import opened Seqs
  import opened Json
  import opened Urls
  import opened ApiTypes
  import opened ShellSplit
  import opened ImprovedCurl

  // ------------------------------------------------------------ exporting

  /** The URL written: with parameters present and a URL that parses, the
      shown parameters are appended to its query and it is re-serialised;
      otherwise the URL as stored. */
  function ExportUrl(r: ApiRequest, urls: UrlEngine): string {
    if |r.params| > 0 then
      match urls.parse(r.url)
      case Some(u) => urls.href(u.(query := u.query + ShownQuery(r.params)))
      case None => r.url
    else r.url
  }

  /** The shown rows as the importer creates them: enabled, without a
      description. */
  function ShownRow(h: KeyValuePair): seq<KeyValuePair> {
    if Shown(h) then [EnabledPair(h.key, h.value)] else []
  }

  function ShownRows(hs: seq<KeyValuePair>): seq<KeyValuePair>
    decreases |hs|
  {
    if |hs| == 0 then [] else ShownRow(hs[0]) + ShownRows(hs[1..])
  }

  /** The shown rows as query pairs: each comes from a shown row, and read
      back as rows they are exactly the shown rows, in order. */
  function ShownQuery(ps: seq<KeyValuePair>): (q: seq<(string, string)>)
    ensures |q| <= |ps|
    ensures forall kv :: kv in q ==> exists p :: p in ps && Shown(p) && kv == (p.key, p.value)
    ensures QueryRows(q) == ShownRows(ps)
    decreases |ps|
  {
    if |ps| == 0 then []
    else
      assert ps[0] in ps;
      assert forall p :: p in ps[1..] ==> p in ps;
      var here := if Shown(ps[0]) then [(ps[0].key, ps[0].value)] else [];
      var rest := ShownQuery(ps[1..]);
      QueryRowsAppend(here, rest);
      here + rest
  }

  lemma QueryRowsAppend(a: seq<(string, string)>, b: seq<(string, string)>)
    ensures QueryRows(a + b) == QueryRows(a) + QueryRows(b)
  {
    assert forall i :: 0 <= i < |a + b| ==> QueryRows(a + b)[i] == (QueryRows(a) + QueryRows(b))[i];
  }

  /** ` -H "key: value"` for a shown header, nothing otherwise. */
  function HeaderFlagText(h: KeyValuePair): string {
    if Shown(h) then " -H \"" + h.key + ": " + h.value + "\"" else ""
  }

  /** The flags of every shown header, in order. */
  function HeaderFlags(hs: seq<KeyValuePair>): string
    decreases |hs|
  {
    if |hs| == 0 then "" else HeaderFlagText(hs[0]) + HeaderFlags(hs[1..])
  }

  /** The body flag: JSON text in double quotes with its double quotes
      escaped, anything else in single quotes verbatim. */
  function BodyFlag(body: string, json: JsonCodec): string {
    if body == "" then ""
    else if json.parse(body).Some? then " -d \"" + EscapeDoubleQuotes(body) + "\""
    else " -d '" + body + "'"
  }

  /** `convertToCurl`: the command is exactly the words `curl`, `-X`, the
      method, the double-quoted URL, the shown header flags and the body
      flag, joined by single spaces. */
  function ConvertToCurl(r: ApiRequest, urls: UrlEngine, json: JsonCodec): (cmd: string)
    ensures "curl -X " <= cmd
    ensures cmd == Line(CurlWords(r, urls, json))
  {
    TextIsLine(r, urls, json);
    CommandText(r, urls, json)
  }

  /** The template string `convertToCurl` builds. */
  function CommandText(r: ApiRequest, urls: UrlEngine, json: JsonCodec): string {
    "curl -X " + r.httpMethod + " \"" + ExportUrl(r, urls) + "\"" + HeaderFlags(r.headers) + BodyFlag(r.body, json)
  }

  // --------------------------------------------------- as command words

  function HeaderWord(h: KeyValuePair): seq<Word> {
    if Shown(h) then [Bare("-H"), DoubleQuoted(h.key + ": " + h.value)] else []
  }

  function HeaderWords(hs: seq<KeyValuePair>): seq<Word>
    decreases |hs|
  {
    if |hs| == 0 then [] else HeaderWord(hs[0]) + HeaderWords(hs[1..])
  }

  function BodyWords(body: string, json: JsonCodec): seq<Word> {
    if body == "" then []
    else if json.parse(body).Some? then [Bare("-d"), EscapedDoubleQuoted(body)]
    else [Bare("-d"), SingleQuoted(body)]
  }

  /** The exported command as a list of command-line words. */
  function CurlWords(r: ApiRequest, urls: UrlEngine, json: JsonCodec): seq<Word> {
    [Bare("curl"), Bare("-X"), Bare(r.httpMethod), DoubleQuoted(ExportUrl(r, urls))]
    + HeaderWords(r.headers) + BodyWords(r.body, json)
  }

  /** Words each preceded by a space. */
  function Spaced(ws: seq<Word>): string
    decreases |ws|
  {
    if |ws| == 0 then "" else " " + Render(ws[0]) + Spaced(ws[1..])
  }

  lemma {:induction false} SpacedAppend(a: seq<Word>, b: seq<Word>)
    ensures Spaced(a + b) == Spaced(a) + Spaced(b)
    decreases |a|
  {
    if |a| == 0 {
      assert a + b == b;
    } else {
      assert (a + b)[0] == a[0] && (a + b)[1..] == a[1..] + b;
      SpacedAppend(a[1..], b);
    }
  }

  lemma {:induction false} LineAppend(a: seq<Word>, b: seq<Word>)
    requires |a| > 0
    ensures Line(a + b) == Line(a) + Spaced(b)
    decreases |a|
  {
    if |a| == 1 {
      if |b| > 0 {
        assert (a + b)[0] == a[0] && (a + b)[1..] == b;
        LineAsSpaced(b);
      } else {
        assert a + b == a;
      }
    } else {
      assert (a + b)[0] == a[0] && (a + b)[1..] == a[1..] + b;
      LineAppend(a[1..], b);
    }
  }

  /** A non-empty line is its first word followed by the others spaced. */
  lemma {:induction false} LineAsSpaced(ws: seq<Word>)
    requires |ws| > 0
    ensures Line(ws) == Render(ws[0]) + Spaced(ws[1..])
    decreases |ws|
  {
    if |ws| > 1 {
      LineAsSpaced(ws[1..]);
      assert ws[1..][0] == ws[1] && ws[1..][1..] == ws[2..];
    }
  }

  lemma {:induction false} HeaderFlagsSpaced(hs: seq<KeyValuePair>)
    ensures HeaderFlags(hs) == Spaced(HeaderWords(hs))
    decreases |hs|
  {
    if |hs| > 0 {
      HeaderFlagsSpaced(hs[1..]);
      HeaderFlagSpaced(hs[0]);
      SpacedAppend(HeaderWord(hs[0]), HeaderWords(hs[1..]));
    }
  }

  lemma HeaderFlagSpaced(h: KeyValuePair)
    ensures HeaderFlagText(h) == Spaced(HeaderWord(h))
  {
    if Shown(h) {
      var ws := HeaderWord(h);
      assert ws[1..][1..] == [];
      assert Spaced(ws[1..]) == " " + Render(ws[1]);
    }
  }

  lemma BodyFlagSpaced(body: string, json: JsonCodec)
    ensures BodyFlag(body, json) == Spaced(BodyWords(body, json))
  {
    var ws := BodyWords(body, json);
    if body != "" {
      assert ws[1..][1..] == [];
      assert Spaced(ws[1..]) == " " + Render(ws[1]);
    }
  }

  /** The exporter's string is exactly its words joined by single spaces. */
  lemma TextIsLine(r: ApiRequest, urls: UrlEngine, json: JsonCodec)
    ensures CommandText(r, urls, json) == Line(CurlWords(r, urls, json))
  {
    var u := ExportUrl(r, urls);
    var head := [Bare("curl"), Bare("-X"), Bare(r.httpMethod), DoubleQuoted(u)];
    var hw, bw := HeaderWords(r.headers), BodyWords(r.body, json);
    var a := "curl -X " + r.httpMethod + " \"" + u + "\"";
    var hf, bf := HeaderFlags(r.headers), BodyFlag(r.body, json);
    HeadLine(r.httpMethod, u);
    assert Spaced(hw + bw) == hf + bf by {
      SpacedAppend(hw, bw);
      HeaderFlagsSpaced(r.headers);
      BodyFlagSpaced(r.body, json);
    }
    assert Line(CurlWords(r, urls, json)) == a + (hf + bf) by {
      assert CurlWords(r, urls, json) == head + (hw + bw);
      LineAppend(head, hw + bw);
    }
    assert CommandText(r, urls, json) == a + hf + bf;
    Associative(a, hf, bf);
  }

  /** The first four words: `curl -X <method> "<url>"`. */
  lemma HeadLine(m: string, u: string)
    ensures Line([Bare("curl"), Bare("-X"), Bare(m), DoubleQuoted(u)]) == "curl -X " + m + " \"" + u + "\""
  {
    var head := [Bare("curl"), Bare("-X"), Bare(m), DoubleQuoted(u)];
    assert head[1..] == [Bare("-X"), Bare(m), DoubleQuoted(u)];
    assert head[1..][1..] == [Bare(m), DoubleQuoted(u)];
    assert head[1..][1..][1..] == [DoubleQuoted(u)];
    assert Line(head[1..][1..]) == m + " " + "\"" + u + "\"";
  }

  // ----------------------------------------------------------- round trip

  /** Text that reads back unchanged from any quoting: no backslash, no
      quote of either kind, no line break. */
  predicate PlainText(s: string) {
    forall i :: 0 <= i < |s| ==> s[i] != '\\' && s[i] != '"' && s[i] != '\'' && s[i] != '\n'
  }

  /** A shown header the importer can split again: a non-empty key without
      a colon, and both halves plain and already trimmed. */
  predicate ExportableHeader(h: KeyValuePair) {
    Shown(h) ==>
      |h.key| > 0 && ':' !in h.key && PlainText(h.key) && PlainText(h.value) &&
      Trimmed(h.key) && Trimmed(h.value)
  }

  /** A body that survives its quoting and the importer's quote stripping:
      no backslash or line break, no quote at either end, and no single
      quote when it is written in single quotes. */
  predicate ExportableBody(body: string, json: JsonCodec) {
    body == "" ||
    (!IsQuote(body[0]) && !IsQuote(body[|body| - 1]) &&
     (forall i :: 0 <= i < |body| ==> body[i] != '\\' && body[i] != '\n') &&
     (json.parse(body).None? ==> forall i :: 0 <= i < |body| ==> body[i] != '\''))
  }

  /** The requests whose export the importer reads back. The written URL
      must be plain http(s) text, and the stored URL must carry no query of
      its own, since the importer moves a query into the parameters. */
  predicate Exportable(r: ApiRequest, urls: UrlEngine, json: JsonCodec) {
    var u := ExportUrl(r, urls);
    |r.httpMethod| > 0 && PlainText(r.httpMethod) && ' ' !in r.httpMethod &&
    ToUpper(r.httpMethod) == r.httpMethod &&
    ("http://" <= u || "https://" <= u) && PlainText(u) &&
    (urls.parse(r.url).None? || urls.parse(r.url).value.query == []) &&
    (forall h :: h in r.headers ==> ExportableHeader(h)) &&
    ExportableBody(r.body, json)
  }


  function HeaderToken(h: KeyValuePair): seq<string> {
    if Shown(h) then ["-H", h.key + ": " + h.value] else []
  }

  function HeaderTokens(hs: seq<KeyValuePair>): seq<string>
    decreases |hs|
  {
    if |hs| == 0 then [] else HeaderToken(hs[0]) + HeaderTokens(hs[1..])
  }

  function BodyTokens(body: string): seq<string> {
    if body == "" then [] else ["-d", body]
  }

  function HeaderDirective(h: KeyValuePair): seq<Directive> {
    if Shown(h) then [Directive(HeaderFlag, "-H", Some(h.key + ": " + h.value))] else []
  }

  function HeaderDirectives(hs: seq<KeyValuePair>): seq<Directive>
    decreases |hs|
  {
    if |hs| == 0 then [] else HeaderDirective(hs[0]) + HeaderDirectives(hs[1..])
  }

  function BodyDirectives(body: string): seq<Directive> {
    if body == "" then [] else [Directive(DataFlag, "-d", Some(body))]
  }

  // --- the string the exporter writes

  lemma {:induction false} HeaderFlagsShape(hs: seq<KeyValuePair>)
    requires forall h :: h in hs ==> ExportableHeader(h)
    ensures '\n' !in HeaderFlags(hs)
    ensures HeaderFlags(hs) == "" || HeaderFlags(hs)[|HeaderFlags(hs)| - 1] == '"'
    decreases |hs|
  {
    if |hs| > 0 {
      assert hs[0] in hs;
      assert forall h :: h in hs[1..] ==> h in hs;
      HeaderFlagsShape(hs[1..]);
      HeaderFlagShape(hs[0]);
      var a, b := HeaderFlagText(hs[0]), HeaderFlags(hs[1..]);
      assert HeaderFlags(hs) == a + b;
      if b == "" {
        assert a + b == a;
      }
    }
  }

  lemma HeaderFlagShape(h: KeyValuePair)
    requires ExportableHeader(h)
    ensures '\n' !in HeaderFlagText(h)
    ensures HeaderFlagText(h) == "" || HeaderFlagText(h)[|HeaderFlagText(h)| - 1] == '"'
  {
    if Shown(h) {
      assert PlainText(h.key) && PlainText(h.value);
    }
  }

  lemma BodyFlagShape(body: string, json: JsonCodec)
    requires ExportableBody(body, json)
    ensures '\n' !in BodyFlag(body, json)
    ensures BodyFlag(body, json) == "" || BodyFlag(body, json)[|BodyFlag(body, json)| - 1] in {'"', '\''}
  {
    if body != "" && json.parse(body).Some? {
      ReplaceAllKeepsOut(body, "\"", "\\\"", '\n');
    }
  }

  lemma OneLineNormal(cmd: string)
    requires '\n' !in cmd && Trimmed(cmd)
    ensures Normalize(cmd) == cmd
  {
    NormalizeOneLine(cmd);
    TrimNoop(cmd);
  }

  /** The exported command is one line with nothing to trim, so the
      importer's normalisation leaves it alone. */
  lemma NormalizeExport(r: ApiRequest, urls: UrlEngine, json: JsonCodec)
    requires Exportable(r, urls, json)
    ensures Normalize(ConvertToCurl(r, urls, json)) == ConvertToCurl(r, urls, json)
    ensures Trimmed(ConvertToCurl(r, urls, json))
  {
    var cmd := ConvertToCurl(r, urls, json);
    var a := "curl -X " + r.httpMethod + " \"" + ExportUrl(r, urls) + "\"";
    var hf, bf := HeaderFlags(r.headers), BodyFlag(r.body, json);
    HeadShape(r.httpMethod, ExportUrl(r, urls));
    HeaderFlagsShape(r.headers);
    BodyFlagShape(r.body, json);
    PiecesShape(a, hf, bf);
    OneLineNormal(cmd);
  }

  lemma HeadShape(m: string, u: string)
    requires PlainText(m) && PlainText(u)
    ensures var a := "curl -X " + m + " \"" + u + "\"";
      '\n' !in a && a[0] == 'c' && a[|a| - 1] == '"'
  {
  }

  /** Three pieces free of line breaks, the first starting with a letter
      and every non-empty one ending in a quote, make one trimmed line. */
  lemma PiecesShape(a: string, hf: string, bf: string)
    requires '\n' !in a && '\n' !in hf && '\n' !in bf
    requires |a| > 0 && a[0] == 'c' && a[|a| - 1] == '"'
    requires hf == "" || hf[|hf| - 1] == '"'
    requires bf == "" || bf[|bf| - 1] in {'"', '\''}
    ensures '\n' !in a + hf + bf && Trimmed(a + hf + bf)
  {
    var cmd := a + hf + bf;
    assert cmd[0] == 'c';
    if bf == "" {
      assert cmd == a + hf;
      if hf == "" {
        assert cmd == a;
      }
    }
  }

  // --- tokens

  lemma TextsAppend(a: seq<Word>, b: seq<Word>)
    ensures Texts(a + b) == Texts(a) + Texts(b)
  {
    assert forall i :: 0 <= i < |a + b| ==> Texts(a + b)[i] == (Texts(a) + Texts(b))[i];
  }

  lemma AllSafeAppend(a: seq<Word>, b: seq<Word>)
    requires AllSafe(a) && AllSafe(b)
    ensures AllSafe(a + b)
  {
    assert forall i :: |a| <= i < |a + b| ==> (a + b)[i] == b[i - |a|];
  }

  lemma {:induction false} HeaderWordsRead(hs: seq<KeyValuePair>)
    requires forall h :: h in hs ==> ExportableHeader(h)
    ensures AllSafe(HeaderWords(hs))
    ensures Texts(HeaderWords(hs)) == HeaderTokens(hs)
    ensures NoEmpty(HeaderTokens(hs))
    decreases |hs|
  {
    if |hs| > 0 {
      assert hs[0] in hs;
      assert forall h :: h in hs[1..] ==> h in hs;
      HeaderWordsRead(hs[1..]);
      HeaderWordRead(hs[0]);
      AllSafeAppend(HeaderWord(hs[0]), HeaderWords(hs[1..]));
      TextsAppend(HeaderWord(hs[0]), HeaderWords(hs[1..]));
      NoEmptyAppend(HeaderToken(hs[0]), HeaderTokens(hs[1..]));
    }
  }

  lemma HeaderWordRead(h: KeyValuePair)
    requires ExportableHeader(h)
    ensures AllSafe(HeaderWord(h))
    ensures Texts(HeaderWord(h)) == HeaderToken(h)
    ensures NoEmpty(HeaderToken(h))
  {
  }

  lemma HeadWordsRead(m: string, u: string)
    requires PlainText(m) && ' ' !in m && PlainText(u)
    ensures AllSafe([Bare("curl"), Bare("-X"), Bare(m), DoubleQuoted(u)])
    ensures Texts([Bare("curl"), Bare("-X"), Bare(m), DoubleQuoted(u)]) == ["curl", "-X", m, u]
  {
    var head := [Bare("curl"), Bare("-X"), Bare(m), DoubleQuoted(u)];
    assert Safe(head[0]) && Safe(head[1]);
    assert Safe(head[2]);
    assert Safe(head[3]);
  }

  lemma BodyWordsRead(body: string, json: JsonCodec)
    requires ExportableBody(body, json)
    ensures AllSafe(BodyWords(body, json))
    ensures Texts(BodyWords(body, json)) == BodyTokens(body)
    ensures NoEmpty(BodyTokens(body))
  {
  }

  lemma NoEmptyAppend(a: seq<string>, b: seq<string>)
    requires NoEmpty(a) && NoEmpty(b)
    ensures NoEmpty(a + b)
  {
  }

  /** The importer's tokens for an exported command: the words the exporter
      wrote, unquoted. */
  lemma ExportTokens(r: ApiRequest, urls: UrlEngine, json: JsonCodec)
    requires Exportable(r, urls, json)
    ensures Tokens(Normalize(ConvertToCurl(r, urls, json))) ==
      ["curl", "-X", r.httpMethod, ExportUrl(r, urls)] + HeaderTokens(r.headers) + BodyTokens(r.body)
  {
    NormalizeExport(r, urls, json);
    var ws := CurlWords(r, urls, json);
    var toks := ["curl", "-X", r.httpMethod, ExportUrl(r, urls)] + HeaderTokens(r.headers) + BodyTokens(r.body);
    WordsRead(r.httpMethod, ExportUrl(r, urls), r.headers, r.body, json);
    LineTokens(ws);
    NonEmptyNoop(toks);
  }

  /** The exported words are all safe to quote, unquote to the tokens the
      importer expects, and none of those is empty. */
  lemma WordsRead(m: string, u: string, hs: seq<KeyValuePair>, body: string, json: JsonCodec)
    requires PlainText(m) && ' ' !in m && |m| > 0 && PlainText(u) && |u| > 0
    requires forall h :: h in hs ==> ExportableHeader(h)
    requires ExportableBody(body, json)
    ensures var ws := [Bare("curl"), Bare("-X"), Bare(m), DoubleQuoted(u)] + HeaderWords(hs) + BodyWords(body, json);
      var toks := ["curl", "-X", m, u] + HeaderTokens(hs) + BodyTokens(body);
      AllSafe(ws) && Texts(ws) == toks && NoEmpty(toks)
  {
    var head := [Bare("curl"), Bare("-X"), Bare(m), DoubleQuoted(u)];
    var hw, bw := HeaderWords(hs), BodyWords(body, json);
    var start := ["curl", "-X", m, u];
    var ht, bt := HeaderTokens(hs), BodyTokens(body);
    HeaderWordsRead(hs);
    HeadWordsRead(m, u);
    BodyWordsRead(body, json);
    AllSafeAppend(head, hw);
    AllSafeAppend(head + hw, bw);
    TextsAppend(head, hw);
    TextsAppend(head + hw, bw);
    assert NoEmpty(start);
    NoEmptyAppend(start, ht);
    NoEmptyAppend(start + ht, bt);
  }

  // --- directives

  lemma {:induction false} SegmentHeaders(hs: seq<KeyValuePair>, rest: seq<string>)
    ensures Segment(HeaderTokens(hs) + rest) == HeaderDirectives(hs) + Segment(rest)
    decreases |hs|
  {
    if |hs| > 0 {
      var tail := HeaderTokens(hs[1..]) + rest;
      SegmentHeaders(hs[1..], rest);
      Associative(HeaderToken(hs[0]), HeaderTokens(hs[1..]), rest);
      SegmentHeader(hs[0], tail);
      Associative(HeaderDirective(hs[0]), HeaderDirectives(hs[1..]), Segment(rest));
    } else {
      assert HeaderTokens(hs) + rest == rest;
    }
  }

  lemma SegmentHeader(h: KeyValuePair, tail: seq<string>)
    ensures Segment(HeaderToken(h) + tail) == HeaderDirective(h) + Segment(tail)
  {
    if Shown(h) {
      assert KindOf("-H") == HeaderFlag;
      SegmentTwo("-H", h.key + ": " + h.value, tail);
    } else {
      assert HeaderToken(h) + tail == tail;
    }
  }

  lemma SegmentBody(body: string)
    ensures Segment(BodyTokens(body)) == BodyDirectives(body)
  {
    if body != "" {
      assert KindOf("-d") == DataFlag;
      SegmentTwo("-d", body, []);
      assert ["-d", body] + [] == ["-d", body];
    }
  }

  /** The directives the importer's walk reads from an exported command. */
  lemma ExportDirectives(r: ApiRequest, urls: UrlEngine, json: JsonCodec)
    requires Exportable(r, urls, json)
    ensures Segment(["curl", "-X", r.httpMethod, ExportUrl(r, urls)] + HeaderTokens(r.headers) + BodyTokens(r.body)) ==
      [Directive(CurlWord, "curl", None), Directive(MethodFlag, "-X", Some(r.httpMethod)), Directive(UrlToken, ExportUrl(r, urls), None)]
      + HeaderDirectives(r.headers) + BodyDirectives(r.body)
  {
    var ht, bt := HeaderTokens(r.headers), BodyTokens(r.body);
    var u := ExportUrl(r, urls);
    assert ["curl", "-X", r.httpMethod, u] + ht + bt == ["curl"] + (["-X", r.httpMethod] + ([u] + (ht + bt)));
    LeadingKinds(u);
    SegmentOne("curl", ["-X", r.httpMethod] + ([u] + (ht + bt)));
    SegmentTwo("-X", r.httpMethod, [u] + (ht + bt));
    SegmentOne(u, ht + bt);
    SegmentHeaders(r.headers, bt);
    SegmentBody(r.body);
    Regroup(Directive(CurlWord, "curl", None), Directive(MethodFlag, "-X", Some(r.httpMethod)), Directive(UrlToken, u, None),
      HeaderDirectives(r.headers), BodyDirectives(r.body));
  }

  lemma Regroup<T>(a: T, b: T, c: T, x: seq<T>, y: seq<T>)
    ensures [a] + ([b] + ([c] + (x + y))) == [a, b, c] + x + y
  {
  }

  /** How the importer classifies the first three exported tokens. */
  lemma LeadingKinds(u: string)
    requires "http://" <= u || "https://" <= u
    ensures KindOf("curl") == CurlWord && KindOf("-X") == MethodFlag && KindOf(u) == UrlToken
  {
    assert KindOf("curl") == CurlWord by {
      assert ToLower("curl") == "curl";
    }
    assert KindOf("-X") == MethodFlag;
    assert KindOf(u) == UrlToken by {
      assert u[..4] == "http";
      assert |ToLower(u)| == |u| >= 7;
      assert u != "--request" && u != "-X" by {
        assert u[0] == 'h';
      }
    }
  }

  // --- applying them

  /** An exported header argument splits back into the header. */
  lemma HeaderRowExported(h: KeyValuePair)
    requires ExportableHeader(h) && Shown(h)
    ensures HeaderRow(h.key + ": " + h.value) == Some(EnabledPair(h.key, h.value))
  {
    var t := h.key + (": " + h.value);
    assert h.key + ": " + h.value == t;
    HeaderTextUnquoted(h.key, h.value);
    HeaderTextColon(h.key, h.value);
    TrimNoop(h.key);
    TrimAfterSpace(h.value);
  }

  /** The `key: value` text of a header neither starts nor ends with a
      quote, so the importer's quote stripping leaves it alone. */
  lemma HeaderTextUnquoted(key: string, value: string)
    requires |key| > 0 && PlainText(key) && PlainText(value)
    ensures StripQuotes(key + (": " + value)) == key + (": " + value)
  {
    var t := key + (": " + value);
    assert t[0] == key[0];
    if |value| > 0 {
      assert t[|t| - 1] == value[|value| - 1];
    } else {
      assert t[|t| - 1] == ' ';
    }
  }

  /** The first colon of the `key: value` text ends the key. */
  lemma HeaderTextColon(key: string, value: string)
    requires ':' !in key
    ensures var t := key + (": " + value);
      IndexOf(t, ':') == |key| && t[..|key|] == key && t[|key| + 1..] == " " + value
  {
    IndexOfAfter(key, ": " + value, ':');
    var t := key + (": " + value);
    assert t[|key| + 1..] == " " + value;
  }

  lemma ApplyShownHeader(q: ApiRequest, t: string, row: KeyValuePair, urls: UrlEngine, json: JsonCodec)
    requires HeaderRow(t) == Some(row)
    ensures Apply(q, Directive(HeaderFlag, "-H", Some(t)), urls, json) == q.(headers := q.headers + [row])
  {
    ApplyHeaders(q, Directive(HeaderFlag, "-H", Some(t)), urls, json);
  }

  lemma ApplyOneHeader(q: ApiRequest, h: KeyValuePair, urls: UrlEngine, json: JsonCodec)
    requires ExportableHeader(h)
    ensures ApplyAll(q, HeaderDirective(h), urls, json) == q.(headers := q.headers + ShownRow(h))
  {
    if Shown(h) {
      var d := Directive(HeaderFlag, "-H", Some(h.key + ": " + h.value));
      assert ApplyAll(q, [d], urls, json) == Apply(q, d, urls, json) by {
        assert [d][1..] == [];
      }
      HeaderRowExported(h);
      ApplyShownHeader(q, h.key + ": " + h.value, EnabledPair(h.key, h.value), urls, json);
    } else {
      assert q.headers + [] == q.headers;
    }
  }

  lemma {:induction false} ApplyHeaderDirectives(q: ApiRequest, hs: seq<KeyValuePair>, urls: UrlEngine, json: JsonCodec)
    requires forall h :: h in hs ==> ExportableHeader(h)
    ensures ApplyAll(q, HeaderDirectives(hs), urls, json) == q.(headers := q.headers + ShownRows(hs))
    decreases |hs|
  {
    if |hs| == 0 {
      assert q.headers + [] == q.headers;
    } else {
      assert hs[0] in hs;
      assert forall h :: h in hs[1..] ==> h in hs;
      var q1 := q.(headers := q.headers + ShownRow(hs[0]));
      ApplyOneHeader(q, hs[0], urls, json);
      ApplyAllAppend(q, HeaderDirective(hs[0]), HeaderDirectives(hs[1..]), urls, json);
      ApplyHeaderDirectives(q1, hs[1..], urls, json);
      Associative(q.headers, ShownRow(hs[0]), ShownRows(hs[1..]));
    }
  }

  lemma ApplyLeadingDirectives(q: ApiRequest, m: string, u: string, urls: UrlEngine, json: JsonCodec)
    ensures ApplyAll(q, [Directive(CurlWord, "curl", None), Directive(MethodFlag, "-X", Some(m)), Directive(UrlToken, u, None)], urls, json)
            == ApplyUrl(q.(httpMethod := ToUpper(m)), u, urls)
  {
    var ds := [Directive(CurlWord, "curl", None), Directive(MethodFlag, "-X", Some(m)), Directive(UrlToken, u, None)];
    var q1 := q.(httpMethod := ToUpper(m));
    assert Apply(q, ds[0], urls, json) == q;
    assert Apply(q, ds[1], urls, json) == q1;
    assert ApplyAll(q, ds, urls, json) == ApplyAll(q, ds[1..], urls, json);
    assert ApplyAll(q, ds[1..], urls, json) == ApplyAll(q1, ds[2..], urls, json);
    assert ds[2..][1..] == [];
  }

  /** The importer reading the exported URL: with no parameters, or a
      stored URL that does not parse, the URL comes back as stored and no
      parameter appears; otherwise, under a lawful URL engine, the URL
      comes back in its serialised form and the shown parameters come back
      as rows, in order. */
  lemma ImportExportedUrl(q: ApiRequest, r: ApiRequest, urls: UrlEngine)
    requires q.params == [] && PlainText(ExportUrl(r, urls))
    requires urls.parse(r.url).None? || urls.parse(r.url).value.query == []
    ensures var a := ApplyUrl(q, ExportUrl(r, urls), urls);
      a == q.(url := a.url, params := a.params) &&
      (|r.params| == 0 || urls.parse(r.url).None? ==> a.url == r.url && a.params == []) &&
      (UrlLawful(urls) && |r.params| > 0 && urls.parse(r.url).Some? ==>
         a.url == urls.href(urls.parse(r.url).value) && a.params == ShownRows(r.params))
  {
    var u := ExportUrl(r, urls);
    assert StripQuotes(u) == u by {
      assert PlainText(u);
    }
    if |r.params| > 0 && urls.parse(r.url).Some? && UrlLawful(urls) {
      var v := urls.parse(r.url).value;
      var w := v.(query := ShownQuery(r.params));
      assert v.query + ShownQuery(r.params) == ShownQuery(r.params);
      assert u == urls.href(w);
      assert urls.parse(u) == Some(w);
      assert w.(query := []) == v;
      assert SplitOn(u, '?')[0] == urls.href(v);
    } else if |r.params| == 0 || urls.parse(r.url).None? {
      assert u == r.url;
      if urls.parse(r.url).Some? {
        assert QueryRows(urls.parse(r.url).value.query) == [];
      }
    }
  }

  lemma ApplyBodyDirectives(q: ApiRequest, body: string, urls: UrlEngine, json: JsonCodec)
    requires ExportableBody(body, json)
    ensures ApplyAll(q, BodyDirectives(body), urls, json) ==
            (if body == "" then q else ApplyData(q, body, json))
  {
    if body != "" {
      var d := Directive(DataFlag, "-d", Some(body));
      assert [d][1..] == [];
      assert StripQuotes(body) == body;
      assert Apply(q, d, urls, json) == ApplyData(q, body, json);
    }
  }

  /** Exporting a request and importing the command gives back its method,
      URL, parameters, shown headers and body: the method turns from GET to
      POST when there is a body, and a body that is JSON comes back
      pretty-printed. Parameters come back only when the stored URL parses
      (they are lost otherwise), and then, under a lawful URL engine, as
      the shown rows with the URL in its serialised form. */
  lemma ExportThenImport(r: ApiRequest, urls: UrlEngine, json: JsonCodec, id: string)
    requires Exportable(r, urls, json)
    ensures var q := ParseTokens(ConvertToCurl(r, urls, json), urls, json, id);
      ((|r.params| == 0 || urls.parse(r.url).None?) ==> q.url == r.url && q.params == []) &&
      (UrlLawful(urls) && |r.params| > 0 && urls.parse(r.url).Some? ==>
         q.url == urls.href(urls.parse(r.url).value) && q.params == ShownRows(r.params)) &&
      q.headers == ShownRows(r.headers) &&
      q.httpMethod == (if r.body != "" && r.httpMethod == "GET" then "POST" else r.httpMethod) &&
      q.body == (if r.body == "" then "" else Reformat(r.body, json)) &&
      (q.url != "" ==> q.name == q.httpMethod + " " + LastSegment(urls, q.url))
  {
    var cmd := ConvertToCurl(r, urls, json);
    ExportWalk(r, urls, json, id);
    ExportedFields(r, urls, json, id);
    ParseTokensFinalizes(cmd, urls, json, id);
    FinalFields(ParseTokens(cmd, urls, json, id), ExportedRequest(r, urls, json, id), urls);
  }

  /** Finalising keeps every field but the name and the tests. */
  lemma FinalFields(q: ApiRequest, e: ApiRequest, urls: UrlEngine)
    requires q == Finalize(e, urls)
    ensures q.url == e.url && q.params == e.params && q.headers == e.headers
    ensures q.httpMethod == e.httpMethod && q.body == e.body
    ensures q.url != "" ==> q.name == q.httpMethod + " " + LastSegment(urls, q.url)
  {
  }

  /** The importer's tokenizing path is its walk, finalised. */
  lemma ParseTokensFinalizes(cmd: string, urls: UrlEngine, json: JsonCodec, id: string)
    ensures ParseTokens(cmd, urls, json, id) == Finalize(ApplyAll(DefaultRequest(id), Directives(cmd), urls, json), urls)
  {
  }

  /** The request the importer's walk builds from an exported command. */
  function ExportedRequest(r: ApiRequest, urls: UrlEngine, json: JsonCodec, id: string): ApiRequest {
    var q1 := ApplyUrl(DefaultRequest(id).(httpMethod := r.httpMethod), ExportUrl(r, urls), urls);
    var q2 := q1.(headers := ShownRows(r.headers));
    if r.body == "" then q2 else ApplyData(q2, r.body, json)
  }

  lemma ExportedFields(r: ApiRequest, urls: UrlEngine, json: JsonCodec, id: string)
    requires Exportable(r, urls, json)
    ensures var e := ExportedRequest(r, urls, json, id);
      ((|r.params| == 0 || urls.parse(r.url).None?) ==> e.url == r.url && e.params == []) &&
      (UrlLawful(urls) && |r.params| > 0 && urls.parse(r.url).Some? ==>
         e.url == urls.href(urls.parse(r.url).value) && e.params == ShownRows(r.params)) &&
      e.headers == ShownRows(r.headers) &&
      e.httpMethod == (if r.body != "" && r.httpMethod == "GET" then "POST" else r.httpMethod) &&
      e.body == (if r.body == "" then "" else Reformat(r.body, json))
  {
    ImportExportedUrl(DefaultRequest(id).(httpMethod := r.httpMethod), r, urls);
  }

  /** The walk over an exported command's directives. */
  lemma ExportWalk(r: ApiRequest, urls: UrlEngine, json: JsonCodec, id: string)
    requires Exportable(r, urls, json)
    ensures ApplyAll(DefaultRequest(id), Directives(ConvertToCurl(r, urls, json)), urls, json) == ExportedRequest(r, urls, json, id)
  {
    var cmd := ConvertToCurl(r, urls, json);
    var u := ExportUrl(r, urls);
    var d3 := [Directive(CurlWord, "curl", None), Directive(MethodFlag, "-X", Some(r.httpMethod)), Directive(UrlToken, u, None)];
    var hd, bd := HeaderDirectives(r.headers), BodyDirectives(r.body);
    assert Directives(cmd) == d3 + hd + bd by {
      ExportTokens(r, urls, json);
      ExportDirectives(r, urls, json);
    }
    var q0 := DefaultRequest(id);
    var q1 := ApplyUrl(q0.(httpMethod := r.httpMethod), u, urls);
    var q2 := q1.(headers := ShownRows(r.headers));
    var q3 := if r.body == "" then q2 else ApplyData(q2, r.body, json);
    assert ApplyAll(q0, d3, urls, json) == q1 by {
      ApplyLeadingDirectives(q0, r.httpMethod, u, urls, json);
    }
    assert q1.headers == [] by {
      ImportExportedUrl(q0.(httpMethod := r.httpMethod), r, urls);
    }
    assert ApplyAll(q1, hd, urls, json) == q2 by {
      ApplyHeaderDirectives(q1, r.headers, urls, json);
      assert [] + ShownRows(r.headers) == ShownRows(r.headers);
    }
    assert ApplyAll(q2, bd, urls, json) == q3 by {
      ApplyBodyDirectives(q2, r.body, urls, json);
    }
    assert ApplyAll(q0, d3 + hd + bd, urls, json) == q3 by {
      ApplyAllAppend(q0, d3, hd, urls, json);
      ApplyAllAppend(q0, d3 + hd, bd, urls, json);
    }
  }

  /** Through the cache: a command neither cached nor mistaken for a bare
      URL is imported as `ExportThenImport` describes. */
  lemma ExportThenParse(r: ApiRequest, cmd: string, cache: Cache, urls: UrlEngine, json: JsonCodec, id: string)
    requires Exportable(r, urls, json) && ValidCache(cache)
    requires cmd == ConvertToCurl(r, urls, json)
    requires cmd !in cache.entries && !IsSimpleUrl(urls, cmd)
    ensures var q := ParseCurlCommand(cmd, cache, urls, json, id).result.value;
      ((|r.params| == 0 || urls.parse(r.url).None?) ==> q.url == r.url && q.params == []) &&
      (UrlLawful(urls) && |r.params| > 0 && urls.parse(r.url).Some? ==>
         q.url == urls.href(urls.parse(r.url).value) && q.params == ShownRows(r.params)) &&
      q.headers == ShownRows(r.headers) &&
      q.body == (if r.body == "" then "" else Reformat(r.body, json))
  {
    NormalizeExport(r, urls, json);
    TrimNoop(cmd);
    ExportThenImport(r, urls, json, id);
  }

  /** A body already in the runtime's pretty-printed form comes back
      verbatim. */
  lemma PrettyBodyKept(body: string, j: Json, json: JsonCodec)
    requires Lawful(json) && WellFormed(j) && body == json.pretty(j)
    ensures Reformat(body, json) == body
  {
  }
}
