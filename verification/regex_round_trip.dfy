/** The regular-expression exporter read back by its own importer
    (`convertToCurl` followed by `parseCurlCommand` in
    `src/utils/curlParser.ts`). For a request whose words contain none of
    the characters the expressions stop at, the import keeps the method,
    the URL and its parameters, every shown header and the body, as the
    importer tidies it. Disabled rows are dropped on the way, and the rows
    that come back carry no `enabled` flag. */
module RegexRoundTrip {
  import opened Wrappers
  import opened Strs
  import opened Json
  import opened Urls
  import opened ApiTypes
  import opened Scan
  import opened RegexCurl
  import CurlExport
  import Seqs

  // ------------------------------------------------------------- shapes

  /** `-X <method> "<url>"`: the command after `curl `. */
  function Lead(m: string, u: string): string {
    "-X " + m + " \"" + u + "\""
  }

  /** ` -d '<body>'`, or nothing for an empty body. */
  function BodyTail(b: string): string {
    if b == "" then "" else " -d '" + b + "'"
  }

  /** The shown rows as this importer stores them: no description and no
      `enabled` flag. */
  function UnflaggedRows(hs: seq<KeyValuePair>): (r: seq<KeyValuePair>)
    ensures NoFlags(r)
    decreases |hs|
  {
    if |hs| == 0 then []
    else
      var here := if Shown(hs[0]) then [KeyValuePair(hs[0].key, hs[0].value, None, None)] else [];
      here + UnflaggedRows(hs[1..])
  }

  // ----------------------------------------------------------- readable

  /** No whitespace and no quote. */
  predicate Word(t: string) {
    forall i :: 0 <= i < |t| ==> !IsSpace(t[i]) && !IsQuote(t[i])
  }

  predicate NoQuotes(t: string) {
    forall i :: 0 <= i < |t| ==> !IsQuote(t[i])
  }

  /** A method word the method expression reads whole and no flag
      expression can start inside. */
  predicate ReadableMethod(m: string) {
    |m| > 0 && Word(m) && '-' !in m && ToUpper(m) == m
  }

  /** A shown header the header expression splits back into its key and
      value. */
  predicate ReadableHeader(h: KeyValuePair) {
    Shown(h) ==>
      |h.key| > 0 && ':' !in h.key && NoQuotes(h.key) && NoQuotes(h.value) &&
      Trimmed(h.key) && Trimmed(h.value)
  }

  /** A body on one line in which no header flag can start. */
  predicate ReadableBody(b: string) {
    (forall i :: 0 <= i < |b| ==> !IsLineTerminator(b[i])) &&
    (forall i :: 0 <= i < |b| ==> NoFlagStart(b, i))
  }

  /** No `-H` and no `--` starts at `i`. */
  predicate NoFlagStart(b: string, i: nat) {
    i + 1 < |b| && b[i] == '-' ==> b[i + 1] != 'H' && b[i + 1] != '-'
  }

  /** The requests whose conversion the importer reads back: readable
      words, a written URL free of whitespace and quotes, and a stored URL
      that parses without a query of its own (the importer moves a query
      into the parameters and cuts the URL at its first `?`). */
  predicate Readable(r: ApiRequest, urls: UrlEngine) {
    var u := CurlExport.ExportUrl(r, urls);
    ReadableMethod(r.httpMethod) && |u| > 0 && Word(u) &&
    (forall h :: h in r.headers ==> ReadableHeader(h)) && ReadableBody(r.body) &&
    urls.parse(r.url).Some? && urls.parse(r.url).value.query == [] &&
    (|r.params| == 0 ==> '?' !in r.url)
  }

  // ------------------------------------------------- what the flags need

  /** The characters flags are written with: a dash or a letter. */
  predicate FlagChar(c: char) {
    c == '-' || IsLower(c) || IsUpper(c)
  }

  lemma FlagCharPlain(c: char)
    requires FlagChar(c)
    ensures !IsSpace(c) && !IsQuote(c)
  {
  }

  /** `-H` and `--header` are written with flag characters. */
  lemma HeaderFlagChars(s: string, k: nat)
    requires FlagEnd(s, k, "-H", "--header").Some?
    ensures var p := FlagEnd(s, k, "-H", "--header").value;
      k + 1 < p && s[k] == '-' && (s[k + 1] == 'H' || s[k + 1] == '-') &&
      forall j :: k <= j < p ==> FlagChar(s[j])
  {
    var p := FlagEnd(s, k, "-H", "--header").value;
    if "-H" <= s[k..] {
      assert s[k..][..2] == "-H";
      assert s[k] == '-' && s[k + 1] == 'H';
    } else {
      assert s[k..][..8] == "--header";
      assert s[k] == '-' && s[k + 1] == '-' && s[k + 2] == 'h' && s[k + 3] == 'e';
      assert s[k + 4] == 'a' && s[k + 5] == 'd' && s[k + 6] == 'e' && s[k + 7] == 'r';
      forall j | k <= j < p
        ensures FlagChar(s[j])
      {
        assert j - k in {0, 1, 2, 3, 4, 5, 6, 7};
      }
    }
  }

  /** `--data` and `-d` are written with flag characters and end in `a`
      or `d`. */
  lemma DataFlagChars(s: string, k: nat)
    requires FlagEnd(s, k, "--data", "-d").Some?
    ensures var p := FlagEnd(s, k, "--data", "-d").value;
      k + 1 < p && s[k] == '-' && (s[k + 1] == 'd' || s[k + 1] == '-') &&
      (s[p - 1] == 'a' || s[p - 1] == 'd') &&
      forall j :: k <= j < p ==> FlagChar(s[j])
  {
    var p := FlagEnd(s, k, "--data", "-d").value;
    if "--data" <= s[k..] {
      assert s[k..][..6] == "--data";
      assert s[k] == '-' && s[k + 1] == '-' && s[k + 2] == 'd';
      assert s[k + 3] == 'a' && s[k + 4] == 't' && s[k + 5] == 'a';
      forall j | k <= j < p
        ensures FlagChar(s[j])
      {
        assert j - k in {0, 1, 2, 3, 4, 5};
      }
    } else {
      assert s[k..][..2] == "-d";
      assert s[k] == '-' && s[k + 1] == 'd';
    }
  }

  /** A header match starts with `-H` or `--header` and needs whitespace
      right after the flag. */
  lemma HeaderAtShape(s: string, k: nat)
    requires HeaderAt(s, k).Some?
    ensures var p := FlagEnd(s, k, "-H", "--header").value;
      k + 1 < p < |s| && IsSpace(s[p]) && s[k] == '-' && (s[k + 1] == 'H' || s[k + 1] == '-') &&
      forall j :: k <= j < p ==> FlagChar(s[j])
  {
    HeaderFlagChars(s, k);
  }

  /** A data match starts with `--data` or `-d` and needs whitespace after
      the flag, up to a quote. */
  lemma DataAtShape(s: string, k: nat)
    requires DataAt(s, k).Some?
    ensures var p := FlagEnd(s, k, "--data", "-d").value;
      var a := Skip(s, p, IsSpace);
      k + 1 < p < a < |s| && IsSpace(s[p]) && IsQuote(s[a]) &&
      s[k] == '-' && (s[k + 1] == 'd' || s[k + 1] == '-') &&
      (s[p - 1] == 'a' || s[p - 1] == 'd') &&
      forall j :: k <= j < p ==> FlagChar(s[j])
  {
    DataFlagChars(s, k);
  }

  /** No header or data match starts inside a stretch free of whitespace
      that ends in a quote: the flag would have to run into the quote. */
  lemma WordNoMatch(s: string, lo: nat, hi: nat)
    requires lo <= hi < |s| && IsQuote(s[hi])
    requires forall j :: lo <= j <= hi ==> !IsSpace(s[j])
    ensures forall k :: lo <= k <= hi ==> HeaderAt(s, k).None? && DataAt(s, k).None?
  {
    forall k | lo <= k <= hi
      ensures HeaderAt(s, k).None? && DataAt(s, k).None?
    {
      if HeaderAt(s, k).Some? {
        HeaderAtShape(s, k);
      }
      if DataAt(s, k).Some? {
        DataAtShape(s, k);
      }
    }
  }

  // --------------------------------------------------------------- lead

  lemma LeadChars(s: string, m: string, u: string)
    requires Lead(m, u) <= s
    ensures |s| >= 5 + |m| + |u|
    ensures s[0] == '-' && s[1] == 'X' && s[2] == ' ' && s[3 + |m|] == ' '
    ensures s[4 + |m|] == '"' && s[5 + |m| + |u|] == '"'
    ensures forall i :: 0 <= i < |m| ==> s[3 + i] == m[i]
    ensures forall i :: 0 <= i < |u| ==> s[5 + |m| + i] == u[i]
  {
    var l := Lead(m, u);
    assert l == "-X " + m + " \"" + u + "\"";
    assert s[..|l|] == l;
    forall i | 0 <= i < |m|
      ensures s[3 + i] == m[i]
    {
      assert l[3 + i] == m[i];
    }
    forall i | 0 <= i < |u|
      ensures s[5 + |m| + i] == u[i]
    {
      assert l[5 + |m| + i] == u[i];
    }
  }

  /** No header or data match starts inside the lead. */
  lemma LeadNoFlags(s: string, m: string, u: string)
    requires Lead(m, u) <= s && ReadableMethod(m) && Word(u)
    ensures forall k :: 0 <= k < |Lead(m, u)| ==> HeaderAt(s, k).None? && DataAt(s, k).None?
  {
    LeadChars(s, m, u);
    var hi := 5 + |m| + |u|;
    WordNoMatch(s, 4 + |m|, hi);
    forall k | 0 <= k < 4 + |m|
      ensures HeaderAt(s, k).None? && DataAt(s, k).None?
    {
      if 3 <= k < 3 + |m| {
        assert s[k] == m[k - 3];
      }
      if HeaderAt(s, k).Some? {
        HeaderAtShape(s, k);
      }
      if DataAt(s, k).Some? {
        DataAtShape(s, k);
      }
    }
  }

  /** The first quoted text is the URL. */
  lemma LeadQuoted(s: string, m: string, u: string)
    requires Lead(m, u) <= s && ReadableMethod(m) && |u| > 0 && Word(u)
    ensures FirstQuoted(s) == Some(u)
  {
    LeadChars(s, m, u);
    var k := 4 + |m|;
    forall j | 0 <= j < k
      ensures QuotedAt(s, j).None?
    {
      if 3 <= j < 3 + |m| {
        assert s[j] == m[j - 3];
      }
    }
    assert s[k + 1..k + 1 + |u|] == u;
    QuotedAtMeaning(s, k, u);
    LeftmostIs(|s|, 0, k, u, j => QuotedAt(s, j));
  }

  /** The method expression matches at the very start. */
  lemma LeadMethod(s: string, m: string, u: string)
    requires Lead(m, u) <= s && ReadableMethod(m)
    ensures FirstMethod(s) == Some(m)
  {
    LeadChars(s, m, u);
    assert s[0..2] == "-X";
    assert FlagEnd(s, 0, "-X", "--request") == Some(2);
    SkipExact(s, 2, 3, IsSpace);
    SkipExact(s, 3, 3 + |m|, NotSpace);
    assert s[3..3 + |m|] == m;
    LeftmostIs(|s|, 0, 0, m, j => MethodAt(s, j));
  }

  // -------------------------------------------------------- header flags

  /** The flag the exporter writes for a header with key `key` and value
      `v`. */
  function FlagText(key: string, v: string): string {
    " -H \"" + key + ": " + v + "\""
  }

  /** ` -H "<key>: <value>"` written at position `i`. */
  predicate FlagTextAt(s: string, i: nat, key: string, v: string) {
    i + 8 + |key| + |v| <= |s| && s[i..i + 8 + |key| + |v|] == FlagText(key, v)
  }

  /** The same flag, character by character. */
  predicate FlagCharsAt(s: string, i: nat, key: string, v: string) {
    i + 8 + |key| + |v| <= |s| &&
    s[i] == ' ' && s[i + 1] == '-' && s[i + 2] == 'H' && s[i + 3] == ' ' && s[i + 4] == '"' &&
    s[i + 5 + |key|] == ':' && s[i + 6 + |key|] == ' ' && s[i + 7 + |key| + |v|] == '"' &&
    (forall j :: 0 <= j < |key| ==> s[i + 5 + j] == key[j]) &&
    (forall j :: 0 <= j < |v| ==> s[i + 7 + |key| + j] == v[j])
  }

  lemma FlagChars(s: string, i: nat, key: string, v: string)
    requires FlagTextAt(s, i, key, v)
    ensures FlagCharsAt(s, i, key, v)
  {
    var t, n := FlagText(key, v), 8 + |key| + |v|;
    assert |t| == n;
    forall k | 0 <= k < n
      ensures t[k] == s[i + k]
    {
      assert s[i..i + n][k] == s[i + k];
    }
    forall j | 0 <= j < |key|
      ensures s[i + 5 + j] == key[j]
    {
      assert t[5 + j] == key[j];
    }
    forall j | 0 <= j < |v|
      ensures s[i + 7 + |key| + j] == v[j]
    {
      assert t[7 + |key| + j] == v[j];
    }
  }

  lemma FlagTextChars(s: string, i: nat, h: KeyValuePair)
    requires Shown(h)
    requires i + |CurlExport.HeaderFlagText(h)| <= |s|
    requires s[i..i + |CurlExport.HeaderFlagText(h)|] == CurlExport.HeaderFlagText(h)
    ensures |CurlExport.HeaderFlagText(h)| == 8 + |h.key| + |h.value|
    ensures FlagTextAt(s, i, h.key, h.value)
  {
    assert CurlExport.HeaderFlagText(h) == FlagText(h.key, h.value);
  }

  /** The header expression's match, given where its pieces end. */
  lemma HeaderAtParts(s: string, k: nat, p: nat, a: nat, c: nat, q: nat, key: string, v: string)
    requires FlagEnd(s, k, "-H", "--header") == Some(p)
    requires Skip(s, p, IsSpace) == a && p < a < |s| && IsQuote(s[a])
    requires Skip(s, a + 1, NotColon) == c && a + 1 < c < |s|
    requires Skip(s, c + 1, NotQuote) == q && c + 1 < q < |s|
    requires s[a + 1..c] == key && s[c + 1..q] == v
    ensures HeaderAt(s, k) == Some(HeaderMatch(key, v, q + 1))
  {
  }

  /** Where the pieces of the header expression end inside a header's
      flag written at `i`. */
  lemma FlagTextSkips(s: string, i: nat, key: string, v: string)
    requires FlagCharsAt(s, i, key, v)
    requires |key| > 0 && ':' !in key && NoQuotes(v)
    ensures FlagEnd(s, i + 1, "-H", "--header") == Some(i + 3)
    ensures Skip(s, i + 3, IsSpace) == i + 4
    ensures Skip(s, i + 5, NotColon) == i + 5 + |key|
    ensures Skip(s, i + 6 + |key|, NotQuote) == i + 7 + |key| + |v|
    ensures IsQuote(s[i + 4]) && i + 7 + |key| + |v| < |s|
  {
    var k := i + 1;
    assert s[k..][..2] == "-H";
    SkipExact(s, k + 2, k + 3, IsSpace);
    var c := k + 4 + |key|;
    assert forall j :: k + 4 <= j < c ==> NotColon(s[j]) by {
      forall j | k + 4 <= j < c
        ensures NotColon(s[j])
      {
        assert s[j] == key[j - k - 4];
      }
    }
    SkipExact(s, k + 4, c, NotColon);
    var q := c + 2 + |v|;
    assert forall j :: c + 1 <= j < q ==> NotQuote(s[j]) by {
      forall j | c + 1 <= j < q
        ensures NotQuote(s[j])
      {
        if j > c + 1 {
          assert s[j] == v[j - c - 2];
        }
      }
    }
    SkipExact(s, c + 1, q, NotQuote);
  }

  /** The key and the value as the header expression slices them. */
  lemma FlagTextSlices(s: string, i: nat, key: string, v: string)
    requires FlagCharsAt(s, i, key, v)
    ensures s[i + 5..i + 5 + |key|] == key
    ensures s[i + 6 + |key|..i + 7 + |key| + |v|] == " " + v
  {
    FlagChars(s, i, key, v);
  }

  /** The header expression reads a shown header's flag back: its key, and
      its value behind the space the exporter wrote. */
  lemma FlagTextHeader(s: string, i: nat, key: string, v: string)
    requires FlagCharsAt(s, i, key, v)
    requires |key| > 0 && ':' !in key && NoQuotes(v)
    ensures HeaderAt(s, i).None?
    ensures HeaderAt(s, i + 1) == Some(HeaderMatch(key, " " + v, i + 8 + |key| + |v|))
  {
    HeaderNoneAtPlain(s, i);
    FlagTextSkips(s, i, key, v);
    FlagTextSlices(s, i, key, v);
    HeaderAtParts(s, i + 1, i + 3, i + 4, i + 5 + |key|, i + 7 + |key| + |v|, key, " " + v);
  }

  /** No data match starts before a character that can be neither part
      of a flag nor whitespace, unless a quote comes first. */
  lemma DataNoneAcross(s: string, k: nat, x: nat)
    requires k <= x < |s| && !FlagChar(s[x]) && !IsSpace(s[x])
    requires forall j :: k <= j <= x ==> !IsQuote(s[j])
    ensures DataAt(s, k).None?
  {
    if DataAt(s, k).Some? {
      DataAtShape(s, k);
    }
  }

  /** No data match starts before a quote that follows a character other
      than whitespace, unless another quote comes first: the flag's
      whitespace would have to run up to that quote. */
  lemma DataNoneBeforeQuote(s: string, k: nat, q: nat)
    requires k < q < |s| && IsQuote(s[q]) && !IsSpace(s[q - 1])
    requires forall j :: k <= j < q ==> !IsQuote(s[j])
    ensures DataAt(s, k).None?
  {
    if DataAt(s, k).Some? {
      DataAtShape(s, k);
    }
  }

  /** No header match starts where the character is not `-`. */
  lemma HeaderNoneAtPlain(s: string, k: nat)
    requires k < |s| && s[k] != '-'
    ensures HeaderAt(s, k).None?
  {
    if HeaderAt(s, k).Some? {
      HeaderAtShape(s, k);
    }
  }

  /** No data match starts where the character is not `-`. */
  lemma DataNoneAtPlain(s: string, k: nat)
    requires k < |s| && s[k] != '-'
    ensures DataAt(s, k).None?
  {
    if DataAt(s, k).Some? {
      DataAtShape(s, k);
    }
  }

  /** No data match starts inside a header's flag: every quote there
      closes a key or a value, the colon stops any flag before the key's
      end, and a trimmed value leaves no whitespace before the closing
      quote but the space after the colon. */
  lemma FlagTextNoData(s: string, i: nat, key: string, v: string)
    requires FlagTextAt(s, i, key, v)
    requires NoQuotes(key) && NoQuotes(v) && Trimmed(v)
    ensures forall k :: i <= k < i + 8 + |key| + |v| ==> DataAt(s, k).None?
  {
    FlagChars(s, i, key, v);
    var kn, vn := |key|, |v|;
    var x, hi := i + 5 + kn, i + 7 + kn + vn;
    assert forall j :: i + 5 <= j < hi ==> !IsQuote(s[j]) by {
      forall j | i + 5 <= j < hi
        ensures !IsQuote(s[j])
      {
        if j < x {
          assert s[j] == key[j - i - 5];
        } else if j > x + 1 {
          assert s[j] == v[j - x - 2];
        }
      }
    }
    if vn > 0 {
      assert s[hi - 1] == v[vn - 1];
      assert !IsSpace(s[hi - 1]);
    }
    forall k | i <= k <= hi
      ensures DataAt(s, k).None?
    {
      if k == i + 1 {
        if DataAt(s, k).Some? {
          DataAtShape(s, k);
        }
      } else if k < i + 5 || k == x + 1 || k == hi || (k == hi - 1 && vn == 0) {
        DataNoneAtPlain(s, k);
      } else if k <= x {
        DataNoneAcross(s, k, x);
      } else {
        DataNoneBeforeQuote(s, k, hi);
      }
    }
  }

  /** Header flags end in a quote. */
  lemma {:induction false} FlagsEnd(hs: seq<KeyValuePair>)
    ensures var f := CurlExport.HeaderFlags(hs); f == "" || f[|f| - 1] == '"'
    decreases |hs|
  {
    if |hs| > 0 {
      FlagsEnd(hs[1..]);
      var a, b := CurlExport.HeaderFlagText(hs[0]), CurlExport.HeaderFlags(hs[1..]);
      assert CurlExport.HeaderFlags(hs) == a + b;
    }
  }

  // --------------------------------------------------------------- tail

  lemma TailChars(s: string, i: nat, b: string)
    requires b != "" && i <= |s| && s[i..] == BodyTail(b)
    ensures |s| == i + 6 + |b|
    ensures s[i] == ' ' && s[i + 1] == '-' && s[i + 2] == 'd' && s[i + 3] == ' ' && s[i + 4] == '\''
    ensures s[i + 5 + |b|] == '\''
    ensures forall j :: 0 <= j < |b| ==> s[i + 5 + j] == b[j]
  {
    var t := BodyTail(b);
    assert t == " -d '" + b + "'";
    forall j | 0 <= j < |b|
      ensures s[i + 5 + j] == b[j]
    {
      assert t[5 + j] == b[j];
    }
  }

  /** No header match starts in the body flag. */
  lemma TailNoHeader(s: string, i: nat, b: string)
    requires b != "" && ReadableBody(b)
    requires i <= |s| && s[i..] == BodyTail(b)
    ensures forall k :: i <= k < |s| ==> HeaderAt(s, k).None?
  {
    TailChars(s, i, b);
    forall k | i <= k < |s|
      ensures HeaderAt(s, k).None?
    {
      if i + 5 <= k < i + 5 + |b| {
        assert NoFlagStart(b, k - i - 5);
      }
      if HeaderAt(s, k).Some? {
        HeaderAtShape(s, k);
      }
    }
  }

  /** The data expression matches at the body flag and, being greedy,
      runs to the closing quote. */
  lemma TailData(s: string, i: nat, b: string)
    requires b != "" && ReadableBody(b)
    requires i <= |s| && s[i..] == BodyTail(b)
    ensures DataAt(s, i).None? && DataAt(s, i + 1) == Some(b)
  {
    TailChars(s, i, b);
    if DataAt(s, i).Some? {
      DataAtShape(s, i);
    }
    assert s[i + 1..][..2] == "-d";
    assert FlagEnd(s, i + 1, "--data", "-d") == Some(i + 3);
    SkipExact(s, i + 3, i + 4, IsSpace);
    assert forall j :: i + 5 <= j < |s| - 1 ==> s[j] == b[j - i - 5];
    SkipExact(s, i + 5, |s|, NotLineTerminator);
    var l := LastWhere(s, i + 6, |s|, IsQuote);
    assert l == Some(|s| - 1);
    assert s[i + 5..|s| - 1] == b;
  }

  // ---------------------------------------------------------- the walk

  /** The rows as the header expression reads them, one match at a time. */
  lemma HeaderRowsCons(m: HeaderMatch, ms: seq<HeaderMatch>)
    ensures HeaderRowsOf([m] + ms) == [KeyValuePair(Trim(m.key), Trim(m.value), None, None)] + HeaderRowsOf(ms)
  {
    var l, r := HeaderRowsOf([m] + ms), [KeyValuePair(Trim(m.key), Trim(m.value), None, None)] + HeaderRowsOf(ms);
    assert forall i :: 0 <= i < |l| ==> l[i] == r[i];
  }

  /** The header expression's next match is a shown header's flag written
      at `i`, and the search resumes right after it. */
  lemma HeaderFlagRead(s: string, i: nat, key: string, v: string)
    requires FlagCharsAt(s, i, key, v)
    requires |key| > 0 && ':' !in key && NoQuotes(v)
    ensures var j := i + 8 + |key| + |v|;
      HeaderMatches(s, i) == [HeaderMatch(key, " " + v, j)] + HeaderMatches(s, j)
  {
    FlagTextHeader(s, i, key, v);
    HeaderMatchesStep(s, i, key, " " + v, i + 8 + |key| + |v|);
  }

  /** A header match one position on, and none here: the walk takes it
      and resumes after it. */
  lemma HeaderMatchesStep(s: string, i: nat, key: string, v: string, e: nat)
    requires i <= |s| && HeaderAt(s, i).None? && HeaderAt(s, i + 1) == Some(HeaderMatch(key, v, e))
    ensures e <= |s| && HeaderMatches(s, i) == [HeaderMatch(key, v, e)] + HeaderMatches(s, e)
  {
    LeftmostNext(|s|, i, HeaderMatch(key, v, e), k => HeaderAt(s, k));
  }

  /** A suffix that is a concatenation splits where its first part ends. */
  lemma SuffixSplit(s: string, i: nat, t: string, rest: string)
    requires i <= |s| && s[i..] == t + rest
    ensures i + |t| <= |s| && s[i..i + |t|] == t && s[i + |t|..] == rest
  {
    assert s[i..i + |t|] == s[i..][..|t|];
    assert s[i + |t|..] == s[i..][|t|..];
  }

  /** The same split, with the suffix grouped as the flags are built. */
  lemma SuffixSplitFirst(s: string, i: nat, t: string, mid: string, rest: string)
    requires i <= |s| && s[i..] == (t + mid) + rest
    ensures i + |t| <= |s| && s[i..i + |t|] == t && s[i + |t|..] == mid + rest
  {
    assert (t + mid) + rest == t + (mid + rest);
    SuffixSplit(s, i, t, mid + rest);
  }

  /** Two stretches without a data match make one. */
  lemma DataNoneSpan(s: string, lo: nat, mid: nat, hi: nat)
    requires forall k :: lo <= k < mid ==> DataAt(s, k).None?
    requires forall k :: mid <= k < hi ==> DataAt(s, k).None?
    ensures forall k :: lo <= k < hi ==> DataAt(s, k).None?
  {
    forall k | lo <= k < hi
      ensures DataAt(s, k).None?
    {
      if k < mid {
        assert DataAt(s, k).None?;
      }
    }
  }

  /** The header expression finds nothing in the body flag. */
  lemma TailHeaders(s: string, i: nat, b: string)
    requires ReadableBody(b)
    requires i <= |s| && s[i..] == BodyTail(b)
    ensures HeaderMatches(s, i) == []
  {
    if b != "" {
      TailNoHeader(s, i, b);
    }
    assert Leftmost(|s|, i, k => HeaderAt(s, k)).None?;
  }

  /** The matches the header expression should find in header flags
      written from `i` on: one per shown header, its value behind the
      space the exporter wrote, each ending where its flag ends. */
  function MatchesOf(hs: seq<KeyValuePair>, i: nat): seq<HeaderMatch>
    decreases |hs|
  {
    if |hs| == 0 then []
    else if Shown(hs[0]) then
      var j := i + 8 + |hs[0].key| + |hs[0].value|;
      [HeaderMatch(hs[0].key, " " + hs[0].value, j)] + MatchesOf(hs[1..], j)
    else MatchesOf(hs[1..], i)
  }

  /** Those matches, trimmed, are the rows the exporter started from. */
  lemma {:induction false} MatchesRows(hs: seq<KeyValuePair>, i: nat)
    requires forall h :: h in hs ==> ReadableHeader(h)
    ensures HeaderRowsOf(MatchesOf(hs, i)) == UnflaggedRows(hs)
    decreases |hs|
  {
    if |hs| > 0 {
      var h := hs[0];
      assert forall g :: g in hs[1..] ==> g in hs;
      assert h in hs;
      if Shown(h) {
        var j := i + 8 + |h.key| + |h.value|;
        var m, row := HeaderMatch(h.key, " " + h.value, j), KeyValuePair(h.key, h.value, None, None);
        assert MatchesOf(hs, i) == [m] + MatchesOf(hs[1..], j);
        assert UnflaggedRows(hs) == [row] + UnflaggedRows(hs[1..]);
        MatchesRows(hs[1..], j);
        TrimNoop(h.key);
        TrimAfterSpace(h.value);
        HeaderRowsCons(m, MatchesOf(hs[1..], j));
      } else {
        MatchesRows(hs[1..], i);
      }
    }
  }

  /** Each shown header's flag written character by character from `i`
      on, the last one ending at `e`. */
  predicate FlagsAt(s: string, i: nat, hs: seq<KeyValuePair>, e: nat)
    decreases |hs|
  {
    if |hs| == 0 then i == e
    else if Shown(hs[0]) then
      FlagTextAt(s, i, hs[0].key, hs[0].value) &&
      FlagsAt(s, i + 8 + |hs[0].key| + |hs[0].value|, hs[1..], e)
    else FlagsAt(s, i, hs[1..], e)
  }

  /** The header flags written from `i` on, laid out flag by flag. */
  lemma {:induction false} FlagsLaidOut(s: string, i: nat, hs: seq<KeyValuePair>, rest: string)
    requires i <= |s| && s[i..] == CurlExport.HeaderFlags(hs) + rest
    ensures FlagsAt(s, i, hs, |s| - |rest|)
    decreases |hs|
  {
    if |hs| > 0 {
      var h := hs[0];
      var j := if Shown(h) then i + 8 + |h.key| + |h.value| else i;
      FlagStep(s, i, hs, rest, j);
      FlagsLaidOut(s, j, hs[1..], rest);
      FlagsAtCons(s, i, hs, j, |s| - |rest|);
    }
  }

  /** The first header's flag, if shown, and the later ones after it. */
  lemma FlagsAtCons(s: string, i: nat, hs: seq<KeyValuePair>, j: nat, e: nat)
    requires |hs| > 0 && j == if Shown(hs[0]) then i + 8 + |hs[0].key| + |hs[0].value| else i
    requires Shown(hs[0]) ==> FlagTextAt(s, i, hs[0].key, hs[0].value)
    requires FlagsAt(s, j, hs[1..], e)
    ensures FlagsAt(s, i, hs, e)
  {
  }

  /** The first header's flag written character by character from `i`,
      the later flags after it. */
  lemma FlagStep(s: string, i: nat, hs: seq<KeyValuePair>, rest: string, j: nat)
    requires |hs| > 0 && i <= |s| && s[i..] == CurlExport.HeaderFlags(hs) + rest
    requires j == if Shown(hs[0]) then i + 8 + |hs[0].key| + |hs[0].value| else i
    ensures Shown(hs[0]) ==> FlagTextAt(s, i, hs[0].key, hs[0].value)
    ensures j <= |s| && s[j..] == CurlExport.HeaderFlags(hs[1..]) + rest
  {
    var t := CurlExport.HeaderFlagText(hs[0]);
    assert CurlExport.HeaderFlags(hs) == t + CurlExport.HeaderFlags(hs[1..]);
    SuffixSplitFirst(s, i, t, CurlExport.HeaderFlags(hs[1..]), rest);
    if Shown(hs[0]) {
      FlagTextChars(s, i, hs[0]);
    }
  }

  /** No data match starts in the first header's flag, written from `i`
      on, and the later flags follow it. */
  lemma FlagDataStep(s: string, i: nat, hs: seq<KeyValuePair>, rest: string)
    requires |hs| > 0 && ReadableHeader(hs[0])
    requires i <= |s| && s[i..] == CurlExport.HeaderFlags(hs) + rest
    ensures var j := if Shown(hs[0]) then i + 8 + |hs[0].key| + |hs[0].value| else i;
      j <= |s| && s[j..] == CurlExport.HeaderFlags(hs[1..]) + rest &&
      forall k :: i <= k < j ==> DataAt(s, k).None?
  {
    FlagStep(s, i, hs, rest, if Shown(hs[0]) then i + 8 + |hs[0].key| + |hs[0].value| else i);
    if Shown(hs[0]) {
      FlagTextNoData(s, i, hs[0].key, hs[0].value);
    }
  }

  /** The header matches from each position of `s` on. */
  function MatchesFrom(s: string): nat -> seq<HeaderMatch> {
    (k: nat) => if k <= |s| then HeaderMatches(s, k) else []
  }

  /** The matches `hm` gives each position follow the shown headers of
      `hs` from `i` to `e`: each one's match, then the later ones. */
  predicate ChainsAt(hm: nat -> seq<HeaderMatch>, hs: seq<KeyValuePair>, i: nat, e: nat)
    decreases |hs|
  {
    if |hs| == 0 then i == e
    else if Shown(hs[0]) then
      var j := i + 8 + |hs[0].key| + |hs[0].value|;
      hm(i) == [HeaderMatch(hs[0].key, " " + hs[0].value, j)] + hm(j) && ChainsAt(hm, hs[1..], j, e)
    else ChainsAt(hm, hs[1..], i, e)
  }

  /** A chain that ends where nothing matches yields one match per shown
      header, in order. */
  lemma {:induction false} ChainRead(hm: nat -> seq<HeaderMatch>, hs: seq<KeyValuePair>, i: nat, e: nat)
    requires ChainsAt(hm, hs, i, e) && hm(e) == []
    ensures hm(i) == MatchesOf(hs, i)
    decreases |hs|
  {
    if |hs| > 0 {
      if Shown(hs[0]) {
        ChainRead(hm, hs[1..], i + 8 + |hs[0].key| + |hs[0].value|, e);
      } else {
        ChainRead(hm, hs[1..], i, e);
      }
    }
  }

  /** A header match step read off `s`, in terms of `MatchesFrom`. */
  lemma StepChains(s: string, i: nat, j: nat, m: HeaderMatch)
    requires i <= |s| && j <= |s| && HeaderMatches(s, i) == [m] + HeaderMatches(s, j)
    ensures MatchesFrom(s)(i) == [m] + MatchesFrom(s)(j)
  {
  }

  /** Header flags laid out from `i` to `e` chain the matches read there. */
  /** Each shown header's flag written from `i` on, character by
      character, the last one ending at `e`. */
  predicate FlagCharsFrom(s: string, i: nat, hs: seq<KeyValuePair>, e: nat)
    decreases |hs|
  {
    if |hs| == 0 then i == e
    else if Shown(hs[0]) then
      FlagCharsAt(s, i, hs[0].key, hs[0].value) &&
      FlagCharsFrom(s, i + 8 + |hs[0].key| + |hs[0].value|, hs[1..], e)
    else FlagCharsFrom(s, i, hs[1..], e)
  }

  /** Flags laid out are laid out character by character. */
  lemma {:induction false} FlagsChars(s: string, i: nat, hs: seq<KeyValuePair>, e: nat)
    requires FlagsAt(s, i, hs, e)
    ensures FlagCharsFrom(s, i, hs, e)
    decreases |hs|
  {
    if |hs| > 0 {
      var h := hs[0];
      if Shown(h) {
        FlagChars(s, i, h.key, h.value);
        FlagsChars(s, i + 8 + |h.key| + |h.value|, hs[1..], e);
      } else {
        FlagsChars(s, i, hs[1..], e);
      }
    }
  }

  lemma {:induction false} FlagsChain(s: string, i: nat, hs: seq<KeyValuePair>, e: nat)
    requires FlagCharsFrom(s, i, hs, e)
    requires forall h :: h in hs ==> ReadableHeader(h)
    ensures ChainsAt(MatchesFrom(s), hs, i, e)
    decreases |hs|
  {
    if |hs| > 0 {
      var h := hs[0];
      assert forall g :: g in hs[1..] ==> g in hs;
      assert h in hs;
      if Shown(h) {
        var j := i + 8 + |h.key| + |h.value|;
        FlagsChain(s, j, hs[1..], e);
        HeaderFlagRead(s, i, h.key, h.value);
        StepChains(s, i, j, HeaderMatch(h.key, " " + h.value, j));
      } else {
        FlagsChain(s, i, hs[1..], e);
      }
    }
  }

  /** The header matches from `i` on, where the header flags are laid out
      and nothing after them matches: one per shown header, in order. */
  lemma FlagsRead(s: string, i: nat, hs: seq<KeyValuePair>, e: nat)
    requires i <= |s| && e <= |s| && FlagsAt(s, i, hs, e) && HeaderMatches(s, e) == []
    requires forall h :: h in hs ==> ReadableHeader(h)
    ensures HeaderMatches(s, i) == MatchesOf(hs, i)
  {
    FlagsChars(s, i, hs, e);
    FlagsChain(s, i, hs, e);
    ChainRead(MatchesFrom(s), hs, i, e);
  }

  /** The header matches from `i` on, where the header flags are written
      and nothing after them matches: each shown header, in order. */
  lemma HeadersRead(s: string, i: nat, hs: seq<KeyValuePair>, rest: string)
    requires i <= |s| && s[i..] == CurlExport.HeaderFlags(hs) + rest
    requires forall h :: h in hs ==> ReadableHeader(h)
    requires HeaderMatches(s, |s| - |rest|) == []
    ensures HeaderRowsOf(HeaderMatches(s, i)) == UnflaggedRows(hs)
  {
    FlagsLaidOut(s, i, hs, rest);
    FlagsRead(s, i, hs, |s| - |rest|);
    MatchesRows(hs, i);
  }

  /** No data match starts in the header flags written from `i` on. */
  lemma {:induction false} HeadersNoData(s: string, i: nat, hs: seq<KeyValuePair>, rest: string)
    requires i <= |s| && s[i..] == CurlExport.HeaderFlags(hs) + rest
    requires forall h :: h in hs ==> ReadableHeader(h)
    ensures forall k :: i <= k < |s| - |rest| ==> DataAt(s, k).None?
    decreases |hs|
  {
    if |hs| > 0 {
      var h := hs[0];
      assert forall g :: g in hs[1..] ==> g in hs;
      assert h in hs;
      FlagDataStep(s, i, hs, rest);
      var j := if Shown(h) then i + 8 + |h.key| + |h.value| else i;
      HeadersNoData(s, j, hs[1..], rest);
      DataNoneSpan(s, i, j, |s| - |rest|);
    }
  }

  /** The last part of a split suffix sits at the end. */
  lemma SuffixLast(s: string, i: nat, w: string, t: string)
    requires i <= |s| && s[i..] == w + t
    ensures |t| <= |s| && s[|s| - |t|..] == t
  {
    assert s[|s| - |t|..] == s[i..][|w|..];
  }

  /** Start positions without a header match can be skipped. */
  lemma HeadersFrom(s: string, j: nat)
    requires j <= |s| && forall k :: 0 <= k < j ==> HeaderAt(s, k).None?
    ensures HeaderMatches(s, 0) == HeaderMatches(s, j)
  {
    LeftmostFrom(|s|, 0, j, k => HeaderAt(s, k));
  }

  /** The first data match is the one at `t + 1` when none comes earlier. */
  lemma DataFirstAt(s: string, t: nat, b: string)
    requires t + 1 < |s| && DataAt(s, t).None? && DataAt(s, t + 1) == Some(b)
    requires forall k :: 0 <= k < t ==> DataAt(s, k).None?
    ensures FirstData(s) == Some(b)
  {
    DataLeftmost(s, 0, t, b);
  }

  /** The data search from `i` passes the positions without a match. */
  lemma {:induction false} DataLeftmost(s: string, i: nat, t: nat, b: string)
    requires i <= t && t + 1 < |s| && DataAt(s, t).None? && DataAt(s, t + 1) == Some(b)
    requires forall k :: i <= k < t ==> DataAt(s, k).None?
    ensures Leftmost(|s|, i, k => DataAt(s, k)) == Some((t + 1, b))
    decreases t - i
  {
    if i < t {
      assert DataAt(s, i).None?;
      DataLeftmost(s, i + 1, t, b);
    } else {
      LeftmostNext(|s|, t, b, k => DataAt(s, k));
    }
  }

  /** Two stretches without a data match make one. */
  lemma DataNoneJoin(s: string, a: nat, t: nat)
    requires forall k :: 0 <= k < a ==> DataAt(s, k).None?
    requires forall k :: a <= k < t ==> DataAt(s, k).None?
    ensures forall k :: 0 <= k < t ==> DataAt(s, k).None?
  {
    forall k | 0 <= k < t
      ensures DataAt(s, k).None?
    {
      if k < a {
        assert DataAt(s, k).None?;
      }
    }
  }

  /** The header expression reads the header flags after the lead. */
  lemma ReadHeaders(x: string, m: string, u: string, hs: seq<KeyValuePair>, b: string)
    requires x == Lead(m, u) + (CurlExport.HeaderFlags(hs) + BodyTail(b))
    requires ReadableMethod(m) && Word(u)
    requires forall h :: h in hs ==> ReadableHeader(h)
    requires ReadableBody(b)
    ensures HeaderRowsOf(HeaderMatches(x, 0)) == UnflaggedRows(hs)
  {
    var l := Lead(m, u);
    LeadNoFlags(x, m, u);
    assert x[0..] == x;
    SuffixSplit(x, 0, l, CurlExport.HeaderFlags(hs) + BodyTail(b));
    HeadersAfterLead(x, |l|, hs, b);
  }

  /** The header search past a stretch without a header match, where the
      header flags and the body flag follow. */
  lemma HeadersAfterLead(x: string, a: nat, hs: seq<KeyValuePair>, b: string)
    requires a <= |x| && x[a..] == CurlExport.HeaderFlags(hs) + BodyTail(b)
    requires forall k :: 0 <= k < a ==> HeaderAt(x, k).None?
    requires forall h :: h in hs ==> ReadableHeader(h)
    requires ReadableBody(b)
    ensures HeaderRowsOf(HeaderMatches(x, 0)) == UnflaggedRows(hs)
  {
    var tail := BodyTail(b);
    HeadersFrom(x, a);
    SuffixLast(x, a, CurlExport.HeaderFlags(hs), tail);
    TailHeaders(x, |x| - |tail|, b);
    HeadersRead(x, a, hs, tail);
  }

  /** The data expression finds the body flag, and nothing when there is
      none. */
  lemma ReadBody(x: string, m: string, u: string, hs: seq<KeyValuePair>, b: string)
    requires x == Lead(m, u) + (CurlExport.HeaderFlags(hs) + BodyTail(b))
    requires ReadableMethod(m) && Word(u)
    requires forall h :: h in hs ==> ReadableHeader(h)
    requires ReadableBody(b)
    ensures FirstData(x) == (if b == "" then None else Some(b))
  {
    var l := Lead(m, u);
    LeadNoFlags(x, m, u);
    assert x[0..] == x;
    SuffixSplit(x, 0, l, CurlExport.HeaderFlags(hs) + BodyTail(b));
    DataAfterLead(x, |l|, hs, b);
  }

  /** The data search past a stretch without a data match, where the
      header flags and the body flag follow. */
  lemma DataAfterLead(x: string, a: nat, hs: seq<KeyValuePair>, b: string)
    requires a <= |x| && x[a..] == CurlExport.HeaderFlags(hs) + BodyTail(b)
    requires forall k :: 0 <= k < a ==> DataAt(x, k).None?
    requires forall h :: h in hs ==> ReadableHeader(h)
    requires ReadableBody(b)
    ensures FirstData(x) == (if b == "" then None else Some(b))
  {
    var tail := BodyTail(b);
    HeadersNoData(x, a, hs, tail);
    DataNoneJoin(x, a, |x| - |tail|);
    if b == "" {
      FirstNone(x, k => DataAt(x, k));
    } else {
      SuffixLast(x, a, CurlExport.HeaderFlags(hs), tail);
      BodyFound(x, |x| - |tail|, b);
    }
  }

  /** The data expression finds the body flag written at `t` when no
      data match starts before it. */
  lemma BodyFound(x: string, t: nat, b: string)
    requires b != "" && ReadableBody(b)
    requires t <= |x| && x[t..] == BodyTail(b)
    requires forall k :: 0 <= k < t ==> DataAt(x, k).None?
    ensures FirstData(x) == Some(b)
  {
    TailData(x, t, b);
    DataFirstAt(x, t, b);
  }

  /** What the four expressions find in a converted command. */
  lemma ReadLine(x: string, m: string, u: string, hs: seq<KeyValuePair>, b: string)
    requires x == Lead(m, u) + (CurlExport.HeaderFlags(hs) + BodyTail(b))
    requires ReadableMethod(m) && |u| > 0 && Word(u)
    requires forall h :: h in hs ==> ReadableHeader(h)
    requires ReadableBody(b)
    ensures FirstQuoted(x) == Some(u) && FirstMethod(x) == Some(m)
    ensures HeaderRowsOf(HeaderMatches(x, 0)) == UnflaggedRows(hs)
    ensures FirstData(x) == (if b == "" then None else Some(b))
  {
    assert Lead(m, u) <= x;
    LeadQuoted(x, m, u);
    LeadMethod(x, m, u);
    ReadHeaders(x, m, u, hs, b);
    ReadBody(x, m, u, hs, b);
  }

  // -------------------------------------------------------- round trip

  /** The command `Convert` writes when the URL can be built. */
  lemma ConvertShape(r: ApiRequest, urls: UrlEngine)
    requires urls.parse(r.url).Some?
    ensures Convert(r, urls) ==
      Some("curl " + (Lead(r.httpMethod, CurlExport.ExportUrl(r, urls)) + (CurlExport.HeaderFlags(r.headers) + BodyTail(r.body))))
  {
    var u := CurlExport.ExportUrl(r, urls);
    var f, t := CurlExport.HeaderFlags(r.headers), BodyTail(r.body);
    CurlLead(r.httpMethod, u);
    Seqs.Associative("curl -X " + r.httpMethod + " \"" + u + "\"", f, t);
    Seqs.Associative("curl ", Lead(r.httpMethod, u), f + t);
  }

  /** The command's start is `curl ` and the method and URL flags. */
  lemma CurlLead(m: string, u: string)
    ensures "curl -X " + m + " \"" + u + "\"" == "curl " + Lead(m, u)
  {
    var a, b := "curl ", "-X ";
    assert "curl -X " == a + b;
    Seqs.Associative(a, b + m + " \"" + u, "\"");
    Seqs.Associative(a, b + m + " \"", u);
    Seqs.Associative(a, b + m, " \"");
    Seqs.Associative(a, b, m);
  }

  /** The import of a command whose pieces the four expressions find. */
  lemma ParseLine(cmd: string, x: string, m: string, u: string, hs: seq<KeyValuePair>, b: string,
                  urls: UrlEngine, json: JsonCodec, id: string)
    requires StripCurlPrefix(cmd) == x
    requires FirstQuoted(x) == Some(u) && FirstMethod(x) == Some(m) && ToUpper(m) == m
    requires HeaderRowsOf(HeaderMatches(x, 0)) == UnflaggedRows(hs)
    requires FirstData(x) == (if b == "" then None else Some(b))
    requires urls.parse(u).Some?
    ensures var q := Parse(cmd, urls, json, id);
      q.Some? && q.value.id == id &&
      q.value.url == SplitOn(u, '?')[0] && q.value.params == PlainRows(urls.parse(u).value.query) &&
      q.value.httpMethod == (if b != "" && m == "GET" then "POST" else m) &&
      q.value.headers == UnflaggedRows(hs) &&
      q.value.body == (if b == "" then "" else Reformat(b, json))
  {
    QuotedUrlStep(Base(id), x, urls);
    ParseFromUrlStep(cmd, urls, json, id);
    ParseMethod(cmd, urls, json, id);
    assert [] + PlainRows(urls.parse(u).value.query) == PlainRows(urls.parse(u).value.query);
  }

  /** Reading the shown rows' query pairs back gives the shown rows. */
  lemma {:induction false} PlainShown(ps: seq<KeyValuePair>)
    ensures PlainRows(CurlExport.ShownQuery(ps)) == UnflaggedRows(ps)
    decreases |ps|
  {
    if |ps| > 0 {
      PlainShown(ps[1..]);
      var here := if Shown(ps[0]) then [(ps[0].key, ps[0].value)] else [];
      var rest := CurlExport.ShownQuery(ps[1..]);
      assert CurlExport.ShownQuery(ps) == here + rest;
      PlainAppend(here, rest);
    }
  }

  lemma PlainAppend(a: seq<(string, string)>, b: seq<(string, string)>)
    ensures PlainRows(a + b) == PlainRows(a) + PlainRows(b)
  {
    var l, r := PlainRows(a + b), PlainRows(a) + PlainRows(b);
    assert forall i :: 0 <= i < |l| ==> l[i] == r[i];
  }

  /** Where the URL ends up: the stored URL when there are no parameters,
      else the written URL cut at its query, which a lawful URL engine
      makes the stored URL again, and the shown parameters come back. */
  lemma UrlRead(r: ApiRequest, urls: UrlEngine)
    requires Readable(r, urls)
    requires |r.params| == 0 || UrlLawful(urls)
    ensures var u := CurlExport.ExportUrl(r, urls);
      urls.parse(u).Some? &&
      (|r.params| == 0 ==> SplitOn(u, '?')[0] == r.url && PlainRows(urls.parse(u).value.query) == []) &&
      (|r.params| > 0 ==> SplitOn(u, '?')[0] == urls.href(urls.parse(r.url).value) &&
                          PlainRows(urls.parse(u).value.query) == UnflaggedRows(r.params))
  {
    var w0 := urls.parse(r.url).value;
    if |r.params| > 0 {
      var w := w0.(query := w0.query + CurlExport.ShownQuery(r.params));
      assert w0.query + CurlExport.ShownQuery(r.params) == CurlExport.ShownQuery(r.params);
      assert w.(query := []) == w0;
      PlainShown(r.params);
    }
  }

  /** `convertToCurl` then `parseCurlCommand`: a readable request comes
      back with its method (a body turning GET into POST), its URL and
      shown parameters, its shown headers in order, and its body as the
      importer tidies it. With parameters, the URL engine must read its
      own output back (`UrlLawful`). */
  lemma ConvertThenParse(r: ApiRequest, urls: UrlEngine, json: JsonCodec, id: string)
    requires Readable(r, urls)
    ensures Convert(r, urls).Some?
    ensures (|r.params| == 0 || UrlLawful(urls)) ==>
      var q := Parse(Convert(r, urls).value, urls, json, id);
      q.Some? && q.value.id == id &&
      (|r.params| == 0 ==> q.value.url == r.url && q.value.params == []) &&
      (|r.params| > 0 ==> q.value.url == urls.href(urls.parse(r.url).value) &&
                          q.value.params == UnflaggedRows(r.params)) &&
      q.value.httpMethod == (if r.body != "" && r.httpMethod == "GET" then "POST" else r.httpMethod) &&
      q.value.headers == UnflaggedRows(r.headers) &&
      q.value.body == (if r.body == "" then "" else Reformat(r.body, json))
  {
    var u := CurlExport.ExportUrl(r, urls);
    var x := Lead(r.httpMethod, u) + (CurlExport.HeaderFlags(r.headers) + BodyTail(r.body));
    ConvertedLine(r, urls);
    if |r.params| == 0 || UrlLawful(urls) {
      ReadLine(x, r.httpMethod, u, r.headers, r.body);
      UrlRead(r, urls);
      ParseLine("curl " + x, x, r.httpMethod, u, r.headers, r.body, urls, json, id);
    }
  }

  /** The converted command, and the line the importer's expressions see
      once the `curl ` prefix is stripped. */
  lemma ConvertedLine(r: ApiRequest, urls: UrlEngine)
    requires Readable(r, urls)
    ensures var u := CurlExport.ExportUrl(r, urls);
      var x := Lead(r.httpMethod, u) + (CurlExport.HeaderFlags(r.headers) + BodyTail(r.body));
      Convert(r, urls) == Some("curl " + x) && StripCurlPrefix("curl " + x) == x
  {
    var u := CurlExport.ExportUrl(r, urls);
    var x := Lead(r.httpMethod, u) + (CurlExport.HeaderFlags(r.headers) + BodyTail(r.body));
    ConvertShape(r, urls);
    LineTrimmed(r.httpMethod, u, r.headers, r.body);
    StripCurlPrefixOf(x);
  }

  /** The line starts with a dash and ends with a quote. */
  lemma LineTrimmed(m: string, u: string, hs: seq<KeyValuePair>, b: string)
    ensures var x := Lead(m, u) + (CurlExport.HeaderFlags(hs) + BodyTail(b));
      |x| > 0 && Trimmed(x)
  {
    var l, t := Lead(m, u), BodyTail(b);
    FlagsEnd(hs);
    assert l[0] == '-' && l[|l| - 1] == '"';
    assert t == "" || t[|t| - 1] == '\'';
    EndsTrimmed(l, CurlExport.HeaderFlags(hs), t);
  }

  /** Three pieces joined: the first char is the first piece's, the last
      char the last non-empty piece's. */
  lemma EndsTrimmed(l: string, f: string, t: string)
    requires |l| > 0 && l[0] == '-' && l[|l| - 1] == '"'
    requires f == "" || f[|f| - 1] == '"'
    requires t == "" || t[|t| - 1] == '\''
    ensures |l + (f + t)| > 0 && Trimmed(l + (f + t))
  {
    var x := l + (f + t);
    assert x[0] == l[0];
    if t != "" {
      assert x[|x| - 1] == t[|t| - 1];
    } else if f != "" {
      assert x[|x| - 1] == f[|f| - 1];
    } else {
      assert x[|x| - 1] == l[|l| - 1];
    }
  }
}
