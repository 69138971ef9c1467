/** The request editors' pure handlers (`PostmanStyleRequestEditor.tsx`
    and `RequestEditor.tsx`): key/value row edits, input placeholders,
    the Content-Type header upsert and body placeholder, response status
    colours and body formatting, and the cURL preview. */
module KeyValueEditor {
  import opened Wrappers
  import opened Strs
  import opened Json
  import opened Urls
  import opened ApiTypes
  import RegexCurl

  /** The Postman-style editor checks bounds and has a description field;
      the basic editor does neither. */
  datatype Editor = PostmanStyle | Basic

  datatype Table = Headers | Params

  datatype Field = KeyField | ValueField | DescriptionField

  datatype Error = IndexOutOfRange

  /** The row "Add" appends. */
  function BlankPair(e: Editor): (r: KeyValuePair)
    ensures r.key == "" && r.value == "" && r.enabled == Some(true)
    ensures r.description == (if e == PostmanStyle then Some("") else None)
  {
    KeyValuePair("", "", if e == PostmanStyle then Some("") else None, Some(true))
  }

  /** `handleAddPair`. */
  function AddPair(pairs: seq<KeyValuePair>, e: Editor): (r: seq<KeyValuePair>)
    ensures |r| == |pairs| + 1 && r[..|pairs|] == pairs && r[|pairs|] == BlankPair(e)
  {
    pairs + [BlankPair(e)]
  }

  /** `handleRemovePair`: `splice(index, 1)`, a no-op past the end. */
  function RemovePair(pairs: seq<KeyValuePair>, i: nat): (r: seq<KeyValuePair>)
    ensures i < |pairs| ==> |r| == |pairs| - 1
    ensures i >= |pairs| ==> r == pairs
    ensures forall k :: 0 <= k < |r| ==> r[k] == (if k < i then pairs[k] else pairs[k + 1])
  {
    if i < |pairs| then pairs[..i] + pairs[i + 1..] else pairs
  }

  /** One field of one row set to `v`. */
  function SetField(p: KeyValuePair, f: Field, v: string): KeyValuePair {
    match f
    case KeyField => p.(key := v)
    case ValueField => p.(value := v)
    case DescriptionField => p.(description := Some(v))
  }

  /** `handlePairChange`: only row `i`, only the named field. Past the end
      the Postman-style editor does nothing (`None`: no change is
      reported) and the basic editor throws. */
  function ChangePair(pairs: seq<KeyValuePair>, i: nat, f: Field, v: string, e: Editor):
    (r: Result<Option<seq<KeyValuePair>>, Error>)
    requires e == Basic ==> f != DescriptionField
    ensures i >= |pairs| ==> r == (if e == PostmanStyle then Success(None) else Failure(IndexOutOfRange))
    ensures i < |pairs| ==> r.Success? && r.value.Some? && |r.value.value| == |pairs|
    ensures i < |pairs| ==> forall k :: 0 <= k < |pairs| && k != i ==> r.value.value[k] == pairs[k]
    ensures i < |pairs| ==> r.value.value[i] == SetField(pairs[i], f, v)
  {
    if i < |pairs| then Success(Some(pairs[i := SetField(pairs[i], f, v)]))
    else if e == PostmanStyle then Success(None)
    else Failure(IndexOutOfRange)
  }

  /** `!enabled`: an absent flag is falsy, so it becomes `true`. */
  function Negated(enabled: Option<bool>): (r: Option<bool>)
    ensures r == Some(enabled != Some(true))
  {
    Some(!(enabled == Some(true)))
  }

  /** `handleTogglePair`, with the same bounds behaviour as a change. */
  function TogglePair(pairs: seq<KeyValuePair>, i: nat, e: Editor): (r: Result<Option<seq<KeyValuePair>>, Error>)
    ensures i >= |pairs| ==> r == (if e == PostmanStyle then Success(None) else Failure(IndexOutOfRange))
    ensures i < |pairs| ==> r.Success? && r.value.Some? && |r.value.value| == |pairs|
    ensures i < |pairs| ==> forall k :: 0 <= k < |pairs| && k != i ==> r.value.value[k] == pairs[k]
    ensures i < |pairs| ==> r.value.value[i] == pairs[i].(enabled := Negated(pairs[i].enabled))
  {
    if i < |pairs| then Success(Some(pairs[i := pairs[i].(enabled := Negated(pairs[i].enabled))]))
    else if e == PostmanStyle then Success(None)
    else Failure(IndexOutOfRange)
  }

  /** The checkbox shows `enabled !== false`, but the toggle negates the
      raw flag: the first toggle of a row without a flag leaves it
      checked, and only the second unchecks it. An explicit flag flips on
      every toggle. */
  lemma ToggleShown(p: KeyValuePair)
    ensures p.enabled.None? ==> Shown(p.(enabled := Negated(p.enabled)))
    ensures p.enabled.Some? ==> Shown(p.(enabled := Negated(p.enabled))) != Shown(p)
    ensures var once := p.(enabled := Negated(p.enabled));
      p.enabled.Some? ==> once.(enabled := Negated(once.enabled)) == p
  {
    var once := p.(enabled := Negated(p.enabled));
    if p.enabled.Some? {
      if p.enabled.value {
        assert once.enabled == Some(false);
      } else {
        assert once.enabled == Some(true);
      }
    }
  }

  const CommonHeaders := ["Content-Type", "Authorization", "Accept", "User-Agent"]
  const CommonParams := ["id", "page", "limit", "sort", "filter"]

  function Keys(pairs: seq<KeyValuePair>): (r: seq<string>)
    ensures |r| == |pairs| && forall i :: 0 <= i < |pairs| ==> r[i] == pairs[i].key
  {
    seq(|pairs|, i requires 0 <= i < |pairs| => pairs[i].key)
  }

  /** The first of `names` not in `used`, if any (`find`). */
  function FirstUnused(names: seq<string>, used: seq<string>): (r: Option<string>)
    ensures r.None? <==> forall i :: 0 <= i < |names| ==> names[i] in used
    ensures r.Some? ==> r.value !in used
    ensures r.Some? ==> exists i :: 0 <= i < |names| && names[i] == r.value && (forall j :: 0 <= j < i ==> names[j] in used)
    decreases |names|
  {
    if |names| == 0 then None
    else if names[0] !in used then Some(names[0])
    else
      var r := FirstUnused(names[1..], used);
      if r.Some? then
        var k :| 0 <= k < |names[1..]| && names[1..][k] == r.value && (forall j :: 0 <= j < k ==> names[1..][j] in used);
        assert names[k + 1] == r.value;
        r
      else r
  }

  /** The names suggested for a table's keys, in order. */
  function CommonNames(t: Table): seq<string> {
    if t == Headers then CommonHeaders else CommonParams
  }

  /** No common name is suggested twice. */
  lemma CommonNamesDistinct(t: Table)
    ensures forall a, b :: 0 <= a < b < |CommonNames(t)| ==> CommonNames(t)[a] != CommonNames(t)[b]
  {
  }

  /** `getKeyPlaceholder`: the first common name not yet used as a key,
      else a generic label. */
  function KeyPlaceholder(pairs: seq<KeyValuePair>, t: Table): (r: string)
    ensures var common := CommonNames(t);
      (r in common ==> (r !in Keys(pairs) &&
        exists i :: 0 <= i < |common| && common[i] == r && forall j :: 0 <= j < i ==> common[j] in Keys(pairs))) &&
      (r !in common ==> r == (if t == Headers then "Header name" else "Parameter name")) &&
      (r !in common <==> forall i :: 0 <= i < |common| ==> common[i] in Keys(pairs))
  {
    match FirstUnused(CommonNames(t), Keys(pairs))
    case Some(n) => n
    case None => if t == Headers then "Header name" else "Parameter name"
  }

  /** Taking the suggestion as a key moves the suggestion on to a later
      common name; once every common name is used the generic label
      stays. */
  lemma SuggestionAdvances(pairs: seq<KeyValuePair>, t: Table, p: KeyValuePair)
    requires p.key == KeyPlaceholder(pairs, t)
    ensures var common := CommonNames(t); var r := KeyPlaceholder(pairs + [p], t);
      (p.key in common ==> (r != p.key &&
        forall i, k :: 0 <= i < |common| && 0 <= k < |common| && common[i] == p.key && common[k] == r ==> i < k)) &&
      (p.key !in common ==> r == p.key)
  {
    var common := CommonNames(t);
    var used := Keys(pairs);
    assert Keys(pairs + [p]) == used + [p.key];
    if p.key in common {
      CommonNamesDistinct(t);
      var i0 :| 0 <= i0 < |common| && common[i0] == p.key && forall j :: 0 <= j < i0 ==> common[j] in used;
      assert forall j :: 0 <= j <= i0 ==> common[j] in used + [p.key];
    } else {
      assert forall i :: 0 <= i < |common| ==> common[i] in used + [p.key];
    }
  }

  /** `getValuePlaceholder`: headers by exact case-insensitive name;
      params by substring, with priority id, page, limit, sort. */
  function ValuePlaceholder(key: string, t: Table): (r: string)
    ensures t == Headers ==> (r == "application/json" <==> ToLower(key) == "content-type")
    ensures t == Headers ==> (r == "Bearer token" <==> ToLower(key) == "authorization")
    ensures t == Headers ==> (r == "*/*" <==> ToLower(key) == "accept")
    ensures t == Headers ==> (r == "Mozilla/5.0" <==> ToLower(key) == "user-agent")
    ensures t == Headers ==> (r == "Header value" <==>
      ToLower(key) !in ["content-type", "authorization", "accept", "user-agent"])
    ensures t == Params ==> (r == "12345" <==> Contains(ToLower(key), "id"))
    ensures t == Params ==> (r == "1" <==> !Contains(ToLower(key), "id") && Contains(ToLower(key), "page"))
    ensures t == Params ==> (r == "10" <==>
      !Contains(ToLower(key), "id") && !Contains(ToLower(key), "page") && Contains(ToLower(key), "limit"))
    ensures t == Params ==> (r == "asc" <==>
      !Contains(ToLower(key), "id") && !Contains(ToLower(key), "page") &&
      !Contains(ToLower(key), "limit") && Contains(ToLower(key), "sort"))
    ensures t == Params ==> (r == "Parameter value" <==>
      !Contains(ToLower(key), "id") && !Contains(ToLower(key), "page") &&
      !Contains(ToLower(key), "limit") && !Contains(ToLower(key), "sort"))
  {
    var lower := ToLower(key);
    if t == Headers then
      if lower == "content-type" then "application/json"
      else if lower == "authorization" then "Bearer token"
      else if lower == "accept" then "*/*"
      else if lower == "user-agent" then "Mozilla/5.0"
      else "Header value"
    else
      if Contains(lower, "id") then "12345"
      else if Contains(lower, "page") then "1"
      else if Contains(lower, "limit") then "10"
      else if Contains(lower, "sort") then "asc"
      else "Parameter value"
  }

  /** Index of the first header named `content-type` in any case, or -1
      (`findIndex`). */
  function ContentTypeIndex(headers: seq<KeyValuePair>): (r: int)
    ensures -1 <= r < |headers|
    ensures r >= 0 ==> ToLower(headers[r].key) == "content-type"
    ensures forall k :: 0 <= k < |headers| && (r == -1 || k < r) ==> ToLower(headers[k].key) != "content-type"
    decreases |headers|
  {
    if |headers| == 0 then -1
    else if ToLower(headers[0].key) == "content-type" then 0
    else
      var k := ContentTypeIndex(headers[1..]);
      if k == -1 then -1 else k + 1
  }

  /** The content type the body tab shows: that header's value unless
      empty, else `application/json`. */
  function ContentType(headers: seq<KeyValuePair>): (r: string)
    ensures r != ""
    ensures var i := ContentTypeIndex(headers);
      (i >= 0 && headers[i].value != "" ==> r == headers[i].value) &&
      (i == -1 || headers[i].value == "" ==> r == "application/json")
  {
    var i := ContentTypeIndex(headers);
    if i >= 0 && headers[i].value != "" then headers[i].value else "application/json"
  }

  datatype BodyHint = JsonHint | FormUrlEncodedHint | FormDataHint | XmlHint | PlainHint

  /** `getBodyPlaceholder`: json, then x-www-form-urlencoded, then
      form-data, then xml, by substring of the content type. */
  function BodyPlaceholder(headers: seq<KeyValuePair>): (r: BodyHint)
    ensures r == JsonHint <==> Contains(ContentType(headers), "json")
    ensures r == FormUrlEncodedHint <==>
      !Contains(ContentType(headers), "json") && Contains(ContentType(headers), "x-www-form-urlencoded")
    ensures r == FormDataHint <==> (!Contains(ContentType(headers), "json") &&
      !Contains(ContentType(headers), "x-www-form-urlencoded") && Contains(ContentType(headers), "form-data"))
    ensures r == XmlHint <==> (!Contains(ContentType(headers), "json") &&
      !Contains(ContentType(headers), "x-www-form-urlencoded") &&
      !Contains(ContentType(headers), "form-data") && Contains(ContentType(headers), "xml"))
    ensures r == PlainHint <==> (!Contains(ContentType(headers), "json") &&
      !Contains(ContentType(headers), "x-www-form-urlencoded") &&
      !Contains(ContentType(headers), "form-data") && !Contains(ContentType(headers), "xml"))
  {
    var ct := ContentType(headers);
    if Contains(ct, "json") then JsonHint
    else if Contains(ct, "x-www-form-urlencoded") then FormUrlEncodedHint
    else if Contains(ct, "form-data") then FormDataHint
    else if Contains(ct, "xml") then XmlHint
    else PlainHint
  }

  /** With no Content-Type header the body tab assumes JSON. */
  lemma NoHeaderMeansJson(headers: seq<KeyValuePair>)
    requires ContentTypeIndex(headers) == -1
    ensures ContentType(headers) == "application/json" && BodyPlaceholder(headers) == JsonHint
  {
    assert "application/json"[12..] == "json";
    ContainsAt("application/json", "json", 12);
  }

  /** Choosing a content type: update the first Content-Type header's
      value, or append an enabled one. */
  function SetContentType(headers: seq<KeyValuePair>, v: string): (r: seq<KeyValuePair>)
    ensures var i := ContentTypeIndex(headers);
      (i >= 0 ==> r == headers[i := headers[i].(value := v)]) &&
      (i == -1 ==> r == headers + [EnabledPair("Content-Type", v)])
  {
    var i := ContentTypeIndex(headers);
    if i >= 0 then headers[i := headers[i].(value := v)]
    else headers + [EnabledPair("Content-Type", v)]
  }

  /** The chosen type is then the one shown, and exactly one header was
      touched or added. */
  lemma SetContentTypeShown(headers: seq<KeyValuePair>, v: string)
    requires v != ""
    ensures ContentType(SetContentType(headers, v)) == v
    ensures |SetContentType(headers, v)| == |headers| + (if ContentTypeIndex(headers) == -1 then 1 else 0)
  {
    var i := ContentTypeIndex(headers);
    if i >= 0 {
      ContentTypeIndexStable(headers, i, v);
      assert SetContentType(headers, v) == headers[i := headers[i].(value := v)];
    } else {
      var p := EnabledPair("Content-Type", v);
      ContentTypeKey(p.key);
      ContentTypeIndexAppend(headers, p);
      assert SetContentType(headers, v) == headers + [p];
    }
  }

  /** The value hint reads the key only through its lower-cased form,
      so keys that differ only in case get the same hint. */
  lemma ValueHintIgnoresCase(a: string, b: string, t: Table)
    requires ToLower(a) == ToLower(b)
    ensures ValuePlaceholder(a, t) == ValuePlaceholder(b, t)
  {
  }

  /** After a type is chosen, the body hint is decided by that type
      alone, whatever the headers were. */
  lemma ChosenTypeHint(headers: seq<KeyValuePair>, v: string)
    requires v != ""
    ensures var r := BodyPlaceholder(SetContentType(headers, v));
      (r == JsonHint <==> Contains(v, "json")) &&
      (r == FormUrlEncodedHint <==> !Contains(v, "json") && Contains(v, "x-www-form-urlencoded")) &&
      (r == FormDataHint <==> (!Contains(v, "json") && !Contains(v, "x-www-form-urlencoded") &&
        Contains(v, "form-data"))) &&
      (r == XmlHint <==> (!Contains(v, "json") && !Contains(v, "x-www-form-urlencoded") &&
        !Contains(v, "form-data") && Contains(v, "xml")))
  {
    SetContentTypeShown(headers, v);
  }

  /** The header name the editor writes is a Content-Type header. */
  lemma ContentTypeKey(key: string)
    requires key == "Content-Type"
    ensures ToLower(key) == "content-type"
  {
  }

  lemma {:induction false} ContentTypeIndexStable(headers: seq<KeyValuePair>, i: nat, v: string)
    requires i < |headers| && ContentTypeIndex(headers) == i
    ensures ContentTypeIndex(headers[i := headers[i].(value := v)]) == i
    decreases |headers|
  {
    if i > 0 {
      var h := headers[i := headers[i].(value := v)];
      assert h[1..] == headers[1..][i - 1 := headers[i].(value := v)];
      ContentTypeIndexStable(headers[1..], i - 1, v);
    }
  }

  lemma {:induction false} ContentTypeIndexAppend(headers: seq<KeyValuePair>, p: KeyValuePair)
    requires ContentTypeIndex(headers) == -1 && ToLower(p.key) == "content-type"
    ensures ContentTypeIndex(headers + [p]) == |headers|
    decreases |headers|
  {
    if |headers| == 0 {
      assert headers + [p] == [p];
    } else {
      assert (headers + [p])[1..] == headers[1..] + [p];
      ContentTypeIndexAppend(headers[1..], p);
    }
  }

  datatype StatusColor = Green | Blue | Orange | Red | Grey

  /** `getStatusColor` of the Postman-style editor. */
  function StatusColorOf(status: int): (r: StatusColor)
    ensures r == Green <==> 200 <= status < 300
    ensures r == Blue <==> 300 <= status < 400
    ensures r == Orange <==> 400 <= status < 500
    ensures r == Red <==> status >= 500
    ensures r == Grey <==> status < 200
  {
    if 200 <= status < 300 then Green
    else if 300 <= status < 400 then Blue
    else if 400 <= status < 500 then Orange
    else if status >= 500 then Red
    else Grey
  }

  /** `formatResponseBody`: a body declared as JSON that parses is
      pretty-printed; anything else is shown unchanged. */
  function FormatResponseBody(body: string, contentType: string, c: JsonCodec): (r: string)
    ensures !Contains(contentType, "application/json") ==> r == body
    ensures Contains(contentType, "application/json") ==> r == Reformat(body, c)
    ensures c.parse(body).None? ==> r == body
  {
    if Contains(contentType, "application/json") then Reformat(body, c) else body
  }

  /** The basic editor's cURL preview: the new command, or the previous
      text when `convertToCurl` throws. */
  function CurlPreview(previous: string, request: ApiRequest, urls: UrlEngine): (r: string)
    ensures RegexCurl.Convert(request, urls).None? ==> r == previous
    ensures RegexCurl.Convert(request, urls).Some? ==> r == RegexCurl.Convert(request, urls).value
    ensures |request.params| == 0 ==> "curl -X " <= r
  {
    match RegexCurl.Convert(request, urls)
    case Some(cmd) => cmd
    case None => previous
  }
}
