/** The Swagger / OpenAPI importer (`src/utils/swaggerParser.ts`), read
    over a parsed JSON value with JavaScript's dynamic semantics: property
    access on `null` or `undefined` throws, `Object.entries` of a string
    or array yields index keys, and `for ... of` over a non-iterable
    throws. Any throw makes the whole import return `null` (`None`). The
    base URL follows the Server Object of OpenAPI 3.0.3 (section 4.7.5) or
    Swagger 2.0's `host` and `basePath`; requests follow the Path Item
    and Operation Objects (sections 4.7.9-4.7.10). */
module Swagger {
  import opened Wrappers
  import opened Strs
  import opened Json
  import opened ApiTypes

  // ------------------------------------------------------ JS access

  /** `v.key`: throws (`None`) on `undefined` and `null`. */
  function Get(v: Option<Json>, key: string): (r: Option<Option<Json>>)
    ensures r.None? <==> v.None? || v == Some(JNull)
  {
    match v
    case None => None
    case Some(JNull) => None
    case Some(j) => Some(Lookup(SpreadMembers(j), key))
  }

  /** `v?.key`: `undefined` instead of throwing. */
  function GetOpt(v: Option<Json>, key: string): Option<Json> {
    match v
    case None => None
    case Some(JNull) => None
    case Some(j) => Lookup(SpreadMembers(j), key)
  }

  /** `Object.entries(v)`: throws on `null` and `undefined`. */
  function Entries(v: Option<Json>): Option<seq<Member>> {
    match v
    case None => None
    case Some(JNull) => None
    case Some(j) => Some(SpreadMembers(j))
  }

  /** `for (const x of v)`: arrays and strings iterate; anything else
      throws. */
  function Elements(v: Json): Option<seq<Json>> {
    match v
    case JArr(xs) => Some(xs)
    case JStr(s) => Some(seq(|s|, i requires 0 <= i < |s| => JStr([s[i]])))
    case _ => None
  }

  /** `a || b` on strings after `String()` conversion of `a`. */
  function OrElse(a: Option<Json>, b: string): string {
    if Truthy(a) then ToStr(a) else b
  }

  /** The value of an optional text field: absent when `undefined`. */
  function OptText(v: Option<Json>): Option<string> {
    match v
    case None => None
    case Some(j) => Some(JsonToStr(j))
  }

  // --------------------------------------------------- sample bodies

  /** A schema node as `generateSampleFromSchema` sees it: which of its
      branches applies, with the sub-schemas it recurses into. */
  datatype Schema =
    | Missing
    | WithExample(example: Json)
    | ObjectSchema(properties: seq<(string, Schema)>)
    | ArraySchema(items: Schema)
    | StringSchema(first: Option<Json>)
    | NumberSchema
    | BooleanSchema
    | NullSchema
    | OtherSchema

  predicate TypeIs(s: Json, t: string) {
    Prop(Some(s), "type") == Some(JStr(t))
  }

  /** The branch tests of `generateSampleFromSchema`, in source order. */
  function Classify(s: Option<Json>): Schema {
    if Truthy(s) then ClassifyValue(s.value) else Missing
  }

  function ClassifyValue(j: Json): Schema
    decreases j, 2
  {
    var s := Some(j);
    var props := Prop(s, "properties");
    var items := Prop(s, "items");
    if Truthy(Prop(s, "example")) then WithExample(Prop(s, "example").value)
    else if TypeIs(j, "object") || Truthy(props) then
      if Truthy(props) then ObjectSchema(PropertySchemas(props.value)) else ObjectSchema([])
    else if TypeIs(j, "array") || Truthy(items) then
      ArraySchema(if Truthy(items) then ClassifyValue(items.value) else Missing)
    else if TypeIs(j, "string") then
      var e := Prop(s, "enum");
      StringSchema(if Truthy(e) then First(e.value) else Some(JStr("string")))
    else if TypeIs(j, "number") || TypeIs(j, "integer") then NumberSchema
    else if TypeIs(j, "boolean") then BooleanSchema
    else if TypeIs(j, "null") then NullSchema
    else OtherSchema
  }

  /** `Object.entries(properties)`, each value classified. A string's
      entries are one-character strings, which classify as `OtherSchema`. */
  function PropertySchemas(p: Json): seq<(string, Schema)>
    decreases p, 1
  {
    match p
    case JObj(ms) => MemberSchemas(p, ms)
    case JArr(xs) => ItemSchemas(p, xs, 0)
    case JStr(s) => seq(|s|, i requires 0 <= i < |s| => (NatToString(i), OtherSchema))
    case _ => []
  }

  function MemberSchemas(whole: Json, ms: seq<Member>): seq<(string, Schema)>
    requires forall m :: m in ms ==> m.value < whole
    decreases whole, 0, |ms|
  {
    if |ms| == 0 then []
    else
      assert ms[0] in ms;
      assert forall m :: m in ms[1..] ==> m in ms;
      var v := ms[0].value;
      [(ms[0].key, if Truthy(Some(v)) then ClassifyValue(v) else Missing)] + MemberSchemas(whole, ms[1..])
  }

  function ItemSchemas(whole: Json, xs: seq<Json>, i: nat): seq<(string, Schema)>
    requires forall x :: x in xs ==> x < whole
    decreases whole, 0, |xs|
  {
    if |xs| == 0 then []
    else
      assert xs[0] in xs;
      assert forall x :: x in xs[1..] ==> x in xs;
      var v := xs[0];
      [(NatToString(i), if Truthy(Some(v)) then ClassifyValue(v) else Missing)] + ItemSchemas(whole, xs[1..], i + 1)
  }

  /** `v[0]`: the first element of an array, the first character of a
      string, the member named `0` of an object, else `undefined`. */
  function First(v: Json): Option<Json> {
    Lookup(SpreadMembers(v), "0")
  }

  /** The sample for one schema branch; `None` is `undefined`, which only
      an enum without a first element produces. */
  function Sample(s: Schema): (r: Option<Json>)
    ensures r.None? ==> s.StringSchema? && s.first.None?
    decreases s, 1
  {
    match s
    case Missing => Some(JObj([]))
    case WithExample(e) => Some(e)
    case ObjectSchema(props) => Some(JObj(SampleMembers(s, props)))
    case ArraySchema(items) => Some(JArr([Sample(items).GetOr(JNull)]))
    case StringSchema(first) => first
    case NumberSchema => Some(JNum(0))
    case BooleanSchema => Some(JBool(false))
    case NullSchema => Some(JNull)
    case OtherSchema => Some(JObj([]))
  }

  /** `result[key] = sample` for each property in order. An `undefined`
      sample leaves no member once the body is printed, and neither does
      the key `__proto__`: on the fresh object it is the inherited setter,
      which replaces the prototype (or ignores a non-object) and creates
      no own member for `JSON.stringify` to print. */
  function SampleMembers(whole: Schema, props: seq<(string, Schema)>): (r: seq<Member>)
    requires forall p :: p in props ==> p.1 < whole
    ensures |r| <= |props|
    ensures forall m :: m in r ==>
      m.key != ProtoKey && exists i :: 0 <= i < |props| && props[i].0 == m.key && Sample(props[i].1) == Some(m.value)
    ensures forall i :: 0 <= i < |props| && props[i].0 != ProtoKey && Sample(props[i].1).Some? ==>
      Member(props[i].0, Sample(props[i].1).value) in r
    ensures (forall i :: 0 <= i < |props| ==> props[i].0 != ProtoKey && Sample(props[i].1).Some?) ==>
      |r| == |props| && forall i :: 0 <= i < |props| ==> r[i] == Member(props[i].0, Sample(props[i].1).value)
    decreases whole, 0, |props|
  {
    if |props| == 0 then []
    else
      var tail := props[1..];
      assert props[0] in props;
      assert forall p :: p in tail ==> p in props;
      var rest := SampleMembers(whole, tail);
      assert forall i :: 1 <= i < |props| ==> props[i] == tail[i - 1];
      if props[0].0 == ProtoKey then rest
      else
        match Sample(props[0].1)
        case Some(v) => [Member(props[0].0, v)] + rest
        case None => rest
  }

  const ProtoKey: string := "__proto__"

  /** A `__proto__` property never reaches the printed sample: a schema
      without example whose only property is `__proto__` samples to `{}`,
      whatever that property's schema is. */
  lemma ProtoPropertyDropped(ms: seq<Member>, p: Json)
    requires !Truthy(Lookup(ms, "example"))
    requires Lookup(ms, "properties") == Some(JObj([Member(ProtoKey, p)]))
    ensures GenerateSample(Some(JObj(ms))) == Some(JObj([]))
  {
    var props := JObj([Member(ProtoKey, p)]);
    var ps := PropertySchemas(props);
    assert ps == MemberSchemas(props, [Member(ProtoKey, p)]);
    assert |ps| == 1 && ps[0].0 == ProtoKey;
    assert ClassifyValue(JObj(ms)) == ObjectSchema(ps);
    assert SampleMembers(ObjectSchema(ps), ps) == [];
  }

  /** `generateSampleFromSchema`. */
  function GenerateSample(schema: Option<Json>): (r: Option<Json>)
    ensures !Truthy(schema) ==> r == Some(JObj([]))
    ensures Truthy(Prop(schema, "example")) ==> r == Prop(schema, "example")
  {
    Sample(Classify(schema))
  }

  /** The sample is `undefined` exactly for a string schema (without an
      example, properties or items) whose `enum` is truthy and has no
      first element. */
  lemma SampleUndefined(schema: Option<Json>)
    ensures GenerateSample(schema).None? <==>
      Truthy(schema) && !Truthy(Prop(schema, "example")) && !Truthy(Prop(schema, "properties"))
      && !Truthy(Prop(schema, "items")) && !TypeIs(schema.value, "object") && !TypeIs(schema.value, "array")
      && TypeIs(schema.value, "string") && Truthy(Prop(schema, "enum")) && First(Prop(schema, "enum").value).None?
  {
  }

  /** An array schema's sample is a one-element array holding the sample
      of `items` (`null` where that is `undefined`). */
  lemma ArraySample(schema: Json)
    requires !Truthy(Prop(Some(schema), "example")) && !TypeIs(schema, "object") && !Truthy(Prop(Some(schema), "properties"))
    requires TypeIs(schema, "array") || Truthy(Prop(Some(schema), "items"))
    ensures GenerateSample(Some(schema)) == Some(JArr([GenerateSample(Prop(Some(schema), "items")).GetOr(JNull)]))
  {
  }

  // ------------------------------------------------------- requests

  const Methods: seq<string> := ["get", "post", "put", "delete", "patch", "options", "head"]

  const JsonHeader: KeyValuePair := KeyValuePair("Content-Type", "application/json", None, None)

  /** `spec.servers && spec.servers.length > 0`: `length` is read as
      JavaScript reads it (an object's own member too) and compared after
      conversion to a number. */
  predicate UsesServers(spec: Json) {
    var servers := Lookup(SpreadMembers(spec), "servers");
    Truthy(servers) && Positive(LengthOf(servers.value))
  }

  /** `spec.servers[0]`, when the servers are used. */
  function FirstServer(spec: Json): Option<Json>
    requires UsesServers(spec)
  {
    First(Lookup(SpreadMembers(spec), "servers").value)
  }

  /** The base URL: the first server's `url`, else `https://` + host +
      basePath when both are truthy, else empty. `None` is a throw. */
  function BaseUrl(spec: Json): (r: Option<string>)
    ensures r.None? <==> UsesServers(spec) && FirstServer(spec) in {None, Some(JNull)}
    ensures UsesServers(spec) && r.Some? ==> r.value == ToStr(Lookup(SpreadMembers(FirstServer(spec).value), "url"))
    ensures !UsesServers(spec) && r != Some("") ==>
      Truthy(Lookup(SpreadMembers(spec), "host")) && Truthy(Lookup(SpreadMembers(spec), "basePath")) &&
      "https://" <= r.value
  {
    var servers := Lookup(SpreadMembers(spec), "servers");
    var host := Lookup(SpreadMembers(spec), "host");
    var basePath := Lookup(SpreadMembers(spec), "basePath");
    if UsesServers(spec) then
      match Get(First(servers.value), "url")
      case Some(u) => Some(ToStr(u))
      case None => None
    else if Truthy(host) && Truthy(basePath) then
      Some("https://" + ToStr(host) + ToStr(basePath))
    else Some("")
  }

  /** `param.in === where`. */
  predicate InIs(p: Json, where: string) {
    Get(Some(p), "in") == Some(Some(JStr(where)))
  }

  /** The row a parameter becomes: its name, an empty value, its
      description. */
  function RowOf(p: Json): KeyValuePair {
    KeyValuePair(ToStr(GetOpt(Some(p), "name")), "", OptText(GetOpt(Some(p), "description")), None)
  }

  /** OpenAPI 3: the first Server Object's `url` is the base. */
  lemma OpenApiBase(ms: seq<Member>, server: seq<Member>, rest: seq<Json>, u: string)
    requires Lookup(ms, "servers") == Some(JArr([JObj(server)] + rest))
    requires Lookup(server, "url") == Some(JStr(u))
    ensures BaseUrl(JObj(ms)) == Some(u)
  {
    var xs := [JObj(server)] + rest;
    assert SpreadMembers(JObj(ms)) == ms;
    assert LengthOf(JArr(xs)) == Some(JNum(|xs|));
    FirstOfArray(xs);
    assert SpreadMembers(JObj(server)) == server;
    assert Get(First(JArr(xs)), "url") == Some(Some(JStr(u)));
    assert ToStr(Some(JStr(u))) == u;
  }

  /** The element `[0]` of a non-empty array is its first. */
  lemma FirstOfArray(xs: seq<Json>)
    requires |xs| > 0
    ensures First(JArr(xs)) == Some(xs[0])
  {
    assert SpreadMembers(JArr(xs))[0] == Member(NatToString(0), xs[0]);
    assert NatToString(0) == "0";
  }

  /** A `null` first server throws. */
  lemma NullServerThrows(ms: seq<Member>, rest: seq<Json>)
    requires Lookup(ms, "servers") == Some(JArr([JNull] + rest))
    ensures BaseUrl(JObj(ms)).None?
  {
    var xs := [JNull] + rest;
    assert SpreadMembers(JObj(ms)) == ms;
    assert LengthOf(JArr(xs)) == Some(JNum(|xs|));
    FirstOfArray(xs);
  }

  /** `servers` need not be an array: an object whose `length` member is
      positive, as a number or as numeric text, is read by index, so its
      member `0` is the first server. */
  lemma ServersObjectBase(ms: seq<Member>, sm: seq<Member>, len: Json, server: seq<Member>, u: string)
    requires Lookup(ms, "servers") == Some(JObj(sm))
    requires Lookup(sm, "length") == Some(len) && Positive(Some(len))
    requires Lookup(sm, "0") == Some(JObj(server)) && Lookup(server, "url") == Some(JStr(u))
    ensures BaseUrl(JObj(ms)) == Some(u)
  {
    assert SpreadMembers(JObj(ms)) == ms;
    assert SpreadMembers(JObj(sm)) == sm;
    assert SpreadMembers(JObj(server)) == server;
  }

  /** An object without a positive `length`, such as `{"0": ...}` alone,
      is not taken for a server list: the Swagger 2.0 fields decide. */
  lemma ServersWithoutLength(ms: seq<Member>, sm: seq<Member>)
    requires Lookup(ms, "servers") == Some(JObj(sm)) && Lookup(sm, "length").None?
    requires Lookup(ms, "host").None?
    ensures BaseUrl(JObj(ms)) == Some("")
  {
    assert SpreadMembers(JObj(ms)) == ms;
  }

  /** Swagger 2.0, without servers: `https://` + host + basePath when
      both are non-empty strings, else no base at all. */
  lemma SwaggerTwoBase(ms: seq<Member>, host: string, basePath: string)
    requires Lookup(ms, "servers").None?
    requires Lookup(ms, "host") == Some(JStr(host)) && Lookup(ms, "basePath") == Some(JStr(basePath))
    ensures host != "" && basePath != "" ==> BaseUrl(JObj(ms)) == Some("https://" + host + basePath)
    ensures host == "" || basePath == "" ==> BaseUrl(JObj(ms)) == Some("")
  {
    assert SpreadMembers(JObj(ms)) == ms;
    assert !Truthy(Lookup(ms, "servers"));
    assert ToStr(Some(JStr(host))) == host && ToStr(Some(JStr(basePath))) == basePath;
  }

  /** One parameter: where it goes (`query`, `header`, or nowhere as
      `""`) and its row; reading `in` on a `null` parameter throws. */
  function ParamRow(p: Json): (r: Option<(string, KeyValuePair)>)
    ensures r.None? <==> p.JNull?
    ensures r.Some? ==> r.value.1 == RowOf(p)
    ensures r.Some? ==> (r.value.0 == "query" <==> InIs(p, "query"))
    ensures r.Some? ==> (r.value.0 == "header" <==> InIs(p, "header"))
  {
    match Get(Some(p), "in")
    case None => None
    case Some(where) =>
      if where == Some(JStr("query")) then Some(("query", RowOf(p)))
      else if where == Some(JStr("header")) then Some(("header", RowOf(p)))
      else Some(("", RowOf(p)))
  }

  /** The params and extra headers of a parameter list: exactly the rows
      of the `query` and the `header` parameters, in order; one `null`
      parameter throws. */
  function ParamRows(ps: seq<Json>): (r: Option<(seq<KeyValuePair>, seq<KeyValuePair>)>)
    ensures r.None? <==> exists i :: 0 <= i < |ps| && ps[i].JNull?
    decreases |ps|
  {
    if |ps| == 0 then Some(([], []))
    else
      match ParamRow(ps[0])
      case None => None
      case Some((where, row)) =>
        match ParamRows(ps[1..])
        case None => None
        case Some((q, h)) =>
          if where == "query" then Some(([row] + q, h))
          else if where == "header" then Some((q, [row] + h))
          else Some((q, h))
  }

  /** Rows of the `where` parameters of `ps`, in order; the reference
      definition the loop over parameters is compared with. */
  function RowsIn(ps: seq<Json>, where: string): seq<KeyValuePair> {
    if |ps| == 0 then []
    else (if InIs(ps[0], where) then [RowOf(ps[0])] else []) + RowsIn(ps[1..], where)
  }

  /** The loop over parameters pushes exactly the `query` rows to the
      params and the `header` rows to the headers, in order. */
  lemma {:induction false} ParamRowsSplit(ps: seq<Json>)
    requires ParamRows(ps).Some?
    ensures ParamRows(ps).value == (RowsIn(ps, "query"), RowsIn(ps, "header"))
    decreases |ps|
  {
    if |ps| > 0 {
      ParamRowsSplit(ps[1..]);
      var (where, row) := ParamRow(ps[0]).value;
      assert !(InIs(ps[0], "query") && InIs(ps[0], "header"));
      assert RowsIn(ps, "query") == (if InIs(ps[0], "query") then [row] else []) + RowsIn(ps[1..], "query");
      assert RowsIn(ps, "header") == (if InIs(ps[0], "header") then [row] else []) + RowsIn(ps[1..], "header");
      if where == "query" {
        assert [row] + [] == [row];
      }
      assert [] + RowsIn(ps[1..], "query") == RowsIn(ps[1..], "query");
      assert [] + RowsIn(ps[1..], "header") == RowsIn(ps[1..], "header");
    }
  }

  /** Every row of `RowsIn(ps, where)` is the row of a `where` parameter,
      and every `where` parameter's row is there. */
  lemma RowsInMeaning(ps: seq<Json>, where: string, row: KeyValuePair)
    ensures row in RowsIn(ps, where) <==> exists i :: 0 <= i < |ps| && InIs(ps[i], where) && RowOf(ps[i]) == row
  {
    if row in RowsIn(ps, where) {
      var i := RowsInSound(ps, where, row);
    }
    if exists i :: 0 <= i < |ps| && InIs(ps[i], where) && RowOf(ps[i]) == row {
      var i :| 0 <= i < |ps| && InIs(ps[i], where) && RowOf(ps[i]) == row;
      RowsInComplete(ps, where, i);
    }
  }

  /** A listed row comes from a `where` parameter. */
  lemma {:induction false} RowsInSound(ps: seq<Json>, where: string, row: KeyValuePair) returns (i: nat)
    requires row in RowsIn(ps, where)
    ensures i < |ps| && InIs(ps[i], where) && RowOf(ps[i]) == row
    decreases |ps|
  {
    var head := if InIs(ps[0], where) then [RowOf(ps[0])] else [];
    assert RowsIn(ps, where) == head + RowsIn(ps[1..], where);
    if row in head {
      i := 0;
    } else {
      var j := RowsInSound(ps[1..], where, row);
      i := j + 1;
      assert ps[1..][j] == ps[i];
    }
  }

  /** The row of a `where` parameter is listed. */
  lemma {:induction false} RowsInComplete(ps: seq<Json>, where: string, i: nat)
    requires i < |ps| && InIs(ps[i], where)
    ensures RowOf(ps[i]) in RowsIn(ps, where)
    decreases |ps|
  {
    var head := if InIs(ps[0], where) then [RowOf(ps[0])] else [];
    assert RowsIn(ps, where) == head + RowsIn(ps[1..], where);
    if i > 0 {
      RowsInComplete(ps[1..], where, i - 1);
      assert ps[1..][i - 1] == ps[i];
    }
  }

  /** The body: the first media type's truthy example, else the sample of
      its schema, else empty. An empty `content` object throws. */
  function BodyOf(op: Json, json: JsonCodec): (r: Option<string>)
    ensures !Truthy(Prop(Some(op), "requestBody")) ==> r == Some("")
    ensures Prop(Prop(Some(op), "requestBody"), "content") == Some(JObj([])) ==> r.None?
  {
    var rb := Prop(Some(op), "requestBody");
    if Truthy(rb) && Truthy(Prop(rb, "content")) then
      var content := Prop(rb, "content").value;
      var key := Keys(content);
      var media := if |key| > 0 then Lookup(SpreadMembers(content), key[0]) else Lookup(SpreadMembers(content), "undefined");
      match Get(media, "example")
      case None => None
      case Some(example) =>
        if Truthy(example) then Some(json.pretty(example.value))
        else
          var schema := GetOpt(media, "schema");
          if Truthy(schema) then Some(SampleText(GenerateSample(schema), json)) else Some("")
    else Some("")
  }

  /** The first media type decides the body: its truthy `example`,
      pretty-printed; else the sample of its truthy `schema`; else empty. */
  lemma FirstMediaTypeBody(op: Json, json: JsonCodec, rb: Json, ct: string, media: seq<Member>, rest: seq<Member>)
    requires Prop(Some(op), "requestBody") == Some(rb) && Truthy(Some(rb))
    requires Prop(Some(rb), "content") == Some(JObj([Member(ct, JObj(media))] + rest))
    ensures Truthy(Lookup(media, "example")) ==> BodyOf(op, json) == Some(json.pretty(Lookup(media, "example").value))
    ensures !Truthy(Lookup(media, "example")) && Truthy(Lookup(media, "schema")) ==>
      BodyOf(op, json) == Some(SampleText(GenerateSample(Lookup(media, "schema")), json))
    ensures !Truthy(Lookup(media, "example")) && !Truthy(Lookup(media, "schema")) ==> BodyOf(op, json) == Some("")
  {
    var content := JObj([Member(ct, JObj(media))] + rest);
    assert Keys(content)[0] == ct;
    assert Lookup(SpreadMembers(content), ct) == Some(JObj(media));
    assert SpreadMembers(JObj(media)) == media;
    assert Get(Some(JObj(media)), "example") == Some(Lookup(media, "example"));
    assert GetOpt(Some(JObj(media)), "schema") == Lookup(media, "schema");
  }

  /** `JSON.stringify(sample, null, 2)`; the `undefined` sample prints as
      the empty string here. */
  function SampleText(v: Option<Json>, json: JsonCodec): (r: string)
    ensures v.None? ==> r == ""
    ensures Lawful(json) && v.Some? && WellFormed(v.value) ==> json.parse(r) == v
  {
    match v
    case Some(j) => json.pretty(j)
    case None => ""
  }

  /** `summary || operationId || "METHOD path"`. */
  function DefaultName(op: Json, m: string, path: string): string {
    if Truthy(GetOpt(Some(op), "summary")) then ToStr(GetOpt(Some(op), "summary"))
    else if Truthy(GetOpt(Some(op), "operationId")) then ToStr(GetOpt(Some(op), "operationId"))
    else ToUpper(m) + " " + path
  }

  /** The request for one operation: named by its summary, else its
      operation id, else `METHOD path`; the base URL joined with the path;
      the upper-cased method; the JSON content-type header first; one
      success test. */
  function BuildRequest(base: string, path: string, m: string, op: Json, json: JsonCodec, id: string): (r: Option<ApiRequest>)
    ensures op.JNull? ==> r.None?
    ensures r.Some? ==> r.value.id == id && r.value.url == base + path && r.value.httpMethod == ToUpper(m)
    ensures r.Some? ==> |r.value.headers| >= 1 && r.value.headers[0] == JsonHeader && r.value.tests == [SuccessTest]
    ensures r.Some? ==> r.value.description.None?
    ensures r.Some? ==> r.value.name == DefaultName(op, m, path)
    ensures r.Some? && !Truthy(Prop(Some(op), "parameters")) ==> r.value.headers == [JsonHeader] && r.value.params == []
    ensures r.Some? && Prop(Some(op), "parameters") == Some(JArr([])) ==> r.value.headers == [JsonHeader] && r.value.params == []
  {
    match Get(Some(op), "summary")
    case None => None
    case Some(summary) =>
      var name := OrElse(summary, OrElse(GetOpt(Some(op), "operationId"), ToUpper(m) + " " + path));
      var params := Prop(Some(op), "parameters");
      var rows: Option<(seq<KeyValuePair>, seq<KeyValuePair>)> :=
        if Truthy(params) then
          match Elements(params.value)
          case None => None
          case Some(ps) => ParamRows(ps)
        else Some(([], []));
      match rows
      case None => None
      case Some((q, h)) =>
        match BodyOf(op, json)
        case None => None
        case Some(body) =>
          Some(ApiRequest(id, name, None, base + path, ToUpper(m), [JsonHeader] + h, q, body, [SuccessTest]))
  }

  /** With a parameter list, the params are the rows of the `query`
      parameters and the headers after the content type those of the
      `header` parameters, each in order. */
  lemma RequestParameters(base: string, path: string, m: string, op: Json, json: JsonCodec, id: string, ps: seq<Json>)
    requires Prop(Some(op), "parameters") == Some(JArr(ps))
    requires BuildRequest(base, path, m, op, json, id).Some?
    ensures BuildRequest(base, path, m, op, json, id).value.params == RowsIn(ps, "query")
    ensures BuildRequest(base, path, m, op, json, id).value.headers == [JsonHeader] + RowsIn(ps, "header")
  {
    ParamRowsSplit(ps);
  }

  /** An operation to import: a path, a listed lower-case method key, and
      the operation value. */
  datatype Operation = Operation(path: string, httpMethod: string, op: Json)

  /** All operations in iteration order: the reference the loops follow. */
  function Operations(paths: seq<(string, seq<Member>)>): seq<Operation> {
    if |paths| == 0 then []
    else MethodOperations(paths[0].0, paths[0].1) + Operations(paths[1..])
  }

  function MethodOperations(path: string, ms: seq<Member>): (r: seq<Operation>)
    ensures forall i :: 0 <= i < |r| ==> r[i].path == path && r[i].httpMethod in Methods
    ensures |r| <= |ms|
  {
    if |ms| == 0 then []
    else
      (if ms[0].key in Methods then [Operation(path, ms[0].key, ms[0].value)] else [])
      + MethodOperations(path, ms[1..])
  }

  /** Every imported operation is a listed method entry of some path item. */
  lemma {:induction false} OperationsSound(paths: seq<(string, seq<Member>)>, o: Operation)
    requires o in Operations(paths)
    ensures exists i, j :: (0 <= i < |paths| && 0 <= j < |paths[i].1| && paths[i].0 == o.path
                            && paths[i].1[j] == Member(o.httpMethod, o.op) && o.httpMethod in Methods)
    decreases |paths|
  {
    if o in MethodOperations(paths[0].0, paths[0].1) {
      var j := MethodOperationsSound(paths[0].0, paths[0].1, o);
      assert 0 <= 0 < |paths| && 0 <= j < |paths[0].1|;
    } else {
      OperationsSound(paths[1..], o);
      var i, j :| 0 <= i < |paths[1..]| && 0 <= j < |paths[1..][i].1| && paths[1..][i].0 == o.path
        && paths[1..][i].1[j] == Member(o.httpMethod, o.op) && o.httpMethod in Methods;
      assert paths[i + 1] == paths[1..][i];
    }
  }

  lemma {:induction false} MethodOperationsSound(path: string, ms: seq<Member>, o: Operation) returns (j: nat)
    requires o in MethodOperations(path, ms)
    ensures j < |ms| && o.path == path && ms[j] == Member(o.httpMethod, o.op) && o.httpMethod in Methods
    decreases |ms|
  {
    var head := if ms[0].key in Methods then [Operation(path, ms[0].key, ms[0].value)] else [];
    if o in head {
      j := 0;
    } else {
      var k := MethodOperationsSound(path, ms[1..], o);
      j := k + 1;
    }
  }

  /** Every path item entry under a listed method is imported. */
  lemma {:induction false} OperationsComplete(paths: seq<(string, seq<Member>)>, i: nat, j: nat)
    requires i < |paths| && j < |paths[i].1| && paths[i].1[j].key in Methods
    ensures Operation(paths[i].0, paths[i].1[j].key, paths[i].1[j].value) in Operations(paths)
    decreases i
  {
    if i == 0 {
      MethodOperationsComplete(paths[0].0, paths[0].1, j);
    } else {
      OperationsComplete(paths[1..], i - 1, j);
    }
  }

  lemma {:induction false} MethodOperationsComplete(path: string, ms: seq<Member>, j: nat)
    requires j < |ms| && ms[j].key in Methods
    ensures Operation(path, ms[j].key, ms[j].value) in MethodOperations(path, ms)
    decreases j
  {
    if j > 0 {
      MethodOperationsComplete(path, ms[1..], j - 1);
    }
  }

  /** The path entries with each path item's entries; `None` when a path
      item is `null`. */
  function PathItems(entries: seq<Member>): Option<seq<(string, seq<Member>)>> {
    if |entries| == 0 then Some([])
    else
      match Entries(Some(entries[0].value))
      case None => None
      case Some(ms) =>
        match PathItems(entries[1..])
        case None => None
        case Some(rest) => Some([(entries[0].key, ms)] + rest)
  }

  /** `f` applied to each element with its number, counting from `n`;
      the first failure fails the whole walk. */
  function Collect<T, U>(xs: seq<T>, f: (T, nat) -> Option<U>, n: nat): (r: Option<seq<U>>)
    ensures r.Some? ==> |r.value| == |xs|
    decreases |xs|
  {
    if |xs| == 0 then Some([])
    else
      match f(xs[0], n)
      case None => None
      case Some(y) =>
        match Collect(xs[1..], f, n + 1)
        case None => None
        case Some(rest) => Some([y] + rest)
  }

  lemma {:induction false} CollectFail<T, U>(xs: seq<T>, f: (T, nat) -> Option<U>, n: nat)
    ensures Collect(xs, f, n).None? <==> exists i :: 0 <= i < |xs| && f(xs[i], n + i).None?
    decreases |xs|
  {
    if |xs| > 0 {
      CollectFail(xs[1..], f, n + 1);
      if exists i :: 0 <= i < |xs| && f(xs[i], n + i).None? {
        var i :| 0 <= i < |xs| && f(xs[i], n + i).None?;
        if i > 0 {
          assert xs[1..][i - 1] == xs[i] && n + 1 + (i - 1) == n + i;
        }
      }
      if Collect(xs[1..], f, n + 1).None? {
        var i :| 0 <= i < |xs[1..]| && f(xs[1..][i], n + 1 + i).None?;
        assert xs[i + 1] == xs[1..][i] && n + (i + 1) == n + 1 + i;
      }
    }
  }

  lemma {:induction false} CollectAt<T, U>(xs: seq<T>, f: (T, nat) -> Option<U>, n: nat, i: nat)
    requires i < |xs| && Collect(xs, f, n).Some?
    ensures Some(Collect(xs, f, n).value[i]) == f(xs[i], n + i)
    decreases i
  {
    if i > 0 {
      CollectAt(xs[1..], f, n + 1, i - 1);
      assert xs[1..][i - 1] == xs[i] && n + 1 + (i - 1) == n + i;
    }
  }

  /** The request for operation `o`, numbered `k`. */
  function Build(base: string, o: Operation, json: JsonCodec, uuid: nat -> string, k: nat): Option<ApiRequest> {
    BuildRequest(base, o.path, o.httpMethod, o.op, json, uuid(k))
  }

  function Builder(base: string, json: JsonCodec, uuid: nat -> string): (Operation, nat) -> Option<ApiRequest> {
    (o: Operation, k: nat) => Build(base, o, json, uuid, k)
  }

  /** The requests for the operations, numbered from `n` for their ids. */
  function Requests(base: string, ops: seq<Operation>, json: JsonCodec, uuid: nat -> string, n: nat): (r: Option<seq<ApiRequest>>)
    ensures r.Some? ==> |r.value| == |ops|
  {
    Collect(ops, Builder(base, json, uuid), n)
  }

  /** One operation that throws fails the whole import. */
  lemma RequestsFail(base: string, ops: seq<Operation>, json: JsonCodec, uuid: nat -> string, n: nat)
    ensures Requests(base, ops, json, uuid, n).None? <==> exists i :: 0 <= i < |ops| && Build(base, ops[i], json, uuid, n + i).None?
  {
    CollectFail(ops, Builder(base, json, uuid), n);
  }

  /** Otherwise the i-th request is the i-th operation's, numbered `n + i`. */
  lemma RequestsAt(base: string, ops: seq<Operation>, json: JsonCodec, uuid: nat -> string, n: nat, i: nat)
    requires i < |ops| && Requests(base, ops, json, uuid, n).Some?
    ensures Some(Requests(base, ops, json, uuid, n).value[i]) == Build(base, ops[i], json, uuid, n + i)
  {
    CollectAt(ops, Builder(base, json, uuid), n, i);
  }

  /** The operations a spec lists: none without truthy `paths`; `None`
      when a path item is `null`. */
  function SpecOperations(spec: Json): Option<seq<Operation>> {
    var paths := Lookup(SpreadMembers(spec), "paths");
    if Truthy(paths) then
      match PathItems(SpreadMembers(paths.value))
      case None => None
      case Some(items) => Some(Operations(items))
    else Some([])
  }

  /** `parseSwaggerSpec`; `uuid(0)` is the collection id and the k-th
      request gets `uuid(k + 1)`. Malformed JSON and a `null` document
      give `None`; the collection is named by `info.title` or "Imported
      API". */
  function ParseSwaggerSpec(text: string, json: JsonCodec, uuid: nat -> string): (r: Option<ApiCollection>)
    ensures json.parse(text).None? || json.parse(text) == Some(JNull) ==> r.None?
    ensures r.Some? ==> r.value.id == uuid(0) && r.value.description.Some?
    ensures r.Some? ==> r.value.name == OrElse(GetOpt(Lookup(SpreadMembers(json.parse(text).value), "info"), "title"), "Imported API")
  {
    match json.parse(text)
    case None => None
    case Some(spec) =>
      if spec.JNull? then None
      else
        var info := Lookup(SpreadMembers(spec), "info");
        var name := OrElse(GetOpt(info, "title"), "Imported API");
        var flavour := OrElse(Lookup(SpreadMembers(spec), "swagger"), ToStr(Lookup(SpreadMembers(spec), "openapi")));
        var description := OrElse(GetOpt(info, "description"), "Imported from " + flavour + " specification");
        match BaseUrl(spec)
        case None => None
        case Some(base) =>
          match SpecOperations(spec)
          case None => None
          case Some(ops) =>
            match Requests(base, ops, json, uuid, 1)
            case None => None
            case Some(rs) => Some(ApiCollection(uuid(0), name, Some(description), rs))
  }

  /** An imported collection holds one request per listed operation, in
      order: the k-th is built from the k-th operation, with id
      `uuid(k + 1)`, the base URL followed by the path, the upper-cased
      method, the content-type header first and one success test. */
  lemma ImportedRequests(text: string, json: JsonCodec, uuid: nat -> string, c: ApiCollection,
                         spec: Json, base: string, ops: seq<Operation>, k: nat)
    requires ParseSwaggerSpec(text, json, uuid) == Some(c)
    requires json.parse(text) == Some(spec) && BaseUrl(spec) == Some(base) && SpecOperations(spec) == Some(ops)
    requires k < |c.requests|
    ensures |c.requests| == |ops| && c.requests[k].id == uuid(k + 1) && c.requests[k].url == base + ops[k].path
    ensures c.requests[k].httpMethod == ToUpper(ops[k].httpMethod)
    ensures |c.requests[k].headers| >= 1 && c.requests[k].headers[0] == JsonHeader && c.requests[k].tests == [SuccessTest]
    ensures c.requests[k].name == DefaultName(ops[k].op, ops[k].httpMethod, ops[k].path)
  {
    ImportedFrom(text, json, uuid);
    WalkedRequest(base, ops, json, uuid, c.requests, k);
  }

  /** The k-th request of a walk from 1 is built from the k-th operation
      with id `uuid(k + 1)`. */
  lemma WalkedRequest(base: string, ops: seq<Operation>, json: JsonCodec, uuid: nat -> string, rs: seq<ApiRequest>, k: nat)
    requires Requests(base, ops, json, uuid, 1) == Some(rs) && k < |rs|
    ensures |rs| == |ops| && rs[k].id == uuid(k + 1) && rs[k].url == base + ops[k].path
    ensures rs[k].httpMethod == ToUpper(ops[k].httpMethod)
    ensures |rs[k].headers| >= 1 && rs[k].headers[0] == JsonHeader && rs[k].tests == [SuccessTest]
    ensures rs[k].name == DefaultName(ops[k].op, ops[k].httpMethod, ops[k].path)
  {
    RequestsAt(base, ops, json, uuid, 1, k);
    assert 1 + k == k + 1;
    BuiltRequest(base, ops[k], json, uuid, k + 1, rs[k]);
  }

  lemma BuiltRequest(base: string, o: Operation, json: JsonCodec, uuid: nat -> string, n: nat, q: ApiRequest)
    requires Build(base, o, json, uuid, n) == Some(q)
    ensures q.id == uuid(n) && q.url == base + o.path && q.httpMethod == ToUpper(o.httpMethod)
    ensures |q.headers| >= 1 && q.headers[0] == JsonHeader && q.tests == [SuccessTest]
    ensures q.name == DefaultName(o.op, o.httpMethod, o.path)
  {
  }

  /** A successful import is the walk over the spec's operations. */
  lemma ImportedFrom(text: string, json: JsonCodec, uuid: nat -> string)
    requires ParseSwaggerSpec(text, json, uuid).Some?
    ensures json.parse(text).Some? && BaseUrl(json.parse(text).value).Some? && SpecOperations(json.parse(text).value).Some?
    ensures Requests(BaseUrl(json.parse(text).value).value, SpecOperations(json.parse(text).value).value, json, uuid, 1)
      == Some(ParseSwaggerSpec(text, json, uuid).value.requests)
  {
  }

  /** With distinct uuids, the collection and its requests have pairwise
      distinct ids. */
  lemma ImportedIdsDistinct(text: string, json: JsonCodec, uuid: nat -> string, c: ApiCollection)
    requires forall a: nat, b: nat :: a != b ==> uuid(a) != uuid(b)
    requires ParseSwaggerSpec(text, json, uuid) == Some(c)
    ensures forall k :: 0 <= k < |c.requests| ==> c.requests[k].id != c.id
    ensures forall j, k :: 0 <= j < k < |c.requests| ==> c.requests[j].id != c.requests[k].id
  {
    ImportedFrom(text, json, uuid);
    var spec := json.parse(text).value;
    forall k | 0 <= k < |c.requests|
      ensures c.requests[k].id == uuid(k + 1)
    {
      ImportedRequests(text, json, uuid, c, spec, BaseUrl(spec).value, SpecOperations(spec).value, k);
    }
  }

  /** Every imported request comes from a listed method of a path item,
      and every listed method of every path item is imported. */
  lemma ImportCoversPaths(spec: Json, items: seq<(string, seq<Member>)>, i: nat, j: nat)
    requires Truthy(Lookup(SpreadMembers(spec), "paths"))
    requires PathItems(SpreadMembers(Lookup(SpreadMembers(spec), "paths").value)) == Some(items)
    requires i < |items| && j < |items[i].1| && items[i].1[j].key in Methods
    ensures Operation(items[i].0, items[i].1[j].key, items[i].1[j].value) in SpecOperations(spec).value
  {
    OperationsComplete(items, i, j);
  }
}
