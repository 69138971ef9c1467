/** The API workspace's handlers (`ApiWorkspace.tsx`): selecting
    collections and requests, saving a request into its collection
    (replace by id or append), creating requests and collections, and
    substituting `{{key}}` environment variables before a run. The
    simulated response is left out; only whether one is shown is kept.
    Persisting a collection is recorded as the last collection saved. */
module Workspace {
  import opened Wrappers
  import opened Strs
  import opened ApiTypes

  datatype Workspace = Workspace(
    collections: seq<ApiCollection>,
    selectedCollection: Option<ApiCollection>,
    selectedRequest: Option<ApiRequest>,
    responseShown: bool,
    environments: seq<ApiEnvironment>,
    selectedEnvironment: string,
    lastSaved: Option<ApiCollection>)

  /** `handleCollectionSelect`: the collection and its first request, or
      no request when it is empty. */
  function SelectCollection(w: Workspace, c: ApiCollection): (r: Workspace)
    ensures r.selectedCollection == Some(c)
    ensures r.selectedRequest.None? <==> |c.requests| == 0
    ensures r.selectedRequest.Some? ==> r.selectedRequest.value == c.requests[0]
    ensures r.collections == w.collections && r.responseShown == w.responseShown
  {
    w.(selectedCollection := Some(c), selectedRequest := if |c.requests| > 0 then Some(c.requests[0]) else None)
  }

  /** `handleRequestSelect`: selects the request and clears the response. */
  function SelectRequest(w: Workspace, q: ApiRequest): (r: Workspace)
    ensures r.selectedRequest == Some(q) && !r.responseShown
    ensures r.selectedCollection == w.selectedCollection && r.collections == w.collections
  {
    w.(selectedRequest := Some(q), responseShown := false)
  }

  /** `findIndex(x => key(x) === id)`: the first element whose key is
      `id`, or -1. */
  function FirstIndex<T>(xs: seq<T>, key: T -> string, id: string): (r: int)
    ensures -1 <= r < |xs|
    ensures r >= 0 ==> key(xs[r]) == id
    ensures forall k :: 0 <= k < |xs| && (r == -1 || k < r) ==> key(xs[k]) != id
    decreases |xs|
  {
    if |xs| == 0 then -1
    else if key(xs[0]) == id then 0
    else
      var k := FirstIndex(xs[1..], key, id);
      if k == -1 then -1 else k + 1
  }

  function RequestId(q: ApiRequest): string { q.id }
  function CollectionId(c: ApiCollection): string { c.id }

  /** The request lookup of `handleRequestSave`. */
  function RequestIndex(reqs: seq<ApiRequest>, id: string): int {
    FirstIndex(reqs, RequestId, id)
  }

  /** The collection lookup of `handleRequestSave`. */
  function CollectionIndex(cs: seq<ApiCollection>, id: string): int {
    FirstIndex(cs, CollectionId, id)
  }

  /** Replace the first request with the same id in place, else append. */
  function UpsertRequest(reqs: seq<ApiRequest>, q: ApiRequest): (r: seq<ApiRequest>)
    ensures RequestIndex(reqs, q.id) >= 0 ==> |r| == |reqs| && r[RequestIndex(reqs, q.id)] == q
    ensures RequestIndex(reqs, q.id) == -1 ==> r == reqs + [q]
    ensures forall k :: 0 <= k < |reqs| && k != RequestIndex(reqs, q.id) ==> r[k] == reqs[k]
  {
    var i := RequestIndex(reqs, q.id);
    if i >= 0 then reqs[i := q] else reqs + [q]
  }

  /** The collection list with the same-id collection replaced; a list
      without it is left unchanged. */
  function ReplaceCollection(cs: seq<ApiCollection>, c: ApiCollection): (r: seq<ApiCollection>)
    ensures |r| == |cs|
    ensures CollectionIndex(cs, c.id) >= 0 ==> r[CollectionIndex(cs, c.id)] == c
    ensures forall k :: 0 <= k < |cs| && k != CollectionIndex(cs, c.id) ==> r[k] == cs[k]
  {
    var i := CollectionIndex(cs, c.id);
    if i >= 0 then cs[i := c] else cs
  }

  /** `handleRequestSave`: nothing without a selected collection;
      otherwise upsert the request, save and select the collection, select
      the request, and replace the collection in the list. */
  function RequestSave(w: Workspace, q: ApiRequest): (r: Workspace)
    ensures w.selectedCollection.None? ==> r == w
    ensures w.selectedCollection.Some? ==>
      var c := w.selectedCollection.value.(requests := UpsertRequest(w.selectedCollection.value.requests, q));
      r.selectedCollection == Some(c) && r.lastSaved == Some(c) && r.selectedRequest == Some(q) &&
      r.collections == ReplaceCollection(w.collections, c)
  {
    match w.selectedCollection
    case None => w
    case Some(sel) =>
      var c := sel.(requests := UpsertRequest(sel.requests, q));
      w.(selectedCollection := Some(c), lastSaved := Some(c), selectedRequest := Some(q),
         collections := ReplaceCollection(w.collections, c))
  }

  /** After saving, the request can be found by its id and is exactly the
      one saved, and saving it again changes nothing. */
  lemma SaveFindsRequest(reqs: seq<ApiRequest>, q: ApiRequest)
    ensures var r := UpsertRequest(reqs, q);
      RequestIndex(r, q.id) >= 0 && r[RequestIndex(r, q.id)] == q
    ensures UpsertRequest(UpsertRequest(reqs, q), q) == UpsertRequest(reqs, q)
  {
    var i := RequestIndex(reqs, q.id);
    if i >= 0 {
      FirstIndexReplace(reqs, RequestId, i, q);
    } else {
      FirstIndexAppend(reqs, RequestId, q);
    }
  }

  /** Replacing the found element by one with the same key keeps it found
      at the same index. */
  lemma {:induction false} FirstIndexReplace<T>(xs: seq<T>, key: T -> string, i: nat, x: T)
    requires i < |xs| && FirstIndex(xs, key, key(x)) == i
    ensures FirstIndex(xs[i := x], key, key(x)) == i
    decreases |xs|
  {
    if i > 0 {
      assert xs[i := x][1..] == xs[1..][i - 1 := x];
      FirstIndexReplace(xs[1..], key, i - 1, x);
    }
  }

  /** An element appended with a new key is found at the end. */
  lemma {:induction false} FirstIndexAppend<T>(xs: seq<T>, key: T -> string, x: T)
    requires FirstIndex(xs, key, key(x)) == -1
    ensures FirstIndex(xs + [x], key, key(x)) == |xs|
    decreases |xs|
  {
    if |xs| == 0 {
      assert xs + [x] == [x];
    } else {
      assert (xs + [x])[1..] == xs[1..] + [x];
      FirstIndexAppend(xs[1..], key, x);
    }
  }

  const NewRequestTest := ApiTest(
    "Status code is 200",
    "pm.test(\"Status code is 200\", function() { pm.response.to.have.status(200); });")

  /** The request `handleNewRequest` creates; the id comes from the clock. */
  function NewRequest(id: string): (r: ApiRequest)
    ensures r.httpMethod == "GET" && r.url == "https://api.example.com"
    ensures r.headers == [KeyValuePair("Content-Type", "application/json", None, None)]
    ensures r.params == [] && r.body == "" && r.tests == [NewRequestTest]
  {
    ApiRequest(id, "New Request", None, "https://api.example.com", "GET",
      [KeyValuePair("Content-Type", "application/json", None, None)], [], "", [NewRequestTest])
  }

  /** `handleNewRequest`: needs a selected collection; appends the new
      request to it, saves and selects both. */
  function AddNewRequest(w: Workspace, id: string): (r: Workspace)
    ensures w.selectedCollection.None? ==> r == w
    ensures w.selectedCollection.Some? ==>
      var c := w.selectedCollection.value.(requests := w.selectedCollection.value.requests + [NewRequest(id)]);
      r.selectedCollection == Some(c) && r.lastSaved == Some(c) && r.selectedRequest == Some(NewRequest(id)) &&
      r.collections == ReplaceCollection(w.collections, c)
  {
    match w.selectedCollection
    case None => w
    case Some(sel) =>
      var c := sel.(requests := sel.requests + [NewRequest(id)]);
      w.(selectedCollection := Some(c), lastSaved := Some(c), selectedRequest := Some(NewRequest(id)),
         collections := ReplaceCollection(w.collections, c))
  }

  /** `handleNewCollection`: an empty collection appended, saved and
      selected, with no request selected. */
  function AddNewCollection(w: Workspace, id: string): (r: Workspace)
    ensures |r.collections| == |w.collections| + 1 && r.collections[..|w.collections|] == w.collections
    ensures var c := r.collections[|w.collections|];
      c.id == id && c.requests == [] && r.selectedCollection == Some(c) && r.lastSaved == Some(c)
    ensures r.selectedRequest.None?
  {
    var c := ApiCollection(id, "New Collection", Some("New API collection"), []);
    w.(collections := w.collections + [c], selectedCollection := Some(c), lastSaved := Some(c), selectedRequest := None)
  }

  /** The text a variable's key matches. */
  function Placeholder(key: string): (r: string)
    ensures |r| == |key| + 4 && r[..2] == "{{" && r[|r| - 2..] == "}}"
  {
    "{{" + key + "}}"
  }

  /** One variable applied to the url, every header value and the body. */
  function ApplyVariable(q: ApiRequest, v: KeyValuePair): (r: ApiRequest)
    ensures r.params == q.params && r.id == q.id && r.httpMethod == q.httpMethod && r.tests == q.tests
    ensures |r.headers| == |q.headers|
    ensures forall i :: 0 <= i < |q.headers| ==> r.headers[i] == q.headers[i].(value := r.headers[i].value)
    ensures r.url == ReplaceAll(q.url, Placeholder(v.key), v.value)
    ensures r.body == ReplaceAll(q.body, Placeholder(v.key), v.value)
  {
    var pat := Placeholder(v.key);
    q.(url := ReplaceAll(q.url, pat, v.value),
       headers := seq(|q.headers|, i requires 0 <= i < |q.headers| =>
         q.headers[i].(value := ReplaceAll(q.headers[i].value, pat, v.value))),
       body := ReplaceAll(q.body, pat, v.value))
  }

  /** The variables applied one after another, in order. Substitution
      never touches the id, params, header keys, the method or the tests,
      and keeps the number of headers. */
  function ApplyVariables(q: ApiRequest, vars: seq<KeyValuePair>): (r: ApiRequest)
    ensures r.id == q.id && r.params == q.params && r.httpMethod == q.httpMethod && r.tests == q.tests
    ensures |r.headers| == |q.headers|
    ensures forall i :: 0 <= i < |q.headers| ==> r.headers[i].key == q.headers[i].key
    decreases |vars|
  {
    if |vars| == 0 then q else ApplyVariable(ApplyVariables(q, vars[..|vars| - 1]), vars[|vars| - 1])
  }

  /** Applying a list is applying its halves one after the other. */
  lemma {:induction false} ApplyVariablesAppend(q: ApiRequest, a: seq<KeyValuePair>, b: seq<KeyValuePair>)
    ensures ApplyVariables(q, a + b) == ApplyVariables(ApplyVariables(q, a), b)
    decreases |b|
  {
    if |b| == 0 {
      assert a + b == a;
    } else {
      assert (a + b)[..|a + b| - 1] == a + b[..|b| - 1];
      ApplyVariablesAppend(q, a, b[..|b| - 1]);
    }
  }

  /** A variable whose placeholder appears nowhere in the request changes
      nothing. */
  lemma AbsentVariableNoop(q: ApiRequest, v: KeyValuePair)
    requires !Contains(q.url, Placeholder(v.key)) && !Contains(q.body, Placeholder(v.key))
    requires forall i :: 0 <= i < |q.headers| ==> !Contains(q.headers[i].value, Placeholder(v.key))
    ensures ApplyVariable(q, v) == q
  {
    var r := ApplyVariable(q, v);
    ReplaceAllAbsent(q.url, Placeholder(v.key), v.value);
    ReplaceAllAbsent(q.body, Placeholder(v.key), v.value);
    forall i | 0 <= i < |q.headers|
      ensures r.headers[i] == q.headers[i]
    {
      ReplaceAllAbsent(q.headers[i].value, Placeholder(v.key), v.value);
    }
  }

  /** The environment with the given id, if any (`find`). */
  function FindEnvironment(envs: seq<ApiEnvironment>, id: string): (r: Option<ApiEnvironment>)
    ensures r.Some? ==> r.value in envs && r.value.id == id
    ensures r.None? <==> forall i :: 0 <= i < |envs| ==> envs[i].id != id
    decreases |envs|
  {
    if |envs| == 0 then None
    else if envs[0].id == id then Some(envs[0])
    else FindEnvironment(envs[1..], id)
  }

  /** The request `handleRequestRun` would send: unchanged with no
      environment selected or an unknown one, else with the selected
      environment's variables applied. */
  function ProcessedRequest(w: Workspace, q: ApiRequest): (r: ApiRequest)
    ensures w.selectedEnvironment == "" ==> r == q
    ensures FindEnvironment(w.environments, w.selectedEnvironment).None? ==> r == q
    ensures w.selectedEnvironment != "" && FindEnvironment(w.environments, w.selectedEnvironment).Some? ==>
      r == ApplyVariables(q, FindEnvironment(w.environments, w.selectedEnvironment).value.variables)
  {
    if w.selectedEnvironment == "" then q
    else
      match FindEnvironment(w.environments, w.selectedEnvironment)
      case None => q
      case Some(env) => ApplyVariables(q, env.variables)
  }

  datatype ResponseColor = SuccessColor | ErrorColor | WarningColor

  /** The status-code colour of the response panel. */
  function ResponseColorOf(status: int): (r: ResponseColor)
    ensures r == SuccessColor <==> 200 <= status < 300
    ensures r == ErrorColor <==> status >= 400
    ensures r == WarningColor <==> status < 200 || 300 <= status < 400
  {
    if 200 <= status < 300 then SuccessColor
    else if status >= 400 then ErrorColor
    else WarningColor
  }
}
