/** The shared API-testing records (`src/types/apiTypes.ts`): key/value
    rows, tests, requests, collections and environments. Optional
    TypeScript fields are `Option`s; fields no modelled operation reads
    (pre-request scripts, timestamps) are omitted. */
module ApiTypes {
  import opened Wrappers

  /** A header, query parameter or environment variable row. `enabled`
      may be absent, and an absent flag counts as enabled. */
  datatype KeyValuePair = KeyValuePair(
    key: string,
    value: string,
    description: Option<string>,
    enabled: Option<bool>)

  /** The `enabled !== false` test used by the exporters and the
      checkboxes. */
  predicate Shown(p: KeyValuePair) {
    p.enabled != Some(false)
  }

  /** A row created by an importer: no description, explicitly enabled. */
  function EnabledPair(key: string, value: string): (r: KeyValuePair)
    ensures Shown(r) && r.key == key && r.value == value
  {
    KeyValuePair(key, value, None, Some(true))
  }

  datatype ApiTest = ApiTest(name: string, script: string)

  datatype ApiRequest = ApiRequest(
    id: string,
    name: string,
    description: Option<string>,
    url: string,
    httpMethod: string,
    headers: seq<KeyValuePair>,
    params: seq<KeyValuePair>,
    body: string,
    tests: seq<ApiTest>)

  datatype ApiCollection = ApiCollection(
    id: string,
    name: string,
    description: Option<string>,
    requests: seq<ApiRequest>)

  datatype ApiEnvironment = ApiEnvironment(id: string, name: string, variables: seq<KeyValuePair>)

  /** The test the cURL and Swagger importers attach to every request. */
  const SuccessTest: ApiTest := ApiTest(
    "Status code is 2xx",
    "pm.test(\"Status code is 2xx\", function() { pm.response.to.be.success; });")
}
