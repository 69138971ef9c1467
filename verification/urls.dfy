/** The WHATWG URL parser the browser code calls (`new URL(s)`), supplied
    as an oracle: only the parts the importers read are exposed. */
module Urls {
  import opened Wrappers
  import opened Strs

  /** A parsed URL: host name, path, and the query's key/value pairs in
      order (what `searchParams.forEach` visits). */
  datatype Url = Url(hostname: string, pathname: string, query: seq<(string, string)>)

  /** `new URL(s)` (`None` where the constructor throws) and
      `toString()`. */
  datatype UrlEngine = UrlEngine(parse: string -> Option<Url>, href: Url -> string)

  /** `pathname.split('/').filter(Boolean)`. */
  function PathSegments(u: Url): (r: seq<string>)
    ensures NoEmpty(r)
    ensures forall p :: p in r ==> '/' !in p
  {
    NonEmpty(SplitOn(u.pathname, '/'))
  }

  /** What a faithful URL implementation guarantees for serialised URLs:
      one parses back to the same URL, and its text before the first `?`
      is the serialisation of the URL without its query. */
  ghost predicate UrlLawful(e: UrlEngine) {
    forall v :: e.parse(e.href(v)) == Some(v) && SplitOn(e.href(v), '?')[0] == e.href(v.(query := []))
  }
}
