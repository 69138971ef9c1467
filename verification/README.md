# Betaboss core, modelled in Dafny

Betaboss is an API-testing and test-generation application. Its
deterministic core is a set of text and list transformations behind a
React user interface and a small Python backend:

- importing a request from a cURL command, by three parsers: the
  quote-aware tokenizer with a 100-entry cache, the older regex-based
  parser, and the Python proxy's token scan;
- exporting a request back to cURL;
- importing an OpenAPI 3 or Swagger 2 document as a collection;
- turning a screenshot description or a recorded action log into
  detected actions, test cases and test scripts;
- test metrics, the high-priority failure alert, and the two storage
  shims: a fake file system and a key/JSON store;
- the rules inside the components: key/value row edits and placeholders,
  the Content-Type upsert, status colours, collection upsert and
  environment substitution, the screenshot wizard's step gating and
  routing, the generator panels' fallbacks, file names and truncation,
  and the recorder's and the run table's time formatting.

Every module is a pure model: immutable datatypes and functions over
sequences, strings and maps. Foreign code is a parameter:

- `JSON.parse`/`JSON.stringify` are a `JsonCodec` of three functions,
  with a `Lawful` predicate for the laws some lemmas need;
- `new URL` and its serialisation are a `UrlEngine`;
- Python's `shlex.split` is a function that may fail;
- `uuidv4()`, the clock and random choices are arguments;
- template bodies are opaque tokens.

The module layout follows the source files:

| module | source |
|---|---|
| `ShellSplit`, `ImprovedCurl`, `CurlExport` | `src/utils/improvedCurlParser.ts` |
| `RegexCurl`, `Scan` | `src/utils/curlParser.ts` |
| `ProxyCurl` | `api_proxy_server.py` |
| `Swagger` | `src/utils/swaggerParser.ts` |
| `ScreenshotAnalysis`, `Actions` | `src/services/screenshotAnalysisService.ts` |
| `TestCaseGen` | `src/services/testGeneratorService.ts` |
| `DirectGeneration` | `src/services/directTestGenerationService.ts` |
| `BackendScripts` | `backend/app/test_generator/generator.py`, `backend/app/recorder/recorder.py` |
| `TestMetrics` | `src/services/testMetricsService.ts` |
| `Notifications` | `src/services/notificationService.ts` |
| `FileSystem` | `src/services/fileSystemService.ts` |
| `LocalStore` | `src/services/localStorageService.ts` |
| `KeyValueEditor` | `src/components/apiTesting/PostmanStyleRequestEditor.tsx`, `RequestEditor.tsx` |
| `Workspace` | `src/components/apiTesting/ApiWorkspace.tsx` |
| `ScreenshotWizard` | `src/components/testGenerator/MultiScreenshotTestGenerator.tsx` |
| `GeneratorUi` | `src/components/testGenerator/TestGenerator.tsx`, `DirectTestGenerator.tsx` |
| `ScreenRecorder` | `src/components/recorder/ScreenRecorder.tsx` |
| `TestRuns` | `frontend/src/pages/TestRuns.tsx` |
| `ApiTypes`, `Json`, `Urls`, `Strs`, `Wrappers`, `Seqs` | shared datatypes (`src/types/apiTypes.ts`) and helpers |

## Model

| member | source | states |
|---|---|---|
| ShellSplit.Split | src/utils/improvedCurlParser.ts:17-64 | The character loop yields exactly the tokens of the reference state machine, and it never yields an empty token. |
| ShellSplit.TokensNonEmpty | src/utils/improvedCurlParser.ts:48-61 | No token is empty: runs of spaces and empty quotes contribute nothing. |
| ShellSplit.PlainTokens | src/utils/improvedCurlParser.ts:48-57 | On text without quotes or backslashes, tokenizing equals splitting on single spaces and dropping the empty pieces, so only an unquoted space separates tokens. |
| ShellSplit.UnterminatedSingleQuote | src/utils/improvedCurlParser.ts:38-61 | An unterminated single quote runs to the end of the input, spaces included. |
| ShellSplit.UnterminatedDoubleQuote | src/utils/improvedCurlParser.ts:38-61 | An unterminated double quote before text without quotes or backslashes yields that text as one token, or nothing when it is empty. |
| ShellSplit.EscapeStep | src/utils/improvedCurlParser.ts:27-36 | Outside an escape, a backslash appends the next character to the token literally and leaves the quoting state as it was. |
| ShellSplit.RunAllEscaped | src/utils/improvedCurlParser.ts:27-36 | Text written with every character escaped is taken character for character in any quoting: no quote opens or closes and no space ends the token. |
| ShellSplit.BackslashInsideSingleQuotes | src/utils/improvedCurlParser.ts:27-36 | A backslash escapes the next character even inside single quotes, which POSIX shell quoting does not do; the backslash is dropped and the quote kept. |
| ShellSplit.LineTokens | src/utils/improvedCurlParser.ts:17-64 | Words that are safely bare, single-quoted or double-quoted with escaped quotes, joined by single spaces, tokenize back to their texts with the empty ones dropped. |
| ImprovedCurl.Insert | src/utils/improvedCurlParser.ts:267 | Inserting a new key keeps the cache well formed and makes that key the newest in insertion order. |
| ImprovedCurl.EvictOldest | src/utils/improvedCurlParser.ts:262-266 | With 100 or more entries the first-inserted key is deleted (FIFO, not LRU); below the limit nothing changes. |
| ImprovedCurl.Normalize | src/utils/improvedCurlParser.ts:99-102 | The normalised command holds no line break. |
| ImprovedCurl.NormalizeOneLine | src/utils/improvedCurlParser.ts:99-102 | On a command without line breaks, normalisation is trimming. |
| ImprovedCurl.StripQuotes | src/utils/improvedCurlParser.ts:138-176 | At most one quote character is removed from each end; a value quoted at both ends loses both quotes, one with no quote at either end is unchanged. |
| ImprovedCurl.LastSegment | src/utils/improvedCurlParser.ts:301-321 | With `https://` supplied when there is no http(s) scheme, a parsed URL is named by its last non-empty path segment, which holds no `/`, or by its host name when the path has none; when the URL does not parse, the name is the text after the last `/`, or the whole input when that text is empty, and it is empty only for empty input. |
| ImprovedCurl.LastSegmentOfPath | src/utils/improvedCurlParser.ts:308-315 | For every URL whose parsed path is `/` followed by non-empty segments without `/`, the name is the last of those segments; for the path `/` it is the host name. |
| ImprovedCurl.SegmentCovers | src/utils/improvedCurlParser.ts:120-248 | The walk's segmentation consumes every token exactly once, in order, and a flag takes the following token as its argument only if it is a flag that takes one. |
| ImprovedCurl.SegmentConsumes | src/utils/improvedCurlParser.ts:120-248 | Putting back together the tokens each directive consumed gives the token list. |
| ImprovedCurl.SegmentKinds | src/utils/improvedCurlParser.ts:120-248 | Every directive is classified by its own token, and only a flag that takes an argument has one. |
| ImprovedCurl.QueryRows | src/utils/improvedCurlParser.ts:143-145 | Query pairs become enabled parameter rows, one per pair, in order. |
| ImprovedCurl.HeadersOfWalk | src/utils/improvedCurlParser.ts:159-171 | The walk appends exactly the header rows of `-H` arguments with a colon after their first character, in order, and nothing else changes the headers. |
| ImprovedCurl.WalkKeepsEnabled | src/utils/improvedCurlParser.ts:144-167 | Every row the walk creates is enabled, and parameters are only ever appended. |
| ImprovedCurl.DataLeavesNoGet | src/utils/improvedCurlParser.ts:174-214 | Whatever came before, a walk ending in a data argument leaves a method other than GET. |
| ImprovedCurl.ExplicitGetWithDataIsPost | src/utils/improvedCurlParser.ts:129-190 | The tokens `curl -X GET -d x` import as a POST. |
| ImprovedCurl.ParseTokens | src/utils/improvedCurlParser.ts:98-259 | The tokenizing path keeps the fresh id, attaches exactly the one 2xx test, leaves every row enabled, and names the request "Imported from cURL" when no URL was found, else the method and the URL's last segment. |
| ImprovedCurl.ParseTokensReads | src/utils/improvedCurlParser.ts:120-248 | The imported request holds every well-formed `-H` header and every query row in order, the last method word upper-cased (a body turning GET into POST), the last URL token cut at `?` when parameters were read, and the tidied text of the last body. |
| ImprovedCurl.ParamsOfWalk | src/utils/improvedCurlParser.ts:136-156 | The walk appends exactly the query rows of the URL tokens that parse, in order, and nothing else touches the parameters. |
| ImprovedCurl.UrlOfWalk | src/utils/improvedCurlParser.ts:136-156 | The URL is the last URL token's text, cut at its first `?` when it parses and parameters exist; with no URL token it is untouched. |
| ImprovedCurl.MethodOfWalk | src/utils/improvedCurlParser.ts:129-214 | The method is the last method flag's argument upper-cased (else the starting one), turned into POST when it is GET and data follows that flag. |
| ImprovedCurl.BodyOfWalk | src/utils/improvedCurlParser.ts:174-240 | Without a body directive the body is untouched; when the last one is a data argument the body is its text, pretty-printed when it is JSON. |
| ImprovedCurl.FormField | src/utils/improvedCurlParser.ts:219-231 | A form field exists exactly when the unquoted argument has a `=` after its first character; its key holds no `=` and is shorter than the argument. |
| ImprovedCurl.ArrayLength | src/utils/improvedCurlParser.ts:233 | A length assigned from text is below 2^32. |
| ImprovedCurl.ArrayLengthOfNumeral | src/utils/improvedCurlParser.ts:233 | A length below 2^32 written in decimal is read back as itself. |
| ImprovedCurl.SetFormField | src/utils/improvedCurlParser.ts:233 | On an object the key is set and every other key kept, except that an absent `__proto__` is ignored; on an array an index sets that element, padding with nulls, `length` resizes or throws on a bad length, and any other key changes nothing printed; on any other value the assignment throws. |
| ImprovedCurl.FormOnArray | src/utils/improvedCurlParser.ts:229-234 | On `[1,2]`, `0=x` replaces the first element, `length=0` empties the array, and `foo=x` leaves it as printed. |
| ImprovedCurl.ApplyForm | src/utils/improvedCurlParser.ts:217-242 | A form flag changes only the body: nothing without a form field; otherwise the body (`{}` when empty) is parsed, assigned and printed indented, and kept as text when it does not parse or the assignment throws. |
| ImprovedCurl.FormReadsBack | src/utils/improvedCurlParser.ts:223-234 | Under a lawful JSON runtime, a field set on a well-formed object body reads back from the new body, with every other key as before. |
| ImprovedCurl.SetObjectField | src/utils/improvedCurlParser.ts:233 | On an object, setting a key other than an absent `__proto__` sets that member. |
| ImprovedCurl.PrettySetMember | src/utils/improvedCurlParser.ts:234 | Under a lawful JSON runtime an object with a member set reads back from its printed form. |
| Json.LengthOf | src/utils/swaggerParser.ts:92 | `v.length` is an array's element count, a string's character count, an object's own `length` member, and `undefined` for numbers and booleans. |
| Json.NumberSign | src/utils/swaggerParser.ts:92 | The sign of `Number(v)`: a number's own sign, a string's as its numeral reads, NaN for `undefined` and objects. |
| Json.NaturalSign | src/utils/swaggerParser.ts:92 | The decimal text of a natural number compares with 0 exactly as the number does. |
| Json.NegativeSign | src/utils/swaggerParser.ts:92 | The text of a negative number, a minus sign and digits, is negative. |
| Json.LeadingSpaceIgnored | src/utils/swaggerParser.ts:92 | White space in front of a numeral does not change how it compares. |
| Json.HexNumerals | src/utils/swaggerParser.ts:92 | `0x10` reads as positive; a sign before `0x` makes NaN. |
| Json.DecimalNumerals | src/utils/swaggerParser.ts:92 | An exponent without digits makes NaN, and `-0` is zero. |
| Json.SetMemberWellFormed | src/utils/improvedCurlParser.ts:233 | Setting a member to a well-formed value keeps an object well formed: its keys stay unique. |
| ImprovedCurl.ParseCurlCommand | src/utils/improvedCurlParser.ts:71-274 | A cache hit returns the cached request with the fresh id and leaves the cache alone; a miss caches the result as the newest entry; the bare-URL path is a GET of the trimmed input named after its last segment, with no rows, body or tests, and inserts without eviction; the tokenizing path evicts the oldest entry at 100 and attaches the 2xx test. |
| ImprovedCurl.TokenPathBounded | src/utils/improvedCurlParser.ts:261-267 | The tokenizing path never takes the cache past 100 entries. |
| ImprovedCurl.UrlPathExceedsLimit | src/utils/improvedCurlParser.ts:81-96 | The bare-URL path inserts without evicting, so a full cache grows to 101 entries. |
| ImprovedCurl.RepeatIsCached | src/utils/improvedCurlParser.ts:73-78 | Parsing the same command again returns the first result with the new id, and the cache is unchanged. |
| CurlExport.ShownQuery | src/utils/improvedCurlParser.ts:336-340 | Every pair is the key and value of a parameter with `enabled !== false`, and read back as rows the pairs are exactly those parameters, in order. |
| CurlExport.ConvertToCurl | src/utils/improvedCurlParser.ts:328-370 | The exported command is exactly `curl`, `-X`, the method, the double-quoted URL, the shown header flags and the body flag, joined by single spaces. |
| CurlExport.ExportThenImport | src/utils/improvedCurlParser.ts:328-370 | For a request whose texts survive quoting, importing its export gives back its shown headers (now enabled), its body (pretty-printed if JSON) and its method, GET becoming POST with a body; with no parameters, or a URL that does not parse, the URL as stored and no parameters; otherwise, under a lawful URL engine, the serialised URL and exactly the shown parameters. |
| CurlExport.ExportThenParse | src/utils/improvedCurlParser.ts:71-370 | Through the cache, an exported command that is neither cached nor a bare URL imports with the URL, parameters, headers and body the round trip above gives. |
| CurlExport.ImportExportedUrl | src/utils/improvedCurlParser.ts:136-156 | Reading the exported URL gives the stored URL and no parameters when there are none or the URL does not parse; otherwise, under a lawful URL engine, the serialised URL and the shown parameters as rows. |
| CurlExport.ExportWalk | src/utils/improvedCurlParser.ts:120-248 | Walking the directives of an exported command from a fresh request gives exactly the request the export describes. |
| CurlExport.ExportedFields | src/utils/improvedCurlParser.ts:136-214 | That request has the stored or serialised URL, the shown parameters when they survive, the shown headers, the method with GET turned into POST by a body, and the tidied body. |
| CurlExport.NormalizeExport | src/utils/improvedCurlParser.ts:99-102 | Normalising an exported command on import leaves it unchanged. |
| CurlExport.PrettyBodyKept | src/utils/improvedCurlParser.ts:179-185 | A body already in the runtime's pretty-printed form survives the import verbatim. |
| RegexCurl.StripCurlPrefix | src/utils/curlParser.ts:16-20 | The command left for matching is trimmed. |
| RegexCurl.StripCurlPrefixOf | src/utils/curlParser.ts:16-20 | A leading `curl ` is dropped before any matching, leaving the trimmed rest. |
| RegexCurl.QuotedAtMeaning | src/utils/curlParser.ts:35 | The quoted-URL scanner matches at a position exactly when a quote, a non-empty run free of quotes and a quote stand there; the run is the match. |
| RegexCurl.MethodAt | src/utils/curlParser.ts:56 | A method match is a non-empty word without white space. |
| RegexCurl.HeaderAt | src/utils/curlParser.ts:63 | A header match has a non-empty key free of colons and a non-empty value free of quotes, and the scan resumes after it. |
| RegexCurl.DataAtGreedy | src/utils/curlParser.ts:72 | The body match is greedy: it ends at a quote and no quote follows that one before the end of the line. |
| RegexCurl.PlainRows | src/utils/curlParser.ts:41-43 | Query pairs become rows in order, with neither description nor enabled flag. |
| RegexCurl.UrlStep | src/utils/curlParser.ts:34-52 | The URL step changes only the URL and the parameters, and adds no enabled flag. |
| RegexCurl.MethodStep | src/utils/curlParser.ts:54-60 | The method step changes only the method. |
| RegexCurl.HeaderRowsOf | src/utils/curlParser.ts:63-69 | One trimmed row per header match, in order, without description or flag. |
| RegexCurl.DataStep | src/utils/curlParser.ts:71-88 | With a body match the body is the match, pretty-printed when it is JSON, and the method is no longer GET; without one nothing changes; only the body and method change. |
| RegexCurl.NameStep | src/utils/curlParser.ts:90-99 | The naming step changes only the name. |
| RegexCurl.Parse | src/utils/curlParser.ts:14-106 | The import fails exactly when the first quoted text is not an absolute URL; a result keeps the fresh id, has no tests, no description and no flags on its rows; its body is the tidied data match and its method not GET when one exists, and the body is empty otherwise. |
| RegexCurl.MethodGuardRedundant | src/utils/curlParser.ts:55-60 | A method match implies `-X` or `--request` occurs, so the `includes` guard never changes the outcome. |
| RegexCurl.ParseQuotedUrl | src/utils/curlParser.ts:35-46 | A quoted absolute URL gives its query pairs, in order and unflagged, and is cut at its first `?`. |
| RegexCurl.ParseMethod | src/utils/curlParser.ts:27-79 | The method is the upper-cased word after the first method flag, else GET; a body then turns GET into POST. |
| RegexCurl.ParseUnquoted | src/utils/curlParser.ts:47-52 | Without quoted text the URL is the first space-preceded word not starting with `-`, or empty, and there are no parameters. |
| RegexCurl.MethodWordTakenForUrl | src/utils/curlParser.ts:47-60 | `curl ` followed by `-X POST https://a` imports with URL `POST` and method POST. |
| RegexCurl.UnquotedOutcome | src/utils/curlParser.ts:27-79 | With no quoted text and no data match, the import has the bare word as URL and the method word as method, when that word is upper case. |
| RegexCurl.NoDataAfterLead | src/utils/curlParser.ts:72 | Text whose only `-` is its first character, not followed by `d` or `-`, has no data match. |
| RegexCurl.Convert | src/utils/curlParser.ts:113-142 | Export fails (an uncaught throw) exactly when there are parameters and the URL is not absolute; otherwise it starts with the method and the quoted URL (the stored URL when there are no parameters) and ends with every header flag, then the body single-quoted verbatim when there is one. |
| RegexRoundTrip.ConvertThenParse | src/utils/curlParser.ts:14-142 | A readable request exported and imported again comes back with the fresh id, its method (GET turned into POST by a body), its URL and parameters (the serialised URL under a lawful URL engine when there are parameters), its shown headers in order, and its tidied body. |
| RegexRoundTrip.ConvertedLine | src/utils/curlParser.ts:16-20 | The exported command is `curl ` and a line that the prefix stripping leaves intact for the expressions. |
| RegexRoundTrip.ReadLine | src/utils/curlParser.ts:35-72 | On an exported line the quoted-URL expression finds the URL, the method expression the method, the header expression each shown header in order, and the data expression the body, or nothing without one. |
| RegexRoundTrip.HeadersRead | src/utils/curlParser.ts:63-69 | Where header flags are written and nothing after them matches, the header matches are exactly the shown headers, in order and unflagged. |
| RegexRoundTrip.ReadBody | src/utils/curlParser.ts:72 | The data expression finds the exported body flag's text, and nothing when there is no body. |
| RegexRoundTrip.UrlRead | src/utils/curlParser.ts:35-46 | The written URL parses; cut at `?` it is the stored URL (or, with parameters, its serialised form under a lawful URL engine), and its query gives back the shown parameters. |
| ProxyCurl.PrepareOneLine | api_proxy_server.py:61-66 | A leading `curl ` in any case is removed and a one-line command is otherwise handed to the tokenizer unchanged. |
| ProxyCurl.JoinContinuationsOneLine | api_proxy_server.py:66 | Joining continuations leaves a command without line breaks unchanged. |
| ProxyCurl.SplitFirst | api_proxy_server.py:99-116 | `split(c, 1)` yields a left part free of `c` and a right part that, joined with `c`, rebuild the input. |
| ProxyCurl.SplitFirstUnique | api_proxy_server.py:99-116 | The split at the first `c` is the only split whose left part is free of `c`. |
| ProxyCurl.PiecePairs | api_proxy_server.py:104-107 | Pieces without `=` are dropped, and every kept row is enabled with a key free of `=`. |
| ProxyCurl.QueryRoundTrip | api_proxy_server.py:98-107 | Splitting a query joined from `key=value` rows (keys free of `=` and `&`, values free of `&`) gives the rows back, undecoded. |
| ProxyCurl.UrlStep | api_proxy_server.py:94-109 | A URL token overwrites the URL, leaves no `?` in it, and only appends parameters. |
| ProxyCurl.HeaderStep | api_proxy_server.py:112-120 | An argument without a colon is dropped; one with a colon appends exactly one row and changes nothing else. |
| ProxyCurl.DataStep | api_proxy_server.py:122-139 | A body is stored verbatim and the method becomes POST only if it was GET. |
| ProxyCurl.Step | api_proxy_server.py:82-143 | Each iteration consumes at least one and at most the remaining tokens, so the scan terminates. |
| ProxyCurl.ParseCurlCommand | api_proxy_server.py:59-79 | The result is the HTTP 400 error exactly when the tokenizer fails; with no tokens it is the defaults: GET, empty URL, no rows, no body. |
| ProxyCurl.SkipUnknown | api_proxy_server.py:141-143 | An unknown token is skipped. |
| ProxyCurl.TrailingFlagSkipped | api_proxy_server.py:86-131 | A flag that needs an argument but comes last changes nothing. |
| ProxyCurl.ExplicitGetWithData | api_proxy_server.py:86-131 | `-X GET -d b` ends as POST with body `b`. |
| ProxyCurl.LastUrlWins | api_proxy_server.py:94-95 | A later URL token overwrites an earlier one. |
| ProxyCurl.WordsRoundTrip | api_proxy_server.py:81-143 | Scanning the words that describe a request (method, URL with query, header flags, body) gives it back, except that a body turns GET into POST. |
| Strs.PyStrip | api_proxy_server.py:117 | Python `str.strip()`: the result is the input with exactly its leading and trailing Python white space removed, and neither end of a non-empty result is white space. |
| Swagger.Sample | src/utils/swaggerParser.ts:175-210 | A schema branch samples to `undefined` only for a string schema whose enum has no first element. |
| Swagger.SampleMembers | src/utils/swaggerParser.ts:182-190 | Each object member is a property's sample under its key, never `__proto__`, whose assignment sets the prototype and prints nothing; every other property with a sample is a member, and when no property is `__proto__` and every one has a sample there is exactly one member per property, in order. |
| Swagger.ProtoPropertyDropped | src/utils/swaggerParser.ts:182-187 | A schema whose only property is `__proto__` samples to `{}`, whatever that property's schema. |
| Swagger.SampleText | src/utils/swaggerParser.ts:144-147 | An `undefined` sample gives the empty body; otherwise, under a lawful JSON runtime, the body parses back to the sample. |
| Swagger.GenerateSample | src/utils/swaggerParser.ts:175-180 | A missing or falsy schema samples to `{}`, and a truthy `example` is returned as it is. |
| Swagger.SampleUndefined | src/utils/swaggerParser.ts:175-210 | The sample is `undefined` exactly for a truthy schema without example, properties or items, not of type object or array, of type string, whose truthy `enum` has no first element. |
| Swagger.ArraySample | src/utils/swaggerParser.ts:192-194 | An array schema samples to a one-element array holding the sample of `items`, printed as `null` where that is `undefined`. |
| Swagger.BaseUrl | src/utils/swaggerParser.ts:91-99 | The base URL throws exactly when `servers` is truthy with a `length` above 0, as JavaScript compares it, and `servers[0]` is `null` or `undefined`; with such servers it is the first server's `url` as a string; otherwise it is empty or starts with `https://` from truthy `host` and `basePath`. |
| Swagger.OpenApiBase | src/utils/swaggerParser.ts:91-94 | With a non-empty `servers` list the base URL is the first server's `url`. |
| Swagger.ServersObjectBase | src/utils/swaggerParser.ts:92-94 | A `servers` object whose `length` member is positive, as a number or numeric text, is read by index: its member `0` is the first server. |
| Swagger.ServersWithoutLength | src/utils/swaggerParser.ts:92-99 | A `servers` object without `length` is not a server list; without `host` the base is empty. |
| Swagger.NullServerThrows | src/utils/swaggerParser.ts:92-167 | A `null` first server throws, so the import fails. |
| Swagger.SwaggerTwoBase | src/utils/swaggerParser.ts:95-99 | Without servers, the base is `https://` + host + basePath when both are non-empty, else empty. |
| Swagger.ParamRow | src/utils/swaggerParser.ts:121-134 | A parameter is placed in `query` or `header` exactly when its `in` says so, as a row with its name, an empty value and its description; only a `null` parameter throws. |
| Swagger.ParamRows | src/utils/swaggerParser.ts:120-136 | The parameter loop throws exactly when some parameter is `null`. |
| Swagger.ParamRowsSplit | src/utils/swaggerParser.ts:120-136 | The loop pushes exactly the `query` rows to the params and the `header` rows to the headers, each in order. |
| Swagger.RowsInMeaning | src/utils/swaggerParser.ts:122-133 | A row is among the rows of `where` parameters exactly when some parameter with that `in` value produces it. |
| Swagger.BodyOf | src/utils/swaggerParser.ts:138-149 | Without a truthy requestBody the body is empty; an empty `content` object throws. |
| Swagger.FirstMediaTypeBody | src/utils/swaggerParser.ts:139-149 | The first media type decides: its truthy example pretty-printed, else the printed sample of its truthy schema, else empty. |
| Swagger.BuildRequest | src/utils/swaggerParser.ts:106-155 | A built request has the given id, URL base + path, the upper-cased method, the JSON Content-Type header first, exactly one 2xx test and the summary/operationId/`METHOD path` name; without parameters it has only that header and no params; a `null` operation throws. |
| Swagger.RequestParameters | src/utils/swaggerParser.ts:111-136 | With a parameter list, params are the `query` rows and the headers are the Content-Type header followed by the `header` rows, in order. |
| Swagger.MethodOperations | src/utils/swaggerParser.ts:104-105 | Only entries whose key is one of the seven lower-case methods become operations, all of that path. |
| Swagger.OperationsSound | src/utils/swaggerParser.ts:102-105 | Every imported operation is a listed lower-case method entry of some path item. |
| Swagger.OperationsComplete | src/utils/swaggerParser.ts:102-105 | Every lower-case method entry of every path item is imported. |
| Swagger.RequestsFail | src/utils/swaggerParser.ts:103-167 | The import fails exactly when building some operation throws. |
| Swagger.RequestsAt | src/utils/swaggerParser.ts:103-157 | Otherwise the i-th request is the i-th operation's, numbered in order. |
| Swagger.ParseSwaggerSpec | src/utils/swaggerParser.ts:70-88 | Text that is not JSON, or is `null`, gives no collection; a collection has the first uuid, a description, and is named by `info.title` or "Imported API". |
| Swagger.ImportedRequests | src/utils/swaggerParser.ts:101-161 | An imported collection has one request per listed operation, in iteration order, each with its own uuid, base + path, the upper-cased method, the Content-Type header first, one 2xx test and its default name. |
| Swagger.ImportedIdsDistinct | src/utils/swaggerParser.ts:84-107 | With distinct uuids, the collection and its requests all have distinct ids. |
| Swagger.ImportCoversPaths | src/utils/swaggerParser.ts:102-105 | Every lower-case method entry of every path item of the spec is among the imported operations. |
| ScreenshotAnalysis.Block | src/services/screenshotAnalysisService.ts:55-444 | Every keyword group's fixed block holds at least three actions. |
| ScreenshotAnalysis.Stamp | src/services/screenshotAnalysisService.ts:56-443 | Stamping keeps every template's kind, element, value and position and gives consecutive timestamps from the start value. |
| ScreenshotAnalysis.StampAppend | src/services/screenshotAnalysisService.ts:51-473 | Stamping two blocks in turn continues the counter across them. |
| ScreenshotAnalysis.Templates | src/services/screenshotAnalysisService.ts:447-473 | After the opening action there are always at least three actions. |
| ScreenshotAnalysis.SelectedSize | src/services/screenshotAnalysisService.ts:55-444 | The matching groups contribute nothing or at least one whole block. |
| ScreenshotAnalysis.GenerateActionsFromDescription | src/services/screenshotAnalysisService.ts:32-476 | The loop over groups yields the declarative list: the opening navigation at time 0 and (0, 0), then the matching blocks (or the default block) stamped 1, 2, ...; so there are at least 4 actions and every timestamp equals its index. |
| ScreenshotAnalysis.PushMatching | src/services/screenshotAnalysisService.ts:50-446 | The keyword tests push, after the opening action, the blocks of the matching groups in group order with running timestamps. |
| ScreenshotAnalysis.Push | src/services/screenshotAnalysisService.ts:56-59 | Pushing a block with `timestamp++` appends it stamped from the current count, which stays equal to the list length. |
| ScreenshotAnalysis.SelectedSplit | src/services/screenshotAnalysisService.ts:55-444 | The groups are tested independently: the blocks of a split group list are the blocks of each part, in order, so blocks stack. |
| ScreenshotAnalysis.SelectedOne | src/services/screenshotAnalysisService.ts:55-56 | A single group contributes its block exactly when one of its keywords occurs. |
| ScreenshotAnalysis.SelectedEmpty | src/services/screenshotAnalysisService.ts:447 | Nothing is selected exactly when no group matches. |
| ScreenshotAnalysis.DefaultExactlyWhenNoMatch | src/services/screenshotAnalysisService.ts:447-473 | With no match exactly three default actions follow the opening (4 in all); with some match, exactly the matching blocks do. |
| ScreenshotAnalysis.BlankDescription | src/services/screenshotAnalysisService.ts:46-48 | An empty or blank description gives the same actions as "default comprehensive test". |
| ScreenshotAnalysis.SameEffective | src/services/screenshotAnalysisService.ts:46-50 | Two descriptions searched as the same text give the same actions. |
| ScreenshotAnalysis.AnalyzeScreenshot | src/services/screenshotAnalysisService.ts:18-24 | The duration is twice the action count and the resolution 1280x720. |
| ScreenshotAnalysis.Shift | src/services/screenshotAnalysisService.ts:492-495 | Shifting changes only the timestamps, each by the offset. |
| ScreenshotAnalysis.AnalyzeMultipleScreenshots | src/services/screenshotAnalysisService.ts:481-508 | The result concatenates the per-screenshot actions, each shifted by the earlier durations; the duration is their sum (twice the action count); timestamps strictly increase and stay in [0, duration). |
| ScreenshotAnalysis.CombinedTimeline | src/services/screenshotAnalysisService.ts:488-501 | Along the combined list timestamps strictly increase and stay below the total duration. |
| ScreenshotAnalysis.AppendShifted | src/services/screenshotAnalysisService.ts:492-500 | Appending actions stamped 0, 1, ... shifted past every earlier timestamp keeps the timeline increasing and bounded. |
| ScreenshotAnalysis.ActionsTimeline | src/services/screenshotAnalysisService.ts:35-51 | One analysis stamps its actions 0, 1, 2, ... |
| TestCaseGen.ClickCode | src/services/testGeneratorService.ts:136-161 | A click uses the selector exactly when the element is non-empty, the coordinates exactly when there is no element but both x and y are known, and otherwise the "details missing" comment. |
| TestCaseGen.InputCode | src/services/testGeneratorService.ts:166-182 | Input code fills exactly when both element and value are non-empty, and otherwise is the "details missing" comment. |
| TestCaseGen.NavigationCode | src/services/testGeneratorService.ts:187-201 | Navigation goes to the value, or to `https://example.com` when there is none. |
| TestCaseGen.ScrollCode | src/services/testGeneratorService.ts:206-222 | Scrolling uses the coordinates exactly when both are known. |
| TestCaseGen.HoverCode | src/services/testGeneratorService.ts:227-252 | Hover follows the click preference: selector, then both coordinates, then the comment. |
| TestCaseGen.KeypressCode | src/services/testGeneratorService.ts:257-275 | A key press is emitted exactly for a present, non-zero key code. |
| TestCaseGen.ActionToTestStep | src/services/testGeneratorService.ts:51-95 | The step has the given number as id, is an action step, and its code is the helper for the action's type. |
| TestCaseGen.AssertionStepAfter | src/services/testGeneratorService.ts:100-131 | The assertion after step k has id k + 0.5, is an assertion step, and checks the randomly picked kind. |
| TestCaseGen.Steps | src/services/testGeneratorService.ts:27-39 | n actions give n + n/3 steps (integer division). |
| TestCaseGen.GenerateTestCases | src/services/testGeneratorService.ts:19-46 | The case carries the test name and n + n/3 steps for n actions. |
| TestCaseGen.ActionStepAt | src/services/testGeneratorService.ts:27-39 | The k-th action becomes the step at index k - 1 + (k - 1)/3, numbered k, so action steps keep action order. |
| TestCaseGen.AssertionStepAt | src/services/testGeneratorService.ts:31-36 | For every k divisible by 3, the assertion numbered k + 0.5 follows the k-th action step directly. |
| TestCaseGen.AssertionCount | src/services/testGeneratorService.ts:27-39 | There are exactly n action steps and n/3 assertion steps. |
| TestCaseGen.DescriptionCount | src/services/testGeneratorService.ts:43 | The description determines the action count: equal descriptions mean equal counts. |
| TestCaseGen.StepsTextAppend | src/services/testGeneratorService.ts:362 | Rendering two runs of steps is rendering each, joined by a blank line, so steps appear in order. |
| TestCaseGen.PytestName | src/services/testGeneratorService.ts:381 | The pytest function name is `test_` followed by as many characters as the name, each a lower-case letter, digit or `_`. |
| TestCaseGen.PytestNameLetters | src/services/testGeneratorService.ts:381 | Letters and digits of the name keep their place, lower-cased. |
| TestCaseGen.GenerateTestScript | src/services/testGeneratorService.ts:358-398 | The script keeps the framework and the description, is titled by the name (the pytest function name for pytest), and its body is the steps rendered in order. |
| DirectGeneration.TypeNamed | src/services/directTestGenerationService.ts:13 | The three framework names are recognised exactly; any other name is reported as unknown. |
| DirectGeneration.Label | src/services/directTestGenerationService.ts:16 | A description that is non-empty after trimming is used trimmed; otherwise the fallback. The result is never empty and always trimmed. |
| DirectGeneration.CleanDescription | src/services/directTestGenerationService.ts:16 | The cleaned description is non-empty and trimmed, with `Screenshot Test` standing in for a blank one. |
| DirectGeneration.TestNameShape | src/services/directTestGenerationService.ts:17 | The test name has the description's length; letters and digits stay in place and every other character becomes `_`. |
| DirectGeneration.ChooseTemplate | src/services/directTestGenerationService.ts:20-37 | A non-default template has one of its keywords in the description, and no earlier template in the chain has any. |
| DirectGeneration.DefaultIffNoKeyword | src/services/directTestGenerationService.ts:34-36 | The default template is chosen exactly when no template's keyword occurs. |
| DirectGeneration.BlockAt | src/services/directTestGenerationService.ts:707-726 | Block i is numbered i + 1, has a non-empty trimmed heading, and fills-and-clicks at even positions, clicks-and-checks at odd ones. |
| DirectGeneration.MultiTest | src/services/directTestGenerationService.ts:707-766 | A multi-screenshot script has one block per screenshot, in the chosen framework and name. |
| DirectGeneration.GenerateDirectTestScript | src/services/directTestGenerationService.ts:11-38 | The test name comes from the cleaned description; for a known framework the script is the template chosen from the lower-cased description. |
| DirectGeneration.UnknownTypeFallback | src/services/directTestGenerationService.ts:121-123 | An unknown framework gives a one-block Playwright script whose heading is the chosen template's caption. |
| DirectGeneration.OneBlock | src/services/directTestGenerationService.ts:707-726 | A single already-trimmed description becomes the only block's heading, with the fill-and-click interaction. |
| DirectGeneration.GenerateMultiScreenshotTestScript | src/services/directTestGenerationService.ts:43-60 | The script is named `Multi_Screenshot_Test`, has one block per screenshot, and uses the requested framework, or Playwright for an unknown one. |
| DirectGeneration.MultiBlocks | src/services/directTestGenerationService.ts:708-716 | Block i is numbered i + 1, shows the trimmed description or `Step i+1`, and fills-and-clicks exactly at even i. |
| DirectGeneration.SlugShape | src/services/directTestGenerationService.ts:711 | The visited path keeps the heading's length, uses only `[a-z0-9-]`, and keeps lower-case letters and digits in place. |
| BackendScripts.TestFunctionName | backend/app/test_generator/generator.py:30 | The function name is `test_` followed by one character per character of the name, with no space left in it. |
| BackendScripts.TestFunctionNameKeeps | backend/app/test_generator/generator.py:30 | Every non-space character of the name keeps its place, lower-cased. |
| BackendScripts.StepLines | backend/app/test_generator/generator.py:40-53 | Navigation, click and input actions give two lines, a comment numbered i + 1 and the page call; any other type gives none. |
| BackendScripts.ActionLineCounts | backend/app/test_generator/generator.py:40-60 | One action contributes exactly one blank line, and a URL check only in the generator and only at a zero-based position i > 0 divisible by 3. |
| BackendScripts.StepLineCounts | backend/app/test_generator/generator.py:43-53 | The step lines hold neither a blank line nor a URL check. |
| BackendScripts.BodyCounts | backend/app/test_generator/generator.py:40-60 | n actions give n blank lines; the generator adds (n - 1)/3 URL checks for n > 0, and the recorder none. |
| BackendScripts.StepCommentSource | backend/app/test_generator/generator.py:40-53 | A step comment numbered k comes from the k-th action, which is a navigation, click or input. |
| BackendScripts.ActionComment | backend/app/test_generator/generator.py:40-53 | Among one action's lines only the first can be a step comment, numbered after the action, which is then a navigation, click or input. |
| BackendScripts.LoadActions | backend/app/test_generator/generator.py:11-17 | Loading fails with `FileNotFoundError` on `actions.json` exactly when the file is missing, and otherwise returns its contents. |
| BackendScripts.BaseUrl | backend/app/test_generator/generator.py:24 | The base URL is empty for an empty log, the first action's url otherwise, and a `KeyError` when that action has none. |
| BackendScripts.Join | backend/app/test_generator/generator.py:22 | Like POSIX `os.path.join`, the name ends the path; an empty directory or an absolute name gives the name alone, otherwise the directory, a `/` only where the directory does not already end in one, and the name. |
| BackendScripts.OutputFile | backend/app/test_generator/generator.py:21-22 | A non-empty given path is used as is; otherwise the default name is joined to the recording directory. |
| BackendScripts.ScriptHead | backend/app/test_generator/generator.py:26-38 | The fixed opening starts with the imports, defines the test function named from the test name (except in the recorder's runner), ends with the visit of the base URL and a blank line, and holds no step comment and no close. |
| BackendScripts.ScriptTail | backend/app/test_generator/generator.py:62-67 | Playwright closes the context and the browser, pytest writes nothing after the steps, and the recorder's runner closes only the browser; no step comment. |
| BackendScripts.GenerateScript | backend/app/test_generator/generator.py:19-126 | A script is produced exactly when the base URL can be read; it goes to the given path or the framework's default file in the recording directory, is the fixed opening, the per-action lines with URL checks and the fixed close, defines the named test, visits the base URL, and closes the browser exactly in the Playwright variant. |
| BackendScripts.GeneratedCounts | backend/app/test_generator/generator.py:26-67 | A whole generated script holds (n - 1)/3 URL checks for n > 0 actions, and n + 3 blank lines in Playwright or n + 1 in pytest besides those of the import preamble. |
| BackendScripts.GeneratedStepSource | backend/app/test_generator/generator.py:40-53 | Every step comment in a generated script is numbered k with 1 <= k <= n, and the k-th action is a navigation, click or input. |
| BackendScripts.BodyHasNoClose | backend/app/test_generator/generator.py:40-60 | The per-action lines never close the browser. |
| BackendScripts.GenerateTestSteps | backend/app/test_generator/generator.py:128-145 | One row per action in order, numbered from 0, CSS selector type, with type and selector copied and a missing value or screenshot given as empty. |
| BackendScripts.BrowserNamed | backend/app/recorder/recorder.py:25-32 | Exactly `chromium`, `firefox` and `webkit` are accepted; anything else is a `ValueError` naming it. |
| BackendScripts.BestSelector | backend/app/recorder/recorder.py:116-134 | A non-empty id gives `#id`; otherwise a non-empty class gives `.` and the class with spaces turned into dots; with neither, the XPath fallback is taken. |
| BackendScripts.Append | backend/app/recorder/recorder.py:55-114 | Recording appends exactly one entry, keeps the earlier ones, and names its screenshot after its own position, so that property is kept. |
| BackendScripts.RecordClick | backend/app/recorder/recorder.py:55-74 | A click appends one `click` entry. |
| BackendScripts.RecordNavigation | backend/app/recorder/recorder.py:76-92 | Only a main-frame navigation is logged, as a `navigation` entry with the frame's url. |
| BackendScripts.RecordInput | backend/app/recorder/recorder.py:94-114 | An input appends one `input` entry holding the typed value, or `""` when the event has none. |
| BackendScripts.StopRecording | backend/app/recorder/recorder.py:136-150 | The report counts every logged action and names `actions.json`; no other saved file changes. |
| BackendScripts.StopThenLoad | backend/app/recorder/recorder.py:142-144 | A generator opened on the stopped recording loads exactly the recorded log. |
| BackendScripts.RecorderScriptLines | backend/app/recorder/recorder.py:152-200 | The recorder's script is the runner's fixed opening, the per-action lines without URL checks and the runner's close; it visits its base URL and closes the browser but never closes a context. |
| BackendScripts.RecorderCounts | backend/app/recorder/recorder.py:157-192 | The recorder's script checks no URL and holds n + 4 blank lines for n actions besides the one of the import preamble: one per action, two in the fixed opening and two in the fixed close. |
| BackendScripts.BodyHasNoCloseContext | backend/app/recorder/recorder.py:171-186 | The recorder's per-action lines never close a context. |
| TestMetrics.Filter | src/services/testMetricsService.ts:280-295 | Filtering keeps exactly the cases that satisfy the predicate and never adds any. |
| TestMetrics.FilterAppend | src/services/testMetricsService.ts:280-295 | Filtering a concatenation filters each part and concatenates, so order is kept. |
| TestMetrics.FilterMonotone | src/services/testMetricsService.ts:288-295 | A stronger predicate never selects more cases. |
| TestMetrics.PassRate | src/services/testMetricsService.ts:286 | The pass rate is a percentage in [0, 100]; it is 100 exactly when every test passed and 0 exactly when none did. |
| TestMetrics.Average | src/services/testMetricsService.ts:297-303 | The average times the number of recorded times is their sum; with no recorded time it is 0. |
| TestMetrics.CalculateTestMetrics | src/services/testMetricsService.ts:275-318 | Each count is the number of cases with that status, failures are counted by severity and by priority, and the rate and average follow from the counts and the recorded times. |
| TestMetrics.StatusCountsSum | src/services/testMetricsService.ts:279-284 | The five status counts add up to the total. |
| TestMetrics.FailureCountsBounded | src/services/testMetricsService.ts:288-295 | Critical and high-priority failures never outnumber failures. |
| TestMetrics.AverageBounded | src/services/testMetricsService.ts:297-303 | The average lies between any lower and upper bound of the recorded times. |
| TestMetrics.SumBounded | src/services/testMetricsService.ts:302 | A sum of n times bounded by lo and hi lies between n * lo and n * hi. |
| TestMetrics.GetAll | src/services/testMetricsService.ts:239-270 | A non-empty fetched list is used as is; an error or an empty list falls back to the sample data. |
| TestMetrics.GetFailedTestCases | src/services/testMetricsService.ts:323-326 | Exactly the failed cases. |
| TestMetrics.GetHighPriorityFailures | src/services/testMetricsService.ts:331-337 | Exactly the failed cases of priority P0 or P1. |
| TestMetrics.GetTestCasesByModule | src/services/testMetricsService.ts:342-345 | Exactly the cases of that module. |
| TestMetrics.GetTestCasesByStatus | src/services/testMetricsService.ts:350-353 | Exactly the cases with that status. |
| TestMetrics.GetTestCasesBySeverity | src/services/testMetricsService.ts:358-361 | Exactly the cases with that severity. |
| TestMetrics.GetTestCasesByPriority | src/services/testMetricsService.ts:366-369 | Exactly the cases with that priority. |
| TestMetrics.HighPriorityListMatchesMetric | src/services/testMetricsService.ts:331-337 | The high-priority failure list has as many entries as the metric counts, and holds exactly the failed P0 and P1 cases. |
| Notifications.AlertingIsHighPriority | src/services/notificationService.ts:80-85 | Every case that triggers an alert is a high-priority failure. |
| Notifications.AlertingExactly | src/services/notificationService.ts:80-85 | A case alerts exactly when it is a high-priority failure, except a P1 of medium or low severity; P2 and P3 never alert. |
| Notifications.AlertEmail | src/services/notificationService.ts:24-54 | The email counts the cases, has one row per case in order with its id and fields, and is assigned to the first case's assignee or `QA Team`. |
| Notifications.SubjectCount | src/services/notificationService.ts:25 | The subject determines the number of failures. |
| Notifications.SendHighPriorityFailureNotification | src/services/notificationService.ts:11-69 | No cases is a success without sending; otherwise the result is true exactly when the mail service answers true, and false when it throws. |
| Notifications.CheckAndNotify | src/services/notificationService.ts:74-96 | With no alerting case the result is true without sending; otherwise one email about exactly the alerting cases decides the result. |
| Notifications.AlertedWithinHighPriority | src/services/notificationService.ts:79-85 | Every alerting case is in the high-priority failure list, so there are never more of them. |
| FileSystem.Collapse | src/services/fileSystemService.ts:92 | Collapsing never lengthens a path and keeps its first character. |
| FileSystem.CollapseMeaning | src/services/fileSystemService.ts:90-93 | A joined path never contains `//`, and its non-slash characters are those of the pieces, in order. |
| FileSystem.CollapseNoop | src/services/fileSystemService.ts:92 | A path without `//` is left as it is. |
| FileSystem.JoinWithSnoc | src/services/fileSystemService.ts:92 | Joining one more piece appends a separator and that piece. |
| FileSystem.DirnameLast | src/services/fileSystemService.ts:95-98 | The directory name, a `/` and the last segment give back a path that contains `/`; the last segment holds no `/`; a path without `/` has an empty directory name. |
| FileSystem.Register | src/services/fileSystemService.ts:29-42 | Setting a registry key that already exists keeps its place; a new key goes last. |
| FileSystem.Mkdir | src/services/fileSystemService.ts:24-35 | After making a directory exactly the old paths and the new one exist; file contents and base paths are unchanged. |
| FileSystem.Write | src/services/fileSystemService.ts:37-49 | After writing exactly the old paths and the written one exist; the base paths are unchanged. |
| FileSystem.Read | src/services/fileSystemService.ts:51-64 | Reading a path that was never written gives the empty string. |
| FileSystem.WriteThenRead | src/services/fileSystemService.ts:37-64 | A written file exists and reads back its data; every other path reads and exists as before. |
| FileSystem.Readdir | src/services/fileSystemService.ts:66-85 | A name is listed exactly when some registered key other than the directory starts with it and is that name after the directory and one more character, with no `/` in it. |
| FileSystem.ReaddirSiblingQuirk | src/services/fileSystemService.ts:75-76 | Because the character after the directory is not checked, listing `C:/Betaboss/Test` lists `ases` for the sibling `C:/Betaboss/TestCases`. |
| FileSystem.ReaddirChild | src/services/fileSystemService.ts:66-85 | A registered entry directly under the directory is listed by its name. |
| FileSystem.SubPaths | src/services/fileSystemService.ts:133-134 | One joined path per subdirectory name. |
| FileSystem.MakeSubdirs | src/services/fileSystemService.ts:133-139 | Afterwards exactly the old paths and the joined subdirectories exist; files and base paths are unchanged. |
| FileSystem.InitializeFileSystem | src/services/fileSystemService.ts:108-151 | A non-empty custom path becomes the base; the base and all seven subdirectories exist afterwards, the base is stored, files are unchanged and nothing that existed is lost. |
| FileSystem.GetBasePath | src/services/fileSystemService.ts:156-159 | The stored path when it is present and non-empty, otherwise the module variable. |
| FileSystem.SetBasePath | src/services/fileSystemService.ts:164-167 | Both copies of the base path become the new path; the registry and files are unchanged. |
| FileSystem.FirstStart | src/services/fileSystemService.ts:102-151 | On a fresh store initializing registers and stores `C:/Betaboss` and writes no file. |
| FileSystem.BasePathRoundTrip | src/services/fileSystemService.ts:108-174 | Getting after setting gives the set path, and setting or initializing makes the store count as initialized with the base path readable back. |
| FileSystem.SaveRecord | src/services/fileSystemService.ts:179-182 | After saving, the record's file `<base>/<folder>/<id>.json` exists. |
| FileSystem.GetRecord | src/services/fileSystemService.ts:187-196 | Getting gives null exactly when the record's file is not registered, otherwise the parse of its contents. |
| FileSystem.SaveThenGet | src/services/fileSystemService.ts:179-196 | Getting a record just saved parses back the saved JSON. |
| FileSystem.JsonNames | src/services/fileSystemService.ts:212-213 | A name is kept exactly when it is listed and ends in `.json`. |
| FileSystem.ParseListed | src/services/fileSystemService.ts:212-217 | One record per kept `.json` name, in listing order, each the parse of the file at the folder joined with that name. |
| FileSystem.GetAllRecords | src/services/fileSystemService.ts:201-220 | Nothing is listed unless the folder itself is registered; otherwise the records are, in listing order, the parses of the files of exactly the listed `.json` names. |
| FileSystem.SaveThenListed | src/services/fileSystemService.ts:179-220 | In a folder that exists, a record saved under an id without `/` is among all records of that folder, parsed from the saved JSON. |
| FileSystem.SaveDoesNotCreateFolder | src/services/fileSystemService.ts:179-206 | Saving into a folder that was never made leaves the list of all records empty, because writing does not register parent folders. |
| FileSystem.SaveAll | src/services/fileSystemService.ts:435-437 | Saving records in order leaves every saved record's file present, keeps everything that existed and leaves the base paths alone. |
| FileSystem.SaveAllThenGet | src/services/fileSystemService.ts:179-196 | A saved record that no later record overwrites is read back as it was saved. |
| FileSystem.InitializeSampleData | src/services/fileSystemService.ts:395-532 | Every sample test case, suite, API collection and environment has its file in its own folder afterwards, and nothing that existed is lost. |
| FileSystem.GetConfig | src/services/fileSystemService.ts:538-557 | The default settings when `<base>/config.json` is not registered, otherwise the parse of its contents, null when that parse throws. |
| FileSystem.ConfigWritten | src/services/fileSystemService.ts:538-557 | After `config.json` is written under the base, getting the configuration gives the parse of the written text, not the defaults. |
| LocalStore.SetItem | src/services/localStorageService.ts:28 | A write succeeds exactly on a writable store and then sets just that key. |
| LocalStore.MarkAsRun | src/services/localStorageService.ts:27-29 | After a successful mark the store is no longer on its first run; it fails exactly when the store cannot be written. |
| LocalStore.FirstRunUntilMarked | src/services/localStorageService.ts:20-29 | Writing any other key leaves the first-run answer unchanged. |
| LocalStore.GetConfig | src/services/localStorageService.ts:34-58 | A stored configuration is parsed and returned without writing; a parse error fails. Without one, the default is stored and returned, failing exactly when the store cannot be written. |
| LocalStore.ConfigStable | src/services/localStorageService.ts:34-58 | On a store without configuration, the first call stores the default and a second call reads back the same default without writing. |
| LocalStore.GetList | src/services/localStorageService.ts:76-90 | A missing or empty value, or one that does not parse, reads as `[]`. |
| LocalStore.SaveList | src/services/localStorageService.ts:95-103 | Saving reports true exactly when the write succeeds, sets just that key to the JSON text, and changes nothing on failure. |
| LocalStore.SaveThenGet | src/services/localStorageService.ts:76-103 | A list just saved reads back as itself. |
| LocalStore.SaveKeepsOthers | src/services/localStorageService.ts:95-103 | Saving under one key leaves every other key as it was. |
| LocalStore.SaveEmailNotification | src/services/localStorageService.ts:172-197 | On success the stored log is the earlier entries followed by the new entry with its fresh id and timestamp; on failure nothing changes. |
| LocalStore.Logged | src/services/localStorageService.ts:175-180 | A missing log reads as no entries. |
| LocalStore.NotificationAppended | src/services/localStorageService.ts:172-197 | Saving a notification keeps every earlier entry in order and adds exactly one at the end. |
| LocalStore.InitializeSampleData | src/services/localStorageService.ts:221-344 | Only when the stored test cases' `length` is the number 0 (an array's, a string's or an object's own member) are the sample cases and then the sample suites written; otherwise nothing is. |
| LocalStore.ZeroLengthObject | src/services/localStorageService.ts:226 | A stored object whose `length` member is 0 counts as no test cases, so the samples are written. |
| LocalStore.TextZeroLength | src/services/localStorageService.ts:226 | A stored `length` of the text `"0"` is not the number 0, so nothing is written. |
| LocalStore.InitializeSampleDataIdempotent | src/services/localStorageService.ts:221-344 | With a non-empty sample and a working store, a second call changes nothing. |
| KeyValueEditor.BlankPair | src/components/apiTesting/PostmanStyleRequestEditor.tsx:109-111 | A new row is empty and enabled; only the Postman-style editor gives it an empty description. |
| KeyValueEditor.AddPair | src/components/apiTesting/RequestEditor.tsx:32-34 | Adding keeps every row and puts one blank row last. |
| KeyValueEditor.RemovePair | src/components/apiTesting/PostmanStyleRequestEditor.tsx:113-117 | Removing an index in range drops exactly that row and keeps the rest in order; an index out of range changes nothing. |
| KeyValueEditor.ChangePair | src/components/apiTesting/PostmanStyleRequestEditor.tsx:119-132 | Editing a row in range changes only that field of that row; out of range, the Postman-style editor does nothing and the basic one fails. |
| KeyValueEditor.TogglePair | src/components/apiTesting/RequestEditor.tsx:48-52 | Toggling a row in range negates only its flag; out of range, the Postman-style editor does nothing and the basic one fails. |
| KeyValueEditor.Negated | src/components/apiTesting/PostmanStyleRequestEditor.tsx:138 | The new flag is true exactly when the old one was not true, so a missing flag becomes true. |
| KeyValueEditor.ToggleShown | src/components/apiTesting/PostmanStyleRequestEditor.tsx:134-140 | A row without a flag stays checked after the first toggle; a row with a flag flips its checkbox, and toggling twice restores it. |
| KeyValueEditor.Keys | src/components/apiTesting/PostmanStyleRequestEditor.tsx:146 | The keys of the rows, in order. |
| KeyValueEditor.FirstUnused | src/components/apiTesting/PostmanStyleRequestEditor.tsx:147 | The result is the earliest candidate that is not yet used, and there is none exactly when every candidate is used. |
| KeyValueEditor.KeyPlaceholder | src/components/apiTesting/PostmanStyleRequestEditor.tsx:143-155 | A suggested common name is not yet a key and every common name before it is one, so it is the first unused name; the generic label for the table appears exactly when every common name is taken. |
| KeyValueEditor.SuggestionAdvances | src/components/apiTesting/PostmanStyleRequestEditor.tsx:143-155 | Adding a row keyed with the suggestion moves the suggestion to a later common name; once the generic label is shown it stays. |
| KeyValueEditor.ValuePlaceholder | src/components/apiTesting/PostmanStyleRequestEditor.tsx:157-174 | For headers, `application/json`, `Bearer token`, `*/*` and `Mozilla/5.0` are suggested exactly for the keys content-type, authorization, accept and user-agent in any case, and `Header value` exactly for any other key. For params, the first of `id`, `page`, `limit` and `sort` that the lower-cased key contains decides: `12345`, `1`, `10` or `asc`; `Parameter value` is suggested exactly when it contains none. |
| KeyValueEditor.ValueHintIgnoresCase | src/components/apiTesting/PostmanStyleRequestEditor.tsx:159 | Keys that differ only in case get the same value hint. |
| KeyValueEditor.ContentTypeIndex | src/components/apiTesting/PostmanStyleRequestEditor.tsx:532 | The index points at a Content-Type header in any case, and no earlier header is one; -1 means there is none. |
| KeyValueEditor.ContentType | src/components/apiTesting/PostmanStyleRequestEditor.tsx:274-275 | The content type in effect is the value of the first Content-Type header in any case when that value is non-empty, and `application/json` when there is no such header or its value is empty; so it is never empty. |
| KeyValueEditor.BodyPlaceholder | src/components/apiTesting/PostmanStyleRequestEditor.tsx:273-298 | The first of `json`, `x-www-form-urlencoded`, `form-data` and `xml` that the content type contains decides the hint: JSON, URL-encoded form, form data or XML, each exactly in that case; the plain hint is shown exactly when it contains none. |
| KeyValueEditor.ChosenTypeHint | src/components/apiTesting/PostmanStyleRequestEditor.tsx:273-298 | After a non-empty type is chosen, the body hint follows from that type alone, by the same priority, whatever the headers were. |
| KeyValueEditor.NoHeaderMeansJson | src/components/apiTesting/PostmanStyleRequestEditor.tsx:274-277 | Without a Content-Type header the type is `application/json` and the JSON hint is shown. |
| KeyValueEditor.SetContentType | src/components/apiTesting/RequestEditor.tsx:313-325 | Choosing a type updates the first Content-Type header, or appends an enabled one when there is none. |
| KeyValueEditor.SetContentTypeShown | src/components/apiTesting/PostmanStyleRequestEditor.tsx:528-541 | A chosen non-empty type is then the one in effect, and at most one header was added. |
| KeyValueEditor.ContentTypeIndexStable | src/components/apiTesting/PostmanStyleRequestEditor.tsx:535-536 | Changing the value of the found header keeps it found at the same index. |
| KeyValueEditor.ContentTypeIndexAppend | src/components/apiTesting/PostmanStyleRequestEditor.tsx:537-538 | An appended Content-Type header is found at the end when there was none. |
| KeyValueEditor.StatusColorOf | src/components/apiTesting/PostmanStyleRequestEditor.tsx:348-354 | Green exactly for 2xx, blue for 3xx, orange for 4xx, red from 500 and grey below 200. |
| KeyValueEditor.FormatResponseBody | src/components/apiTesting/PostmanStyleRequestEditor.tsx:370-380 | A JSON body is pretty-printed when it parses; a body that does not parse or is not declared JSON is shown unchanged. |
| KeyValueEditor.CurlPreview | src/components/apiTesting/RequestEditor.tsx:171-178 | The preview is the new command, or the previous text when the conversion throws; without params it always starts with `curl -X `. |
| Workspace.SelectCollection | src/components/apiTesting/ApiWorkspace.tsx:457-465 | The collection is selected together with its first request, or with no request when it is empty; nothing else changes. |
| Workspace.SelectRequest | src/components/apiTesting/ApiWorkspace.tsx:468-471 | The request is selected and the response is cleared; collections are unchanged. |
| Workspace.FirstIndex | src/components/apiTesting/ApiWorkspace.tsx:483-496 | The index is that of the first element whose key is the id, and -1 exactly when no element has it. |
| Workspace.UpsertRequest | src/components/apiTesting/ApiWorkspace.tsx:483-489 | A request whose id is present replaces the first with that id in place; otherwise it is appended. No other request changes. |
| Workspace.ReplaceCollection | src/components/apiTesting/ApiWorkspace.tsx:496-501 | The first collection with the same id is replaced, and every other collection is kept; the list keeps its length. |
| Workspace.RequestSave | src/components/apiTesting/ApiWorkspace.tsx:479-502 | Without a selected collection nothing happens; otherwise the upserted collection is saved, selected and replaced in the list, and the request is selected. |
| Workspace.SaveFindsRequest | src/components/apiTesting/ApiWorkspace.tsx:479-502 | After saving, the request is found by its id and is exactly the one saved; saving it again changes nothing. |
| Workspace.FirstIndexReplace | src/components/apiTesting/ApiWorkspace.tsx:485-486 | Replacing the found element by one with the same key keeps it found at the same index. |
| Workspace.FirstIndexAppend | src/components/apiTesting/ApiWorkspace.tsx:487-488 | An element appended with a key no element had is found at the end. |
| Workspace.NewRequest | src/components/apiTesting/ApiWorkspace.tsx:584-593 | The new request is a GET of `https://api.example.com` with one JSON Content-Type header, no params, an empty body and the status-200 test. |
| Workspace.AddNewRequest | src/components/apiTesting/ApiWorkspace.tsx:581-609 | Without a selected collection nothing happens; otherwise the new request is appended to it and the collection is saved, selected and replaced in the list. |
| Workspace.AddNewCollection | src/components/apiTesting/ApiWorkspace.tsx:566-578 | One empty collection with the given id is appended, saved and selected, and no request is selected. |
| Workspace.Placeholder | src/components/apiTesting/ApiWorkspace.tsx:522 | The placeholder is the key wrapped in `{{` and `}}`. |
| Workspace.ApplyVariable | src/components/apiTesting/ApiWorkspace.tsx:521-531 | A variable replaces every occurrence of its placeholder in the url, each header value and the body; nothing else changes. |
| Workspace.ApplyVariables | src/components/apiTesting/ApiWorkspace.tsx:512-533 | Applying the variables in order never touches the id, params, header keys, the method or the tests, and keeps the number of headers. |
| Workspace.ApplyVariablesAppend | src/components/apiTesting/ApiWorkspace.tsx:521 | Applying a list of variables is applying its two halves one after the other. |
| Workspace.AbsentVariableNoop | src/components/apiTesting/ApiWorkspace.tsx:522-530 | A variable whose placeholder appears nowhere in the request changes nothing. |
| Workspace.FindEnvironment | src/components/apiTesting/ApiWorkspace.tsx:518 | A found environment is in the list with the id; none is found exactly when no environment has that id. |
| Workspace.ProcessedRequest | src/components/apiTesting/ApiWorkspace.tsx:512-533 | With no environment selected, or an unknown one, the request is unchanged; otherwise the selected environment's variables are applied in order. |
| Workspace.ResponseColorOf | src/components/apiTesting/ApiWorkspace.tsx:342-347 | Success colour exactly for 2xx, error from 400, warning otherwise. |
| ScreenshotWizard.ClampCount | src/components/testGenerator/MultiScreenshotTestGenerator.tsx:555 | The count is at least 1: a parsed number of at least 1 is kept, anything else becomes 1. |
| ScreenshotWizard.StartCapture | src/components/testGenerator/MultiScreenshotTestGenerator.tsx:88-93 | Setting the count forgets the screenshots and moves to the capture step. |
| ScreenshotWizard.NextDisabled | src/components/testGenerator/MultiScreenshotTestGenerator.tsx:523-527 | Next is disabled exactly on the capture step while fewer screenshots than asked for exist. |
| ScreenshotWizard.Next | src/components/testGenerator/MultiScreenshotTestGenerator.tsx:852-860 | Next advances one step exactly when it is shown and enabled, and otherwise changes nothing. |
| ScreenshotWizard.Back | src/components/testGenerator/MultiScreenshotTestGenerator.tsx:831-835 | Back goes one step back except on the first step, where it is disabled. |
| ScreenshotWizard.CaptureLabel | src/components/testGenerator/MultiScreenshotTestGenerator.tsx:124 | A new screenshot takes the typed description, else its 1-based position, marked for uploads. |
| ScreenshotWizard.Appended | src/components/testGenerator/MultiScreenshotTestGenerator.tsx:121-132 | Capturing appends exactly one labelled screenshot, keeps the earlier ones and clears the typed description. |
| ScreenshotWizard.Capture | src/components/testGenerator/MultiScreenshotTestGenerator.tsx:105-135 | A capture appends one screenshot labelled as a capture. |
| ScreenshotWizard.Upload | src/components/testGenerator/MultiScreenshotTestGenerator.tsx:185-228 | A file that is not an image is refused, unreadable data is an error, and otherwise one screenshot labelled as an upload is appended. |
| ScreenshotWizard.WithoutId | src/components/testGenerator/MultiScreenshotTestGenerator.tsx:244 | Exactly the screenshots with a different id remain. |
| ScreenshotWizard.WithoutAbsentId | src/components/testGenerator/MultiScreenshotTestGenerator.tsx:244 | Removing an id that no screenshot has changes nothing. |
| ScreenshotWizard.Remove | src/components/testGenerator/MultiScreenshotTestGenerator.tsx:243-245 | Removal filters the list by id and stays on the same step. |
| ScreenshotWizard.AddLeadMentionsLead | src/components/testGenerator/MultiScreenshotTestGenerator.tsx:266-269 | A description that mentions "add lead" mentions "lead". |
| ScreenshotWizard.LeadTests | src/components/testGenerator/MultiScreenshotTestGenerator.tsx:397-400 | The one-screenshot test is "lead", "crm" or "customer", the list test is "lead" or "crm", and they differ exactly on descriptions that mention "customer" alone. |
| ScreenshotWizard.GenerateSingle | src/components/testGenerator/MultiScreenshotTestGenerator.tsx:264-288 | A lead-related description gives the lead-form test titled with the lower-cased description; any other gives the direct generator's script; either way the review step follows. |
| ScreenshotWizard.Descriptions | src/components/testGenerator/MultiScreenshotTestGenerator.tsx:411-413 | One description per screenshot, `Unnamed Screenshot` for an empty one. |
| ScreenshotWizard.GenerateAll | src/components/testGenerator/MultiScreenshotTestGenerator.tsx:380-425 | No screenshots is an error that changes nothing else; otherwise a lead-form test when some screenshot passes the list test, else the multi-screenshot script, and then the review step. |
| ScreenshotWizard.GenerateAllBlocks | src/components/testGenerator/MultiScreenshotTestGenerator.tsx:409-418 | Without a lead-form screenshot the script has one block per screenshot, in the chosen framework. |
| ScreenshotWizard.ListLeadIsSingleLead | src/components/testGenerator/MultiScreenshotTestGenerator.tsx:397-400 | A list routed to the lead-form generator has a screenshot that the one-screenshot button would also route there. |
| ScreenshotWizard.EmergencyTitle | src/components/testGenerator/MultiScreenshotTestGenerator.tsx:336 | The title is the typed description, else the test name, else `Emergency_Test`, and never empty. |
| ScreenshotWizard.GenerateEmergency | src/components/testGenerator/MultiScreenshotTestGenerator.tsx:329-353 | The lead-form test when the description mentions lead, crm or customer or a screenshot mentions "add lead", else the emergency test; the review step follows and the screenshots are kept. |
| ScreenshotWizard.Save | src/components/testGenerator/MultiScreenshotTestGenerator.tsx:485-510 | Nothing to save is an error; otherwise the rendered script is saved under the shared file-name rule with `.ts` for Playwright and pytest and `.js` otherwise. |
| ScreenshotWizard.Apply | src/components/testGenerator/MultiScreenshotTestGenerator.tsx:572-748 | Capture and upload do nothing off the capture step or once the list holds the count; the description, removal and per-screenshot generation do nothing off the capture step, and "Generate Test Cases" nothing off the review step; the list only grows by one capture or upload appended at the end. |
| ScreenshotWizard.ApplyValid | src/components/testGenerator/MultiScreenshotTestGenerator.tsx:513-527 | Every user action keeps the step in {0, 1, 2} and the count positive. |
| ScreenshotWizard.RunValid | src/components/testGenerator/MultiScreenshotTestGenerator.tsx:513-555 | Whatever sequence of actions the user takes, the step stays in {0, 1, 2} and the count positive. |
| ScreenshotWizard.ApplyFits | src/components/testGenerator/MultiScreenshotTestGenerator.tsx:596 | Every action except typing a count keeps the list within the count. |
| ScreenshotWizard.RunFits | src/components/testGenerator/MultiScreenshotTestGenerator.tsx:727 | While the count is not retyped, no sequence of actions grows the list past it. |
| GeneratorUi.TypeName | src/components/testGenerator/MultiScreenshotTestGenerator.tsx:279 | The name a panel passes for a framework is recognised as that same framework. |
| GeneratorUi.FileStem | src/components/testGenerator/TestGenerator.tsx:207 | The stem keeps the name's length and uses only `[a-z0-9_]`; a character is kept, lower-cased, exactly when it is a letter or digit. |
| GeneratorUi.FileName | src/components/testGenerator/TestGenerator.tsx:207 | The file name is the stem, `_test` and the extension, each at its place. |
| GeneratorUi.FileNameCollision | src/components/testGenerator/DirectTestGenerator.tsx:108 | Two test names give the same file exactly when their stems agree, so names that differ only in case or punctuation collide. |
| GeneratorUi.ScriptExtension | src/components/testGenerator/TestGenerator.tsx:201-204 | `.ts` exactly for Playwright and pytest. |
| GeneratorUi.DirectExtension | src/components/testGenerator/DirectTestGenerator.tsx:100-105 | `.py` exactly for pytest, `.cy.js` exactly for Cypress, `.js` exactly for Playwright. |
| GeneratorUi.ExtensionsDiffer | src/components/testGenerator/DirectTestGenerator.tsx:100-105 | For every framework the two panels save under different extensions. |
| GeneratorUi.FallbackCase | src/components/testGenerator/TestGenerator.tsx:133-141 | The fallback case carries the test name and three steps: two actions, then an assertion. |
| GeneratorUi.Limited | src/components/testGenerator/TestGenerator.tsx:116-120 | Only the first 30 actions are kept, in order; duration and resolution are unchanged. |
| GeneratorUi.GenerateTest | src/components/testGenerator/TestGenerator.tsx:51-188 | No video or no test name is refused; otherwise a case and a script are always produced, and each stage's fallback is used exactly when that stage threw. |
| GeneratorUi.Pipeline | src/components/testGenerator/TestGenerator.tsx:51-188 | Each stage's output is its fallback exactly when it threw, the case keeps the test name, and the stages that fell back are recorded. |
| GeneratorUi.AnalyzedRun | src/components/testGenerator/TestGenerator.tsx:51-188 | With a video, a name and an analysis, the panel succeeds with the pipeline run on that analysis. |
| GeneratorUi.ActionCap | src/components/testGenerator/TestGenerator.tsx:116-122 | With no stage failing, a case has at most 40 steps and its k-th action step comes from the k-th analysed action. |
| GeneratorUi.TextToSave | src/components/testGenerator/TestGenerator.tsx:210-217 | A script within 1024 * 1024 characters is saved as is; a longer one keeps exactly its first 1024 * 1024 characters followed by the note. |
| GeneratorUi.SaveVideoScript | src/components/testGenerator/TestGenerator.tsx:190-220 | No script is an error; otherwise the text to save goes under the shared file name with the video panel's extension. |
| GeneratorUi.GenerateDirect | src/components/testGenerator/DirectTestGenerator.tsx:40-89 | The lead-form generator gets the chosen framework and name; when it throws, the hard-coded script is titled with the name, or `Add_Lead_Test` when the name is empty. |
| GeneratorUi.SaveDirectScript | src/components/testGenerator/DirectTestGenerator.tsx:92-112 | No script is an error; otherwise it is saved under the shared file name with the direct panel's extension. |
| ScreenRecorder.FormatTime | src/components/recorder/ScreenRecorder.tsx:248-252 | The display is at least five digits and a colon, with the colon third from the end. |
| ScreenRecorder.TwoDigits | src/components/recorder/ScreenRecorder.tsx:251 | A number below 100 pads to exactly two digits. |
| ScreenRecorder.TimeRoundTrip | src/components/recorder/ScreenRecorder.tsx:248-252 | Minutes and seconds read back from the display give the elapsed seconds exactly. |
| ScreenRecorder.Start | src/components/recorder/ScreenRecorder.tsx:69-123 | The chunks are always cleared; with the screen shared the panel is recording from zero seconds with no error, otherwise only the start error is set. |
| ScreenRecorder.Tick | src/components/recorder/ScreenRecorder.tsx:114-116 | The timer adds a second only while recording. |
| ScreenRecorder.DataAvailable | src/components/recorder/ScreenRecorder.tsx:87-91 | Only non-empty data adds a chunk. |
| ScreenRecorder.Stop | src/components/recorder/ScreenRecorder.tsx:125-129 | Stopping has an effect only when a recorder exists and is recording, and then only ends the recording. |
| ScreenRecorder.StopIdempotent | src/components/recorder/ScreenRecorder.tsx:94-129 | Stopping twice is stopping once, and a stopped recorder no longer counts time. |
| ScreenRecorder.Stamp | src/components/recorder/ScreenRecorder.tsx:147 | The file stamp keeps the timestamp's length and holds no `:` or `.`. |
| ScreenRecorder.DefaultName | src/components/recorder/ScreenRecorder.tsx:159 | The default name is `Test_` and at most ten characters of the timestamp. |
| ScreenRecorder.SaveRecording | src/components/recorder/ScreenRecorder.tsx:131-165 | No chunks is an error and nothing else changes; otherwise the video is kept under the stamped file name, and a test name is filled in only when there was none. |
| ScreenRecorder.SaveKeepsName | src/components/recorder/ScreenRecorder.tsx:157-160 | Saving never replaces a typed name, and after a save the name is never empty. |
| ScreenRecorder.ChangeTab | src/components/recorder/ScreenRecorder.tsx:266-269 | Tab 0 is video mode and any other tab screenshots mode; nothing else changes. |
| ScreenRecorder.GenerateTest | src/components/recorder/ScreenRecorder.tsx:254-264 | In video mode the generator opens only for a saved video, otherwise an error; in screenshots mode the wizard always opens. |
| TestRuns.StatusColor | frontend/src/pages/TestRuns.tsx:89-102 | Each known status has its colour exactly, and `default` exactly for any other text. |
| TestRuns.StatusColorsDistinct | frontend/src/pages/TestRuns.tsx:89-102 | Every run status gets its own colour, and none gets `default`. |
| TestRuns.ViewResultsExactly | frontend/src/pages/TestRuns.tsx:168 | View Results is disabled exactly while the run is running, which is exactly when its chip is `info`. |
| TestRuns.FormatDuration | frontend/src/pages/TestRuns.tsx:104-110 | No duration shows `In progress`; under a minute whole seconds; otherwise minutes and the remaining seconds. |
| TestRuns.DurationRoundTrip | frontend/src/pages/TestRuns.tsx:104-110 | A non-negative duration is read back exactly from its text. |

## Left out

- Browser, DOM and media side effects: `html2canvas`, `MediaRecorder` and `getDisplayMedia`, `FileReader`, video metadata loading, the clipboard, `saveAs`, Blob and object URLs. Only the guards around them are modelled, and a download is a `Download(fileName, text)` value.
- `src/services/videoAnalysisService.ts`: it simulates actions and picks random selectors, so there is nothing deterministic to model. The video panel takes the analysis as an `Option` argument instead.
- The mock response in `src/components/apiTesting/ApiWorkspace.tsx:539-555` is random.
- The assertion choice in `src/services/testGeneratorService.ts:123` is random. It is a `pick` function argument.
- `uuidv4()`, `Date.now()` and `toISOString()` are arguments: a fresh id, a clock reading or a timestamp string.
- Network and servers are side effects behind HTTP and are not modelled:
  - `src/services/apiProxyService.ts`, `gmailService.ts`, `supabaseClient.ts`, `supabaseApiService.ts` and `frontend/src/services/api.ts`;
  - the FastAPI routes in `api_proxy_server.py`, `main.py`, `backend/main.py` and `backend/app/api/endpoints.py`.
- `backend/app/models/models.py` and `backend/app/api/schemas.py` only declare ORM and pydantic shapes. `src/types/apiTypes.ts` is used only as the source of the datatypes.
- JSON, URLs and `shlex.split` are parameters:
  - `JSON.parse` and `JSON.stringify` form a `JsonCodec`, and only the lemmas that need the codec's laws assume `Lawful`;
  - `new URL` and its serialisation form a `UrlEngine`, with no URL normalisation and no percent-decoding;
  - Python's `shlex.split` is a function that may fail.
- JSON numbers are integers. A fraction or exponent in a document is outside the model.
- Case mapping is ASCII only, and strings are sequences of code units. Unicode case folding and surrogate pairs are not modelled.
- Workspace.ApplyVariable: substitutes `{{key}}` literally. The source builds a regular expression from the key and uses the value as a replacement pattern. The two agree only when the key holds no regular-expression metacharacter (`\ ^ $ . | ? * + ( ) [ ] { }`) and is not a quantifier body in digits (`n`, `n,` or `n,m`, which turns `{{key}}` into a literal `{` repeated by `{key}`, followed by `}}`), and the value holds no `$`. That is all the model covers.
- `formatResponseTime` and `formatResponseSize` in `PostmanStyleRequestEditor.tsx:357-367` use floating-point `toFixed`.
- TestMetrics.PassRate: a real number, not a double. Rounding is not modelled.
- TestMetrics.Average: a real number, not a double. Rounding is not modelled.
- Template text is opaque. That covers `leadFormTestGenerator.ts`, `emergencyTestGenerator.ts` and the script bodies in `directTestGenerationService.ts`. They are tags chosen by dispatch, and a script rendered from code is the image of an opaque `render` function.
- In `backend/app/recorder/recorder.py`, Playwright driving is left out: the browser launch, the event hooks, the screenshots and the wall-clock timestamps. The recorded events are an input.
- BackendScripts.BestSelector: returns `None` where the recorder would fall back to an XPath query in the live page, which the model cannot see. The literal at `recorder.py:129-134` is not valid Python, so only the id-then-class precedence is modelled.
- Timers and async ordering are left out: `setTimeout`, the recording interval and the recorder's `onstop` callback. `ScreenRecorder.Tick` is one interval tick and `ScreenRecorder.Stop` is the stop and `onstop` together. Overlapping captures in the screenshot wizard are left out too: the capture card stays clickable while `html2canvas` is pending, and each handler appends to the list it saw when it started (`MultiScreenshotTestGenerator.tsx:105-140`), so one of two overlapping captures can be lost. `ScreenshotWizard.Apply` runs one capture at a time.
- Each generator stage's exception is an input. That is an `Option` analysis or a boolean "throws" flag, because whether foreign code throws is not visible.
- GeneratorUi.FallbackCase: the title check of the fixed fallback case is `Check(TitleCheck, "")`. The source's literal expected-title text is not kept.
- ImprovedCurl.ParseCurlCommand: the source catches any exception and returns `null`. None of the modelled steps throws, so the model has no `null` outcome.
- In `generator.py`, `action.get("value", "")` is read as the stored value or `""`. A key that is present with the value `None` is not distinguished from a missing one.
- Storage is a map or a list held in the model state. In LocalStore a failing `setItem` (quota or permission) is a store that is not `writable`, and the write gives `StorageFull`. The files of `fileSystemService.ts` never fail to write.
- Swagger.SampleText: gives "" for the `undefined` sample. `JSON.stringify(undefined)` is `undefined`, so the source leaves such a request's body `undefined` (`swaggerParser.ts:147`), but the model's body is a string.
- FileSystem.GetRecord: `parse` is a total function argument. The `JSON.parse` throw at `fileSystemService.ts:192` reaches the caller in the source and is not modelled.
- Json.StringSign: a decimal numeral so small that a double rounds it to zero (`1e-400`) is read as positive, since the model reads the digits and not the double.
- Json.NumberSign: an object is NaN. An object with its own `toString` member makes JavaScript's conversion throw a TypeError, since the member is not callable; the model does not distinguish it. The same holds for such objects inside an array.
- ImprovedCurl.ArrayLength: reads only the empty string and plain decimal digits. The other integral forms JavaScript's number conversion accepts for `length` (`0x10`, `1e1`, `2.0`, a leading `+`) are read as a RangeError.
- ImprovedCurl.SetFormField: a new member goes last. JavaScript orders integer-like keys first, in ascending order, so `JSON.stringify` prints such a key before the others.
- CurlExport.ExportThenImport: requires a stored URL without a query of its own, since the importer would move that query into the parameters. The parameters come back only under a lawful URL engine (`UrlLawful`), with the URL in the engine's serialised form.
- CurlExport.ExportThenParse: has the same two restrictions as ExportThenImport.
- RegexRoundTrip.ConvertThenParse: holds for readable requests only (`Readable`). The method is one upper-case word, header keys hold no colon, keys and values hold no quotes and are trimmed, and the body is one line in which no `-H` or `--` starts. The stored URL must parse without a query of its own.
- ScreenshotWizard.Apply: the count dialog's open state is not modelled. Typing and setting a count are accepted at any step.
- `Object.entries` order is the order of the members in the model's JSON object. Shallow-copy aliasing between returned and stored objects is not modelled.
- FileSystem.InitializeSampleData: the sample records are arguments, not the literal cases, suites, collections and environments of `fileSystemService.ts`.
- FileSystem.GetConfig: the default settings object is an argument, and only a failing parse gives null. A read error caught by the same `catch` is not modelled.
- Dates come back from storage as strings. The model stores whatever the codec yields, so no separate date revival is modelled.
- Pure UI, mock pages and tooling hold no rule beyond layout and are not modelled:
  - `src/components/dashboard/Dashboard.tsx`, `TestStatusDashboard.tsx`, `src/App.tsx`, `SimpleApp.tsx`, `main.tsx`, `ImportDialog.tsx` and `PathSelector.tsx`;
  - `frontend/src/App.tsx`, `Dashboard.tsx`, `Recorder.tsx`, `TestCases.tsx`, `Settings.tsx`, `Sidebar.tsx` and `Navbar.tsx`;
  - `setup.js` and `vite.config.ts`.
