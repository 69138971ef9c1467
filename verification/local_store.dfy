/** The browser key-value store (`localStorageService.ts`): a first-run
    flag, a configuration with a default, JSON lists under fixed keys, an
    append-only notification log and the one-time sample data. Storage is
    a string map whose writes may fail (a full or disabled store); JSON
    text goes through a `JsonCodec`. */
module LocalStore {
  import opened Wrappers
  import opened Json

  const ConfigKey := "betaboss_config"
  const TestCasesKey := "betaboss_test_cases"
  const TestSuitesKey := "betaboss_test_suites"
  const TestResultsKey := "betaboss_test_results"
  const NotificationsKey := "betaboss_email_notifications"
  const FirstRunKey := "betaboss_first_run"

  /** The stored strings, and whether `setItem` currently succeeds. */
  datatype Store = Store(items: map<string, string>, writable: bool)

  datatype Error = StorageFull | ParseError

  /** `getItem(key)` where the value is truthy (present and non-empty). */
  function Stored(s: Store, key: string): Option<string> {
    if key in s.items && s.items[key] != "" then Some(s.items[key]) else None
  }

  /** `setItem`: fails, changing nothing, when the store is not writable. */
  function SetItem(s: Store, key: string, value: string): (r: Result<Store, Error>)
    ensures r.Success? <==> s.writable
    ensures r.Success? ==> r.value.items == s.items[key := value] && r.value.writable
  {
    if s.writable then Success(s.(items := s.items[key := value])) else Failure(StorageFull)
  }

  /** `isFirstRun`. */
  predicate IsFirstRun(s: Store) {
    FirstRunKey !in s.items
  }

  /** `markAsRun`; a failing write propagates. */
  function MarkAsRun(s: Store): (r: Result<Store, Error>)
    ensures r.Success? ==> !IsFirstRun(r.value)
    ensures r.Failure? <==> !s.writable
  {
    SetItem(s, FirstRunKey, "false")
  }

  /** Writing any other key leaves the first-run answer alone, so the
      store counts as first run exactly until `markAsRun` succeeds. */
  lemma FirstRunUntilMarked(s: Store, key: string, value: string)
    requires key != FirstRunKey && SetItem(s, key, value).Success?
    ensures IsFirstRun(SetItem(s, key, value).value) == IsFirstRun(s)
  {
  }

  const DefaultConfig := JObj([
    Member("googleApiKey", JStr("DEMO_API_KEY")),
    Member("apiEndpoint", JStr("http://localhost:8000")),
    Member("version", JStr("1.0.0")),
    Member("environment", JStr("development"))])

  /** `getConfig`: the stored configuration, else the default, which is
      then stored; a parse or write failure propagates. */
  function GetConfig(s: Store, c: JsonCodec): (r: Result<(Json, Store), Error>)
    ensures Stored(s, ConfigKey).Some? ==> (r.Success? <==> c.parse(Stored(s, ConfigKey).value).Some?)
    ensures Stored(s, ConfigKey).Some? && r.Success? ==> r.value == (c.parse(Stored(s, ConfigKey).value).value, s)
    ensures Stored(s, ConfigKey).None? ==> (r.Success? <==> s.writable)
    ensures Stored(s, ConfigKey).None? && r.Success? ==>
      r.value.0 == DefaultConfig && r.value.1.items == s.items[ConfigKey := c.stringify(DefaultConfig)]
  {
    match Stored(s, ConfigKey)
    case Some(text) =>
      (match c.parse(text)
       case Some(j) => Success((j, s))
       case None => Failure(ParseError))
    case None =>
      match SetItem(s, ConfigKey, c.stringify(DefaultConfig))
      case Success(s2) => Success((DefaultConfig, s2))
      case Failure(e) => Failure(e)
  }

  lemma DefaultConfigWellFormed()
    ensures WellFormed(DefaultConfig)
  {
  }

  /** On a store without configuration, the first call stores the default
      and a second call reads back the same default without writing. */
  lemma ConfigStable(s: Store, c: JsonCodec)
    requires Lawful(c) && s.writable && Stored(s, ConfigKey).None?
    ensures var r := GetConfig(s, c);
      r.Success? && r.value.0 == DefaultConfig && GetConfig(r.value.1, c) == Success((DefaultConfig, r.value.1))
  {
    DefaultConfigWellFormed();
  }

  /** `getTestCases`, `getTestSuites`, ...: the parsed value, or `[]` for
      a missing value or a parse error. */
  function GetList(s: Store, key: string, c: JsonCodec): (r: Json)
    ensures Stored(s, key).None? ==> r == JArr([])
    ensures Stored(s, key).Some? && c.parse(Stored(s, key).value).None? ==> r == JArr([])
  {
    match Stored(s, key)
    case None => JArr([])
    case Some(text) =>
      match c.parse(text)
      case Some(j) => j
      case None => JArr([])
  }

  /** `saveTestCases`, `saveTestSuites`, ...: true when the write
      succeeded. */
  function SaveList(s: Store, key: string, v: Json, c: JsonCodec): (r: (Store, bool))
    ensures r.1 <==> s.writable
    ensures !r.1 ==> r.0 == s
    ensures r.1 ==> r.0.items == s.items[key := c.stringify(v)]
  {
    match SetItem(s, key, c.stringify(v))
    case Success(s2) => (s2, true)
    case Failure(_) => (s, false)
  }

  /** What was saved is read back. */
  lemma SaveThenGet(s: Store, key: string, v: Json, c: JsonCodec)
    requires Lawful(c) && WellFormed(v) && s.writable
    ensures GetList(SaveList(s, key, v, c).0, key, c) == v
  {
  }

  /** Saving under one key leaves every other key as it was. */
  lemma SaveKeepsOthers(s: Store, key: string, other: string, v: Json, c: JsonCodec)
    requires other != key
    ensures Stored(SaveList(s, key, v, c).0, other) == Stored(s, other)
  {
  }

  /** The logged entry: the notification's own fields, then a fresh `id`
      and `created_at` (overwriting any of the same name in place). */
  function LogEntry(notification: Json, id: string, createdAt: string): Json {
    JObj(SetMember(SetMember(SpreadMembers(notification), "id", JStr(id)), "created_at", JStr(createdAt)))
  }

  /** `saveEmailNotification`: appends one entry to the stored list. A
      stored value that does not parse, or is not a list, makes it fail,
      as does a failing write. */
  function SaveEmailNotification(s: Store, notification: Json, id: string, createdAt: string, c: JsonCodec):
    (r: (Store, bool))
    ensures !r.1 ==> r.0 == s
    ensures r.1 ==> Logged(s, c).Some? && s.writable
    ensures r.1 ==>
      r.0.items == s.items[NotificationsKey := c.stringify(JArr(Logged(s, c).value + [LogEntry(notification, id, createdAt)]))]
  {
    match Logged(s, c)
    case None => (s, false)
    case Some(prev) =>
      var entries := prev + [LogEntry(notification, id, createdAt)];
      SaveList(s, NotificationsKey, JArr(entries), c)
  }

  /** The entries logged so far: none for a missing value, `None` when the
      stored text does not parse to a list. */
  function Logged(s: Store, c: JsonCodec): (r: Option<seq<Json>>)
    ensures Stored(s, NotificationsKey).None? ==> r == Some([])
  {
    match Stored(s, NotificationsKey)
    case None => Some([])
    case Some(text) =>
      match c.parse(text)
      case Some(JArr(xs)) => Some(xs)
      case _ => None
  }

  /** Saving a notification keeps every earlier entry, in order, and adds
      exactly one at the end. */
  lemma NotificationAppended(s: Store, notification: Json, id: string, createdAt: string, c: JsonCodec)
    requires Lawful(c) && s.writable && Logged(s, c).Some?
    requires WellFormed(JArr(Logged(s, c).value + [LogEntry(notification, id, createdAt)]))
    ensures var r := SaveEmailNotification(s, notification, id, createdAt, c);
      r.1 && Logged(r.0, c) == Some(Logged(s, c).value + [LogEntry(notification, id, createdAt)])
  {
  }

  /** `existingTestCases.length === 0`: a strict comparison, so only the
      number 0 passes, whether it is the length of an array or a string or
      an object's own `length` member. On `null` the access throws, which
      the surrounding `catch` swallows, so nothing is written either. */
  predicate NoTestCases(v: Json) {
    LengthOf(v) == Some(JNum(0))
  }

  /** `initializeSampleData`: only when the stored test-case list has
      length 0, writes the sample cases and then the sample suites. */
  function InitializeSampleData(s: Store, c: JsonCodec, cases: Json, suites: Json): (r: Store)
    ensures !NoTestCases(GetList(s, TestCasesKey, c)) ==> r == s
    ensures NoTestCases(GetList(s, TestCasesKey, c)) && s.writable ==>
      r.items == s.items[TestCasesKey := c.stringify(cases)][TestSuitesKey := c.stringify(suites)]
  {
    if NoTestCases(GetList(s, TestCasesKey, c)) then
      SaveList(SaveList(s, TestCasesKey, cases, c).0, TestSuitesKey, suites, c).0
    else s
  }

  /** A stored object whose `length` member is 0 counts as no test cases,
      so the samples are written over it. */
  lemma ZeroLengthObject(s: Store, c: JsonCodec, cases: Json, suites: Json, text: string, rest: seq<Member>)
    requires s.writable && Stored(s, TestCasesKey) == Some(text)
    requires c.parse(text) == Some(JObj([Member("length", JNum(0))] + rest))
    ensures InitializeSampleData(s, c, cases, suites).items ==
      s.items[TestCasesKey := c.stringify(cases)][TestSuitesKey := c.stringify(suites)]
  {
  }

  /** A stored `length` of `"0"` is not the number 0, so nothing is
      written. */
  lemma TextZeroLength(s: Store, c: JsonCodec, cases: Json, suites: Json, text: string, rest: seq<Member>)
    requires Stored(s, TestCasesKey) == Some(text)
    requires c.parse(text) == Some(JObj([Member("length", JStr("0"))] + rest))
    ensures InitializeSampleData(s, c, cases, suites) == s
  {
  }

  /** With a non-empty sample and a working store, a second call changes
      nothing. */
  lemma InitializeSampleDataIdempotent(s: Store, c: JsonCodec, cases: Json, suites: Json)
    requires Lawful(c) && WellFormed(cases) && cases.JArr? && |cases.items| > 0 && s.writable
    ensures var once := InitializeSampleData(s, c, cases, suites);
      InitializeSampleData(once, c, cases, suites) == once
  {
    var once := InitializeSampleData(s, c, cases, suites);
    if once != s {
      var s1 := SaveList(s, TestCasesKey, cases, c).0;
      SaveKeepsOthers(s1, TestSuitesKey, TestCasesKey, suites, c);
      assert GetList(once, TestCasesKey, c) == GetList(s1, TestCasesKey, c);
      SaveThenGet(s, TestCasesKey, cases, c);
    }
  }
}
