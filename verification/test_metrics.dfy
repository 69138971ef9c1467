/** Test metrics (`testMetricsService.ts`): status counts, pass rate,
    failure counts and the average execution time over a list of test
    cases, the backend-or-sample fallback, and the filter helpers. */
module TestMetrics {
  import opened Wrappers

  datatype Status = Passed | Failed | Skipped | Blocked | InProgress
  datatype Severity = Critical | High | Medium | Low
  datatype Priority = P0 | P1 | P2 | P3

  /** A test case; steps and the last-run date are not used by the
      metrics and are left out. */
  datatype TestCase = TestCase(
    id: string,
    name: string,
    area: string,
    status: Status,
    severity: Severity,
    priority: Priority,
    executionTime: Option<int>,
    errorMessage: Option<string>,
    assignedTo: Option<string>)

  datatype TestSuite = TestSuite(id: string, name: string, testCases: seq<TestCase>, executionTime: Option<int>)

  datatype TestMetrics = TestMetrics(
    totalTests: nat,
    passed: nat,
    failed: nat,
    skipped: nat,
    blocked: nat,
    inProgress: nat,
    passRate: real,
    criticalFailures: nat,
    highPriorityFailures: nat,
    avgExecutionTime: real,
    testSuites: seq<TestSuite>)

  /** `Array.prototype.filter`: the cases satisfying `p`, in order. */
  function Filter(xs: seq<TestCase>, p: TestCase -> bool): (r: seq<TestCase>)
    ensures |r| <= |xs|
    ensures forall x :: x in r <==> x in xs && p(x)
    decreases |xs|
  {
    if |xs| == 0 then []
    else Filter(xs[..|xs| - 1], p) + (if p(xs[|xs| - 1]) then [xs[|xs| - 1]] else [])
  }

  /** Filtering distributes over concatenation, so the kept cases stay in
      their original order. */
  lemma {:induction false} FilterAppend(a: seq<TestCase>, b: seq<TestCase>, p: TestCase -> bool)
    ensures Filter(a + b, p) == Filter(a, p) + Filter(b, p)
    decreases |b|
  {
    if |b| == 0 {
      assert a + b == a;
    } else {
      var n := |b| - 1;
      assert (a + b)[..|a + b| - 1] == a + b[..n];
      FilterAppend(a, b[..n], p);
    }
  }

  /** A stronger predicate keeps no more cases. */
  lemma {:induction false} FilterMonotone(xs: seq<TestCase>, p: TestCase -> bool, q: TestCase -> bool)
    requires forall x :: p(x) ==> q(x)
    ensures |Filter(xs, p)| <= |Filter(xs, q)|
    decreases |xs|
  {
    if |xs| > 0 {
      FilterMonotone(xs[..|xs| - 1], p, q);
    }
  }

  function HasStatus(s: Status): TestCase -> bool {
    (tc: TestCase) => tc.status == s
  }

  predicate IsCriticalFailure(tc: TestCase) {
    tc.status == Failed && tc.severity == Critical
  }

  /** The metrics' and `getHighPriorityFailures`' predicate. */
  predicate IsHighPriorityFailure(tc: TestCase) {
    tc.status == Failed && (tc.priority == P0 || tc.priority == P1)
  }

  /** The recorded execution times, in order. */
  function Times(xs: seq<TestCase>): (r: seq<int>)
    ensures |r| <= |xs|
    decreases |xs|
  {
    if |xs| == 0 then []
    else
      var last := xs[|xs| - 1];
      Times(xs[..|xs| - 1]) + (if last.executionTime.Some? then [last.executionTime.value] else [])
  }

  function Sum(ts: seq<int>): int
    decreases |ts|
  {
    if |ts| == 0 then 0 else Sum(ts[..|ts| - 1]) + ts[|ts| - 1]
  }

  /** `passed / total * 100`, or 0 with no tests. */
  function PassRate(passed: nat, total: nat): (r: real)
    requires passed <= total
    ensures 0.0 <= r <= 100.0
    ensures total > 0 ==> (r == 100.0 <==> passed == total)
    ensures r == 0.0 <==> passed == 0
  {
    if total > 0 then passed as real / total as real * 100.0 else 0.0
  }

  /** The mean of the recorded times, 0 when none is recorded. */
  function Average(ts: seq<int>): (r: real)
    ensures |ts| > 0 ==> r * |ts| as real == Sum(ts) as real
    ensures |ts| == 0 ==> r == 0.0
  {
    if |ts| > 0 then Sum(ts) as real / |ts| as real else 0.0
  }

  /** `calculateTestMetrics` over already-fetched cases and suites. */
  function CalculateTestMetrics(cases: seq<TestCase>, suites: seq<TestSuite>): (r: TestMetrics)
    ensures r.totalTests == |cases| && r.testSuites == suites
    ensures r.passed == |Filter(cases, HasStatus(Passed))| && r.failed == |Filter(cases, HasStatus(Failed))|
    ensures r.skipped == |Filter(cases, HasStatus(Skipped))| && r.blocked == |Filter(cases, HasStatus(Blocked))|
    ensures r.inProgress == |Filter(cases, HasStatus(InProgress))|
    ensures r.criticalFailures == |Filter(cases, IsCriticalFailure)|
    ensures r.highPriorityFailures == |Filter(cases, IsHighPriorityFailure)|
    ensures r.avgExecutionTime == Average(Times(cases))
    ensures r.passRate == PassRate(r.passed, r.totalTests)
  {
    var passed := |Filter(cases, HasStatus(Passed))|;
    TestMetrics(
      |cases|,
      passed,
      |Filter(cases, HasStatus(Failed))|,
      |Filter(cases, HasStatus(Skipped))|,
      |Filter(cases, HasStatus(Blocked))|,
      |Filter(cases, HasStatus(InProgress))|,
      PassRate(passed, |cases|),
      |Filter(cases, IsCriticalFailure)|,
      |Filter(cases, IsHighPriorityFailure)|,
      Average(Times(cases)),
      suites)
  }

  /** Every case has exactly one of the five statuses, so the five counts
      add up to the total. */
  lemma {:induction false} StatusCountsSum(cases: seq<TestCase>)
    ensures var m := CalculateTestMetrics(cases, []);
      m.passed + m.failed + m.skipped + m.blocked + m.inProgress == m.totalTests
    decreases |cases|
  {
    if |cases| > 0 {
      StatusCountsSum(cases[..|cases| - 1]);
    }
  }

  /** Critical and high-priority failures are failures. */
  lemma FailureCountsBounded(cases: seq<TestCase>)
    ensures var m := CalculateTestMetrics(cases, []);
      m.criticalFailures <= m.failed && m.highPriorityFailures <= m.failed
  {
    FilterMonotone(cases, IsCriticalFailure, HasStatus(Failed));
    FilterMonotone(cases, IsHighPriorityFailure, HasStatus(Failed));
  }

  /** The average lies between the smallest and largest recorded time. */
  lemma AverageBounded(ts: seq<int>, lo: int, hi: int)
    requires |ts| > 0 && forall i :: 0 <= i < |ts| ==> lo <= ts[i] <= hi
    ensures lo as real <= Average(ts) <= hi as real
  {
    SumBounded(ts, lo, hi);
  }

  lemma {:induction false} SumBounded(ts: seq<int>, lo: int, hi: int)
    requires forall i :: 0 <= i < |ts| ==> lo <= ts[i] <= hi
    ensures lo * |ts| <= Sum(ts) <= hi * |ts|
    decreases |ts|
  {
    if |ts| > 0 {
      SumBounded(ts[..|ts| - 1], lo, hi);
    }
  }

  /** What the backend call gave: a list, or an error. */
  datatype Fetched<T> = Fetched(items: seq<T>) | FetchError

  /** `getAllTestCases` / `getAllTestSuites`: the backend list when it is
      non-empty, else the built-in sample. */
  function GetAll<T>(fetched: Fetched<T>, sample: seq<T>): (r: seq<T>)
    ensures fetched.Fetched? && |fetched.items| > 0 ==> r == fetched.items
    ensures fetched.FetchError? || |fetched.items| == 0 ==> r == sample
  {
    if fetched.Fetched? && |fetched.items| > 0 then fetched.items else sample
  }

  function GetFailedTestCases(cases: seq<TestCase>): (r: seq<TestCase>)
    ensures forall x :: x in r <==> x in cases && x.status == Failed
  {
    Filter(cases, HasStatus(Failed))
  }

  function GetHighPriorityFailures(cases: seq<TestCase>): (r: seq<TestCase>)
    ensures forall x :: x in r <==> x in cases && x.status == Failed && (x.priority == P0 || x.priority == P1)
  {
    Filter(cases, IsHighPriorityFailure)
  }

  function GetTestCasesByModule(cases: seq<TestCase>, area: string): (r: seq<TestCase>)
    ensures forall x :: x in r <==> x in cases && x.area == area
  {
    Filter(cases, (tc: TestCase) => tc.area == area)
  }

  function GetTestCasesByStatus(cases: seq<TestCase>, s: Status): (r: seq<TestCase>)
    ensures forall x :: x in r <==> x in cases && x.status == s
  {
    Filter(cases, HasStatus(s))
  }

  function GetTestCasesBySeverity(cases: seq<TestCase>, s: Severity): (r: seq<TestCase>)
    ensures forall x :: x in r <==> x in cases && x.severity == s
  {
    Filter(cases, (tc: TestCase) => tc.severity == s)
  }

  function GetTestCasesByPriority(cases: seq<TestCase>, p: Priority): (r: seq<TestCase>)
    ensures forall x :: x in r <==> x in cases && x.priority == p
  {
    Filter(cases, (tc: TestCase) => tc.priority == p)
  }

  /** The high-priority list is as long as the metric counts, and holds
      exactly the failed P0/P1 cases. */
  lemma HighPriorityListMatchesMetric(cases: seq<TestCase>, suites: seq<TestSuite>)
    ensures |GetHighPriorityFailures(cases)| == CalculateTestMetrics(cases, suites).highPriorityFailures
    ensures forall x :: x in GetHighPriorityFailures(cases) <==> x in GetFailedTestCases(cases) && x.priority in {P0, P1}
  {
  }
}
