/** The test-case generator (`testGeneratorService.ts`): one action step
    per detected action, an assertion step after every third, per-action
    code chosen by which fields are present, and a script that lists the
    steps in order. Generated code is an uninterpreted token (`Code`); the
    random assertion and selector choices are a `pick` parameter. */
module TestCaseGen {
  import opened Wrappers
  import opened Strs
  import opened Actions
  import Seqs

  datatype TestType = Playwright | Pytest | Cypress

  datatype StepKind = ActionStep | AssertionStep

  datatype AssertionKind = TitleCheck | VisibleCheck | TextCheck | UrlCheck

  /** The code a step runs: which template is used and what it is filled
      with. */
  datatype Code =
    | ClickSelector(element: string)
    | ClickAt(x: int, y: int)
    | ClickMissing
    | Fill(element: string, value: string)
    | InputMissing
    | Goto(url: string)
    | ScrollTo(x: int, y: int)
    | ScrollMissing
    | HoverSelector(element: string)
    | HoverAt(x: int, y: int)
    | HoverMissing
    | Press(keyCode: int)
    | KeypressMissing
    | Check(check: AssertionKind, selector: string)

  /** Ids are `k` for the action step of the k-th action and `k + 0.5`
      for the assertion after it. */
  datatype TestStep = TestStep(id: real, description: string, code: Code, kind: StepKind)

  datatype TestCase = TestCase(name: string, description: string, steps: seq<TestStep>)

  /** A random choice: which assertion template, and which selector the
      visibility and text checks use. */
  datatype Choice = Choice(check: AssertionKind, selector: string)

  /** JavaScript truthiness of an optional string field. */
  predicate Present(s: Option<string>) {
    s.Some? && s.value != ""
  }

  /** `${v}` of an optional field: `undefined` when it is absent. */
  function Shown(s: Option<string>): string {
    if s.Some? then s.value else "undefined"
  }

  function ShownInt(n: Option<int>): string {
    if n.Some? then IntToString(n.value) else "undefined"
  }

  // ---------------------------------------------------- code helpers

  /** `generateClickCode`: the selector when there is one, else the
      coordinates when both are known, else a "details missing" comment. */
  function ClickCode(a: DetectedAction): (r: Code)
    ensures r.ClickSelector? <==> Present(a.element)
    ensures r.ClickAt? <==> !Present(a.element) && a.x.Some? && a.y.Some?
    ensures r.ClickSelector? ==> r.element == a.element.value
    ensures r.ClickAt? ==> r.x == a.x.value && r.y == a.y.value
  {
    if Present(a.element) then ClickSelector(a.element.value)
    else if a.x.Some? && a.y.Some? then ClickAt(a.x.value, a.y.value)
    else ClickMissing
  }

  /** `generateInputCode`: needs both a non-empty element and a non-empty
      value. */
  function InputCode(a: DetectedAction): (r: Code)
    ensures r.Fill? <==> Present(a.element) && Present(a.value)
    ensures r.Fill? ==> r.element == a.element.value && r.value == a.value.value
    ensures !r.Fill? ==> r == InputMissing
  {
    if Present(a.element) && Present(a.value) then Fill(a.element.value, a.value.value) else InputMissing
  }

  /** `generateNavigationCode`: the value, or `https://example.com`. */
  function NavigationCode(a: DetectedAction): (r: Code)
    ensures r.Goto? && (Present(a.value) ==> r.url == a.value.value)
    ensures !Present(a.value) ==> r.url == "https://example.com"
  {
    Goto(if Present(a.value) then a.value.value else "https://example.com")
  }

  function ScrollCode(a: DetectedAction): (r: Code)
    ensures r.ScrollTo? <==> a.x.Some? && a.y.Some?
    ensures r.ScrollTo? ==> r.x == a.x.value && r.y == a.y.value
    ensures !r.ScrollTo? ==> r == ScrollMissing
  {
    if a.x.Some? && a.y.Some? then ScrollTo(a.x.value, a.y.value) else ScrollMissing
  }

  /** `generateHoverCode`: the same preference as clicks. */
  function HoverCode(a: DetectedAction): (r: Code)
    ensures r.HoverSelector? <==> Present(a.element)
    ensures r.HoverAt? <==> !Present(a.element) && a.x.Some? && a.y.Some?
    ensures r.HoverSelector? ==> r.element == a.element.value
    ensures r.HoverAt? ==> r.x == a.x.value && r.y == a.y.value
  {
    if Present(a.element) then HoverSelector(a.element.value)
    else if a.x.Some? && a.y.Some? then HoverAt(a.x.value, a.y.value)
    else HoverMissing
  }

  /** `generateKeypressCode`: a key code of 0 counts as missing. */
  function KeypressCode(a: DetectedAction): (r: Code)
    ensures r.Press? <==> a.keyCode.Some? && a.keyCode.value != 0
    ensures r.Press? ==> r.keyCode == a.keyCode.value
    ensures !r.Press? ==> r == KeypressMissing
  {
    if a.keyCode.Some? && a.keyCode.value != 0 then Press(a.keyCode.value) else KeypressMissing
  }

  /** The position text `(x, y)` with absent coordinates as `undefined`. */
  function Position(a: DetectedAction): string {
    "(" + ShownInt(a.x) + ", " + ShownInt(a.y) + ")"
  }

  /** `actionToTestStep`: the step for an action numbered `n`. */
  function ActionToTestStep(a: DetectedAction, n: nat): (r: TestStep)
    ensures r.id == n as real && r.kind == ActionStep
    ensures a.kind == Click ==> r.code == ClickCode(a)
    ensures a.kind == Input ==> r.code == InputCode(a)
    ensures a.kind == Navigation ==> r.code == NavigationCode(a)
    ensures a.kind == Scroll ==> r.code == ScrollCode(a)
    ensures a.kind == Hover ==> r.code == HoverCode(a)
    ensures a.kind == Keypress ==> r.code == KeypressCode(a)
  {
    match a.kind
    case Click =>
      TestStep(n as real, "Click on element " + (if Present(a.element) then a.element.value else "at position " + Position(a)),
               ClickCode(a), ActionStep)
    case Input =>
      TestStep(n as real, "Enter text \"" + Shown(a.value) + "\" into " + Shown(a.element), InputCode(a), ActionStep)
    case Navigation =>
      TestStep(n as real, "Navigate to a new page", NavigationCode(a), ActionStep)
    case Scroll =>
      TestStep(n as real, "Scroll to position " + Position(a), ScrollCode(a), ActionStep)
    case Hover =>
      TestStep(n as real, "Hover over element " + (if Present(a.element) then a.element.value else "at position " + Position(a)),
               HoverCode(a), ActionStep)
    case Keypress =>
      TestStep(n as real, "Press key with code " + ShownInt(a.keyCode), KeypressCode(a), ActionStep)
  }

  function CheckDescription(k: AssertionKind): string {
    match k
    case TitleCheck => "Verify page title"
    case VisibleCheck => "Verify element is visible"
    case TextCheck => "Verify text content"
    case UrlCheck => "Verify URL"
  }

  /** `generateAssertion` after the step numbered `n`. */
  function AssertionStepAfter(n: nat, c: Choice): (r: TestStep)
    ensures r.id == n as real + 0.5 && r.kind == AssertionStep && r.code.Check? && r.code.check == c.check
  {
    TestStep(n as real + 0.5, CheckDescription(c.check), Check(c.check, c.selector), AssertionStep)
  }

  // ------------------------------------------------------ the cases

  /** The steps of the n-th action: its step, then an assertion when `n`
      is a multiple of three. */
  function Group(a: DetectedAction, n: nat, pick: nat -> Choice): seq<TestStep> {
    [ActionToTestStep(a, n)] + (if n % 3 == 0 then [AssertionStepAfter(n, pick(n))] else [])
  }

  /** `actions.map(...).flat()`. */
  function Steps(actions: seq<DetectedAction>, pick: nat -> Choice): (r: seq<TestStep>)
    ensures |r| == |actions| + |actions| / 3
  {
    if |actions| == 0 then []
    else Steps(actions[..|actions| - 1], pick) + Group(actions[|actions| - 1], |actions|, pick)
  }

  /** The description embeds the action count. */
  function CaseDescription(n: nat): string {
    "Automatically generated test case from screen recording with " + NatToString(n) + " actions"
  }

  /** `generateTestCases`. */
  function GenerateTestCases(result: AnalysisResult, testName: string, pick: nat -> Choice): (r: TestCase)
    ensures r.name == testName && |r.steps| == |result.actions| + |result.actions| / 3
  {
    TestCase(testName, CaseDescription(|result.actions|), Steps(result.actions, pick))
  }

  /** The k-th action (1-based) sits at index `k - 1 + (k - 1) / 3`, as
      its own action step numbered `k`. */
  lemma {:induction false} ActionStepAt(actions: seq<DetectedAction>, pick: nat -> Choice, k: nat)
    requires 1 <= k <= |actions|
    ensures var i := k - 1 + (k - 1) / 3;
      i < |Steps(actions, pick)| && Steps(actions, pick)[i] == ActionToTestStep(actions[k - 1], k)
    decreases |actions|
  {
    var n := |actions|;
    var init := actions[..n - 1];
    var prev, g := Steps(init, pick), Group(actions[n - 1], n, pick);
    var i := k - 1 + (k - 1) / 3;
    assert Steps(actions, pick) == prev + g;
    if k < n {
      ActionStepAt(init, pick, k);
      assert init[k - 1] == actions[k - 1];
      ThirdsMonotone(k - 1, n - 1);
      Seqs.AtFront(prev, g, i, ActionToTestStep(actions[k - 1], k));
    } else {
      Seqs.AtJoin(prev, g, i, ActionToTestStep(actions[k - 1], k));
    }
  }

  /** Whole thirds grow with their argument. */
  lemma ThirdsMonotone(a: nat, b: nat)
    requires a <= b
    ensures a / 3 <= b / 3
  {
  }

  /** After every third action comes one assertion step numbered
      `k + 0.5`. */
  lemma {:induction false} AssertionStepAt(actions: seq<DetectedAction>, pick: nat -> Choice, k: nat)
    requires 1 <= k <= |actions| && k % 3 == 0
    ensures var i := k + k / 3 - 1;
      i < |Steps(actions, pick)| && Steps(actions, pick)[i] == AssertionStepAfter(k, pick(k))
    decreases |actions|
  {
    var n := |actions|;
    if k < n {
      AssertionStepAt(actions[..n - 1], pick, k);
    }
  }

  /** Only the assertion steps have a fractional id, and they number
      `|actions| / 3`. */
  lemma {:induction false} AssertionCount(actions: seq<DetectedAction>, pick: nat -> Choice)
    ensures CountKind(Steps(actions, pick), AssertionStep) == |actions| / 3
    ensures CountKind(Steps(actions, pick), ActionStep) == |actions|
    decreases |actions|
  {
    var n := |actions|;
    if n > 0 {
      var init := actions[..n - 1];
      AssertionCount(init, pick);
      var g := Group(actions[n - 1], n, pick);
      assert Steps(actions, pick) == Steps(init, pick) + g;
      CountKindAppend(Steps(init, pick), g, AssertionStep);
      CountKindAppend(Steps(init, pick), g, ActionStep);
      GroupCounts(actions[n - 1], n, pick);
      ThirdsStep(n);
    }
  }

  /** One group holds one action step, and an assertion step exactly
      when its number is a multiple of three. */
  lemma GroupCounts(a: DetectedAction, n: nat, pick: nat -> Choice)
    ensures CountKind(Group(a, n, pick), AssertionStep) == if n % 3 == 0 then 1 else 0
    ensures CountKind(Group(a, n, pick), ActionStep) == 1
  {
    var g := Group(a, n, pick);
    if n % 3 == 0 {
      CountKindAppend([g[0]], [g[1]], AssertionStep);
      CountKindAppend([g[0]], [g[1]], ActionStep);
      assert g == [g[0]] + [g[1]];
    }
  }

  /** Whole thirds grow by one exactly at the multiples of three. */
  lemma ThirdsStep(n: nat)
    requires n > 0
    ensures n / 3 == (n - 1) / 3 + (if n % 3 == 0 then 1 else 0)
  {
  }

  function CountKind(steps: seq<TestStep>, k: StepKind): nat {
    if |steps| == 0 then 0
    else CountKind(steps[..|steps| - 1], k) + (if steps[|steps| - 1].kind == k then 1 else 0)
  }

  lemma {:induction false} CountKindAppend(a: seq<TestStep>, b: seq<TestStep>, k: StepKind)
    ensures CountKind(a + b, k) == CountKind(a, k) + CountKind(b, k)
    decreases |b|
  {
    if |b| == 0 {
      assert a + b == a;
    } else {
      assert (a + b)[..|a + b| - 1] == a + b[..|b| - 1];
      CountKindAppend(a, b[..|b| - 1], k);
    }
  }

  /** The description gives back the number of actions. */
  lemma DescriptionCount(m: nat, n: nat)
    requires CaseDescription(m) == CaseDescription(n)
    ensures m == n
  {
    var p := "Automatically generated test case from screen recording with ";
    var a := CaseDescription(m);
    var b := CaseDescription(n);
    assert |NatToString(m)| == |NatToString(n)|;
    assert NatToString(m) == a[|p|..|a| - 8];
    assert NatToString(n) == b[|p|..|b| - 8];
    NatToStringInjective(m, n);
  }

  // ------------------------------------------------------- scripts

  /** One rendered step: a comment with its description, then its code. */
  function StepText(s: TestStep, render: Code -> string): string {
    "  // " + s.description + "\n  " + render(s.code)
  }

  /** The steps rendered in order, separated by blank lines. */
  function StepsText(steps: seq<TestStep>, render: Code -> string): string {
    if |steps| == 0 then ""
    else if |steps| == 1 then StepText(steps[0], render)
    else StepText(steps[0], render) + "\n\n" + StepsText(steps[1..], render)
  }

  /** Rendering two runs of steps is rendering each, with a blank line
      between. */
  lemma {:induction false} StepsTextAppend(a: seq<TestStep>, b: seq<TestStep>, render: Code -> string)
    requires |a| > 0 && |b| > 0
    ensures StepsText(a + b, render) == StepsText(a, render) + "\n\n" + StepsText(b, render)
    decreases |a|
  {
    if |a| == 1 {
      assert (a + b)[1..] == b;
    } else {
      assert (a + b)[1..] == a[1..] + b;
      StepsTextAppend(a[1..], b, render);
    }
  }

  /** The generated file, with its fixed framing text left abstract. */
  datatype Script = Script(testType: TestType, title: string, description: string, body: string)

  /** `test_` + the name lower-cased with every character outside
      `[a-z0-9]` turned into `_`. */
  function PytestName(name: string): (r: string)
    ensures |r| == 5 + |name| && r[..5] == "test_"
    ensures forall i :: 5 <= i < |r| ==> IsLowerAlnum(r[i]) || r[i] == '_'
  {
    "test_" + SlugChars(ToLower(name), '_')
  }

  /** `generateTestScript`: the test is titled by its name (the pytest
      function by `PytestName`) and its body lists the steps in order. */
  function GenerateTestScript(tc: TestCase, t: TestType, render: Code -> string): (r: Script)
    ensures r.testType == t && r.description == tc.description && r.body == StepsText(tc.steps, render)
    ensures t == Pytest ==> r.title == PytestName(tc.name)
    ensures t != Pytest ==> r.title == tc.name
  {
    Script(t, if t == Pytest then PytestName(tc.name) else tc.name, tc.description, StepsText(tc.steps, render))
  }

  /** Letters keep their place in the pytest name, lower-cased. */
  lemma PytestNameLetters(name: string, i: nat)
    requires i < |name| && IsAlnum(name[i])
    ensures PytestName(name)[5 + i] == LowerChar(name[i])
  {
  }
}
