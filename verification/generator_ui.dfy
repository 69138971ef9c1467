/** The rules of the two generator panels: `TestGenerator.tsx` (video to
    test case to script, with a fixed fallback at every stage, a 30-action
    cap and a size cap on the saved text) and `DirectTestGenerator.tsx`
    (the lead-form script with a hard-coded fallback). Also the saved
    file-name rule that these panels and the screenshot wizard share.
    Whether a stage throws is an input: the analysis is `None` when it
    threw, and the other stages take a flag. */
module GeneratorUi {
  import opened Wrappers
  import opened Strs
  import opened Actions
  import opened TestCaseGen
  import DirectGeneration

  /** The framework name the panels pass to the generators. */
  function TypeName(t: TestType): (r: string)
    ensures DirectGeneration.TypeNamed(r) == Some(t)
  {
    match t
    case Playwright => "playwright"
    case Pytest => "pytest"
    case Cypress => "cypress"
  }

  /** `name.toLowerCase().replace(/[^a-z0-9]/g, '_')`. */
  function FileStem(name: string): (r: string)
    ensures |r| == |name|
    ensures forall i :: 0 <= i < |r| ==> IsLowerAlnum(r[i]) || r[i] == '_'
    ensures forall i :: 0 <= i < |r| ==> (IsAlnum(name[i]) <==> r[i] == LowerChar(name[i]) && r[i] != '_')
  {
    SlugChars(ToLower(name), '_')
  }

  /** The saved file name: stem, `_test`, extension. */
  function FileName(name: string, extension: string): (r: string)
    ensures |r| == |name| + 5 + |extension|
    ensures r[..|name|] == FileStem(name) && r[|name|..|name| + 5] == "_test" && r[|name| + 5..] == extension
  {
    FileStem(name) + "_test" + extension
  }

  /** Two names give the same file exactly when their stems agree: the
      rule forgets case and every character outside `[A-Za-z0-9]`. */
  lemma FileNameCollision(a: string, b: string, extension: string)
    ensures FileName(a, extension) == FileName(b, extension) <==> FileStem(a) == FileStem(b)
  {
    if FileName(a, extension) == FileName(b, extension) {
      assert |a| == |b|;
      assert FileStem(a) == FileName(a, extension)[..|a|];
    }
  }

  /** The video panel and the screenshot wizard: `.ts` for Playwright and
      pytest, `.js` otherwise. */
  function ScriptExtension(t: TestType): (r: string)
    ensures r == ".ts" <==> t != Cypress
  {
    match t
    case Playwright => ".ts"
    case Pytest => ".ts"
    case Cypress => assert ".js"[1] == 'j'; ".js"
  }

  /** The direct panel: `.py` for pytest, `.cy.js` for Cypress, `.js`
      otherwise. */
  function DirectExtension(t: TestType): (r: string)
    ensures r == ".py" <==> t == Pytest
    ensures r == ".cy.js" <==> t == Cypress
    ensures r == ".js" <==> t == Playwright
  {
    match t
    case Pytest => ".py"
    case Cypress => ".cy.js"
    case Playwright => assert ".js"[1] == 'j' && |".cy.js"| == 6; ".js"
  }

  /** For every framework the two panels save under different
      extensions. */
  lemma ExtensionsDiffer(t: TestType)
    ensures ScriptExtension(t) != DirectExtension(t)
  {
    assert ".ts" != ".js" && ".ts" != ".py" && ".js" != ".cy.js";
  }

  // ------------------------------------------------ the video panel

  datatype InputError = NoVideo | NoTestName

  /** A stage that threw and was replaced by its fallback. */
  datatype Stage = AnalysisStage | CaseStage | ScriptStage

  /** The script shown: rendered from the test case, or the simplified
      fixed script named after the test. */
  datatype ScriptOut = Rendered(script: Script) | SimplifiedScript(testName: string)

  datatype Run = Run(fallbacks: seq<Stage>, analysis: AnalysisResult, testCase: TestCase, script: ScriptOut)

  const MaxActions := 30

  /** The analysis used when the video analysis throws: a click, an input
      and a navigation over 30 seconds at 1280x720. */
  const FallbackAnalysis := AnalysisResult([
    DetectedAction(Click, 1, Some(500), Some(400), Some("button.submit-btn"), None, None),
    DetectedAction(Input, 3, None, None, Some("input#username"), Some("test@example.com"), None),
    DetectedAction(Navigation, 5, Some(0), Some(0), None, None, None)], 30, 1280, 720)

  /** The test case used when case generation throws: two actions and a
      title check, with ids 1, 2 and 3. */
  function FallbackCase(testName: string): (r: TestCase)
    ensures r.name == testName && |r.steps| == 3
    ensures r.steps[2].kind == AssertionStep && r.steps[0].kind == ActionStep && r.steps[1].kind == ActionStep
  {
    TestCase(testName, "Simplified test case generated due to memory constraints", [
      TestStep(1.0, "Navigate to the page", Goto("https://example.com"), ActionStep),
      TestStep(2.0, "Click on login button", ClickSelector("button.login"), ActionStep),
      TestStep(3.0, "Verify page title", Check(TitleCheck, ""), AssertionStep)])
  }

  /** `actions.slice(0, 30)`. */
  function Limited(a: AnalysisResult): (r: AnalysisResult)
    ensures |r.actions| == if |a.actions| <= MaxActions then |a.actions| else MaxActions
    ensures r.actions == a.actions[..|r.actions|]
    ensures r.duration == a.duration && r.width == a.width && r.height == a.height
  {
    if |a.actions| <= MaxActions then a else a.(actions := a.actions[..MaxActions])
  }

  /** `handleGenerateTest`: refuses without a video or a name; otherwise
      always produces a test case and a script, substituting each stage's
      fallback when that stage threw. */
  function GenerateTest(
    hasVideo: bool, testName: string, t: TestType,
    analyzed: Option<AnalysisResult>, caseThrows: bool, scriptThrows: bool,
    pick: nat -> Choice, render: Code -> string): (r: Result<Run, InputError>)
    ensures !hasVideo ==> r == Failure(NoVideo)
    ensures hasVideo && testName == "" ==> r == Failure(NoTestName)
    ensures r.Success? <==> hasVideo && testName != ""
    ensures r.Success? ==> r.value.testCase.name == testName
    ensures r.Success? ==> (AnalysisStage in r.value.fallbacks <==> analyzed.None?)
    ensures r.Success? ==> (CaseStage in r.value.fallbacks <==> caseThrows)
    ensures r.Success? ==> (ScriptStage in r.value.fallbacks <==> scriptThrows)
    ensures r.Success? && caseThrows ==> r.value.testCase == FallbackCase(testName)
    ensures r.Success? && !scriptThrows ==> r.value.script == Rendered(GenerateTestScript(r.value.testCase, t, render))
  {
    if !hasVideo then Failure(NoVideo)
    else if testName == "" then Failure(NoTestName)
    else Success(Pipeline(testName, t, if analyzed.Some? then analyzed.value else FallbackAnalysis,
                          analyzed.None?, caseThrows, scriptThrows, pick, render))
  }

  /** The three stages run on the analysis (the fallback one when the
      analysis threw), each replaced by its fallback when it throws. */
  function Pipeline(
    testName: string, t: TestType, analysis: AnalysisResult, analysisThrew: bool, caseThrows: bool,
    scriptThrows: bool, pick: nat -> Choice, render: Code -> string): (r: Run)
    ensures r.testCase.name == testName && r.analysis == analysis
    ensures AnalysisStage in r.fallbacks <==> analysisThrew
    ensures CaseStage in r.fallbacks <==> caseThrows
    ensures ScriptStage in r.fallbacks <==> scriptThrows
    ensures caseThrows ==> r.testCase == FallbackCase(testName)
    ensures !caseThrows ==> r.testCase == GenerateTestCases(Limited(analysis), testName, pick)
    ensures !scriptThrows ==> r.script == Rendered(GenerateTestScript(r.testCase, t, render))
    ensures scriptThrows ==> r.script == SimplifiedScript(testName)
  {
    var testCase := CaseStageOut(testName, analysis, caseThrows, pick);
    Run(Fallbacks(analysisThrew, caseThrows, scriptThrows), analysis, testCase,
        ScriptStageOut(testCase, t, scriptThrows, render))
  }

  /** The case-generation stage: at most 30 actions, or the fallback. */
  function CaseStageOut(testName: string, analysis: AnalysisResult, caseThrows: bool, pick: nat -> Choice): (r: TestCase)
    ensures r.name == testName
    ensures caseThrows ==> r == FallbackCase(testName)
    ensures !caseThrows ==> r == GenerateTestCases(Limited(analysis), testName, pick)
  {
    if caseThrows then FallbackCase(testName) else GenerateTestCases(Limited(analysis), testName, pick)
  }

  /** The script stage: the rendered script, or the simplified one. */
  function ScriptStageOut(tc: TestCase, t: TestType, scriptThrows: bool, render: Code -> string): (r: ScriptOut)
    ensures !scriptThrows ==> r == Rendered(GenerateTestScript(tc, t, render))
    ensures scriptThrows ==> r == SimplifiedScript(tc.name)
  {
    if scriptThrows then SimplifiedScript(tc.name) else Rendered(GenerateTestScript(tc, t, render))
  }

  /** The stages that fell back, in pipeline order. */
  function Fallbacks(analysisThrew: bool, caseThrows: bool, scriptThrows: bool): (r: seq<Stage>)
    ensures AnalysisStage in r <==> analysisThrew
    ensures CaseStage in r <==> caseThrows
    ensures ScriptStage in r <==> scriptThrows
  {
    (if analysisThrew then [AnalysisStage] else []) + (if caseThrows then [CaseStage] else [])
      + (if scriptThrows then [ScriptStage] else [])
  }

  /** With an analysis and a name, the panel runs the pipeline on that
      analysis. */
  lemma AnalyzedRun(
    testName: string, t: TestType, a: AnalysisResult, caseThrows: bool, scriptThrows: bool,
    pick: nat -> Choice, render: Code -> string)
    requires testName != ""
    ensures GenerateTest(true, testName, t, Some(a), caseThrows, scriptThrows, pick, render)
      == Success(Pipeline(testName, t, a, false, caseThrows, scriptThrows, pick, render))
  {
  }

  /** With no stage failing, the case covers only the first 30 actions:
      at most 40 steps, and the k-th action step is built from the k-th
      analysed action. */
  lemma ActionCap(
    testName: string, t: TestType, a: AnalysisResult, pick: nat -> Choice, render: Code -> string, k: nat)
    requires testName != "" && 1 <= k <= |a.actions| && k <= MaxActions
    ensures var r := Pipeline(testName, t, a, false, false, false, pick, render);
      |r.testCase.steps| <= 40 &&
      r.testCase.steps[k - 1 + (k - 1) / 3] == ActionToTestStep(a.actions[k - 1], k)
  {
    var lim := Limited(a);
    var run := Pipeline(testName, t, a, false, false, false, pick, render);
    assert run.testCase.steps == Steps(lim.actions, pick);
    ActionStepAt(lim.actions, pick, k);
    assert lim.actions[k - 1] == a.actions[k - 1];
    StepCap(|lim.actions|);
  }

  /** At most 30 actions give at most 40 steps. */
  lemma StepCap(m: nat)
    requires m <= MaxActions
    ensures m + m / 3 <= 40
  {
  }

  const MaxScriptSize := 1024 * 1024
  const TruncationNote := "\n\n// Note: This script was truncated due to size limitations.\n"

  /** The text saved: a script over the limit keeps its first 1024*1024
      characters followed by the note. */
  function TextToSave(script: string): (r: string)
    ensures |script| <= MaxScriptSize ==> r == script
    ensures |script| > MaxScriptSize ==> |r| == MaxScriptSize + |TruncationNote|
    ensures |script| > MaxScriptSize ==> r[..MaxScriptSize] == script[..MaxScriptSize] && r[MaxScriptSize..] == TruncationNote
    ensures |r| <= MaxScriptSize + |TruncationNote|
  {
    if |script| > MaxScriptSize then script[..MaxScriptSize] + TruncationNote else script
  }

  datatype SaveError = NoScript

  /** A file to hand to the browser's download. */
  datatype Download = Download(fileName: string, text: string)

  /** `handleSaveTestScript` of the video panel. */
  function SaveVideoScript(script: Option<string>, testName: string, t: TestType): (r: Result<Download, SaveError>)
    ensures r.Failure? <==> script.None? || script.value == ""
    ensures r.Success? ==> r.value == Download(FileName(testName, ScriptExtension(t)), TextToSave(script.value))
  {
    if script.None? || script.value == "" then Failure(NoScript)
    else Success(Download(FileName(testName, ScriptExtension(t)), TextToSave(script.value)))
  }

  // ----------------------------------------------- the direct panel

  const DefaultTestName := "Add_Lead_Test"

  /** The script the direct panel shows: the lead-form generator's, or
      the hard-coded Playwright fallback titled with the test name. */
  datatype LeadScript = LeadForm(framework: TestType, title: string) | HardcodedLead(title: string)

  /** `generateTest`: always the lead-form generator with the chosen
      framework and name; when it throws, the fallback. */
  function GenerateDirect(t: TestType, testName: string, leadThrows: bool): (r: LeadScript)
    ensures !leadThrows ==> r == LeadForm(t, testName)
    ensures leadThrows ==> r.HardcodedLead? && r.title != ""
    ensures leadThrows ==> (r.title == testName <==> testName != "")
  {
    if leadThrows then HardcodedLead(if testName != "" then testName else DefaultTestName) else LeadForm(t, testName)
  }

  /** `saveTestScript` of the direct panel. */
  function SaveDirectScript(script: string, testName: string, t: TestType): (r: Result<Download, SaveError>)
    ensures r.Failure? <==> script == ""
    ensures r.Success? ==> r.value == Download(FileName(testName, DirectExtension(t)), script)
  {
    if script == "" then Failure(NoScript) else Success(Download(FileName(testName, DirectExtension(t)), script))
  }
}
