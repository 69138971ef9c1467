/** The Python backend's recorder (`recorder/recorder.py`) and script
    generator (`test_generator/generator.py`). The recorder appends one
    entry per captured browser event and saves the log as `actions.json`;
    the generator loads that log and turns it into script lines. Fixed
    script text is an opaque line token; files are a map from path to the
    saved action log (JSON encoding is not modelled). */
module BackendScripts {
  import opened Wrappers
  import opened Strs

  /** One logged action, every field as optional as a Python dict key. */
  datatype Recorded = Recorded(
    kind: Option<string>,
    url: Option<string>,
    selector: Option<string>,
    value: Option<string>,
    screenshot: Option<string>)

  /** An f-string interpolation of `dict.get(key)`: a missing key prints
      as `None`. */
  function Py(v: Option<string>): string {
    if v.Some? then v.value else "None"
  }

  // ------------------------------------------------------ script lines

  datatype Framework = PlaywrightScript | PytestScript | RecorderScript

  /** What a numbered step comment says. */
  datatype StepWhat = NavigateTo(url: string) | ClickOnElement | InputText

  /** One script line. `Prelude` and `Setup` stand for the fixed import,
      fixture and browser-launch lines of each framework; `Runner` for the
      `with sync_playwright()` trailer. */
  datatype Line =
    | Prelude(framework: Framework)
    | TestDef(name: string)
    | RunDef
    | Setup
    | BaseComment
    | Goto(url: string)
    | StepComment(number: nat, what: StepWhat)
    | ClickCall(selector: string)
    | FillCall(selector: string, value: string)
    | AssertionComment
    | UrlCheck(url: string)
    | CloseComment
    | CloseContext
    | CloseBrowser
    | Runner
    | Blank

  /** `test_` + the name lower-cased, with spaces (and only spaces) turned
      into `_`. */
  function TestFunctionName(name: string): (r: string)
    ensures |r| == 5 + |name| && r[..5] == "test_"
    ensures ' ' !in r[5..]
  {
    var body := ReplaceChar(ToLower(name), ' ', '_');
    assert ("test_" + body)[5..] == body;
    "test_" + body
  }

  /** Every other character of the name survives, lower-cased. */
  lemma TestFunctionNameKeeps(name: string, i: nat)
    requires i < |name| && name[i] != ' '
    ensures TestFunctionName(name)[5 + i] == LowerChar(name[i])
  {
  }

  /** The lines of one action: a numbered comment and a page call for
      navigation, click and input; nothing for other types. */
  function StepLines(a: Recorded, i: nat): (r: seq<Line>)
    ensures |r| == (if a.kind in {Some("navigation"), Some("click"), Some("input")} then 2 else 0)
    ensures |r| == 2 ==> r[0].StepComment? && r[0].number == i + 1
  {
    if a.kind == Some("navigation") then [StepComment(i + 1, NavigateTo(Py(a.url))), Goto(Py(a.url))]
    else if a.kind == Some("click") then [StepComment(i + 1, ClickOnElement), ClickCall(Py(a.selector))]
    else if a.kind == Some("input") then [StepComment(i + 1, InputText), FillCall(Py(a.selector), Py(a.value))]
    else []
  }

  /** `i > 0 and i % 3 == 0`: the generator checks the URL after this
      action, whatever its type. */
  predicate AssertsAfter(i: nat) {
    i > 0 && i % 3 == 0
  }

  /** The generator's lines for action `i`: its step, the URL check when
      due, then a blank line. */
  function GeneratorActionLines(a: Recorded, i: nat): seq<Line> {
    StepLines(a, i) + (if AssertsAfter(i) then [AssertionComment, UrlCheck(Py(a.url))] else []) + [Blank]
  }

  /** The recorder's lines for action `i`: its step, then a blank line. */
  function RecorderActionLines(a: Recorded, i: nat): seq<Line> {
    StepLines(a, i) + [Blank]
  }

  /** The per-action lines of the whole log, in order. */
  function Body(actions: seq<Recorded>, checks: bool): seq<Line>
    decreases |actions|
  {
    if |actions| == 0 then []
    else
      var i := |actions| - 1;
      Body(actions[..i], checks) + (if checks then GeneratorActionLines(actions[i], i) else RecorderActionLines(actions[i], i))
  }

  /** Occurrences of URL checks among some lines. */
  function UrlChecks(lines: seq<Line>): nat
    decreases |lines|
  {
    if |lines| == 0 then 0 else UrlChecks(lines[..|lines| - 1]) + (if lines[|lines| - 1].UrlCheck? then 1 else 0)
  }

  /** Occurrences of blank lines. */
  function Blanks(lines: seq<Line>): nat
    decreases |lines|
  {
    if |lines| == 0 then 0 else Blanks(lines[..|lines| - 1]) + (if lines[|lines| - 1].Blank? then 1 else 0)
  }

  lemma {:induction false} CountsAppend(a: seq<Line>, b: seq<Line>)
    ensures UrlChecks(a + b) == UrlChecks(a) + UrlChecks(b)
    ensures Blanks(a + b) == Blanks(a) + Blanks(b)
    decreases |b|
  {
    if |b| == 0 {
      assert a + b == a;
    } else {
      assert (a + b)[..|a + b| - 1] == a + b[..|b| - 1];
      CountsAppend(a, b[..|b| - 1]);
    }
  }

  /** Counts over the lines of one action. */
  lemma ActionLineCounts(a: Recorded, i: nat, checks: bool)
    ensures var l := if checks then GeneratorActionLines(a, i) else RecorderActionLines(a, i);
      Blanks(l) == 1 && UrlChecks(l) == (if checks && AssertsAfter(i) then 1 else 0)
  {
    var s := StepLines(a, i);
    StepLineCounts(a, i);
    var t: seq<Line> := if checks && AssertsAfter(i) then [AssertionComment, UrlCheck(Py(a.url))] else [];
    assert UrlChecks(t) == |t| / 2 && Blanks(t) == 0 by {
      if |t| == 2 {
        PairCounts(AssertionComment, UrlCheck(Py(a.url)));
      }
    }
    CountsAppend(s, t);
    CountsAppend(s + t, [Blank]);
    PairCounts(Blank, Blank);
    assert Blanks([Blank]) == 1 && UrlChecks([Blank]) == 0 by {
      assert [Blank][..0] == [];
    }
    if checks {
      assert GeneratorActionLines(a, i) == s + t + [Blank];
    } else {
      assert RecorderActionLines(a, i) == s + t + [Blank];
    }
  }

  lemma StepLineCounts(a: Recorded, i: nat)
    ensures UrlChecks(StepLines(a, i)) == 0 && Blanks(StepLines(a, i)) == 0
  {
    var s := StepLines(a, i);
    if |s| == 2 {
      PairCounts(s[0], s[1]);
      assert s == [s[0], s[1]];
    }
  }

  lemma PairCounts(x: Line, y: Line)
    ensures UrlChecks([x, y]) == (if x.UrlCheck? then 1 else 0) + (if y.UrlCheck? then 1 else 0)
    ensures Blanks([x, y]) == (if x.Blank? then 1 else 0) + (if y.Blank? then 1 else 0)
  {
    assert [x, y][..1] == [x];
    assert UrlChecks([x]) == (if x.UrlCheck? then 1 else 0) && Blanks([x]) == (if x.Blank? then 1 else 0) by {
      assert [x][..0] == [];
    }
  }

  /** Every action ends with exactly one blank line; the generator checks
      the URL after actions 3, 6, 9, ... (zero-based), so `(n - 1) / 3`
      times for `n > 0` actions, and the recorder never does. */
  lemma {:induction false} BodyCounts(actions: seq<Recorded>, checks: bool)
    ensures Blanks(Body(actions, checks)) == |actions|
    ensures UrlChecks(Body(actions, checks)) == (if checks && |actions| > 0 then (|actions| - 1) / 3 else 0)
    decreases |actions|
  {
    if |actions| > 0 {
      var i := |actions| - 1;
      BodyCounts(actions[..i], checks);
      ActionLineCounts(actions[i], i, checks);
      CountsAppend(Body(actions[..i], checks), if checks then GeneratorActionLines(actions[i], i) else RecorderActionLines(actions[i], i));
    }
  }

  /** A step comment numbered `k` comes from the `k`-th action, which is a
      navigation, click or input. */
  lemma {:induction false} StepCommentSource(actions: seq<Recorded>, checks: bool, j: nat)
    requires j < |Body(actions, checks)| && Body(actions, checks)[j].StepComment?
    ensures var k := Body(actions, checks)[j].number;
      1 <= k <= |actions| && actions[k - 1].kind in {Some("navigation"), Some("click"), Some("input")}
    decreases |actions|
  {
    var i := |actions| - 1;
    var prev := Body(actions[..i], checks);
    var l := if checks then GeneratorActionLines(actions[i], i) else RecorderActionLines(actions[i], i);
    assert Body(actions, checks) == prev + l;
    if j < |prev| {
      StepCommentSource(actions[..i], checks, j);
      assert Body(actions, checks)[j] == prev[j];
    } else {
      assert l[j - |prev|] == Body(actions, checks)[j];
      ActionComment(actions[i], i, checks, j - |prev|);
    }
  }

  /** The only step comment among one action's lines is its first line,
      numbered after the action, which is a navigation, click or input. */
  lemma ActionComment(a: Recorded, i: nat, checks: bool, m: nat)
    requires var l := if checks then GeneratorActionLines(a, i) else RecorderActionLines(a, i);
      m < |l| && l[m].StepComment?
    ensures var l := if checks then GeneratorActionLines(a, i) else RecorderActionLines(a, i);
      m == 0 && l[0].number == i + 1 && a.kind in {Some("navigation"), Some("click"), Some("input")}
  {
    var l := if checks then GeneratorActionLines(a, i) else RecorderActionLines(a, i);
    var s := StepLines(a, i);
    var t: seq<Line> := if checks && AssertsAfter(i) then [AssertionComment, UrlCheck(Py(a.url))] else [];
    assert l == s + (t + [Blank]);
    assert forall n :: 0 <= n < |t + [Blank]| ==> !(t + [Blank])[n].StepComment?;
    assert m < |s| && |s| == 2;
    assert s[1].Goto? || s[1].ClickCall? || s[1].FillCall?;
  }

  // ------------------------------------------------------- generator

  datatype Error = FileNotFound(path: string) | KeyError(key: string) | UnsupportedBrowser(name: string)

  /** The saved logs, by path. */
  type Files = map<string, seq<Recorded>>

  /** `os.path.join(dir, name)` on POSIX: an absolute name replaces the
      directory, an empty directory adds nothing, and a `/` is put
      between the two only when the directory does not already end in
      one. */
  function Join(dir: string, name: string): (r: string)
    ensures |r| >= |name| && r[|r| - |name|..] == name
    ensures dir == "" || (|name| > 0 && name[0] == '/') ==> r == name
    ensures dir != "" && !(|name| > 0 && name[0] == '/') ==>
      |r| == |dir| + |name| + (if dir[|dir| - 1] == '/' then 0 else 1) &&
      r[..|dir|] == dir && r[|r| - |name| - 1] == '/'
  {
    if dir == "" || (|name| > 0 && name[0] == '/') then name
    else if dir[|dir| - 1] == '/' then dir + name
    else dir + "/" + name
  }

  /** `os.path.join(recording_path, "actions.json")`. */
  function ActionsFile(dir: string): string {
    Join(dir, "actions.json")
  }

  /** `_load_actions` in the constructor: the log, or `FileNotFoundError`. */
  function LoadActions(files: Files, dir: string): (r: Result<seq<Recorded>, Error>)
    ensures r.Failure? <==> ActionsFile(dir) !in files
    ensures r.Failure? ==> r.error == FileNotFound(ActionsFile(dir))
    ensures r.Success? ==> r.value == files[ActionsFile(dir)]
  {
    if ActionsFile(dir) in files then Success(files[ActionsFile(dir)]) else Failure(FileNotFound(ActionsFile(dir)))
  }

  /** `self.actions[0]["url"] if self.actions else ""`: the first action
      must then have a url. */
  function BaseUrl(actions: seq<Recorded>): (r: Result<string, Error>)
    ensures |actions| == 0 ==> r == Success("")
    ensures |actions| > 0 ==> (r.Success? <==> actions[0].url.Some?)
    ensures r.Success? && |actions| > 0 ==> r.value == actions[0].url.value
  {
    if |actions| == 0 then Success("")
    else if actions[0].url.Some? then Success(actions[0].url.value)
    else Failure(KeyError("url"))
  }

  /** `output_file or os.path.join(recording_path, default)`. */
  function OutputFile(given: Option<string>, dir: string, default: string): (r: string)
    ensures given.Some? && given.value != "" ==> r == given.value
    ensures !(given.Some? && given.value != "") ==> r == Join(dir, default)
  {
    if given.Some? && given.value != "" then given.value else Join(dir, default)
  }

  /** The fixed lines each framework writes before the steps: the
      imports, the test function (or the runner's `run`), the browser
      setup where there is one, and the visit of the base URL. */
  function ScriptHead(f: Framework, testName: string, base: string): (r: seq<Line>)
    ensures |r| >= 5 && r[0] == Prelude(f) && r[|r| - 2] == Goto(base) && r[|r| - 1] == Blank
    ensures f != RecorderScript ==> r[1] == TestDef(TestFunctionName(testName))
    ensures CloseBrowser !in r && CloseContext !in r
    ensures forall n :: 0 <= n < |r| ==> !r[n].StepComment?
  {
    match f
    case PlaywrightScript => [Prelude(f), TestDef(TestFunctionName(testName)), Setup, Blank, BaseComment, Goto(base), Blank]
    case PytestScript => [Prelude(f), TestDef(TestFunctionName(testName)), BaseComment, Goto(base), Blank]
    case RecorderScript => [Prelude(f), RunDef, Setup, Blank, BaseComment, Goto(base), Blank]
  }

  /** The fixed lines after the steps: Playwright closes the context and
      the browser, the pytest fixture closes nothing, and the runner
      closes the browser and calls `run`. */
  function ScriptTail(f: Framework): (r: seq<Line>)
    ensures f == PytestScript <==> r == []
    ensures CloseBrowser in r <==> f != PytestScript
    ensures CloseContext in r <==> f == PlaywrightScript
    ensures forall n :: 0 <= n < |r| ==> !r[n].StepComment?
  {
    match f
    case PlaywrightScript => [CloseComment, CloseContext, CloseBrowser, Blank]
    case PytestScript => []
    case RecorderScript => [CloseComment, CloseBrowser, Blank, Runner, Blank]
  }

  /** The file each generator writes by default. */
  function DefaultOutput(f: Framework): string {
    if f == PlaywrightScript then "playwright_test.py" else "pytest_test.py"
  }

  /** `generate_playwright_test` / `generate_pytest_test`: the written
      path, and the framework's fixed lines around the per-action lines
      with URL checks. */
  function GenerateScript(actions: seq<Recorded>, f: Framework, dir: string, output: Option<string>, testName: string):
    (r: Result<(string, seq<Line>), Error>)
    requires f != RecorderScript
    ensures r.Success? <==> BaseUrl(actions).Success?
    ensures r.Success? ==>
      r.value.0 == OutputFile(output, dir, DefaultOutput(f)) &&
      r.value.1 == ScriptHead(f, testName, BaseUrl(actions).value) + Body(actions, true) + ScriptTail(f)
    ensures r.Success? ==> var lines := r.value.1;
      TestDef(TestFunctionName(testName)) in lines &&
      Goto(BaseUrl(actions).value) in lines &&
      (f == PlaywrightScript <==> CloseBrowser in lines)
  {
    match BaseUrl(actions)
    case Failure(e) => Failure(e)
    case Success(base) =>
      var head, body, tail := ScriptHead(f, testName, base), Body(actions, true), ScriptTail(f);
      BodyHasNoClose(actions, true);
      var lines := head + body + tail;
      assert lines[1] == head[1] && lines[|head| - 2] == head[|head| - 2];
      assert CloseBrowser in lines <==> CloseBrowser in tail by {
        assert forall l :: l in lines <==> l in head || l in body || l in tail;
      }
      Success((OutputFile(output, dir, DefaultOutput(f)), lines))
  }

  /** The URL checks and blank lines of a whole generated script: the
      steps' own, and the fixed lines' blanks (three around a Playwright
      test, one in a pytest test). */
  lemma GeneratedCounts(actions: seq<Recorded>, f: Framework, dir: string, output: Option<string>, testName: string)
    requires f != RecorderScript && BaseUrl(actions).Success?
    ensures var lines := GenerateScript(actions, f, dir, output, testName).value.1;
      UrlChecks(lines) == (if |actions| > 0 then (|actions| - 1) / 3 else 0) &&
      Blanks(lines) == |actions| + (if f == PlaywrightScript then 3 else 1)
  {
    var head, body, tail := ScriptHead(f, testName, BaseUrl(actions).value), Body(actions, true), ScriptTail(f);
    BodyCounts(actions, true);
    HeadCounts(f, testName, BaseUrl(actions).value);
    TailCounts(f);
    CountsAppend(head, body);
    CountsAppend(head + body, tail);
  }

  /** A step comment anywhere in a generated script comes from the
      action it is numbered after, which is a navigation, click or input. */
  lemma GeneratedStepSource(actions: seq<Recorded>, f: Framework, dir: string, output: Option<string>, testName: string, j: nat)
    requires f != RecorderScript && BaseUrl(actions).Success?
    requires var lines := GenerateScript(actions, f, dir, output, testName).value.1;
      j < |lines| && lines[j].StepComment?
    ensures var k := GenerateScript(actions, f, dir, output, testName).value.1[j].number;
      1 <= k <= |actions| && actions[k - 1].kind in {Some("navigation"), Some("click"), Some("input")}
  {
    var head, body, tail := ScriptHead(f, testName, BaseUrl(actions).value), Body(actions, true), ScriptTail(f);
    FramedComment(head, body, tail, j);
    StepCommentSource(actions, true, j - |head|);
  }

  /** A step comment framed by lines that hold none lies in the middle. */
  lemma FramedComment(head: seq<Line>, body: seq<Line>, tail: seq<Line>, j: nat)
    requires forall n :: 0 <= n < |head| ==> !head[n].StepComment?
    requires forall n :: 0 <= n < |tail| ==> !tail[n].StepComment?
    requires j < |head + body + tail| && (head + body + tail)[j].StepComment?
    ensures |head| <= j < |head| + |body| && body[j - |head|] == (head + body + tail)[j]
  {
  }

  /** Counts over the fixed lines before the steps. */
  lemma HeadCounts(f: Framework, testName: string, base: string)
    ensures UrlChecks(ScriptHead(f, testName, base)) == 0
    ensures Blanks(ScriptHead(f, testName, base)) == (if f == PytestScript then 1 else 2)
  {
    var first := if f == RecorderScript then RunDef else TestDef(TestFunctionName(testName));
    var head := ScriptHead(f, testName, base);
    SingleCounts(Blank);
    if f == PytestScript {
      var a := [Prelude(f), first, BaseComment, Goto(base)];
      NoneCounted(a);
      Uncounted(a, [Blank], []);
      assert head == a + [Blank] + [];
    } else {
      var a, b := [Prelude(f), first, Setup], [BaseComment, Goto(base)];
      NoneCounted(a);
      Uncounted(a, [Blank], b);
      Uncounted(a + [Blank] + b, [Blank], []);
      assert head == a + [Blank] + b + [Blank] + [];
    }
  }

  /** Counts over the fixed lines after the steps. */
  lemma TailCounts(f: Framework)
    ensures UrlChecks(ScriptTail(f)) == 0
    ensures Blanks(ScriptTail(f)) == (match f case PlaywrightScript => 1 case PytestScript => 0 case RecorderScript => 2)
  {
    var tail := ScriptTail(f);
    SingleCounts(Blank);
    if f == PlaywrightScript {
      var a := [CloseComment, CloseContext, CloseBrowser];
      NoneCounted(a);
      Uncounted(a, [Blank], []);
      assert tail == a + [Blank] + [];
    } else if f == RecorderScript {
      var a := [CloseComment, CloseBrowser];
      NoneCounted(a);
      Uncounted(a, [Blank], [Runner]);
      Uncounted(a + [Blank] + [Runner], [Blank], []);
      assert tail == a + [Blank] + [Runner] + [Blank] + [];
    } else {
      assert tail == [];
    }
  }

  /** Lines that are neither URL checks nor blank count for nothing. */
  lemma {:induction false} NoneCounted(lines: seq<Line>)
    requires forall n :: 0 <= n < |lines| ==> !lines[n].UrlCheck? && !lines[n].Blank?
    ensures UrlChecks(lines) == 0 && Blanks(lines) == 0
    decreases |lines|
  {
    if |lines| > 0 {
      NoneCounted(lines[..|lines| - 1]);
    }
  }

  /** Counts over `a + m + b` where `b` counts for nothing. */
  lemma Uncounted(a: seq<Line>, m: seq<Line>, b: seq<Line>)
    requires forall n :: 0 <= n < |b| ==> !b[n].UrlCheck? && !b[n].Blank?
    ensures UrlChecks(a + m + b) == UrlChecks(a) + UrlChecks(m) && Blanks(a + m + b) == Blanks(a) + Blanks(m)
  {
    NoneCounted(b);
    CountsAppend(a, m);
    CountsAppend(a + m, b);
  }

  /** Counts over one line. */
  lemma SingleCounts(x: Line)
    ensures UrlChecks([x]) == (if x.UrlCheck? then 1 else 0) && Blanks([x]) == (if x.Blank? then 1 else 0)
  {
    assert [x][..0] == [];
  }

  lemma {:induction false} BodyHasNoClose(actions: seq<Recorded>, checks: bool)
    ensures CloseBrowser !in Body(actions, checks)
    decreases |actions|
  {
    if |actions| > 0 {
      BodyHasNoClose(actions[..|actions| - 1], checks);
    }
  }

  /** One row of `generate_test_steps`. */
  datatype TestStepRow = TestStepRow(order: nat, kind: Option<string>, selector: Option<string>,
                                     selectorType: string, value: Option<string>, screenshot: Option<string>)

  /** `action.get(key, "")`: only a missing key gives the default. */
  function OrEmpty(v: Option<string>): Option<string> {
    if v.Some? then v else Some("")
  }

  /** `generate_test_steps`: one row per action, in order. */
  function GenerateTestSteps(actions: seq<Recorded>): (r: seq<TestStepRow>)
    ensures |r| == |actions|
    ensures forall i :: 0 <= i < |r| ==>
      r[i].order == i && r[i].selectorType == "css" &&
      r[i].kind == actions[i].kind && r[i].selector == actions[i].selector &&
      r[i].value == (if actions[i].value.Some? then actions[i].value else Some("")) &&
      r[i].screenshot == (if actions[i].screenshot.Some? then actions[i].screenshot else Some(""))
  {
    seq(|actions|, i requires 0 <= i < |actions| =>
      TestStepRow(i, actions[i].kind, actions[i].selector, "css", OrEmpty(actions[i].value), OrEmpty(actions[i].screenshot)))
  }

  // -------------------------------------------------------- recorder

  datatype Browser = Chromium | Firefox | Webkit

  /** `start_recording`'s browser choice. */
  function BrowserNamed(name: string): (r: Result<Browser, Error>)
    ensures r.Success? <==> name in {"chromium", "firefox", "webkit"}
    ensures r.Failure? ==> r.error == UnsupportedBrowser(name)
  {
    if name == "chromium" then Success(Chromium)
    else if name == "firefox" then Success(Firefox)
    else if name == "webkit" then Success(Webkit)
    else Failure(UnsupportedBrowser(name))
  }

  /** `_get_best_selector`: `#id` for a non-empty id, else `.` and the
      class with spaces turned into dots; `None` where the XPath fallback
      would run. */
  function BestSelector(id: Option<string>, cls: Option<string>): (r: Option<string>)
    ensures r.None? <==> (id.None? || id.value == "") && (cls.None? || cls.value == "")
    ensures id.Some? && id.value != "" ==> r == Some("#" + id.value)
    ensures (id.None? || id.value == "") && cls.Some? && cls.value != "" ==>
      r.Some? && |r.value| == |cls.value| + 1 && r.value[0] == '.' && ' ' !in r.value
  {
    if id.Some? && id.value != "" then Some("#" + id.value)
    else if cls.Some? && cls.value != "" then
      var dotted := ReplaceChar(cls.value, ' ', '.');
      assert ' ' !in "." + dotted by {
        assert forall k :: 0 <= k < |dotted| ==> dotted[k] != ' ';
      }
      Some("." + dotted)
    else None
  }

  /** A recording session: its directory and the log so far. */
  datatype Recorder = Recorder(baseUrl: string, dir: string, actions: seq<Recorded>)

  /** `os.path.join(recording_path, f"step_{k}.png")`. */
  function ScreenshotPath(dir: string, k: nat): string {
    Join(dir, "step_" + NatToString(k) + ".png")
  }

  /** Every logged screenshot is named after its own position. */
  predicate ScreenshotsIndexed(st: Recorder) {
    forall k :: 0 <= k < |st.actions| ==> st.actions[k].screenshot == Some(ScreenshotPath(st.dir, k))
  }

  /** Appends one entry, naming its screenshot after the log length. */
  function Append(st: Recorder, kind: string, url: string, selector: Option<string>, value: Option<string>): (r: Recorder)
    ensures |r.actions| == |st.actions| + 1 && r.actions[..|st.actions|] == st.actions
    ensures r.actions[|st.actions|].screenshot == Some(ScreenshotPath(st.dir, |st.actions|))
    ensures ScreenshotsIndexed(st) ==> ScreenshotsIndexed(r)
  {
    var a := Recorded(Some(kind), Some(url), selector, value, Some(ScreenshotPath(st.dir, |st.actions|)));
    st.(actions := st.actions + [a])
  }

  /** `_record_action` for a click at the current page url. */
  function RecordClick(st: Recorder, pageUrl: string, selector: Option<string>): (r: Recorder)
    ensures |r.actions| == |st.actions| + 1 && r.actions[|st.actions|].kind == Some("click")
  {
    Append(st, "click", pageUrl, selector, None)
  }

  /** `_record_navigation`: only a main-frame navigation is logged. */
  function RecordNavigation(st: Recorder, isMainFrame: bool, frameUrl: string): (r: Recorder)
    ensures !isMainFrame ==> r == st
    ensures isMainFrame ==> |r.actions| == |st.actions| + 1
    ensures isMainFrame ==> r.actions[|st.actions|].kind == Some("navigation") && r.actions[|st.actions|].url == Some(frameUrl)
  {
    if isMainFrame then Append(st, "navigation", frameUrl, None, None) else st
  }

  /** `_record_input`: the typed value, `""` when the event has none. */
  function RecordInput(st: Recorder, pageUrl: string, selector: Option<string>, value: Option<string>): (r: Recorder)
    ensures |r.actions| == |st.actions| + 1 && r.actions[|st.actions|].kind == Some("input")
    ensures r.actions[|st.actions|].value == (if value.Some? then value else Some(""))
  {
    Append(st, "input", pageUrl, selector, OrEmpty(value))
  }

  /** What `stop_recording` reports. */
  datatype StopReport = StopReport(actionsCount: nat, actionsFile: string)

  /** `stop_recording`: saves the log and reports its size. */
  function StopRecording(st: Recorder, files: Files): (r: (StopReport, Files))
    ensures r.0.actionsCount == |st.actions| && r.0.actionsFile == ActionsFile(st.dir)
    ensures forall p :: p in files && p != ActionsFile(st.dir) ==> p in r.1 && r.1[p] == files[p]
  {
    (StopReport(|st.actions|, ActionsFile(st.dir)), files[ActionsFile(st.dir) := st.actions])
  }

  /** A generator opened on a stopped recording sees exactly the log. */
  lemma StopThenLoad(st: Recorder, files: Files)
    ensures LoadActions(StopRecording(st, files).1, st.dir) == Success(st.actions)
  {
  }

  /** `generate_test_script` on the recorder: the same per-action steps
      with no URL checks, framed by the runner's fixed lines. */
  function RecorderScriptLines(st: Recorder): (r: seq<Line>)
    ensures r == ScriptHead(RecorderScript, "", st.baseUrl) + Body(st.actions, false) + ScriptTail(RecorderScript)
    ensures Goto(st.baseUrl) in r && CloseBrowser in r && !(CloseContext in r)
  {
    var head, body, tail := ScriptHead(RecorderScript, "", st.baseUrl), Body(st.actions, false), ScriptTail(RecorderScript);
    var lines := head + body + tail;
    BodyHasNoCloseContext(st.actions);
    assert lines[|head| - 2] == Goto(st.baseUrl);
    assert forall l :: l in lines <==> l in head || l in body || l in tail;
    lines
  }

  /** The recorder's script checks no URL, and has one blank line per
      action besides the four of its fixed lines. */
  lemma RecorderCounts(st: Recorder)
    ensures UrlChecks(RecorderScriptLines(st)) == 0
    ensures Blanks(RecorderScriptLines(st)) == |st.actions| + 4
  {
    var head, body, tail := ScriptHead(RecorderScript, "", st.baseUrl), Body(st.actions, false), ScriptTail(RecorderScript);
    BodyCounts(st.actions, false);
    HeadCounts(RecorderScript, "", st.baseUrl);
    TailCounts(RecorderScript);
    CountsAppend(head, body);
    CountsAppend(head + body, tail);
  }

  lemma {:induction false} BodyHasNoCloseContext(actions: seq<Recorded>)
    ensures CloseContext !in Body(actions, false)
    decreases |actions|
  {
    if |actions| > 0 {
      BodyHasNoCloseContext(actions[..|actions| - 1]);
    }
  }
}
