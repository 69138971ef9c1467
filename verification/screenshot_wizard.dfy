/** The multi-screenshot wizard (`MultiScreenshotTestGenerator.tsx`):
    a screenshot count, three steps (count, capture, review), capture and
    upload that append one labelled screenshot, removal by id, the three
    generation buttons and which generator each one routes to, and the
    saved file name. Rendering, the canvas capture and the file reader
    are left out: their results (ids, data URLs, a MIME type) are
    parameters. Generated scripts are tags naming the generator and what
    it was given. */
module ScreenshotWizard {
  import opened Wrappers
  import opened Strs
  import opened Seqs
  import opened TestCaseGen
  import DirectGeneration
  import opened GeneratorUi

  datatype Screenshot = Screenshot(id: string, dataUrl: string, description: string)

  /** Which generator produced the script, and with what. */
  datatype Generated =
    | LeadFormScript(framework: TestType, title: string)
    | EmergencyScript(framework: TestType, title: string)
    | Direct(script: DirectGeneration.Script)

  datatype Notice = NotAnImage | ReadFailed | NoScreenshots | NothingToSave

  datatype Wizard = Wizard(
    step: int,
    count: int,
    screenshots: seq<Screenshot>,
    description: string,
    testName: string,
    framework: TestType,
    script: Option<Generated>,
    error: Option<Notice>)

  /** The steps are 0 (count), 1 (capture) and 2 (review), and at least
      one screenshot is asked for. */
  predicate Valid(w: Wizard) {
    0 <= w.step <= 2 && w.count >= 1
  }

  /** `Math.max(1, parseInt(v) || 1)`, where `parsed` is `parseInt`'s
      result and `None` stands for `NaN`. */
  function ClampCount(parsed: Option<int>): (r: int)
    ensures r >= 1
    ensures parsed.Some? && parsed.value >= 1 ==> r == parsed.value
    ensures parsed.None? || parsed.value < 1 ==> r == 1
  {
    var n := if parsed.Some? && parsed.value != 0 then parsed.value else 1;
    if n < 1 then 1 else n
  }

  /** `handleSetScreenshotCount`: forget the screenshots and go to the
      capture step. */
  function StartCapture(w: Wizard): (r: Wizard)
    ensures r.step == 1 && r.screenshots == [] && r.count == w.count
  {
    w.(screenshots := [], step := 1)
  }

  predicate BackEnabled(w: Wizard) {
    w.step != 0
  }

  /** Below the last step the Next button is shown. */
  predicate NextShown(w: Wizard) {
    w.step < 2
  }

  /** `isNextDisabled`. */
  function NextDisabled(w: Wizard): (r: bool)
    ensures r <==> w.step == 1 && |w.screenshots| < w.count
  {
    if w.step == 0 then false
    else if w.step == 1 then |w.screenshots| < w.count
    else false
  }

  /** Pressing Next, which only has an effect while it is shown and
      enabled. */
  function Next(w: Wizard): (r: Wizard)
    ensures NextShown(w) && !NextDisabled(w) ==> r == w.(step := w.step + 1)
    ensures !(NextShown(w) && !NextDisabled(w)) ==> r == w
  {
    if NextShown(w) && !NextDisabled(w) then w.(step := w.step + 1) else w
  }

  function Back(w: Wizard): (r: Wizard)
    ensures BackEnabled(w) ==> r == w.(step := w.step - 1)
    ensures !BackEnabled(w) ==> r == w
  {
    if BackEnabled(w) then w.(step := w.step - 1) else w
  }

  /** The label of a new screenshot: the typed description, or its
      1-based position (marked for uploads). */
  function CaptureLabel(typed: string, n: nat, uploaded: bool): (r: string)
    ensures typed != "" ==> r == typed
    ensures typed == "" ==> r == "Screenshot " + NatToString(n + 1) + (if uploaded then " (Uploaded)" else "")
  {
    if typed != "" then typed else "Screenshot " + NatToString(n + 1) + (if uploaded then " (Uploaded)" else "")
  }

  function Appended(w: Wizard, id: string, dataUrl: string, uploaded: bool): (r: Wizard)
    ensures |r.screenshots| == |w.screenshots| + 1 && r.screenshots[..|w.screenshots|] == w.screenshots
    ensures r.screenshots[|w.screenshots|] == Screenshot(id, dataUrl, CaptureLabel(w.description, |w.screenshots|, uploaded))
    ensures r.description == "" && r.step == w.step && r.count == w.count
  {
    w.(screenshots := w.screenshots + [Screenshot(id, dataUrl, CaptureLabel(w.description, |w.screenshots|, uploaded))],
       description := "")
  }

  /** `takeScreenshot`: the captured page appended at the end. */
  function Capture(w: Wizard, id: string, dataUrl: string): (r: Wizard)
    ensures r == Appended(w, id, dataUrl, false)
  {
    Appended(w, id, dataUrl, false)
  }

  /** An upload: a non-image file is refused and an unreadable one
      reported, both leaving the list as it was. */
  function Upload(w: Wizard, id: string, mimeType: string, dataUrl: string): (r: Wizard)
    ensures !("image/" <= mimeType) ==> r == w.(error := Some(NotAnImage))
    ensures "image/" <= mimeType && dataUrl == "" ==> r == w.(error := Some(ReadFailed))
    ensures "image/" <= mimeType && dataUrl != "" ==> r == Appended(w, id, dataUrl, true)
  {
    if !("image/" <= mimeType) then w.(error := Some(NotAnImage))
    else if dataUrl == "" then w.(error := Some(ReadFailed))
    else Appended(w, id, dataUrl, true)
  }

  /** The screenshots whose id is not `id`, in order. */
  function WithoutId(shots: seq<Screenshot>, id: string): (r: seq<Screenshot>)
    ensures |r| <= |shots|
    ensures forall s :: s in r <==> s in shots && s.id != id
    decreases |shots|
  {
    if |shots| == 0 then []
    else WithoutId(shots[..|shots| - 1], id) + (if shots[|shots| - 1].id != id then [shots[|shots| - 1]] else [])
  }

  /** Removing an id that is not present changes nothing. */
  lemma {:induction false} WithoutAbsentId(shots: seq<Screenshot>, id: string)
    requires forall i :: 0 <= i < |shots| ==> shots[i].id != id
    ensures WithoutId(shots, id) == shots
    decreases |shots|
  {
    if |shots| > 0 {
      var init, last := shots[..|shots| - 1], shots[|shots| - 1];
      assert forall i :: 0 <= i < |init| ==> init[i].id != id by {
        assert forall i :: 0 <= i < |init| ==> init[i] == shots[i];
      }
      WithoutAbsentId(init, id);
      assert last.id != id;
      FrontLast(shots);
    }
  }

  /** `removeScreenshot`. */
  function Remove(w: Wizard, id: string): (r: Wizard)
    ensures r.screenshots == WithoutId(w.screenshots, id) && r.step == w.step
  {
    w.(screenshots := WithoutId(w.screenshots, id))
  }

  /** `text.toLowerCase().includes(word)`. */
  predicate Mentions(text: string, word: string) {
    Contains(ToLower(text), word)
  }

  /** The one-screenshot button's lead-form test. */
  predicate SingleLead(d: string) {
    Mentions(d, "lead") || Mentions(d, "crm") || Mentions(d, "customer") || Mentions(d, "add lead")
  }

  /** The all-screenshots button's test for one description. */
  predicate ListLead(d: string) {
    Mentions(d, "lead") || Mentions(d, "crm") || Mentions(d, "add lead")
  }

  /** Mentioning "add lead" is mentioning "lead". */
  lemma AddLeadMentionsLead(d: string)
    requires Mentions(d, "add lead")
    ensures Mentions(d, "lead")
  {
    var lower := ToLower(d);
    var i := ContainsWitness(lower, "add lead");
    assert lower[i + 4..i + 8] == lower[i..i + 8][4..];
    ContainsAt(lower, "lead", i + 4);
  }

  /** So the per-screenshot test is "lead", "crm" or "customer", and the
      list test is "lead" or "crm": the two differ exactly on screenshots
      that mention "customer" alone. */
  lemma LeadTests(d: string)
    ensures SingleLead(d) <==> Mentions(d, "lead") || Mentions(d, "crm") || Mentions(d, "customer")
    ensures ListLead(d) <==> Mentions(d, "lead") || Mentions(d, "crm")
    ensures SingleLead(d) && !ListLead(d) <==> Mentions(d, "customer") && !Mentions(d, "lead") && !Mentions(d, "crm")
  {
    if Mentions(d, "add lead") {
      AddLeadMentionsLead(d);
    }
  }

  /** `generateTestForSingleScreenshot`: a lead-form test titled with the
      lower-cased description, or the direct generator's script; then the
      review step. */
  function GenerateSingle(w: Wizard, s: Screenshot): (r: Wizard)
    ensures r.step == 2 && r.script.Some?
    ensures SingleLead(s.description) ==> r.script == Some(LeadFormScript(w.framework, ToLower(s.description)))
    ensures !SingleLead(s.description) ==>
      r.script == Some(Direct(DirectGeneration.GenerateDirectTestScript(Some(s.description), TypeName(w.framework))))
  {
    var g := if SingleLead(s.description) then LeadFormScript(w.framework, ToLower(s.description))
      else Direct(DirectGeneration.GenerateDirectTestScript(Some(s.description), TypeName(w.framework)));
    w.(script := Some(g), step := 2, error := None)
  }

  /** Some screenshot passes the list test (`some`). */
  predicate AnyListLead(shots: seq<Screenshot>) {
    exists i :: 0 <= i < |shots| && ListLead(shots[i].description)
  }

  /** What the multi-screenshot generator is given for each screenshot. */
  function Descriptions(shots: seq<Screenshot>): (r: seq<Option<string>>)
    ensures |r| == |shots|
    ensures forall i :: 0 <= i < |shots| ==>
      r[i] == Some(if shots[i].description != "" then shots[i].description else "Unnamed Screenshot")
  {
    seq(|shots|, i requires 0 <= i < |shots| =>
      Some(if shots[i].description != "" then shots[i].description else "Unnamed Screenshot"))
  }

  /** `generateTests`: an empty list is an error and changes nothing else;
      otherwise a lead-form test when some screenshot passes the list
      test, else one block per screenshot; then the review step. */
  function GenerateAll(w: Wizard): (r: Wizard)
    ensures |w.screenshots| == 0 ==> r == w.(error := Some(NoScreenshots))
    ensures |w.screenshots| > 0 ==> r.step == 2 && r.script.Some? && r.error.None?
    ensures |w.screenshots| > 0 && AnyListLead(w.screenshots) ==>
      r.script == Some(LeadFormScript(w.framework, if w.testName != "" then w.testName else "Lead_Form_Test"))
    ensures |w.screenshots| > 0 && !AnyListLead(w.screenshots) ==>
      r.script == Some(Direct(DirectGeneration.GenerateMultiScreenshotTestScript(Descriptions(w.screenshots), TypeName(w.framework))))
  {
    if |w.screenshots| == 0 then w.(error := Some(NoScreenshots))
    else
      var g := if AnyListLead(w.screenshots) then LeadFormScript(w.framework, if w.testName != "" then w.testName else "Lead_Form_Test")
        else Direct(DirectGeneration.GenerateMultiScreenshotTestScript(Descriptions(w.screenshots), TypeName(w.framework)));
      w.(script := Some(g), step := 2, error := None)
  }

  /** Without a lead-form screenshot, the script has one block per
      screenshot, in the chosen framework. */
  lemma GenerateAllBlocks(w: Wizard)
    requires |w.screenshots| > 0 && !AnyListLead(w.screenshots)
    ensures var g := GenerateAll(w).script.value;
      g.Direct? && g.script.Multi? && |g.script.blocks| == |w.screenshots| && g.script.framework == w.framework
  {
  }

  /** A list routed to the lead-form generator has a screenshot the
      one-screenshot button would also route there. */
  lemma ListLeadIsSingleLead(shots: seq<Screenshot>)
    requires AnyListLead(shots)
    ensures exists i :: 0 <= i < |shots| && SingleLead(shots[i].description)
  {
    var i :| 0 <= i < |shots| && ListLead(shots[i].description);
    LeadTests(shots[i].description);
  }

  /** Some screenshot mentions "add lead". */
  predicate AnyAddLead(shots: seq<Screenshot>) {
    exists i :: 0 <= i < |shots| && Mentions(shots[i].description, "add lead")
  }

  /** The emergency button's title: the typed description, else the test
      name, else `Emergency_Test`. */
  function EmergencyTitle(w: Wizard): (r: string)
    ensures r != ""
    ensures w.description != "" ==> r == w.description
    ensures w.description == "" && w.testName != "" ==> r == w.testName
  {
    if w.description != "" then w.description else if w.testName != "" then w.testName else "Emergency_Test"
  }

  /** The emergency button's lead-form test: the typed description
      mentions lead, crm or customer, or a screenshot mentions "add lead". */
  predicate EmergencyLead(w: Wizard) {
    Mentions(w.description, "lead") || Mentions(w.description, "crm") ||
    Mentions(w.description, "customer") || AnyAddLead(w.screenshots)
  }

  /** `generateEmergencyTestCase`: the lead-form or the general emergency
      generator, then the review step, whatever the list holds. */
  function GenerateEmergency(w: Wizard): (r: Wizard)
    ensures r.step == 2 && r.screenshots == w.screenshots
    ensures EmergencyLead(w) ==> r.script == Some(LeadFormScript(w.framework, EmergencyTitle(w)))
    ensures !EmergencyLead(w) ==> r.script == Some(EmergencyScript(w.framework, EmergencyTitle(w)))
  {
    var g := if EmergencyLead(w) then LeadFormScript(w.framework, EmergencyTitle(w)) else EmergencyScript(w.framework, EmergencyTitle(w));
    w.(script := Some(g), step := 2, error := None)
  }

  /** `saveTestScript`: the rendered script under the shared file-name
      rule, or an error when there is none. */
  function Save(w: Wizard, render: Generated -> string): (r: Result<Download, Notice>)
    ensures r.Failure? <==> w.script.None? || render(w.script.value) == ""
    ensures r.Success? ==> r.value == Download(FileName(w.testName, ScriptExtension(w.framework)), render(w.script.value))
  {
    if w.script.None? || render(w.script.value) == "" then Failure(NothingToSave)
    else Success(Download(FileName(w.testName, ScriptExtension(w.framework)), render(w.script.value)))
  }

  /** What the user can do. */
  datatype Event =
    | TypeCount(parsed: Option<int>)
    | TypeDescription(text: string)
    | SetCount
    | PressNext
    | PressBack
    | TakeScreenshot(id: string, dataUrl: string)
    | UploadFile(id: string, mimeType: string, dataUrl: string)
    | RemoveScreenshot(id: string)
    | GenerateFrom(index: nat)
    | GenerateTests
    | GenerateNow

  /** Capture and upload are offered on the capture step only, and only
      while fewer screenshots than asked for are held: the menu holding
      both, and the add card, are disabled once the list is full. */
  predicate CaptureOffered(w: Wizard) {
    w.step == 1 && |w.screenshots| < w.count
  }

  /** One event, taking effect only where the interface offers it: the
      description field, the screenshot cards and the capture menu belong
      to the capture step, "Generate Test Cases" to the review step, and
      "Generate Test Now", Back and Next are always there. The count
      dialog's open state is not modelled: typing and setting a count are
      accepted on any step. */
  function Apply(w: Wizard, e: Event): (r: Wizard)
    ensures (e.TakeScreenshot? || e.UploadFile?) && !CaptureOffered(w) ==> r == w
    ensures (e.TypeDescription? || e.RemoveScreenshot? || e.GenerateFrom?) && w.step != 1 ==> r == w
    ensures e.GenerateTests? && w.step != 2 ==> r == w
    ensures |r.screenshots| > |w.screenshots| ==>
      CaptureOffered(w) && (e.TakeScreenshot? || e.UploadFile?) &&
      |r.screenshots| == |w.screenshots| + 1 && r.screenshots[..|w.screenshots|] == w.screenshots
  {
    match e
    case TypeCount(parsed) => w.(count := ClampCount(parsed))
    case TypeDescription(text) => if w.step == 1 then w.(description := text) else w
    case SetCount => StartCapture(w)
    case PressNext => Next(w)
    case PressBack => Back(w)
    case TakeScreenshot(id, dataUrl) => if CaptureOffered(w) then Capture(w, id, dataUrl) else w
    case UploadFile(id, mimeType, dataUrl) => if CaptureOffered(w) then Upload(w, id, mimeType, dataUrl) else w
    case RemoveScreenshot(id) => if w.step == 1 then Remove(w, id) else w
    case GenerateFrom(i) => if w.step == 1 && i < |w.screenshots| then GenerateSingle(w, w.screenshots[i]) else w
    case GenerateTests => if w.step == 2 then GenerateAll(w) else w
    case GenerateNow => GenerateEmergency(w)
  }

  function Run(w: Wizard, es: seq<Event>): Wizard
    decreases |es|
  {
    if |es| == 0 then w else Apply(Run(w, es[..|es| - 1]), es[|es| - 1])
  }

  /** Every event keeps the step in {0, 1, 2} and the count positive. */
  lemma ApplyValid(w: Wizard, e: Event)
    requires Valid(w)
    ensures Valid(Apply(w, e))
  {
  }

  /** The wizard starts at step 0 asking for three screenshots; whatever
      the user does, the step stays in {0, 1, 2} and the count positive. */
  lemma {:induction false} RunValid(w: Wizard, es: seq<Event>)
    requires Valid(w)
    ensures Valid(Run(w, es))
    decreases |es|
  {
    if |es| > 0 {
      RunValid(w, es[..|es| - 1]);
      ApplyValid(Run(w, es[..|es| - 1]), es[|es| - 1]);
    }
  }

  /** No more screenshots than asked for. Typing a lower count into the
      count dialog and cancelling it breaks this, so it holds only
      between changes of the count. */
  predicate Fits(w: Wizard) {
    |w.screenshots| <= w.count
  }

  /** Every event but typing a count keeps the list within the count. */
  lemma ApplyFits(w: Wizard, e: Event)
    requires Fits(w) && !e.TypeCount?
    ensures Fits(Apply(w, e))
  {
    var r := Apply(w, e);
    if |r.screenshots| > |w.screenshots| {
      assert CaptureOffered(w);
    }
  }

  /** As long as the count is not retyped, the list never grows past it. */
  lemma {:induction false} RunFits(w: Wizard, es: seq<Event>)
    requires Fits(w) && forall i :: 0 <= i < |es| ==> !es[i].TypeCount?
    ensures Fits(Run(w, es))
    decreases |es|
  {
    if |es| > 0 {
      RunFits(w, es[..|es| - 1]);
      ApplyFits(Run(w, es[..|es| - 1]), es[|es| - 1]);
    }
  }
}
