/** The screenshot analysis service (`screenshotAnalysisService.ts`):
    keyword groups of a description select fixed action blocks, stamped
    with consecutive timestamps after an opening navigation; a multi-
    screenshot analysis chains the per-screenshot results in time. */
module ScreenshotAnalysis {
  import opened Wrappers
  import opened Strs
  import opened Actions
  import opened Seqs

  /** An action of a fixed block before it is stamped. */
  datatype Template = T(kind: ActionKind, element: Option<string>, value: Option<string>, x: int, y: int)

  /** The keyword groups, tested in this order. */
  datatype Scenario = Login | Register | Form | Dashboard | Menu | Search | Product | Checkout | Settings

  const Scenarios: seq<Scenario> := [Login, Register, Form, Dashboard, Menu, Search, Product, Checkout, Settings]

  /** The opening action: a navigation at time 0 and position (0, 0). */
  const Opening: DetectedAction := DetectedAction(Navigation, 0, Some(0), Some(0), None, None, None)

  /** The description used when the given one is empty or blank. */
  const Fallback: string := "default comprehensive test"

  function Keywords(g: Scenario): seq<string> {
    match g
    case Login => ["login", "sign in", "signin", "log in"]
    case Register => ["register", "sign up", "signup", "registration"]
    case Form => ["form", "input", "field", "submit"]
    case Dashboard => ["dashboard", "home", "main", "overview"]
    case Menu => ["menu", "navigation", "nav", "header"]
    case Search => ["search", "find", "filter"]
    case Product => ["product", "item", "detail", "view"]
    case Checkout => ["checkout", "cart", "basket", "payment"]
    case Settings => ["settings", "profile", "account", "preferences"]
  }

  function Block(g: Scenario): (r: seq<Template>)
    ensures |r| >= 3
  {
    match g
    case Login => [
      T(Input, Some("input#username"), Some("test@example.com"), 400, 200),
      T(Input, Some("input#password"), Some("password123"), 400, 250),
      T(Click, Some("button.login-btn"), None, 400, 300)]
    case Register => [
      T(Input, Some("input#fullname"), Some("Test User"), 400, 150),
      T(Input, Some("input#email"), Some("test@example.com"), 400, 200),
      T(Input, Some("input#password"), Some("SecurePassword123"), 400, 250),
      T(Input, Some("input#confirm-password"), Some("SecurePassword123"), 400, 300),
      T(Click, Some("input[type=\"checkbox\"]"), None, 350, 350),
      T(Click, Some("button.register-btn"), None, 400, 400)]
    case Form => [
      T(Input, Some("input.form-control"), Some("Test Input"), 400, 200),
      T(Input, Some("textarea.form-control"), Some("This is a longer text input for testing purposes"), 400, 250),
      T(Click, Some("select.form-control"), None, 400, 300),
      T(Click, Some("option[value=\"option2\"]"), None, 400, 320),
      T(Click, Some("button.submit-btn"), None, 400, 350)]
    case Dashboard => [
      T(Click, Some(".dashboard-item"), None, 300, 200),
      T(Scroll, None, None, 0, 300),
      T(Hover, Some(".chart-element"), None, 500, 350),
      T(Click, Some(".action-button"), None, 500, 400)]
    case Menu => [
      T(Click, Some(".menu-item"), None, 200, 100),
      T(Hover, Some(".submenu"), None, 200, 150),
      T(Click, Some(".submenu-item"), None, 250, 150),
      T(Click, Some(".hamburger-menu"), None, 50, 50)]
    case Search => [
      T(Input, Some("input.search-box"), Some("search query"), 500, 100),
      T(Click, Some("button.search-btn"), None, 600, 100),
      T(Click, Some(".search-result-item"), None, 500, 200),
      T(Click, Some(".filter-dropdown"), None, 400, 100),
      T(Click, Some(".filter-option"), None, 400, 150)]
    case Product => [
      T(Click, Some(".product-image"), None, 300, 200),
      T(Click, Some(".product-variant"), None, 350, 250),
      T(Click, Some(".quantity-increase"), None, 400, 300),
      T(Click, Some("button.add-to-cart"), None, 450, 350)]
    case Checkout => [
      T(Click, Some(".cart-item"), None, 300, 200),
      T(Input, Some("input#coupon"), Some("DISCOUNT20"), 400, 250),
      T(Click, Some("button.apply-coupon"), None, 500, 250),
      T(Click, Some("button.checkout"), None, 450, 350),
      T(Input, Some("input#card-number"), Some("4111111111111111"), 400, 400),
      T(Input, Some("input#card-expiry"), Some("12/25"), 400, 450),
      T(Input, Some("input#card-cvv"), Some("123"), 400, 500),
      T(Click, Some("button.pay-now"), None, 450, 550)]
    case Settings => [
      T(Click, Some(".profile-tab"), None, 200, 150),
      T(Input, Some("input#display-name"), Some("New Display Name"), 400, 200),
      T(Click, Some(".security-tab"), None, 200, 250),
      T(Input, Some("input#current-password"), Some("CurrentPassword123"), 400, 300),
      T(Input, Some("input#new-password"), Some("NewPassword456"), 400, 350),
      T(Input, Some("input#confirm-new-password"), Some("NewPassword456"), 400, 400),
      T(Click, Some("button.save-changes"), None, 450, 450)]
  }

  const DefaultBlock: seq<Template> := [
      T(Click, Some(".primary-button"), None, 400, 300),
      T(Input, Some("input.form-field"), Some("Default Test Value"), 400, 200),
      T(Click, Some(".secondary-button"), None, 500, 300)]

  /** Some keyword of `kws` occurs in `s`. */
  predicate AnyIn(s: string, kws: seq<string>) {
    exists k :: 0 <= k < |kws| && Contains(s, kws[k])
  }

  predicate Matches(lower: string, g: Scenario) {
    AnyIn(lower, Keywords(g))
  }

  /** The keyword test of a lower-cased description, as a function of the
      group. */
  function Matcher(lower: string): Scenario -> bool {
    g => Matches(lower, g)
  }

  /** The templates of the groups among `gs` that `on` accepts, in order. */
  function Selected(on: Scenario -> bool, gs: seq<Scenario>): seq<Template> {
    if |gs| == 0 then []
    else Selected(on, gs[..|gs| - 1]) + (if on(gs[|gs| - 1]) then Block(gs[|gs| - 1]) else [])
  }

  /** The templates stamped with consecutive timestamps from `from`. */
  function Stamp(ts: seq<Template>, from: int): (r: seq<DetectedAction>)
    ensures |r| == |ts|
    ensures forall i :: 0 <= i < |r| ==> (r[i].timestamp == from + i && r[i].kind == ts[i].kind
                                         && r[i].x == Some(ts[i].x) && r[i].y == Some(ts[i].y)
                                         && r[i].element == ts[i].element && r[i].value == ts[i].value)
  {
    seq(|ts|, i requires 0 <= i < |ts| => DetectedAction(ts[i].kind, from + i, Some(ts[i].x), Some(ts[i].y), ts[i].element, ts[i].value, None))
  }

  lemma StampAppend(a: seq<Template>, b: seq<Template>, from: int)
    ensures Stamp(a + b, from) == Stamp(a, from) + Stamp(b, from + |a|)
  {
  }

  /** The description the keywords are looked for in. */
  function Effective(description: string): string {
    if Trim(description) == "" then Fallback else description
  }

  /** The templates a description selects: the matching blocks, or the
      default block when none matches. */
  function Templates(description: string): (r: seq<Template>)
    ensures |r| >= 3
  {
    var sel := Selected(Matcher(ToLower(Effective(description))), Scenarios);
    SelectedSize(Matcher(ToLower(Effective(description))), Scenarios);
    if |sel| == 0 then DefaultBlock else sel
  }

  /** The selected templates are none or at least one whole block. */
  lemma {:induction false} SelectedSize(on: Scenario -> bool, gs: seq<Scenario>)
    ensures |Selected(on, gs)| == 0 || |Selected(on, gs)| >= 3
    decreases |gs|
  {
    if |gs| > 0 {
      SelectedSize(on, gs[..|gs| - 1]);
    }
  }

  /** The actions of a description, declaratively: the opening navigation,
      then the selected templates stamped 1, 2, ... */
  function ActionsFor(description: string): seq<DetectedAction> {
    [Opening] + Stamp(Templates(description), 1)
  }

  /** `generateActionsFromDescription`: the opening action, then one
      `push` per matching group with a running `timestamp++` counter, then
      the default block when nothing was pushed. */
  method GenerateActionsFromDescription(description: string) returns (actions: seq<DetectedAction>)
    ensures actions == ActionsFor(description)
    ensures |actions| >= 4 && actions[0] == Opening
    ensures forall i :: 0 <= i < |actions| ==> actions[i].timestamp == i
  {
    var lower := ToLower(Effective(description));
    var timestamp;
    actions, timestamp := PushMatching(lower);
    if |actions| <= 1 {
      actions, timestamp := Push(actions, DefaultBlock, timestamp);
    }
    ActionsTimeline(description);
  }

  /** The loop over the keyword groups: after the opening action, each
      matching group's block with running timestamps. */
  method PushMatching(lower: string) returns (actions: seq<DetectedAction>, timestamp: int)
    ensures actions == [Opening] + Stamp(Selected(Matcher(lower), Scenarios), 1)
    ensures timestamp == |actions|
  {
    actions := [Opening];
    timestamp := 1;
    ghost var sel: seq<Template> := [];
    ghost var on := Matcher(lower);
    for k := 0 to |Scenarios|
      invariant sel == Selected(on, Scenarios[..k])
      invariant timestamp == |actions| && actions == [Opening] + Stamp(sel, 1)
    {
      SelectedStep(on, Scenarios, k);
      if Matches(lower, Scenarios[k]) {
        var block := Block(Scenarios[k]);
        actions, timestamp := Push(actions, block, timestamp);
        StampAppend(sel, block, 1);
        Associative([Opening], Stamp(sel, 1), Stamp(block, 1 + |sel|));
        sel := sel + block;
      }
    }
    assert Scenarios[..|Scenarios|] == Scenarios;
  }

  /** One more group either appends its block or nothing. */
  lemma SelectedStep(on: Scenario -> bool, gs: seq<Scenario>, k: nat)
    requires k < |gs|
    ensures Selected(on, gs[..k + 1]) == Selected(on, gs[..k]) + (if on(gs[k]) then Block(gs[k]) else [])
  {
    assert gs[..k + 1][..k] == gs[..k];
  }

  /** `actions.push(...)` of a block, each element taking `timestamp++`. */
  method Push(actions: seq<DetectedAction>, block: seq<Template>, timestamp: int) returns (r: seq<DetectedAction>, next: int)
    requires timestamp == |actions|
    ensures r == actions + Stamp(block, timestamp) && next == |r|
  {
    r, next := actions, timestamp;
    for j := 0 to |block|
      invariant next == timestamp + j && r == actions + Stamp(block[..j], timestamp)
    {
      r := r + [DetectedAction(block[j].kind, next, Some(block[j].x), Some(block[j].y), block[j].element, block[j].value, None)];
      next := next + 1;
      assert block[..j + 1] == block[..j] + [block[j]];
    }
    assert block[..|block|] == block;
  }

  lemma DefaultBlockSize()
    ensures |DefaultBlock| == 3
  {
  }

  /** Every block of the accepted groups is pushed, in group order, and
      nothing else: splitting the group list splits the templates. */
  lemma {:induction false} SelectedSplit(on: Scenario -> bool, gs: seq<Scenario>, hs: seq<Scenario>)
    ensures Selected(on, gs + hs) == Selected(on, gs) + Selected(on, hs)
    decreases |hs|
  {
    if |hs| == 0 {
      assert gs + hs == gs;
    } else {
      var last := hs[|hs| - 1];
      var extra := if on(last) then Block(last) else [];
      assert (gs + hs)[..|gs + hs| - 1] == gs + hs[..|hs| - 1];
      SelectedSplit(on, gs, hs[..|hs| - 1]);
      Associative(Selected(on, gs), Selected(on, hs[..|hs| - 1]), extra);
    }
  }

  /** A single group contributes its block exactly when it is accepted. */
  lemma SelectedOne(on: Scenario -> bool, g: Scenario)
    ensures Selected(on, [g]) == if on(g) then Block(g) else []
  {
    assert [g][..0] == [];
  }

  /** The selection is empty exactly when no group among `gs` is accepted. */
  lemma {:induction false} SelectedEmpty(on: Scenario -> bool, gs: seq<Scenario>)
    ensures |Selected(on, gs)| == 0 <==> forall k :: 0 <= k < |gs| ==> !on(gs[k])
    decreases |gs|
  {
    if |gs| > 0 {
      var init := gs[..|gs| - 1];
      SelectedEmpty(on, init);
      assert forall k :: 0 <= k < |init| ==> init[k] == gs[k];
    }
  }

  /** With no matching group the three default actions follow the
      opening; with some match, exactly the matching blocks do. */
  lemma DefaultExactlyWhenNoMatch(description: string)
    ensures var lower := ToLower(Effective(description));
      if forall k :: 0 <= k < |Scenarios| ==> !Matches(lower, Scenarios[k])
      then ActionsFor(description) == [Opening] + Stamp(DefaultBlock, 1) && |ActionsFor(description)| == 4
      else ActionsFor(description) == [Opening] + Stamp(Selected(Matcher(lower), Scenarios), 1)
  {
    var lower := ToLower(Effective(description));
    SelectedEmpty(Matcher(lower), Scenarios);
    assert forall k :: 0 <= k < |Scenarios| ==> Matcher(lower)(Scenarios[k]) == Matches(lower, Scenarios[k]);
  }

  /** An empty or blank description is analysed like the fallback
      description. */
  lemma BlankDescription(description: string)
    requires Trim(description) == ""
    ensures ActionsFor(description) == ActionsFor(Fallback)
  {
    FallbackEffective(Fallback);
    SameEffective(description, Fallback);
  }

  /** The fallback description is not blank, so it is used as it is. */
  lemma FallbackEffective(f: string)
    requires f == Fallback
    ensures Effective(f) == f
  {
    assert !IsSpace(f[0]);
  }

  /** The analysis depends on the description only through the text the
      keywords are looked for in. */
  lemma SameEffective(a: string, b: string)
    requires Effective(a) == Effective(b)
    ensures ActionsFor(a) == ActionsFor(b)
  {
  }

  /** `analyzeScreenshot`: two seconds per action on a 1280x720 frame. */
  function AnalyzeScreenshot(description: string): (r: AnalysisResult)
    ensures r.duration == 2 * |r.actions| && r.width == 1280 && r.height == 720
    ensures r.actions == ActionsFor(description)
  {
    AnalysisResult(ActionsFor(description), |ActionsFor(description)| * 2, 1280, 720)
  }

  /** The actions shifted later by `offset`. */
  function Shift(acts: seq<DetectedAction>, offset: int): (r: seq<DetectedAction>)
    ensures |r| == |acts|
    ensures forall i :: 0 <= i < |r| ==> r[i] == acts[i].(timestamp := acts[i].timestamp + offset)
  {
    seq(|acts|, i requires 0 <= i < |acts| => acts[i].(timestamp := acts[i].timestamp + offset))
  }

  /** The sum of the durations of the screenshots' analyses. */
  function Elapsed(descriptions: seq<string>): int {
    if |descriptions| == 0 then 0
    else Elapsed(descriptions[..|descriptions| - 1]) + AnalyzeScreenshot(descriptions[|descriptions| - 1]).duration
  }

  /** The combined actions: each screenshot's actions shifted by the
      durations before it. */
  function Combined(descriptions: seq<string>): seq<DetectedAction> {
    if |descriptions| == 0 then []
    else
      var init := descriptions[..|descriptions| - 1];
      Combined(init) + Shift(AnalyzeScreenshot(descriptions[|descriptions| - 1]).actions, Elapsed(init))
  }

  /** `analyzeMultipleScreenshots`. */
  method AnalyzeMultipleScreenshots(descriptions: seq<string>) returns (r: AnalysisResult)
    ensures r.actions == Combined(descriptions) && r.duration == Elapsed(descriptions)
    ensures r.duration == 2 * |r.actions| && r.width == 1280 && r.height == 720
    ensures Increasing(r.actions)
    ensures forall i :: 0 <= i < |r.actions| ==> 0 <= r.actions[i].timestamp < r.duration
  {
    var all: seq<DetectedAction> := [];
    var timestamp := 0;
    for k := 0 to |descriptions|
      invariant all == Combined(descriptions[..k]) && timestamp == Elapsed(descriptions[..k])
    {
      var result := AnalyzeScreenshot(descriptions[k]);
      var adjusted := Shift(result.actions, timestamp);
      CombinedStep(descriptions, k);
      all := all + adjusted;
      timestamp := timestamp + result.duration;
    }
    assert descriptions[..|descriptions|] == descriptions;
    CombinedTimeline(descriptions);
    r := AnalysisResult(all, timestamp, 1280, 720);
  }

  /** One more screenshot appends its shifted actions and its duration. */
  lemma CombinedStep(descriptions: seq<string>, k: nat)
    requires k < |descriptions|
    ensures var p, q := descriptions[..k], descriptions[..k + 1];
      var result := AnalyzeScreenshot(descriptions[k]);
      Combined(q) == Combined(p) + Shift(result.actions, Elapsed(p)) && Elapsed(q) == Elapsed(p) + result.duration
  {
    assert descriptions[..k + 1][..k] == descriptions[..k];
  }

  /** Along the combined list timestamps strictly increase and stay below
      the total duration, which is two seconds per action. */
  lemma {:induction false} CombinedTimeline(descriptions: seq<string>)
    ensures Elapsed(descriptions) == 2 * |Combined(descriptions)|
    ensures Increasing(Combined(descriptions))
    ensures forall i :: 0 <= i < |Combined(descriptions)| ==> 0 <= Combined(descriptions)[i].timestamp < Elapsed(descriptions)
    decreases |descriptions|
  {
    if |descriptions| > 0 {
      var init := descriptions[..|descriptions| - 1];
      var last := descriptions[|descriptions| - 1];
      CombinedTimeline(init);
      ActionsTimeline(last);
      AppendShifted(Combined(init), ActionsFor(last), Elapsed(init));
    }
  }

  /** Appending actions stamped 0, 1, ... shifted past every earlier
      timestamp keeps the timeline increasing and bounded. */
  lemma AppendShifted(before: seq<DetectedAction>, acts: seq<DetectedAction>, t: int)
    requires Increasing(before) && t == 2 * |before|
    requires forall i :: 0 <= i < |before| ==> 0 <= before[i].timestamp < t
    requires forall i :: 0 <= i < |acts| ==> acts[i].timestamp == i
    ensures var all := before + Shift(acts, t);
      Increasing(all) && (forall i :: 0 <= i < |all| ==> 0 <= all[i].timestamp < t + 2 * |acts|)
  {
    var shifted := Shift(acts, t);
    var all := before + shifted;
    forall i, j | 0 <= i < j < |all|
      ensures all[i].timestamp < all[j].timestamp
    {
      if j < |before| {
      } else if i < |before| {
        assert all[j] == shifted[j - |before|];
      } else {
        assert all[i] == shifted[i - |before|] && all[j] == shifted[j - |before|];
      }
    }
    forall i | 0 <= i < |all|
      ensures 0 <= all[i].timestamp < t + 2 * |acts|
    {
      if i >= |before| {
        assert all[i] == shifted[i - |before|];
      }
    }
  }

  /** One analysis stamps its actions 0, 1, 2, ... */
  lemma ActionsTimeline(description: string)
    ensures forall i :: 0 <= i < |ActionsFor(description)| ==> ActionsFor(description)[i].timestamp == i
  {
  }
}
