/** Direct test generation (`directTestGenerationService.ts`): a keyword
    dispatch from a free-text description to one of seven fixed templates,
    and the multi-screenshot script built one numbered block per
    screenshot. Template bodies are opaque; what is modelled is which
    template is chosen, under which name, and the per-block labels, slugs
    and interactions. */
module DirectGeneration {
  import opened Wrappers
  import opened Strs
  import opened TestCaseGen

  datatype Template = Login | Registration | Form | Search | Checkout | Dashboard | Default

  /** Position in the dispatch order: an earlier template wins. */
  function Rank(t: Template): nat {
    match t
    case Login => 0
    case Registration => 1
    case Form => 2
    case Search => 3
    case Checkout => 4
    case Dashboard => 5
    case Default => 6
  }

  /** The two keywords of each template (none for the default). */
  function Keywords(t: Template): (r: seq<string>)
    ensures |r| == if t == Default then 0 else 2
  {
    match t
    case Login => ["login", "sign in"]
    case Registration => ["register", "sign up"]
    case Form => ["form", "input"]
    case Search => ["search", "find"]
    case Checkout => ["cart", "checkout"]
    case Dashboard => ["dashboard", "home"]
    case Default => []
  }

  /** One of the keywords of `t` occurs in the (lower-cased) description. */
  predicate Hit(t: Template, lower: string) {
    t != Default && (Contains(lower, Keywords(t)[0]) || Contains(lower, Keywords(t)[1]))
  }

  /** The caption a template's one-block fallback script shows. */
  function Caption(t: Template): (r: string)
    ensures r != [] && Trimmed(r)
  {
    match t
    case Login => "Login Test"
    case Registration => "Registration Test"
    case Form => "Form Test"
    case Search => "Search Test"
    case Checkout => "Checkout Test"
    case Dashboard => "Dashboard Test"
    case Default => "Default Test"
  }

  /** `testType` as the generators receive it: one of the three names,
      or anything else a caller passes. */
  function TypeNamed(name: string): (r: Option<TestType>)
    ensures r == Some(Playwright) <==> name == "playwright"
    ensures r == Some(Pytest) <==> name == "pytest"
    ensures r == Some(Cypress) <==> name == "cypress"
  {
    if name == "playwright" then Some(Playwright)
    else if name == "pytest" then Some(Pytest)
    else if name == "cypress" then Some(Cypress)
    else None
  }

  /** `description?.trim() || fallback`. */
  function Label(d: Option<string>, fallback: string): (r: string)
    requires fallback != [] && Trimmed(fallback)
    ensures r != [] && Trimmed(r)
    ensures d.Some? && Trim(d.value) != [] ==> r == Trim(d.value)
    ensures (d.None? || Trim(d.value) == []) ==> r == fallback
  {
    if d.Some? && Trim(d.value) != [] then Trim(d.value) else fallback
  }

  /** The cleaned description of a direct request. */
  function CleanDescription(d: Option<string>): (r: string)
    ensures r != [] && Trimmed(r)
  {
    Label(d, "Screenshot Test")
  }

  /** The test name: every character outside `[A-Za-z0-9]` becomes `_`. */
  function TestName(clean: string): string {
    AlnumChars(clean, '_')
  }

  lemma TestNameShape(clean: string)
    ensures |TestName(clean)| == |clean|
    ensures forall i :: 0 <= i < |clean| ==> var c := TestName(clean)[i];
      (IsAlnum(c) || c == '_') && (IsAlnum(clean[i]) ==> c == clean[i])
  {
  }

  /** The if/else-if chain over the lower-cased description. */
  function ChooseTemplate(lower: string): (r: Template)
    ensures r != Default ==> Hit(r, lower)
    ensures forall t :: Rank(t) < Rank(r) ==> !Hit(t, lower)
  {
    if Contains(lower, "login") || Contains(lower, "sign in") then Login
    else if Contains(lower, "register") || Contains(lower, "sign up") then Registration
    else if Contains(lower, "form") || Contains(lower, "input") then Form
    else if Contains(lower, "search") || Contains(lower, "find") then Search
    else if Contains(lower, "cart") || Contains(lower, "checkout") then Checkout
    else if Contains(lower, "dashboard") || Contains(lower, "home") then Dashboard
    else Default
  }

  /** The default template is used exactly when no keyword occurs. */
  lemma DefaultIffNoKeyword(lower: string)
    ensures ChooseTemplate(lower) == Default <==> forall t :: !Hit(t, lower)
  {
    var r := ChooseTemplate(lower);
    if r != Default {
      assert Hit(r, lower);
    }
  }

  /** How a multi-screenshot block exercises the page: blocks at even
      positions fill a field and click a button, odd ones click an
      element and check a result is visible. */
  datatype Interaction = FillAndClick | ClickAndCheck

  /** One `// Step n: heading` block of a multi-screenshot script. */
  datatype Block = Block(number: nat, heading: string, slug: string, titleWord: string, interaction: Interaction)

  /** The heading lower-cased with every character outside `[a-z0-9]`
      turned into `-`: the path visited by the block. */
  function Slug(heading: string): string {
    SlugChars(ToLower(heading), '-')
  }

  /** The block for the screenshot at position `i`. */
  function BlockAt(d: Option<string>, i: nat): (r: Block)
    ensures r.number == i + 1
    ensures r.interaction == (if i % 2 == 0 then FillAndClick else ClickAndCheck)
    ensures r.heading != [] && Trimmed(r.heading)
  {
    var heading := Label(d, "Step " + NatToString(i + 1));
    Block(i + 1, heading, Slug(heading), SplitOn(heading, ' ')[0], if i % 2 == 0 then FillAndClick else ClickAndCheck)
  }

  /** A generated script: a chosen template in a framework, or a
      multi-block script. */
  datatype Script =
    | Single(template: Template, framework: TestType, name: string)
    | Multi(framework: TestType, name: string, blocks: seq<Block>)

  /** `generate*MultiTest`: one block per screenshot, in order. */
  function MultiTest(t: TestType, name: string, ds: seq<Option<string>>): (r: Script)
    ensures r.Multi? && r.framework == t && r.name == name && |r.blocks| == |ds|
  {
    Multi(t, name, seq(|ds|, i requires 0 <= i < |ds| => BlockAt(ds[i], i)))
  }

  /** `generateDirectTestScript`. */
  function GenerateDirectTestScript(description: Option<string>, testType: string): (r: Script)
    ensures var clean := CleanDescription(description);
      r.name == TestName(clean) &&
      (TypeNamed(testType).Some? ==> r == Single(ChooseTemplate(ToLower(clean)), TypeNamed(testType).value, r.name))
  {
    var clean := CleanDescription(description);
    var name := TestName(clean);
    var template := ChooseTemplate(ToLower(clean));
    match TypeNamed(testType)
    case Some(t) => Single(template, t, name)
    case None => MultiTest(Playwright, name, [Some(Caption(template))])
  }

  /** An unknown framework name falls back to a one-block Playwright
      script captioned by the chosen template. */
  lemma UnknownTypeFallback(description: Option<string>, testType: string)
    requires TypeNamed(testType).None?
    ensures var r := GenerateDirectTestScript(description, testType);
      r.Multi? && r.framework == Playwright && |r.blocks| == 1 &&
      r.blocks[0].heading == Caption(ChooseTemplate(ToLower(CleanDescription(description)))) &&
      r.blocks[0].interaction == FillAndClick
  {
    var clean := CleanDescription(description);
    OneBlock(TestName(clean), Caption(ChooseTemplate(ToLower(clean))));
  }

  /** A one-screenshot script whose description is already trimmed shows
      that description. */
  lemma OneBlock(name: string, c: string)
    requires c != [] && Trimmed(c)
    ensures var r := MultiTest(Playwright, name, [Some(c)]);
      |r.blocks| == 1 && r.blocks[0].heading == c && r.blocks[0].interaction == FillAndClick
  {
    TrimNoop(c);
  }

  const MultiName := "Multi_Screenshot_Test"

  /** `generateMultiScreenshotTestScript`: the fixed name, the chosen
      framework (Playwright for an unknown one). */
  function GenerateMultiScreenshotTestScript(ds: seq<Option<string>>, testType: string): (r: Script)
    ensures r.Multi? && r.name == MultiName && |r.blocks| == |ds|
    ensures r.framework == (if TypeNamed(testType).Some? then TypeNamed(testType).value else Playwright)
  {
    MultiTest(if TypeNamed(testType).Some? then TypeNamed(testType).value else Playwright, MultiName, ds)
  }

  /** Block `i` of a multi-screenshot script is numbered `i + 1`, shows the
      trimmed description or `Step i+1`, and alternates its interaction. */
  lemma MultiBlocks(ds: seq<Option<string>>, testType: string, i: nat)
    requires i < |ds|
    ensures var b := GenerateMultiScreenshotTestScript(ds, testType).blocks[i];
      b.number == i + 1 &&
      b.heading == (if ds[i].Some? && Trim(ds[i].value) != [] then Trim(ds[i].value) else "Step " + NatToString(i + 1)) &&
      (b.interaction == FillAndClick <==> i % 2 == 0)
  {
  }

  /** A slug keeps the heading's length and uses only `[a-z0-9-]`; lower
      letters and digits of the heading stay in place. */
  lemma SlugShape(heading: string)
    ensures |Slug(heading)| == |heading|
    ensures forall i :: 0 <= i < |heading| ==> var c := Slug(heading)[i];
      (IsLowerAlnum(c) || c == '-') && (IsLowerAlnum(heading[i]) ==> c == heading[i])
  {
    assert forall i :: 0 <= i < |heading| ==> ToLower(heading)[i] == LowerChar(heading[i]);
  }
}
