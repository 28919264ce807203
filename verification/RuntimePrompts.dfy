/** Prefixing a run-time prompt to every task of a flow. */
module RuntimePrompts {
  import opened Options
  import opened Texts
  import opened Descriptions

  const TITLE := "## Run-time User Parameters"
  const INTRO :=
    "The user provided these parameters "
    + "when triggering this run:"

  function Header(prompt: string): string {
    TITLE + "\n" + INTRO + "\n" + prompt + "\n\n"
  }

  function PrependRuntimePrompt(text: string, prompt: string): string {
    var body := Strip(text);
    if body == "" then Strip(Header(prompt)) else Header(prompt) + body
  }

  // ------------------------------------------------------------------ the header

  lemma TitlesAreNoMarkers()
    ensures !HasMarker(TITLE) && !HasMarker(INTRO)
  {
    hide Strip, OUTPUT_SUMMARY_MARKER, LEGACY_MARKER, TITLE, INTRO, HasMarker, IsSpace;
    TitleFacts();
    IntroFacts();
    MarkerFacts();
    PlainLine(TITLE);
    PlainLine(INTRO);
  }

  lemma TitleFacts()
    ensures NoNewline(TITLE) && |TITLE| > 3 && TITLE[3] == 'R' && !IsSpace(TITLE[0]) && !IsSpace(TITLE[|TITLE| - 1])
  {
  }

  lemma IntroFacts()
    ensures NoNewline(INTRO) && |INTRO| > 3 && INTRO[3] == ' ' && !IsSpace(INTRO[0]) && !IsSpace(INTRO[|INTRO| - 1])
  {
  }

  lemma MarkerFacts()
    ensures |OUTPUT_SUMMARY_MARKER| > 3 && OUTPUT_SUMMARY_MARKER[3] == 'O'
    ensures |LEGACY_MARKER| > 3 && LEGACY_MARKER[3] != 'R' && LEGACY_MARKER[3] != ' '
  {
  }

  lemma PlainLine(line: string)
    requires NoNewline(line) && Trim(line) && line != OUTPUT_SUMMARY_MARKER && line != LEGACY_MARKER
    ensures !HasMarker(line)
  {
    hide Strip, OUTPUT_SUMMARY_MARKER, LEGACY_MARKER;
    StripTrim(line);
    LinesOfLine(line);
    FirstMarkerUnique([line], 1);
  }

  /** The header is `HeaderStart` and one more newline; its requirement part is the one of the prompt. */
  function HeaderStart(prompt: string): string { TITLE + "\n" + (INTRO + "\n" + (prompt + "\n")) }

  lemma HeaderShape(prompt: string)
    ensures Header(prompt) == HeaderStart(prompt) + "\n"
    ensures HasMarker(HeaderStart(prompt)) <==> HasMarker(prompt)
    ensures SplitDescription(Header(prompt)).requirement == SplitDescription(prompt).requirement
  {
    hide HasMarker, SplitDescription, TITLE, INTRO;
    TitlesAreNoMarkers();
    NewlineIsSpace();
    var inner := prompt + "\n";
    AppendSpace(prompt, "\n");
    HasMarkerConcat(INTRO, inner);
    HasMarkerConcat(TITLE, INTRO + "\n" + inner);
    PlainPrefix(INTRO, inner);
    PlainPrefix(TITLE, INTRO + "\n" + inner);
    AppendSpace(HeaderStart(prompt), "\n");
    assert Header(prompt) == HeaderStart(prompt) + "\n";
  }

  /** Text without a marker line, put in front, leaves the requirement alone. */
  lemma PlainPrefix(a: string, b: string)
    requires !HasMarker(a)
    ensures SplitDescription(a + "\n" + b).requirement == SplitDescription(b).requirement
  {
    hide *;
    var la, lb := Lines(a), Lines(b);
    LinesConcat(a, b);
    FirstOfConcat(la, lb);
    HasMarkerAt(a);
    var k := FirstMarker(lb);
    if k < |lb| { assert (la + lb)[|la| + k + 1..] == lb[k + 1..]; }
    SameTail(a + "\n" + b, |la| + k, b, k);
  }

  // ------------------------------------------------------------------ what a marker line in the prompt does

  lemma TrimmedSurvives(before: string, t: string)
    requires Trim(t) && t != ""
    ensures |Strip(before + t)| >= |t|
  {
    hide IsSpace, Strip;
    var s := before + t;
    var left, right := StripParts(s);
    assert s[|s| - 1] == t[|t| - 1] && s[|before|] == t[0];
  }

  /** After a marker line in front, the whole trimmed text belongs to the requirement. */
  lemma MarkedPrefix(a: string, t: string)
    requires HasMarker(a) && Trim(t) && t != ""
    ensures |OrEmpty(SplitDescription(a + "\n" + t).requirement)| >= |t|
  {
    hide *;
    var la, lt := Lines(a), Lines(t);
    LinesConcat(a, t);
    FirstOfConcat(la, lt);
    HasMarkerAt(a);
    var i := FirstMarker(la);
    SplitAt(a + "\n" + t, i);
    var after := la[i + 1..];
    assert (la + lt)[i + 1..] == after + lt;
    JoinLines(t);
    if after == [] {
      assert after + lt == lt && "" + t == t;
      TrimmedSurvives("", t);
    } else {
      JoinConcat(after, lt);
      TrimmedSurvives(Join(after) + "\n", t);
    }
    OrEmptyOfNonEmpty(Strip(Join(after + lt)));
  }

  lemma OrEmptyOfNonEmpty(t: string)
    ensures OrEmpty(NonEmpty(t)) == t
  {
  }

  lemma RequirementIsShorter(t: string)
    requires t != ""
    ensures |OrEmpty(SplitDescription(t).requirement)| < |t|
  {
    hide HasMarker, SplitDescription;
    if HasMarker(t) { SplitShortens(t); } else { SplitWithoutMarker(t); }
  }

  // ------------------------------------------------------------------ the theorem

  /**
   * A prompt without a marker line keeps the requirement of every task. Over a task with text that is the
   * only way to keep it; a blank task takes the requirement of the prompt.
   */
  lemma PromptKeepsRequirementIff(text: string, prompt: string)
    ensures SplitDescription(PrependRuntimePrompt(text, prompt)).requirement == SplitDescription(text).requirement <==>
      (!HasMarker(prompt) || (Strip(text) == "" && SplitDescription(prompt).requirement == None))
    ensures Strip(text) == "" ==>
      SplitDescription(PrependRuntimePrompt(text, prompt)).requirement == SplitDescription(prompt).requirement
  {
    hide HasMarker, SplitDescription, Header, HeaderStart, Strip, Trim;
    HeaderShape(prompt);
    StripKeepsRequirement(text);
    StripTrim(text);
    var body := Strip(text);
    if body == "" {
      StripKeepsRequirement(Header(prompt));
      BlankHasNoMarker();
      SplitWithoutMarker("");
      if !HasMarker(prompt) { SplitWithoutMarker(prompt); }
    } else if HasMarker(prompt) {
      MarkedPrefix(HeaderStart(prompt), body);
      RequirementIsShorter(body);
    } else {
      PlainPrefix(HeaderStart(prompt), body);
    }
  }

  /** `_inject_runtime_prompt_into_spec` on the task descriptions of the copied spec. */
  method InjectRuntimePrompt(tasks: seq<string>, prompt: Option<string>) returns (copied: seq<string>)
    ensures |copied| == |tasks|
    ensures OrEmpty(prompt) == "" ==> copied == tasks
    ensures OrEmpty(prompt) != "" ==>
      forall i | 0 <= i < |tasks| :: copied[i] == PrependRuntimePrompt(tasks[i], prompt.value)
    ensures !HasMarker(OrEmpty(prompt)) ==>
      forall i | 0 <= i < |tasks| :: SplitDescription(copied[i]).requirement == SplitDescription(tasks[i]).requirement
  {
    hide HasMarker, SplitDescription, PrependRuntimePrompt;
    copied := tasks;
    if prompt == None || prompt.value == "" { return; }
    var k := 0;
    while k < |tasks|
      invariant 0 <= k <= |tasks| == |copied|
      invariant forall i | 0 <= i < k :: copied[i] == PrependRuntimePrompt(tasks[i], prompt.value)
      invariant forall i | k <= i < |tasks| :: copied[i] == tasks[i]
    {
      copied := copied[k := PrependRuntimePrompt(copied[k], prompt.value)];
      k := k + 1;
    }
    forall i | 0 <= i < |tasks| && !HasMarker(prompt.value)
      ensures SplitDescription(copied[i]).requirement == SplitDescription(tasks[i]).requirement
    {
      PromptKeepsRequirementIff(tasks[i], prompt.value);
    }
  }
}
