/** The texts that the codecs produce, spelled out. */
module WrittenTexts {
  import opened Options
  import opened Texts
  import opened Tags
  import D = Descriptions
  import P = RuntimePrompts
  import C = CustomSection

  /** `str.isspace`, character by character. */
  const SPACES :=
    "\t\n\U{000B}\U{000C}\r\U{001C}\U{001D}\U{001E}\U{001F} \U{0085}\U{00A0}\U{1680}"
    + "\U{2000}\U{2001}\U{2002}\U{2003}\U{2004}\U{2005}\U{2006}\U{2007}\U{2008}\U{2009}\U{200A}"
    + "\U{2028}\U{2029}\U{202F}\U{205F}\U{3000}"

  lemma SpacesAre(c: char)
    ensures IsSpace(c) <==> c in SPACES
  {
    var s := SPACES;
    if IsSpace(c) {
      var i: int :=
        if c <= '\r' then (c - '\t') as int
        else if c <= ' ' then (c - '\U{001C}') as int + 5
        else if c == '\U{0085}' then 10 else if c == '\U{00A0}' then 11 else if c == '\U{1680}' then 12
        else if c <= '\U{200A}' then (c - '\U{2000}') as int + 13
        else if c <= '\U{2029}' then (c - '\U{2028}') as int + 24
        else if c == '\U{202F}' then 26 else if c == '\U{205F}' then 27 else 28;
      assert s[i] == c;
    }
  }

  /** `str.strip` finds the part without outer whitespace: there is one, and no other. */
  lemma StripIff(s: string, core: string)
    ensures Strip(s) == core <==>
      exists left, right :: s == left + core + right && AllSpace(left) && AllSpace(right) && Trim(core)
  {
    hide *;
    if Strip(s) == core { var left, right := StripParts(s); }
    if left, right :| s == left + core + right && AllSpace(left) && AllSpace(right) && Trim(core) {
      StripUnique(s, left, core, right);
    }
  }

  // ------------------------------------------------------------------ the two fields of a description

  predicate IsMarkerLine(line: string) {
    Strip(line) in {"## Output Summary Requirement", "## \U{8F93}\U{51FA}\U{6458}\U{8981}\U{8981}\U{6C42}"}
  }

  predicate AreLines(ls: seq<string>) { forall i | 0 <= i < |ls| :: NoNewline(ls[i]) }

  /** Without a marker line the text is the body. */
  lemma SplitWithoutMarkerLine(ls: seq<string>)
    requires ls != [] && AreLines(ls) && forall i | 0 <= i < |ls| :: !IsMarkerLine(ls[i])
    ensures D.SplitDescription(Join(ls)) == D.Fields(Join(ls), None)
  {
    hide Strip, Join, Lines, D.FirstMarker, D.SplitDescription, NoNewline;
    LinesJoin(ls);
    D.SplitIsFieldsOf(Join(ls));
    D.FirstMarkerUnique(ls, |ls|);
  }

  /** The first marker line separates the body, stripped on the right, from the requirement, stripped on both sides. */
  lemma SplitAtMarkerLine(a: seq<string>, m: string, r: seq<string>)
    requires AreLines(a) && NoNewline(m) && AreLines(r)
    requires IsMarkerLine(m) && forall i | 0 <= i < |a| :: !IsMarkerLine(a[i])
    ensures D.SplitDescription(Join(a + [m] + r))
      == D.Fields(RStrip(Join(a)), if Strip(Join(r)) == "" then None else Some(Strip(Join(r))))
  {
    hide Strip, RStrip, Join, Lines, D.FirstMarker, D.SplitDescription, NoNewline;
    var ls := a + [m] + r;
    LinesJoin(ls);
    D.FirstMarkerUnique(ls, |a|);
    D.SplitAt(Join(ls), |a|);
    assert ls[..|a|] == a && ls[|a| + 1..] == r;
  }

  /** What is stored for two fields: both stripped, with a marker line between them; a blank field leaves no trace. */
  lemma MergedText(body: string, requirement: string)
    ensures var b, q, marker := RStrip(body), Strip(requirement), "## Output Summary Requirement";
      && (q == "" ==> D.MergeDescription(body, Some(requirement)) == b)
      && (q != "" && b == "" ==> D.MergeDescription(body, Some(requirement)) == marker + "\n" + q)
      && (q != "" && b != "" ==> D.MergeDescription(body, Some(requirement)) == b + "\n\n" + marker + "\n" + q)
      && D.MergeDescription(body, None) == b
  {
    hide Strip, RStrip;
    BlankStrip();
  }

  lemma BlankStrip()
    ensures Strip("") == ""
  {
    var left, right := StripParts("");
  }

  // ------------------------------------------------------------------ the run-time prompt

  function PromptHead(): string {
    "## Run-time User Parameters" + "\n"
    + ("The user provided these parameters " + "when triggering this run:") + "\n"
  }

  /** The prompt stands under its heading in front of the stripped text; of a blank text only these two are left. */
  lemma PromptedText(text: string, prompt: string)
    ensures var head := PromptHead();
      && (Strip(text) != "" ==> P.PrependRuntimePrompt(text, prompt) == head + prompt + "\n\n" + Strip(text))
      && (Strip(text) == "" ==> P.PrependRuntimePrompt(text, prompt) == RStrip(head + prompt))
  {
    hide Strip, RStrip, IsSpace, AllSpace, Trim;
    var head := PromptHead();
    assert P.TITLE + "\n" + P.INTRO + "\n" == head;
    var header := P.Header(prompt);
    assert header == head + prompt + "\n\n";
    if Strip(text) == "" { HeaderStrip(head, prompt, header); }
  }

  lemma HeaderStrip(head: string, prompt: string, header: string)
    requires head != "" && head[0] == '#' && header == head + prompt + "\n\n"
    ensures Strip(header) == RStrip(head + prompt)
  {
    hide IsSpace;
    var core := RStrip(head + prompt);
    var pad := RStripPad(head + prompt);
    HashFacts();
    NotAllSpace(head + prompt, core, pad);
    var right := pad + "\n\n";
    assert header == "" + core + right;
    assert AllSpace(right) by { SpaceConcat(pad, "\n\n"); }
    assert core[0] == '#';
    StripUnique(header, "", core, right);
  }

  lemma HashFacts()
    ensures !IsSpace('#') && AllSpace("\n\n") && AllSpace("")
  {
  }

  lemma NotAllSpace(s: string, core: string, pad: string)
    requires s == core + pad && AllSpace(pad) && s != "" && !IsSpace(s[0])
    ensures core != "" && core[0] == s[0]
  {
  }

  // ------------------------------------------------------------------ the section of AGENTS.md

  /** A tag is the name in a comment, with any whitespace on either side and nothing else. */
  lemma TagIff(t: string, name: string)
    requires Trim(name)
    ensures IsTag(t, name) <==>
      exists left, right :: AllSpace(left) && AllSpace(right) && t == "<!--" + left + name + right + "-->"
  {
    hide IsSpace, AllSpace, Strip, Trim;
    if IsTag(t, name) {
      var left, right := StripParts(t[4..|t| - 3]);
      assert t == t[..4] + t[4..|t| - 3] + t[|t| - 3..];
      assert t == "<!--" + left + name + right + "-->";
    }
    if left, right :| AllSpace(left) && AllSpace(right) && t == "<!--" + left + name + right + "-->" {
      var mid := left + name + right;
      assert t == "<!--" + mid + "-->";
      assert t[..4] == "<!--" && t[|t| - 3..] == "-->" && t[4..|t| - 3] == mid;
      StripUnique(mid, left, name, right);
    }
  }

  /** The two markers as they are written. */
  function StartMarker(): string { "<!-- " + "AGENTS_USER_CUSTOM_SECTION_START" + " -->" }

  function EndMarker(): string { "<!-- " + "AGENTS_USER_CUSTOM_SECTION_END" + " -->" }

  lemma MarkersAre()
    ensures C.START_TAG == StartMarker() && C.END_TAG == EndMarker()
  {
  }

  /** The first start tag and the first end tag after it, in any spelling, with what is before, between and after. */
  ghost predicate Section(raw: string, before: string, st: string, inner: string, en: string, after: string) {
    && raw == before + st + inner + en + after
    && IsTag(st, "AGENTS_USER_CUSTOM_SECTION_START") && NoTag(before, "AGENTS_USER_CUSTOM_SECTION_START")
    && IsTag(en, "AGENTS_USER_CUSTOM_SECTION_END") && NoTag(inner, "AGENTS_USER_CUSTOM_SECTION_END")
  }

  /** Whoever replaces the section writes the plain markers, the stripped content between them, and leaves the rest. */
  lemma ReplacedText(raw: string, before: string, st: string, inner: string, en: string, after: string, custom: string)
    requires Section(raw, before, st, inner, en, after)
    ensures C.Extract(raw) == Strip(inner)
    ensures C.Replace(raw, custom) == C.Ok(
      before + StartMarker() + "\n" + Strip(custom) + "\n"
      + EndMarker() + after)
  {
    hide IsTag, NoTag, Strip, C.Parse, C.START_TAG, C.END_TAG;
    MarkersAre();
    C.ParseTagged(before, st, inner, en, after);
  }

  /** Every text has such a section, or reading finds nothing and replacing is refused. */
  lemma SectionOrMissing(raw: string) returns (before: string, st: string, inner: string, en: string, after: string)
    ensures Section(raw, before, st, inner, en, after)
      || (C.Parse(raw) == None && C.Extract(raw) == "" && forall custom :: C.Replace(raw, custom) == C.SectionMissing)
  {
    hide IsTag, NoTag, Strip, Find, NameOk, C.START_TAG, C.END_TAG;
    before, st, inner, en, after := "", "", "", "", "";
    C.TagsAreTags();
    FindIsLeftmost(raw, C.START);
    if Find(raw, C.START).Some? {
      var s := Find(raw, C.START).value;
      var rest := raw[s.end..];
      FindIsLeftmost(rest, C.END);
      if Find(rest, C.END).Some? {
        var e := Find(rest, C.END).value;
        before, st := raw[..s.start], raw[s.start..s.end];
        inner, en, after := rest[..e.start], rest[e.start..e.end], rest[e.end..];
        assert raw == before + st + rest && rest == inner + en + after;
      }
    }
  }

  /** What stands in the section after a redeployment that finds `existing`. */
  ghost predicate Carries(existing: string, body: string) {
    var blank := "## AGENTS_USER_CUSTOM_SECTION\n\n" + "- Add user-defined personalized rules here.\n"
      + "- Re-deploy and upgrade only update shared rules outside this section.";
    var legacy := "## AGENTS_USER_CUSTOM_SECTION\n\n"
      + "The content below comes from a pre-marker AGENTS.md and was auto-preserved:\n\n";
    && (forall before, st, inner, en, after | Section(existing, before, st, inner, en, after) ::
          body == if Strip(inner) != "" then Strip(inner) else blank)
    && ((forall before, st, inner, en, after :: !Section(existing, before, st, inner, en, after)) ==>
          body == if Strip(existing) != "" then legacy + Strip(existing) else blank)
  }

  /** The new file: the stripped common rules, and between the markers the old section, the old file or the default. */
  lemma MergedAgents(commonRules: string, existing: string)
    ensures C.MergeAgents(commonRules, existing) == None <==> Strip(commonRules) == ""
    ensures Carries(existing, C.CarriedBody(existing))
    ensures Strip(commonRules) != "" ==> C.MergeAgents(commonRules, existing) == Some(
      Strip(commonRules) + "\n\n" + StartMarker() + "\n" + C.CarriedBody(existing) + "\n"
      + EndMarker() + "\n")
  {
    hide Strip, C.CarriedBody, C.START_TAG, C.END_TAG, Carries;
    MarkersAre();
    CarriedIs(existing);
  }

  lemma CarriedIs(existing: string)
    ensures Carries(existing, C.CarriedBody(existing))
  {
    hide Strip, C.Parse, C.START_TAG, C.END_TAG, IsTag, NoTag, Find;
    forall before, st, inner, en, after | Section(existing, before, st, inner, en, after)
      ensures C.Parse(existing) == Some(C.Doc(before, inner, after))
    {
      C.ParseTagged(before, st, inner, en, after);
    }
    var before, st, inner, en, after := SectionOrMissing(existing);
    LegacyIsTrim(existing);
  }

  /** Neither the default text nor the introduction needs stripping. */
  lemma LegacyIsTrim(existing: string)
    ensures Strip(C.LegacyBody(existing)) == C.LegacyBody(existing) != ""
    ensures C.DEFAULT_BODY != ""
  {
    hide IsSpace, Strip, Trim;
    C.DefaultBodyIsTrim();
    StripTrim(C.DEFAULT_BODY);
    if Strip(existing) != "" {
      StripTrim(existing);
      IntroKeepsTrim(Strip(existing));
      StripTrim(C.LEGACY_INTRO + Strip(existing));
    }
  }

  lemma IntroKeepsTrim(core: string)
    requires Trim(core) && core != ""
    ensures Trim(C.LEGACY_INTRO + core)
  {
    var s := C.LEGACY_INTRO + core;
    assert s[0] == C.LEGACY_INTRO[0] == '#';
    assert s[|s| - 1] == core[|core| - 1];
  }
}
