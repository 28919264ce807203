/** The user-owned section of AGENTS.md: reading it, replacing it, and carrying it over to new common rules. */
module CustomSection {
  import opened Options
  import opened Texts
  import opened Tags

  const START := "AGENTS_USER_CUSTOM_SECTION_START"
  const END := "AGENTS_USER_CUSTOM_SECTION_END"
  const START_TAG := "<!-- " + START + " -->"
  const END_TAG := "<!-- " + END + " -->"

  datatype Result = Ok(text: string) | SectionMissing

  /** A document with a section: the text before the start tag, inside, and after the end tag. */
  datatype Doc = Doc(before: string, inner: string, after: string)

  /** First start tag, then the first end tag after it. */
  function Parse(raw: string): Option<Doc> {
    match Find(raw, START)
    case None => None
    case Some(start) =>
      var rest := raw[start.end..];
      match Find(rest, END)
      case None => None
      case Some(end) => Some(Doc(raw[..start.start], rest[..end.start], rest[end.end..]))
  }

  function Extract(raw: string): string {
    match Parse(raw) case None => "" case Some(d) => Strip(d.inner)
  }

  function Render(before: string, body: string, after: string): string {
    before + START_TAG + "\n" + body + "\n" + END_TAG + after
  }

  function Replace(raw: string, custom: string): Result {
    match Parse(raw)
    case None => SectionMissing
    case Some(d) => Ok(Render(d.before, Strip(custom), d.after))
  }

  // ------------------------------------------------------------------ names and tags

  lemma TagsAreTags()
    ensures NameOk(START) && NameOk(END)
    ensures IsTag(START_TAG, START) && IsTag(END_TAG, END)
  {
    hide START, END, IsSpace, Strip, IsTag, NameOk, OPEN, CLOSE;
    StartOk();
    EndOk();
    SpacedTag(START);
    SpacedTag(END);
  }

  lemma StartOk()
    ensures NameOk(START)
  {
    assert START[0] == 'A' && START[|START| - 1] == 'T';
  }

  lemma EndOk()
    ensures NameOk(END)
  {
    assert END[0] == 'A' && END[|END| - 1] == 'D';
  }

  lemma SpacedTag(name: string)
    requires Trim(name)
    ensures IsTag("<!-- " + name + " -->", name)
  {
    hide Strip;
    var t := "<!-- " + name + " -->";
    assert t[..4] == OPEN && t[|t| - 3..] == CLOSE;
    assert t[4..|t| - 3] == " " + name + " ";
    StripUnique(" " + name + " ", " ", name, " ");
  }

  // ------------------------------------------------------------------ what is parsed

  /** The text in front of the section has no start tag and the section no end tag. */
  lemma ParsedParts(raw: string)
    ensures match Parse(raw)
      case None => true
      case Some(d) => NoTag(d.before, START) && NoTag(d.inner, END)
  {
    hide START, END, NoTag, Find, NameOk, IsTag;
    TagsAreTags();
    FindIsLeftmost(raw, START);
    match Find(raw, START) {
      case None =>
      case Some(start) => FindIsLeftmost(raw[start.end..], END);
    }
  }

  /** A tag pair around text without an end tag is read back as written. */
  lemma ParseTagged(before: string, st: string, inner: string, en: string, after: string)
    requires NoTag(before, START) && IsTag(st, START) && NoTag(inner, END) && IsTag(en, END)
    ensures Parse(before + st + inner + en + after) == Some(Doc(before, inner, after))
  {
    hide START, END, NoTag, Find, NameOk, IsTag;
    TagsAreTags();
    var raw := before + st + inner + en + after;
    var rest := inner + en + after;
    hide Parse;
    assert raw == before + st + rest;
    FindAfter(before, st, rest, START);
    FindAfter(inner, en, after, END);
    ParseAt(before, st, inner, en, after);
  }

  lemma ParseAt(before: string, st: string, inner: string, en: string, after: string)
    requires Find(before + st + (inner + en + after), START) == Some(Span(|before|, |before| + |st|))
    requires Find(inner + en + after, END) == Some(Span(|inner|, |inner| + |en|))
    ensures Parse(before + st + (inner + en + after)) == Some(Doc(before, inner, after))
  {
    hide START, END, Find;
    var rest := inner + en + after;
    var raw := before + st + rest;
    assert raw[|before| + |st|..] == rest && raw[..|before|] == before;
    assert rest[..|inner|] == inner && rest[|inner| + |en|..] == after;
  }

  lemma NewlinesAddNoTag(body: string)
    ensures NoTag("\n" + body + "\n", END) <==> NoTag(body, END)
  {
    hide END, NoTag, IsSpace;
    EndOk();
    BracketsAreNoSpace();
    NoTagPadded("\n", body, "\n", END);
  }

  lemma ParseRender(before: string, body: string, after: string)
    requires NoTag(before, START) && NoTag(body, END)
    ensures Parse(Render(before, body, after)) == Some(Doc(before, "\n" + body + "\n", after))
  {
    hide START_TAG, END_TAG, NoTag, IsTag, Parse, NameOk;
    TagsAreTags();
    NewlinesAddNoTag(body);
    var inner := "\n" + body + "\n";
    ParseTagged(before, START_TAG, inner, END_TAG, after);
    assert Render(before, body, after) == before + START_TAG + inner + END_TAG + after;
  }

  /** A body that holds an end tag is cut there; the rest of it lands behind the section. */
  lemma ParseRenderCut(before: string, body: string, after: string) returns (m: Span)
    requires NoTag(before, START) && !NoTag(body, END)
    ensures Find(body, END) == Some(m) && m.start < m.end <= |body|
    ensures Parse(Render(before, body, after))
         == Some(Doc(before, "\n" + body[..m.start], body[m.end..] + "\n" + END_TAG + after))
  {
    hide START_TAG, END_TAG, NoTag, IsTag, Parse, NameOk, IsSpace;
    TagsAreTags();
    FindIsLeftmost(body, END);
    m := Find(body, END).value;
    var head, t, tail := body[..m.start], body[m.start..m.end], body[m.end..];
    assert body == head + t + tail;
    var inner := "\n" + head;
    BracketsAreNoSpace();
    NoTagPadded("\n", head, "", END);
    assert "\n" + head + "" == inner;
    var rest := tail + "\n" + END_TAG + after;
    ParseTagged(before, START_TAG, inner, t, rest);
    assert Render(before, body, after) == before + START_TAG + inner + t + rest;
  }

  lemma StripBetweenNewlines(body: string)
    ensures Strip("\n" + body + "\n") == Strip(body)
  {
    hide Strip, IsSpace;
    BracketsAreNoSpace();
    StripPadded("\n", body, "\n");
  }

  // ------------------------------------------------------------------ lens laws

  /** Replacing succeeds exactly when some start tag is followed by some end tag. */
  lemma ReplaceSucceedsIff(raw: string, custom: string)
    ensures Replace(raw, custom).Ok? <==>
      exists i, j, k, l | 0 <= i < j <= k < l <= |raw| :: IsTag(raw[i..j], START) && IsTag(raw[k..l], END)
  {
    hide START, END, IsTag, NameOk, Render, Strip;
    TagsAreTags();
    FindIsLeftmost(raw, START);
    match Find(raw, START) {
      case None =>
      case Some(start) =>
        var rest := raw[start.end..];
        FindIsLeftmost(rest, END);
        assert raw[start.end..|raw|] == rest;
        match Find(rest, END) {
          case None =>
            forall i, j, k, l | 0 <= i < j <= k < l <= |raw| && IsTag(raw[i..j], START)
              ensures !IsTag(raw[k..l], END)
            {
              FirstStartEndsFirst(raw, start, i, j);
              SliceOfSlice(raw, start.end, |raw|, k - start.end, l - start.end);
            }
          case Some(end) =>
            SliceOfSlice(raw, start.end, |raw|, end.start, end.end);
            assert IsTag(raw[start.end + end.start..start.end + end.end], END);
        }
    }
  }

  lemma FirstStartEndsFirst(raw: string, start: Span, i: nat, j: nat)
    requires start.start < start.end <= |raw| && IsTag(raw[start.start..start.end], START)
    requires NoTag(raw[..start.start], START)
    requires i < j <= |raw| && IsTag(raw[i..j], START)
    ensures start.end <= j
  {
    hide START, IsTag, NameOk;
    StartOk();
    FirstCloseOfTag(raw, start.start, start.end, START);
    FirstCloseOfTag(raw, i, j, START);
    if j <= start.start {
      SliceOfSlice(raw, 0, start.start, i, j);
      assert false;
    }
  }

  /** The text read back after a replacement: all of it, or what stands before its first end tag. */
  lemma ExtractReplace(raw: string, custom: string)
    requires Replace(raw, custom).Ok?
    ensures Extract(Replace(raw, custom).text)
         == match Find(Strip(custom), END) case None => Strip(custom) case Some(m) => Strip(Strip(custom)[..m.start])
  {
    hide START, END, IsTag, NameOk, NoTag, Render, Strip, Find;
    ParsedParts(raw);
    var d := Parse(raw).value;
    var body := Strip(custom);
    TagsAreTags();
    FindIsLeftmost(body, END);
    StripTrim(custom);
    if NoTag(body, END) {
      ParseRender(d.before, body, d.after);
      StripBetweenNewlines(body);
    } else {
      var m := ParseRenderCut(d.before, body, d.after);
      StripAfterNewline(body[..m.start]);
    }
  }

  lemma StripAfterNewline(body: string)
    ensures Strip("\n" + body) == Strip(body)
  {
    hide Strip, IsSpace;
    BracketsAreNoSpace();
    assert "\n" + body + "" == "\n" + body;
    StripPadded("\n", body, "");
  }

  lemma StripNoLonger(s: string)
    ensures |Strip(s)| <= |s|
  {
  }

  /** Get after put returns the stripped content if and only if the content has no end tag. */
  lemma GetPutIff(raw: string, custom: string)
    requires Replace(raw, custom).Ok?
    ensures Extract(Replace(raw, custom).text) == Strip(custom) <==> NoTag(custom, END)
  {
    hide START, END, IsTag, NameOk, NoTag, Render, Strip, Find, Replace, Extract, IsSpace;
    TagsAreTags();
    var left, right := StripParts(custom);
    NoTagPadded(left, Strip(custom), right, END);
    FindIsLeftmost(Strip(custom), END);
    ExtractReplace(raw, custom);
    match Find(Strip(custom), END) {
      case None =>
      case Some(m) => StripNoLonger(Strip(custom)[..m.start]);
    }
  }

  /** Content that is an end tag is not read back, and a second put does not replace all of it. */
  lemma EndTagBreaksLaws()
    ensures var raw := START_TAG + END_TAG;
      Replace(raw, END_TAG).Ok? && Extract(Replace(raw, END_TAG).text) != Strip(END_TAG)
      && Replace(Replace(raw, END_TAG).text, "") != Replace(raw, "")
  {
    hide START, END, START_TAG, END_TAG, Replace, Extract, Parse, IsTag, NameOk;
    var raw := START_TAG + END_TAG;
    TagsAreTags();
    EmptyHasNoTag();
    assert raw == "" + START_TAG + "" + END_TAG + "";
    ParseTagged("", START_TAG, "", END_TAG, "");
    ReplaceOk(raw, END_TAG);
    GetPutIff(raw, END_TAG);
    PutPutIff(raw, END_TAG, "");
    assert END_TAG[0..|END_TAG|] == END_TAG && END_TAG != "" by { TagShape(END_TAG, END); }
  }

  lemma ReplaceOk(raw: string, custom: string)
    requires Parse(raw).Some?
    ensures Replace(raw, custom).Ok?
  {
  }

  lemma EmptyHasNoTag()
    ensures NoTag("", START) && NoTag("", END)
  {
  }

  /**
   * Put after put equals the last put if and only if the first content has no end tag. Either way the section
   * is still there and the text before it is untouched.
   */
  lemma PutPutIff(raw: string, first: string, second: string)
    requires Replace(raw, first).Ok?
    ensures Replace(Replace(raw, first).text, second).Ok?
    ensures Parse(Replace(raw, first).text).value.before == Parse(raw).value.before
    ensures Replace(Replace(raw, first).text, second) == Replace(raw, second) <==> NoTag(first, END)
  {
    hide START, END, IsTag, NameOk, NoTag, Strip, Find, IsSpace, Parse, Render;
    TagsAreTags();
    ParsedParts(raw);
    var d := Parse(raw).value;
    var left, right := StripParts(first);
    NoTagPadded(left, Strip(first), right, END);
    if NoTag(Strip(first), END) {
      ParseRender(d.before, Strip(first), d.after);
    } else {
      var m := ParseRenderCut(d.before, Strip(first), d.after);
      RenderLength(d.before, Strip(second), d.after);
      RenderLength(d.before, Strip(second), Strip(first)[m.end..] + "\n" + END_TAG + d.after);
    }
  }

  lemma RenderLength(before: string, body: string, after: string)
    ensures |Render(before, body, after)| == |before| + |body| + |after| + |Render("", "", "")|
  {
  }

  /** Putting back what was read keeps the section and the text around it, and doing it again changes nothing. */
  lemma PutGet(raw: string)
    requires Parse(raw).Some?
    ensures NoTag(Extract(raw), END) && Replace(raw, Extract(raw)).Ok?
    ensures var again := Replace(raw, Extract(raw)).text;
      Extract(again) == Extract(raw) && Replace(again, Extract(again)) == Replace(raw, Extract(raw))
      && Parse(again).value.before == Parse(raw).value.before && Parse(again).value.after == Parse(raw).value.after
  {
    hide START, END, IsTag, NameOk, NoTag, Strip, Find, IsSpace, Parse, Render;
    TagsAreTags();
    ParsedParts(raw);
    var d := Parse(raw).value;
    var left, right := StripParts(d.inner);
    NoTagPadded(left, Strip(d.inner), right, END);
    StripTrim(d.inner);
    GetPutIff(raw, Extract(raw));
    PutPutIff(raw, Extract(raw), Extract(raw));
    ParseRender(d.before, Strip(d.inner), d.after);
  }

  // ------------------------------------------------------------------ new common rules

  const DEFAULT_BODY :=
    "## AGENTS_USER_CUSTOM_SECTION\n\n"
    + "- Add user-defined personalized rules here.\n"
    + "- Re-deploy and upgrade only update shared rules outside this section."

  const LEGACY_INTRO :=
    "## AGENTS_USER_CUSTOM_SECTION\n\n"
    + "The content below comes from a pre-marker AGENTS.md and was auto-preserved:\n\n"

  function LegacyBody(existing: string): string {
    if Strip(existing) == "" then DEFAULT_BODY else LEGACY_INTRO + Strip(existing)
  }

  function CarriedBody(existing: string): string {
    var custom := match Parse(existing) case Some(d) => Strip(d.inner) case None => Strip(LegacyBody(existing));
    if custom == "" then DEFAULT_BODY else custom
  }

  /** `_merge_agents_md`; None where the source raises because the common rules are empty. */
  function MergeAgents(commonRules: string, existing: string): Option<string> {
    var common := Strip(commonRules);
    if common == "" then None
    else Some(Render(common + "\n\n", CarriedBody(existing), "\n"))
  }

  lemma CarriedBodyIsTrim(existing: string)
    ensures Trim(CarriedBody(existing))
  {
    hide IsSpace, Strip, Parse, DEFAULT_BODY, LegacyBody, Trim;
    DefaultBodyIsTrim();
    match Parse(existing) {
      case Some(d) => StripTrim(d.inner);
      case None => StripTrim(LegacyBody(existing));
    }
  }

  lemma DefaultBodyIsTrim()
    ensures Trim(DEFAULT_BODY)
  {
    assert DEFAULT_BODY[0] == '#' && DEFAULT_BODY[|DEFAULT_BODY| - 1] == '.';
  }

  /**
   * With common rules that hold no start tag, the section reads back as the carried body if and only if that
   * body has no end tag.
   */
  lemma MergeReadsIff(commonRules: string, existing: string)
    requires MergeAgents(commonRules, existing).Some? && NoTag(commonRules, START)
    ensures Extract(MergeAgents(commonRules, existing).value) == CarriedBody(existing)
      <==> NoTag(CarriedBody(existing), END)
  {
    hide START, END, IsTag, NameOk, NoTag, Strip, Find, IsSpace, Parse, Render, CarriedBody;
    var before, body := Strip(commonRules) + "\n\n", CarriedBody(existing);
    CommonHasNoTag(commonRules);
    CarriedBodyIsTrim(existing);
    StripTrim(body);
    if NoTag(body, END) {
      ParseRender(before, body, "\n");
      StripBetweenNewlines(body);
    } else {
      var m := ParseRenderCut(before, body, "\n");
      StripAfterNewline(body[..m.start]);
      StripNoLonger(body[..m.start]);
    }
  }

  /** Redeploying the common rules keeps a non-empty user section, whatever the old text around it. */
  lemma MergeKeepsSection(commonRules: string, existing: string)
    requires MergeAgents(commonRules, existing).Some? && NoTag(commonRules, START)
    requires Parse(existing).Some? && Extract(existing) != ""
    ensures Extract(MergeAgents(commonRules, existing).value) == Extract(existing)
    ensures Parse(MergeAgents(commonRules, existing).value).Some?
  {
    hide START, END, IsTag, NameOk, NoTag, Strip, Find, IsSpace, Parse, Render, DEFAULT_BODY, LEGACY_INTRO;
    PutGet(existing);
    MergeReadsIff(commonRules, existing);
  }

  lemma CommonHasNoTag(commonRules: string)
    requires NoTag(commonRules, START)
    ensures NoTag(Strip(commonRules) + "\n\n", START)
  {
    hide START, IsTag, NameOk, NoTag, Strip, IsSpace, Trim;
    StartOk();
    BracketsAreNoSpace();
    var left, right := StripParts(commonRules);
    NoTagPadded(left, Strip(commonRules), right, START);
    NoTagPadded("", Strip(commonRules), "\n\n", START);
    assert "" + Strip(commonRules) + "\n\n" == Strip(commonRules) + "\n\n";
  }

  /** A second redeployment replaces the rules of the first and nothing else. */
  lemma MergeMerge(firstRules: string, secondRules: string, existing: string)
    requires MergeAgents(firstRules, existing).Some? && NoTag(firstRules, START)
    requires Parse(existing).Some? && Extract(existing) != ""
    ensures MergeAgents(secondRules, MergeAgents(firstRules, existing).value) == MergeAgents(secondRules, existing)
  {
    hide START, END, IsTag, NameOk, NoTag, Strip, Find, IsSpace, Parse, Render, DEFAULT_BODY, LEGACY_INTRO;
    MergeKeepsSection(firstRules, existing);
  }
}
