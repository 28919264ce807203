/** The codec between a task's description and its two user-interface fields. */
module Descriptions {
  import opened Options
  import opened Texts

  const OUTPUT_SUMMARY_MARKER := "## Output Summary Requirement"
  const LEGACY_MARKER := "## \U{8F93}\U{51FA}\U{6458}\U{8981}\U{8981}\U{6C42}"

  predicate IsMarker(line: string) {
    Strip(line) == OUTPUT_SUMMARY_MARKER || Strip(line) == LEGACY_MARKER
  }

  /** Index of the first marker line, or the number of lines. */
  function FirstMarker(ls: seq<string>): (i: nat)
    ensures i <= |ls|
  {
    if ls == [] || IsMarker(ls[0]) then 0 else 1 + FirstMarker(ls[1..])
  }

  predicate HasMarker(text: string) { FirstMarker(Lines(text)) < |Lines(text)| }

  function OrEmpty(r: Option<string>): string { match r case Some(t) => t case None => "" }

  function NonEmpty(t: string): Option<string> { if t == "" then None else Some(t) }

  function MergeDescription(body: string, requirement: Option<string>): string {
    var b := RStrip(body);
    var req := Strip(OrEmpty(requirement));
    if req == "" then b
    else if b == "" then OUTPUT_SUMMARY_MARKER + "\n" + req
    else b + "\n\n" + OUTPUT_SUMMARY_MARKER + "\n" + req
  }

  datatype Fields = Fields(body: string, requirement: Option<string>)

  function SplitDescription(text: string): Fields {
    if text == "" then Fields("", None)
    else
      var ls := Lines(text);
      var i := FirstMarker(ls);
      if i < |ls| then Fields(RStrip(Join(ls[..i])), NonEmpty(Strip(Join(ls[i + 1..]))))
      else Fields(text, None)
  }

  // ------------------------------------------------------------------ marker lines

  lemma MarkerIsMarker()
    ensures IsMarker(OUTPUT_SUMMARY_MARKER) && NoNewline(OUTPUT_SUMMARY_MARKER)
  {
    hide Strip;
    StripTrim(OUTPUT_SUMMARY_MARKER);
  }

  lemma BlankIsNoMarker(line: string)
    requires AllSpace(line)
    ensures !IsMarker(line)
  {
    assert line == line + "" + "";
    StripUnique(line, line, "", "");
  }

  lemma FirstMarkerUnique(ls: seq<string>, i: nat)
    requires i <= |ls| && (i < |ls| ==> IsMarker(ls[i])) && forall j | 0 <= j < i :: !IsMarker(ls[j])
    ensures FirstMarker(ls) == i
  {
    hide IsMarker;
    FirstMarkerIsFirst(ls);
  }

  lemma {:induction false} FirstMarkerIsFirst(ls: seq<string>)
    ensures FirstMarker(ls) < |ls| ==> IsMarker(ls[FirstMarker(ls)])
    ensures forall j | 0 <= j < FirstMarker(ls) :: !IsMarker(ls[j])
  {
    hide IsMarker;
    if ls != [] && !IsMarker(ls[0]) {
      FirstMarkerIsFirst(ls[1..]);
      assert forall j | 1 <= j < |ls| :: ls[j] == ls[1..][j - 1];
    }
  }

  lemma HasMarkerAt(text: string)
    ensures HasMarker(text) <==> FirstMarker(Lines(text)) < |Lines(text)|
  {
  }

  lemma HasMarkerConcat(a: string, b: string)
    ensures HasMarker(a + "\n" + b) <==> HasMarker(a) || HasMarker(b)
  {
    hide IsMarker;
    LinesConcat(a, b);
    var la, lb := Lines(a), Lines(b);
    FirstOfConcat(la, lb);
  }

  lemma FirstOfConcat(a: seq<string>, b: seq<string>)
    ensures FirstMarker(a + b) == if FirstMarker(a) < |a| then FirstMarker(a) else |a| + FirstMarker(b)
  {
    hide IsMarker, FirstMarker;
    FirstMarkerIsFirst(a);
    FirstMarkerIsFirst(b);
    var i := if FirstMarker(a) < |a| then FirstMarker(a) else |a| + FirstMarker(b);
    var ls := a + b;
    assert forall j | 0 <= j < i :: !IsMarker(ls[j]) by {
      forall j | 0 <= j < i ensures !IsMarker(ls[j]) {
        if j >= |a| { assert ls[j] == b[j - |a|]; }
      }
    }
    FirstMarkerUnique(ls, i);
  }

  /** The two fields as read off the lines. */
  function FieldsOf(ls: seq<string>, text: string): Fields {
    var i := FirstMarker(ls);
    if i < |ls| then Fields(RStrip(Join(ls[..i])), NonEmpty(Strip(Join(ls[i + 1..])))) else Fields(text, None)
  }

  lemma SplitIsFieldsOf(text: string)
    ensures SplitDescription(text) == FieldsOf(Lines(text), text)
  {
    if text == "" { BlankIsNoMarker(""); FirstMarkerUnique([""], 1); }
  }

  lemma SplitAt(text: string, i: nat)
    requires FirstMarker(Lines(text)) == i < |Lines(text)|
    ensures SplitDescription(text)
         == Fields(RStrip(Join(Lines(text)[..i])), NonEmpty(Strip(Join(Lines(text)[i + 1..]))))
  {
    hide Lines, IsMarker, FirstMarker, Strip, RStrip, Join;
    SplitIsFieldsOf(text);
  }

  /** Text before, marker line, text after. */
  lemma SplitAtMarker(a: string, m: string, r: string)
    requires !HasMarker(a) && IsMarker(m) && NoNewline(m)
    ensures SplitDescription(a + "\n" + m + "\n" + r) == Fields(RStrip(a), NonEmpty(Strip(r)))
  {
    hide *;
    var text := a + "\n" + m + "\n" + r;
    assert text == a + "\n" + (m + "\n" + r);
    LinesConcat(a, m + "\n" + r);
    LinesConcat(m, r);
    LinesOfLine(m);
    HasMarkerAt(a);
    var la, lr := Lines(a), Lines(r);
    var ls := la + ([m] + lr);
    FirstMarkerUnique([m] + lr, 0);
    FirstOfConcat(la, [m] + lr);
    assert ls[..|la|] == la && ls[|la| + 1..] == lr;
    JoinLines(a);
    JoinLines(r);
    SplitAt(text, |la|);
  }

  lemma SplitAtFirstLine(m: string, r: string)
    requires IsMarker(m) && NoNewline(m)
    ensures SplitDescription(m + "\n" + r) == Fields("", NonEmpty(Strip(r)))
  {
    hide *;
    LinesConcat(m, r);
    LinesOfLine(m);
    var ls := [m] + Lines(r);
    FirstMarkerUnique(ls, 0);
    assert ls[..0] == [] && ls[1..] == Lines(r);
    JoinLines(r);
    SplitAt(m + "\n" + r, 0);
    JoinNone();
  }

  lemma JoinNone()
    ensures Join([]) == "" && RStrip("") == ""
  {
  }

  // ------------------------------------------------------------------ trailing and leading whitespace

  /** Appending one character to the last line, or opening a new one. */
  function AppendChar(ls: seq<string>, c: char): seq<string>
    requires ls != []
  {
    if c == '\n' then ls + [""] else ls[..|ls| - 1] + [ls[|ls| - 1] + [c]]
  }

  lemma {:induction false} LinesSnoc(s: string, c: char)
    ensures Lines(s + [c]) == AppendChar(Lines(s), c)
  {
    if s == "" {
      assert s + [c] == [c] && [c][1..] == "";
      assert [c] + "" == [c] && "" + [c] == [c];
    } else {
      LinesSnoc(s[1..], c);
      assert [s[0]] + s[1..] == s && s + [c] == [s[0]] + (s[1..] + [c]);
      LinesPush(s[0], s[1..]);
      LinesPush(s[0], s[1..] + [c]);
      PushAppend(s[0], Lines(s[1..]), c);
    }
  }

  lemma PushAppend(x: char, ls: seq<string>, c: char)
    requires ls != []
    ensures AppendChar(PushChar(x, ls), c) == PushChar(x, AppendChar(ls, c))
  {
    if |ls| == 1 && x != '\n' && c != '\n' {
      assert [x] + (ls[0] + [c]) == ([x] + ls[0]) + [c];
    }
  }

  lemma SpaceOnLine(line: string, c: char)
    requires IsSpace(c)
    ensures IsMarker(line + [c]) <==> IsMarker(line)
    ensures IsMarker([c] + line) <==> IsMarker(line)
  {
    assert AllSpace([c]) && AllSpace("");
    hide IsSpace, Strip, OUTPUT_SUMMARY_MARKER, LEGACY_MARKER;
    assert line + [c] == "" + line + [c];
    StripPadded("", line, [c]);
    assert [c] + line == [c] + line + "";
    StripPadded([c], line, "");
  }

  /** Trailing whitespace changes neither where the first marker is nor what the requirement says. */
  lemma SnocSpace(s: string, c: char)
    requires IsSpace(c)
    ensures HasMarker(s + [c]) <==> HasMarker(s)
    ensures SplitDescription(s + [c]).requirement == SplitDescription(s).requirement
  {
    hide *;
    var ls := Lines(s);
    var i := FirstMarker(ls);
    var k := AppendedSpace(ls, c);
    LinesSnoc(s, c);
    HasMarkerAt(s);
    HasMarkerAt(s + [c]);
    if i < |ls| { SnocTail(ls, i, c); }
    SameTail(s, i, s + [c], k);
  }

  /** Whitespace after the last line leaves the first marker where it is. */
  lemma AppendedSpace(ls: seq<string>, c: char) returns (k: nat)
    requires ls != [] && IsSpace(c)
    ensures k == FirstMarker(AppendChar(ls, c))
    ensures FirstMarker(ls) < |ls| <==> k < |AppendChar(ls, c)|
    ensures FirstMarker(ls) < |ls| ==> k == FirstMarker(ls)
  {
    hide IsMarker, IsSpace, FirstMarker;
    var n, i := |ls|, FirstMarker(ls);
    var ms := AppendChar(ls, c);
    FirstMarkerIsFirst(ls);
    BlankIsNoMarker("");
    SpaceOnLine(ls[n - 1], c);
    assert forall j | 0 <= j < n - 1 :: ms[j] == ls[j];
    k := if i < n then i else |ms|;
    assert forall j | 0 <= j < k :: !IsMarker(ms[j]);
    FirstMarkerUnique(ms, k);
  }

  lemma SnocTail(ls: seq<string>, i: nat, c: char)
    requires i < |ls| && IsSpace(c)
    ensures i < |AppendChar(ls, c)| && Strip(Join(AppendChar(ls, c)[i + 1..])) == Strip(Join(ls[i + 1..]))
  {
    var n := |ls|;
    var ms := AppendChar(ls, c);
    var t := ls[i + 1..];
    if t == [] {
      assert ms[i + 1..] == if c == '\n' then [""] else [];
    } else {
      assert ms[i + 1..] == AppendChar(t, c);
      JoinAppend(t, c);
      assert Join(t) + [c] == "" + Join(t) + [c];
      StripPadded("", Join(t), [c]);
    }
  }

  lemma {:induction false} JoinAppend(ls: seq<string>, c: char)
    requires ls != []
    ensures Join(AppendChar(ls, c)) == Join(ls) + [c]
  {
    if |ls| == 1 {
      assert c == '\n' ==> (ls + [""])[1..] == [""];
    } else {
      JoinAppend(ls[1..], c);
      var ms, rest := AppendChar(ls, c), AppendChar(ls[1..], c);
      assert |ms| == |rest| + 1 && ms[0] == ls[0] && ms[1..] == rest;
      assert Join(ms) == ls[0] + "\n" + Join(rest) && Join(ls) == ls[0] + "\n" + Join(ls[1..]);
    }
  }

  lemma {:induction false} AppendSpace(s: string, pad: string)
    requires AllSpace(pad)
    ensures HasMarker(s + pad) <==> HasMarker(s)
    ensures SplitDescription(s + pad).requirement == SplitDescription(s).requirement
  {
    hide IsSpace, HasMarker, SplitDescription;
    if pad == "" {
      assert s + pad == s;
    } else {
      var front, c := pad[..|pad| - 1], pad[|pad| - 1];
      AppendSpace(s, front);
      SnocSpace(s + front, c);
      assert s + pad == (s + front) + [c];
    }
  }

  lemma ConsSpace(c: char, s: string)
    requires IsSpace(c)
    ensures HasMarker([c] + s) <==> HasMarker(s)
    ensures SplitDescription([c] + s).requirement == SplitDescription(s).requirement
  {
    hide *;
    var ls := Lines(s);
    var i := FirstMarker(ls);
    var k := PushSpace(c, ls);
    LinesPush(c, s);
    HasMarkerAt(s);
    HasMarkerAt([c] + s);
    SameTail(s, i, [c] + s, k);
  }

  /** Where the first marker goes when whitespace is put in front of the text. */
  lemma PushSpace(c: char, ls: seq<string>) returns (k: nat)
    requires ls != [] && IsSpace(c)
    ensures k == FirstMarker(PushChar(c, ls))
    ensures FirstMarker(ls) < |ls| <==> k < |PushChar(c, ls)|
    ensures k < |PushChar(c, ls)| ==> PushChar(c, ls)[k + 1..] == ls[FirstMarker(ls) + 1..]
  {
    hide IsMarker, IsSpace, FirstMarker;
    var i := FirstMarker(ls);
    var ms := PushChar(c, ls);
    FirstMarkerIsFirst(ls);
    if c == '\n' {
      BlankIsNoMarker("");
      k := 1 + i;
      assert forall j | 0 <= j < i :: ms[1 + j] == ls[j];
      FirstMarkerUnique(ms, k);
    } else {
      SpaceOnLine(ls[0], c);
      k := i;
      assert forall j | 0 < j < i :: ms[j] == ls[j];
      FirstMarkerUnique(ms, k);
    }
  }

  /** Two texts whose lines after the first marker agree have the same requirement. */
  lemma SameTail(a: string, i: nat, b: string, k: nat)
    requires i == FirstMarker(Lines(a)) && k == FirstMarker(Lines(b))
    requires i < |Lines(a)| <==> k < |Lines(b)|
    requires i < |Lines(a)| ==> Strip(Join(Lines(a)[i + 1..])) == Strip(Join(Lines(b)[k + 1..]))
    ensures SplitDescription(a).requirement == SplitDescription(b).requirement
  {
    hide Strip, Join, Lines, RStrip, FirstMarker;
    SplitIsFieldsOf(a);
    SplitIsFieldsOf(b);
  }

  lemma {:induction false} PrependSpace(pad: string, s: string)
    requires AllSpace(pad)
    ensures HasMarker(pad + s) <==> HasMarker(s)
    ensures SplitDescription(pad + s).requirement == SplitDescription(s).requirement
  {
    hide IsSpace, HasMarker, SplitDescription;
    if pad == "" {
      assert pad + s == s;
    } else {
      PrependSpace(pad[1..], s);
      ConsSpace(pad[0], pad[1..] + s);
      assert pad + s == [pad[0]] + (pad[1..] + s);
    }
  }

  /** Stripping a description changes neither its marker lines nor its requirement. */
  lemma StripKeepsRequirement(s: string)
    ensures HasMarker(Strip(s)) <==> HasMarker(s)
    ensures HasMarker(RStrip(s)) <==> HasMarker(s)
    ensures SplitDescription(Strip(s)).requirement == SplitDescription(s).requirement
  {
    hide HasMarker, SplitDescription, Trim;
    var left, right := StripParts(s);
    AppendSpace(left + Strip(s), right);
    PrependSpace(left, Strip(s));
    var pad := RStripPad(s);
    AppendSpace(RStrip(s), pad);
  }

  // ------------------------------------------------------------------ round trip

  lemma MergeSplits(body: string, requirement: Option<string>)
    requires !HasMarker(body)
    ensures SplitDescription(MergeDescription(body, requirement))
         == Fields(RStrip(body), NonEmpty(Strip(OrEmpty(requirement))))
  {
    var b, req := RStrip(body), Strip(OrEmpty(requirement));
    var text := MergeDescription(body, requirement);
    assert MergedForm(b, req, text);
    hide *;
    StripKeepsRequirement(body);
    RStripIdem(body);
    StripTrim(OrEmpty(requirement));
    MergedSplits(b, req, text);
  }

  /** The three shapes of a merged description. */
  predicate MergedForm(b: string, req: string, text: string) {
    if req == "" then text == b
    else if b == "" then text == OUTPUT_SUMMARY_MARKER + "\n" + req
    else text == b + "\n\n" + OUTPUT_SUMMARY_MARKER + "\n" + req
  }

  lemma MergedSplits(b: string, req: string, text: string)
    requires !HasMarker(b) && RStrip(b) == b && Strip(req) == req && MergedForm(b, req, text)
    ensures SplitDescription(text) == Fields(b, NonEmpty(req))
  {
    hide HasMarker, IsMarker, SplitDescription, RStrip, Strip, IsSpace, OUTPUT_SUMMARY_MARKER;
    MarkerIsMarker();
    if req == "" {
      SplitWithoutMarker(b);
    } else if b == "" {
      SplitAtFirstLine(OUTPUT_SUMMARY_MARKER, req);
    } else {
      assert text == (b + "\n") + "\n" + OUTPUT_SUMMARY_MARKER + "\n" + req;
      NewlineIsSpace();
      AppendSpace(b, "\n");
      SplitAtMarker(b + "\n", OUTPUT_SUMMARY_MARKER, req);
      RStripUnique(b + "\n", b, "\n");
    }
  }

  lemma NewlineIsSpace()
    ensures IsSpace('\n') && AllSpace("\n")
  {
  }

  lemma SplitWithoutMarker(text: string)
    requires !HasMarker(text)
    ensures SplitDescription(text) == Fields(text, None)
  {
    SplitIsFieldsOf(text);
  }

  /** The text before the first marker line is shorter than the text by at least that line. */
  lemma SplitShortens(text: string)
    requires HasMarker(text)
    ensures |SplitDescription(text).body| < |text| && |OrEmpty(SplitDescription(text).requirement)| < |text|
  {
    hide *;
    var ls := Lines(text);
    var i := FirstMarker(ls);
    HasMarkerAt(text);
    FirstMarkerIsFirst(ls);
    SplitAt(text, i);
    JoinLines(text);
    FieldsLengths(Join(ls[..i]), Join(ls[i + 1..]));
    MarkerNotEmpty(ls[i]);
    JoinParts(ls, i);
  }

  lemma FieldsLengths(before: string, after: string)
    ensures |RStrip(before)| <= |before| && |OrEmpty(NonEmpty(Strip(after)))| <= |after|
  {
  }

  lemma MarkerNotEmpty(line: string)
    requires IsMarker(line)
    ensures line != ""
  {
    if line == "" { BlankIsNoMarker(line); }
  }

  lemma JoinParts(ls: seq<string>, i: nat)
    requires i < |ls|
    ensures |Join(ls[..i])| + |ls[i]| + |Join(ls[i + 1..])| <= |Join(ls)|
  {
    assert ls == ls[..i] + ls[i..] && ls[i..] == [ls[i]] + ls[i + 1..];
    if i > 0 { JoinConcat(ls[..i], ls[i..]); }
    if i + 1 < |ls| { JoinConcat([ls[i]], ls[i + 1..]); }
  }

  /** A body that contains a marker line is cut at that line. */
  lemma MergeCuts(body: string, requirement: Option<string>)
    requires HasMarker(body)
    ensures |SplitDescription(MergeDescription(body, requirement)).body| < |RStrip(body)|
  {
    var b, req := RStrip(body), Strip(OrEmpty(requirement));
    var text := MergeDescription(body, requirement);
    assert MergedForm(b, req, text);
    hide *;
    StripKeepsRequirement(body);
    SplitShortens(b);
    MergedCuts(b, req, text);
  }

  lemma MergedCuts(b: string, req: string, text: string)
    requires HasMarker(b) && MergedForm(b, req, text)
    ensures SplitDescription(text).body == SplitDescription(b).body
  {
    hide HasMarker, IsMarker, SplitDescription, OUTPUT_SUMMARY_MARKER;
    if req != "" {
      BlankHasNoMarker();
      var tail := "\n" + OUTPUT_SUMMARY_MARKER + "\n" + req;
      assert text == b + "\n" + tail;
      SplitOfPrefix(b, tail);
    }
  }

  lemma BlankHasNoMarker()
    ensures !HasMarker("")
  {
    BlankIsNoMarker("");
  }

  lemma SplitOfPrefix(a: string, rest: string)
    requires HasMarker(a)
    ensures SplitDescription(a + "\n" + rest).body == SplitDescription(a).body
  {
    hide *;
    LinesConcat(a, rest);
    var la, lb := Lines(a), Lines(rest);
    FirstOfConcat(la, lb);
    HasMarkerAt(a);
    SplitAt(a, FirstMarker(la));
    SplitAt(a + "\n" + rest, FirstMarker(la));
    assert (la + lb)[..FirstMarker(la)] == la[..FirstMarker(la)];
  }

  /** Splitting a merged description gives the trimmed fields back if and only if the body has no marker line. */
  lemma SplitMergeIff(body: string, requirement: Option<string>)
    ensures !HasMarker(body) <==>
      SplitDescription(MergeDescription(body, requirement))
      == Fields(RStrip(body), NonEmpty(Strip(OrEmpty(requirement))))
  {
    hide HasMarker, SplitDescription, MergeDescription;
    if HasMarker(body) { MergeCuts(body, requirement); } else { MergeSplits(body, requirement); }
  }

  lemma StripOfEmpty()
    ensures Strip("") == ""
  {
  }

  /** The documented round trip, exactly as written, holds if and only if the fields are already clean. */
  lemma DocumentedRoundTripIff(body: string, requirement: Option<string>)
    ensures SplitDescription(MergeDescription(body, requirement)) == Fields(body, requirement) <==>
      (!HasMarker(body) && RStrip(body) == body
       && (requirement == None || (requirement.value != "" && Strip(requirement.value) == requirement.value)))
  {
    hide HasMarker, SplitDescription, MergeDescription, RStrip, Strip, Trim;
    if HasMarker(body) { MergeCuts(body, requirement); } else { MergeSplits(body, requirement); }
    StripOfEmpty();
  }

  /** The documented round trip loses trailing whitespace, an empty requirement, and a body that is a marker line. */
  lemma DocumentedRoundTripFails()
    ensures SplitDescription(MergeDescription("a ", None)) != Fields("a ", None)
    ensures SplitDescription(MergeDescription("a", Some(""))) != Fields("a", Some(""))
    ensures SplitDescription(MergeDescription(OUTPUT_SUMMARY_MARKER, None)) != Fields(OUTPUT_SUMMARY_MARKER, None)
  {
    hide SplitDescription, MergeDescription, HasMarker, FirstMarker, OUTPUT_SUMMARY_MARKER, IsSpace;
    DocumentedRoundTripIff("a ", None);
    DocumentedRoundTripIff("a", Some(""));
    DocumentedRoundTripIff(OUTPUT_SUMMARY_MARKER, None);
    SpaceIsStripped();
    MarkerIsMarker();
    LinesOfLine(OUTPUT_SUMMARY_MARKER);
    FirstMarkerUnique([OUTPUT_SUMMARY_MARKER], 0);
    HasMarkerAt(OUTPUT_SUMMARY_MARKER);
  }

  lemma SpaceIsStripped()
    ensures RStrip("a ") == "a"
  {
    assert "a " == "a" + " ";
    RStripUnique("a ", "a", " ");
  }

  // ------------------------------------------------------------------ the stored task

  /** `_normalise_description` on loaded fields: an empty requirement leaves the description alone. */
  function Load(description: string, requirement: Option<string>): string {
    if OrEmpty(requirement) != "" then MergeDescription(description, requirement) else description
  }

  /** Dump and load again. */
  function Reload(description: string): string {
    var f := SplitDescription(description);
    Load(f.body, f.requirement)
  }

  /** What a client that sent two fields, the body without a marker line, is sent back. */
  lemma FieldsComeBack(description: string, requirement: Option<string>)
    requires !HasMarker(description)
    ensures SplitDescription(Load(description, requirement))
         == Fields(if OrEmpty(requirement) == "" then description else RStrip(description),
                   NonEmpty(Strip(OrEmpty(requirement))))
  {
    hide HasMarker, SplitDescription, MergeDescription, Strip, RStrip;
    if OrEmpty(requirement) == "" {
      StripOfEmpty();
      SplitWithoutMarker(description);
    } else {
      MergeSplits(description, requirement);
    }
  }

  /** Whatever the text, a dump and a load keep both fields. */
  lemma ReloadKeepsFields(d: string)
    ensures SplitDescription(Reload(d)) == SplitDescription(d)
  {
    hide HasMarker, IsMarker, SplitDescription, MergeDescription, RStrip, Strip;
    var f := SplitDescription(d);
    if HasMarker(d) {
      BodyHasNoMarker(d);
      SplitFieldsAreStripped(d);
      if f.requirement == None { SplitWithoutMarker(f.body); } else { MergeSplits(f.body, f.requirement); }
    } else {
      SplitWithoutMarker(d);
    }
  }

  lemma SplitFieldsAreStripped(d: string)
    requires HasMarker(d)
    ensures var f := SplitDescription(d);
      RStrip(f.body) == f.body && f.requirement == NonEmpty(Strip(OrEmpty(f.requirement)))
  {
    hide HasMarker, IsMarker, SplitDescription, Lines, Join, RStrip, Strip, Trim;
    var i := FirstMarker(Lines(d));
    HasMarkerAt(d);
    SplitAt(d, i);
    RStripIdem(Join(Lines(d)[..i]));
    StripTrim(Join(Lines(d)[i + 1..]));
  }

  lemma BodyHasNoMarker(d: string)
    requires HasMarker(d)
    ensures !HasMarker(SplitDescription(d).body)
  {
    hide *;
    var ls := Lines(d);
    var i := FirstMarker(ls);
    HasMarkerAt(d);
    FirstMarkerIsFirst(ls);
    SplitAt(d, i);
    if i == 0 {
      BlankHasNoMarker();
      JoinNone();
      assert ls[..0] == [];
    } else {
      HasMarkerAt(Join(ls[..i]));
      LinesJoin(ls[..i]);
      FirstMarkerUnique(ls[..i], i);
      StripKeepsRequirement(Join(ls[..i]));
    }
  }

  /** The stored form is a normal form: reloading it again changes nothing. */
  lemma ReloadIdempotent(d: string)
    ensures Reload(Reload(d)) == Reload(d)
  {
    ReloadKeepsFields(d);
  }

  class FlowTask {
    var description: string
    var outputSummaryRequirement: Option<string>
    const isLeaderSummary: bool
    const requiresHumanCheckpoint: bool

    constructor (description: string, requirement: Option<string>, leader: bool, checkpoint: bool)
      ensures this.description == description && outputSummaryRequirement == requirement
      ensures isLeaderSummary == leader && requiresHumanCheckpoint == checkpoint
    {
      this.description, outputSummaryRequirement := description, requirement;
      isLeaderSummary, requiresHumanCheckpoint := leader, checkpoint;
    }

    /** Returns false where the source raises `ValueError`. */
    method NormaliseDescription() returns (valid: bool)
      modifies this
      ensures description == Load(old(description), old(outputSummaryRequirement))
      ensures OrEmpty(outputSummaryRequirement) == ""
      ensures !HasMarker(old(description)) ==>
        Serialized() == Fields(if OrEmpty(old(outputSummaryRequirement)) == "" then old(description)
                               else RStrip(old(description)),
                               NonEmpty(Strip(OrEmpty(old(outputSummaryRequirement)))))
      ensures valid <==> !(isLeaderSummary && requiresHumanCheckpoint)
    {
      hide HasMarker, SplitDescription, MergeDescription, Strip, RStrip;
      if !HasMarker(description) { FieldsComeBack(description, outputSummaryRequirement); }
      if outputSummaryRequirement.Some? && outputSummaryRequirement.value != "" {
        description := MergeDescription(description, outputSummaryRequirement);
        outputSummaryRequirement := None;
      }
      valid := !(isLeaderSummary && requiresHumanCheckpoint);
    }

    /** The two field serializers. */
    function Serialized(): Fields
      reads this
    {
      SplitDescription(description)
    }
  }
}
