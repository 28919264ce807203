/** Whitespace stripping and line splitting of strings. */
module Texts {

  /** The characters that `str.strip` removes and `\s` matches. */
  predicate IsSpace(c: char) {
    '\t' <= c <= '\r' || '\U{001C}' <= c <= ' ' || c == '\U{0085}' || c == '\U{00A0}' || c == '\U{1680}'
    || '\U{2000}' <= c <= '\U{200A}' || '\U{2028}' <= c <= '\U{2029}' || c == '\U{202F}' || c == '\U{205F}'
    || c == '\U{3000}'
  }

  function RStrip(s: string): (r: string)
    ensures r <= s && (r != "" ==> !IsSpace(r[|r| - 1]))
    ensures forall i | |r| <= i < |s| :: IsSpace(s[i])
  {
    if s == "" || !IsSpace(s[|s| - 1]) then s else RStrip(s[..|s| - 1])
  }

  function LStrip(s: string): (r: string)
    ensures |r| <= |s| && r == s[|s| - |r|..] && (r != "" ==> !IsSpace(r[0]))
    ensures forall i | 0 <= i < |s| - |r| :: IsSpace(s[i])
  {
    if s == "" || !IsSpace(s[0]) then s else LStrip(s[1..])
  }

  function Strip(s: string): string { RStrip(LStrip(s)) }

  predicate AllSpace(s: string) { forall i | 0 <= i < |s| :: IsSpace(s[i]) }

  /** Text without whitespace at either end. */
  predicate Trim(s: string) { s != "" ==> !IsSpace(s[0]) && !IsSpace(s[|s| - 1]) }

  // ------------------------------------------------------------------ what stripping means

  lemma RStripUnique(s: string, r: string, pad: string)
    requires s == r + pad && AllSpace(pad) && (r != "" ==> !IsSpace(r[|r| - 1]))
    ensures RStrip(s) == r
  {
    hide IsSpace;
    assert forall i | |r| <= i < |s| :: s[i] == pad[i - |r|];
    assert r != "" ==> s[|r| - 1] == r[|r| - 1];
    assert |RStrip(s)| == |r|;
  }

  lemma LStripUnique(s: string, pad: string, r: string)
    requires s == pad + r && AllSpace(pad) && (r != "" ==> !IsSpace(r[0]))
    ensures LStrip(s) == r
  {
    hide IsSpace;
    assert forall i | 0 <= i < |pad| :: s[i] == pad[i];
    assert r != "" ==> s[|pad|] == r[0];
    assert |LStrip(s)| == |r|;
  }

  lemma LStripPad(s: string) returns (pad: string)
    ensures s == pad + LStrip(s) && AllSpace(pad)
  {
    hide IsSpace;
    pad := s[..|s| - |LStrip(s)|];
  }

  lemma RStripPad(s: string) returns (pad: string)
    ensures s == RStrip(s) + pad && AllSpace(pad)
  {
    hide IsSpace;
    pad := s[|RStrip(s)|..];
  }

  /** `Strip` finds the only trimmed core between two runs of whitespace. */
  lemma StripUnique(s: string, left: string, core: string, right: string)
    requires s == left + core + right && AllSpace(left) && AllSpace(right) && Trim(core)
    ensures Strip(s) == core
  {
    hide IsSpace;
    if core != "" {
      assert s == left + (core + right);
      assert (core + right)[0] == core[0];
      LStripUnique(s, left, core + right);
      RStripUnique(core + right, core, right);
    } else {
      assert AllSpace(s);
      assert s == s + "";
      LStripUnique(s, s, "");
      assert RStrip("") == "";
    }
  }

  lemma StripParts(s: string) returns (left: string, right: string)
    ensures s == left + Strip(s) + right && AllSpace(left) && AllSpace(right) && Trim(Strip(s))
  {
    hide IsSpace, Trim;
    left := LStripPad(s);
    var mid := LStrip(s);
    right := RStripPad(mid);
    StripIsTrim(s);
    hide LStrip, RStrip;
    var core := Strip(s);
    assert core == RStrip(mid);
    assert mid == core + right;
    assert left + mid == left + core + right;
  }

  lemma StripIsTrim(s: string)
    ensures Trim(Strip(s))
  {
    hide IsSpace;
    var mid := LStrip(s);
    var core := RStrip(mid);
    assert core != "" ==> core[0] == mid[0];
  }

  lemma StripTrim(s: string)
    ensures Trim(Strip(s)) && Strip(Strip(s)) == Strip(s)
    ensures Trim(s) ==> Strip(s) == s
  {
    hide *;
    var left, right := StripParts(s);
    var t := Strip(s);
    EmptyIsSpace();
    assert t == "" + t + "";
    StripUnique(t, "", t, "");
    if Trim(s) { assert s == "" + s + ""; StripUnique(s, "", s, ""); }
  }

  lemma EmptyIsSpace()
    ensures AllSpace("")
  {
  }

  /** Whitespace around the text does not change its stripped form. */
  lemma StripPadded(left: string, s: string, right: string)
    requires AllSpace(left) && AllSpace(right)
    ensures Strip(left + s + right) == Strip(s)
  {
    hide IsSpace;
    var l, r := StripParts(s);
    var core := Strip(s);
    hide Strip, Trim;
    Regroup(left, l, core, r, right);
    SpaceConcat(left, l);
    SpaceConcat(r, right);
    StripUnique(left + s + right, left + l, core, r + right);
  }

  lemma Regroup(a: string, b: string, c: string, d: string, e: string)
    ensures a + (b + c + d) + e == (a + b) + c + (d + e)
  {
  }

  lemma SpaceConcat(a: string, b: string)
    requires AllSpace(a) && AllSpace(b)
    ensures AllSpace(a + b)
  {
    hide IsSpace;
  }

  lemma RStripIdem(s: string)
    ensures RStrip(RStrip(s)) == RStrip(s)
  {
    hide IsSpace;
    assert RStrip(s) == RStrip(s) + "";
    RStripUnique(RStrip(s), RStrip(s), "");
  }

  // ------------------------------------------------------------------ lines

  predicate NoNewline(s: string) { '\n' !in s }

  /** `s.split("\n")` */
  function Lines(s: string): (ls: seq<string>)
    ensures ls != [] && forall i | 0 <= i < |ls| :: NoNewline(ls[i])
  {
    if s == "" then [""]
    else
      var rest := Lines(s[1..]);
      if s[0] == '\n' then [""] + rest else [[s[0]] + rest[0]] + rest[1..]
  }

  /** `"\n".join(ls)` */
  function Join(ls: seq<string>): string {
    if ls == [] then "" else if |ls| == 1 then ls[0] else ls[0] + "\n" + Join(ls[1..])
  }

  lemma {:induction false} JoinLines(s: string)
    ensures Join(Lines(s)) == s
  {
    if s != "" {
      JoinLines(s[1..]);
      var rest := Lines(s[1..]);
      if s[0] == '\n' {
        assert ([""] + rest)[1..] == rest;
        assert Join([""] + rest) == "" + "\n" + Join(rest);
        assert "" + "\n" + s[1..] == s;
      } else {
        var ls := [[s[0]] + rest[0]] + rest[1..];
        assert ls[1..] == rest[1..];
        if |rest| > 1 {
          assert Join(ls) == [s[0]] + rest[0] + "\n" + Join(rest[1..]);
          assert Join(rest) == rest[0] + "\n" + Join(rest[1..]);
        }
        assert Join(ls) == [s[0]] + Join(rest);
      }
    }
  }

  lemma {:induction false} LinesOfLine(s: string)
    requires NoNewline(s)
    ensures Lines(s) == [s]
  {
    if s != "" {
      assert s[0] in s && forall c | c in s[1..] :: c in s;
      LinesOfLine(s[1..]);
      assert [s[0]] + s[1..] == s && [s[1..]][1..] == [];
    }
  }

  /** The lines after putting one more character in front. */
  function PushChar(c: char, ls: seq<string>): seq<string>
    requires ls != []
  {
    if c == '\n' then [""] + ls else [[c] + ls[0]] + ls[1..]
  }

  lemma PushConcat(c: char, a: seq<string>, b: seq<string>)
    requires a != []
    ensures PushChar(c, a + b) == PushChar(c, a) + b
  {
    assert (a + b)[1..] == a[1..] + b;
  }

  lemma LinesPush(c: char, s: string)
    ensures Lines([c] + s) == PushChar(c, Lines(s))
  {
    assert ([c] + s)[1..] == s;
  }

  /** Splitting at one given newline. */
  lemma {:induction false} LinesConcat(a: string, b: string)
    ensures Lines(a + "\n" + b) == Lines(a) + Lines(b)
  {
    hide Lines, PushChar;
    if a == "" {
      assert a + "\n" + b == ['\n'] + b;
      LinesPush('\n', b);
      assert PushChar('\n', Lines(b)) == [""] + Lines(b) by { PushNewline(Lines(b)); }
      LinesOfLine("");
    } else {
      LinesConcat(a[1..], b);
      assert a + "\n" + b == [a[0]] + (a[1..] + "\n" + b);
      LinesPush(a[0], a[1..] + "\n" + b);
      LinesPush(a[0], a[1..]);
      assert [a[0]] + a[1..] == a;
      PushConcat(a[0], Lines(a[1..]), Lines(b));
    }
  }

  lemma PushNewline(ls: seq<string>)
    requires ls != []
    ensures PushChar('\n', ls) == [""] + ls
  {
  }

  lemma {:induction false} LinesJoin(ls: seq<string>)
    requires ls != [] && forall i | 0 <= i < |ls| :: NoNewline(ls[i])
    ensures Lines(Join(ls)) == ls
  {
    LinesOfLine(ls[0]);
    if |ls| > 1 {
      LinesJoin(ls[1..]);
      LinesConcat(ls[0], Join(ls[1..]));
    }
  }

  lemma {:induction false} JoinConcat(a: seq<string>, b: seq<string>)
    requires a != [] && b != []
    ensures Join(a + b) == Join(a) + "\n" + Join(b)
  {
    if |a| == 1 {
      assert (a + b)[1..] == b;
    } else {
      assert (a + b)[1..] == a[1..] + b;
      JoinConcat(a[1..], b);
      assert Join(a + b) == a[0] + "\n" + (Join(a[1..]) + "\n" + Join(b));
    }
  }
}
