/** Searching for comment tags `<!--\s*NAME\s*-->`. */
module Tags {
  import opened Options
  import opened Texts

  const OPEN := "<!--"
  const CLOSE := "-->"

  /** `t` is, from end to end, one tag with that name. */
  predicate IsTag(t: string, name: string) {
    |t| >= 7 && t[..4] == OPEN && t[|t| - 3..] == CLOSE && Strip(t[4..|t| - 3]) == name
  }

  predicate NameOk(name: string) {
    name != "" && Trim(name) && '<' !in name && '>' !in name
  }

  /** No part of the text is a tag with that name. */
  ghost predicate NoTag(s: string, name: string) {
    forall i, j | 0 <= i < j <= |s| :: !IsTag(s[i..j], name)
  }

  function FirstClose(s: string, i: nat): (e: nat)
    requires i <= |s|
    ensures i <= e <= |s| && (e < |s| ==> s[e] == '>')
    ensures forall k | i <= k < e :: s[k] != '>'
    decreases |s| - i
  {
    if i == |s| || s[i] == '>' then i else FirstClose(s, i + 1)
  }

  datatype Span = Span(start: nat, end: nat)

  /** Leftmost match at or after `from`. */
  function FindFrom(s: string, from: nat, name: string): (m: Option<Span>)
    requires from <= |s|
    ensures m.Some? ==> from <= m.value.start < m.value.end <= |s|
    decreases |s| - from
  {
    if from == |s| then None
    else
      var e := FirstClose(s, from);
      if e < |s| && IsTag(s[from..e + 1], name) then Some(Span(from, e + 1)) else FindFrom(s, from + 1, name)
  }

  function Find(s: string, name: string): (m: Option<Span>)
    ensures m.Some? ==> m.value.start < m.value.end <= |s|
  {
    FindFrom(s, 0, name)
  }

  // ------------------------------------------------------------------ the shape of a tag

  /** `<` stands only at the front of a tag and `>` only at its end. */
  lemma TagShape(t: string, name: string)
    requires NameOk(name) && IsTag(t, name)
    ensures t != "" && t[0] == '<' && t[|t| - 1] == '>'
    ensures forall k | 0 < k < |t| :: t[k] != '<'
    ensures forall k | 0 <= k < |t| - 1 :: t[k] != '>'
  {
    hide IsSpace, Strip, Trim;
    var mid := t[4..|t| - 3];
    MiddleHasNoBracket(mid, name);
    forall k | 0 <= k < 4 ensures t[k] == OPEN[k] { assert t[k] == t[..4][k]; }
    forall k | 0 <= k < 3 ensures t[|t| - 3 + k] == CLOSE[k] { assert t[|t| - 3 + k] == t[|t| - 3..][k]; }
    assert forall k | 4 <= k < |t| - 3 :: t[k] == mid[k - 4] && mid[k - 4] in mid;
  }

  lemma MiddleHasNoBracket(mid: string, name: string)
    requires Strip(mid) == name && '<' !in name && '>' !in name
    ensures '<' !in mid && '>' !in mid
  {
    hide IsSpace, Strip, Trim;
    var left, right := StripParts(mid);
    BracketsAreNoSpace();
  }

  lemma BracketsAreNoSpace()
    ensures !IsSpace('<') && !IsSpace('>') && IsSpace('\n')
  {
  }

  lemma FirstCloseOfTag(s: string, i: nat, j: nat, name: string)
    requires NameOk(name) && i < j <= |s| && IsTag(s[i..j], name)
    ensures FirstClose(s, i) == j - 1
  {
    hide IsTag, NameOk, FirstClose;
    var t := s[i..j];
    TagShape(t, name);
    assert forall k | i <= k < j :: s[k] == t[k - i];
  }

  // ------------------------------------------------------------------ the search finds the leftmost match

  lemma {:induction false} FindFromIsLeftmost(s: string, from: nat, name: string)
    requires NameOk(name) && from <= |s|
    decreases |s| - from
    ensures match FindFrom(s, from, name)
      case None => forall i, j | from <= i < j <= |s| :: !IsTag(s[i..j], name)
      case Some(m) =>
        from <= m.start < m.end <= |s| && IsTag(s[m.start..m.end], name)
        && forall i, j | from <= i < m.start && i < j <= |s| :: !IsTag(s[i..j], name)
  {
    hide IsTag, NameOk;
    if from < |s| {
      forall j | from < j <= |s| && IsTag(s[from..j], name) ensures FirstClose(s, from) == j - 1 {
        FirstCloseOfTag(s, from, j, name);
      }
      FindFromIsLeftmost(s, from + 1, name);
    }
  }

  lemma FindIsLeftmost(s: string, name: string)
    requires NameOk(name)
    ensures Find(s, name) == None <==> NoTag(s, name)
    ensures match Find(s, name)
      case None => true
      case Some(m) => m.start < m.end <= |s| && IsTag(s[m.start..m.end], name) && NoTag(s[..m.start], name)
  {
    hide IsTag, NameOk;
    FindFromIsLeftmost(s, 0, name);
    if Find(s, name).Some? {
      var m := Find(s, name).value;
      var a := s[..m.start];
      assert forall i, j | 0 <= i < j <= |a| :: a[i..j] == s[i..j];
    }
  }

  /** A tag after text without one is the leftmost match: no match straddles the place where they meet. */
  lemma FindAfter(a: string, t: string, b: string, name: string)
    requires NameOk(name) && NoTag(a, name) && IsTag(t, name)
    ensures Find(a + t + b, name) == Some(Span(|a|, |a| + |t|))
  {
    hide IsTag, NameOk, FindFrom;
    var s := a + t + b;
    FindFromIsLeftmost(s, 0, name);
    TagShape(t, name);
    assert s[|a|..|a| + |t|] == t;
    var m := FindFrom(s, 0, name).value;
    assert a + (t + b) == s;
    NoStraddle(a, t + b, m, name);
    FirstCloseOfTag(s, |a|, |a| + |t|, name);
    FirstCloseOfTag(s, m.start, m.end, name);
  }

  lemma SliceOfFront(a: string, b: string, i: nat, j: nat)
    requires i <= j <= |a|
    ensures (a + b)[i..j] == a[i..j]
  {
  }

  lemma SliceAt(s: string, i: nat, j: nat, k: nat)
    requires i <= k < j <= |s|
    ensures s[i..j][k - i] == s[k]
  {
  }

  lemma SliceOfSlice(s: string, i: nat, j: nat, x: nat, y: nat)
    requires i <= j <= |s| && x <= y <= j - i
    ensures s[i..j][x..y] == s[i + x..i + y]
  {
    var part, whole := s[i..j][x..y], s[i + x..i + y];
    assert |part| == |whole| && forall k | 0 <= k < |part| :: part[k] == whole[k];
  }

  /** No match begins in `a` when what follows `a` begins with `<`. */
  lemma NoStraddle(a: string, rest: string, m: Span, name: string)
    requires NameOk(name) && NoTag(a, name) && rest != "" && rest[0] == '<'
    requires m.start < m.end <= |a + rest| && IsTag((a + rest)[m.start..m.end], name)
    ensures m.start >= |a|
  {
    hide IsTag, NameOk;
    var s := a + rest;
    var t := s[m.start..m.end];
    TagShape(t, name);
    if m.end <= |a| {
      SliceOfFront(a, rest, m.start, m.end);
      assert false;
    } else if m.start < |a| {
      SliceAt(s, m.start, m.end, |a|);
      assert false;
    }
  }

  // ------------------------------------------------------------------ tags and whitespace

  lemma NoTagPart(s: string, i: nat, j: nat, name: string)
    requires NoTag(s, name) && i <= j <= |s|
    ensures NoTag(s[i..j], name)
  {
    hide IsTag;
    var p := s[i..j];
    forall x, y | 0 <= x < y <= |p| ensures !IsTag(p[x..y], name) {
      SliceOfSlice(s, i, j, x, y);
    }
  }

  /** Whitespace around the text adds no tag and hides none. */
  lemma NoTagPadded(left: string, s: string, right: string, name: string)
    requires NameOk(name) && AllSpace(left) && AllSpace(right)
    ensures NoTag(left + s + right, name) <==> NoTag(s, name)
  {
    hide IsTag, NameOk, IsSpace;
    var p := left + s + right;
    assert p[|left|..|left| + |s|] == s;
    if NoTag(p, name) { NoTagPart(p, |left|, |left| + |s|, name); }
    if NoTag(s, name) {
      forall i, j | 0 <= i < j <= |p| ensures !IsTag(p[i..j], name) {
        if IsTag(p[i..j], name) {
          TagInside(left, s, right, i, j, name);
          SliceOfSlice(p, |left|, |left| + |s|, i - |left|, j - |left|);
          assert false;
        }
      }
    }
  }

  lemma TagInside(left: string, s: string, right: string, i: nat, j: nat, name: string)
    requires NameOk(name) && AllSpace(left) && AllSpace(right)
    requires i < j <= |left + s + right| && IsTag((left + s + right)[i..j], name)
    ensures |left| <= i && j <= |left| + |s|
  {
    hide IsTag, NameOk, IsSpace;
    var p := left + s + right;
    TagShape(p[i..j], name);
    BracketsAreNoSpace();
    assert p[i] == p[i..j][0] && p[j - 1] == p[i..j][j - 1 - i];
    assert forall k | 0 <= k < |left| :: p[k] == left[k];
    assert forall k | |left| + |s| <= k < |p| :: p[k] == right[k - |left| - |s|];
  }
}
