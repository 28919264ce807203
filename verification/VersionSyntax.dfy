/** Which strings are version strings, and what they denote. */
module VersionSyntax {
  import opened Options
  import opened Versions

  /** A number as it is written: digits, leading zeros included. */
  ghost predicate Numeral(s: string, n: nat) {
    s != "" && AllDigits(s) && Value(s) == n
  }

  /** The suffix of a pre-release; nothing for a release. */
  ghost predicate Suffix(s: string, p: Pre) {
    match p
    case Final => s == ""
    case Alpha(n) => exists d :: s == "a" + d && Numeral(d, n)
    case Beta(n) => exists d :: s == "b" + d && Numeral(d, n)
    case Candidate(n) => exists d :: s == "rc" + d && Numeral(d, n)
  }

  /** Three numerals with dots between them and a suffix; the end may be a line break. */
  ghost predicate Spells(s: string, v: Version, a: string, b: string, c: string, p: string, end: string) {
    && s == a + "." + b + "." + c + p + end && end in {"", "\n"}
    && Numeral(a, v.major) && Numeral(b, v.minor) && Numeral(c, v.patch) && Suffix(p, v.pre)
  }

  // ------------------------------------------------------------------ one number

  /** The text does not go on with a digit. */
  predicate NoDigitFirst(s: string) { s != "" ==> !IsDigit(s[0]) }

  lemma TakeIff(s: string, n: nat, rest: string)
    ensures TakeNumber(s) == Some(Number(n, rest))
       <==> exists d :: s == d + rest && Numeral(d, n) && NoDigitFirst(rest)
  {
    hide Value;
    var k := Lead(s);
    assert s == s[..k] + s[k..];
    if TakeNumber(s) == Some(Number(n, rest)) {
      assert Numeral(s[..k], n) && NoDigitFirst(rest);
    }
    if d :| s == d + rest && Numeral(d, n) && NoDigitFirst(rest) {
      LeadOf(d, rest);
      assert s[..|d|] == d && s[|d|..] == rest;
    }
  }

  /** A number in front and the rest behind it. */
  lemma TakenNumber(s: string) returns (d: string)
    requires TakeNumber(s).Some?
    ensures s == d + TakeNumber(s).value.rest && Numeral(d, TakeNumber(s).value.value)
  {
    hide TakeNumber;
    TakeIff(s, TakeNumber(s).value.value, TakeNumber(s).value.rest);
    d :| s == d + TakeNumber(s).value.rest && Numeral(d, TakeNumber(s).value.value);
  }

  /** The parser's way: take the number in front, and go on after it. */
  lemma TakeNumeral(d: string, n: nat, rest: string)
    requires Numeral(d, n) && NoDigitFirst(rest)
    ensures TakeNumber(d + rest) == Some(Number(n, rest))
  {
    TakeIff(d + rest, n, rest);
  }

  // ------------------------------------------------------------------ the suffix

  lemma SuffixParses(p: string, pre: Pre, end: string)
    requires Suffix(p, pre) && end in {"", "\n"}
    ensures ParsePre(p + end) == Some(pre) && NoDigitFirst(p + end)
  {
    hide TakeNumber, Numeral, AllDigits;
    if pre.Final? {
      assert p + end == end;
    } else {
      var tag := match pre case Alpha(_) => "a" case Beta(_) => "b" case _ => "rc";
      var d :| p == tag + d && Numeral(d, pre.n);
      NumeralNonempty(d, pre.n);
      TakeNumeral(d, pre.n, end);
      assert p + end == tag + (d + end);
      TaggedNumber(tag, d + end);
    }
  }

  lemma NumeralNonempty(d: string, n: nat)
    requires Numeral(d, n)
    ensures d != ""
  {
  }

  lemma TaggedSuffix(s: string, tag: string) returns (d: string, end: string)
    requires tag in {"a", "b", "rc"} && StartsWith(s, tag)
    requires TakeNumber(s[|tag|..]).Some? && AtEnd(TakeNumber(s[|tag|..]).value.rest)
    ensures s == (tag + d) + end && end in {"", "\n"} && Numeral(d, TakeNumber(s[|tag|..]).value.value)
  {
    var rest := s[|tag|..];
    hide *;
    d := TakenNumber(rest);
    end := TakeNumber(rest).value.rest;
    assert s == tag + rest by { PrefixAndRest(s, tag); }
    assert tag + (d + end) == (tag + d) + end;
    assert end in {"", "\n"} by { EndOfText(end); }
  }

  lemma PrefixAndRest(s: string, tag: string)
    requires StartsWith(s, tag)
    ensures s == tag + s[|tag|..]
  {
  }

  lemma EndOfText(s: string)
    requires AtEnd(s)
    ensures s in {"", "\n"}
  {
  }

  lemma ParsedSuffix(s: string, pre: Pre) returns (p: string, end: string)
    requires ParsePre(s) == Some(pre)
    ensures s == p + end && end in {"", "\n"} && Suffix(p, pre)
  {
    hide TakeNumber, Numeral, AllDigits, Value;
    if AtEnd(s) {
      p, end := "", s;
    } else {
      var tag := if StartsWith(s, "a") then "a" else if StartsWith(s, "b") then "b" else "rc";
      var d, e := TaggedSuffix(s, tag);
      p, end := tag + d, e;
    }
  }

  // ------------------------------------------------------------------ the whole pattern

  lemma SpelledParses(s: string, v: Version, a: string, b: string, c: string, p: string, end: string)
    requires Spells(s, v, a, b, c, p, end)
    ensures ParseVersion(s) == Some(v)
  {
    hide TakeNumber, ParsePre, Numeral, Suffix, NoDigitFirst;
    SuffixParses(p, v.pre, end);
    var three := c + (p + end);
    var two := b + ("." + three);
    assert s == a + ("." + two);
    DotIsNoDigit(two);
    DotIsNoDigit(three);
    TakeNumeral(a, v.major, "." + two);
    assert ("." + two)[1..] == two && ("." + three)[1..] == three;
    TakeNumeral(b, v.minor, "." + three);
    TakeNumeral(c, v.patch, p + end);
  }

  lemma DotIsNoDigit(s: string)
    ensures NoDigitFirst("." + s)
  {
  }

  lemma Assemble(a: string, b: string, c: string, p: string, end: string)
    ensures a + ("." + (b + ("." + (c + (p + end))))) == a + "." + b + "." + c + p + end
  {
  }

  lemma ParsedSpells(s: string, v: Version) returns (a: string, b: string, c: string, p: string, end: string)
    requires ParseVersion(s) == Some(v)
    ensures Spells(s, v, a, b, c, p, end)
  {
    hide TakeNumber, ParsePre, Numeral, Suffix, NoDigitFirst;
    var r1 := TakeNumber(s).value.rest;
    var r2 := TakeNumber(r1[1..]).value.rest;
    var r3 := TakeNumber(r2[1..]).value.rest;
    a := TakenNumber(s);
    b := TakenNumber(r1[1..]);
    c := TakenNumber(r2[1..]);
    p, end := ParsedSuffix(r3, v.pre);
    assert r1 == "." + r1[1..] && r2 == "." + r2[1..];
    Assemble(a, b, c, p, end);
  }

  /** A string is read as a version exactly if it spells it: nothing else is accepted, and nothing else comes out. */
  lemma ParsesIff(s: string, v: Version)
    ensures ParseVersion(s) == Some(v) <==> exists a, b, c, p, end :: Spells(s, v, a, b, c, p, end)
  {
    hide ParseVersion, Spells;
    if ParseVersion(s) == Some(v) {
      var a, b, c, p, end := ParsedSpells(s, v);
    }
    if a, b, c, p, end :| Spells(s, v, a, b, c, p, end) {
      SpelledParses(s, v, a, b, c, p, end);
    }
  }
}
