/** Version strings of the upgrade marker: parsing, printing and the order `_gt`. */
module Versions {
  import opened Options
  import opened Texts

  datatype Pre = Alpha(n: nat) | Beta(n: nat) | Candidate(n: nat) | Final

  datatype Version = Version(major: nat, minor: nat, patch: nat, pre: Pre)

  // ------------------------------------------------------------------ numbers

  predicate IsDigit(c: char) { '0' <= c <= '9' }

  function DigitValue(c: char): nat
    requires IsDigit(c)
  {
    (c - '0') as nat
  }

  predicate AllDigits(s: string) { forall i | 0 <= i < |s| :: IsDigit(s[i]) }

  function Value(s: string): nat
    requires AllDigits(s)
  {
    if s == [] then 0 else 10 * Value(s[..|s| - 1]) + DigitValue(s[|s| - 1])
  }

  function Decimal(n: nat): (s: string)
    ensures s != [] && AllDigits(s) && Value(s) == n
  {
    var last := [(n % 10) as char + '0'];
    if n < 10 then last else Decimal(n / 10) + last
  }

  /** Number of leading digits. */
  function Lead(s: string): (k: nat)
    ensures k <= |s| && AllDigits(s[..k]) && (k < |s| ==> !IsDigit(s[k]))
  {
    if s == [] || !IsDigit(s[0]) then 0 else
    var k := 1 + Lead(s[1..]);
    assert forall i | 0 < i < k :: s[i] == s[1..][i - 1];
    k
  }

  datatype Number = Number(value: nat, rest: string)

  function TakeNumber(s: string): Option<Number> {
    var k := Lead(s);
    if k == 0 then None else Some(Number(Value(s[..k]), s[k..]))
  }

  predicate StartsWith(s: string, p: string) { p <= s }

  // ------------------------------------------------------------------ `_key`'s pattern

  /** The end of the pattern also matches before one final newline. */
  predicate AtEnd(s: string) { s == "" || s == "\n" }

  function ParsePre(s: string): Option<Pre> {
    if AtEnd(s) then Some(Final)
    else if StartsWith(s, "a") then
      (match TakeNumber(s[1..])
       case Some(n) => if AtEnd(n.rest) then Some(Alpha(n.value)) else None
       case None => None)
    else if StartsWith(s, "b") then
      (match TakeNumber(s[1..])
       case Some(n) => if AtEnd(n.rest) then Some(Beta(n.value)) else None
       case None => None)
    else if StartsWith(s, "rc") then
      (match TakeNumber(s[2..])
       case Some(n) => if AtEnd(n.rest) then Some(Candidate(n.value)) else None
       case None => None)
    else None
  }

  function ParseVersion(s: string): Option<Version> {
    match TakeNumber(s)
    case None => None
    case Some(a) =>
      if !StartsWith(a.rest, ".") then None else
      match TakeNumber(a.rest[1..])
      case None => None
      case Some(b) =>
        if !StartsWith(b.rest, ".") then None else
        match TakeNumber(b.rest[1..])
        case None => None
        case Some(c) =>
          match ParsePre(c.rest)
          case None => None
          case Some(pre) => Some(Version(a.value, b.value, c.value, pre))
  }

  function ShowPre(p: Pre): string {
    match p
    case Alpha(n) => "a" + Decimal(n)
    case Beta(n) => "b" + Decimal(n)
    case Candidate(n) => "rc" + Decimal(n)
    case Final => ""
  }

  function Show(v: Version): string {
    Decimal(v.major) + "." + Decimal(v.minor) + "." + Decimal(v.patch) + ShowPre(v.pre)
  }

  lemma {:induction false} LeadOf(d: string, rest: string)
    requires AllDigits(d) && (rest != "" ==> !IsDigit(rest[0]))
    ensures Lead(d + rest) == |d|
  {
    if d != "" {
      assert (d + rest)[1..] == d[1..] + rest;
      LeadOf(d[1..], rest);
    } else {
      assert d + rest == rest;
    }
  }

  lemma TakeDecimal(n: nat, rest: string)
    requires rest != "" ==> !IsDigit(rest[0])
    ensures TakeNumber(Decimal(n) + rest) == Some(Number(n, rest))
  {
    var d := Decimal(n);
    LeadOf(d, rest);
    assert (d + rest)[..|d|] == d && (d + rest)[|d|..] == rest;
  }

  lemma ParseShowPre(p: Pre)
    ensures ParsePre(ShowPre(p)) == Some(p)
  {
    hide TakeNumber, Decimal, AllDigits;
    if !p.Final? {
      var d := Decimal(p.n);
      TakeDecimal(p.n, "");
      assert d + "" == d;
      TaggedNumber("a", d);
      TaggedNumber("b", d);
      TaggedNumber("rc", d);
    }
  }

  lemma TaggedNumber(tag: string, d: string)
    requires tag in {"a", "b", "rc"} && d != ""
    ensures (tag + d)[|tag|..] == d && !AtEnd(tag + d)
    ensures forall t | t in {"a", "b", "rc"} :: StartsWith(tag + d, t) <==> t == tag
  {
    var s := tag + d;
    assert s[0] == tag[0];
    forall t | t in {"a", "b", "rc"} ensures StartsWith(s, t) <==> t == tag {
      assert t <= s <==> s[..|t|] == t;
      assert t == tag ==> s[..|t|] == tag;
      assert t != tag ==> t[0] != tag[0];
    }
  }

  lemma PreNotDigit(p: Pre)
    ensures ShowPre(p) != "" ==> !IsDigit(ShowPre(p)[0])
  {
  }

  /** Every version has a text that `_key` reads back. */
  lemma ParseShow(v: Version)
    ensures ParseVersion(Show(v)) == Some(v)
  {
    hide TakeNumber, ParsePre, ShowPre, Decimal;
    PreNotDigit(v.pre);
    var pre := ShowPre(v.pre);
    var three := Decimal(v.patch) + pre;
    var two := Decimal(v.minor) + ("." + three);
    assert Show(v) == Decimal(v.major) + ("." + two);
    TakeDecimal(v.major, "." + two);
    assert ("." + two)[1..] == two;
    TakeDecimal(v.minor, "." + three);
    assert ("." + three)[1..] == three;
    TakeDecimal(v.patch, pre);
    ParseShowPre(v.pre);
  }

  // ------------------------------------------------------------------ the order

  /** A version string and the version that `_key` reads in it. */
  datatype Text = Text(spelling: string, version: Version)

  /** `read_marker` on the contents of the file: anything but a version string counts as no marker. */
  function ReadText(contents: string): (t: Option<Text>)
    ensures t.Some? ==> ParseVersion(t.value.spelling) == Some(t.value.version)
  {
    var stripped := Strip(contents);
    match ParseVersion(stripped)
    case Some(v) => Some(Text(stripped, v))
    case None => None
  }

  /** What `write_marker` puts into the file for a version is read back as that version. */
  lemma MarkerRoundTrip(v: Version)
    ensures ReadText(Show(v) + "\n") == Some(Text(Show(v), v))
  {
    hide IsSpace, ParseVersion, Show;
    ParseShow(v);
    ShowIsTrim(v);
    BreakIsSpace();
    assert "" + Show(v) + "\n" == Show(v) + "\n";
    StripPadded("", Show(v), "\n");
    StripTrim(Show(v));
  }

  lemma ShowIsTrim(v: Version)
    ensures Trim(Show(v))
  {
    hide IsSpace, Decimal;
    DigitsAreNoSpace();
    var s, first := Show(v), Decimal(v.major);
    assert s[0] == first[0];
    var last := if v.pre.Final? then Decimal(v.patch) else Decimal(v.pre.n);
    assert s[|s| - 1] == last[|last| - 1];
  }

  lemma DigitsAreNoSpace()
    ensures forall c | IsDigit(c) :: !IsSpace(c)
  {
  }

  lemma BreakIsSpace()
    ensures AllSpace("\n") && AllSpace("")
  {
  }

  /** `_key` */
  function Key(t: Text): (k: seq<int>)
    ensures |k| == 5
  {
    KeyOf(t.version)
  }

  function KeyOf(v: Version): (k: seq<int>)
    ensures |k| == 5
  {
    match v.pre
    case Final => [v.major, v.minor, v.patch, 3, 0]
    case Alpha(n) => [v.major, v.minor, v.patch, 0, n]
    case Beta(n) => [v.major, v.minor, v.patch, 1, n]
    case Candidate(n) => [v.major, v.minor, v.patch, 2, n]
  }

  /** Tuple comparison. */
  predicate TupleGreater(a: seq<int>, b: seq<int>)
    requires |a| == |b|
  {
    a != [] && (a[0] > b[0] || (a[0] == b[0] && TupleGreater(a[1..], b[1..])))
  }

  /** `_gt`: `None` is below every version. */
  predicate Gt(a: Option<Text>, b: Option<Text>) {
    match a
    case None => false
    case Some(x) =>
      match b
      case None => true
      case Some(y) => TupleGreater(Key(x), Key(y))
  }

  /** The order of PEP 440, section "Summary of permitted suffixes and relative ordering":
      releases in order; within one release alphas, betas, candidates, then the release itself. */
  ghost predicate ReleaseBefore(a: Version, b: Version) {
    a.major < b.major
    || (a.major == b.major && (a.minor < b.minor || (a.minor == b.minor && a.patch < b.patch)))
  }

  ghost predicate SameRelease(a: Version, b: Version) {
    a.major == b.major && a.minor == b.minor && a.patch == b.patch
  }

  ghost predicate PreBefore(a: Pre, b: Pre) {
    match a
    case Alpha(m) => if b.Alpha? then m < b.n else true
    case Beta(m) => (match b case Alpha(_) => false case Beta(n) => m < n case _ => true)
    case Candidate(m) => if b.Candidate? then m < b.n else b.Final?
    case Final => false
  }

  ghost predicate Before(a: Version, b: Version) {
    ReleaseBefore(a, b) || (SameRelease(a, b) && PreBefore(a.pre, b.pre))
  }

  lemma TupleGreaterUnfold(a: seq<int>, b: seq<int>)
    requires |a| == |b| == 5
    ensures TupleGreater(a, b) <==>
      (a[0] > b[0] || (a[0] == b[0] && (a[1] > b[1] || (a[1] == b[1] && (a[2] > b[2] || (a[2] == b[2] &&
      (a[3] > b[3] || (a[3] == b[3] && a[4] > b[4]))))))))
  {
    var a1, b1 := a[1..], b[1..];
    var a2, b2 := a1[1..], b1[1..];
    var a3, b3 := a2[1..], b2[1..];
    var a4, b4 := a3[1..], b3[1..];
    assert TupleGreater(a4, b4) <==> a[4] > b[4];
    assert TupleGreater(a3, b3) <==> a[3] > b[3] || (a[3] == b[3] && TupleGreater(a4, b4));
    assert TupleGreater(a2, b2) <==> a[2] > b[2] || (a[2] == b[2] && TupleGreater(a3, b3));
    assert TupleGreater(a1, b1) <==> a[1] > b[1] || (a[1] == b[1] && TupleGreater(a2, b2));
  }

  lemma KeyIsPep440(v: Version, w: Version)
    ensures TupleGreater(KeyOf(v), KeyOf(w)) <==> Before(w, v)
  {
    hide TupleGreater;
    TupleGreaterUnfold(KeyOf(v), KeyOf(w));
  }

  /** `_gt` on version texts is exactly the PEP 440 order of the versions they denote. */
  lemma GtIsPep440(a: Text, b: Text)
    ensures Gt(Some(a), Some(b)) <==> Before(b.version, a.version)
  {
    hide ParseVersion, KeyOf, Before, TupleGreater;
    KeyIsPep440(a.version, b.version);
  }

  lemma BeforeIsStrict(u: Version, v: Version, w: Version)
    ensures !Before(u, u)
    ensures Before(u, v) && Before(v, w) ==> Before(u, w)
    ensures Before(u, v) || Before(v, u) || u == v
  {
  }

  /** It is a strict order, total on the versions denoted. */
  lemma GtIsStrictOrder(a: Option<Text>, b: Option<Text>, c: Option<Text>)
    ensures !Gt(a, a)
    ensures Gt(a, b) && Gt(b, c) ==> Gt(a, c)
    ensures !Gt(a, b) && !Gt(b, c) ==> !Gt(a, c)
    ensures a.Some? && b.Some? && !Gt(a, b) && !Gt(b, a) ==> a.value.version == b.value.version
  {
    hide ParseVersion, Key, Before, TupleGreater;
    if a.Some? { GtIsPep440(a.value, a.value); BeforeIsStrict(a.value.version, a.value.version, a.value.version); }
    if a.Some? && b.Some? {
      GtIsPep440(a.value, b.value);
      GtIsPep440(b.value, a.value);
      BeforeIsStrict(a.value.version, b.value.version, a.value.version);
      if c.Some? {
        GtIsPep440(b.value, c.value);
        GtIsPep440(c.value, b.value);
        GtIsPep440(a.value, c.value);
        StrictThree(a.value.version, b.value.version, c.value.version);
      }
    }
  }

  lemma StrictThree(u: Version, v: Version, w: Version)
    ensures Before(v, u) && Before(w, v) ==> Before(w, u)
    ensures !Before(v, u) && !Before(w, v) ==> !Before(w, u)
  {
    hide Before;
    BeforeIsStrict(w, v, u);
    BeforeIsStrict(u, v, w);
    BeforeIsStrict(w, u, v);
    BeforeIsStrict(v, w, u);
  }
}
