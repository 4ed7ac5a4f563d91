/**
 Version strings as the Go library golang.org/x/mod/semver reads and compares them, and the
 precedence of section 11 of Semantic Versioning 2.0.0.
 */
module Semver {
  import opened Wrappers

  /** A version read from text; the text after "+" takes no part in comparisons. */
  datatype Version = Version(major: string, minor: string, patch: string, prerelease: seq<string>, build: seq<string>)

  // ---- Reading ----

  predicate Digit(c: char) { '0' <= c <= '9' }

  predicate IdentChar(c: char) { Digit(c) || 'a' <= c <= 'z' || 'A' <= c <= 'Z' || c == '-' }

  predicate Numeric(s: string) { forall i :: 0 <= i < |s| ==> Digit(s[i]) }

  predicate LeadingZero(s: string) { |s| > 1 && s[0] == '0' }

  /** The number of digits a string starts with. */
  function DigitsAhead(s: string): (n: nat)
    ensures n <= |s| && Numeric(s[..n]) && (n < |s| ==> !Digit(s[n]))
  {
    if s == "" || !Digit(s[0]) then 0 else
      var n := 1 + DigitsAhead(s[1..]);
      assert forall i :: 1 <= i < n ==> s[i] == s[1..][i - 1];
      n
  }

  /** A number without leading zero, and the text after it. */
  function ParseInt(v: string): Option<(string, string)> {
    var n := DigitsAhead(v);
    if n == 0 || LeadingZero(v[..n]) then None else Some((v[..n], v[n..]))
  }

  /** The position of the first `c`, or the length. */
  function Find(s: string, c: char): (n: nat)
    ensures n <= |s| && c !in s[..n] && (n < |s| ==> s[n] == c)
  {
    if s == "" || s[0] == c then 0 else
      var n := 1 + Find(s[1..], c);
      assert s[..n] == [s[0]] + s[1..][..n - 1];
      n
  }

  /** The parts between the dots. */
  function Fields(s: string): (fs: seq<string>)
    ensures |fs| > 0
    decreases |s|
  {
    var n := Find(s, '.');
    if n == |s| then [s] else [s[..n]] + Fields(s[n + 1..])
  }

  predicate Identifier(s: string) { s != "" && forall i :: 0 <= i < |s| ==> IdentChar(s[i]) }

  predicate PrereleaseIdentifier(s: string) { Identifier(s) && !(Numeric(s) && LeadingZero(s)) }

  predicate Identifiers(fs: seq<string>) { forall i :: 0 <= i < |fs| ==> Identifier(fs[i]) }

  predicate PrereleaseIdentifiers(fs: seq<string>) { forall i :: 0 <= i < |fs| ==> PrereleaseIdentifier(fs[i]) }

  /** What may follow the three numbers: a pre-release after "-", a build after "+". */
  function ParseSuffix(major: string, minor: string, patch: string, v: string): Option<Version> {
    var n := Find(v, '+');
    var pre := if n > 0 && v[0] == '-' then Fields(v[1..n]) else [];
    var build := if n < |v| then Fields(v[n + 1..]) else [];
    if (n > 0 && v[0] != '-') || !PrereleaseIdentifiers(pre) || !Identifiers(build) then None
    else Some(Version(major, minor, patch, pre, build))
  }

  /** "v" and one, two or three numbers; only three can have a suffix. */
  function Parse(v: string): Option<Version> {
    if v == "" || v[0] != 'v' then None else
    var major := ParseInt(v[1..]);
    if major.None? then None else
    var v1 := major.value.1;
    if v1 == "" then Some(Version(major.value.0, "0", "0", [], []))
    else if v1[0] != '.' then None else
    var minor := ParseInt(v1[1..]);
    if minor.None? then None else
    var v2 := minor.value.1;
    if v2 == "" then Some(Version(major.value.0, minor.value.0, "0", [], []))
    else if v2[0] != '.' then None else
    var patch := ParseInt(v2[1..]);
    if patch.None? then None else ParseSuffix(major.value.0, minor.value.0, patch.value.0, patch.value.1)
  }

  predicate IsValid(v: string) { Parse(v).Some? }

  // ---- Comparing ----

  /** The first difference decides; a proper beginning comes first. */
  function CompareLists<T(==)>(x: seq<T>, y: seq<T>, cmp: (T, T) -> int): int {
    if x == [] then (if y == [] then 0 else -1)
    else if y == [] then 1
    else if x[0] != y[0] then cmp(x[0], y[0])
    else CompareLists(x[1..], y[1..], cmp)
  }

  function CompareChar(x: char, y: char): int { if x < y then -1 else if x == y then 0 else 1 }

  /** Go's order on strings. */
  function CompareText(x: string, y: string): int { CompareLists(x, y, CompareChar) }

  function CompareInt(x: string, y: string): int {
    if x == y then 0 else if |x| < |y| then -1 else if |x| > |y| then 1 else if CompareText(x, y) < 0 then -1 else 1
  }

  function CompareIdent(x: string, y: string): int {
    if x == y then 0
    else if Numeric(x) != Numeric(y) then (if Numeric(x) then -1 else 1)
    else if Numeric(x) && |x| < |y| then -1
    else if Numeric(x) && |x| > |y| then 1
    else if CompareText(x, y) < 0 then -1
    else 1
  }

  function ComparePrerelease(x: seq<string>, y: seq<string>): int {
    if x == y then 0 else if x == [] then 1 else if y == [] then -1 else CompareLists(x, y, CompareIdent)
  }

  function CompareVersions(v: Version, w: Version): int {
    if CompareInt(v.major, w.major) != 0 then CompareInt(v.major, w.major)
    else if CompareInt(v.minor, w.minor) != 0 then CompareInt(v.minor, w.minor)
    else if CompareInt(v.patch, w.patch) != 0 then CompareInt(v.patch, w.patch)
    else ComparePrerelease(v.prerelease, w.prerelease)
  }

  /** Invalid versions are equal to each other and below every valid one. */
  function Compare(v: string, w: string): int {
    var pv, pw := Parse(v), Parse(w);
    if pv.None? then (if pw.None? then 0 else -1)
    else if pw.None? then 1
    else CompareVersions(pv.value, pw.value)
  }

  // ---- Comparisons are total orders ----

  ghost predicate Order<T(!new)>(cmp: (T, T) -> int) {
    && (forall a, b :: cmp(a, b) == 0 <==> a == b)
    && (forall a, b :: cmp(a, b) < 0 <==> cmp(b, a) > 0)
    && (forall a, b, c :: cmp(a, b) < 0 && cmp(b, c) < 0 ==> cmp(a, c) < 0)
  }

  lemma {:induction false} ListsAreOrdered<T(!new)>(x: seq<T>, y: seq<T>, z: seq<T>, cmp: (T, T) -> int)
    requires Order(cmp)
    ensures CompareLists(x, y, cmp) == 0 <==> x == y
    ensures CompareLists(x, y, cmp) < 0 <==> CompareLists(y, x, cmp) > 0
    ensures CompareLists(x, y, cmp) < 0 && CompareLists(y, z, cmp) < 0 ==> CompareLists(x, z, cmp) < 0
  {
    if x != [] && y != [] {
      ListsAreOrdered(x[1..], y[1..], if z == [] then z else z[1..], cmp);
      assert x == [x[0]] + x[1..] && y == [y[0]] + y[1..];
      if z != [] {
        assert cmp(x[0], y[0]) < 0 && cmp(y[0], z[0]) < 0 ==> cmp(x[0], z[0]) < 0;
        assert cmp(x[0], x[0]) == 0;
      }
    }
  }

  lemma TextIsOrdered()
    ensures Order(CompareText)
  {
    assert Order(CompareChar);
    forall a: string, b: string, c: string
      ensures CompareText(a, b) == 0 <==> a == b
      ensures CompareText(a, b) < 0 <==> CompareText(b, a) > 0
      ensures CompareText(a, b) < 0 && CompareText(b, c) < 0 ==> CompareText(a, c) < 0
    {
      ListsAreOrdered(a, b, c, CompareChar);
    }
  }

  lemma IdentifiersAreOrdered()
    ensures Order(CompareInt) && Order(CompareIdent)
  {
    TextIsOrdered();
  }

  /** Comparing versions is a total order up to build metadata. */
  lemma VersionsAreOrdered(u: Version, v: Version, w: Version)
    ensures CompareVersions(u, v) == 0 <==> u.(build := v.build) == v
    ensures CompareVersions(u, v) < 0 <==> CompareVersions(v, u) > 0
    ensures CompareVersions(u, v) < 0 && CompareVersions(v, w) < 0 ==> CompareVersions(u, w) < 0
  {
    hide CompareInt, CompareLists;
    IdentifiersAreOrdered();
    assert forall a, b, c :: CompareInt(a, b) < 0 && CompareInt(b, c) < 0 ==> CompareInt(a, c) < 0;
    assert forall a, b :: CompareInt(a, b) < 0 <==> CompareInt(b, a) > 0;
    assert forall a, b :: CompareInt(a, b) == 0 <==> a == b;
    ListsAreOrdered(u.prerelease, v.prerelease, w.prerelease, CompareIdent);
  }

  // ---- Section 11 of Semantic Versioning 2.0.0 ----

  /** The number a digit string denotes, after the digits worth `acc`. */
  function Value(s: string, acc: nat): nat
    requires Numeric(s)
  {
    if s == "" then acc else Value(s[1..], 10 * acc + (s[0] - '0') as nat)
  }

  /** Lexical order: equal up to a place where `x` ends or is below `y`. */
  predicate LexBelow<T(==)>(x: seq<T>, y: seq<T>, below: (T, T) -> bool) {
    exists k :: 0 <= k <= |x| && k < |y| && x[..k] == y[..k] && (k == |x| || below(x[k], y[k]))
  }

  predicate CharBelow(x: char, y: char) { x < y }

  /** Numbers numerically, other identifiers in ASCII order, and numbers below other identifiers. */
  predicate IdentBelow(x: string, y: string) {
    if Numeric(x) then (if Numeric(y) then Value(x, 0) < Value(y, 0) else true)
    else !Numeric(y) && LexBelow(x, y, CharBelow)
  }

  /** A release is above its pre-releases; these compare identifier by identifier, and more identifiers are above fewer. */
  predicate PrereleaseBelow(x: seq<string>, y: seq<string>) {
    x != [] && (y == [] || LexBelow(x, y, IdentBelow))
  }

  predicate WellFormed(v: Version) {
    && Numeral(v.major) && Numeral(v.minor) && Numeral(v.patch)
    && PrereleaseIdentifiers(v.prerelease)
  }

  predicate Numeral(s: string) { s != "" && Numeric(s) && !LeadingZero(s) }

  /** `v` has lower precedence than `w`. */
  predicate Below(v: Version, w: Version)
    requires WellFormed(v) && WellFormed(w)
  {
    var v1, v2, v3 := Value(v.major, 0), Value(v.minor, 0), Value(v.patch, 0);
    var w1, w2, w3 := Value(w.major, 0), Value(w.minor, 0), Value(w.patch, 0);
    || v1 < w1
    || (v1 == w1 && v2 < w2)
    || (v1 == w1 && v2 == w2 && v3 < w3)
    || (v1 == w1 && v2 == w2 && v3 == w3 && PrereleaseBelow(v.prerelease, w.prerelease))
  }

  lemma ParsedIsWellFormed(v: string)
    requires Parse(v).Some?
    ensures WellFormed(Parse(v).value)
  {}

  lemma {:induction false} ValueGrows(s: string, t: string, a: nat, b: nat)
    requires Numeric(s) && Numeric(t)
    requires |s| == |t| && a < b
    ensures a <= Value(s, a) < Value(t, b)
    decreases |s|
  {
    if s != "" {
      ValueGrows(s[1..], t[1..], 10 * a + (s[0] - '0') as nat, 10 * b + (t[0] - '0') as nat);
    }
  }

  /** A longer numeral denotes a larger number. */
  lemma {:induction false} LongerIsLarger(s: string, t: string, a: nat)
    requires Numeric(s) && Numeric(t) && |s| < |t| && (a > 0 || t[0] != '0')
    ensures Value(s, 0) < Value(t, a)
    decreases |t|
  {
    var b := 10 * a + (t[0] - '0') as nat;
    if |s| == |t| - 1 {
      ValueGrows(s, t[1..], 0, b);
    } else {
      LongerIsLarger(s, t[1..], b);
    }
  }

  lemma {:induction false} SameLengthByText(s: string, t: string, a: nat)
    requires Numeric(s) && Numeric(t) && |s| == |t| && CompareText(s, t) < 0
    ensures Value(s, a) < Value(t, a)
    decreases |s|
  {
    var i, j := 10 * a + (s[0] - '0') as nat, 10 * a + (t[0] - '0') as nat;
    if s[0] == t[0] {
      SameLengthByText(s[1..], t[1..], i);
    } else {
      ValueGrows(s[1..], t[1..], i, j);
    }
  }

  /** Comparing numerals by length and then as text compares the numbers. */
  lemma NumeralsCompareByValue(x: string, y: string)
    requires Numeral(x) && Numeral(y)
    ensures CompareInt(x, y) < 0 <==> Value(x, 0) < Value(y, 0)
    ensures CompareInt(x, y) == 0 <==> Value(x, 0) == Value(y, 0)
  {
    TextIsOrdered();
    assert CompareText(x, y) < 0 <==> CompareText(y, x) > 0;
    assert CompareText(y, x) < 0 <==> CompareText(x, y) > 0;
    assert CompareText(x, y) == 0 <==> x == y;
    if |x| < |y| {
      LongerIsLarger(x, y, 0);
    } else if |y| < |x| {
      LongerIsLarger(y, x, 0);
    } else if CompareText(x, y) < 0 {
      SameLengthByText(x, y, 0);
    } else if x != y {
      SameLengthByText(y, x, 0);
    }
  }

  /** Lists compare by the lexical order of what their members' comparison means. */
  lemma {:induction false} ListsCompareLexically<T>(x: seq<T>, y: seq<T>, cmp: (T, T) -> int, below: (T, T) -> bool)
    requires forall a, b :: a in x && b in y && a != b ==> (cmp(a, b) < 0 <==> below(a, b))
    requires forall a :: a in x ==> !below(a, a)
    ensures CompareLists(x, y, cmp) < 0 <==> LexBelow(x, y, below)
  {
    if x == [] {
      if y != [] { assert x[..0] == y[..0]; }
    } else if y != [] {
      if x[0] == y[0] {
        ListsCompareLexically(x[1..], y[1..], cmp, below);
        if LexBelow(x[1..], y[1..], below) {
          var k :| 0 <= k <= |x| - 1 && k < |y| - 1 && x[1..][..k] == y[1..][..k] && (k == |x| - 1 || below(x[1..][k], y[1..][k]));
          assert x[..k + 1] == [x[0]] + x[1..][..k];
          assert y[..k + 1] == [y[0]] + y[1..][..k];
        }
        if LexBelow(x, y, below) {
          var k :| 0 <= k <= |x| && k < |y| && x[..k] == y[..k] && (k == |x| || below(x[k], y[k]));
          assert k > 0;
          assert x[1..][..k - 1] == x[..k][1..] == y[..k][1..] == y[1..][..k - 1];
        }
      } else {
        assert x[..0] == y[..0];
        if LexBelow(x, y, below) {
          var k :| 0 <= k <= |x| && k < |y| && x[..k] == y[..k] && (k == |x| || below(x[k], y[k]));
          if k > 0 { assert x[..k][0] == y[..k][0]; }
        }
      }
    }
  }

  lemma IdentifiersCompareByMeaning(x: string, y: string)
    requires PrereleaseIdentifier(x) && PrereleaseIdentifier(y)
    ensures CompareIdent(x, y) < 0 <==> IdentBelow(x, y)
  {
    if Numeric(x) && Numeric(y) {
      NumeralsCompareByValue(x, y);
    } else if !Numeric(x) && !Numeric(y) {
      ListsCompareLexically(x, y, CompareChar, CharBelow);
      TextIsOrdered();
      assert CompareText(x, x) == 0;
    }
  }

  /** The library's comparison of two valid versions is the precedence of section 11. */
  lemma CompareIsPrecedence(v: Version, w: Version)
    requires WellFormed(v) && WellFormed(w)
    ensures CompareVersions(v, w) < 0 <==> Below(v, w)
    ensures CompareVersions(v, w) > 0 <==> Below(w, v)
  {
    VersionsAreOrdered(v, w, v);
    VersionsAreOrdered(w, v, w);
    LowerIsBelow(v, w);
    LowerIsBelow(w, v);
  }

  lemma LowerIsBelow(v: Version, w: Version)
    requires WellFormed(v) && WellFormed(w)
    ensures CompareVersions(v, w) < 0 <==> Below(v, w)
  {
    hide CompareInt, CompareIdent, CompareLists;
    NumeralsCompareByValue(v.major, w.major);
    NumeralsCompareByValue(v.minor, w.minor);
    NumeralsCompareByValue(v.patch, w.patch);
    forall a, b | a in v.prerelease && b in w.prerelease && a != b
      ensures CompareIdent(a, b) < 0 <==> IdentBelow(a, b)
    {
      IdentifiersCompareByMeaning(a, b);
    }
    forall a | a in v.prerelease
      ensures !IdentBelow(a, a)
    {
      IdentifiersAreOrdered();
      assert CompareIdent(a, a) == 0;
      IdentifiersCompareByMeaning(a, a);
    }
    ListsCompareLexically(v.prerelease, w.prerelease, CompareIdent, IdentBelow);
    ListsAreOrdered(v.prerelease, w.prerelease, v.prerelease, CompareIdent) by { IdentifiersAreOrdered(); }
  }
}
