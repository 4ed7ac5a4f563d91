/** Which versions are accepted, and the storage keys of artifacts. */
module FileKeys {
  import opened Wrappers
  import opened Semver

  // ---- Accepted versions ----

  predicate PatternChar(c: char) { IdentChar(c) || c == '.' }

  /** Nothing, or the mark and at least one more character. */
  predicate PartMatches(s: string, mark: char) {
    s == "" || (|s| > 1 && s[0] == mark && forall i :: 1 <= i < |s| ==> PatternChar(s[i]))
  }

  predicate SuffixMatches(v: string) {
    var n := Find(v, '+');
    PartMatches(v[..n], '-') && PartMatches(v[n..], '+')
  }

  /** The regular expression of release versions: three numbers, a pre-release part, a build part. */
  predicate MatchesPattern(v: string) {
    var a := DigitsAhead(v);
    && 0 < a < |v| && v[a] == '.'
    && var v1 := v[a + 1..];
       var b := DigitsAhead(v1);
       && 0 < b < |v1| && v1[b] == '.'
       && var v2 := v1[b + 1..];
          var c := DigitsAhead(v2);
          0 < c && SuffixMatches(v2[c..])
  }

  predicate ValidVersion(v: string) { MatchesPattern(v) && IsValid("v" + v) }

  /** Identifiers joined by dots. */
  function Join(fs: seq<string>): string
    requires fs != []
  {
    if |fs| == 1 then fs[0] else fs[0] + "." + Join(fs[1..])
  }

  function Part(mark: char, fs: seq<string>): string { if fs == [] then "" else [mark] + Join(fs) }

  function ShowSuffix(v: Version): string { Part('-', v.prerelease) + Part('+', v.build) }

  /** The text of a version, as section 2 and sections 9 and 10 of Semantic Versioning 2.0.0 write it. */
  function Show(v: Version): string {
    var s2 := v.patch + ShowSuffix(v);
    var s1 := v.minor + "." + s2;
    v.major + "." + s1
  }

  predicate Printable(v: Version) { WellFormed(v) && Identifiers(v.build) }

  lemma {:induction false} FindIsUnique(s: string, rest: string, c: char)
    requires c !in s && (rest == "" || rest[0] == c)
    ensures Find(s + rest, c) == |s|
  {
    if s == "" {
      assert s + rest == rest;
    } else {
      FindIsUnique(s[1..], rest, c);
      assert (s + rest)[1..] == s[1..] + rest;
    }
  }

  lemma {:induction false} DigitsAheadIsUnique(s: string, rest: string)
    requires Numeric(s) && (rest == "" || !Digit(rest[0]))
    ensures DigitsAhead(s + rest) == |s|
  {
    if s == "" {
      assert s + rest == rest;
    } else {
      DigitsAheadIsUnique(s[1..], rest);
      assert (s + rest)[1..] == s[1..] + rest;
    }
  }

  lemma NumeralThenRest(s: string, rest: string)
    requires Numeral(s) && (rest == "" || !Digit(rest[0]))
    ensures 0 < DigitsAhead(s + rest) == |s| && (s + rest)[..|s|] == s && (s + rest)[|s|..] == rest
    ensures ParseInt(s + rest) == Some((s, rest))
  {
    DigitsAheadIsUnique(s, rest);
  }

  lemma NoDotInIdentifier(s: string)
    requires Identifier(s)
    ensures '.' !in s
  {}

  lemma FieldsOfOne(a: string)
    requires '.' !in a
    ensures Fields(a) == [a]
  {}

  lemma FieldsOfMore(a: string, rest: string)
    requires '.' !in a
    ensures Fields(a + "." + rest) == [a] + Fields(rest)
  {
    hide Find;
    var s := a + "." + rest;
    assert s == a + ("." + rest);
    FindIsUnique(a, "." + rest, '.');
    assert s[..|a|] == a && s[|a| + 1..] == rest;
  }

  lemma {:induction false} FieldsUndoesJoin(fs: seq<string>)
    requires fs != [] && Identifiers(fs)
    ensures Fields(Join(fs)) == fs
    ensures Join(fs) != "" && forall i :: 0 <= i < |Join(fs)| ==> PatternChar(Join(fs)[i])
  {
    hide IdentChar, Fields;
    NoDotInIdentifier(fs[0]);
    if |fs| == 1 {
      FieldsOfOne(fs[0]);
    } else {
      FieldsUndoesJoin(fs[1..]);
      FieldsOfMore(fs[0], Join(fs[1..]));
    }
  }

  lemma {:induction false} JoinUndoesFields(s: string)
    ensures Join(Fields(s)) == s
    decreases |s|
  {
    var n := Find(s, '.');
    if n < |s| {
      JoinUndoesFields(s[n + 1..]);
      assert Fields(s)[1..] == Fields(s[n + 1..]);
      assert s == s[..n] + "." + s[n + 1..];
    }
  }

  lemma PartRoundTrip(mark: char, fs: seq<string>)
    requires Identifiers(fs)
    ensures fs == [] <==> Part(mark, fs) == ""
    ensures fs != [] ==> Part(mark, fs)[0] == mark && Fields(Part(mark, fs)[1..]) == fs
    ensures PartMatches(Part(mark, fs), mark)
    ensures mark != '+' ==> '+' !in Part(mark, fs)
  {
    hide Fields, Join;
    if fs != [] {
      FieldsUndoesJoin(fs);
      assert Part(mark, fs)[1..] == Join(fs);
    }
  }

  lemma CutAt(a: string, b: string)
    ensures (a + b)[..|a|] == a && (a + b)[|a|..] == b
  {}

  /** Printing a suffix and reading it again. */
  lemma SuffixRoundTrip(v: Version)
    requires Printable(v)
    ensures SuffixMatches(ShowSuffix(v))
    ensures ParseSuffix(v.major, v.minor, v.patch, ShowSuffix(v)) == Some(v)
    ensures ShowSuffix(v) == "" || ShowSuffix(v)[0] == '-' || ShowSuffix(v)[0] == '+'
  {
    hide Part, PartMatches, Fields, Find, Identifier, PrereleaseIdentifier, Numeral;
    var pre, build := Part('-', v.prerelease), Part('+', v.build);
    PrereleaseIdentifiersAreIdentifiers(v.prerelease);
    PartRoundTrip('-', v.prerelease);
    PartRoundTrip('+', v.build);
    FindIsUnique(pre, build, '+');
    var s := pre + build;
    CutAt(pre, build);
    if v.prerelease != [] { assert s[1..|pre|] == pre[1..]; }
    if v.build != [] { assert s[|pre| + 1..] == build[1..]; }
  }

  lemma PrereleaseIdentifiersAreIdentifiers(fs: seq<string>)
    requires PrereleaseIdentifiers(fs)
    ensures Identifiers(fs)
  {}

  /** Every version that Semantic Versioning 2.0.0 can write is accepted and read back unchanged. */
  lemma ShownIsAccepted(v: Version)
    requires Printable(v)
    ensures ValidVersion(Show(v)) && Parse("v" + Show(v)) == Some(v)
  {
    hide SuffixMatches, ParseSuffix, ShowSuffix, ParseInt, Find, DigitsAhead, Identifiers, PrereleaseIdentifiers, Numeral;
    SuffixRoundTrip(v);
    var s2 := v.patch + ShowSuffix(v);
    var s1 := v.minor + "." + s2;
    var s0 := Show(v);
    NumeralThenRest(v.patch, ShowSuffix(v));
    NumeralThenDot(v.minor, s2);
    NumeralThenDot(v.major, s1);
    assert s0 == v.major + "." + s1;
    assert ("v" + s0)[1..] == s0;
    ParseThreeNumbers(s0, v, s1, s2);
    assert MatchesPattern(s0);
  }

  lemma NumeralThenDot(s: string, rest: string)
    requires Numeral(s)
    ensures
      var t := s + "." + rest;
      && 0 < DigitsAhead(t) == |s| < |t| && t[|s|] == '.' && t[|s| + 1..] == rest
      && ParseInt(t) == Some((s, "." + rest)) && ("." + rest)[0] == '.' && ("." + rest)[1..] == rest
  {
    assert s + "." + rest == s + ("." + rest);
    NumeralThenRest(s, "." + rest);
  }

  lemma ParseThreeNumbers(s0: string, v: Version, s1: string, s2: string)
    requires ParseInt(s0) == Some((v.major, "." + s1)) && ParseInt(s1) == Some((v.minor, "." + s2))
    requires ParseInt(s2).Some? && ParseInt(s2).value.0 == v.patch
    ensures Parse("v" + s0) == ParseSuffix(v.major, v.minor, v.patch, ParseInt(s2).value.1)
  {}

  /** What a suffix that is read says is what it was. */
  lemma ReadSuffixIsShown(major: string, minor: string, patch: string, s: string)
    requires ParseSuffix(major, minor, patch, s).Some?
    ensures ShowSuffix(ParseSuffix(major, minor, patch, s).value) == s
  {
    hide Fields, Join, Find, Identifiers, PrereleaseIdentifiers;
    var n := Find(s, '+');
    if n > 0 {
      JoinUndoesFields(s[1..n]);
      assert s[..n] == ['-'] + s[1..n];
    }
    if n < |s| {
      JoinUndoesFields(s[n + 1..]);
      assert s[n..] == ['+'] + s[n + 1..];
    }
    assert s == s[..n] + s[n..];
  }

  /** A version accepted by the pattern is read as three numbers and a suffix. */
  lemma AcceptedIsRead(v: string, v1: string, v2: string)
    requires ValidVersion(v) && v1 == v[DigitsAhead(v) + 1..] && v2 == v1[DigitsAhead(v1) + 1..]
    ensures ParseInt(v).Some? && ParseInt(v1).Some? && ParseInt(v2).Some? && Parse("v" + v).Some?
    ensures Parse("v" + v) == ParseSuffix(v[..DigitsAhead(v)], v1[..DigitsAhead(v1)], v2[..DigitsAhead(v2)], v2[DigitsAhead(v2)..])
  {
    hide SuffixMatches, ParseSuffix, ParseInt, DigitsAhead;
    assert ("v" + v)[1..] == v;
    NumberAhead(v);
    NumberAhead(v1);
    NumberAhead(v2);
    assert v[DigitsAhead(v)..][1..] == v1 && v1[DigitsAhead(v1)..][1..] == v2;
  }

  lemma AcceptedHasDots(v: string)
    requires ValidVersion(v)
    ensures DigitsAhead(v) < |v| && DigitsAhead(v[DigitsAhead(v) + 1..]) < |v[DigitsAhead(v) + 1..]|
  {
    hide DigitsAhead, SuffixMatches, IsValid;
  }

  /** The three numbers of an accepted version, and the text around them. */
  lemma AcceptedInParts(v: string, v1: string, v2: string)
    requires ValidVersion(v) && v1 == v[DigitsAhead(v) + 1..] && v2 == v1[DigitsAhead(v1) + 1..]
    ensures v == v[..DigitsAhead(v)] + "." + v1 && v1 == v1[..DigitsAhead(v1)] + "." + v2
    ensures Numeral(v[..DigitsAhead(v)]) && Numeral(v1[..DigitsAhead(v1)]) && Numeral(v2[..DigitsAhead(v2)])
  {
    hide SuffixMatches, DigitsAhead, Numeral, Parse, ParseInt;
    AcceptedIsRead(v, v1, v2);
    NumberAhead(v);
    NumberAhead(v1);
    NumberAhead(v2);
    CutNumber(v, DigitsAhead(v));
    CutNumber(v1, DigitsAhead(v1));
  }

  /** Every accepted version is the text of exactly one version of Semantic Versioning 2.0.0. */
  lemma AcceptedIsShown(v: string)
    requires ValidVersion(v)
    ensures Printable(Parse("v" + v).value) && Show(Parse("v" + v).value) == v
  {
    hide *;
    AcceptedHasDots(v);
    var v1 := v[DigitsAhead(v) + 1..];
    var v2 := v1[DigitsAhead(v1) + 1..];
    var major, minor, patch, rest := v[..DigitsAhead(v)], v1[..DigitsAhead(v1)], v2[..DigitsAhead(v2)], v2[DigitsAhead(v2)..];
    AcceptedInParts(v, v1, v2);
    AcceptedIsRead(v, v1, v2);
    assert v2 == patch + rest;
    PartsMakeVersion(v, v1, v2, major, minor, patch, rest);
  }

  lemma PartsMakeVersion(v: string, v1: string, v2: string, major: string, minor: string, patch: string, rest: string)
    requires v == major + "." + v1 && v1 == minor + "." + v2 && v2 == patch + rest
    requires Numeral(major) && Numeral(minor) && Numeral(patch)
    requires Parse("v" + v).Some? && Parse("v" + v) == ParseSuffix(major, minor, patch, rest)
    ensures Printable(Parse("v" + v).value) && Show(Parse("v" + v).value) == v
  {
    hide ParseSuffix, ShowSuffix, Show, Printable, Numeral, Parse;
    ReadSuffixIsShown(major, minor, patch, rest);
    SuffixIsPrintable(major, minor, patch, rest);
    ShownFromParts(Parse("v" + v).value, major, minor, patch, rest);
  }

  lemma ShownFromParts(ver: Version, major: string, minor: string, patch: string, rest: string)
    requires ver.major == major && ver.minor == minor && ver.patch == patch && ShowSuffix(ver) == rest
    ensures Show(ver) == major + "." + (minor + "." + (patch + rest))
  {}

  lemma CutNumber(v: string, a: nat)
    requires a < |v| && v[a] == '.'
    ensures v == v[..a] + "." + v[a + 1..]
  {}

  lemma NumberAhead(v: string)
    ensures ParseInt(v).Some? ==> ParseInt(v) == Some((v[..DigitsAhead(v)], v[DigitsAhead(v)..])) && Numeral(v[..DigitsAhead(v)])
  {}

  lemma SuffixIsPrintable(major: string, minor: string, patch: string, s: string)
    requires ParseSuffix(major, minor, patch, s).Some?
    requires Numeral(major) && Numeral(minor) && Numeral(patch)
    ensures
      var v := ParseSuffix(major, minor, patch, s).value;
      Printable(v) && v.major == major && v.minor == minor && v.patch == patch
  {}

  // ---- Storage keys ----

  predicate Platform(p: string) { p in PLATFORMS }

  const PLATFORMS := ["darwin-arm64", "darwin-x64", "windows-arm64", "windows-x64", "linux-arm64", "linux-x64", "linux-armhf"]

  predicate KeyChar(c: char) { IdentChar(c) || c == '.' || c == '_' }

  function BadAhead(s: string): (n: nat)
    ensures n <= |s| && (s != "" && !KeyChar(s[0]) ==> n > 0)
  {
    if s == "" || KeyChar(s[0]) then 0 else 1 + BadAhead(s[1..])
  }

  /** Every run of other characters becomes one underscore. */
  function SafeKeyComponent(s: string): string
    decreases |s|
  {
    if s == "" then ""
    else if KeyChar(s[0]) then [s[0]] + SafeKeyComponent(s[1..])
    else "_" + SafeKeyComponent(s[BadAhead(s)..])
  }

  function Lower(s: string): (t: string)
    ensures |t| == |s|
  {
    if s == "" then "" else [if 'A' <= s[0] <= 'Z' then s[0] - 'A' + 'a' else s[0]] + Lower(s[1..])
  }

  predicate EndsWith(s: string, suffix: string) { |suffix| <= |s| && s[|s| - |suffix|..] == suffix }

  /** The text from the last dot of the last path element. */
  function Ext(path: string): string
    decreases |path|
  {
    if path == "" || path[|path| - 1] == '/' then ""
    else if path[|path| - 1] == '.' then "."
    else
      var e := Ext(path[..|path| - 1]);
      if e == "" then "" else e + [path[|path| - 1]]
  }

  function NormalizeExt(filename: string): string {
    var lower := Lower(filename);
    if EndsWith(lower, ".tar.gz") then ".tar.gz"
    else if EndsWith(lower, ".tar.xz") then ".tar.xz"
    else if EndsWith(lower, ".tar.bz2") then ".tar.bz2"
    else if EndsWith(lower, ".tar.zst") then ".tar.zst"
    else Lower(Ext(filename))
  }

  predicate ValidExtension(ext: string) {
    ext in [".dmg", ".pkg", ".zip", ".tar.gz", ".tar.xz", ".tar.bz2", ".tar.zst", ".tgz", ".tar", ".gz", ".xz",
            ".exe", ".msi", ".nupkg", ".appimage", ".deb", ".rpm", ".snap", ".flatpak", ".bin", ".app", ".7z"]
  }

  function KeyExt(filename: string): string {
    if ValidExtension(NormalizeExt(filename)) then NormalizeExt(filename) else ""
  }

  function BuildFileKey(slug: string, platform: string, version: string, filename: string): string {
    "releases/" + (SafeKeyComponent(slug) + ("/" + (SafeKeyComponent(version) + ("/" + (SafeKeyComponent(platform) + KeyExt(filename))))))
  }

  lemma {:induction false} SafeIsKeyChars(s: string)
    ensures forall i :: 0 <= i < |SafeKeyComponent(s)| ==> KeyChar(SafeKeyComponent(s)[i])
    decreases |s|
  {
    if s != "" { SafeIsKeyChars(if KeyChar(s[0]) then s[1..] else s[BadAhead(s)..]); }
  }

  lemma {:induction false} SafeKeepsKeyChars(s: string)
    requires forall i :: 0 <= i < |s| ==> KeyChar(s[i])
    ensures SafeKeyComponent(s) == s
  {
    if s != "" { SafeKeepsKeyChars(s[1..]); }
  }

  /** Characters of a key, and at most one "+". */
  predicate OnePlus(s: string) {
    && (forall i :: 0 <= i < |s| ==> PatternChar(s[i]) || s[i] == '+')
    && (forall i, j :: 0 <= i < j < |s| && s[i] == '+' ==> s[j] != '+')
  }

  lemma AcceptedHasOnePlus(v: string)
    requires ValidVersion(v)
    ensures OnePlus(v)
  {
    hide IsValid, SuffixMatches, DigitsAhead, OnePlus;
    var a := DigitsAhead(v);
    var v1 := v[a + 1..];
    var b := DigitsAhead(v1);
    var v2 := v1[b + 1..];
    var c := DigitsAhead(v2);
    SuffixHasOnePlus(v2[c..]);
    assert v2 == v2[..c] + v2[c..];
    StillOnePlus(v2[..c], v2[c..]);
    NumberStillOnePlus(v1, b);
    NumberStillOnePlus(v, a);
  }

  lemma NumberStillOnePlus(v: string, a: nat)
    requires a < |v| && v[a] == '.' && Numeric(v[..a]) && OnePlus(v[a + 1..])
    ensures OnePlus(v)
  {}

  lemma StillOnePlus(x: string, s: string)
    requires OnePlus(s) && forall i :: 0 <= i < |x| ==> PatternChar(x[i])
    ensures OnePlus(x + s)
  {}

  lemma SuffixHasOnePlus(s: string)
    requires SuffixMatches(s)
    ensures OnePlus(s)
  {
    forall i | 0 <= i < |s|
      ensures (PatternChar(s[i]) || s[i] == '+') && (s[i] == '+' ==> i == Find(s, '+'))
    {
      SuffixChars(s, i);
    }
  }

  lemma SuffixChars(s: string, i: nat)
    requires SuffixMatches(s) && i < |s|
    ensures (PatternChar(s[i]) || s[i] == '+') && (s[i] == '+' ==> i == Find(s, '+'))
  {
    hide PartMatches, IdentChar;
    var n := Find(s, '+');
    if i < n {
      assert s[i] == s[..n][i];
      PartChars(s[..n], '-', i);
    } else {
      assert s[i] == s[n..][i - n];
      PartChars(s[n..], '+', i - n);
    }
  }

  lemma PartChars(s: string, mark: char, i: nat)
    requires PartMatches(s, mark) && i < |s|
    ensures if i == 0 then s[i] == mark else PatternChar(s[i]) && s[i] != '+'
    ensures PatternChar('-')
  {}

  /** With one "+" at most, sanitising only replaces it. */
  lemma {:induction false} SafeReplacesPlus(s: string)
    requires OnePlus(s)
    ensures |SafeKeyComponent(s)| == |s|
    ensures forall i :: 0 <= i < |s| ==> SafeKeyComponent(s)[i] == if s[i] == '+' then '_' else s[i]
  {
    if s != "" {
      assert OnePlus(s[1..]);
      if s[0] == '+' {
        assert |s| > 1 ==> KeyChar(s[1]);
        assert BadAhead(s) == 1;
      }
      SafeReplacesPlus(s[1..]);
    }
  }

  lemma AcceptedVersionsStayApart(v: string, w: string)
    requires ValidVersion(v) && ValidVersion(w) && SafeKeyComponent(v) == SafeKeyComponent(w)
    ensures v == w
  {
    hide ValidVersion;
    AcceptedHasOnePlus(v);
    AcceptedHasOnePlus(w);
    SafeReplacesPlus(v);
    SafeReplacesPlus(w);
    forall i | 0 <= i < |v|
      ensures v[i] == w[i]
    {
      assert SafeKeyComponent(v)[i] == SafeKeyComponent(w)[i];
    }
  }

  /** Texts without `c` before the first `c` can be told apart. */
  lemma SplitAt(a: string, x: string, b: string, y: string, c: char)
    requires c !in a && c !in b && (x == "" || x[0] == c) && (y == "" || y[0] == c)
    ensures a + x == b + y <==> a == b && x == y
  {
    if a + x == b + y {
      FindIsUnique(a, x, c);
      FindIsUnique(b, y, c);
      assert a == (a + x)[..|a|] == (b + y)[..|b|];
      assert x == (a + x)[|a|..] == (b + y)[|b|..];
    }
  }

  lemma PlatformsAreKeyChars(p: string)
    requires Platform(p)
    ensures '.' !in p && SafeKeyComponent(p) == p
  {
    hide SafeKeyComponent, KeyChar;
    assert forall i :: 0 <= i < |p| ==> KeyChar(p[i]) && p[i] != '.' by { PlatformChars(p); }
    SafeKeepsKeyChars(p);
  }

  lemma PlatformChars(p: string)
    requires Platform(p)
    ensures forall i :: 0 <= i < |p| ==> KeyChar(p[i]) && p[i] != '.'
  {}

  lemma ExtStartsWithDot(filename: string)
    ensures KeyExt(filename) == "" || KeyExt(filename)[0] == '.'
  {}

  /** Two keys are equal exactly when sanitised slug, version, platform and extension are. */
  lemma FileKeysAgreeExactly(
      slug: string, platform: string, version: string, filename: string,
      slug': string, platform': string, version': string, filename': string)
    requires Platform(platform) && Platform(platform') && ValidVersion(version) && ValidVersion(version')
    ensures BuildFileKey(slug, platform, version, filename) == BuildFileKey(slug', platform', version', filename')
        <==> SafeKeyComponent(slug) == SafeKeyComponent(slug') && version == version' && platform == platform'
             && KeyExt(filename) == KeyExt(filename')
  {
    hide ValidVersion, KeyExt, SafeKeyComponent, Platform;
    PlatformsAreKeyChars(platform);
    PlatformsAreKeyChars(platform');
    ExtStartsWithDot(filename);
    ExtStartsWithDot(filename');
    SafeIsKeyChars(slug);
    SafeIsKeyChars(slug');
    SafeIsKeyChars(version);
    SafeIsKeyChars(version');
    if SafeKeyComponent(version) == SafeKeyComponent(version') { AcceptedVersionsStayApart(version, version'); }
    KeyParts(SafeKeyComponent(slug), SafeKeyComponent(version), platform, KeyExt(filename),
             SafeKeyComponent(slug'), SafeKeyComponent(version'), platform', KeyExt(filename'));
  }

  /** The parts of a key can be read off it. */
  lemma KeyParts(s: string, v: string, p: string, e: string, s': string, v': string, p': string, e': string)
    requires '/' !in s && '/' !in s' && '/' !in v && '/' !in v' && '.' !in p && '.' !in p'
    requires (e == "" || e[0] == '.') && (e' == "" || e'[0] == '.')
    ensures "releases/" + (s + ("/" + (v + ("/" + (p + e))))) == "releases/" + (s' + ("/" + (v' + ("/" + (p' + e')))))
        <==> s == s' && v == v' && p == p' && e == e'
  {
    hide Find;
    SplitAt(p, e, p', e', '.');
    AfterPrefix("/", p + e, p' + e');
    SplitAt(v, "/" + (p + e), v', "/" + (p' + e'), '/');
    AfterPrefix("/", v + ("/" + (p + e)), v' + ("/" + (p' + e')));
    SplitAt(s, "/" + (v + ("/" + (p + e))), s', "/" + (v' + ("/" + (p' + e'))), '/');
    AfterPrefix("releases/", s + ("/" + (v + ("/" + (p + e)))), s' + ("/" + (v' + ("/" + (p' + e')))));
  }

  lemma AfterPrefix(prefix: string, x: string, y: string)
    ensures prefix + x == prefix + y <==> x == y
  {
    assert (prefix + x)[|prefix|..] == x && (prefix + y)[|prefix|..] == y;
  }

  /** For slugs of key characters, equal keys mean equal slug, version and platform, whatever the files are called. */
  lemma FileKeyIsInjective(
      slug: string, platform: string, version: string, filename: string,
      slug': string, platform': string, version': string, filename': string)
    requires Platform(platform) && Platform(platform') && ValidVersion(version) && ValidVersion(version')
    requires forall i :: 0 <= i < |slug| ==> KeyChar(slug[i])
    requires forall i :: 0 <= i < |slug'| ==> KeyChar(slug'[i])
    requires BuildFileKey(slug, platform, version, filename) == BuildFileKey(slug', platform', version', filename')
    ensures slug == slug' && version == version' && platform == platform'
  {
    FileKeysAgreeExactly(slug, platform, version, filename, slug', platform', version', filename');
    SafeKeepsKeyChars(slug);
    SafeKeepsKeyChars(slug');
  }

  /** Slugs of other characters can share a key. */
  lemma OtherSlugsCollide(platform: string, version: string, filename: string)
    ensures BuildFileKey("a b", platform, version, filename) == BuildFileKey("a_b", platform, version, filename)
  {}
}
