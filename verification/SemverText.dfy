/** Which strings the library reads as versions, and that each spelling of a version is read as that version. */
module SemverText {
  import opened Wrappers
  import opened Semver
  import opened FileKeys
  import Releases

  /** One or two numbers alone are a version too; what is missing reads as zero. */
  lemma ShortTextIsRead(major: string, minor: string)
    requires Numeral(major) && Numeral(minor)
    ensures Parse("v" + major) == Some(Version(major, "0", "0", [], []))
    ensures Parse("v" + major + "." + minor) == Some(Version(major, minor, "0", [], []))
  {
    hide ParseInt, Numeral, ParseSuffix, DigitsAhead;
    NumeralThenRest(major, "");
    assert major + "" == major && ("v" + major)[1..] == major;
    NumeralThenRest(minor, "");
    assert minor + "" == minor;
    NumeralThenDot(major, minor);
    assert "v" + major + "." + minor == "v" + (major + "." + minor);
    assert ("v" + (major + "." + minor))[1..] == major + "." + minor;
  }

  lemma ReadNumber(s: string)
    requires ParseInt(s).Some?
    ensures s == ParseInt(s).value.0 + ParseInt(s).value.1 && Numeral(ParseInt(s).value.0)
  {}

  /** Whatever is read as a version is the text of that version, or one of the two short forms. */
  lemma ReadIsText(s: string)
    requires Parse(s).Some?
    ensures
      var v := Parse(s).value;
      && Printable(v)
      && (|| s == "v" + Show(v)
          || (s == "v" + v.major + "." + v.minor && v == Version(v.major, v.minor, "0", [], []))
          || (s == "v" + v.major && v == Version(v.major, "0", "0", [], [])))
  {
    hide ParseInt, ParseSuffix, Show, Printable, Numeral;
    var major := ParseInt(s[1..]);
    ReadNumber(s[1..]);
    assert s == "v" + s[1..];
    ZeroIsANumeral();
    var v1 := major.value.1;
    if v1 == "" {
      NumbersArePrintable(major.value.0, "0");
    } else {
      var minor := ParseInt(v1[1..]);
      ReadNumber(v1[1..]);
      assert v1 == "." + v1[1..];
      var v2 := minor.value.1;
      if v2 == "" {
        NumbersArePrintable(major.value.0, minor.value.0);
      } else {
        ReadNumber(v2[1..]);
        assert v2 == "." + v2[1..];
        ReadInFull(major.value.0, minor.value.0, v2[1..]);
      }
    }
  }

  lemma ZeroIsANumeral()
    ensures Numeral("0")
  {}

  lemma NumbersArePrintable(major: string, minor: string)
    requires Numeral(major) && Numeral(minor)
    ensures Printable(Version(major, minor, "0", [], []))
  {}

  lemma ReadInFull(major: string, minor: string, s: string)
    requires Numeral(major) && Numeral(minor) && ParseInt(s).Some?
    requires ParseSuffix(major, minor, ParseInt(s).value.0, ParseInt(s).value.1).Some?
    ensures
      var v := ParseSuffix(major, minor, ParseInt(s).value.0, ParseInt(s).value.1).value;
      Printable(v) && Show(v) == major + ("." + (minor + ("." + s)))
  {
    hide ParseSuffix, ShowSuffix, Printable, Numeral;
    ReadNumber(s);
    ReadSuffixIsShown(major, minor, ParseInt(s).value.0, ParseInt(s).value.1);
    SuffixIsPrintable(major, minor, ParseInt(s).value.0, ParseInt(s).value.1);
  }

  /** A release carries a version exactly if its text, with or without a "v" ahead, is one; the "v" makes no difference. */
  lemma LeadingVMakesNoDifference(v: Version)
    requires Printable(v)
    ensures Releases.Readable(Show(v)) && Releases.Read(Show(v)) == v
    ensures Releases.Readable("v" + Show(v)) && Releases.Read("v" + Show(v)) == v
  {
    hide Parse, ValidVersion, Printable;
    ShownIsAccepted(v);
    ShownStartsWithADigit(v);
  }

  lemma ShownStartsWithADigit(v: Version)
    requires Printable(v)
    ensures Show(v) != "" && Show(v)[0] != 'v'
  {
    hide ShowSuffix;
    assert Show(v)[0] == v.major[0] && Digit(v.major[0]);
  }

  /** A text that is no spelling of a version is unreadable, and sorts last. */
  lemma ReadableExactly(s: string)
    ensures Releases.Readable(s) <==> s != "" && Parse(if s[0] == 'v' then s else "v" + s).Some?
    ensures !Releases.Readable(s) ==> forall w :: !Releases.Before(s, w)
  {
    hide Parse;
  }
}
