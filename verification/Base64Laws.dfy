/** What base64url says of bytes: the alphabet, the bits in order, and which strings decode. */
module Base64Laws {
  import opened Wrappers
  import opened Base64Url

  const UPPER := "ABCDEFGHIJKLMNOPQRSTUVWXYZ"
  const LOWER := "abcdefghijklmnopqrstuvwxyz"
  const DIGITS := "0123456789"

  /** Table 2 of section 5 of RFC 4648. */
  lemma AlphabetIsTheTable(v: Sextet)
    ensures Char(v) == if v < 26 then UPPER[v] else if v < 52 then LOWER[v - 26] else if v < 62 then DIGITS[v - 52]
                       else if v == 62 then '-' else '_'
    ensures Value(Char(v)) == Some(v)
  {
    if v < 26 { UpperCase(v); } else if v < 52 { LowerCase(v - 26); }
  }

  lemma UpperCase(i: nat)
    requires i < 26
    ensures UPPER[i] == 'A' + i as char
  {}

  lemma LowerCase(i: nat)
    requires i < 26
    ensures LOWER[i] == 'a' + i as char
  {}

  /** The number that the characters denote, six bits each, after the bits worth `acc`. */
  function Number64(s: string, acc: nat): nat
    requires InAlphabet(s)
  {
    if s == "" then acc else Number64(s[1..], acc * 64 + Value(s[0]).value)
  }

  /** The number that the bytes denote, eight bits each, after the bits worth `acc`. */
  function Number256(b: seq<Byte>, acc: nat): nat {
    if b == [] then acc else Number256(b[1..], acc * 256 + b[0])
  }

  lemma TripleIsTheNumber(p: Byte, q: Byte, r: Byte, acc: nat)
    ensures ((((acc * 64 + S0(p)) * 64 + S1(p, q)) * 64 + S2(q, r)) * 64) + S3(r) == ((acc * 256 + p) * 256 + q) * 256 + r
  {}

  lemma NumberOfChar(v: Sextet, rest: string, acc: nat)
    requires InAlphabet(rest)
    ensures InAlphabet([Char(v)] + rest) && Number64([Char(v)] + rest, acc) == Number64(rest, acc * 64 + v)
  {
    hide Char, Value;
    CharValue(v);
    assert ([Char(v)] + rest)[1..] == rest;
  }

  /**
   The characters are the bits of the bytes, in order, and zeros that fill the last one: none,
   four or two; and there are no more characters than that takes.
   */
  lemma {:induction false} EncodingIsTheBits(b: seq<Byte>, acc: nat)
    ensures |b| % 3 == 0 ==> Number64(Encode(b), acc) == Number256(b, acc)
    ensures |b| % 3 == 1 ==> Number64(Encode(b), acc) == Number256(b, acc) * 16
    ensures |b| % 3 == 2 ==> Number64(Encode(b), acc) == Number256(b, acc) * 4
    ensures |Encode(b)| == (8 * |b| + 5) / 6
    decreases |b|
  {
    hide Char, Value, S0, S1, S2, S3, InAlphabet, Number64, Number256, Encode;
    if |b| >= 3 {
      WholeTriple(b, acc);
      EncodingIsTheBits(b[3..], ((acc * 256 + b[0]) * 256 + b[1]) * 256 + b[2]);
    } else if |b| == 2 {
      LastTwo(b[0], b[1], acc);
      assert b == [b[0], b[1]];
    } else if |b| == 1 {
      LastOne(b[0], acc);
      assert b == [b[0]];
    } else {
      Nothing(acc);
    }
  }

  lemma WholeTriple(b: seq<Byte>, acc: nat)
    requires |b| >= 3
    ensures
      var next := ((acc * 256 + b[0]) * 256 + b[1]) * 256 + b[2];
      && Number64(Encode(b), acc) == Number64(Encode(b[3..]), next) && Number256(b, acc) == Number256(b[3..], next)
      && |Encode(b)| == 4 + |Encode(b[3..])|
  {
    hide Char, Value, S0, S1, S2, S3, InAlphabet;
    var rest := Encode(b[3..]);
    var x, y, z, w := S0(b[0]), S1(b[0], b[1]), S2(b[1], b[2]), S3(b[2]);
    assert Encode(b) == [Char(x)] + ([Char(y)] + ([Char(z)] + ([Char(w)] + rest)));
    NumberOfChar(w, rest, ((acc * 64 + x) * 64 + y) * 64 + z);
    NumberOfChar(z, [Char(w)] + rest, (acc * 64 + x) * 64 + y);
    NumberOfChar(y, [Char(z)] + ([Char(w)] + rest), acc * 64 + x);
    NumberOfChar(x, [Char(y)] + ([Char(z)] + ([Char(w)] + rest)), acc);
    TripleIsTheNumber(b[0], b[1], b[2], acc);
    assert b[1..][1..] == b[2..] && b[2..][1..] == b[3..];
    assert Number256(b, acc) == Number256(b[1..], acc * 256 + b[0]) == Number256(b[2..], (acc * 256 + b[0]) * 256 + b[1]);
  }

  lemma LastTwo(p: Byte, q: Byte, acc: nat)
    ensures Number64(Encode([p, q]), acc) == Number256([p, q], acc) * 4 && |Encode([p, q])| == 3
  {
    hide Char, Value, S0, S1, S2, InAlphabet;
    var x, y, z := S0(p), S1(p, q), S2(q, 0);
    assert Encode([p, q]) == [Char(x)] + ([Char(y)] + ([Char(z)] + ""));
    EmptyIsInAlphabet();
    NumberOfChar(z, "", (acc * 64 + x) * 64 + y);
    NumberOfChar(y, [Char(z)] + "", acc * 64 + x);
    NumberOfChar(x, [Char(y)] + ([Char(z)] + ""), acc);
    TripleIsTheNumber(p, q, 0, acc);
    TwoBytes(p, q, acc);
  }

  lemma TwoBytes(p: Byte, q: Byte, acc: nat)
    ensures Number256([p, q], acc) == (acc * 256 + p) * 256 + q
  {
    assert [p, q][1..] == [q] && [q][1..] == [];
    assert Number256([p, q], acc) == Number256([q], acc * 256 + p);
  }

  lemma LastOne(p: Byte, acc: nat)
    ensures Number64(Encode([p]), acc) == Number256([p], acc) * 16 && |Encode([p])| == 2
  {
    hide Char, Value, InAlphabet;
    var x, y := S0(p), S1(p, 0);
    assert Encode([p]) == [Char(x)] + ([Char(y)] + "");
    EmptyIsInAlphabet();
    NumberOfChar(y, "", acc * 64 + x);
    NumberOfChar(x, [Char(y)] + "", acc);
    assert [p][1..] == [];
  }

  lemma Nothing(acc: nat)
    ensures Encode([]) == "" && Number64("", acc) == Number256([], acc) == acc
  {}

  lemma EmptyIsInAlphabet()
    ensures InAlphabet("")
  {}

  lemma OneMoreLetter(c: char, rest: string)
    ensures InAlphabet([c] + rest) <==> Value(c).Some? && InAlphabet(rest)
  {
    hide Value;
    var s := [c] + rest;
    assert s[0] == c && forall i :: 0 <= i < |rest| ==> s[i + 1] == rest[i];
    assert forall i :: 1 <= i < |s| ==> s[i] == rest[i - 1];
  }

  /** Of a string with so many letters at least: it is over the alphabet if these and the rest are. */
  lemma LettersAhead(s: string, n: nat)
    requires n <= |s| && n <= 4
    ensures InAlphabet(s) <==> (forall i :: 0 <= i < n ==> Value(s[i]).Some?) && InAlphabet(s[n..])
  {
    hide Value, InAlphabet;
    if n > 0 {
      LettersAhead(s, n - 1);
      assert s[n - 1..] == [s[n - 1]] + s[n..];
      OneMoreLetter(s[n - 1], s[n..]);
    } else {
      assert s[0..] == s;
    }
  }

  /** The lenient discipline takes exactly the strings over the alphabet that leave no lone character. */
  lemma {:induction false} DecodesExactly(s: string)
    ensures Decode(s, false).Some? <==> InAlphabet(s) && |s| % 4 != 1
    decreases |s|
  {
    hide Value, InAlphabet, B0, B1, B2;
    EmptyIsInAlphabet();
    if |s| >= 4 {
      DecodesExactly(s[4..]);
      LettersAhead(s, 4);
    } else {
      LettersAhead(s, |s|);
      assert s[|s|..] == "";
    }
  }

  predicate IsNewline(c: char) { c == '\n' || c == '\r' }

  function LettersIn(s: string): nat {
    if s == "" then 0 else (if IsNewline(s[0]) then 0 else 1) + LettersIn(s[1..])
  }

  lemma {:induction false} DroppedExactly(s: string)
    ensures |DropNewlines(s)| == LettersIn(s)
    ensures InAlphabet(DropNewlines(s)) <==> forall i :: 0 <= i < |s| ==> IsNewline(s[i]) || Value(s[i]).Some?
  {
    hide Value;
    if s != "" {
      DroppedExactly(s[1..]);
      var rest := DropNewlines(s[1..]);
      assert DropNewlines(s) == if IsNewline(s[0]) then rest else [s[0]] + rest;
      OneMoreLetter(s[0], rest);
      if forall i :: 0 <= i < |s| ==> IsNewline(s[i]) || Value(s[i]).Some? {
        assert forall i :: 0 <= i < |s| - 1 ==> s[1..][i] == s[i + 1];
      }
      if InAlphabet(DropNewlines(s)) {
        assert forall i :: 1 <= i < |s| ==> s[i] == s[1..][i - 1];
      }
    }
  }

  /** Go's decoder takes exactly the strings of letters of the alphabet and line breaks that leave no lone letter. */
  lemma GoDecodesExactly(s: string)
    ensures GoDecode(s).Some? <==>
      (forall i :: 0 <= i < |s| ==> IsNewline(s[i]) || Value(s[i]).Some?) && LettersIn(s) % 4 != 1
  {
    DroppedExactly(s);
    DecodesExactly(DropNewlines(s));
  }
}
