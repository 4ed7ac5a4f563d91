/**
 Unpadded base64url (section 5 of RFC 4648) as the two token readers see it:
 the strict decoder of the Rust client and the lenient decoder of the Go server.
 */
module Base64Url {
  import opened Wrappers

  type Sextet = v: int | 0 <= v < 64

  /** The character of a six-bit value. */
  function Char(v: Sextet): (c: char)
  {
    if v < 26 then 'A' + v as char
    else if v < 52 then 'a' + (v - 26) as char
    else if v < 62 then '0' + (v - 52) as char
    else if v == 62 then '-' else '_'
  }

  /** The six-bit value of a character, when it belongs to the alphabet. */
  function Value(c: char): (v: Option<Sextet>)
  {
    if 'A' <= c <= 'Z' then Some((c - 'A') as int)
    else if 'a' <= c <= 'z' then Some((c - 'a') as int + 26)
    else if '0' <= c <= '9' then Some((c - '0') as int + 52)
    else if c == '-' then Some(62)
    else if c == '_' then Some(63)
    else None
  }

  lemma CharValue(v: Sextet)
    ensures Value(Char(v)) == Some(v)
  {}

  lemma ValueChar(c: char)
    ensures Value(c).Some? ==> Char(Value(c).value) == c
  {}

  // The bits of three bytes regrouped as four sextets, and back.
  function S0(p: Byte): Sextet { p / 4 }
  function S1(p: Byte, q: Byte): Sextet { p % 4 * 16 + q / 16 }
  function S2(q: Byte, r: Byte): Sextet { q % 16 * 4 + r / 64 }
  function S3(r: Byte): Sextet { r % 64 }
  function B0(x: Sextet, y: Sextet): Byte { x * 4 + y / 16 }
  function B1(y: Sextet, z: Sextet): Byte { y % 16 * 16 + z / 4 }
  function B2(z: Sextet, w: Sextet): Byte { z % 4 * 64 + w }

  predicate InAlphabet(s: string) {
    forall i :: 0 <= i < |s| ==> Value(s[i]).Some?
  }

  /** Three bytes become four characters; one or two trailing bytes become two or three. */
  function Encode(b: seq<Byte>): (s: string)
    ensures InAlphabet(s)
    ensures |b| == 0 <==> |s| == 0
  {
    if |b| == 0 then []
    else if |b| == 1 then [Char(S0(b[0])), Char(S1(b[0], 0))]
    else if |b| == 2 then [Char(S0(b[0])), Char(S1(b[0], b[1])), Char(S2(b[1], 0))]
    else [Char(S0(b[0])), Char(S1(b[0], b[1])), Char(S2(b[1], b[2])), Char(S3(b[2]))] + Encode(b[3..])
  }

  /** Decoding; `strict` refuses non-zero bits after the last whole byte. */
  function Decode(s: string, strict: bool): (b: Option<seq<Byte>>)
  {
    if |s| == 0 then Some([])
    else if |s| == 1 then None
    else
      var x, y := Value(s[0]), Value(s[1]);
      if x.None? || y.None? then None
      else if |s| == 2 then
        if strict && y.value % 16 != 0 then None
        else Some([B0(x.value, y.value)])
      else
        var z := Value(s[2]);
        if z.None? then None
        else if |s| == 3 then
          if strict && z.value % 4 != 0 then None
          else Some([B0(x.value, y.value), B1(y.value, z.value)])
        else
          var w := Value(s[3]);
          var rest := Decode(s[4..], strict);
          if w.None? || rest.None? then None
          else Some([B0(x.value, y.value), B1(y.value, z.value), B2(z.value, w.value)] + rest.value)
  }

  /** Go's decoder drops carriage returns and line feeds before it decodes. */
  function DropNewlines(s: string): string {
    if |s| == 0 then [] else (if s[0] == '\r' || s[0] == '\n' then [] else [s[0]]) + DropNewlines(s[1..])
  }

  function GoDecode(s: string): Option<seq<Byte>> {
    Decode(DropNewlines(s), false)
  }

  function RustDecode(s: string): Option<seq<Byte>> {
    Decode(s, true)
  }

  /** Decoding undoes encoding, under either discipline. */
  lemma {:induction false} DecodeUndoesEncode(b: seq<Byte>, strict: bool)
    ensures Decode(Encode(b), strict) == Some(b)
  {
    hide Char, Value, S0, S1, S2, S3, B0, B1, B2;
    var e := Encode(b);
    if |b| >= 3 {
      DecodeUndoesEncode(b[3..], strict);
      QuadUndoesTriple(b[0], b[1], b[2]);
      CharValue(S0(b[0])); CharValue(S1(b[0], b[1])); CharValue(S2(b[1], b[2])); CharValue(S3(b[2]));
      assert e[4..] == Encode(b[3..]);
      assert b == [b[0], b[1], b[2]] + b[3..];
    } else if |b| == 2 {
      QuadUndoesTriple(b[0], b[1], 0);
      CharValue(S0(b[0])); CharValue(S1(b[0], b[1])); CharValue(S2(b[1], 0));
      assert b == [b[0], b[1]];
    } else if |b| == 1 {
      QuadUndoesTriple(b[0], 0, 0);
      CharValue(S0(b[0])); CharValue(S1(b[0], 0));
      assert b == [b[0]];
    }
  }

  lemma QuadUndoesTriple(p: Byte, q: Byte, r: Byte)
    ensures B0(S0(p), S1(p, q)) == p && B1(S1(p, q), S2(q, r)) == q && B2(S2(q, r), S3(r)) == r
    ensures S1(p, 0) % 16 == 0 && S2(q, 0) % 4 == 0
  {}

  /** Strict decoding is one to one: a decoded string is the encoding of its bytes. */
  lemma {:induction false} StrictIsCanonical(s: string)
    requires Decode(s, true).Some?
    ensures Encode(Decode(s, true).value) == s
  {
    hide Char, Value, S0, S1, S2, S3, B0, B1, B2;
    if |s| > 0 {
      var x, y := Value(s[0]).value, Value(s[1]).value;
      ValueChar(s[0]); ValueChar(s[1]);
      if |s| == 2 {
        TripleUndoesQuad(x, y, 0, 0);
        assert s == [s[0], s[1]];
      } else {
        var z := Value(s[2]).value;
        ValueChar(s[2]);
        if |s| == 3 {
          TripleUndoesQuad(x, y, z, 0);
          assert s == [s[0], s[1], s[2]];
        } else {
          var w, rest := Value(s[3]).value, Decode(s[4..], true).value;
          ValueChar(s[3]);
          TripleUndoesQuad(x, y, z, w);
          StrictIsCanonical(s[4..]);
          assert ([B0(x, y), B1(y, z), B2(z, w)] + rest)[3..] == rest;
          assert s == [s[0], s[1], s[2], s[3]] + s[4..];
        }
      }
    }
  }

  lemma TripleUndoesQuad(x: Sextet, y: Sextet, z: Sextet, w: Sextet)
    ensures S0(B0(x, y)) == x && S1(B0(x, y), B1(y, z)) == y && S2(B1(y, z), B2(z, w)) == z && S3(B2(z, w)) == w
    ensures y % 16 == 0 ==> S1(B0(x, y), 0) == y
    ensures z % 4 == 0 ==> S2(B1(y, z), 0) == z
  {}

  /** Whatever the strict decoder accepts, the lenient one decodes to the same bytes. */
  lemma {:induction false} GoDecodeExtendsRustDecode(s: string)
    requires RustDecode(s).Some?
    ensures GoDecode(s) == RustDecode(s)
  {
    StrictAlphabet(s);
    NothingToDrop(s);
    LenientExtendsStrict(s);
  }

  lemma {:induction false} LenientExtendsStrict(s: string)
    requires Decode(s, true).Some?
    ensures Decode(s, false) == Decode(s, true)
  {
    if |s| >= 4 { LenientExtendsStrict(s[4..]); }
  }

  lemma {:induction false} StrictAlphabet(s: string)
    requires Decode(s, true).Some?
    ensures InAlphabet(s)
  {
    StrictIsCanonical(s);
  }

  lemma {:induction false} NothingToDrop(s: string)
    requires InAlphabet(s)
    ensures DropNewlines(s) == s
  {
    if |s| > 0 {
      NothingToDrop(s[1..]);
      assert s == [s[0]] + s[1..];
    }
  }

  /** A segment over the alphabet holds no dot. */
  lemma NoDot(s: string)
    requires InAlphabet(s)
    ensures '.' !in s
  {}
}
