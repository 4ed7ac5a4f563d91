/** Decimal text of 64-bit integers, as the client writes and parses its clock watermark. */
module Decimal {
  import opened Wrappers

  type I64 = x: int | -0x8000_0000_0000_0000 <= x < 0x8000_0000_0000_0000

  const I64_MAX: I64 := 0x7fff_ffff_ffff_ffff
  const I64_MIN: I64 := -0x8000_0000_0000_0000

  function SaturatingAdd(a: I64, b: I64): I64 {
    if a + b > I64_MAX then I64_MAX else if a + b < I64_MIN then I64_MIN else a + b
  }

  function Digits(n: nat): (s: string)
    ensures s != "" && s[0] != '-' && s[0] != '+'
  {
    if n < 10 then ['0' + n as char] else Digits(n / 10) + ['0' + (n % 10) as char]
  }

  function ParseDigits(s: string): Option<nat> {
    if s == "" then None
    else
      var c := s[|s| - 1];
      if !('0' <= c <= '9') then None
      else if |s| == 1 then Some((c - '0') as nat)
      else
        var high := ParseDigits(s[..|s| - 1]);
        if high.None? then None else Some(high.value * 10 + (c - '0') as nat)
  }

  function Print(n: int): string {
    if n < 0 then "-" + Digits(-n) else Digits(n)
  }

  /** An optional sign and at least one digit, within 64 bits. */
  function Parse(s: string): Option<I64> {
    if s == "" then None
    else
      var signed := s[0] == '-' || s[0] == '+';
      var magnitude := ParseDigits(if signed then s[1..] else s);
      if magnitude.None? then None
      else
        var n: int := if s[0] == '-' then -(magnitude.value as int) else magnitude.value as int;
        if I64_MIN <= n <= I64_MAX then Some(n) else None
  }

  lemma {:induction false} ParseDigitsUndoesDigits(n: nat)
    ensures ParseDigits(Digits(n)) == Some(n)
  {
    if n >= 10 {
      ParseDigitsUndoesDigits(n / 10);
      var s := Digits(n);
      assert s[..|s| - 1] == Digits(n / 10);
    }
  }

  lemma ParseUndoesPrint(n: I64)
    ensures Parse(Print(n)) == Some(n)
  {
    hide ParseDigits, Digits;
    if n < 0 {
      var m: int := n;
      ParseDigitsUndoesDigits(-m);
      assert Print(n)[1..] == Digits(-m);
    } else {
      ParseDigitsUndoesDigits(n);
    }
  }

  /** The number that digits denote, after the digits worth `acc`. */
  function Denoted(s: string, acc: nat): nat
    requires forall i :: 0 <= i < |s| ==> '0' <= s[i] <= '9'
  {
    if s == "" then acc else Denoted(s[1..], 10 * acc + (s[0] - '0') as nat)
  }

  lemma {:induction false} DenotedLast(s: string, c: char, acc: nat)
    requires (forall i :: 0 <= i < |s| ==> '0' <= s[i] <= '9') && '0' <= c <= '9'
    ensures Denoted(s + [c], acc) == 10 * Denoted(s, acc) + (c - '0') as nat
  {
    if s == "" {
      assert s + [c] == [c] && [c][1..] == "";
    } else {
      assert (s + [c])[1..] == s[1..] + [c];
      DenotedLast(s[1..], c, 10 * acc + (s[0] - '0') as nat);
    }
  }

  /** The text of a number is its decimal digits, the most significant first and no zero ahead of them. */
  lemma {:induction false} DigitsDenote(n: nat)
    ensures forall i :: 0 <= i < |Digits(n)| ==> '0' <= Digits(n)[i] <= '9'
    ensures Denoted(Digits(n), 0) == n && (n > 0 ==> Digits(n)[0] != '0')
  {
    if n < 10 {
      assert Digits(n)[1..] == "";
    } else {
      DigitsDenote(n / 10);
      DenotedLast(Digits(n / 10), '0' + (n % 10) as char, 0);
    }
  }
}
