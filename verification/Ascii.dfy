/** ASCII helpers: case folding, digits, decimal numbers, HTTP tokens and trimming. */
module Ascii {
  import opened Wrappers

  function LowerChar(c: char): char {
    if 'A' <= c <= 'Z' then (c as int + 32) as char else c
  }

  function Lower(s: string): (r: string)
    ensures |r| == |s| && forall i :: 0 <= i < |s| ==> r[i] == LowerChar(s[i])
  {
    seq(|s|, i requires 0 <= i < |s| => LowerChar(s[i]))
  }

  predicate EqIgnoreCase(a: string, b: string) { Lower(a) == Lower(b) }

  predicate IsDigit(c: char) { '0' <= c <= '9' }

  predicate AllDigits(s: string) { forall i :: 0 <= i < |s| ==> IsDigit(s[i]) }

  function DigitChar(d: nat): char
    requires d < 10
  {
    ('0' as int + d) as char
  }

  /** The number a string of digits denotes. */
  function DecimalValue(s: string): nat
    requires AllDigits(s)
  {
    if s == "" then 0
    else 10 * DecimalValue(s[..|s| - 1]) + (s[|s| - 1] as int - '0' as int)
  }

  /** The canonical decimal rendering. */
  function Decimal(n: nat): string {
    if n < 10 then [DigitChar(n)] else Decimal(n / 10) + [DigitChar(n % 10)]
  }

  predicate CanonicalDigits(s: string) {
    s != "" && AllDigits(s) && (|s| > 1 ==> s[0] != '0')
  }

  /** Rendering and reading are inverse. */
  lemma {:induction false} DecimalRoundTrip(n: nat)
    ensures CanonicalDigits(Decimal(n)) && DecimalValue(Decimal(n)) == n
    ensures n > 0 ==> Decimal(n)[0] != '0'
  {
    if n >= 10 {
      DecimalRoundTrip(n / 10);
      var s := Decimal(n);
      assert s[..|s| - 1] == Decimal(n / 10);
    }
  }

  lemma {:induction false} CanonicalRoundTrip(s: string)
    requires CanonicalDigits(s)
    ensures Decimal(DecimalValue(s)) == s
    ensures s[0] != '0' ==> DecimalValue(s) > 0
  {
    if |s| == 1 {
      assert s[..0] == "";
    } else {
      var front := s[..|s| - 1];
      assert CanonicalDigits(front);
      CanonicalRoundTrip(front);
      assert s == front + [s[|s| - 1]];
    }
  }

  lemma {:induction false} DecimalBounds(n: nat, digits: nat)
    requires digits == 1 ==> n < 10
    requires digits == 2 ==> 10 <= n < 100
    requires digits == 3 ==> 100 <= n < 1000
    requires 1 <= digits <= 3
    ensures |Decimal(n)| == digits
  {
    if digits > 1 { DecimalBounds(n / 10, digits - 1); }
  }

  predicate IsAlphanumeric(c: char) { IsDigit(c) || 'a' <= c <= 'z' || 'A' <= c <= 'Z' }

  /** A token character of section 5.6.2 of RFC 9110. */
  predicate IsTchar(c: char) {
    IsAlphanumeric(c) || c in "!#$%&'*+-.^_`|~"
  }

  predicate AllTchar(s: string) { forall i :: 0 <= i < |s| ==> IsTchar(s[i]) }

  predicate IsPrintable(c: char) { ' ' <= c <= '~' }

  predicate AllPrintable(s: string) { forall i :: 0 <= i < |s| ==> IsPrintable(s[i]) }

  predicate IsBlank(c: char) { c == ' ' || c == '\t' }

  function TrimStart(s: string): string {
    if s != "" && IsBlank(s[0]) then TrimStart(s[1..]) else s
  }

  function TrimEnd(s: string): string {
    if s != "" && IsBlank(s[|s| - 1]) then TrimEnd(s[..|s| - 1]) else s
  }

  /** Removes leading and trailing spaces and tabs. */
  function Trim(s: string): string { TrimEnd(TrimStart(s)) }

  predicate Trimmed(s: string) {
    s != "" ==> !IsBlank(s[0]) && !IsBlank(s[|s| - 1])
  }

  lemma TrimTrimmed(s: string)
    requires Trimmed(s)
    ensures Trim(s) == s && Trim([' '] + s) == s
  {
    assert ([' '] + s)[1..] == s;
  }
}
