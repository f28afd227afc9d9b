/** Decimal numerals: the rendering of a natural number and the parse of a
    digit run, used by the token codec for its numeric claims and lengths. */
module Decimal {
  import opened Wrappers

  predicate IsDigit(c: char) {
    '0' <= c <= '9'
  }

  predicate AllDigits(s: string) {
    forall i :: 0 <= i < |s| ==> IsDigit(s[i])
  }

  function DigitChar(d: nat): (c: char)
    requires d < 10
    ensures IsDigit(c) && c as int - '0' as int == d
  {
    ['0', '1', '2', '3', '4', '5', '6', '7', '8', '9'][d]
  }

  /** The shortest decimal numeral of `n` ("0" for zero). */
  function Digits(n: nat): (s: string)
    ensures |s| > 0 && AllDigits(s)
    decreases n
  {
    if n < 10 then [DigitChar(n)] else Digits(n / 10) + [DigitChar(n % 10)]
  }

  /** The number a run of decimal digits denotes. */
  function Value(s: string): nat
    requires AllDigits(s)
  {
    if s == [] then 0 else Value(s[..|s| - 1]) * 10 + (s[|s| - 1] as int - '0' as int)
  }

  lemma {:induction false} ValueOfDigits(n: nat)
    ensures Value(Digits(n)) == n
    decreases n
  {
    if n >= 10 {
      var d := Digits(n / 10);
      var s := d + [DigitChar(n % 10)];
      assert s[..|s| - 1] == d;
      ValueOfDigits(n / 10);
    }
  }

  /** The length of the longest prefix of `s` made of digits. */
  function DigitSpan(s: string): (k: nat)
    ensures k <= |s|
    ensures forall i :: 0 <= i < k ==> IsDigit(s[i])
    ensures k < |s| ==> !IsDigit(s[k])
  {
    if s == [] || !IsDigit(s[0]) then 0 else 1 + DigitSpan(s[1..])
  }

  /** Reads a non-empty digit run that is immediately followed by `term`,
      and gives its value and what follows `term`. */
  function ParseNat(s: string, term: char): (r: Option<(nat, string)>)
    ensures r.Some? ==> |r.value.1| < |s|
  {
    var k := DigitSpan(s);
    if 0 < k < |s| && s[k] == term then Some((Value(s[..k]), s[k + 1..])) else None
  }

  lemma ParseNatOfDigits(n: nat, term: char, rest: string)
    requires !IsDigit(term)
    ensures ParseNat(Digits(n) + [term] + rest, term) == Some((n, rest))
  {
    var d := Digits(n);
    var s := d + [term] + rest;
    assert s[|d|] == term;
    assert DigitSpan(s) == |d|;
    assert s[..|d|] == d;
    assert s[|d| + 1..] == rest;
    ValueOfDigits(n);
  }
}
