/** Decimal numerals as characters: what sprintf "%ld" prints and atol and skip_digits read. */
module Decimals {

  predicate IsDigit(c: char) {
    '0' <= c <= '9'
  }

  predicate Digits(s: string) {
    forall i :: 0 <= i < |s| ==> IsDigit(s[i])
  }

  predicate Numeral(s: string) {
    s != "" && Digits(s)
  }

  function Value(s: string): nat
    requires Digits(s)
  {
    if s == "" then 0 else 10 * Value(s[..|s| - 1]) + (s[|s| - 1] as int - '0' as int)
  }

  /** The text sprintf prints for `n`, without zeros in front. */
  function Dec(n: nat): (s: string)
    ensures Numeral(s) && Value(s) == n && (n == 0 ==> s == "0") && (n > 0 ==> s[0] != '0')
  {
    var digit := [('0' as int + n % 10) as char];
    if n < 10 then digit else Dec(n / 10) + digit
  }

  /** The position after the digits at `i`. */
  function SkipDigits(s: string, i: nat): (j: nat)
    requires i <= |s|
    ensures i <= j <= |s| && Digits(s[i..j]) && (j == |s| || !IsDigit(s[j]))
    decreases |s| - i
  {
    if i < |s| && IsDigit(s[i]) then SkipDigits(s, i + 1) else i
  }

  function SkipBlanks(s: string, i: nat): (j: nat)
    requires i <= |s|
    ensures i <= j <= |s|
    decreases |s| - i
  {
    if i < |s| && s[i] == ' ' then SkipBlanks(s, i + 1) else i
  }

  /** The number at `i`, which blanks may stand before. */
  function Atol(s: string, i: nat): nat
    requires i <= |s|
  {
    var j := SkipBlanks(s, i);
    Value(s[j..SkipDigits(s, j)])
  }

  /** A numeral in a text is read whole. */
  lemma {:induction false} ReadNumeral(s: string, i: nat, num: string, rest: string)
    requires i <= |s| && Numeral(num) && s[i..] == num + rest && (rest == "" || !IsDigit(rest[0]))
    ensures SkipDigits(s, i) == i + |num| && s[i + |num|..] == rest
    ensures Atol(s, i) == Value(num) && IsDigit(s[i])
  {
    var j := SkipDigits(s, i);
    var k := i + |num|;
    assert |s| == i + |num + rest|;
    assert forall m :: i <= m < |s| ==> s[m] == (num + rest)[m - i];
    assert forall m :: i <= m < k ==> IsDigit(s[m]);
    assert k == |s| || !IsDigit(s[k]);
    assert s[i..k] == num;
  }

}
