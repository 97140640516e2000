/** Decimal digit runs, shared by the numeric-cell coercion and the tenure parser. */
module Digits {

  predicate IsDigit(c: char) {
    '0' <= c <= '9'
  }

  predicate AllDigits(s: string) {
    forall i :: 0 <= i < |s| ==> IsDigit(s[i])
  }

  predicate NoDigits(s: string) {
    forall i :: 0 <= i < |s| ==> !IsDigit(s[i])
  }

  function DigitValue(c: char): (d: nat)
    requires IsDigit(c)
    ensures d < 10
  {
    c as int - '0' as int
  }

  function Pow10(n: nat): (p: nat)
    ensures p >= 1
  {
    if n == 0 then 1 else 10 * Pow10(n - 1)
  }

  /** The number a run of digits denotes, most significant digit first. */
  function Value(s: string): (v: nat)
    requires AllDigits(s)
    ensures v < Pow10(|s|)
  {
    if |s| == 0 then 0
    else
      var v0 := Value(s[..|s| - 1]);
      assert v0 * 10 <= (Pow10(|s| - 1) - 1) * 10;
      v0 * 10 + DigitValue(s[|s| - 1])
  }

  /** The digit character for a value below ten. */
  function DigitChar(d: nat): (c: char)
    requires d < 10
    ensures IsDigit(c) && DigitValue(c) == d
  {
    ('0' as int + d) as char
  }

  /** The shortest decimal spelling of a natural number. */
  function Show(n: nat): (s: string)
    ensures |s| > 0 && AllDigits(s)
  {
    if n < 10 then [DigitChar(n)] else Show(n / 10) + [DigitChar(n % 10)]
  }

  lemma {:induction false} ValueShow(n: nat)
    ensures Value(Show(n)) == n
  {
    if n >= 10 {
      var s := Show(n);
      assert s[..|s| - 1] == Show(n / 10);
      ValueShow(n / 10);
    }
  }

  /** End of the run of digits that starts at position i (i itself when s[i] is no digit). */
  function DigitRun(s: string, i: nat): (j: nat)
    requires i <= |s|
    ensures i <= j <= |s|
    ensures AllDigits(s[i..j])
    ensures j < |s| ==> !IsDigit(s[j])
    decreases |s| - i
  {
    if i < |s| && IsDigit(s[i]) then
      var j := DigitRun(s, i + 1);
      assert s[i..j] == [s[i]] + s[i + 1..j];
      j
    else i
  }

  /** Position of the first digit at or after i, or |s| when there is none. */
  function FirstDigit(s: string, i: nat): (k: nat)
    requires i <= |s|
    ensures i <= k <= |s|
    ensures forall m :: i <= m < k ==> !IsDigit(s[m])
    ensures k < |s| ==> IsDigit(s[k])
    decreases |s| - i
  {
    if i == |s| || IsDigit(s[i]) then i else FirstDigit(s, i + 1)
  }

  /** A run of digits followed by anything that is not a digit ends exactly where the run does. */
  lemma DigitRunOf(s: string, i: nat, n: nat)
    requires i + n <= |s|
    requires AllDigits(s[i..i + n])
    requires i + n == |s| || !IsDigit(s[i + n])
    ensures DigitRun(s, i) == i + n
  {
    var j := DigitRun(s, i);
    forall m | i <= m < j ensures IsDigit(s[m]) {
      assert s[m] == s[i..j][m - i];
    }
    forall m | i <= m < i + n ensures IsDigit(s[m]) {
      assert s[m] == s[i..i + n][m - i];
    }
  }

  /** After a digit-free prefix, the first digit is the first character after it. */
  lemma FirstDigitAfter(s: string, p: nat)
    requires p < |s|
    requires NoDigits(s[..p])
    requires IsDigit(s[p])
    ensures FirstDigit(s, 0) == p
  {
    assert forall m :: 0 <= m < p ==> !IsDigit(s[..p][m]);
  }

  lemma DivBelowOne(v: real, p: real)
    requires 0.0 <= v < p
    ensures 0.0 <= v / p < 1.0
  {
    assert v / p * p == v;
  }

  /** The value of the digits after a decimal separator: "05" is 0.05. */
  function Fraction(ds: string): (f: real)
    requires AllDigits(ds)
    ensures 0.0 <= f < 1.0
  {
    var v, p := Value(ds) as real, Pow10(|ds|) as real;
    DivBelowOne(v, p);
    v / p
  }
}
