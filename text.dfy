/** The string operations the handlers use inside their f-strings: Python's
    prefix slice `s[:n]` and the decimal rendering of a count. */
module Text {

  /** `q` is what Python's slice `s[:n]` gives: the prefix of `s` of length
      `min(n, len(s))`. */
  predicate IsSlice(q: string, s: string, n: nat) {
    q <= s && |q| == if |s| <= n then |s| else n
  }

  /** Python's slice `s[:n]`: the first `n` characters, or all of `s` when it
      is shorter. */
  function Take(s: string, n: nat): (r: string)
    ensures IsSlice(r, s, n)
  {
    if |s| <= n then s else s[..n]
  }

  predicate IsDigit(c: char) {
    '0' <= c <= '9'
  }

  predicate AllDigits(s: string) {
    forall i :: 0 <= i < |s| ==> IsDigit(s[i])
  }

  function DigitChar(d: nat): (c: char)
    requires d < 10
    ensures IsDigit(c) && c as int - '0' as int == d
  {
    ('0' as int + d) as char
  }

  /** The text `str(n)` gives for some `n >= 0`: digits, at least one, and no
      leading zero unless the number is 0 itself. */
  predicate IsDecimal(s: string) {
    AllDigits(s) && |s| >= 1 && (|s| > 1 ==> s[0] != '0')
  }

  /** `str(n)` for a non-negative integer: its decimal digits without
      leading zeros. */
  function DecimalText(n: nat): (s: string)
    ensures IsDecimal(s)
    ensures |s| == 1 <==> n < 10
    decreases n
  {
    if n < 10 then [DigitChar(n)] else DecimalText(n / 10) + [DigitChar(n % 10)]
  }

  /** The number a string of decimal digits denotes. */
  function DecimalValue(s: string): nat
    requires AllDigits(s)
  {
    if s == [] then 0 else DecimalValue(s[..|s| - 1]) * 10 + (s[|s| - 1] as int - '0' as int)
  }

  /** Reading a rendered count back gives the count. */
  lemma {:induction false} DecimalRoundTrip(n: nat)
    ensures DecimalValue(DecimalText(n)) == n
  {
    var s := DecimalText(n);
    if n >= 10 {
      assert s[..|s| - 1] == DecimalText(n / 10);
      DecimalRoundTrip(n / 10);
    }
  }
}
