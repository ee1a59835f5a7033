/** Text helpers shared by the pipeline: Python's whitespace class, `str.strip`,
    decimal rendering of integers (`str(n)`, `f"{x}"`) and of cent amounts
    (`f"{x:.2f}"`). */
module Strings {

  /** Python's `str.isspace` (also what the regular-expression class `\s`
      matches on `str` patterns): tab to carriage return, the four information
      separators, space, and the Unicode space separators and line breaks. */
  predicate IsSpace(c: char) {
    || '\t' <= c <= '\r'
    || '\U{1c}' <= c <= ' '
    || c == '\U{85}' || c == '\U{a0}' || c == '\U{1680}'
    || '\U{2000}' <= c <= '\U{200a}'
    || c == '\U{2028}' || c == '\U{2029}' || c == '\U{202f}' || c == '\U{205f}' || c == '\U{3000}'
  }

  /** Drops leading whitespace (`str.lstrip()`, and the `\s*` tail of a regex). */
  function TrimStart(s: string): (r: string)
    ensures |r| <= |s|
    ensures r == s[|s| - |r|..]
    ensures r == [] || !IsSpace(r[0])
    ensures forall i :: 0 <= i < |s| - |r| ==> IsSpace(s[i])
  {
    if |s| > 0 && IsSpace(s[0]) then TrimStart(s[1..]) else s
  }

  /** Drops trailing whitespace (`str.rstrip()`). */
  function TrimEnd(s: string): (r: string)
    ensures |r| <= |s|
    ensures r == s[..|r|]
    ensures r == [] || !IsSpace(r[|r| - 1])
    ensures forall i :: |r| <= i < |s| ==> IsSpace(s[i])
  {
    if |s| > 0 && IsSpace(s[|s| - 1]) then TrimEnd(s[..|s| - 1]) else s
  }

  /** `str.strip()`. */
  function Trim(s: string): string {
    TrimEnd(TrimStart(s))
  }

  /** Stripping leading whitespace before `str.strip()` changes nothing. */
  lemma TrimOfTrimStart(s: string)
    ensures Trim(TrimStart(s)) == Trim(s)
  {
  }

  function DigitChar(d: nat): (c: char)
    requires d < 10
  {
    "0123456789"[d]
  }

  function DigitValue(c: char): nat
  {
    if '0' <= c <= '9' then (c as int - '0' as int) as nat else 0
  }

  predicate IsDigit(c: char) {
    '0' <= c <= '9'
  }

  /** `str(n)` for a natural number: shortest decimal, no leading zero. */
  function NatToString(n: nat): (s: string)
    ensures |s| > 0
    ensures forall i :: 0 <= i < |s| ==> IsDigit(s[i])
    ensures |s| > 1 ==> s[0] != '0'
  {
    if n < 10 then [DigitChar(n)] else NatToString(n / 10) + [DigitChar(n % 10)]
  }

  /** Reads a string of decimal digits back into a number. */
  function ParseNat(s: string): nat
  {
    if s == [] then 0 else 10 * ParseNat(s[..|s| - 1]) + DigitValue(s[|s| - 1])
  }

  /** Length of the run of decimal digits at the start of `s`. */
  function DigitRun(s: string): (n: nat)
    ensures n <= |s|
    ensures forall i :: 0 <= i < n ==> IsDigit(s[i])
    ensures n < |s| ==> !IsDigit(s[n])
  {
    if s == [] || !IsDigit(s[0]) then 0 else 1 + DigitRun(s[1..])
  }

  /** A rendered number followed by a non-digit: the digit run is the number. */
  lemma DigitRunOfNumber(n: nat, rest: string)
    requires rest != [] && !IsDigit(rest[0])
    ensures DigitRun(NatToString(n) + rest) == |NatToString(n)|
  {
    var ds := NatToString(n);
    var m := DigitRun(ds + rest);
    assert (ds + rest)[|ds|] == rest[0];
  }

  lemma DigitRoundTrip(d: nat)
    requires d < 10
    ensures DigitValue(DigitChar(d)) == d
  {
  }

  /** Decimal rendering can be read back: `int(str(n)) == n`. */
  lemma {:induction false} ParseNatToString(n: nat)
    ensures ParseNat(NatToString(n)) == n
  {
    if n < 10 {
      DigitRoundTrip(n);
    } else {
      var s := NatToString(n);
      assert s[..|s| - 1] == NatToString(n / 10);
      ParseNatToString(n / 10);
      DigitRoundTrip(n % 10);
    }
  }

  /** Different numbers render differently. */
  lemma NatToStringInjective(m: nat, n: nat)
    requires NatToString(m) == NatToString(n)
    ensures m == n
  {
    ParseNatToString(m);
    ParseNatToString(n);
  }

  /** `str(i)` for any integer, with a leading minus sign when negative. */
  function IntToString(i: int): (s: string)
    ensures i >= 0 ==> s == NatToString(i)
    ensures i < 0 ==> s == "-" + NatToString(-i)
  {
    if i < 0 then "-" + NatToString(-i) else NatToString(i)
  }

  /** Different integers render differently. */
  lemma IntToStringInjective(i: int, j: int)
    requires IntToString(i) == IntToString(j)
    ensures i == j
  {
    if i < 0 && j < 0 {
      assert NatToString(-i) == IntToString(i)[1..];
      assert NatToString(-j) == IntToString(j)[1..];
      NatToStringInjective(-i, -j);
    } else if i >= 0 && j >= 0 {
      NatToStringInjective(i, j);
    } else {
      assert false;
    }
  }

  /** `f"{x:.2f}"` of an amount held as a whole number of cents. */
  function FormatCents(cents: int): (s: string)
    ensures |s| >= 4 && s[|s| - 3] == '.'
    ensures IsDigit(s[|s| - 2]) && IsDigit(s[|s| - 1])
    ensures (s[0] == '-') <==> cents < 0
  {
    var a: nat := if cents < 0 then -cents else cents;
    var units := NatToString(a / 100);
    var m := a % 100;
    var digits := [DigitChar(m / 10), DigitChar(m % 10)];
    (if cents < 0 then "-" else "") + units + "." + digits
  }

  /** Reads a `f"{x:.2f}"` rendering back into cents. */
  function ParseCents(s: string): int
  {
    var neg := |s| > 0 && s[0] == '-';
    var body := if neg then s[1..] else s;
    if |body| < 3 then 0
    else
      var a := 100 * ParseNat(body[..|body| - 3])
               + 10 * DigitValue(body[|body| - 2]) + DigitValue(body[|body| - 1]);
      if neg then -a else a
  }

  /** The rendering of an amount in an alert reads back to that amount. */
  lemma FormatCentsRoundTrip(cents: int)
    ensures ParseCents(FormatCents(cents)) == cents
  {
    var a: nat := if cents < 0 then -cents else cents;
    var m := a % 100;
    var s := FormatCents(cents);
    var body := NatToString(a / 100) + "." + [DigitChar(m / 10), DigitChar(m % 10)];
    assert s == (if cents < 0 then "-" else "") + body;
    assert (if cents < 0 then s[1..] else s) == body;
    assert body[..|body| - 3] == NatToString(a / 100);
    ParseNatToString(a / 100);
    DigitRoundTrip(m / 10);
    DigitRoundTrip(m % 10);
    assert 100 * (a / 100) + 10 * (m / 10) + m % 10 == a;
  }
}
