/**
 * The few JavaScript string primitives the planner relies on: the regular-expression
 * classes `\s` and `\d`, `String.prototype.trim`, `parseInt(s, 10)` on a run of
 * decimal digits, and the decimal rendering of a non-negative integer in a template
 * literal.
 */
module JsText {

  /** `\s` in a regular expression, which is also the set of characters `trim` removes:
    * ECMAScript's WhiteSpace (tab, vertical tab, form feed, ZWNBSP and every Unicode
    * space separator) and LineTerminator (LF, CR, LS, PS) productions. */
  predicate IsWhiteSpace(c: char)
  {
    || c == '\t' || c == '\n' || c == '\U{000B}' || c == '\U{000C}' || c == '\r'
    || c == ' ' || c == '\U{00A0}' || c == '\U{1680}' || ('\U{2000}' <= c <= '\U{200A}')
    || c == '\U{2028}' || c == '\U{2029}' || c == '\U{202F}' || c == '\U{205F}'
    || c == '\U{3000}' || c == '\U{FEFF}'
  }

  /** `\d`: an ASCII decimal digit. */
  predicate IsDigit(c: char)
  {
    '0' <= c <= '9'
  }

  predicate AllWhiteSpace(s: string)
  {
    forall i :: 0 <= i < |s| ==> IsWhiteSpace(s[i])
  }

  predicate AllDigits(s: string)
  {
    forall i :: 0 <= i < |s| ==> IsDigit(s[i])
  }

  /** Neither end of `s` is whitespace: what `trim` leaves behind. */
  predicate Trimmed(s: string)
  {
    s == [] || (!IsWhiteSpace(s[0]) && !IsWhiteSpace(s[|s| - 1]))
  }

  /** Removes the leading whitespace: the result is a suffix of `s`, what was dropped is
    * whitespace, and the result does not start with whitespace. */
  function TrimStart(s: string): (r: string)
    ensures |r| <= |s| && r == s[|s| - |r|..]
    ensures AllWhiteSpace(s[..|s| - |r|])
    ensures r == [] || !IsWhiteSpace(r[0])
  {
    if s != [] && IsWhiteSpace(s[0]) then
      var r := TrimStart(s[1..]);
      assert s[..|s| - |r|] == [s[0]] + s[1..][..|s| - 1 - |r|];
      r
    else
      s
  }

  /** Removes the trailing whitespace: the result is a prefix of `s`, what was dropped is
    * whitespace, and the result does not end with whitespace. */
  function TrimEnd(s: string): (r: string)
    ensures |r| <= |s| && r == s[..|r|]
    ensures AllWhiteSpace(s[|r|..])
    ensures r == [] || !IsWhiteSpace(r[|r| - 1])
  {
    if s != [] && IsWhiteSpace(s[|s| - 1]) then
      var r := TrimEnd(s[..|s| - 1]);
      assert s[|r|..] == s[..|s| - 1][|r|..] + [s[|s| - 1]];
      r
    else
      s
  }

  /** `String.prototype.trim`. */
  function Trim(s: string): (r: string)
    ensures Trimmed(r)
    ensures |r| <= |s|
  {
    TrimEnd(TrimStart(s))
  }

  /** `trim` removes exactly the whitespace around a trimmed core, and nothing else. */
  lemma TrimPadded(lead: string, core: string, trail: string)
    requires AllWhiteSpace(lead) && AllWhiteSpace(trail) && Trimmed(core)
    ensures Trim(lead + core + trail) == core
  {
    if core == [] {
      assert lead + core + trail == (lead + trail) + [];
      TrimStartOf(lead + trail, []);
    } else {
      assert lead + core + trail == lead + (core + trail);
      TrimStartOf(lead, core + trail);
      TrimEndOf(core, trail);
    }
  }

  /** `trim` leaves a string without whitespace at either end unchanged. */
  lemma TrimOfTrimmed(s: string)
    requires Trimmed(s)
    ensures Trim(s) == s
  {
  }

  /** Leading whitespace in front of a part that does not start with whitespace is
    * exactly what TrimStart drops. */
  lemma {:induction false} TrimStartOf(lead: string, rest: string)
    requires AllWhiteSpace(lead) && (rest == [] || !IsWhiteSpace(rest[0]))
    ensures TrimStart(lead + rest) == rest
    decreases |lead|
  {
    if lead == [] {
      assert lead + rest == rest;
    } else {
      assert (lead + rest)[1..] == lead[1..] + rest;
      TrimStartOf(lead[1..], rest);
    }
  }

  /** Trailing whitespace behind a part that does not end with whitespace is exactly
    * what TrimEnd drops. */
  lemma {:induction false} TrimEndOf(core: string, trail: string)
    requires AllWhiteSpace(trail) && (core == [] || !IsWhiteSpace(core[|core| - 1]))
    ensures TrimEnd(core + trail) == core
    decreases |trail|
  {
    if trail == [] {
      assert core + trail == core;
    } else {
      var s := core + trail;
      assert s[..|s| - 1] == core + trail[..|trail| - 1];
      TrimEndOf(core, trail[..|trail| - 1]);
    }
  }

  /** Length of the longest prefix of `s` made of digits: what a greedy `\d+` or `\d*`
    * consumes. */
  function DigitRun(s: string): (n: nat)
    ensures n <= |s| && AllDigits(s[..n])
    ensures n < |s| ==> !IsDigit(s[n])
  {
    if s != [] && IsDigit(s[0]) then
      var n := 1 + DigitRun(s[1..]);
      assert s[..n] == [s[0]] + s[1..][..n - 1];
      n
    else
      0
  }

  /** Length of the longest prefix of `s` made of whitespace: what a greedy `\s*`
    * consumes. */
  function WhiteSpaceRun(s: string): (n: nat)
    ensures n <= |s| && AllWhiteSpace(s[..n])
    ensures n < |s| ==> !IsWhiteSpace(s[n])
  {
    if s != [] && IsWhiteSpace(s[0]) then
      var n := 1 + WhiteSpaceRun(s[1..]);
      assert s[..n] == [s[0]] + s[1..][..n - 1];
      n
    else
      0
  }

  /** The value of one decimal digit. */
  function DigitValue(c: char): (d: nat)
    requires IsDigit(c)
    ensures d < 10
  {
    c as int - '0' as int
  }

  /** The digit character for a value below ten. */
  function DigitChar(d: nat): (c: char)
    requires d < 10
    ensures IsDigit(c) && DigitValue(c) == d
  {
    ('0' as int + d) as char
  }

  /** `parseInt(s, 10)` on a string of decimal digits, leading zeros allowed. */
  function DecimalValue(s: string): (v: nat)
    requires AllDigits(s)
    ensures v == 0 <==> forall i :: 0 <= i < |s| ==> s[i] == '0'
  {
    if s == [] then 0 else 10 * DecimalValue(s[..|s| - 1]) + DigitValue(s[|s| - 1])
  }

  /** How a template literal renders a non-negative integer: its decimal digits, without
    * leading zeros. Reading the digits back with `parseInt` gives the number again. */
  function Decimal(n: nat): (s: string)
    ensures |s| > 0 && AllDigits(s)
    ensures s[0] == '0' ==> n == 0 && s == "0"
    ensures DecimalValue(s) == n
  {
    if n < 10 then
      [DigitChar(n)]
    else
      var s := Decimal(n / 10) + [DigitChar(n % 10)];
      assert s[..|s| - 1] == Decimal(n / 10);
      s
  }

  /** `Array.prototype.join(sep)` on strings. */
  function Join(xs: seq<string>, sep: string): (s: string)
    ensures xs == [] ==> s == ""
    ensures |xs| > 0 ==> xs[0] <= s
    ensures |xs| > 0 ==> |xs[|xs| - 1]| <= |s| && s[|s| - |xs[|xs| - 1]|..] == xs[|xs| - 1]
    ensures |xs| > 1 ==> xs[0] + sep <= s
  {
    if xs == [] then ""
    else if |xs| == 1 then xs[0]
    else xs[0] + (sep + Join(xs[1..], sep))
  }
}
