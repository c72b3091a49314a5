/** The string operations the app applies to user input and storage keys:
    `String.prototype.trim`, `startsWith`, and the decimal rendering of a
    non-negative integer inside a template literal. */
module JsStrings {

  /** The characters `trim` removes: ECMAScript WhiteSpace (tab, vertical tab,
      form feed, space, no-break space, byte-order mark and the Unicode space
      separators) and LineTerminator (line feed, carriage return, line and
      paragraph separators). */
  predicate IsWhiteSpace(c: char) {
    || c == '\t' || c == '\n' || c == '\U{B}' || c == '\U{C}' || c == '\r'
    || c == ' ' || c == '\U{A0}' || c == '\U{1680}'
    || ('\U{2000}' <= c <= '\U{200A}')
    || c == '\U{2028}' || c == '\U{2029}' || c == '\U{202F}' || c == '\U{205F}'
    || c == '\U{3000}' || c == '\U{FEFF}'
  }

  predicate AllWhiteSpace(s: string) {
    forall i :: 0 <= i < |s| ==> IsWhiteSpace(s[i])
  }

  lemma WhiteSpaceCons(c: char, t: string)
    requires IsWhiteSpace(c) && AllWhiteSpace(t)
    ensures AllWhiteSpace([c] + t)
  {
    assert forall i :: 1 <= i < |t| + 1 ==> ([c] + t)[i] == t[i - 1];
  }

  /** `s` with its longest all-white-space prefix removed. */
  function TrimStart(s: string): (r: string)
    ensures |r| <= |s| && r == s[|s| - |r|..]
    ensures AllWhiteSpace(s[..|s| - |r|])
    ensures r == [] || !IsWhiteSpace(r[0])
  {
    if |s| > 0 && IsWhiteSpace(s[0]) then
      var r := TrimStart(s[1..]);
      assert s[..|s| - |r|] == [s[0]] + s[1..][..|s| - 1 - |r|];
      WhiteSpaceCons(s[0], s[1..][..|s| - 1 - |r|]);
      r
    else s
  }

  /** `s` with its longest all-white-space suffix removed. */
  function TrimEnd(s: string): (r: string)
    ensures |r| <= |s| && r == s[..|r|]
    ensures AllWhiteSpace(s[|r|..])
    ensures r == [] || !IsWhiteSpace(r[|r| - 1])
  {
    if |s| > 0 && IsWhiteSpace(s[|s| - 1]) then
      var r := TrimEnd(s[..|s| - 1]);
      assert s[|r|..] == s[..|s| - 1][|r|..] + [s[|s| - 1]];
      r
    else s
  }

  /** `r` is `s[i..]` cut to length `|r|`, with only white space around it. */
  ghost predicate TrimmedAt(s: string, r: string, i: int) {
    && 0 <= i <= |s| - |r|
    && r == s[i..i + |r|]
    && AllWhiteSpace(s[..i])
    && AllWhiteSpace(s[i + |r|..])
  }

  /** Neither end of `s` is white space. */
  predicate Trimmed(s: string) {
    s == [] || (!IsWhiteSpace(s[0]) && !IsWhiteSpace(s[|s| - 1]))
  }

  /** `s.trim()`: the white space at both ends removed. */
  function Trim(s: string): (r: string)
    ensures Trimmed(r)
    ensures r == [] <==> AllWhiteSpace(s)
  {
    var t := TrimStart(s);
    assert TrimEnd(t) == [] ==> s == s[..|s| - |t|] + t;
    TrimEnd(t)
  }

  /** What `trim` keeps is a contiguous piece of the input with only white
      space around it. */
  lemma TrimKeepsInside(s: string)
    ensures exists i :: TrimmedAt(s, Trim(s), i)
  {
    var t := TrimStart(s);
    var r := TrimEnd(t);
    var i := |s| - |t|;
    assert r == Trim(s);
    assert t == s[i..];
    assert r == t[..|r|];
    assert r == s[i..i + |r|];
    assert s[i + |r|..] == t[|r|..];
    assert AllWhiteSpace(s[..i]);
    assert AllWhiteSpace(s[i + |r|..]);
    assert TrimmedAt(s, r, i);
  }

  /** Trimming a string with no white space at either end changes nothing. */
  lemma {:induction false} TrimOfTrimmed(s: string)
    requires Trimmed(s)
    ensures Trim(s) == s
  {
    assert TrimStart(s) == s;
    assert TrimEnd(s) == s;
  }

  /** `trim` is idempotent. */
  lemma TrimIdempotent(s: string)
    ensures Trim(Trim(s)) == Trim(s)
  {
    TrimOfTrimmed(Trim(s));
  }

  /** `s.startsWith(prefix)`. */
  predicate StartsWith(s: string, prefix: string) {
    |prefix| <= |s| && s[..|prefix|] == prefix
  }

  predicate IsDigit(c: char) {
    '0' <= c <= '9'
  }

  function DigitChar(d: nat): (c: char)
    requires d < 10
    ensures IsDigit(c)
  {
    ['0', '1', '2', '3', '4', '5', '6', '7', '8', '9'][d]
  }

  /** `${n}` for a non-negative integer below 10^21: its decimal digits,
      most significant first, without leading zeros. */
  function DecimalString(n: nat): (r: string)
    ensures |r| >= 1
    ensures forall i :: 0 <= i < |r| ==> IsDigit(r[i])
    ensures r[0] == '0' ==> n == 0 && r == "0"
    ensures n >= 10 <==> |r| >= 2
  {
    if n < 10 then [DigitChar(n)]
    else DecimalString(n / 10) + [DigitChar(n % 10)]
  }

  /** The number a digit character stands for. */
  function DigitValue(c: char): nat
    requires IsDigit(c)
  {
    c as int - '0' as int
  }

  /** The number a string of decimal digits spells, most significant digit
      first (`parseInt(s, 10)` on such a string); the empty string reads as 0. */
  function DigitsValue(s: string): nat
    requires forall i :: 0 <= i < |s| ==> IsDigit(s[i])
  {
    if |s| == 0 then 0 else DigitsValue(s[..|s| - 1]) * 10 + DigitValue(s[|s| - 1])
  }

  /** Reading the rendering back gives the number rendered. */
  lemma {:induction false} DecimalStringValue(n: nat)
    ensures DigitsValue(DecimalString(n)) == n
    decreases n
  {
    var s := DecimalString(n);
    if n < 10 {
      assert s[..0] == "";
      assert DigitValue(DigitChar(n)) == n;
    } else {
      DecimalStringValue(n / 10);
      assert s[..|s| - 1] == DecimalString(n / 10);
      assert DigitValue(DigitChar(n % 10)) == n % 10;
    }
  }

  /** Distinct integers render as distinct strings. */
  lemma {:induction false} DecimalStringInjective(a: nat, b: nat)
    requires DecimalString(a) == DecimalString(b)
    ensures a == b
    decreases a
  {
    var s := DecimalString(a);
    if a >= 10 {
      assert b >= 10;
      assert s[|s| - 1] == DigitChar(a % 10) == DigitChar(b % 10);
      assert s[..|s| - 1] == DecimalString(a / 10) == DecimalString(b / 10);
      DecimalStringInjective(a / 10, b / 10);
    } else {
      assert b < 10;
      assert s[0] == DigitChar(a) == DigitChar(b);
    }
  }
}
