/** Character classes and string conversions from ECMAScript that the wizard relies on:
    `String.prototype.trim`, the regular-expression class `\s`/`\S`, `parseInt` and the
    decimal rendering of a non-negative integer. */
module Text {
  import opened Wrappers

  /** White space and line terminators as ECMAScript defines them (WhiteSpace and
      LineTerminator): the characters `trim` strips, `\s` matches and `parseInt` skips. */
  predicate IsWhitespace(c: char) {
    || c == '\t' || c == '\n' || c == '\U{000B}' || c == '\U{000C}' || c == '\r' || c == ' '
    || c == '\U{00A0}' || c == '\U{1680}' || ('\U{2000}' <= c <= '\U{200A}')
    || c == '\U{2028}' || c == '\U{2029}' || c == '\U{202F}' || c == '\U{205F}'
    || c == '\U{3000}' || c == '\U{FEFF}'
  }

  ghost predicate AllWhitespace(s: string) {
    forall i :: 0 <= i < |s| ==> IsWhitespace(s[i])
  }

  /** Drops leading white space: the result is the suffix of `s` that starts at its first
      non-white-space character. */
  function TrimStart(s: string): (r: string)
    ensures |r| <= |s| && r == s[|s| - |r|..]
    ensures AllWhitespace(s[..|s| - |r|])
    ensures r == [] || !IsWhitespace(r[0])
  {
    if s != [] && IsWhitespace(s[0]) then
      var r := TrimStart(s[1..]);
      assert s[1..][..|s| - 1 - |r|] == s[1..|s| - |r|];
      r
    else s
  }

  /** Drops trailing white space: the result is the prefix of `s` that ends at its last
      non-white-space character. */
  function TrimEnd(s: string): (r: string)
    ensures |r| <= |s| && r == s[..|r|]
    ensures AllWhitespace(s[|r|..])
    ensures r == [] || !IsWhitespace(r[|r| - 1])
  {
    if s != [] && IsWhitespace(s[|s| - 1]) then
      var r := TrimEnd(s[..|s| - 1]);
      assert s[..|s| - 1][..|r|] == s[..|r|];
      assert s[|r|..] == s[..|s| - 1][|r|..] + [s[|s| - 1]];
      r
    else s
  }

  /** `String.prototype.trim`. */
  function Trim(s: string): string {
    TrimEnd(TrimStart(s))
  }

  /** A blank string: every character in it is white space. */
  predicate IsBlank(s: string) {
    forall i :: 0 <= i < |s| ==> IsWhitespace(s[i])
  }

  /** `!s.trim()` (the trimmed string is empty, hence falsy) holds exactly for blank strings. */
  lemma TrimEmptyIffBlank(s: string)
    ensures Trim(s) == [] <==> IsBlank(s)
  {
    var t := TrimStart(s);
    if TrimEnd(t) == [] {
      assert t == [];
      forall i | 0 <= i < |s| ensures IsWhitespace(s[i]) {
        assert s[..|s|][i] == s[i];
      }
    }
  }

  predicate IsDigit(c: char) {
    '0' <= c <= '9'
  }

  ghost predicate AllDigits(s: string) {
    forall i :: 0 <= i < |s| ==> IsDigit(s[i])
  }

  function DigitChar(d: nat): (c: char)
    requires d < 10
    ensures IsDigit(c)
  {
    ('0' as int + d) as char
  }

  /** The value of a string of decimal digits, most significant first (`parseInt` on such a
      string). */
  function DecimalValue(s: string): nat
    requires AllDigits(s)
  {
    if s == [] then 0
    else DecimalValue(s[..|s| - 1]) * 10 + (s[|s| - 1] as int - '0' as int)
  }

  /** The decimal rendering of a non-negative integer, as template literals produce it:
      no sign and no leading zero. */
  function Show(n: nat): (s: string)
    ensures |s| > 0 && AllDigits(s)
    ensures s[0] == '0' ==> n == 0
  {
    if n < 10 then [DigitChar(n)] else Show(n / 10) + [DigitChar(n % 10)]
  }

  /** Reading back the decimal rendering gives the number: `parseInt(String(n)) == n`. */
  lemma {:induction false} DecimalValueShow(n: nat)
    ensures DecimalValue(Show(n)) == n
  {
    if n >= 10 {
      var s := Show(n);
      assert s[..|s| - 1] == Show(n / 10);
      DecimalValueShow(n / 10);
    }
  }

  /** Distinct numbers render as distinct strings. */
  lemma ShowInjective(m: nat, n: nat)
    requires Show(m) == Show(n)
    ensures m == n
  {
    DecimalValueShow(m);
    DecimalValueShow(n);
  }

  /** A run that stops at `k` has length `k - i` from any `i` before it. */
  lemma {:induction false} RunLengthUpTo(s: string, i: nat, k: nat, hex: bool)
    requires i <= k <= |s|
    requires forall j :: i <= j < k ==> IsRadixDigit(s[j], hex)
    requires k == |s| || !IsRadixDigit(s[k], hex)
    ensures RunLength(s, i, hex) == k - i
    decreases k - i
  {
    if i < k {
      RunLengthUpTo(s, i + 1, k, hex);
    }
  }

  predicate IsHexDigit(c: char) {
    IsDigit(c) || 'a' <= c <= 'f' || 'A' <= c <= 'F'
  }

  /** A digit of radix 16 when `hex` holds, of radix 10 otherwise. */
  predicate IsRadixDigit(c: char, hex: bool) {
    if hex then IsHexDigit(c) else IsDigit(c)
  }

  /** The length of the run of digits that starts at `i`. */
  function RunLength(s: string, i: nat, hex: bool): (n: nat)
    requires i <= |s|
    ensures i + n <= |s|
    ensures forall k :: i <= k < i + n ==> IsRadixDigit(s[k], hex)
    ensures i + n == |s| || !IsRadixDigit(s[i + n], hex)
    decreases |s| - i
  {
    if i < |s| && IsRadixDigit(s[i], hex) then 1 + RunLength(s, i + 1, hex) else 0
  }

  function HexDigitValue(c: char): (d: nat)
    requires IsHexDigit(c)
    ensures d < 16
  {
    if IsDigit(c) then c as int - '0' as int
    else if 'a' <= c <= 'f' then c as int - 'a' as int + 10
    else c as int - 'A' as int + 10
  }

  /** The value of a string of digits in radix 10 or 16, most significant first. */
  function RadixValue(s: string, radix: nat): nat
    requires radix == 10 || radix == 16
    requires forall i :: 0 <= i < |s| ==> IsHexDigit(s[i])
  {
    if s == [] then 0
    else RadixValue(s[..|s| - 1], radix) * radix + HexDigitValue(s[|s| - 1])
  }

  /** The unsigned part of `parseInt`: a `0x`/`0X` prefix selects radix 16, and the value is
      that of the longest run of digits at the front; `None` when there is no digit. */
  function ParseMagnitude(u: string): Option<nat>
  {
    var hex := |u| >= 2 && u[0] == '0' && (u[1] == 'x' || u[1] == 'X');
    var body := if hex then u[2..] else u;
    var n := RunLength(body, 0, hex);
    if n == 0 then None else Some(RadixValue(body[..n], if hex then 16 else 10))
  }

  /** `parseInt(s)` without a radix argument: leading white space is skipped, one `+` or `-`
      sign is read, and the rest is read by ParseMagnitude. `None` stands for NaN. */
  function ParseInt(s: string): (r: Option<int>)
  {
    var t := TrimStart(s);
    var negative := t != [] && t[0] == '-';
    var u := if t != [] && (t[0] == '-' || t[0] == '+') then t[1..] else t;
    match ParseMagnitude(u)
    case None => None
    case Some(m) => Some(if negative then -(m as int) else m as int)
  }

  /** `parseInt(s) || 0`: NaN and (negative) zero both become 0. */
  function ParseIntOrZero(s: string): int {
    match ParseInt(s)
    case None => 0
    case Some(v) => v
  }

  lemma {:induction false} RadixValueDecimal(s: string)
    requires AllDigits(s)
    ensures RadixValue(s, 10) == DecimalValue(s)
  {
    if s != [] {
      RadixValueDecimal(s[..|s| - 1]);
    }
  }

  /** Characters that can follow a rendered number without being read as part of it. */
  predicate Delimits(rest: string) {
    rest == [] || !(IsDigit(rest[0]) || rest[0] == 'x' || rest[0] == 'X')
  }

  /** `parseInt` reads back a rendered number, with or without a minus sign, and ignores
      whatever follows the digits (an `x` right after a lone `0` would select radix 16). */
  lemma ParseIntShow(n: nat, negative: bool, rest: string)
    requires Delimits(rest)
    ensures ParseInt((if negative then "-" else "") + (Show(n) + rest)) == Some(if negative then -(n as int) else n as int)
    ensures ParseIntOrZero((if negative then "-" else "") + (Show(n) + rest)) == if negative then -(n as int) else n as int
  {
    var u := Show(n) + rest;
    MagnitudeOfRenderedNumber(n, rest);
    ParseIntOfSigned((if negative then "-" else "") + u, negative, u, n);
  }

  lemma ParseIntOfSigned(s: string, negative: bool, u: string, m: nat)
    requires s == (if negative then ['-'] + u else u)
    requires u != [] && IsDigit(u[0])
    requires ParseMagnitude(u) == Some(m)
    ensures ParseInt(s) == Some(if negative then -(m as int) else m as int)
  {
    assert !IsWhitespace(s[0]) by {
      assert s[0] == if negative then '-' else u[0];
    }
    assert TrimStart(s) == s;
    if negative {
      assert s[1..] == u;
    }
  }

  lemma MagnitudeOfRenderedNumber(n: nat, rest: string)
    requires Delimits(rest)
    ensures ParseMagnitude(Show(n) + rest) == Some(n)
  {
    var digits := Show(n);
    var u := digits + rest;
    var hex := |u| >= 2 && u[0] == '0' && (u[1] == 'x' || u[1] == 'X');
    if |u| >= 2 && u[0] == '0' {
      assert n == 0 && |digits| == 1 && u[1] == rest[0];
    }
    assert !hex;
    RunLengthUpTo(u, 0, |digits|, false);
    assert u[..|digits|] == digits;
    RadixValueDecimal(digits);
    DecimalValueShow(n);
  }

  /** A string with no digit at all parses to NaN, which `|| 0` turns into 0. */
  lemma ParseIntNoDigits(s: string)
    requires forall i :: 0 <= i < |s| ==> !IsHexDigit(s[i])
    ensures ParseInt(s) == None && ParseIntOrZero(s) == 0
  {
    var t := TrimStart(s);
    var u := if t != [] && (t[0] == '-' || t[0] == '+') then t[1..] else t;
    assert forall i :: 0 <= i < |u| ==> u[i] in s;
    if u != [] {
      assert !IsHexDigit(u[0]);
    }
  }
}
