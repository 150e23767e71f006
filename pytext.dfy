/** The parts of Python's `str` behaviour that the scraper relies on, over ASCII digits. */
module PyText {
  import opened Results

  const NBSP: char := '\U{A0}'

  /** `str.isspace()` for a single character: Python's whitespace set. */
  predicate IsSpace(c: char) {
    || c == ' ' || c == '\t' || c == '\n' || c == '\r' || c == '\U{B}' || c == '\U{C}'
    || ('\U{1C}' <= c <= '\U{1F}') || c == '\U{85}' || c == NBSP || c == '\U{1680}'
    || ('\U{2000}' <= c <= '\U{200A}') || c == '\U{2028}' || c == '\U{2029}'
    || c == '\U{202F}' || c == '\U{205F}' || c == '\U{3000}'
  }

  /**
   * The whitespace `int()` skips around a number. CPython keeps every ASCII
   * character as it is and then skips only tab, line feed, vertical tab, form
   * feed, carriage return and space; a non-ASCII whitespace character becomes a
   * space first. So this is `IsSpace` without the separators U+001C..U+001F.
   */
  predicate IsIntSpace(c: char) {
    IsSpace(c) && !('\U{1C}' <= c <= '\U{1F}')
  }

  /** `s.lstrip()` for the whitespace test `ws`: drops the leading whitespace and nothing else. */
  function StripLeft(s: string, ws: char -> bool): (r: string)
    ensures |r| <= |s| && r == s[|s| - |r|..]
    ensures forall i :: 0 <= i < |s| - |r| ==> ws(s[i])
    ensures r == [] || !ws(r[0])
    decreases |s|
  {
    if |s| > 0 && ws(s[0]) then StripLeft(s[1..], ws) else s
  }

  /** `s.rstrip()` for the whitespace test `ws`: drops the trailing whitespace and nothing else. */
  function StripRight(s: string, ws: char -> bool): (r: string)
    ensures |r| <= |s| && r == s[..|r|]
    ensures forall i :: |r| <= i < |s| ==> ws(s[i])
    ensures r == [] || !ws(r[|r| - 1])
    decreases |s|
  {
    if |s| > 0 && ws(s[|s| - 1]) then StripRight(s[..|s| - 1], ws) else s
  }

  function StripBy(s: string, ws: char -> bool): string {
    StripRight(StripLeft(s, ws), ws)
  }

  /** `s.strip()`. */
  function Strip(s: string): string {
    StripBy(s, IsSpace)
  }

  /** The surrounding whitespace `int()` ignores, taken off. */
  function IntStrip(s: string): string {
    StripBy(s, IsIntSpace)
  }

  /** A string that starts and ends with a non-space character is its own strip. */
  lemma StripOfTrimmed(s: string, ws: char -> bool)
    requires s == [] || (!ws(s[0]) && !ws(s[|s| - 1]))
    ensures StripBy(s, ws) == s
  {
  }

  /** Stripping twice is stripping once. */
  lemma StripIdempotent(s: string)
    ensures Strip(Strip(s)) == Strip(s)
  {
    var l := StripLeft(s, IsSpace);
    var r := StripRight(l, IsSpace);
    if r != [] {
      assert r[0] == l[0];
    }
    StripOfTrimmed(r, IsSpace);
  }

  /** `sub in s`, Python's substring test. */
  predicate Contains(s: string, sub: string)
    decreases |s|
  {
    sub <= s || (|s| > 0 && Contains(s[1..], sub))
  }

  /** `s.endswith(suffix)`. */
  predicate EndsWith(s: string, suffix: string) {
    |suffix| <= |s| && s[|s| - |suffix|..] == suffix
  }

  function LowerChar(c: char): char {
    if 'A' <= c <= 'Z' then (c as int + 32) as char else c
  }

  /** `s.lower()` on ASCII letters. */
  function Lower(s: string): string {
    seq(|s|, i requires 0 <= i < |s| => LowerChar(s[i]))
  }

  /** `s.replace(c, "")`: every occurrence of `c` removed, every other character kept. */
  function Without(s: string, c: char): string {
    if |s| == 0 then [] else (if s[0] == c then [] else [s[0]]) + Without(s[1..], c)
  }

  /** `replace(c, "")` removes every `c` and keeps every other character as often as it occurs. */
  lemma {:induction false} WithoutCounts(s: string, c: char)
    ensures multiset(Without(s, c)) == multiset(s)[c := 0]
  {
    if |s| > 0 {
      assert s == [s[0]] + s[1..];
      WithoutCounts(s[1..], c);
    }
  }

  lemma WithoutAbsent(s: string, c: char)
    requires c !in s
    ensures Without(s, c) == s
  {
    if |s| > 0 {
      WithoutAbsent(s[1..], c);
    }
  }

  lemma WithoutConcat(a: string, b: string, c: char)
    ensures Without(a + b, c) == Without(a, c) + Without(b, c)
  {
    if |a| > 0 {
      assert (a + b)[1..] == a[1..] + b;
      WithoutConcat(a[1..], b, c);
    } else {
      assert a + b == b;
    }
  }

  predicate IsAsciiDigit(c: char) {
    '0' <= c <= '9'
  }

  predicate AllAsciiDigits(s: string) {
    forall i :: 0 <= i < |s| ==> IsAsciiDigit(s[i])
  }

  /** `s.isdigit()`: non-empty and made of digits only. */
  predicate IsDigits(s: string) {
    |s| > 0 && AllAsciiDigits(s)
  }

  function DigitValue(c: char): int {
    c as int - '0' as int
  }

  function DigitChar(d: nat): (c: char)
    requires d < 10
    ensures IsAsciiDigit(c) && DigitValue(c) == d
  {
    ('0' as int + d) as char
  }

  /** The number a string of decimal digits denotes (meaningful when every character is a digit). */
  function DecimalValue(s: string): int {
    if |s| == 0 then 0 else 10 * DecimalValue(s[..|s| - 1]) + DigitValue(s[|s| - 1])
  }

  lemma {:induction false} DecimalValueNonNegative(s: string)
    requires AllAsciiDigits(s)
    ensures DecimalValue(s) >= 0
  {
    if |s| > 0 {
      DecimalValueNonNegative(s[..|s| - 1]);
    }
  }

  /** The shortest decimal spelling of `n`, as Python's `str(n)` writes it. */
  function DecimalString(n: nat): (r: string)
    ensures IsDigits(r)
  {
    if n < 10 then [DigitChar(n)] else DecimalString(n / 10) + [DigitChar(n % 10)]
  }

  lemma {:induction false} DecimalRoundTrip(n: nat)
    ensures DecimalValue(DecimalString(n)) == n
  {
    if n >= 10 {
      var s := DecimalString(n);
      assert s[..|s| - 1] == DecimalString(n / 10);
      DecimalRoundTrip(n / 10);
    }
  }

  function Pow10(k: nat): nat {
    if k == 0 then 1 else 10 * Pow10(k - 1)
  }

  lemma AllAsciiDigitsConcat(a: string, b: string)
    requires AllAsciiDigits(a) && AllAsciiDigits(b)
    ensures AllAsciiDigits(a + b)
  {
    assert forall i :: 0 <= i < |a + b| ==> (a + b)[i] == if i < |a| then a[i] else b[i - |a|];
  }

  /** Reading the digits of `a + b` is reading `a`, shifted by the length of `b`, then `b`. */
  lemma {:induction false} DecimalValueConcat(a: string, b: string)
    ensures DecimalValue(a + b) == DecimalValue(a) * Pow10(|b|) + DecimalValue(b)
  {
    if |b| == 0 {
      assert a + b == a;
    } else {
      var b' := b[..|b| - 1];
      var ab := a + b;
      assert ab[..|ab| - 1] == a + b';
      assert ab[|ab| - 1] == b[|b| - 1];
      DecimalValueConcat(a, b');
      var x, y, p, d := DecimalValue(a), DecimalValue(b'), Pow10(|b'|), DigitValue(b[|b| - 1]);
      assert DecimalValue(ab) == 10 * DecimalValue(a + b') + d;
      assert DecimalValue(a + b') == x * p + y;
      assert DecimalValue(b) == 10 * y + d;
      assert Pow10(|b|) == 10 * p;
      ShiftDigit(x, y, p, d);
    }
  }

  lemma ShiftDigit(x: int, y: int, p: int, d: int)
    ensures 10 * (x * p + y) + d == x * (10 * p) + (10 * y + d)
  {
  }

  /** The body `int()` accepts after the sign: ASCII digits, single underscores between them. */
  predicate IsDigitGroups(s: string) {
    && |s| > 0
    && IsAsciiDigit(s[0])
    && IsAsciiDigit(s[|s| - 1])
    && (forall i :: 0 <= i < |s| ==> IsAsciiDigit(s[i]) || s[i] == '_')
    && (forall i :: 0 <= i < |s| - 1 && s[i] == '_' ==> s[i + 1] != '_')
  }

  lemma {:induction false} DigitGroupsWithoutUnderscores(s: string)
    requires forall i :: 0 <= i < |s| ==> IsAsciiDigit(s[i]) || s[i] == '_'
    ensures AllAsciiDigits(Without(s, '_'))
  {
    if |s| > 0 {
      DigitGroupsWithoutUnderscores(s[1..]);
    }
  }

  function ParseUnsigned(s: string): Option<nat> {
    if IsDigitGroups(s) then
      DigitGroupsWithoutUnderscores(s);
      DecimalValueNonNegative(Without(s, '_'));
      Some(DecimalValue(Without(s, '_')))
    else None
  }

  /** Python's `int(s)` in base 10: surrounding whitespace, an optional sign, digit groups. */
  function ParseInt(s: string): Option<int> {
    ParseSigned(IntStrip(s))
  }

  /** `int()` after stripping: an optional sign, then digit groups. */
  function ParseSigned(t: string): Option<int> {
    if |t| > 0 && (t[0] == '-' || t[0] == '+') then
      match ParseUnsigned(t[1..])
      case None => None
      case Some(m) =>
        var v: int := if t[0] == '-' then -(m as int) else m;
        Some(v)
    else
      match ParseUnsigned(t)
      case None => None
      case Some(m) =>
        var v: int := m;
        Some(v)
  }

  lemma ParseUnsignedOfDigits(s: string)
    requires IsDigits(s)
    ensures ParseUnsigned(s) == Some(DecimalValue(s))
  {
    assert IsDigitGroups(s);
    WithoutAbsent(s, '_');
  }

  /** `int()` of a digit string is the number those digits denote. */
  lemma ParseIntOfDigits(s: string)
    requires IsDigits(s)
    ensures ParseInt(s) == Some(DecimalValue(s))
  {
    StripOfTrimmed(s, IsIntSpace);
    assert !(s[0] == '-' || s[0] == '+');
    ParseUnsignedOfDigits(s);
  }

  /** `int()` of a minus sign and a digit string is the negated number. */
  lemma ParseIntOfNegatedDigits(d: string)
    requires IsDigits(d)
    ensures ParseInt("-" + d) == Some(-DecimalValue(d))
  {
    NegatedDigitsAreTrimmed(d);
    ParseUnsignedOfDigits(d);
    DecimalValueNonNegative(d);
    NegatedNumber("-" + d, d, DecimalValue(d));
  }

  lemma NegatedNumber(s: string, d: string, m: nat)
    requires s == "-" + d && IntStrip(s) == s && ParseUnsigned(d) == Some(m)
    ensures ParseInt(s) == Some(-(m as int))
  {
    assert s[0] == '-' && s[1..] == d;
    NegatedSigned(s, m);
  }

  lemma NegatedDigitsAreTrimmed(d: string)
    requires IsDigits(d)
    ensures IntStrip("-" + d) == "-" + d
  {
    var s := "-" + d;
    assert s[|s| - 1] == d[|d| - 1];
    StripOfTrimmed(s, IsIntSpace);
  }

  lemma NegatedSigned(t: string, m: nat)
    requires |t| > 0 && t[0] == '-' && ParseUnsigned(t[1..]) == Some(m)
    ensures ParseSigned(t) == Some(-(m as int))
  {
  }

  /** `int(str(n)) == n`. */
  lemma ParseIntRoundTrip(n: nat)
    ensures ParseInt(DecimalString(n)) == Some(n)
  {
    DecimalRoundTrip(n);
    ParseIntOfDigits(DecimalString(n));
  }

  /** `int()` rejects text with no digit in it, the empty string included. */
  lemma ParseIntNeedsADigit(s: string)
    requires forall i :: 0 <= i < |s| ==> !IsAsciiDigit(s[i])
    ensures ParseInt(s) == None
  {
    var l := StripLeft(s, IsIntSpace);
    assert forall i :: 0 <= i < |l| ==> !IsAsciiDigit(l[i]) by {
      assert forall i :: 0 <= i < |l| ==> l[i] == s[|s| - |l| + i];
    }
    var t := StripRight(l, IsIntSpace);
    assert forall i :: 0 <= i < |t| ==> !IsAsciiDigit(t[i]) by {
      assert forall i :: 0 <= i < |t| ==> t[i] == l[i];
    }
    SignedNeedsADigit(t);
  }

  lemma SignedNeedsADigit(t: string)
    requires forall i :: 0 <= i < |t| ==> !IsAsciiDigit(t[i])
    ensures ParseSigned(t) == None
  {
    if |t| > 0 && (t[0] == '-' || t[0] == '+') {
      assert !IsDigitGroups(t[1..]) by {
        if |t| > 1 {
          assert t[1..][0] == t[1];
        }
      }
    } else {
      assert !IsDigitGroups(t);
    }
  }

  /** `int()` does not skip the ASCII separators U+001C..U+001F, although `str.strip()` does. */
  lemma ParseIntKeepsSeparators(d: string)
    requires IsDigits(d)
    ensures Strip("\U{1C}" + d) == d
    ensures ParseInt("\U{1C}" + d) == None
  {
    var s := "\U{1C}" + d;
    SeparatorStripped(d);
    assert s[|s| - 1] == d[|d| - 1];
    DigitIsNotSpace(d[|d| - 1]);
    assert !IsIntSpace(s[0]);
    StripOfTrimmed(s, IsIntSpace);
    assert s[0] == '\U{1C}';
    NoLeadingDigit(s);
  }

  lemma SeparatorStripped(d: string)
    requires IsDigits(d)
    ensures Strip("\U{1C}" + d) == d
  {
    var s := "\U{1C}" + d;
    assert s[1..] == d;
    assert IsSpace(s[0]);
    StripLeftSkips(s, IsSpace);
    DigitIsNotSpace(d[0]);
    DigitIsNotSpace(d[|d| - 1]);
    StripOfTrimmed(d, IsSpace);
  }

  lemma DigitIsNotSpace(c: char)
    requires IsAsciiDigit(c)
    ensures !IsSpace(c) && !IsIntSpace(c)
  {
  }

  lemma StripLeftSkips(s: string, ws: char -> bool)
    requires |s| > 0 && ws(s[0])
    ensures StripLeft(s, ws) == StripLeft(s[1..], ws)
  {
  }

  /** Text that starts with neither a sign nor a digit is not a number. */
  lemma NoLeadingDigit(t: string)
    requires |t| > 0 && t[0] != '-' && t[0] != '+' && !IsAsciiDigit(t[0])
    ensures ParseSigned(t) == None
  {
  }
}
