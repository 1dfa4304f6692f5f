/**
 The few pieces of Python string semantics the suite's decision logic relies on:
 `str()` of the values that reach it, `str.strip()`, the substring operator `in`,
 `str.startswith`, and `int()` of a string matching `-?[0-9]+`.

 Digits are the ASCII digits '0'..'9' only; Python's `\d` and `int()` also accept
 every other Unicode decimal digit, which this model does not.
 */
module PyText {

  /** A Python value as it reaches the suite's helpers: an int, a str, a float
      (kept as the text `str()` prints for it) or `None`. */
  datatype PyValue = PyInt(i: int) | PyStr(s: string) | PyFloat(repr: string) | PyNone

  // ---------------------------------------------------------------------------
  // Prefixes and substrings

  /** `s.startswith(prefix)` */
  predicate StartsWith(s: string, prefix: string) {
    |prefix| <= |s| && s[..|prefix|] == prefix
  }

  /** `sub` occurs in `s` starting at index `i`. */
  ghost predicate OccursAt(s: string, sub: string, i: int) {
    0 <= i && i + |sub| <= |s| && s[i..i + |sub|] == sub
  }

  /** `sub in s`, scanning `s` from the left. */
  predicate Contains(s: string, sub: string)
    decreases |s|
  {
    StartsWith(s, sub) || (|s| > 0 && Contains(s[1..], sub))
  }

  /** The scan agrees with the definition of a substring: some position holds `sub`. */
  lemma {:induction false} ContainsIsOccurrence(s: string, sub: string)
    ensures Contains(s, sub) <==> exists i :: OccursAt(s, sub, i)
    decreases |s|
  {
    assert OccursAt(s, sub, 0) <==> StartsWith(s, sub);
    if |s| > 0 {
      ContainsIsOccurrence(s[1..], sub);
      forall i | 1 <= i
        ensures OccursAt(s, sub, i) <==> OccursAt(s[1..], sub, i - 1)
      {
        if i + |sub| <= |s| {
          assert s[1..][i - 1..i - 1 + |sub|] == s[i..i + |sub|];
        }
      }
      if Contains(s[1..], sub) {
        var i :| OccursAt(s[1..], sub, i);
        assert OccursAt(s, sub, i + 1);
      }
    }
    if exists i :: OccursAt(s, sub, i) {
      var i :| OccursAt(s, sub, i);
      if i > 0 {
        assert OccursAt(s[1..], sub, i - 1);
      }
    }
  }

  /** A string cannot contain a non-empty `sub` whose first character it lacks. */
  lemma NotContainsWithoutHead(s: string, sub: string)
    requires |sub| > 0 && sub[0] !in s
    ensures !Contains(s, sub)
  {
    ContainsIsOccurrence(s, sub);
    forall i | 0 <= i && i + |sub| <= |s| ensures !OccursAt(s, sub, i) {
      assert s[i] in s;
      assert s[i..i + |sub|][0] == s[i];
    }
  }

  // ---------------------------------------------------------------------------
  // Whitespace and str.strip()

  /** The code points Python's `str.isspace()` (and hence `str.strip()`) treats as whitespace. */
  predicate IsSpace(c: char) {
    ('\t' <= c <= '\r') || ('\U{1c}' <= c <= ' ') || c == '\U{85}' || c == '\U{a0}'
    || c == '\U{1680}' || ('\U{2000}' <= c <= '\U{200a}') || c == '\U{2028}' || c == '\U{2029}'
    || c == '\U{202f}' || c == '\U{205f}' || c == '\U{3000}'
  }

  predicate AllSpace(s: string) {
    forall i :: 0 <= i < |s| ==> IsSpace(s[i])
  }

  function StripLeft(s: string): string {
    if |s| > 0 && IsSpace(s[0]) then StripLeft(s[1..]) else s
  }

  function StripRight(s: string): string {
    if |s| > 0 && IsSpace(s[|s| - 1]) then StripRight(s[..|s| - 1]) else s
  }

  /** `s.strip()` with no argument. */
  function Strip(s: string): string {
    StripRight(StripLeft(s))
  }

  /** Stripping leaves neither leading nor trailing whitespace, and the result is
      a contiguous part of the input. */
  lemma {:induction false} StripShape(s: string)
    ensures var t := Strip(s);
      (|t| == 0 || (!IsSpace(t[0]) && !IsSpace(t[|t| - 1])))
      && exists i, j :: 0 <= i <= j <= |s| && t == s[i..j]
  {
    var l, a := StripLeftShape(s);
    var b := StripRightShape(StripLeft(s));
    var t := Strip(s);
    if |t| > 0 {
      assert t[0] == StripLeft(s)[0];
    }
    assert t == s[a..a + b];
  }

  lemma {:induction false} StripLeftShape(s: string) returns (l: string, a: nat)
    ensures l == StripLeft(s) && a <= |s| && l == s[a..]
    ensures |l| == 0 || !IsSpace(l[0])
    decreases |s|
  {
    if |s| > 0 && IsSpace(s[0]) {
      var l', a' := StripLeftShape(s[1..]);
      l, a := l', a' + 1;
      assert s[1..][a'..] == s[a..];
    } else {
      l, a := s, 0;
    }
  }

  lemma {:induction false} StripRightShape(s: string) returns (b: nat)
    ensures b <= |s| && StripRight(s) == s[..b]
    ensures |StripRight(s)| == 0 || !IsSpace(StripRight(s)[|StripRight(s)| - 1])
    decreases |s|
  {
    if |s| > 0 && IsSpace(s[|s| - 1]) {
      b := StripRightShape(s[..|s| - 1]);
      assert s[..|s| - 1][..b] == s[..b];
    } else {
      b := |s|;
    }
  }

  /** A string strips to the empty string exactly when it is all whitespace. */
  lemma {:induction false} StripEmptyIffAllSpace(s: string)
    ensures Strip(s) == "" <==> AllSpace(s)
  {
    StripLeftEmptyIffAllSpace(s);
    var l, _ := StripLeftShape(s);
    StripRightEmptyIffAllSpace(l);
  }

  /** One step of the inductions below: a string with a whitespace head is all
      whitespace exactly when its tail is. */
  lemma AllSpaceTail(s: string)
    requires |s| > 0 && IsSpace(s[0])
    ensures AllSpace(s) <==> AllSpace(s[1..])
  {
    if AllSpace(s[1..]) {
      forall i | 0 <= i < |s| ensures IsSpace(s[i]) {
        if i > 0 { assert s[i] == s[1..][i - 1]; }
      }
    }
  }

  lemma {:induction false} StripLeftEmptyIffAllSpace(s: string)
    ensures StripLeft(s) == "" <==> AllSpace(s)
    decreases |s|
  {
    if |s| > 0 {
      StripLeftEmptyIffAllSpace(s[1..]);
      if IsSpace(s[0]) {
        AllSpaceTail(s);
      }
    }
  }

  lemma {:induction false} StripRightEmptyIffAllSpace(s: string)
    ensures StripRight(s) == "" <==> AllSpace(s)
    decreases |s|
  {
    if |s| > 0 {
      var p := s[..|s| - 1];
      StripRightEmptyIffAllSpace(p);
      if IsSpace(s[|s| - 1]) {
        if AllSpace(p) {
          forall i | 0 <= i < |s| ensures IsSpace(s[i]) {
            if i < |s| - 1 { assert s[i] == p[i]; }
          }
        }
      }
    }
  }

  lemma {:induction false} StripLeftPrefixSpace(w: string, s: string)
    requires AllSpace(w)
    ensures StripLeft(w + s) == StripLeft(s)
    decreases |w|
  {
    if |w| > 0 {
      assert (w + s)[1..] == w[1..] + s;
      StripLeftPrefixSpace(w[1..], s);
    } else {
      assert w + s == s;
    }
  }

  lemma {:induction false} StripRightSuffixSpace(s: string, w: string)
    requires AllSpace(w)
    ensures StripRight(s + w) == StripRight(s)
    decreases |w|
  {
    if |w| > 0 {
      assert (s + w)[..|s + w| - 1] == s + w[..|w| - 1];
      StripRightSuffixSpace(s, w[..|w| - 1]);
    } else {
      assert s + w == s;
    }
  }

  /** Stripping the left of `s + w`, for all-whitespace `w`, either eats all of it
      (when `s` is whitespace too) or leaves `w` untouched at the end. */
  lemma {:induction false} StripLeftSuffixSpace(s: string, w: string)
    requires AllSpace(w)
    ensures AllSpace(s) ==> StripLeft(s + w) == ""
    ensures !AllSpace(s) ==> StripLeft(s + w) == StripLeft(s) + w
    decreases |s|
  {
    if |s| == 0 {
      assert s + w == w;
      StripLeftEmptyIffAllSpace(w);
    } else {
      assert (s + w)[1..] == s[1..] + w;
      StripLeftSuffixSpace(s[1..], w);
      if IsSpace(s[0]) {
        AllSpaceTail(s);
      }
    }
  }

  /** Surrounding whitespace never changes what `strip()` returns. */
  lemma {:induction false} StripIgnoresSurroundingSpace(w1: string, s: string, w2: string)
    requires AllSpace(w1) && AllSpace(w2)
    ensures Strip(w1 + s + w2) == Strip(s)
  {
    assert w1 + s + w2 == w1 + (s + w2);
    StripLeftPrefixSpace(w1, s + w2);
    StripLeftSuffixSpace(s, w2);
    if AllSpace(s) {
      StripLeftEmptyIffAllSpace(s);
    } else {
      StripRightSuffixSpace(StripLeft(s), w2);
    }
  }

  // ---------------------------------------------------------------------------
  // Decimal digits, int() and str() of an int

  predicate IsDigit(c: char) {
    '0' <= c <= '9'
  }

  predicate AllDigits(s: string) {
    forall i :: 0 <= i < |s| ==> IsDigit(s[i])
  }

  function DigitValue(c: char): nat
    requires IsDigit(c)
  {
    c as int - '0' as int
  }

  function DigitChar(d: nat): char
    requires d < 10
  {
    ('0' as int + d) as char
  }

  /** The number a string of digits denotes in base ten; leading zeros are allowed. */
  function DigitsValue(s: string): nat
    requires AllDigits(s)
  {
    if |s| == 0 then 0 else DigitsValue(s[..|s| - 1]) * 10 + DigitValue(s[|s| - 1])
  }

  /** The regular expression `^-?\d+$` (over ASCII digits), applied to a string
      that has already been stripped, so `$` cannot meet a trailing newline. */
  predicate IsIntegerLiteral(t: string) {
    (|t| >= 1 && AllDigits(t)) || (|t| >= 2 && t[0] == '-' && AllDigits(t[1..]))
  }

  /** `int(t)` for a string the regular expression above accepts. */
  function ParseInt(t: string): int
    requires IsIntegerLiteral(t)
  {
    if t[0] == '-' then -(DigitsValue(t[1..]) as int) else DigitsValue(t)
  }

  /** `str(n)` for a natural number: its decimal digits without leading zeros. */
  function NatToString(n: nat): string
  {
    if n < 10 then [DigitChar(n)] else NatToString(n / 10) + [DigitChar(n % 10)]
  }

  /** `str(i)` for a Python int. */
  function IntToString(i: int): string
  {
    if i < 0 then "-" + NatToString(-i) else NatToString(i)
  }

  /** Printing a natural number and reading its digits back is the identity, and
      the digits have no leading zero. */
  lemma {:induction false} NatToStringRoundTrip(n: nat)
    ensures var s := NatToString(n);
      |s| >= 1 && AllDigits(s) && DigitsValue(s) == n && (s[0] == '0' ==> n == 0)
    decreases n
  {
    var s := NatToString(n);
    if n >= 10 {
      NatToStringRoundTrip(n / 10);
      var p := NatToString(n / 10);
      assert s[..|s| - 1] == p;
      assert s[0] == p[0];
    }
  }

  /** `int(str(i)) == i` for every Python int. */
  lemma IntToStringRoundTrip(i: int)
    ensures IsIntegerLiteral(IntToString(i)) && ParseInt(IntToString(i)) == i
  {
    var s := IntToString(i);
    if i < 0 {
      NatToStringRoundTrip(-i);
      assert s[1..] == NatToString(-i);
    } else {
      NatToStringRoundTrip(i);
    }
  }

  /** `str(i)` never has surrounding whitespace. */
  lemma IntToStringHasNoSpace(i: int)
    ensures Strip(IntToString(i)) == IntToString(i)
  {
    var s := IntToString(i);
    IntToStringRoundTrip(i);
    var n := if i < 0 then -i else i;
    NatToStringRoundTrip(n);
    assert !IsSpace(s[0]);
    assert !IsSpace(s[|s| - 1]) by {
      if i < 0 { assert s[|s| - 1] == s[1..][|s| - 2]; }
    }
  }

  /** `str(value)` */
  function Str(v: PyValue): string
  {
    match v
    case PyInt(i) => IntToString(i)
    case PyStr(s) => s
    case PyFloat(repr) => repr
    case PyNone => "None"
  }

  // ---------------------------------------------------------------------------
  // CPython's bound on conversions between int and decimal text

  /** The default of `sys.get_int_max_str_digits()` (CPython 3.11 and later, and the
      3.7 to 3.10 security releases): `int()` of a decimal text with more digits
      than this, and `str()` of an int with more digits, raise ValueError. */
  const IntMaxStrDigits: nat := 4300

  /** The ValueError text of `int(t)` for a text with `digits` digits, too many. */
  function ToIntLimitMessage(digits: nat): string {
    "Exceeds the limit (4300 digits) for integer string conversion: value has "
    + NatToString(digits) + " digits; use sys.set_int_max_str_digits() to increase the limit"
  }

  /** The ValueError text of `str(i)` for an int with too many digits. */
  const ToStrLimitMessage: string :=
    "Exceeds the limit (4300 digits) for integer string conversion; "
    + "use sys.set_int_max_str_digits() to increase the limit"

  /** The digits `int()` counts in a literal: all of them, leading zeros included,
      the sign not. */
  function LiteralDigits(t: string): (k: nat)
    requires IsIntegerLiteral(t)
    ensures 1 <= k <= |t|
  {
    if t[0] == '-' then |t| - 1 else |t|
  }

  /** The number of decimal digits of `i`, the sign not counted. */
  function DecimalDigits(i: int): nat {
    |NatToString(if i < 0 then -i else i)|
  }

  /** `str(v)` raises ValueError: an int with more digits than the bound. */
  predicate StrRaises(v: PyValue) {
    v.PyInt? && DecimalDigits(v.i) > IntMaxStrDigits
  }

  /** What `int()` counts in `str(i)` is the number of digits of `i`. */
  lemma LiteralDigitsOfIntToString(i: int)
    ensures IsIntegerLiteral(IntToString(i)) && LiteralDigits(IntToString(i)) == DecimalDigits(i)
  {
    IntToStringRoundTrip(i);
    if i >= 0 {
      NatToStringRoundTrip(i);
    }
  }

  function Pow10(k: nat): (p: nat)
    ensures p >= 1
  {
    if k == 0 then 1 else 10 * Pow10(k - 1)
  }

  /** A natural number has at most `k` decimal digits exactly when it is below
      ten to the `k`; so the bound admits the ints of absolute value below 10^4300. */
  lemma {:induction false} DigitCountBound(n: nat, k: nat)
    requires k >= 1
    ensures |NatToString(n)| <= k <==> n < Pow10(k)
    decreases n
  {
    if n >= 10 {
      assert |NatToString(n)| == |NatToString(n / 10)| + 1;
      NatToStringRoundTrip(n / 10);
      if k > 1 {
        DigitCountBound(n / 10, k - 1);
        assert n / 10 < Pow10(k - 1) <==> n < 10 * Pow10(k - 1);
      }
    } else {
      assert Pow10(k) == 10 * Pow10(k - 1);
    }
  }
}
