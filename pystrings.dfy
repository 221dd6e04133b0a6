/**
 * The parts of Python's `str` and number parsing that the billing code relies
 * on: `strip()`, `lower()`, `startswith`, `replace(old, "")`, `split(sep)[-1]`,
 * `str(n)`, `zfill`, `int(text)` and the decimal syntax accepted by
 * `float(text)` and `Decimal(text)`.
 */
module PyStrings {
  import opened Wrappers
  import Collections

  /** Python's whitespace (what `str.strip()` with no argument removes). */
  predicate IsSpace(c: char) {
    var k := c as int;
    k == 32 || 9 <= k <= 13 || 28 <= k <= 31 || k == 0x85 || k == 0xA0 || k == 0x1680
    || 0x2000 <= k <= 0x200A || k == 0x2028 || k == 0x2029 || k == 0x202F || k == 0x205F
    || k == 0x3000
  }

  predicate IsDigit(c: char) {
    '0' <= c <= '9'
  }

  predicate AllDigits(s: string) {
    forall i :: 0 <= i < |s| ==> IsDigit(s[i])
  }

  function StripLeft(s: string): string {
    if |s| > 0 && IsSpace(s[0]) then StripLeft(s[1..]) else s
  }

  function StripRight(s: string): string {
    if |s| > 0 && IsSpace(s[|s| - 1]) then StripRight(s[..|s| - 1]) else s
  }

  /** `lstrip()` keeps a suffix of its input. */
  lemma {:induction false} StripLeftSuffix(s: string)
    ensures |StripLeft(s)| <= |s| && StripLeft(s) == s[|s| - |StripLeft(s)|..]
  {
    if |s| > 0 && IsSpace(s[0]) {
      StripLeftSuffix(s[1..]);
      assert s[|s| - |StripLeft(s)|..] == s[1..][|s| - 1 - |StripLeft(s)|..];
    }
  }

  /** What `lstrip()` removes is whitespace. */
  lemma {:induction false} StripLeftDropsSpace(s: string)
    ensures forall i :: 0 <= i < |s| - |StripLeft(s)| ==> IsSpace(s[i])
  {
    if |s| > 0 && IsSpace(s[0]) {
      var t := s[1..];
      StripLeftDropsSpace(t);
      forall i | 0 <= i < |s| - |StripLeft(s)|
        ensures IsSpace(s[i])
      {
        if i > 0 {
          assert s[i] == t[i - 1];
        }
      }
    }
  }

  /** `lstrip()` stops at the first character that is not whitespace. */
  lemma {:induction false} StripLeftStops(s: string)
    ensures StripLeft(s) != [] ==> !IsSpace(StripLeft(s)[0])
  {
    if |s| > 0 && IsSpace(s[0]) {
      StripLeftStops(s[1..]);
    }
  }

  /** `rstrip()` keeps a prefix of its input. */
  lemma {:induction false} StripRightPrefix(s: string)
    ensures |StripRight(s)| <= |s| && StripRight(s) == s[..|StripRight(s)|]
  {
    if |s| > 0 && IsSpace(s[|s| - 1]) {
      StripRightPrefix(s[..|s| - 1]);
      assert s[..|StripRight(s)|] == s[..|s| - 1][..|StripRight(s)|];
    }
  }

  /** What `rstrip()` removes is whitespace. */
  lemma {:induction false} StripRightDropsSpace(s: string)
    ensures forall i :: |StripRight(s)| <= i < |s| ==> IsSpace(s[i])
  {
    if |s| > 0 && IsSpace(s[|s| - 1]) {
      var t := s[..|s| - 1];
      StripRightDropsSpace(t);
      StripRightPrefix(t);
      forall i | |StripRight(s)| <= i < |s|
        ensures IsSpace(s[i])
      {
        if i < |t| {
          assert s[i] == t[i];
        }
      }
    }
  }

  /** `rstrip()` stops at the last character that is not whitespace. */
  lemma {:induction false} StripRightStops(s: string)
    ensures StripRight(s) != [] ==> !IsSpace(StripRight(s)[|StripRight(s)| - 1])
  {
    if |s| > 0 && IsSpace(s[|s| - 1]) {
      StripRightStops(s[..|s| - 1]);
    }
  }

  /** `s.strip()`. */
  function Strip(s: string): string {
    StripRight(StripLeft(s))
  }

  /** Blank text strips to the empty string and nothing else does; what is left has no space at either end. */
  lemma StripBlankIff(s: string)
    ensures Strip(s) == [] <==> forall i :: 0 <= i < |s| ==> IsSpace(s[i])
    ensures Strip(s) != [] ==> !IsSpace(Strip(s)[0]) && !IsSpace(Strip(s)[|Strip(s)| - 1])
  {
    StripLeftSuffix(s);
    StripLeftDropsSpace(s);
    StripLeftStops(s);
    StripRightPrefix(StripLeft(s));
    StripRightDropsSpace(StripLeft(s));
    StripRightStops(StripLeft(s));
  }

  /** ASCII lower-casing, the part of `str.lower()` the model covers. */
  function LowerChar(c: char): char {
    if 'A' <= c <= 'Z' then (c as int + 32) as char else c
  }

  function Lower(s: string): string {
    if |s| == 0 then [] else [LowerChar(s[0])] + Lower(s[1..])
  }

  /** The key the registries compare names and codes by: `s.strip().lower()`. */
  function Normalize(s: string): string {
    Lower(Strip(s))
  }

  predicate StartsWith(s: string, prefix: string) {
    |prefix| <= |s| && s[..|prefix|] == prefix
  }

  /**
   * `s.replace(target, "")`: every occurrence of `target`, found left to right
   * without overlap, is deleted. An empty `target` leaves `s` as it is.
   */
  function RemoveAll(s: string, target: string): (r: string)
    ensures |r| <= |s|
    decreases |s|
  {
    if |target| == 0 || |s| < |target| then s
    else if s[..|target|] == target then RemoveAll(s[|target|..], target)
    else [s[0]] + RemoveAll(s[1..], target)
  }

  /** `s.split(sep)[-1]`: the text after the last `sep`, or all of `s`. */
  function LastSegment(s: string, sep: char): (r: string)
    ensures |r| <= |s| && r == s[|s| - |r|..]
    ensures sep !in r
    ensures |r| < |s| ==> s[|s| - |r| - 1] == sep
  {
    if |s| == 0 then []
    else if s[|s| - 1] == sep then []
    else LastSegment(s[..|s| - 1], sep) + [s[|s| - 1]]
  }

  function DigitChar(d: nat): char
    requires d < 10
  {
    ['0', '1', '2', '3', '4', '5', '6', '7', '8', '9'][d]
  }

  function DigitValue(c: char): nat
    requires IsDigit(c)
  {
    (c as int - '0' as int) as nat
  }

  /** The number a string of decimal digits denotes (most significant first). */
  function DigitsValue(s: string): nat
    requires AllDigits(s)
  {
    if |s| == 0 then 0 else DigitsValue(s[..|s| - 1]) * 10 + DigitValue(s[|s| - 1])
  }

  /** `str(n)` for a non-negative integer: no sign, no leading zeros. */
  function NatToString(n: nat): (r: string)
    ensures 1 <= |r| && AllDigits(r)
    ensures r[0] == '0' ==> n == 0
  {
    if n < 10 then [DigitChar(n)] else NatToString(n / 10) + [DigitChar(n % 10)]
  }

  function Repeat(c: char, k: int): (r: string)
    ensures |r| == if k < 0 then 0 else k
    ensures forall i :: 0 <= i < |r| ==> r[i] == c
  {
    if k <= 0 then [] else [c] + Repeat(c, k - 1)
  }

  /** `str(n).zfill(width)`: left-padded with zeros, never truncated. */
  function ZeroPad(n: nat, width: int): (r: string)
    ensures AllDigits(r)
    ensures |r| == if width > |NatToString(n)| then width else |NatToString(n)|
    ensures r[|r| - |NatToString(n)|..] == NatToString(n)
  {
    Repeat('0', width - |NatToString(n)|) + NatToString(n)
  }

  /** Splits an optional leading sign off `t`: (is negative, rest). */
  function SplitSign(t: string): (bool, string) {
    if |t| > 0 && (t[0] == '+' || t[0] == '-') then (t[0] == '-', t[1..]) else (false, t)
  }

  /** `int(text)`: surrounding whitespace, an optional sign, then decimal digits. */
  function ParseInt(text: string): Option<int> {
    var (negative, digits) := SplitSign(Strip(text));
    if |digits| == 0 || !AllDigits(digits) then None
    else if negative then Some(-(DigitsValue(digits) as int))
    else Some(DigitsValue(digits))
  }

  function Pow10(k: nat): (r: nat)
    ensures r >= 1
  {
    if k == 0 then 1 else 10 * Pow10(k - 1)
  }

  /** The decimal point. */
  predicate IsDot(c: char) {
    c == '.'
  }

  /** The value of the literal `<whole>.<frac>`. */
  function DecimalValue(whole: string, frac: string): real
    requires AllDigits(whole) && AllDigits(frac)
  {
    DigitsValue(whole) as real + DigitsValue(frac) as real / Pow10(|frac|) as real
  }

  /** Unsigned decimal literal: digits, optionally with one '.', at least one digit. */
  function ParseUnsignedDecimal(t: string): Option<real> {
    if |t| > 0 && AllDigits(t) then Some(DigitsValue(t) as real)
    else
      match Collections.FirstIndex(t, IsDot)
      case None => None
      case Some(i) =>
        var whole, frac := t[..i], t[i + 1..];
        if |whole| + |frac| > 0 && AllDigits(whole) && AllDigits(frac) then
          Some(DecimalValue(whole, frac))
        else None
  }

  /**
   * The decimal text `float(text)` and `Decimal(text)` accept, restricted to
   * ASCII digits: surrounding whitespace, an optional sign, digits with at
   * most one '.'. Underscores, exponents, `inf`/`nan` and non-ASCII digits
   * are not read.
   */
  function ParseDecimal(text: string): Option<real> {
    var (negative, mantissa) := SplitSign(Strip(text));
    match ParseUnsignedDecimal(mantissa)
    case None => None
    case Some(v) => if negative then Some(-v) else Some(v)
  }

  // ---- properties ----

  /** `str(n)` parses back to `n`. */
  lemma {:induction false} NatToStringRoundTrip(n: nat)
    ensures DigitsValue(NatToString(n)) == n
  {
    if n >= 10 {
      NatToStringRoundTrip(n / 10);
      var s := NatToString(n);
      assert s[..|s| - 1] == NatToString(n / 10);
    }
  }

  /** Two different numbers never print the same. */
  lemma NatToStringInjective(a: nat, b: nat)
    requires NatToString(a) == NatToString(b)
    ensures a == b
  {
    NatToStringRoundTrip(a);
    NatToStringRoundTrip(b);
  }

  /** A number below 10^k prints with at most k digits. */
  lemma {:induction false} NatToStringLength(n: nat, k: nat)
    requires 1 <= k && n < Pow10(k)
    ensures |NatToString(n)| <= k
  {
    if n >= 10 {
      NatToStringLength(n / 10, k - 1);
    }
  }

  /** Leading zeros do not change the value of a digit string. */
  lemma {:induction false} LeadingZerosValue(k: int, s: string)
    requires AllDigits(s)
    ensures AllDigits(Repeat('0', k) + s)
    ensures DigitsValue(Repeat('0', k) + s) == DigitsValue(s)
    decreases |s|
  {
    var z := Repeat('0', k);
    if |s| == 0 {
      assert z + s == z;
      ZerosValue(z);
    } else {
      LeadingZerosValue(k, s[..|s| - 1]);
      assert (z + s)[..|z + s| - 1] == z + s[..|s| - 1];
    }
  }

  lemma {:induction false} ZerosValue(z: string)
    requires forall i :: 0 <= i < |z| ==> z[i] == '0'
    ensures AllDigits(z) && DigitsValue(z) == 0
  {
    if |z| > 0 {
      ZerosValue(z[..|z| - 1]);
    }
  }

  /** Zero-padding keeps the value: `int(str(n).zfill(w)) == n`. */
  lemma ZeroPadValue(n: nat, width: int)
    ensures DigitsValue(ZeroPad(n, width)) == n
  {
    LeadingZerosValue(width - |NatToString(n)|, NatToString(n));
    NatToStringRoundTrip(n);
  }

  /** Text without leading or trailing whitespace is its own `strip()`. */
  lemma StripNoSpace(s: string)
    requires s != [] ==> !IsSpace(s[0]) && !IsSpace(s[|s| - 1])
    ensures Strip(s) == s
  {
  }

  lemma DigitsAreNotSpace(s: string)
    requires AllDigits(s)
    ensures s != [] ==> !IsSpace(s[0]) && !IsSpace(s[|s| - 1])
  {
  }

  /** Python's `int()` reads a zero-padded number back exactly. */
  lemma ParseIntZeroPad(n: nat, width: int)
    ensures ParseInt(ZeroPad(n, width)) == Some(n)
  {
    var z := ZeroPad(n, width);
    DigitsAreNotSpace(z);
    StripNoSpace(z);
    ZeroPadValue(n, width);
    assert SplitSign(z) == (false, z);
  }

  /** The last '/'-segment of `p + d` is `d` when `p` ends in the separator and `d` has none. */
  lemma {:induction false} LastSegmentAfter(p: string, d: string, sep: char)
    requires |p| > 0 && p[|p| - 1] == sep && sep !in d
    ensures LastSegment(p + d, sep) == d
    decreases |d|
  {
    if |d| == 0 {
      assert p + d == p;
    } else {
      LastSegmentAfter(p, d[..|d| - 1], sep);
      assert (p + d)[..|p + d| - 1] == p + d[..|d| - 1];
    }
  }

  /** `replace` finds a leading occurrence first and then goes on after it. */
  lemma RemoveAllLeading(p: string, d: string)
    requires |p| > 0
    ensures RemoveAll(p + d, p) == RemoveAll(d, p)
  {
    assert (p + d)[..|p|] == p;
    assert (p + d)[|p|..] == d;
  }

  /** A one-character non-digit target is never found inside a leading run of digits. */
  lemma {:induction false} RemoveAllSkipsDigits(d: string, rest: string, target: string)
    requires AllDigits(d) && |target| == 1 && !IsDigit(target[0])
    ensures RemoveAll(d + rest, target) == d + RemoveAll(rest, target)
    decreases |d|
  {
    if |d| > 0 {
      var s := d + rest;
      assert s[..1] != target by {
        assert s[..1][0] == d[0];
      }
      assert RemoveAll(s, target) == [s[0]] + RemoveAll(s[1..], target);
      assert s[0] == d[0] && s[1..] == d[1..] + rest;
      RemoveAllSkipsDigits(d[1..], rest, target);
      assert d == [d[0]] + d[1..];
    } else {
      assert d + rest == rest;
    }
  }

  /** A digit group followed by a separator: the group stays, the separator goes. */
  lemma SkipGroup(a: string, rest: string, sep: string)
    requires AllDigits(a) && |sep| == 1 && !IsDigit(sep[0])
    ensures RemoveAll(a + (sep + rest), sep) == a + RemoveAll(rest, sep)
  {
    RemoveAllSkipsDigits(a, sep + rest, sep);
    RemoveAllLeading(sep, rest);
  }

  /** Removing the separators from three digit groups joined by them leaves the digits run together. */
  lemma RemoveSeparators(a: string, b: string, c: string, sep: string)
    requires AllDigits(a) && AllDigits(b) && AllDigits(c)
    requires |sep| == 1 && !IsDigit(sep[0])
    ensures RemoveAll(a + sep + b + sep + c, sep) == a + b + c
  {
    var tail := b + (sep + c);
    JoinedGroups(a, b, c, sep);
    SkipGroup(a, tail, sep);
    SkipGroup(b, c, sep);
    assert !AllDigits(sep) by {
      assert !IsDigit(sep[0]);
    }
    RemoveAllFromDigits(c, sep);
    assert RemoveAll(tail, sep) == b + c;
  }

  /** Regrouping three groups and two separators to the right. */
  lemma JoinedGroups(a: string, b: string, c: string, sep: string)
    ensures a + sep + b + sep + c == a + (sep + (b + (sep + c)))
    ensures a + b + c == a + (b + c)
  {
  }

  /** A target holding a non-digit never occurs in a digit string. */
  lemma {:induction false} RemoveAllFromDigits(d: string, target: string)
    requires AllDigits(d) && !AllDigits(target) && |target| > 0
    ensures RemoveAll(d, target) == d
    decreases |d|
  {
    if |d| >= |target| {
      var i :| 0 <= i < |target| && !IsDigit(target[i]);
      assert d[..|target|][i] == d[i];
      assert d[..|target|] != target;
      RemoveAllFromDigits(d[1..], target);
      assert d == [d[0]] + d[1..];
    }
  }
}
