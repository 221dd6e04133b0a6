/**
 * The pure helpers of the billing engine: money rounding, decimal
 * conversion, the max-plus-one identifier rule and month keys.
 */
module Helpers {
  import opened Wrappers
  import opened PyStrings
  import opened Dates
  import opened Records

  // ---- money ----

  /** A whole number of hundredths (paise, cents). */
  predicate IsCents(x: real) {
    (x * 100.0).Floor as real == x * 100.0
  }

  /**
   * `c` is `x` rounded to a hundredth with ROUND_HALF_UP: the nearest
   * hundredth, and on an exact half the one further from zero.
   */
  predicate RoundsHalfUpTo(x: real, c: real) {
    IsCents(c)
    && (x >= 0.0 ==> c - 0.005 <= x < c + 0.005)
    && (x < 0.0 ==> c - 0.005 < x <= c + 0.005)
  }

  /** Non-negative amounts: add half a hundredth and cut off. */
  function RoundNonNegative(y: real): (r: real)
    requires y >= 0.0
    ensures IsCents(r) && r >= 0.0 && r - 0.005 <= y < r + 0.005
  {
    var k := (y * 100.0 + 0.5).Floor;
    assert k as real <= y * 100.0 + 0.5 < k as real + 1.0;
    var r := k as real / 100.0;
    assert r * 100.0 == k as real;
    assert (r * 100.0).Floor == k;
    r
  }

  /** `value.quantize(Decimal("0.01"), rounding=ROUND_HALF_UP)`. */
  function QuantizeMoney(x: real): (r: real)
    ensures RoundsHalfUpTo(x, r)
  {
    if x >= 0.0 then RoundNonNegative(x)
    else
      var r := -RoundNonNegative(-x);
      assert (r * 100.0).Floor as real == r * 100.0 by {
        var k := (RoundNonNegative(-x) * 100.0).Floor;
        assert r * 100.0 == -(k as real);
        assert (r * 100.0).Floor == -k;
      }
      r
  }

  /** The rounding rule names exactly one hundredth for every amount. */
  lemma RoundsHalfUpUnique(x: real, c1: real, c2: real)
    requires RoundsHalfUpTo(x, c1) && RoundsHalfUpTo(x, c2)
    ensures c1 == c2
  {
    var k1, k2 := (c1 * 100.0).Floor, (c2 * 100.0).Floor;
    assert k1 as real == c1 * 100.0 && k2 as real == c2 * 100.0;
    assert -1.0 < (c1 - c2) * 100.0 < 1.0;
    assert -1 < k1 - k2 < 1;
  }

  /** Rounding an amount already in hundredths changes nothing. */
  lemma QuantizeIdempotent(x: real)
    requires IsCents(x)
    ensures QuantizeMoney(x) == x
  {
    assert RoundsHalfUpTo(x, x);
    RoundsHalfUpUnique(x, x, QuantizeMoney(x));
  }

  /** Halves go away from zero on both sides: 10.005 to 10.01, -0.005 to -0.01. */
  lemma QuantizeHalves()
    ensures QuantizeMoney(10.005) == 10.01
    ensures QuantizeMoney(-0.005) == -0.01
    ensures QuantizeMoney(2.675) == 2.68
    ensures QuantizeMoney(0.125) == 0.13
  {
    assert RoundsHalfUpTo(10.005, 10.01);
    RoundsHalfUpUnique(10.005, 10.01, QuantizeMoney(10.005));
    assert RoundsHalfUpTo(-0.005, -0.01);
    RoundsHalfUpUnique(-0.005, -0.01, QuantizeMoney(-0.005));
    assert RoundsHalfUpTo(2.675, 2.68);
    RoundsHalfUpUnique(2.675, 2.68, QuantizeMoney(2.675));
    assert RoundsHalfUpTo(0.125, 0.13);
    RoundsHalfUpUnique(0.125, 0.13, QuantizeMoney(0.125));
  }

  /** Sums of amounts in hundredths are amounts in hundredths. */
  lemma CentsSum(a: real, b: real)
    requires IsCents(a) && IsCents(b)
    ensures IsCents(a + b)
  {
    var ka, kb := (a * 100.0).Floor, (b * 100.0).Floor;
    assert (a + b) * 100.0 == (ka + kb) as real;
  }

  /**
   * `to_decimal(value)`: `Decimal(str(value))`, or 0 when that text is not
   * a decimal number. A number is taken exactly.
   */
  function ToDecimal(v: Value): real {
    match v
    case Number(n) => n
    case Text(s) => ParseDecimal(s).GetOr(0.0)
  }

  /** A zero-padded numeral converts to its value. */
  lemma ToDecimalOfNumeral(n: nat, width: int)
    ensures ToDecimal(Text(ZeroPad(n, width))) == n as real
  {
    var z := ZeroPad(n, width);
    DigitsAreNotSpace(z);
    StripNoSpace(z);
    ZeroPadValue(n, width);
    assert SplitSign(z) == (false, z);
  }

  predicate NoDigits(t: string) {
    forall i :: 0 <= i < |t| ==> !IsDigit(t[i])
  }

  /** Text without a single digit, blank text included, is not a number and converts to 0. */
  lemma ToDecimalNotANumber(t: string)
    requires NoDigits(t)
    ensures ParseDecimal(t) == None
    ensures ToDecimal(Text(t)) == 0.0
  {
    StripWithoutDigits(t);
    var r := Strip(t);
    SignWithoutDigits(r);
    UnsignedWithoutDigits(SplitSign(r).1);
  }

  /** Stripping takes characters away and adds none. */
  lemma StripWithoutDigits(t: string)
    requires NoDigits(t)
    ensures NoDigits(Strip(t))
  {
    var l := StripLeft(t);
    StripLeftSuffix(t);
    assert forall i :: 0 <= i < |l| ==> l[i] == t[|t| - |l| + i];
    StripRightPrefix(l);
  }

  /** So does splitting off a sign. */
  lemma SignWithoutDigits(r: string)
    requires NoDigits(r)
    ensures NoDigits(SplitSign(r).1)
  {
    if |r| > 0 && (r[0] == '+' || r[0] == '-') {
      assert forall i :: 0 <= i < |r| - 1 ==> r[1..][i] == r[i + 1];
    }
  }

  /** An unsigned literal needs at least one digit. */
  lemma UnsignedWithoutDigits(m: string)
    requires NoDigits(m)
    ensures ParseUnsignedDecimal(m) == None
  {
    if |m| > 0 {
      assert !IsDigit(m[0]);
    }
    match Collections.FirstIndex(m, IsDot) {
      case None =>
      case Some(i) =>
        var whole, frac := m[..i], m[i + 1..];
        if |whole| > 0 {
          assert whole[0] == m[0];
        } else if |frac| > 0 {
          assert frac[0] == m[i + 1];
        }
    }
  }

  /** The value a decimal literal `<sign><whole>.<frac>` denotes. */
  function LiteralValue(sign: string, whole: string, frac: string): real
    requires AllDigits(whole) && AllDigits(frac)
  {
    if sign == "-" then -DecimalValue(whole, frac) else DecimalValue(whole, frac)
  }

  /** A signed literal with a fractional part converts to the value it denotes. */
  lemma ToDecimalOfLiteral(sign: string, whole: string, frac: string)
    requires sign == "" || sign == "+" || sign == "-"
    requires AllDigits(whole) && AllDigits(frac) && |frac| > 0
    ensures ToDecimal(Text(sign + whole + "." + frac)) == LiteralValue(sign, whole, frac)
  {
    var m := whole + "." + frac;
    var t := sign + m;
    assert t == sign + whole + "." + frac;
    DigitsAreNotSpace(frac);
    assert t[|t| - 1] == frac[|frac| - 1];
    assert m[0] != '+' && m[0] != '-' by {
      if |whole| > 0 {
        assert m[0] == whole[0];
      }
    }
    assert !IsSpace(t[0]) by {
      if sign == "" {
        assert t[0] == m[0];
      }
    }
    StripNoSpace(t);
    SplitLiteralSign(sign, m);
    UnsignedDecimalOfLiteral(whole, frac);
  }

  /** A sign in front of an unsigned mantissa is split off again. */
  lemma SplitLiteralSign(sign: string, m: string)
    requires sign == "" || sign == "+" || sign == "-"
    requires |m| > 0 && m[0] != '+' && m[0] != '-'
    ensures SplitSign(sign + m) == (sign == "-", m)
  {
    if sign != "" {
      assert (sign + m)[0] == sign[0] && (sign + m)[1..] == m;
    } else {
      assert sign + m == m;
    }
  }

  /** `<whole>.<frac>` splits at its one dot. */
  lemma UnsignedDecimalOfLiteral(whole: string, frac: string)
    requires AllDigits(whole) && AllDigits(frac) && |frac| > 0
    ensures ParseUnsignedDecimal(whole + "." + frac) == Some(DecimalValue(whole, frac))
  {
    var m := whole + "." + frac;
    DotSplits(whole, frac);
    assert m[..|whole|] == whole && m[|whole| + 1..] == frac;
  }

  /** The first dot of `<whole>.<frac>` follows the whole digits. */
  lemma DotSplits(whole: string, frac: string)
    requires AllDigits(whole)
    ensures !AllDigits(whole + "." + frac)
    ensures Collections.FirstIndex(whole + "." + frac, IsDot) == Some(|whole|)
  {
    var m := whole + "." + frac;
    assert !IsDigit(m[|whole|]);
    assert forall j :: 0 <= j < |whole| ==> m[j] == whole[j];
    Collections.FirstIndexIs(m, IsDot, |whole|);
  }

  /** `to_decimal("-12.50")` is -12.5. */
  lemma ToDecimalNegativeFraction()
    ensures ToDecimal(Text("-12.50")) == -12.5
  {
    ToDecimalOfLiteral("-", "12", "50");
    assert "-" + "12" + "." + "50" == "-12.50";
    NegativeFractionValue();
  }

  /** The value of the pieces of "-12.50". */
  lemma NegativeFractionValue()
    ensures LiteralValue("-", "12", "50") == -12.5
  {
    assert DigitsValue("12") == 12 by { assert "12"[..1] == "1"; }
    assert DigitsValue("50") == 50 by { assert "50"[..1] == "5"; }
    assert Pow10(2) == 100;
  }

  // ---- the max-plus-one identifier rule ----

  /** How an identifier's trailing number is read. */
  datatype SuffixRule =
    | ReplacePrefix     // `int(id.replace(prefix, ""))`, next_sequence
    | LastSlashSegment  // `int(id.split("/")[-1])`, invoice numbers
    | AfterPrefix       // `int(id[len(prefix):])`, the leading prefix only

  /** The number an identifier carries under `prefix`, or None if it has none. */
  function SuffixNumber(rule: SuffixRule, prefix: string, id: string): Option<int> {
    if !StartsWith(id, prefix) then None
    else
      match rule
      case ReplacePrefix => ParseInt(RemoveAll(id, prefix))
      case LastSlashSegment => ParseInt(LastSegment(id, '/'))
      case AfterPrefix => ParseInt(id[|prefix|..])
  }

  /** The running maximum of the scan: starts at 0, skips ids without a number. */
  function MaxSuffix(rule: SuffixRule, prefix: string, ids: seq<string>): nat {
    if |ids| == 0 then 0
    else
      var m := MaxSuffix(rule, prefix, ids[..|ids| - 1]);
      match SuffixNumber(rule, prefix, ids[|ids| - 1])
      case Some(n) => if n > m then n else m
      case None => m
  }

  /** The maximum bounds every number read, and is 0 or one of them. */
  lemma MaxSuffixIsMax(rule: SuffixRule, prefix: string, ids: seq<string>)
    ensures forall i, n :: 0 <= i < |ids| && SuffixNumber(rule, prefix, ids[i]) == Some(n)
              ==> n <= MaxSuffix(rule, prefix, ids)
    ensures MaxSuffix(rule, prefix, ids) == 0
            || exists i :: 0 <= i < |ids| && SuffixNumber(rule, prefix, ids[i]) == Some(MaxSuffix(rule, prefix, ids))
  {
    MaxSuffixBounds(rule, prefix, ids);
    MaxSuffixAttained(rule, prefix, ids);
  }

  /** Every number read is at most the maximum. */
  lemma MaxSuffixBounds(rule: SuffixRule, prefix: string, ids: seq<string>)
    ensures forall i, n :: 0 <= i < |ids| && SuffixNumber(rule, prefix, ids[i]) == Some(n)
              ==> n <= MaxSuffix(rule, prefix, ids)
  {
    forall i, n | 0 <= i < |ids| && SuffixNumber(rule, prefix, ids[i]) == Some(n)
      ensures n <= MaxSuffix(rule, prefix, ids)
    {
      MaxSuffixBoundsAt(rule, prefix, ids, i, n);
    }
  }

  /** The number read from the id at position `i` is at most the maximum. */
  lemma {:induction false} MaxSuffixBoundsAt(rule: SuffixRule, prefix: string, ids: seq<string>, i: nat, n: int)
    requires i < |ids| && SuffixNumber(rule, prefix, ids[i]) == Some(n)
    ensures n <= MaxSuffix(rule, prefix, ids)
    decreases |ids|
  {
    var init := ids[..|ids| - 1];
    MaxSuffixStep(rule, prefix, ids);
    if i < |init| {
      assert init[i] == ids[i];
      MaxSuffixBoundsAt(rule, prefix, init, i, n);
    }
  }

  /** One more id never lowers the maximum, and the maximum covers that id's number. */
  lemma MaxSuffixStep(rule: SuffixRule, prefix: string, ids: seq<string>)
    requires |ids| > 0
    ensures MaxSuffix(rule, prefix, ids[..|ids| - 1]) <= MaxSuffix(rule, prefix, ids)
    ensures match SuffixNumber(rule, prefix, ids[|ids| - 1])
            case Some(n) => n <= MaxSuffix(rule, prefix, ids)
            case None => true
  {
  }

  /** A positive maximum is the number of one of the ids. */
  lemma {:induction false} MaxSuffixAttained(rule: SuffixRule, prefix: string, ids: seq<string>)
    ensures MaxSuffix(rule, prefix, ids) == 0
            || exists i :: 0 <= i < |ids| && SuffixNumber(rule, prefix, ids[i]) == Some(MaxSuffix(rule, prefix, ids))
  {
    if |ids| > 0 {
      var init := ids[..|ids| - 1];
      MaxSuffixAttained(rule, prefix, init);
      var m := MaxSuffix(rule, prefix, init);
      if MaxSuffix(rule, prefix, ids) != m {
        assert SuffixNumber(rule, prefix, ids[|ids| - 1]) == Some(MaxSuffix(rule, prefix, ids));
      } else if m != 0 {
        var i :| 0 <= i < |init| && SuffixNumber(rule, prefix, init[i]) == Some(m);
        assert init[i] == ids[i];
      }
    }
  }

  /** Two ids carrying `a <= b` have maximum `b`, whatever the gap between them. */
  lemma MaxSuffixPair(rule: SuffixRule, prefix: string, ids: seq<string>, a: nat, b: nat)
    requires |ids| == 2 && a <= b
    requires SuffixNumber(rule, prefix, ids[0]) == Some(a) && SuffixNumber(rule, prefix, ids[1]) == Some(b)
    ensures MaxSuffix(rule, prefix, ids) == b
  {
    var m := MaxSuffix(rule, prefix, ids);
    MaxSuffixBounds(rule, prefix, ids);
    assert b <= m;
    MaxSuffixAttained(rule, prefix, ids);
    if m != 0 {
      var i :| 0 <= i < |ids| && SuffixNumber(rule, prefix, ids[i]) == Some(m);
      assert i == 0 || i == 1;
    }
  }

  /** An identifier whose number is above the maximum is not among the ids. */
  lemma NewSuffixIsFresh(rule: SuffixRule, prefix: string, ids: seq<string>, id: string, n: int)
    requires n > MaxSuffix(rule, prefix, ids) && SuffixNumber(rule, prefix, id) == Some(n)
    ensures id !in ids
  {
    MaxSuffixIsMax(rule, prefix, ids);
  }

  /**
   * `next_sequence(existing_ids, prefix, width)`: `prefix` followed by one more
   * than the largest number found, zero-padded to `width` (3 by default).
   */
  method NextSequence(existingIds: seq<string>, prefix: string, width: int) returns (id: string)
    ensures id == prefix + ZeroPad(MaxSuffix(ReplacePrefix, prefix, existingIds) + 1, width)
  {
    var maxNum: nat := 0;
    for i := 0 to |existingIds|
      invariant maxNum == MaxSuffix(ReplacePrefix, prefix, existingIds[..i])
    {
      assert existingIds[..i + 1][..i] == existingIds[..i];
      if StartsWith(existingIds[i], prefix) {
        match ParseInt(RemoveAll(existingIds[i], prefix)) {
          case Some(num) =>
            if num > maxNum {
              maxNum := num;
            }
          case None =>
        }
      }
    }
    assert existingIds[..|existingIds|] == existingIds;
    id := prefix + ZeroPad(maxNum + 1, width);
  }

  /**
   * When no id carries a number under the prefix, the scan's maximum is 0,
   * so `next_sequence` returns the prefix followed by 1 padded to `width`
   * ("001" for the default width 3).
   */
  lemma NextSequenceNoMatches(existingIds: seq<string>, prefix: string, width: int)
    requires forall i :: 0 <= i < |existingIds| ==> SuffixNumber(ReplacePrefix, prefix, existingIds[i]).None?
    ensures MaxSuffix(ReplacePrefix, prefix, existingIds) == 0
    ensures width == 3 ==> ZeroPad(MaxSuffix(ReplacePrefix, prefix, existingIds) + 1, width) == "001"
  {
    MaxSuffixIsMax(ReplacePrefix, prefix, existingIds);
    if width == 3 {
      assert NatToString(1) == "1";
    }
  }

  /**
   * With a prefix that holds a non-digit, the id `next_sequence` returns
   * reads back as max + 1, so it is new.
   */
  lemma NextSequenceFresh(existingIds: seq<string>, prefix: string, width: int, n: nat)
    requires !AllDigits(prefix) && n == MaxSuffix(ReplacePrefix, prefix, existingIds) + 1
    ensures SuffixNumber(ReplacePrefix, prefix, prefix + ZeroPad(n, width)) == Some(n)
    ensures prefix + ZeroPad(n, width) !in existingIds
  {
    ReplacePrefixReads(prefix, n, width);
    NewSuffixIsFresh(ReplacePrefix, prefix, existingIds, prefix + ZeroPad(n, width), n);
  }

  lemma ReplacePrefixReads(prefix: string, n: nat, width: int)
    requires !AllDigits(prefix)
    ensures SuffixNumber(ReplacePrefix, prefix, prefix + ZeroPad(n, width)) == Some(n)
  {
    var z := ZeroPad(n, width);
    var next := prefix + z;
    assert next[..|prefix|] == prefix;
    RemoveAllLeading(prefix, z);
    RemoveAllFromDigits(z, prefix);
    ParseIntZeroPad(n, width);
  }

  /**
   * As written, `replace` also deletes the prefix inside the number: with
   * prefix "1" the id "1001" reads as 0, and the next id is "1001" again.
   */
  lemma NextSequenceRepeatsWithDigitPrefix(prefix: string, id: string)
    requires prefix == "1" && id == "1001"
    ensures MaxSuffix(ReplacePrefix, prefix, [id]) == 0
    ensures prefix + ZeroPad(MaxSuffix(ReplacePrefix, prefix, [id]) + 1, 3) == id
  {
    DigitPrefixReadsZero(prefix, id);
    assert [id][..0] == [];
    PadOne();
  }

  /** Deleting every "1" from "1001" leaves "00", which reads as 0. */
  lemma DigitPrefixReadsZero(prefix: string, id: string)
    requires prefix == "1" && id == "1001"
    ensures SuffixNumber(ReplacePrefix, prefix, id) == Some(0)
  {
    assert StartsWith(id, prefix);
    var z := RemoveAllOnes(prefix, id);
    ParseIntZeros(z);
  }

  lemma RemoveAllOnes(prefix: string, id: string) returns (z: string)
    requires prefix == "1" && id == "1001"
    ensures RemoveAll(id, prefix) == z && |z| == 2 && z[0] == '0' && z[1] == '0'
  {
    assert id[..1] == prefix && id[1..] == "001";
    assert "001"[0] == '0' && "001"[1..] == "01";
    assert "01"[0] == '0' && "01"[1..] == prefix;
    assert prefix[..1] == prefix && prefix[1..] == "";
    z := "00";
  }

  lemma ParseIntZeros(z: string)
    requires |z| == 2 && z[0] == '0' && z[1] == '0'
    ensures ParseInt(z) == Some(0)
  {
    DigitsAreNotSpace(z);
    StripNoSpace(z);
    assert SplitSign(z) == (false, z);
    TwoDigits(z);
  }

  lemma PadOne()
    ensures ZeroPad(1, 3) == "001"
  {
  }

  /** The id next_sequence evidently means: the number after the leading prefix. */
  function NextSequenceCorrected(existingIds: seq<string>, prefix: string, width: int): string {
    prefix + ZeroPad(MaxSuffix(AfterPrefix, prefix, existingIds) + 1, width)
  }

  /** With the corrected reading, the next id is new for every prefix. */
  lemma NextSequenceCorrectedFresh(existingIds: seq<string>, prefix: string, width: int, n: nat)
    requires n == MaxSuffix(AfterPrefix, prefix, existingIds) + 1
    ensures NextSequenceCorrected(existingIds, prefix, width) == prefix + ZeroPad(n, width)
    ensures SuffixNumber(AfterPrefix, prefix, prefix + ZeroPad(n, width)) == Some(n)
    ensures prefix + ZeroPad(n, width) !in existingIds
  {
    AfterPrefixReads(prefix, n, width);
    NewSuffixIsFresh(AfterPrefix, prefix, existingIds, prefix + ZeroPad(n, width), n);
  }

  lemma AfterPrefixReads(prefix: string, n: nat, width: int)
    ensures SuffixNumber(AfterPrefix, prefix, prefix + ZeroPad(n, width)) == Some(n)
  {
    var id := prefix + ZeroPad(n, width);
    assert id[..|prefix|] == prefix;
    assert id[|prefix|..] == ZeroPad(n, width);
    ParseIntZeroPad(n, width);
  }

  // ---- month keys ----

  /**
   * `month_key(text)`: "%Y-%m" of the date `text` holds in "%Y-%m-%d"
   * form, or "" when it holds none.
   */
  function MonthKey(text: string): (r: string)
    ensures r == "" <==> ParseIso(text).None?
    ensures r != "" ==> |r| == 7 && r[4] == '-' && AllDigits(r[..4]) && AllDigits(r[5..])
  {
    match ParseIso(text)
    case None => ""
    case Some(d) =>
      NatToStringLength(d.year, 4);
      NatToStringLength(d.month, 2);
      var r := FormatYearMonth(d.year, d.month);
      assert r[..4] == ZeroPad(d.year, 4) && r[5..] == ZeroPad(d.month, 2);
      r
  }

  /** The key of a formatted date is its year and month. */
  lemma MonthKeyOfDate(d: Date)
    requires Valid(d)
    ensures MonthKey(FormatIso(d)) == FormatYearMonth(d.year, d.month)
  {
    ParseFormatIso(d);
  }

  /** Two dates share a key exactly when they fall in the same month of the same year. */
  lemma MonthKeySameMonth(d1: Date, d2: Date)
    requires Valid(d1) && Valid(d2)
    ensures MonthKey(FormatIso(d1)) == MonthKey(FormatIso(d2))
            <==> d1.year == d2.year && d1.month == d2.month
  {
    MonthKeyOfDate(d1);
    MonthKeyOfDate(d2);
    if FormatYearMonth(d1.year, d1.month) == FormatYearMonth(d2.year, d2.month) {
      FormatYearMonthInjective(d1.year, d1.month, d2.year, d2.month);
    }
  }

  lemma FourDigitsValue(s: string)
    requires |s| == 4 && AllDigits(s)
    ensures DigitsValue(s) == 1000 * DigitValue(s[0]) + 100 * DigitValue(s[1]) + 10 * DigitValue(s[2]) + DigitValue(s[3])
  {
    var s3, s2 := s[..3], s[..2];
    assert s[..|s| - 1] == s3 && s3[..|s3| - 1] == s2;
    TwoDigits(s2);
  }

  /** How `month_key` reads text assembled from a year, a month and a day part. */
  lemma MonthKeyOfPieces(y: string, m: string, d: string, month: nat, day: nat)
    requires |y| == 4 && AllDigits(y)
    requires MatchMonth(m + "-" + d) == Some((month, |m|))
    requires MatchDay(d) == Some((day, |d|))
    ensures MonthKey(y + "-" + m + "-" + d)
            == if Valid(Date(DigitsValue(y), month, day)) then FormatYearMonth(DigitsValue(y), month) else ""
  {
    ParseIsoPieces(y, m, d, month, day);
  }

  /** "2023-02-29" splits into year 2023, month 2 and day 29, with all of the text used. */
  lemma Feb29Pieces(text: string) returns (y: string, m: string, d: string)
    requires text == "2023-02-29"
    ensures text == y + "-" + m + "-" + d
    ensures |y| == 4 && AllDigits(y) && DigitsValue(y) == 2023
    ensures MatchMonth(m + "-" + d) == Some((2, |m|)) && MatchDay(d) == Some((29, |d|))
  {
    y, m, d := "2023", "02", "29";
    FourDigitsValue(y);
  }

  /** A day that does not exist in that month falls under the "" key. */
  lemma MonthKeyNonexistentDay(text: string)
    requires text == "2023-02-29"
    ensures MonthKey(text) == ""
  {
    var y, m, d := Feb29Pieces(text);
    MonthKeyOfPieces(y, m, d, 2, 29);
  }

  /** "2024-1-5" splits into year 2024, a one-digit month 1 and a one-digit day 5. */
  lemma ShortMonthPieces(text: string) returns (y: string, m: string, d: string)
    requires text == "2024-1-5"
    ensures text == y + "-" + m + "-" + d
    ensures |y| == 4 && AllDigits(y) && DigitsValue(y) == 2024
    ensures MatchMonth(m + "-" + d) == Some((1, |m|)) && MatchDay(d) == Some((5, |d|))
  {
    y, m, d := "2024", "1", "5";
    FourDigitsValue(y);
  }

  /** One-digit months and days are accepted and the month is printed with two digits. */
  lemma MonthKeyShortMonth(text: string, year: nat, month: nat)
    requires text == "2024-1-5" && year == 2024 && month == 1
    ensures MonthKey(text) == FormatYearMonth(year, month)
  {
    var y, m, d := ShortMonthPieces(text);
    MonthKeyOfPieces(y, m, d, 1, 5);
  }

  /** Text left over after the day means no date. */
  lemma MonthKeyTrailingText()
    ensures MonthKey("2024-01-05x") == ""
    ensures MonthKey("") == ""
  {
    var t := "2024-01-05x";
    assert t[5..] == "01-05x";
    assert MatchMonth("01-05x") == Some((1, 2));
    assert "01-05x"[3..] == "05x";
    assert MatchDay("05x") == Some((5, 2));
  }
}
