/**
 * The financial-year label that names each year's invoice ledger. A
 * financial year runs from April to the following March.
 */
module Defaults {
  import opened PyStrings

  /** The calendar year in which the financial year holding (year, month) begins. */
  function FinancialYearStart(year: int, month: int): int {
    if month < 4 then year - 1 else year
  }

  /**
   * `current_financial_year()` for a given date's year and month:
   * "FY_<start>-<start + 1>".
   */
  function CurrentFinancialYear(year: int, month: int): (fy: string)
    requires year >= 1 && 1 <= month <= 12
    ensures fy == Label(FinancialYearStart(year, month))
    ensures month < 4 ==> fy == Label(year - 1)
    ensures month >= 4 ==> fy == Label(year)
  {
    if month < 4 then "FY_" + NatToString(year - 1) + "-" + NatToString(year)
    else "FY_" + NatToString(year) + "-" + NatToString(year + 1)
  }

  /** The label of the financial year beginning in `start`: two consecutive years. */
  function Label(start: nat): string {
    "FY_" + NatToString(start) + "-" + NatToString(start + 1)
  }

  /** Different starting years give different labels. */
  lemma LabelInjective(a: nat, b: nat)
    requires Label(a) == Label(b)
    ensures a == b
  {
    var sa, sb := NatToString(a), NatToString(b);
    var ta, tb := NatToString(a + 1), NatToString(b + 1);
    Regroup("FY_", sa, "-", ta);
    Regroup("FY_", sb, "-", tb);
    LeadingDigitsAgree("FY_", sa, "-" + ta, sb, "-" + tb);
    NatToStringInjective(a, b);
  }

  lemma Regroup(p: string, x: string, d: string, y: string)
    ensures p + x + d + y == p + x + (d + y)
  {
  }

  /** Two digit runs after the same prefix, each ended by '-', are the same run. */
  lemma LeadingDigitsAgree(p: string, x: string, y: string, u: string, v: string)
    requires AllDigits(x) && AllDigits(u) && |y| > 0 && |v| > 0 && y[0] == '-' && v[0] == '-'
    requires p + x + y == p + u + v
    ensures x == u
  {
    var l, r := p + x + y, p + u + v;
    assert x == l[|p|..|p| + |x|] && u == r[|p|..|p| + |u|];
  }

  /**
   * Two months share a label exactly when they lie in the same April-to-March
   * span: April to December of one year and January to March of the next.
   */
  lemma SameFinancialYear(y1: int, m1: int, y2: int, m2: int)
    requires y1 >= 1 && 1 <= m1 <= 12 && y2 >= 1 && 1 <= m2 <= 12
    ensures CurrentFinancialYear(y1, m1) == CurrentFinancialYear(y2, m2)
            <==> FinancialYearStart(y1, m1) == FinancialYearStart(y2, m2)
  {
    var s1, s2 := FinancialYearStart(y1, m1), FinancialYearStart(y2, m2);
    if CurrentFinancialYear(y1, m1) == CurrentFinancialYear(y2, m2) {
      LabelInjective(s1, s2);
    }
  }

  /** Every month from April of `start` to March of `start + 1` carries the label of `start`. */
  lemma FinancialYearSpan(start: nat, year: int, month: int)
    requires start >= 1 && 1 <= month <= 12
    requires (year == start && month >= 4) || (year == start + 1 && month < 4)
    ensures CurrentFinancialYear(year, month) == Label(start)
  {
  }
}
