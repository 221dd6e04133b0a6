/**
 * Money arithmetic for invoice lines and invoices: exact decimals, each
 * figure rounded half-up to a hundredth, invoice totals summed from the
 * rounded line figures.
 */
module BillingCalculator {
  import opened Wrappers
  import opened Records
  import opened Helpers

  /** The five figures of one invoice line, each rounded to a hundredth. */
  datatype LineAmounts = LineAmounts(subtotal: real, discount: real, taxable: real, gst: real, total: real)

  /**
   * The exact, unrounded figures of a line: subtotal `quantity * rate`, the
   * discount as a percentage of it, a taxable base that never goes below
   * zero, tax as a percentage of that base, and base plus tax.
   */
  function ExactLine(quantity: real, rate: real, discountPercent: real, gstPercent: real): (e: LineAmounts)
    ensures e.taxable >= 0.0 && e.taxable >= e.subtotal - e.discount
    ensures e.taxable == 0.0 || e.taxable == e.subtotal - e.discount
    ensures e.total == e.taxable + e.gst
  {
    var subtotal := quantity * rate;
    var discountAmount := subtotal * (discountPercent / 100.0);
    var taxable := if subtotal - discountAmount < 0.0 then 0.0 else subtotal - discountAmount;
    var gstAmount := taxable * (gstPercent / 100.0);
    LineAmounts(subtotal, discountAmount, taxable, gstAmount, taxable + gstAmount)
  }

  /**
   * `calculate_line_total(quantity, rate, discount_percent, gst_percent)`:
   * every figure is the half-up rounding to a hundredth of the exact one, so
   * tax and total come from the unrounded base and the discount is reported
   * unclamped.
   */
  function CalculateLineTotal(quantity: real, rate: real, discountPercent: real, gstPercent: real): (r: LineAmounts)
    ensures var e := ExactLine(quantity, rate, discountPercent, gstPercent);
            RoundsHalfUpTo(e.subtotal, r.subtotal) && RoundsHalfUpTo(e.discount, r.discount)
            && RoundsHalfUpTo(e.taxable, r.taxable) && RoundsHalfUpTo(e.gst, r.gst)
            && RoundsHalfUpTo(e.total, r.total)
    ensures r.taxable >= 0.0
  {
    var e := ExactLine(quantity, rate, discountPercent, gstPercent);
    LineAmounts(QuantizeMoney(e.subtotal), QuantizeMoney(e.discount), QuantizeMoney(e.taxable),
                QuantizeMoney(e.gst), QuantizeMoney(e.total))
  }

  /**
   * A discount of 100% or more on a non-negative subtotal leaves a taxable
   * base, tax and total of zero, while the discount itself is reported in full.
   */
  lemma LineDiscountOverHundred(quantity: real, rate: real, discountPercent: real, gstPercent: real)
    requires quantity * rate >= 0.0 && discountPercent >= 100.0
    ensures var r := CalculateLineTotal(quantity, rate, discountPercent, gstPercent);
            r.taxable == 0.0 && r.gst == 0.0 && r.total == 0.0 && r.discount >= r.subtotal
  {
    var s := quantity * rate;
    var p := discountPercent / 100.0;
    assert p >= 1.0;
    var d := s * p;
    assert d - s == s * (p - 1.0);
    assert s * (p - 1.0) >= 0.0;
    var e := ExactLine(quantity, rate, discountPercent, gstPercent);
    assert e.subtotal == s && e.discount == d;
    assert e.taxable == 0.0;
    assert e.gst == 0.0;
    QuantizeIdempotent(0.0);
    var r := CalculateLineTotal(quantity, rate, discountPercent, gstPercent);
    RoundMonotone(s, d, r.subtotal, r.discount);
  }

  /** Half-up rounding never reverses the order of two amounts. */
  lemma RoundMonotone(x: real, y: real, cx: real, cy: real)
    requires x <= y && RoundsHalfUpTo(x, cx) && RoundsHalfUpTo(y, cy)
    ensures cx <= cy
  {
    var kx, ky := (cx * 100.0).Floor, (cy * 100.0).Floor;
    assert kx as real == cx * 100.0 && ky as real == cy * 100.0;
    assert cx - 0.005 <= x && y <= cy + 0.005;
    assert cx - 0.005 < x || y < cy + 0.005;
    assert cx * 100.0 < cy * 100.0 + 1.0;
    assert kx < ky + 1;
  }

  /** Rounding a sum lands within one hundredth of the sum of the roundings. */
  lemma RoundSumNear(x: real, y: real, cx: real, cy: real, cs: real)
    requires RoundsHalfUpTo(x, cx) && RoundsHalfUpTo(y, cy) && RoundsHalfUpTo(x + y, cs)
    ensures -0.01 <= cs - (cx + cy) <= 0.01
  {
    var k := (cs * 100.0).Floor - (cx * 100.0).Floor - (cy * 100.0).Floor;
    assert k as real == (cs - (cx + cy)) * 100.0;
    assert -1.5 < k as real < 1.5;
  }

  /**
   * The line total is rounded from the exact base plus tax, so it may differ
   * from the rounded base plus the rounded tax, but by at most one hundredth.
   */
  lemma LineTotalNearParts(quantity: real, rate: real, discountPercent: real, gstPercent: real)
    ensures var r := CalculateLineTotal(quantity, rate, discountPercent, gstPercent);
            -0.01 <= r.total - (r.taxable + r.gst) <= 0.01
  {
    var e := ExactLine(quantity, rate, discountPercent, gstPercent);
    var r := CalculateLineTotal(quantity, rate, discountPercent, gstPercent);
    RoundSumNear(e.taxable, e.gst, r.taxable, r.gst, r.total);
  }

  /** An input where the total is not the sum of the rounded base and tax. */
  lemma LineTotalNotSumOfParts(quantity: real, rate: real, discountPercent: real, gstPercent: real)
    requires quantity == 1.0 && rate == 0.125 && discountPercent == 0.0 && gstPercent == 20.0
    ensures var r := CalculateLineTotal(quantity, rate, discountPercent, gstPercent);
            r.taxable == 0.13 && r.gst == 0.03 && r.total == 0.15 && r.total != r.taxable + r.gst
  {
    var r := CalculateLineTotal(quantity, rate, discountPercent, gstPercent);
    assert RoundsHalfUpTo(0.125, 0.13);
    RoundsHalfUpUnique(0.125, 0.13, r.taxable);
    assert RoundsHalfUpTo(0.025, 0.03);
    RoundsHalfUpUnique(0.025, 0.03, r.gst);
    assert RoundsHalfUpTo(0.15, 0.15);
    RoundsHalfUpUnique(0.15, 0.15, r.total);
  }

  /** One item's line, a missing quantity, rate, discount or tax field counting as 0. */
  function LineOf(item: Item): (a: LineAmounts)
    ensures LineInCents(a) && IsCents(a.taxable)
  {
    CalculateLineTotal(item.quantity.GetOr(0.0), item.rate.GetOr(0.0), item.discount.GetOr(0.0), item.gst.GetOr(0.0))
  }

  /** An item without a quantity or without a rate contributes nothing. */
  lemma LineOfMissingAmount(item: Item)
    requires item.quantity.None? || item.rate.None?
    ensures LineOf(item) == LineAmounts(0.0, 0.0, 0.0, 0.0, 0.0)
  {
    QuantizeIdempotent(0.0);
  }

  /** The four figures an invoice sums are in hundredths. */
  predicate LineInCents(a: LineAmounts) {
    IsCents(a.subtotal) && IsCents(a.discount) && IsCents(a.gst) && IsCents(a.total)
  }

  function AddLine(t: Totals, a: LineAmounts): Totals {
    Totals(t.subtotal + a.subtotal, t.discount + a.discount, t.gst + a.gst, t.total + a.total)
  }

  predicate TotalsInCents(t: Totals) {
    IsCents(t.subtotal) && IsCents(t.discount) && IsCents(t.gst) && IsCents(t.total)
  }

  /** The running sums of the line figures `line` gives each item, in item order. */
  function SumLines(items: seq<Item>, line: Item -> LineAmounts): Totals {
    if |items| == 0 then Totals(0.0, 0.0, 0.0, 0.0)
    else AddLine(SumLines(items[..|items| - 1], line), line(items[|items| - 1]))
  }

  /** Sums of figures in hundredths are in hundredths. */
  lemma {:induction false} SumLinesInCents(items: seq<Item>, line: Item -> LineAmounts)
    requires forall i :: 0 <= i < |items| ==> LineInCents(line(items[i]))
    ensures TotalsInCents(SumLines(items, line))
  {
    if |items| > 0 {
      var front := items[..|items| - 1];
      SumLinesInCents(front, line);
      var t := SumLines(front, line);
      var a := line(items[|items| - 1]);
      CentsSum(t.subtotal, a.subtotal);
      CentsSum(t.discount, a.discount);
      CentsSum(t.gst, a.gst);
      CentsSum(t.total, a.total);
    }
  }

  function AddTotals(a: Totals, b: Totals): Totals {
    Totals(a.subtotal + b.subtotal, a.discount + b.discount, a.gst + b.gst, a.total + b.total)
  }

  /** The sums over two item lists joined are the sums of their sums. */
  lemma {:induction false} SumLinesAppend(a: seq<Item>, b: seq<Item>, line: Item -> LineAmounts)
    ensures SumLines(a + b, line) == AddTotals(SumLines(a, line), SumLines(b, line))
    decreases |b|
  {
    if |b| == 0 {
      assert a + b == a;
    } else {
      var front := b[..|b| - 1];
      SumLinesAppend(a, front, line);
      var ab := a + b;
      assert ab[..|ab| - 1] == a + front;
      assert ab[|ab| - 1] == b[|b| - 1];
      AddLineAssociates(SumLines(a, line), SumLines(front, line), line(b[|b| - 1]));
    }
  }

  lemma AddLineAssociates(x: Totals, y: Totals, a: LineAmounts)
    ensures AddLine(AddTotals(x, y), a) == AddTotals(x, AddLine(y, a))
  {
  }

  /**
   * `calculate_invoice_totals(items)` as a specification: the sums of the
   * rounded per-line figures, in item order. Every figure is in hundredths.
   */
  function InvoiceTotals(items: seq<Item>): (t: Totals)
    ensures TotalsInCents(t)
  {
    SumLinesInCents(items, LineOf);
    SumLines(items, LineOf)
  }

  /** Totals of two item lists joined are the sums of their totals (sum of rounded). */
  lemma InvoiceTotalsAppend(a: seq<Item>, b: seq<Item>)
    ensures InvoiceTotals(a + b) == AddTotals(InvoiceTotals(a), InvoiceTotals(b))
  {
    SumLinesAppend(a, b, LineOf);
  }

  /** The totals of one item are that item's rounded line figures. */
  lemma InvoiceTotalsSingle(item: Item)
    ensures var t := InvoiceTotals([item]);
            var a := LineOf(item);
            t == Totals(a.subtotal, a.discount, a.gst, a.total)
  {
    assert [item][..0] == [];
    assert SumLines([item], LineOf) == AddLine(SumLines([], LineOf), LineOf(item));
  }

  /**
   * `calculate_invoice_totals(items)`: four accumulators summed over the
   * items, then each rounded; since the sums are already in hundredths the
   * rounding changes nothing and the result is the sum of the rounded lines.
   */
  method CalculateInvoiceTotals(items: seq<Item>) returns (t: Totals)
    ensures t == InvoiceTotals(items)
  {
    var subtotal, discount, gst, total := 0.0, 0.0, 0.0, 0.0;
    for i := 0 to |items|
      invariant Totals(subtotal, discount, gst, total) == SumLines(items[..i], LineOf)
    {
      assert items[..i + 1][..i] == items[..i];
      var res := LineOf(items[i]);
      subtotal := subtotal + res.subtotal;
      discount := discount + res.discount;
      gst := gst + res.gst;
      total := total + res.total;
    }
    assert items[..|items|] == items;
    assert TotalsInCents(InvoiceTotals(items));
    QuantizeIdempotent(subtotal);
    QuantizeIdempotent(discount);
    QuantizeIdempotent(gst);
    QuantizeIdempotent(total);
    t := Totals(QuantizeMoney(subtotal), QuantizeMoney(discount), QuantizeMoney(gst), QuantizeMoney(total));
  }

  function Entry(quantity: real, rate: real, discount: real, gst: real): Item {
    Item(None, None, Some(quantity), Some(rate), Some(discount), Some(gst), None, None, None)
  }

  /**
   * Two items, (2 x 50, 0% off, 5% tax) and (1 x 100, 10% off, 5% tax),
   * total 200.00 subtotal, 10.00 discount, 9.50 tax, 199.50 grand total.
   */
  lemma WorkedExample(items: seq<Item>)
    requires |items| == 2 && items[0] == Entry(2.0, 50.0, 0.0, 5.0) && items[1] == Entry(1.0, 100.0, 10.0, 5.0)
    ensures InvoiceTotals(items) == Totals(200.0, 10.0, 9.5, 199.5)
  {
    WholeLineIsExact(items[0], LineAmounts(100.0, 0.0, 100.0, 5.0, 105.0));
    WholeLineIsExact(items[1], LineAmounts(100.0, 10.0, 90.0, 4.5, 94.5));
    var head := items[..1];
    assert head == [items[0]];
    InvoiceTotalsSingle(items[0]);
    assert InvoiceTotals(head) == Totals(100.0, 0.0, 5.0, 105.0);
  }

  /** A line whose exact figures are already in hundredths is not changed by rounding. */
  lemma WholeLineIsExact(item: Item, e: LineAmounts)
    requires e == ExactLine(item.quantity.GetOr(0.0), item.rate.GetOr(0.0), item.discount.GetOr(0.0), item.gst.GetOr(0.0))
    requires IsCents(e.subtotal) && IsCents(e.discount) && IsCents(e.taxable) && IsCents(e.gst) && IsCents(e.total)
    ensures LineOf(item) == e
  {
    QuantizeIdempotent(e.subtotal);
    QuantizeIdempotent(e.discount);
    QuantizeIdempotent(e.taxable);
    QuantizeIdempotent(e.gst);
    QuantizeIdempotent(e.total);
  }
}
