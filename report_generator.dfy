/**
 * Report aggregations over the invoice ledger: invoices and revenue per
 * calendar month, and quantity, revenue and tax per product.
 */
module ReportGenerator {
  import opened Wrappers
  import opened Records
  import opened Helpers
  import opened Dates

  /** One month of `monthly_summary`: how many invoices and their revenue. */
  datatype MonthRow = MonthRow(invoices: nat, revenue: real)

  /** One product of `sales_per_product`. */
  datatype ProductRow = ProductRow(quantity: real, revenue: real, gst: real)

  /**
   * `c` is a nearest hundredth of `x`: a multiple of 0.01 at most half a
   * hundredth away. Which of two equally near ones Python's float `round`
   * picks is not stated.
   */
  predicate NearestCent(x: real, c: real) {
    IsCents(c) && -0.005 <= c - x <= 0.005
  }

  /** `round(x, 2)`, taken here as half-up; only `NearestCent` is promised. */
  function RoundCents(x: real): (c: real)
    ensures NearestCent(x, c)
  {
    QuantizeMoney(x)
  }

  /** Each of a product's rounded figures is a nearest hundredth of the exact one. */
  predicate NearestRow(exact: ProductRow, r: ProductRow) {
    NearestCent(exact.quantity, r.quantity) && NearestCent(exact.revenue, r.revenue) && NearestCent(exact.gst, r.gst)
  }

  // ---- grouping, as a `defaultdict` keyed by `key` builds it ----

  /** The keys the elements are filed under. */
  function KeysOf<T>(xs: seq<T>, key: T -> string): set<string> {
    if |xs| == 0 then {}
    else KeysOf(xs[..|xs| - 1], key) + {key(xs[|xs| - 1])}
  }

  /** How many elements are filed under `k`. */
  function CountOf<T>(xs: seq<T>, key: T -> string, k: string): nat {
    if |xs| == 0 then 0
    else CountOf(xs[..|xs| - 1], key, k) + (if key(xs[|xs| - 1]) == k then 1 else 0)
  }

  /** The exact sum of `w` over the elements filed under `k`. */
  function SumOf<T>(xs: seq<T>, key: T -> string, w: T -> real, k: string): real {
    if |xs| == 0 then 0.0
    else SumOf(xs[..|xs| - 1], key, w, k) + (if key(xs[|xs| - 1]) == k then w(xs[|xs| - 1]) else 0.0)
  }

  /** A key is present exactly when some element is filed under it, i.e. when its count is positive. */
  lemma {:induction false} KeysOfIff<T>(xs: seq<T>, key: T -> string, k: string)
    ensures k in KeysOf(xs, key) <==> exists i :: 0 <= i < |xs| && key(xs[i]) == k
    ensures k in KeysOf(xs, key) <==> CountOf(xs, key, k) > 0
  {
    if |xs| > 0 {
      var front := xs[..|xs| - 1];
      KeysOfIff(front, key, k);
      if exists i :: 0 <= i < |front| && key(front[i]) == k {
        var i :| 0 <= i < |front| && key(front[i]) == k;
        assert key(xs[i]) == k;
      }
      if exists i :: 0 <= i < |xs| && key(xs[i]) == k {
        var i :| 0 <= i < |xs| && key(xs[i]) == k;
        if i < |front| {
          assert key(front[i]) == k;
        }
      }
    }
  }

  /** Nothing is summed under a key no element is filed under. */
  lemma {:induction false} SumOfAbsent<T>(xs: seq<T>, key: T -> string, w: T -> real, k: string)
    requires k !in KeysOf(xs, key)
    ensures SumOf(xs, key, w, k) == 0.0
  {
    if |xs| > 0 {
      SumOfAbsent(xs[..|xs| - 1], key, w, k);
    }
  }

  /** The sum over two runs of elements is the sum of the sums over each. */
  lemma {:induction false} SumOfAppend<T>(a: seq<T>, b: seq<T>, key: T -> string, w: T -> real, k: string)
    ensures SumOf(a + b, key, w, k) == SumOf(a, key, w, k) + SumOf(b, key, w, k)
    decreases |b|
  {
    if |b| == 0 {
      assert a + b == a;
    } else {
      SumOfAppend(a, b[..|b| - 1], key, w, k);
      assert (a + b)[..|a + b| - 1] == a + b[..|b| - 1];
    }
  }

  /** Some element of a non-empty set of keys. */
  ghost function Pick(keys: set<string>): string
    requires keys != {}
  {
    var k :| k in keys; k
  }

  /** The counts summed over the keys in `keys`. */
  ghost function CountSum<T>(xs: seq<T>, key: T -> string, keys: set<string>): nat
    decreases keys
  {
    if keys == {} then 0
    else
      var k := Pick(keys);
      CountOf(xs, key, k) + CountSum(xs, key, keys - {k})
  }

  /** One more element adds one to the summed counts when its key is among `keys`. */
  lemma {:induction false} CountSumStep<T>(xs: seq<T>, x: T, key: T -> string, keys: set<string>)
    ensures CountSum(xs + [x], key, keys) == CountSum(xs, key, keys) + (if key(x) in keys then 1 else 0)
    decreases keys
  {
    if keys != {} {
      var k := Pick(keys);
      CountSumStep(xs, x, key, keys - {k});
      assert (xs + [x])[..|xs|] == xs;
    }
  }

  /** With no elements every count is 0, and so is their sum. */
  lemma {:induction false} CountSumZero<T>(xs: seq<T>, key: T -> string, keys: set<string>)
    requires xs == []
    ensures CountSum(xs, key, keys) == 0
    decreases keys
  {
    if keys != {} {
      CountSumZero(xs, key, keys - {Pick(keys)});
    }
  }

  /** Summed over any set of keys that covers every element, the counts give the number of elements. */
  lemma {:induction false} CountSumCovers<T>(xs: seq<T>, key: T -> string, keys: set<string>)
    requires KeysOf(xs, key) <= keys
    ensures CountSum(xs, key, keys) == |xs|
  {
    if |xs| == 0 {
      CountSumZero(xs, key, keys);
    } else {
      var front := xs[..|xs| - 1];
      assert front + [xs[|xs| - 1]] == xs;
      CountSumCovers(front, key, keys);
      CountSumStep(front, xs[|xs| - 1], key, keys);
    }
  }

  // ---- monthly summary ----

  /** The month an invoice is filed under: "YYYY-MM", or "" when its date does not parse. */
  function MonthOf(inv: Invoice): string {
    MonthKey(inv.date)
  }

  /** An invoice's grand total. */
  function GrandTotal(inv: Invoice): real {
    inv.totals.total
  }

  /**
   * `monthly_summary()`: one entry per month met, with the number of invoices
   * and their grand totals summed and rounded to cents.
   */
  method MonthlySummary(invoices: seq<Invoice>) returns (m: map<string, MonthRow>)
    ensures m.Keys == KeysOf(invoices, MonthOf)
    ensures forall k :: k in m ==> m[k].invoices == CountOf(invoices, MonthOf, k)
                                   && NearestCent(SumOf(invoices, MonthOf, GrandTotal, k), m[k].revenue)
    ensures invoices == [] ==> m == map[]
  {
    var acc := GroupTotals(invoices, MonthOf, GrandTotal);
    m := RoundMonths(acc);
  }

  /**
   * The accumulation loop of `monthly_summary`, for any key and amount:
   * every element is counted and its amount added under its key.
   */
  method GroupTotals<T>(xs: seq<T>, key: T -> string, w: T -> real) returns (acc: map<string, MonthRow>)
    ensures acc.Keys == KeysOf(xs, key)
    ensures forall k :: k in acc ==> acc[k] == MonthRow(CountOf(xs, key, k), SumOf(xs, key, w, k))
  {
    acc := map[];
    for i := 0 to |xs|
      invariant acc.Keys == KeysOf(xs[..i], key)
      invariant forall k :: k in acc ==> acc[k] == MonthRow(CountOf(xs[..i], key, k), SumOf(xs[..i], key, w, k))
    {
      assert xs[..i + 1] == xs[..i] + [xs[i]];
      acc := AddToGroup(acc, xs[..i], xs[i], key, w);
    }
    assert xs[..|xs|] == xs;
  }

  /** The closing dict comprehension: counts kept, revenues rounded to cents. */
  function RoundMonths(acc: map<string, MonthRow>): (m: map<string, MonthRow>)
    ensures m.Keys == acc.Keys
    ensures forall k :: k in m ==> m[k].invoices == acc[k].invoices && NearestCent(acc[k].revenue, m[k].revenue)
  {
    map k | k in acc :: MonthRow(acc[k].invoices, RoundCents(acc[k].revenue))
  }

  /**
   * One step of the invoice loop, for any key and amount: the element is
   * counted and its amount added under its key, which starts at (0, 0).
   */
  method AddToGroup<T>(acc: map<string, MonthRow>, ghost seen: seq<T>, x: T, key: T -> string, w: T -> real)
    returns (next: map<string, MonthRow>)
    requires acc.Keys == KeysOf(seen, key)
    requires forall k :: k in acc ==> acc[k] == MonthRow(CountOf(seen, key, k), SumOf(seen, key, w, k))
    ensures next.Keys == KeysOf(seen + [x], key)
    ensures forall k :: k in next ==> next[k] == MonthRow(CountOf(seen + [x], key, k), SumOf(seen + [x], key, w, k))
  {
    assert (seen + [x])[..|seen|] == seen;
    var mk := key(x);
    var row := if mk in acc then acc[mk] else MonthRow(0, 0.0);
    next := acc[mk := MonthRow(row.invoices + 1, row.revenue + w(x))];
    if mk !in acc {
      KeysOfIff(seen, key, mk);
      SumOfAbsent(seen, key, w, mk);
    }
  }

  /** An invoice whose date does not parse is counted under the blank month "". */
  lemma UnparseableDateUnderBlank(invoices: seq<Invoice>, i: nat)
    requires i < |invoices| && ParseIso(invoices[i].date).None?
    ensures "" in KeysOf(invoices, MonthOf) && CountOf(invoices, MonthOf, "") > 0
  {
    assert MonthOf(invoices[i]) == "";
    KeysOfIff(invoices, MonthOf, "");
  }

  /** The per-month invoice counts of the summary add up to the number of invoices. */
  lemma MonthCountsSumToTotal(invoices: seq<Invoice>)
    ensures CountSum(invoices, MonthOf, KeysOf(invoices, MonthOf)) == |invoices|
  {
    CountSumCovers(invoices, MonthOf, KeysOf(invoices, MonthOf));
  }

  // ---- sales per product ----

  /** The key an item is filed under: its name, else its code, else "Unknown". */
  function ItemKey(it: Item): string {
    match it.productName
    case Some(name) => name
    case None => it.productCode.GetOr("Unknown")
  }

  /** An item's quantity, 0 when missing. */
  function Quantity(it: Item): real {
    it.quantity.GetOr(0.0)
  }

  /** An item's revenue: `line_total`, else `total`, else 0. */
  function ItemRevenue(it: Item): real {
    match it.lineTotal
    case Some(v) => v
    case None => it.total.GetOr(0.0)
  }

  /** An item's tax: `gst_amount`, else the `gst` field, else 0. */
  function ItemGst(it: Item): real {
    match it.gstAmount
    case Some(v) => v
    case None => it.gst.GetOr(0.0)
  }

  /** The items of all invoices, invoice by invoice, in order. */
  function Lines(invoices: seq<Invoice>): seq<Item> {
    if |invoices| == 0 then []
    else Lines(invoices[..|invoices| - 1]) + invoices[|invoices| - 1].items
  }

  /** The exact quantity, revenue and tax of the items filed under `k`. */
  function Tally(lines: seq<Item>, k: string): ProductRow {
    ProductRow(SumOf(lines, ItemKey, Quantity, k), SumOf(lines, ItemKey, ItemRevenue, k), SumOf(lines, ItemKey, ItemGst, k))
  }

  /** `acc` holds, for exactly the keys met in `seen`, the unrounded figures over `seen`. */
  ghost predicate Tallied(acc: map<string, ProductRow>, seen: seq<Item>) {
    acc.Keys == KeysOf(seen, ItemKey) && forall k :: k in acc ==> acc[k] == Tally(seen, k)
  }

  /** A product's figures rounded to two decimals. */
  function RoundRow(r: ProductRow): ProductRow {
    ProductRow(RoundCents(r.quantity), RoundCents(r.revenue), RoundCents(r.gst))
  }

  /**
   * `sales_per_product()`: every item of every invoice is added to its
   * product's running quantity, revenue and tax; then each product's three
   * figures are rounded in place.
   */
  method SalesPerProduct(invoices: seq<Invoice>) returns (m: map<string, ProductRow>)
    ensures m.Keys == KeysOf(Lines(invoices), ItemKey)
    ensures forall k :: k in m ==> NearestRow(Tally(Lines(invoices), k), m[k])
    ensures invoices == [] ==> m == map[]
  {
    var acc: map<string, ProductRow> := map[];
    for i := 0 to |invoices|
      invariant Tallied(acc, Lines(invoices[..i]))
    {
      assert invoices[..i + 1][..i] == invoices[..i];
      acc := AddItems(acc, Lines(invoices[..i]), invoices[i].items);
    }
    assert invoices[..|invoices|] == invoices;
    m := RoundAll(acc);
  }

  /** The inner loop: every item of one invoice is added in turn. */
  method AddItems(acc: map<string, ProductRow>, ghost done: seq<Item>, items: seq<Item>) returns (next: map<string, ProductRow>)
    requires Tallied(acc, done)
    ensures Tallied(next, done + items)
  {
    next := acc;
    assert done + items[..0] == done;
    for j := 0 to |items|
      invariant Tallied(next, done + items[..j])
    {
      assert done + items[..j + 1] == (done + items[..j]) + [items[j]];
      next := AddItem(next, done + items[..j], items[j]);
    }
    assert items[..|items|] == items;
  }

  /** The second loop: each product's figures are rounded in place, one key at a time. */
  method RoundAll(exact: map<string, ProductRow>) returns (m: map<string, ProductRow>)
    ensures m.Keys == exact.Keys
    ensures forall k :: k in m ==> NearestRow(exact[k], m[k])
  {
    m := exact;
    var todo := exact.Keys;
    while todo != {}
      invariant todo <= exact.Keys && m.Keys == exact.Keys
      invariant forall k :: k in m ==> m[k] == if k in todo then exact[k] else RoundRow(exact[k])
      decreases todo
    {
      var k :| k in todo;
      m := m[k := RoundRow(m[k])];
      todo := todo - {k};
    }
  }

  /** One step of the item loop: the item's figures are added to its key's running row. */
  method AddItem(acc: map<string, ProductRow>, ghost seen: seq<Item>, it: Item) returns (next: map<string, ProductRow>)
    requires Tallied(acc, seen)
    ensures Tallied(next, seen + [it])
  {
    assert (seen + [it])[..|seen|] == seen;
    var name := ItemKey(it);
    var row := if name in acc then acc[name] else ProductRow(0.0, 0.0, 0.0);
    next := acc[name := ProductRow(row.quantity + Quantity(it), row.revenue + ItemRevenue(it), row.gst + ItemGst(it))];
    if name !in acc {
      SumOfAbsent(seen, ItemKey, Quantity, name);
      SumOfAbsent(seen, ItemKey, ItemRevenue, name);
      SumOfAbsent(seen, ItemKey, ItemGst, name);
    }
  }

  /** The figures over two runs of items are the sums of the figures over each. */
  lemma TallyAppend(a: seq<Item>, b: seq<Item>, k: string)
    ensures Tally(a + b, k) == ProductRow(Tally(a, k).quantity + Tally(b, k).quantity,
                                          Tally(a, k).revenue + Tally(b, k).revenue,
                                          Tally(a, k).gst + Tally(b, k).gst)
  {
    SumOfAppend(a, b, ItemKey, Quantity, k);
    SumOfAppend(a, b, ItemKey, ItemRevenue, k);
    SumOfAppend(a, b, ItemKey, ItemGst, k);
  }

  /**
   * An item whose name key is present but blank is filed under "", not
   * under its code: only a missing name falls back to the code.
   */
  lemma BlankNameIsNotReplaced(it: Item, code: string)
    requires it.productName == Some("") && it.productCode == Some(code) && code != ""
    ensures ItemKey(it) == "" && ItemKey(it) != code
  {
  }
}
