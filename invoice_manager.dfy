/**
 * The invoice ledger of one financial year: an append-only list of invoices
 * with automatic invoice numbers and per-day gate-pass numbers.
 */
module InvoiceManager {
  import opened Wrappers
  import opened Collections
  import opened PyStrings
  import opened Dates
  import opened Records
  import opened Helpers
  import opened Validators
  import opened BillingCalculator

  /**
   * The payload handed to `create_invoice`. An empty `invoiceNo`,
   * `gatePassNo` or `customerId` stands for a missing or blank key; `date`
   * and `status` distinguish a missing key from a present one. The caller's
   * `totals` are carried only to show that they are ignored.
   */
  datatype Draft = Draft(
    invoiceNo: string,
    gatePassNo: string,
    date: Option<string>,
    customerId: string,
    customerName: string,
    items: seq<Item>,
    totals: Option<Totals>,
    status: Option<string>,
    template: string)

  /**
   * Today's date as the ledger prints it: "%Y-%m-%d" for a defaulted invoice
   * date and "%Y%m%d" for a gate-pass day. It stands for the system clock.
   */
  datatype Clock = Clock(isoDate: string, compactDate: string)

  /** The clock reading on a given day. */
  function ClockAt(d: Date): Clock
    requires Valid(d)
  {
    Clock(FormatIso(d), FormatCompact(d))
  }

  /**
   * A date defaulted to today, with its dashes removed, is today's gate-pass
   * day: the two forms the clock gives agree.
   */
  lemma DefaultDateGateKey(d: Date)
    requires Valid(d)
    ensures RemoveAll(ClockAt(d).isoDate, "-") == ClockAt(d).compactDate
  {
    var dash := "-";
    assert !IsDigit(dash[0]);
    RemoveSeparators(ZeroPad(d.year, 4), ZeroPad(d.month, 2), ZeroPad(d.day, 2), dash);
  }

  /** Invoice numbers of a financial year start with "<fy>/INV/". */
  function InvoicePrefix(fy: string): string {
    fy + "/INV/"
  }

  /** The invoice numbers of a ledger, in order. */
  function Numbers(invoices: seq<Invoice>): (r: seq<string>)
    ensures |r| == |invoices| && forall i :: 0 <= i < |r| ==> r[i] == invoices[i].invoiceNo
  {
    if |invoices| == 0 then [] else Numbers(invoices[..|invoices| - 1]) + [invoices[|invoices| - 1].invoiceNo]
  }

  /**
   * The number `_next_invoice_number` hands out: one more than the largest
   * last '/'-segment among numbers under the year's prefix, padded to 4 digits.
   */
  function NextNumber(fy: string, invoices: seq<Invoice>): string {
    InvoicePrefix(fy) + ZeroPad(MaxSuffix(LastSlashSegment, InvoicePrefix(fy), Numbers(invoices)) + 1, 4)
  }

  /** "GP-<key>-<n>", the counter padded to 3 digits. */
  function GatePassLabel(key: string, n: nat): string {
    "GP-" + key + "-" + ZeroPad(n, 3)
  }

  /** The day a gate pass is counted under: the given text, or today as "YYYYMMDD" when it is empty. */
  function GateKey(dt: string, today: Clock): string {
    if dt == "" then today.compactDate else dt
  }

  /** The last gate-pass number issued for a day, 0 when none was. */
  function GateCount(counters: map<string, nat>, key: string): nat {
    if key in counters then counters[key] else 0
  }

  /** The counters after one more gate pass is issued for `key`. */
  function Advance(counters: map<string, nat>, key: string): map<string, nat> {
    counters[key := GateCount(counters, key) + 1]
  }

  /** The invoice date: the draft's, or today as "YYYY-MM-DD" when the key is missing. */
  function DraftDate(draft: Draft, today: Clock): string {
    draft.date.GetOr(today.isoDate)
  }

  /** The day gate passes of a draft are counted under: its date without dashes. */
  function DraftGateKey(draft: Draft, today: Clock): string {
    GateKey(RemoveAll(DraftDate(draft, today), "-"), today)
  }

  /** The invoice number: the caller's when not blank, else the next number of the ledger. */
  function AssignedNumber(draft: Draft, fy: string, invoices: seq<Invoice>): string {
    if draft.invoiceNo == "" then NextNumber(fy, invoices) else draft.invoiceNo
  }

  /** The gate-pass number: the caller's when not blank, else the next one for the draft's day. */
  function AssignedGatePass(draft: Draft, today: Clock, counters: map<string, nat>): string {
    if draft.gatePassNo == "" then
      var key := DraftGateKey(draft, today);
      GatePassLabel(key, GateCount(counters, key) + 1)
    else draft.gatePassNo
  }

  /** The invoice `create_invoice` stores for a draft once its date and numbers are settled. */
  function Complete(draft: Draft, date: string, invoiceNo: string, gatePassNo: string): Invoice {
    Invoice(invoiceNo, gatePassNo, date, draft.customerId, draft.customerName, draft.items,
            InvoiceTotals(draft.items), draft.status.GetOr("final"), draft.template)
  }

  /** Position of the first invoice with exactly this number, or None. */
  function IndexOfNumber(invoices: seq<Invoice>, no: string): (r: Option<nat>)
    ensures r.Some? ==> r.value < |invoices| && invoices[r.value].invoiceNo == no
    ensures r.Some? ==> forall j :: 0 <= j < r.value ==> invoices[j].invoiceNo != no
    ensures r.None? <==> forall j :: 0 <= j < |invoices| ==> invoices[j].invoiceNo != no
  {
    FirstIndex(invoices, (inv: Invoice) => inv.invoiceNo == no)
  }

  class Ledger {
    /** The financial-year label, fixed when the ledger is opened. */
    const fy: string
    /** The stored invoices in insertion order; this is what is saved. */
    var invoices: seq<Invoice>
    /** The last gate-pass number issued per day, kept in memory only. */
    var gatePass: map<string, nat>

    constructor(fy: string, loaded: seq<Invoice>)
      ensures this.fy == fy && invoices == loaded && gatePass == map[]
    {
      this.fy := fy;
      invoices := loaded;
      gatePass := map[];
    }

    /** `list()`: the invoices in insertion order. */
    method List() returns (r: seq<Invoice>)
      ensures r == invoices
    {
      r := invoices;
    }

    /** `_next_invoice_number()`: the scan for the largest number under the year's prefix. */
    method NextInvoiceNumber() returns (no: string)
      ensures no == NextNumber(fy, invoices)
    {
      var prefix := InvoicePrefix(fy);
      ghost var nos := Numbers(invoices);
      var maxNum: nat := 0;
      for i := 0 to |invoices|
        invariant maxNum == MaxSuffix(LastSlashSegment, prefix, nos[..i])
      {
        assert nos[..i + 1][..i] == nos[..i];
        var invNo := invoices[i].invoiceNo;
        assert invNo == nos[i];
        if StartsWith(invNo, prefix) {
          match ParseInt(LastSegment(invNo, '/')) {
            case Some(num) =>
              if num > maxNum {
                maxNum := num;
              }
            case None =>
          }
        }
      }
      assert nos[..|invoices|] == nos;
      no := prefix + ZeroPad(maxNum + 1, 4);
    }

    /**
     * `_next_gate_pass_number(dt)`: advances the day's counter by one and
     * returns its label; every other day's counter is left alone.
     */
    method NextGatePassNumber(dt: string, today: Clock) returns (gp: string)
      modifies this
      ensures var key := GateKey(dt, today);
              gp == GatePassLabel(key, GateCount(old(gatePass), key) + 1)
              && gatePass == Advance(old(gatePass), key)
      ensures invoices == old(invoices)
    {
      var key := GateKey(dt, today);
      var last := GateCount(gatePass, key) + 1;
      gatePass := gatePass[key := last];
      gp := GatePassLabel(key, last);
    }

    /** The numbering step of `create_invoice`: keep the caller's number or take the next one. */
    method AssignInvoiceNumber(draft: Draft) returns (no: string)
      ensures no == AssignedNumber(draft, fy, invoices)
    {
      no := draft.invoiceNo;
      if no == "" {
        no := NextInvoiceNumber();
      }
    }

    /** The gate-pass step of `create_invoice`: keep the caller's number or issue the next one. */
    method AssignGatePass(draft: Draft, today: Clock) returns (gp: string)
      modifies this
      ensures gp == AssignedGatePass(draft, today, old(gatePass))
      ensures gatePass == (if draft.gatePassNo == "" then Advance(old(gatePass), DraftGateKey(draft, today))
                           else old(gatePass))
      ensures invoices == old(invoices)
    {
      gp := draft.gatePassNo;
      if gp == "" {
        var dt := RemoveAll(DraftDate(draft, today), "-");
        gp := NextGatePassNumber(dt, today);
      }
    }

    /**
     * `create_invoice(payload)`: the date defaults to today, a missing invoice
     * number and gate-pass number are assigned, the totals are recomputed from
     * the items and the status defaults to "final". A valid invoice is
     * appended and returned; an invalid one is refused with the list unchanged,
     * though the numbering done before the check is not undone.
     */
    method CreateInvoice(draft: Draft, today: Clock) returns (r: Option<Invoice>)
      modifies this
      ensures var inv := Complete(draft, DraftDate(draft, today), AssignedNumber(draft, fy, old(invoices)),
                                  AssignedGatePass(draft, today, old(gatePass)));
              r == (if ValidateInvoice(inv) then Some(inv) else None)
              && invoices == (if ValidateInvoice(inv) then old(invoices) + [inv] else old(invoices))
      ensures gatePass == (if draft.gatePassNo == "" then Advance(old(gatePass), DraftGateKey(draft, today))
                           else old(gatePass))
    {
      var date := DraftDate(draft, today);
      var no := AssignInvoiceNumber(draft);
      var gp := AssignGatePass(draft, today);
      var totals := CalculateInvoiceTotals(draft.items);
      var status := if draft.status.Some? then draft.status.value else "final";
      var inv := Invoice(no, gp, date, draft.customerId, draft.customerName, draft.items,
                         totals, status, draft.template);
      assert inv == Complete(draft, date, no, gp);
      if !ValidateInvoice(inv) {
        return None;
      }
      invoices := invoices + [inv];
      r := Some(inv);
    }

    /**
     * `update_status(invoice_no, status)`: the first invoice with exactly
     * this number gets the new status and nothing else changes; with no such
     * invoice the ledger is untouched.
     */
    method UpdateStatus(no: string, status: string) returns (found: bool)
      modifies this
      ensures match IndexOfNumber(old(invoices), no)
              case Some(i) => found && invoices == old(invoices)[i := old(invoices)[i].(status := status)]
              case None => !found && invoices == old(invoices)
      ensures gatePass == old(gatePass)
    {
      var i := 0;
      while i < |invoices|
        invariant 0 <= i <= |invoices|
        invariant forall j :: 0 <= j < i ==> invoices[j].invoiceNo != no
      {
        if invoices[i].invoiceNo == no {
          assert IndexOfNumber(invoices, no) == Some(i);
          invoices := invoices[i := invoices[i].(status := status)];
          return true;
        }
        i := i + 1;
      }
      return false;
    }
  }

  // ---- properties of the numbering ----

  /** A zero-padded number holds no '/'. */
  lemma NoSlashInDigits(s: string)
    requires AllDigits(s)
    ensures '/' !in s
  {
  }

  /** A number under the year's prefix reads back as the number it was padded from. */
  lemma InvoiceNumberReads(fy: string, n: nat)
    ensures SuffixNumber(LastSlashSegment, InvoicePrefix(fy), InvoicePrefix(fy) + ZeroPad(n, 4)) == Some(n)
  {
    var prefix, z := InvoicePrefix(fy), ZeroPad(n, 4);
    assert (prefix + z)[..|prefix|] == prefix;
    assert prefix[|prefix| - 1] == '/';
    NoSlashInDigits(z);
    LastSegmentAfter(prefix, z, '/');
    ParseIntZeroPad(n, 4);
  }

  /** A number one above the year's maximum is not the number of any invoice in the ledger. */
  lemma NumberAboveMaxFresh(fy: string, invoices: seq<Invoice>, n: nat)
    requires n == MaxSuffix(LastSlashSegment, InvoicePrefix(fy), Numbers(invoices)) + 1
    ensures InvoicePrefix(fy) + ZeroPad(n, 4) !in Numbers(invoices)
  {
    InvoiceNumberReads(fy, n);
    NewSuffixIsFresh(LastSlashSegment, InvoicePrefix(fy), Numbers(invoices), InvoicePrefix(fy) + ZeroPad(n, 4), n);
  }

  /** The next invoice number is not the number of any invoice already in the ledger. */
  lemma NextNumberFresh(fy: string, invoices: seq<Invoice>)
    ensures NextNumber(fy, invoices) !in Numbers(invoices)
  {
    var n := MaxSuffix(LastSlashSegment, InvoicePrefix(fy), Numbers(invoices)) + 1;
    assert NextNumber(fy, invoices) == InvoicePrefix(fy) + ZeroPad(n, 4);
    NumberAboveMaxFresh(fy, invoices, n);
  }

  /** An empty ledger starts at "<fy>/INV/0001". */
  lemma FirstInvoiceNumber(fy: string)
    ensures NextNumber(fy, []) == fy + "/INV/0001"
  {
    assert Numbers([]) == [];
    assert ZeroPad(1, 4) == "0001";
  }

  /**
   * Two numbers under the prefix, the larger being `b`, give `b + 1` whatever
   * the gap: 0001 and 0003 give 0004.
   */
  lemma NextNumberAfterGap(fy: string, invoices: seq<Invoice>, a: nat, b: nat)
    requires |invoices| == 2 && a <= b
    requires invoices[0].invoiceNo == InvoicePrefix(fy) + ZeroPad(a, 4)
    requires invoices[1].invoiceNo == InvoicePrefix(fy) + ZeroPad(b, 4)
    ensures NextNumber(fy, invoices) == InvoicePrefix(fy) + ZeroPad(b + 1, 4)
  {
    var prefix, nos := InvoicePrefix(fy), Numbers(invoices);
    assert MaxSuffix(LastSlashSegment, prefix, nos) == b by {
      InvoiceNumberReads(fy, a);
      InvoiceNumberReads(fy, b);
      MaxSuffixPair(LastSlashSegment, prefix, nos, a, b);
    }
  }

  /** Numbers of another year, or whose last segment is not a number, are skipped. */
  lemma ForeignNumbersSkipped(fy: string, invoices: seq<Invoice>, other: Invoice)
    requires !StartsWith(other.invoiceNo, InvoicePrefix(fy)) || ParseInt(LastSegment(other.invoiceNo, '/')).None?
    ensures MaxSuffix(LastSlashSegment, InvoicePrefix(fy), Numbers(invoices + [other]))
            == MaxSuffix(LastSlashSegment, InvoicePrefix(fy), Numbers(invoices))
  {
    var nos := Numbers(invoices + [other]);
    assert nos[..|nos| - 1] == Numbers(invoices);
  }

  /** Different counter values give different gate-pass labels for the same day. */
  lemma GatePassLabelInjective(key: string, n: nat, m: nat)
    requires GatePassLabel(key, n) == GatePassLabel(key, m)
    ensures n == m
  {
    var head := "GP-" + key + "-";
    assert GatePassLabel(key, n) == head + ZeroPad(n, 3);
    assert GatePassLabel(key, m) == head + ZeroPad(m, 3);
    assert ZeroPad(n, 3) == GatePassLabel(key, n)[|head|..];
    assert ZeroPad(m, 3) == GatePassLabel(key, m)[|head|..];
    ParseIntZeroPad(n, 3);
    ParseIntZeroPad(m, 3);
  }

  /** The stored invoice's totals come from its items alone, never from the caller. */
  lemma CompleteIgnoresCallerTotals(draft: Draft, t: Option<Totals>, date: string, no: string, gp: string)
    ensures Complete(draft.(totals := t), date, no, gp) == Complete(draft, date, no, gp)
    ensures TotalsInCents(Complete(draft, date, no, gp).totals)
  {
  }
}
