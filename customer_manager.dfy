/**
 * The customer registry: an insertion-ordered list of customer records with
 * lookup by id and by name, merge-or-append, delete, and purchase totals
 * recomputed from the invoice ledger.
 */
module CustomerManager {
  import opened Wrappers
  import opened Collections
  import opened PyStrings
  import opened Records
  import opened Validators

  /** `c.get("customer_id") == id`: a record without the key matches nothing. */
  predicate HasId(c: Record, id: Value) {
    "customer_id" in c && c["customer_id"] == id
  }

  /** A stored name, when there is one, is text (the source calls `strip()` on it). */
  predicate NameIsText(c: Record) {
    "name" in c ==> c["name"].Text?
  }

  /** `c.get("name", "")`, as text. */
  function NameOf(c: Record): string {
    if "name" in c && c["name"].Text? then c["name"].s else ""
  }

  /** The record's trimmed, lower-cased name is `key`. */
  predicate NameIs(c: Record, key: string) {
    Normalize(NameOf(c)) == key
  }

  /** Position of the first record with this id, or None. */
  function IndexOfId(customers: seq<Record>, id: Value): (r: Option<nat>)
    ensures r.Some? ==> r.value < |customers| && HasId(customers[r.value], id)
    ensures r.Some? ==> forall j :: 0 <= j < r.value ==> !HasId(customers[j], id)
    ensures r.None? <==> forall j :: 0 <= j < |customers| ==> !HasId(customers[j], id)
  {
    FirstIndex(customers, (c: Record) => HasId(c, id))
  }

  /** Position of the first record whose trimmed, lower-cased name is `key`, or None. */
  function IndexOfName(customers: seq<Record>, key: string): (r: Option<nat>)
    ensures r.Some? ==> r.value < |customers| && NameIs(customers[r.value], key)
    ensures r.Some? ==> forall j :: 0 <= j < r.value ==> !NameIs(customers[j], key)
    ensures r.None? <==> forall j :: 0 <= j < |customers| ==> !NameIs(customers[j], key)
  {
    FirstIndex(customers, (c: Record) => NameIs(c, key))
  }

  /** Merging or appending a record whose name is text keeps every stored name text. */
  lemma UpsertKeepsNamesText(customers: seq<Record>, customer: Record)
    requires "customer_id" in customer && NameIsText(customer)
    requires forall i :: 0 <= i < |customers| ==> NameIsText(customers[i])
    ensures var after := Upserted(customers, customer);
            forall i :: 0 <= i < |after| ==> NameIsText(after[i])
  {
    match IndexOfId(customers, customer["customer_id"]) {
      case Some(i) =>
        assert NameIsText(customers[i] + customer);
      case None =>
    }
  }

  /**
   * The list after `add_or_update` of a valid record: merged into the first
   * record with the same id (incoming keys win, the others stay), or appended.
   */
  function Upserted(customers: seq<Record>, customer: Record): seq<Record>
    requires "customer_id" in customer
  {
    match IndexOfId(customers, customer["customer_id"])
    case Some(i) => customers[i := customers[i] + customer]
    case None => customers + [customer]
  }

  /** Number of invoices for customer id `cid`; invoices with a blank id belong to nobody. */
  function Purchases(invoices: seq<Invoice>, cid: string): nat {
    if |invoices| == 0 then 0
    else Purchases(invoices[..|invoices| - 1], cid)
         + (if cid != "" && invoices[|invoices| - 1].customerId == cid then 1 else 0)
  }

  /** Sum of the grand totals of the invoices for customer id `cid`. */
  function Amount(invoices: seq<Invoice>, cid: string): real {
    if |invoices| == 0 then 0.0
    else Amount(invoices[..|invoices| - 1], cid)
         + (if cid != "" && invoices[|invoices| - 1].customerId == cid then invoices[|invoices| - 1].totals.total else 0.0)
  }

  /** The (count, amount) a customer record gets: a non-text id never matches an invoice. */
  function Tally(invoices: seq<Invoice>, c: Record): (nat, real) {
    if "customer_id" in c && c["customer_id"].Text? then
      (Purchases(invoices, c["customer_id"].s), Amount(invoices, c["customer_id"].s))
    else (0, 0.0)
  }

  /** The record with `total_purchases` and `total_amount` set from the ledger. */
  function WithTotals(c: Record, invoices: seq<Invoice>): Record {
    var (count, amount) := Tally(invoices, c);
    c["total_purchases" := Number(count as real)]["total_amount" := Number(amount)]
  }

  /** The running (count, amount) of one customer id in the scan, (0, 0) when not met yet. */
  function Lookup(totals: map<string, (nat, real)>, cid: string): (nat, real) {
    if cid in totals then totals[cid] else (0, 0.0)
  }

  class CustomerRegistry {
    /** The customer records in insertion order; this is what is saved. */
    var customers: seq<Record>

    ghost predicate Valid()
      reads this
    {
      forall i :: 0 <= i < |customers| ==> NameIsText(customers[i])
    }

    constructor(loaded: seq<Record>)
      requires forall i :: 0 <= i < |loaded| ==> NameIsText(loaded[i])
      ensures customers == loaded && Valid()
    {
      customers := loaded;
    }

    /** `list()`: the records in insertion order. */
    method List() returns (r: seq<Record>)
      ensures r == customers
    {
      r := customers;
    }

    /** `find_by_id(customer_id)`: the first record with exactly this id. */
    method FindById(id: Value) returns (r: Option<Record>)
      ensures match IndexOfId(customers, id)
              case Some(i) => r == Some(customers[i])
              case None => r == None
    {
      var i := 0;
      while i < |customers|
        invariant 0 <= i <= |customers|
        invariant forall j :: 0 <= j < i ==> !HasId(customers[j], id)
      {
        if HasId(customers[i], id) {
          assert IndexOfId(customers, id) == Some(i);
          return Some(customers[i]);
        }
        i := i + 1;
      }
      return None;
    }

    /** `find_by_name(name)`: the first record whose trimmed, lower-cased name matches. */
    method FindByName(name: string) returns (r: Option<Record>)
      requires Valid()
      ensures match IndexOfName(customers, Normalize(name))
              case Some(i) => r == Some(customers[i])
              case None => r == None
    {
      var key := Normalize(name);
      var found := FindFirst(customers, (c: Record) => NameIs(c, key));
      assert found == IndexOfName(customers, key);
      match found {
        case Some(i) =>
          r := Some(customers[i]);
        case None =>
          r := None;
      }
    }

    /**
     * `add_or_update(customer)`: an invalid record is refused and nothing
     * changes; a valid one is merged into the record with its id or appended.
     */
    method AddOrUpdate(customer: Record) returns (ok: bool)
      requires Valid() && NameIsText(customer)
      modifies this
      ensures Valid()
      ensures ok == ValidateCustomer(customer)
      ensures ok ==> customers == Upserted(old(customers), customer)
      ensures !ok ==> customers == old(customers)
    {
      if !ValidateCustomer(customer) {
        return false;
      }
      var existing := FindFirst(customers, (c: Record) => HasId(c, customer["customer_id"]));
      assert existing == IndexOfId(customers, customer["customer_id"]);
      UpsertKeepsNamesText(customers, customer);
      match existing {
        case Some(i) =>
          customers := customers[i := customers[i] + customer];
        case None =>
          customers := customers + [customer];
      }
      return true;
    }

    /**
     * `delete(customer_id)`: every record with exactly this id is removed;
     * the answer says whether there was one, and with none nothing changes.
     */
    method Delete(id: Value) returns (removed: bool)
      requires Valid()
      modifies this
      ensures Valid()
      ensures customers == Filter(old(customers), (c: Record) => !HasId(c, id))
      ensures removed <==> exists i :: 0 <= i < |old(customers)| && HasId(old(customers)[i], id)
    {
      var kept := Filter(customers, (c: Record) => !HasId(c, id));
      FilterKeepsAllIff(customers, (c: Record) => !HasId(c, id));
      if |kept| == |customers| {
        return false;
      }
      forall j | 0 <= j < |kept|
        ensures NameIsText(kept[j])
      {
        assert kept[j] in customers;
      }
      customers := kept;
      return true;
    }

    /**
     * `update_totals_from_invoices(invoices)`: counts and sums each customer
     * id's invoices, then sets every record's `total_purchases` and
     * `total_amount`; order and length stay as they were.
     */
    method UpdateTotalsFromInvoices(invoices: seq<Invoice>)
      requires Valid()
      modifies this
      ensures Valid()
      ensures |customers| == |old(customers)|
      ensures forall i :: 0 <= i < |customers| ==> customers[i] == WithTotals(old(customers)[i], invoices)
    {
      var totals: map<string, (nat, real)> := map[];
      for i := 0 to |invoices|
        invariant forall k :: Lookup(totals, k) == (Purchases(invoices[..i], k), Amount(invoices[..i], k))
      {
        assert invoices[..i + 1][..i] == invoices[..i];
        var cid := invoices[i].customerId;
        if cid != "" {
          var (count, amount) := Lookup(totals, cid);
          totals := totals[cid := (count + 1, amount + invoices[i].totals.total)];
        }
      }
      assert invoices[..|invoices|] == invoices;
      for j := 0 to |customers|
        invariant |customers| == |old(customers)|
        invariant forall k :: 0 <= k < j ==> customers[k] == WithTotals(old(customers)[k], invoices)
        invariant forall k :: j <= k < |customers| ==> customers[k] == old(customers)[k]
        invariant Valid()
      {
        var c := customers[j];
        var t := if "customer_id" in c && c["customer_id"].Text? then Lookup(totals, c["customer_id"].s) else (0, 0.0);
        customers := customers[j := c["total_purchases" := Number(t.0 as real)]["total_amount" := Number(t.1)]];
      }
    }
  }

  // ---- properties ----

  /**
   * Merging keeps every key of the stored record the input does not carry,
   * and takes the input's value for every key it does.
   */
  lemma MergeKeepsAndOverwrites(existing: Record, incoming: Record, k: string)
    ensures k in incoming ==> (existing + incoming)[k] == incoming[k]
    ensures k !in incoming && k in existing ==> (existing + incoming)[k] == existing[k]
    ensures k in existing + incoming <==> k in existing || k in incoming
  {
  }

  /** Adding the same customer twice leaves one entry: the second add changes nothing. */
  lemma UpsertTwice(customers: seq<Record>, customer: Record)
    requires "customer_id" in customer
    ensures Upserted(Upserted(customers, customer), customer) == Upserted(customers, customer)
    ensures |Upserted(customers, customer)| == |customers| || |Upserted(customers, customer)| == |customers| + 1
  {
    var id := customer["customer_id"];
    var once := Upserted(customers, customer);
    match IndexOfId(customers, id) {
      case Some(i) =>
        assert HasId(once[i], id);
        assert forall j :: 0 <= j < i ==> once[j] == customers[j];
        assert IndexOfId(once, id) == Some(i);
        assert once[i] + customer == once[i];
      case None =>
        assert forall j :: 0 <= j < |customers| ==> once[j] == customers[j];
        assert HasId(once[|customers|], id);
        assert IndexOfId(once, id) == Some(|customers|);
        assert customer + customer == customer;
    }
  }

  /** An id not in the registry leaves the list unchanged on delete. */
  lemma DeleteNothing(customers: seq<Record>, id: Value)
    requires forall i :: 0 <= i < |customers| ==> !HasId(customers[i], id)
    ensures Filter(customers, (c: Record) => !HasId(c, id)) == customers
  {
    FilterKeepsAllIff(customers, (c: Record) => !HasId(c, id));
  }

  /** Counts and amounts of a ledger split in two are the sums over the two parts. */
  lemma {:induction false} TallyAppend(a: seq<Invoice>, b: seq<Invoice>, cid: string)
    ensures Purchases(a + b, cid) == Purchases(a, cid) + Purchases(b, cid)
    ensures Amount(a + b, cid) == Amount(a, cid) + Amount(b, cid)
    decreases |b|
  {
    if |b| == 0 {
      assert a + b == a;
    } else {
      TallyAppend(a, b[..|b| - 1], cid);
      assert (a + b)[..|a + b| - 1] == a + b[..|b| - 1];
    }
  }

  /** A customer id no invoice carries gets 0 purchases and 0 amount; so does the blank id. */
  lemma {:induction false} TallyNone(invoices: seq<Invoice>, cid: string)
    requires cid == "" || forall i :: 0 <= i < |invoices| ==> invoices[i].customerId != cid
    ensures Purchases(invoices, cid) == 0 && Amount(invoices, cid) == 0.0
  {
    if |invoices| > 0 {
      TallyNone(invoices[..|invoices| - 1], cid);
    }
  }

  /** The count never exceeds the number of invoices. */
  lemma {:induction false} PurchasesBound(invoices: seq<Invoice>, cid: string)
    ensures Purchases(invoices, cid) <= |invoices|
  {
    if |invoices| > 0 {
      PurchasesBound(invoices[..|invoices| - 1], cid);
    }
  }

  /** Two invoices of 100 and 50 for one customer give 2 purchases and 150. */
  lemma TallyExample(invoices: seq<Invoice>, cid: string)
    requires cid != "" && |invoices| == 2
    requires invoices[0].customerId == cid && invoices[0].totals.total == 100.0
    requires invoices[1].customerId == cid && invoices[1].totals.total == 50.0
    ensures Purchases(invoices, cid) == 2 && Amount(invoices, cid) == 150.0
  {
    var first := invoices[..1];
    assert first[..0] == [] && first[0] == invoices[0];
    assert Purchases(first, cid) == 1 && Amount(first, cid) == 100.0;
    assert invoices[..|invoices| - 1] == first;
  }
}
