/**
 * The product catalogue: an insertion-ordered list of product records with
 * case-insensitive lookup by code and by name, merge-or-append keyed on the
 * code, and an exact-match delete.
 */
module ProductManager {
  import opened Wrappers
  import opened Collections
  import opened PyStrings
  import opened Records
  import opened Validators

  /** A stored code or name, when there is one, is text (the source calls `strip()` on both). */
  predicate FieldsText(p: Record) {
    ("product_code" in p ==> p["product_code"].Text?)
    && ("product_name" in p ==> p["product_name"].Text?)
  }

  /** `p.get("product_code", "")`, as text. */
  function CodeOf(p: Record): string {
    if "product_code" in p && p["product_code"].Text? then p["product_code"].s else ""
  }

  /** `p.get("product_name", "")`, as text. */
  function NameOf(p: Record): string {
    if "product_name" in p && p["product_name"].Text? then p["product_name"].s else ""
  }

  /** The record's trimmed, lower-cased code is `key`. */
  predicate CodeIs(p: Record, key: string) {
    Normalize(CodeOf(p)) == key
  }

  /** The record's trimmed, lower-cased name is `key`. */
  predicate NameIs(p: Record, key: string) {
    Normalize(NameOf(p)) == key
  }

  /** `p.get("product_code") == code`: the exact comparison `delete` uses; no code matches nothing. */
  predicate HasCode(p: Record, code: string) {
    "product_code" in p && p["product_code"] == Text(code)
  }

  /** Position of the first record whose normalised code is `key`, or None. */
  function IndexOfCode(products: seq<Record>, key: string): (r: Option<nat>)
    ensures r.Some? ==> r.value < |products| && CodeIs(products[r.value], key)
    ensures r.Some? ==> forall j :: 0 <= j < r.value ==> !CodeIs(products[j], key)
    ensures r.None? <==> forall j :: 0 <= j < |products| ==> !CodeIs(products[j], key)
  {
    FirstIndex(products, (p: Record) => CodeIs(p, key))
  }

  /** Position of the first record whose normalised name is `key`, or None. */
  function IndexOfName(products: seq<Record>, key: string): (r: Option<nat>)
    ensures r.Some? ==> r.value < |products| && NameIs(products[r.value], key)
    ensures r.Some? ==> forall j :: 0 <= j < r.value ==> !NameIs(products[j], key)
    ensures r.None? <==> forall j :: 0 <= j < |products| ==> !NameIs(products[j], key)
  {
    FirstIndex(products, (p: Record) => NameIs(p, key))
  }

  /** The lookup key `add_or_update` uses for an incoming product. */
  function KeyOf(product: Record): string {
    Normalize(CodeOf(product))
  }

  /**
   * The list after `add_or_update` of a valid product: merged into the first
   * record whose code matches ignoring case and surrounding blanks (incoming
   * keys win, including the code's own spelling), or appended.
   */
  function Upserted(products: seq<Record>, product: Record): seq<Record> {
    match IndexOfCode(products, KeyOf(product))
    case Some(i) => products[i := products[i] + product]
    case None => products + [product]
  }

  /** Merging or appending a product whose fields are text keeps every stored field text. */
  lemma UpsertKeepsFieldsText(products: seq<Record>, product: Record)
    requires FieldsText(product)
    requires forall i :: 0 <= i < |products| ==> FieldsText(products[i])
    ensures var after := Upserted(products, product);
            forall i :: 0 <= i < |after| ==> FieldsText(after[i])
  {
    match IndexOfCode(products, KeyOf(product)) {
      case Some(i) =>
        assert FieldsText(products[i] + product);
      case None =>
    }
  }

  class ProductCatalog {
    /** The product records in insertion order; this is what is saved. */
    var products: seq<Record>

    ghost predicate Valid()
      reads this
    {
      forall i :: 0 <= i < |products| ==> FieldsText(products[i])
    }

    constructor(loaded: seq<Record>)
      requires forall i :: 0 <= i < |loaded| ==> FieldsText(loaded[i])
      ensures products == loaded && Valid()
    {
      products := loaded;
    }

    /** `list()`: the records in insertion order. */
    method List() returns (r: seq<Record>)
      ensures r == products
    {
      r := products;
    }

    /** `find_by_code(code)`: the first record whose trimmed, lower-cased code matches. */
    method FindByCode(code: string) returns (r: Option<Record>)
      requires Valid()
      ensures match IndexOfCode(products, Normalize(code))
              case Some(i) => r == Some(products[i])
              case None => r == None
    {
      var key := Normalize(code);
      var found := FindFirst(products, (p: Record) => CodeIs(p, key));
      assert found == IndexOfCode(products, key);
      match found {
        case Some(i) =>
          r := Some(products[i]);
        case None =>
          r := None;
      }
    }

    /** `find_by_name(name)`: the first record whose trimmed, lower-cased name matches. */
    method FindByName(name: string) returns (r: Option<Record>)
      requires Valid()
      ensures match IndexOfName(products, Normalize(name))
              case Some(i) => r == Some(products[i])
              case None => r == None
    {
      var key := Normalize(name);
      var found := FindFirst(products, (p: Record) => NameIs(p, key));
      assert found == IndexOfName(products, key);
      match found {
        case Some(i) =>
          r := Some(products[i]);
        case None =>
          r := None;
      }
    }

    /**
     * `add_or_update(product)`: an invalid product is refused and nothing
     * changes; a valid one is merged into the record with the same code
     * (ignoring case and blanks) or appended.
     */
    method AddOrUpdate(product: Record) returns (ok: bool)
      requires Valid() && FieldsText(product)
      modifies this
      ensures Valid()
      ensures ok == ValidateProduct(product)
      ensures ok ==> products == Upserted(old(products), product)
      ensures !ok ==> products == old(products)
    {
      if !ValidateProduct(product) {
        return false;
      }
      var key := KeyOf(product);
      var existing := FindFirst(products, (p: Record) => CodeIs(p, key));
      assert existing == IndexOfCode(products, key);
      UpsertKeepsFieldsText(products, product);
      match existing {
        case Some(i) =>
          products := products[i := products[i] + product];
        case None =>
          products := products + [product];
      }
      return true;
    }

    /**
     * `delete(code)`: every record whose code is exactly `code` is removed;
     * the answer says whether there was one, and with none nothing changes.
     */
    method Delete(code: string) returns (removed: bool)
      requires Valid()
      modifies this
      ensures Valid()
      ensures products == Filter(old(products), (p: Record) => !HasCode(p, code))
      ensures removed <==> exists i :: 0 <= i < |old(products)| && HasCode(old(products)[i], code)
    {
      var kept := Filter(products, (p: Record) => !HasCode(p, code));
      FilterKeepsAllIff(products, (p: Record) => !HasCode(p, code));
      if |kept| == |products| {
        return false;
      }
      forall j | 0 <= j < |kept|
        ensures FieldsText(kept[j])
      {
        assert kept[j] in products;
      }
      products := kept;
      return true;
    }
  }

  // ---- properties ----

  /** Adding the same product twice leaves one entry: the second add changes nothing. */
  lemma UpsertTwice(products: seq<Record>, product: Record)
    requires "product_code" in product && product["product_code"].Text?
    ensures Upserted(Upserted(products, product), product) == Upserted(products, product)
    ensures |Upserted(products, product)| == |products| || |Upserted(products, product)| == |products| + 1
  {
    match IndexOfCode(products, KeyOf(product)) {
      case Some(i) => UpsertTwiceMerged(products, product, i);
      case None => UpsertTwiceAppended(products, product);
    }
  }

  /** The merge case of `UpsertTwice`: the merged record is found again, at the same place. */
  lemma UpsertTwiceMerged(products: seq<Record>, product: Record, i: nat)
    requires "product_code" in product && product["product_code"].Text?
    requires IndexOfCode(products, KeyOf(product)) == Some(i)
    ensures Upserted(products, product) == products[i := products[i] + product]
    ensures Upserted(Upserted(products, product), product) == Upserted(products, product)
  {
    var merged := products[i] + product;
    assert CodeOf(merged) == CodeOf(product);
    ReplaceKeepsFirst(products, KeyOf(product), i, merged);
    MergeAgain(products[i], product);
  }

  /** Replacing the first match by another record with the same key keeps it the first match. */
  lemma ReplaceKeepsFirst(products: seq<Record>, key: string, i: nat, rec: Record)
    requires IndexOfCode(products, key) == Some(i)
    requires CodeIs(rec, key)
    ensures IndexOfCode(products[i := rec], key) == Some(i)
  {
    var once := products[i := rec];
    assert forall j :: 0 <= j < i ==> once[j] == products[j];
    FirstIndexIs(once, (p: Record) => CodeIs(p, key), i);
  }

  /** Merging the same incoming record a second time changes nothing. */
  lemma MergeAgain(stored: Record, incoming: Record)
    ensures (stored + incoming) + incoming == stored + incoming
  {
  }

  /** The append case of `UpsertTwice`: the appended record is the first match afterwards. */
  lemma UpsertTwiceAppended(products: seq<Record>, product: Record)
    requires "product_code" in product && product["product_code"].Text?
    requires IndexOfCode(products, KeyOf(product)) == None
    ensures Upserted(products, product) == products + [product]
    ensures Upserted(Upserted(products, product), product) == Upserted(products, product)
  {
    var key := KeyOf(product);
    var once := products + [product];
    assert forall j :: 0 <= j < |products| ==> once[j] == products[j];
    assert CodeIs(once[|products|], key);
    assert IndexOfCode(once, key) == Some(|products|);
    assert product + product == product;
  }

  /**
   * A merge takes the incoming code's spelling: after adding code "abc"
   * over a stored "ABC", the stored record's code is "abc".
   */
  lemma UpsertRewritesCode(products: seq<Record>, product: Record, i: nat)
    requires "product_code" in product
    requires IndexOfCode(products, KeyOf(product)) == Some(i)
    ensures |Upserted(products, product)| == |products|
    ensures Upserted(products, product)[i]["product_code"] == product["product_code"]
    ensures forall k :: k in products[i] && k !in product ==> Upserted(products, product)[i][k] == products[i][k]
  {
  }

  /**
   * `delete` compares codes exactly while `find_by_code` ignores case: a
   * record stored with a code differing from `code` only in case is found
   * by that code yet survives its delete.
   */
  lemma DeleteIsExact(products: seq<Record>, i: nat, code: string)
    requires i < |products| && "product_code" in products[i]
    requires products[i]["product_code"].Text? && products[i]["product_code"].s != code
    ensures products[i] in Filter(products, (p: Record) => !HasCode(p, code))
    ensures Normalize(products[i]["product_code"].s) == Normalize(code)
            ==> IndexOfCode(products, Normalize(code)).Some?
  {
    assert products[i] in products;
    assert CodeOf(products[i]) == products[i]["product_code"].s;
  }

  /** A code no record carries leaves the list unchanged on delete. */
  lemma DeleteNothing(products: seq<Record>, code: string)
    requires forall i :: 0 <= i < |products| ==> !HasCode(products[i], code)
    ensures Filter(products, (p: Record) => !HasCode(p, code)) == products
  {
    FilterKeepsAllIff(products, (p: Record) => !HasCode(p, code));
  }
}
