/**
 * The validation policy shared by the registries and the ledger: boolean
 * predicates over incoming records.
 */
module Validators {
  import opened Wrappers
  import opened PyStrings
  import opened Records
  import opened Helpers

  /** `is_non_empty(text)`: the text has a character that is not whitespace. */
  function IsNonEmpty(text: string): (b: bool)
    ensures b <==> exists i :: 0 <= i < |text| && !IsSpace(text[i])
  {
    StripBlankIff(text);
    Strip(text) != ""
  }

  /**
   * `is_non_empty(str(data.get(key, "")))`: the key is present and its text
   * is not blank. The text of a number always holds a digit, so a number passes.
   */
  predicate HasText(data: Record, key: string) {
    key in data
    && match data[key]
       case Text(s) => IsNonEmpty(s)
       case Number(_) => true
  }

  /** `is_positive_number(value)`: `float(value) >= 0`, false when it does not convert. */
  function IsPositiveNumber(v: Value): bool {
    match v
    case Number(n) => n >= 0.0
    case Text(s) =>
      match ParseDecimal(s)
      case Some(x) => x >= 0.0
      case None => false
  }

  /**
   * A value passes exactly when it converts to a number that is at least 0:
   * zero passes, negative numbers and text that is not a number do not.
   */
  lemma IsPositiveNumberMeaning(v: Value)
    ensures IsPositiveNumber(v) <==> (v.Text? ==> ParseDecimal(v.s).Some?) && ToDecimal(v) >= 0.0
    ensures IsPositiveNumber(Number(0.0))
    ensures v.Number? && v.n < 0.0 ==> !IsPositiveNumber(v)
  {
  }

  /** `validate_customer(data)`: non-blank `customer_id` and `name`. */
  function ValidateCustomer(data: Record): bool {
    HasText(data, "customer_id") && HasText(data, "name")
  }

  /** Only `customer_id` and `name` decide; every other key may hold anything. */
  lemma ValidateCustomerOnlyIdAndName(a: Record, b: Record)
    requires forall k :: k in ["customer_id", "name"] ==> (k in a <==> k in b) && (k in a ==> a[k] == b[k])
    ensures ValidateCustomer(a) == ValidateCustomer(b)
    ensures ValidateCustomer(a) ==> "customer_id" in a && "name" in a
  {
    assert "customer_id" in ["customer_id", "name"] && "name" in ["customer_id", "name"];
  }

  /**
   * `validate_product(data)`: non-blank `product_code` and `product_name`,
   * and `gst_rate` and `stock` that are numbers at least 0 (absent counts as 0).
   */
  function ValidateProduct(data: Record): bool {
    HasText(data, "product_code") && HasText(data, "product_name")
    && IsPositiveNumber(if "gst_rate" in data then data["gst_rate"] else Number(0.0))
    && IsPositiveNumber(if "stock" in data then data["stock"] else Number(0.0))
  }

  /**
   * A product with a code and a name but no tax rate or stock passes; the
   * rate fields are never looked at, so a negative rate passes too.
   */
  lemma ValidateProductDefaultsAndRates(data: Record, rate: real)
    requires HasText(data, "product_code") && HasText(data, "product_name")
    requires "gst_rate" !in data && "stock" !in data
    ensures ValidateProduct(data)
    ensures ValidateProduct(data["rate_1kg" := Number(rate)]["rate_half_kg" := Number(rate)])
  {
    var d := data["rate_1kg" := Number(rate)]["rate_half_kg" := Number(rate)];
    assert d["product_code"] == data["product_code"] && d["product_name"] == data["product_name"];
  }

  /** A negative tax rate or stock, or one that is not a number, is refused. */
  lemma ValidateProductRefusesNegatives(data: Record, key: string, x: real)
    requires key == "gst_rate" || key == "stock"
    requires x < 0.0
    ensures !ValidateProduct(data[key := Number(x)])
  {
  }

  /** `validate_invoice(data)`: non-blank number, non-blank date, at least one item. */
  function ValidateInvoice(inv: Invoice): (b: bool)
    ensures b <==> (exists i :: 0 <= i < |inv.invoiceNo| && !IsSpace(inv.invoiceNo[i]))
                   && (exists i :: 0 <= i < |inv.date| && !IsSpace(inv.date[i]))
                   && inv.items != []
  {
    IsNonEmpty(inv.invoiceNo) && IsNonEmpty(inv.date) && |inv.items| > 0
  }
}
