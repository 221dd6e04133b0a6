/**
 * The records the billing engine stores, in the shape of its JSON documents:
 * customer and product records are open JSON objects; invoices and their
 * line items have a fixed set of keys, some of which may be absent.
 */
module Records {
  import opened Wrappers

  /** A JSON scalar held in a customer or product record. */
  datatype Value = Text(s: string) | Number(n: real)

  /** A customer or product record: a JSON object from key to value. */
  type Record = map<string, Value>

  /**
   * One invoice line as the billing form stores it. Every key may be missing;
   * `gst` is the tax percentage and `gstAmount` the computed tax.
   */
  datatype Item = Item(
    productName: Option<string>,
    productCode: Option<string>,
    quantity: Option<real>,
    rate: Option<real>,
    discount: Option<real>,
    gst: Option<real>,
    lineTotal: Option<real>,
    total: Option<real>,
    gstAmount: Option<real>)

  /** Money figures of a whole invoice: subtotal, discount, tax and grand total. */
  datatype Totals = Totals(subtotal: real, discount: real, gst: real, total: real)

  /** A stored invoice (the keys `invoice_no` … `template` of the ledger document). */
  datatype Invoice = Invoice(
    invoiceNo: string,
    gatePassNo: string,
    date: string,
    customerId: string,
    customerName: string,
    items: seq<Item>,
    totals: Totals,
    status: string,
    template: string)
}
