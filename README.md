# AVBilling invoicing core in Dafny

This project models the invoice ledger and billing engine of AVBilling, a
small-business invoicing application. It covers these parts:

- **Line and invoice totals** (`logic/billing_calculator.py`). Amounts are exact
  decimals and are rounded half-up to the cent.
- **The ledger of one financial year** (`logic/invoice_manager.py`):
  - automatic invoice numbers `<FY>/INV/NNNN`;
  - per-day gate-pass numbers `GP-YYYYMMDD-NNN`;
  - totals recomputed from the items when an invoice is saved;
  - status updates.
- **The customer and product registries** (`logic/customer_manager.py`,
  `logic/product_manager.py`):
  - lookup by id, code or normalised name;
  - upsert by dict merge;
  - delete;
  - the per-customer purchase rollup.
- **The reports** (`logic/report_generator.py`): the monthly summary and sales
  per product.
- **The helpers they rely on**:
  - validators (`utils/validators.py`);
  - `month_key`, `next_sequence`, `to_decimal` and `quantize_money`
    (`utils/helpers.py`);
  - the financial-year label (`config/defaults.py`).

## Modules

| module | models |
|---|---|
| `Wrappers` | `Option` |
| `Collections` | first-match search and list filtering, shared by the managers |
| `PyStrings` | the Python string built-ins the core calls: `strip`, `lower`, `startswith`, `replace`, `split("/")[-1]`, `str(int)`, `zfill`, `int(...)` and `Decimal(str(...))` parsing |
| `Dates` | calendar dates, `strptime("%Y-%m-%d")` and `strftime` |
| `Records` | stored records: open JSON objects for customers and products, fixed keys for invoices and line items |
| `Helpers`, `Validators`, `Defaults` | the utility files |
| `BillingCalculator`, `InvoiceManager`, `CustomerManager`, `ProductManager`, `ReportGenerator` | one module per `logic/` file |

## How the model represents the system

- **Money** is a `real`. `Decimal` arithmetic on the values the core sees is exact,
  so `real` models it without loss. `quantize_money` is `Helpers.QuantizeMoney`,
  specified by `RoundsHalfUpTo`: the nearest cent, with ties away from zero.
- **Managers** (`InvoiceManager`, `CustomerManager`, `ProductManager`) are
  classes. Each holds the list it mutates in a `seq` field. Every method states
  the new list as a function of the old one. Those functions are the
  specification that the lemmas are about.
- **Customer and product records** are `map<string, Value>`. `dict.update` is
  map union, so the incoming keys win.
- **The system clock** (`date.today()`) is a `Clock` parameter carrying today's
  date in its two printed forms.

### Where the code and the design description differ

The model follows the code in each case below.

- **The line total is not the sum of the rounded parts.** The code rounds the
  unrounded `taxable + gst` (`logic/billing_calculator.py:22-28`). A line's
  printed total can therefore differ from its printed taxable amount plus its
  printed tax by one cent. `BillingCalculator.LineTotalNearParts` bounds the
  difference; `BillingCalculator.LineTotalNotSumOfParts` exhibits it.
- **Gate-pass counters are not durable.** They live only in memory and start
  empty in the constructor (`logic/invoice_manager.py:25`).
- **Invoice numbers are the highest stored number plus one.** A removed or
  foreign number is never refilled; numbers are not compacted.

## Model

| member | source | states |
|---|---|---|
| BillingCalculator.ExactLine | AVBilling/logic/billing_calculator.py:16-22 | the exact taxable base is never negative. It is the subtotal minus the discount unless clamped to 0, and the exact total is taxable plus tax |
| BillingCalculator.CalculateLineTotal | AVBilling/logic/billing_calculator.py:11-29 | each of the five figures is the half-up rounding to the cent of the matching exact figure, and the taxable figure is never negative |
| BillingCalculator.LineDiscountOverHundred | AVBilling/logic/billing_calculator.py:17-28 | a discount of 100% or more on a non-negative subtotal gives taxable, tax and total 0, with a discount at least the subtotal |
| BillingCalculator.RoundMonotone | AVBilling/utils/helpers.py:92-93 | half-up rounding to the cent is monotone |
| BillingCalculator.RoundSumNear | AVBilling/utils/helpers.py:92-93 | the rounded sum of two amounts is within one cent of the sum of their roundings |
| BillingCalculator.LineTotalNearParts | AVBilling/logic/billing_calculator.py:22-28 | a line's rounded total is within one cent of its rounded taxable plus its rounded tax |
| BillingCalculator.LineTotalNotSumOfParts | AVBilling/logic/billing_calculator.py:22-28 | quantity 1 at rate 0.125 with 20% tax prints taxable 0.13, tax 0.03 and total 0.15, so the total is not taxable plus tax |
| BillingCalculator.LineOf | AVBilling/logic/billing_calculator.py:38-43 | every figure of an item's line is a whole number of cents |
| BillingCalculator.LineOfMissingAmount | AVBilling/logic/billing_calculator.py:38-43 | an item without a quantity or a rate contributes a line of zeros |
| BillingCalculator.WholeLineIsExact | AVBilling/logic/billing_calculator.py:24-28 | when every exact figure of a line is already in cents, rounding leaves the line unchanged |
| BillingCalculator.InvoiceTotals | AVBilling/logic/billing_calculator.py:32-53 | invoice totals are whole numbers of cents |
| BillingCalculator.InvoiceTotalsAppend | AVBilling/logic/billing_calculator.py:37-47 | the totals of two item lists joined are the sums of their separate totals (sum of rounded lines, not a rounded sum) |
| BillingCalculator.InvoiceTotalsSingle | AVBilling/logic/billing_calculator.py:37-53 | the totals of a single item are that item's rounded line figures |
| BillingCalculator.CalculateInvoiceTotals | AVBilling/logic/billing_calculator.py:32-53 | the loop's sums, quantized at the end, equal the element-wise sum of the rounded lines |
| BillingCalculator.WorkedExample | AVBilling/logic/billing_calculator.py:11-53 | items (2 at 50, 5% tax) and (1 at 100, 10% off, 5% tax) total subtotal 200, discount 10, tax 9.50, total 199.50 |
| Helpers.QuantizeMoney | AVBilling/utils/helpers.py:92-93 | the result is the cent nearest the input, with ties rounded away from zero |
| Helpers.RoundsHalfUpUnique | AVBilling/utils/helpers.py:92-93 | half-up rounding to the cent has only one possible result |
| Helpers.QuantizeIdempotent | AVBilling/utils/helpers.py:92-93 | an amount already in cents is unchanged by quantizing |
| Helpers.QuantizeHalves | AVBilling/utils/helpers.py:92-93 | 10.005 becomes 10.01, -0.005 becomes -0.01, 2.675 becomes 2.68 and 0.125 becomes 0.13 (half-up, not banker's rounding) |
| Helpers.CentsSum | AVBilling/logic/billing_calculator.py:44-52 | a sum of two amounts in cents is in cents |
| Helpers.ToDecimalOfNumeral | AVBilling/utils/helpers.py:86-90 | a zero-padded numeral converts to its number |
| Helpers.ToDecimalOfLiteral | AVBilling/utils/helpers.py:86-90 | a literal with optional sign, digits, a dot and a fractional part converts to the signed value it denotes |
| Helpers.ToDecimalNegativeFraction | AVBilling/utils/helpers.py:86-90 | "-12.50" converts to -12.5 |
| Helpers.ToDecimalNotANumber | AVBilling/utils/helpers.py:86-90 | text without a digit does not parse, and converts to 0 |
| Helpers.MaxSuffixIsMax | AVBilling/utils/helpers.py:75-82 | the running maximum bounds every suffix that parses. It is 0 or the suffix of some id |
| Helpers.MaxSuffixPair | AVBilling/utils/helpers.py:76-80 | of two parsed suffixes, the larger is the maximum |
| Helpers.NewSuffixIsFresh | AVBilling/utils/helpers.py:74-83 | an id whose suffix exceeds the maximum is not among the existing ids |
| Helpers.NextSequence | AVBilling/utils/helpers.py:74-83 | the result is the prefix, then the maximum suffix plus one, zero-padded to the width |
| Helpers.NextSequenceNoMatches | AVBilling/utils/helpers.py:75-83 | with no matching id the maximum is 0 and the number padded to width 3 is "001" |
| Helpers.ReplacePrefixReads | AVBilling/utils/helpers.py:77-79 | for a prefix that is not all digits, an id built from the prefix and a padded number reads back as that number |
| Helpers.NextSequenceFresh | AVBilling/utils/helpers.py:74-83 | for a prefix that is not all digits, the next id reads back as max+1 and is not an existing id |
| Helpers.NextSequenceRepeatsWithDigitPrefix | AVBilling/utils/helpers.py:79-83 | with prefix "1" and existing id "1001", the maximum is 0 and the next id is "1001" again |
| Helpers.NextSequenceCorrectedFresh | AVBilling/utils/helpers.py:74-83 | stripping only the leading prefix, the next id reads back as max+1 and is never an existing id, whatever the prefix |
| Helpers.MonthKey | AVBilling/utils/helpers.py:66-71 | the key is "" exactly when the text is not a valid "%Y-%m-%d" date. Otherwise it has the shape "YYYY-MM" |
| Helpers.MonthKeyOfDate | AVBilling/utils/helpers.py:66-71 | the key of a printed date is its year and month |
| Helpers.MonthKeySameMonth | AVBilling/utils/helpers.py:66-71 | two dates get the same key if and only if they share year and month |
| Helpers.MonthKeyOfPieces | AVBilling/utils/helpers.py:66-71 | a year, month and day text gets its "YYYY-MM" key when the date exists, else "" |
| Helpers.MonthKeyNonexistentDay | AVBilling/utils/helpers.py:66-71 | "2023-02-29" is not a date and gets the key "" |
| Helpers.MonthKeyShortMonth | AVBilling/utils/helpers.py:68-69 | the unpadded "2024-1-5" parses and gets the key "2024-01" |
| Helpers.MonthKeyTrailingText | AVBilling/utils/helpers.py:66-71 | trailing text and the empty string get the key "" |
| Dates.ParseIso | AVBilling/utils/helpers.py:68-68 | whatever parses is a valid calendar date |
| Dates.ParseFormatIso | AVBilling/utils/helpers.py:68-69 | parsing a printed valid date gives it back |
| Dates.ParseIsoPieces | AVBilling/utils/helpers.py:68-68 | a year, month and day text parses to that date exactly when the date exists |
| Dates.FormatYearMonthInjective | AVBilling/utils/helpers.py:69-69 | distinct year-month pairs print distinct keys |
| PyStrings.ZeroPad | AVBilling/utils/helpers.py:83-83 | `zfill` gives all digits, pads to the width and never truncates: the number's digits end the result |
| PyStrings.ZeroPadValue | AVBilling/utils/helpers.py:83-83 | a zero-padded numeral has the value of its number |
| PyStrings.ParseIntZeroPad | AVBilling/utils/helpers.py:79-83 | `int` of a zero-padded numeral gives the number back |
| PyStrings.NatToStringRoundTrip | AVBilling/utils/helpers.py:83-83 | `str` of a number reads back as that number |
| PyStrings.NatToStringInjective | AVBilling/config/defaults.py:83-84 | distinct numbers print differently |
| PyStrings.StripBlankIff | AVBilling/utils/validators.py:10-10 | `strip` gives "" exactly when every character is whitespace. Otherwise the result starts and ends with non-space |
| PyStrings.LastSegment | AVBilling/logic/invoice_manager.py:42-42 | `split("/")[-1]` is the suffix after the last "/", and contains no "/" |
| PyStrings.LastSegmentAfter | AVBilling/logic/invoice_manager.py:42-42 | the last segment of a text ending in "/" followed by slash-free text is that text |
| PyStrings.RemoveSeparators | AVBilling/logic/invoice_manager.py:65-65 | removing "-" from "YYYY-MM-DD"-style digit groups joins the groups |
| Validators.IsNonEmpty | AVBilling/utils/validators.py:9-10 | a text is non-empty exactly when it has a non-whitespace character |
| Validators.IsPositiveNumberMeaning | AVBilling/utils/validators.py:13-17 | a value passes when it is a number or a numeric text whose value is at least 0. Zero passes and negatives fail |
| Validators.ValidateCustomerOnlyIdAndName | AVBilling/utils/validators.py:20-22 | the verdict depends only on the id and name keys, and passing requires both |
| Validators.ValidateProductDefaultsAndRates | AVBilling/utils/validators.py:25-29 | a missing tax rate or stock defaults to 0 and passes. The per-weight rate keys are not checked |
| Validators.ValidateProductRefusesNegatives | AVBilling/utils/validators.py:25-29 | a negative tax rate or stock fails validation |
| Validators.ValidateInvoice | AVBilling/utils/validators.py:32-39 | an invoice passes exactly when its number and date have non-space text and it has items |
| Defaults.CurrentFinancialYear | AVBilling/config/defaults.py:78-84 | January to March belong to the year that started in the previous April; April onward starts a new one |
| Defaults.SameFinancialYear | AVBilling/config/defaults.py:78-84 | two days share a label exactly when they share a financial-year start |
| Defaults.FinancialYearSpan | AVBilling/config/defaults.py:78-84 | April of one year to March of the next carry the same label |
| Defaults.LabelInjective | AVBilling/config/defaults.py:83-84 | distinct start years give distinct labels |
| InvoiceManager.DefaultDateGateKey | AVBilling/logic/invoice_manager.py:60-65 | a date defaulted to today, with its dashes removed, is the day a defaulted gate pass is counted under |
| InvoiceManager.IndexOfNumber | AVBilling/logic/invoice_manager.py:85-86 | the position is that of the first invoice with the number; None exactly when no invoice has it |
| InvoiceManager.Ledger.constructor | AVBilling/logic/invoice_manager.py:19-25 | the ledger holds the loaded invoices of its year and no gate-pass counters |
| InvoiceManager.Ledger.List | AVBilling/logic/invoice_manager.py:31-32 | the result is the stored invoices |
| InvoiceManager.Ledger.NextInvoiceNumber | AVBilling/logic/invoice_manager.py:34-46 | the number is the year prefix plus the highest stored number plus one, padded to 4 digits |
| InvoiceManager.Ledger.NextGatePassNumber | AVBilling/logic/invoice_manager.py:48-55 | the number is the day's counter plus one; only that day's counter advances and the invoices are unchanged |
| InvoiceManager.Ledger.AssignInvoiceNumber | AVBilling/logic/invoice_manager.py:62-63 | a blank number is replaced by the next number, and a given one is kept |
| InvoiceManager.Ledger.AssignGatePass | AVBilling/logic/invoice_manager.py:64-65 | a blank gate pass takes the next number of the invoice's day and advances that counter. A given one changes nothing |
| InvoiceManager.Ledger.CreateInvoice | AVBilling/logic/invoice_manager.py:57-81 | the stored invoice has a settled date, numbers and status and recomputed totals. It is appended and returned exactly when it validates. Gate-pass counters advance even when it does not |
| InvoiceManager.Ledger.UpdateStatus | AVBilling/logic/invoice_manager.py:83-90 | only the first invoice with the number gets the new status. The result says whether one existed, and nothing else changes |
| InvoiceManager.InvoiceNumberReads | AVBilling/logic/invoice_manager.py:40-46 | a generated number reads back as its numeral |
| InvoiceManager.NumberAboveMaxFresh | AVBilling/logic/invoice_manager.py:34-46 | a number above the stored maximum is not already used |
| InvoiceManager.NextNumberFresh | AVBilling/logic/invoice_manager.py:34-46 | the next invoice number is never a number already in the ledger |
| InvoiceManager.FirstInvoiceNumber | AVBilling/logic/invoice_manager.py:36-46 | the first number of a year is "<FY>/INV/0001" |
| InvoiceManager.NextNumberAfterGap | AVBilling/logic/invoice_manager.py:38-46 | after numbers a and b with a <= b, the next is b+1, gaps below b stay unfilled |
| InvoiceManager.ForeignNumbersSkipped | AVBilling/logic/invoice_manager.py:40-45 | a number of another year or with a non-numeric tail does not move the maximum |
| InvoiceManager.GatePassLabelInjective | AVBilling/logic/invoice_manager.py:53-55 | one day's gate-pass numbers are distinct for distinct counts |
| InvoiceManager.CompleteIgnoresCallerTotals | AVBilling/logic/invoice_manager.py:68-73 | caller-supplied totals do not affect the stored invoice, whose totals are in cents |
| Collections.FindFirst | AVBilling/logic/customer_manager.py:23-26 | the scan returns the first position that matches, or None when none does |
| Collections.FilterKeepsAllIff | AVBilling/logic/customer_manager.py:48-50 | the filtered list has the original length exactly when every element is kept, and is then the original list |
| CustomerManager.IndexOfId | AVBilling/logic/customer_manager.py:22-26 | the position is that of the first customer with the id; None exactly when none has it |
| CustomerManager.IndexOfName | AVBilling/logic/customer_manager.py:28-33 | the position is that of the first customer whose normalised name is the key; None exactly when none matches |
| CustomerManager.CustomerRegistry.constructor | AVBilling/logic/customer_manager.py:14-17 | the registry holds the loaded customers |
| CustomerManager.CustomerRegistry.List | AVBilling/logic/customer_manager.py:19-20 | the result is the stored customers |
| CustomerManager.CustomerRegistry.FindById | AVBilling/logic/customer_manager.py:22-26 | the result is the first customer with the id, or None |
| CustomerManager.CustomerRegistry.FindByName | AVBilling/logic/customer_manager.py:28-33 | the result is the first customer whose stripped, lower-cased name equals the stripped, lower-cased query, or None |
| CustomerManager.CustomerRegistry.AddOrUpdate | AVBilling/logic/customer_manager.py:35-44 | an invalid record changes nothing. A valid one is merged into the first customer with its id, or appended |
| CustomerManager.CustomerRegistry.Delete | AVBilling/logic/customer_manager.py:46-53 | every customer with the id is removed and the order is kept. The result says whether any existed |
| CustomerManager.CustomerRegistry.UpdateTotalsFromInvoices | AVBilling/logic/customer_manager.py:55-69 | each customer gets the number of invoices carrying its id and the sum of their grand totals. Nothing else changes |
| CustomerManager.UpsertKeepsNamesText | AVBilling/logic/customer_manager.py:38-42 | an upsert keeps every stored name a text |
| CustomerManager.MergeKeepsAndOverwrites | AVBilling/logic/customer_manager.py:39-40 | a merge keeps the old keys, adds the new ones and lets the incoming values win |
| CustomerManager.UpsertTwice | AVBilling/logic/customer_manager.py:38-42 | upserting the same record twice is the same as once. The list grows by at most one |
| CustomerManager.DeleteNothing | AVBilling/logic/customer_manager.py:48-50 | deleting an id nobody has leaves the list unchanged |
| CustomerManager.TallyAppend | AVBilling/logic/customer_manager.py:57-63 | counts and amounts over joined invoice lists add up |
| CustomerManager.TallyNone | AVBilling/logic/customer_manager.py:58-66 | a blank id or an id without invoices gets 0 purchases and 0 amount |
| CustomerManager.PurchasesBound | AVBilling/logic/customer_manager.py:57-62 | a customer's purchases never exceed the number of invoices |
| CustomerManager.TallyExample | AVBilling/logic/customer_manager.py:55-69 | two invoices of 100 and 50 give 2 purchases and 150 |
| ProductManager.IndexOfCode | AVBilling/logic/product_manager.py:22-27 | the position is that of the first product whose normalised code is the key; None exactly when none matches |
| ProductManager.IndexOfName | AVBilling/logic/product_manager.py:29-34 | the position is that of the first product whose normalised name is the key; None exactly when none matches |
| ProductManager.ProductCatalog.constructor | AVBilling/logic/product_manager.py:14-17 | the catalog holds the loaded products |
| ProductManager.ProductCatalog.List | AVBilling/logic/product_manager.py:19-20 | the result is the stored products |
| ProductManager.ProductCatalog.FindByCode | AVBilling/logic/product_manager.py:22-27 | the result is the first product whose stripped, lower-cased code equals the stripped, lower-cased query, or None |
| ProductManager.ProductCatalog.FindByName | AVBilling/logic/product_manager.py:29-34 | the result is the first product whose stripped, lower-cased name equals the stripped, lower-cased query, or None |
| ProductManager.ProductCatalog.AddOrUpdate | AVBilling/logic/product_manager.py:36-45 | an invalid record changes nothing. A valid one is merged into the first product with the same normalised code, or appended |
| ProductManager.ProductCatalog.Delete | AVBilling/logic/product_manager.py:47-54 | every product whose code is exactly the text is removed and the order is kept. The result says whether any existed |
| ProductManager.UpsertKeepsFieldsText | AVBilling/logic/product_manager.py:39-43 | an upsert keeps every stored code and name a text |
| ProductManager.UpsertTwice | AVBilling/logic/product_manager.py:39-43 | upserting the same product twice is the same as once. The list grows by at most one |
| ProductManager.UpsertTwiceMerged | AVBilling/logic/product_manager.py:39-41 | a product already present is merged in place, and a second merge changes nothing |
| ProductManager.UpsertTwiceAppended | AVBilling/logic/product_manager.py:42-43 | a new product is appended, and a second upsert changes nothing |
| ProductManager.UpsertRewritesCode | AVBilling/logic/product_manager.py:39-41 | a matching product takes the incoming code spelling and keeps its other keys |
| ProductManager.DeleteIsExact | AVBilling/logic/product_manager.py:22-49 | delete compares codes exactly, unlike lookup: a product whose code differs from the text only in case or spaces is kept |
| ProductManager.DeleteNothing | AVBilling/logic/product_manager.py:48-50 | deleting a code nobody has leaves the list unchanged |
| ReportGenerator.RoundCents | AVBilling/logic/report_generator.py:33-33 | the result is a cent nearest the input |
| ReportGenerator.KeysOfIff | AVBilling/logic/report_generator.py:28-31 | a key appears in a grouping exactly when some element maps to it, exactly when its count is positive |
| ReportGenerator.SumOfAbsent | AVBilling/logic/report_generator.py:28-32 | an absent key's sum is 0 |
| ReportGenerator.SumOfAppend | AVBilling/logic/report_generator.py:29-32 | per-key sums over joined lists add up |
| ReportGenerator.MonthlySummary | AVBilling/logic/report_generator.py:27-33 | there is one row per month key present. It holds that month's invoice count and its revenue to the nearest cent. No invoices give no rows |
| ReportGenerator.GroupTotals | AVBilling/logic/report_generator.py:28-32 | the loop builds, for each key present, the count and the exact sum |
| ReportGenerator.AddToGroup | AVBilling/logic/report_generator.py:30-32 | one step adds one element to its key's count and sum |
| ReportGenerator.RoundMonths | AVBilling/logic/report_generator.py:33-33 | rounding keeps the keys and counts, and each revenue goes to a nearest cent |
| ReportGenerator.UnparseableDateUnderBlank | AVBilling/logic/report_generator.py:30-31 | an invoice with an unparseable date is counted under the key "" |
| ReportGenerator.MonthCountsSumToTotal | AVBilling/logic/report_generator.py:31-31 | the monthly counts add up to the number of invoices |
| ReportGenerator.SalesPerProduct | AVBilling/logic/report_generator.py:35-48 | there is one row per product key of any line. It holds the quantity, revenue and tax of that key's lines, each to the nearest cent |
| ReportGenerator.AddItems | AVBilling/logic/report_generator.py:38-43 | adding an invoice's items keeps the map equal to the per-key tallies of all lines seen |
| ReportGenerator.AddItem | AVBilling/logic/report_generator.py:39-43 | adding one line keeps the map equal to the per-key tallies |
| ReportGenerator.RoundAll | AVBilling/logic/report_generator.py:44-47 | rounding keeps the keys, and each figure goes to a nearest cent |
| ReportGenerator.TallyAppend | AVBilling/logic/report_generator.py:40-43 | per-product tallies over joined line lists add up |
| ReportGenerator.BlankNameIsNotReplaced | AVBilling/logic/report_generator.py:39-39 | a present but empty product name is the key; the code is used only when the name key is missing |

## Left out

- Floating point: `float(...)` conversions and float sums are modelled as exact
  reals. On amounts in cents, a float's representation error is far below the
  rounding step.
- The `Decimal` context: precision and traps are not modelled. `Decimal` results
  are exact reals.
- ReportGenerator.MonthlySummary, ReportGenerator.SalesPerProduct,
  ReportGenerator.RoundAll, ReportGenerator.RoundMonths and
  ReportGenerator.RoundCents state only that each rounded figure is a nearest
  cent. The tie rule of Python's `round` on binary floats is not stated, because
  it depends on the float's binary representation.
- CustomerManager.CustomerRegistry.UpdateTotalsFromInvoices stores the exact
  summed amount and does not model `round(..., 2)`. On grand totals in cents
  that rounding is the identity (`Helpers.QuantizeIdempotent`, `Helpers.CentsSum`).
- Files: `read_json` and `write_json` are not modelled. A manager's saved
  document is its in-memory list after each method. Crash safety of the writes
  is not modelled.
- Concurrency: the `RLock` sections of the ledger are not modelled. Each method
  runs atomically here.
- The clock: `date.today()` is the `Clock` parameter, and
  `current_financial_year` takes the year and month as arguments.
- Python text details outside the core's inputs are not modelled:
  - Unicode case folding beyond ASCII, and whitespace beyond the listed code
    points;
  - digit-group underscores (`"1_0"`), which `int()`, `float()` and `Decimal()`
    all accept;
  - non-ASCII decimal digits, which `int()`, `float()`, `Decimal()` and the
    `%Y`/`%m`/`%d` directives of `strptime` all accept;
  - decimal exponents, `inf` and `nan`;
  - `strptime` years below 1000 and other directive details.
- Validators.IsPositiveNumber and Helpers.ToDecimal read only ASCII literals
  without underscores. `is_positive_number("1_0")` is true in Python and false
  in the model.
- BillingCalculator.LineOf and InvoiceManager.Ledger.CreateInvoice take every
  item figure as a number or as absent. `float(item.get(...))` also accepts
  numeric text such as "2" and raises on other text or on JSON null. That
  exception escapes `create_invoice` after the gate-pass counter has advanced,
  so no invoice is stored but the counter has moved on. Neither the text
  figures nor the raising path are modelled.
- Record values are text or numbers only; JSON null and booleans are not
  modelled. In Python, `validate_customer` turns a `None` id or name into the
  text "None" and accepts it.
- Aliasing: `find_by_id`, `find_by_code` and `find_by_name` return the live dict.
  The model returns a copy of the record.
- Invalid stored records: a name or code that is not text makes Python raise on
  `.strip()`. The model excludes those records with the `Valid` class
  invariants. `str(value)` on numeric customer ids and names is modelled as
  "numbers pass".
- Invoice payload keys other than the modelled fields are not carried over.
  The ledger document is a list of invoices, not the dict that holds it.
- The Excel and PDF exports of the report generator, and the UI, are not part
  of this model.

## Findings

| source | as written | input that shows it | evidently intended | confidence | as-written member | corrected member |
|---|---|---|---|---|---|---|
| AVBilling/utils/helpers.py:79 | `eid.replace(prefix, "")` deletes every occurrence of the prefix, including ones inside the number | prefix "1" with existing id "1001": the suffix reads as 0, so the next id is "1001", which already exists | strip only the leading prefix, so the next id is always fresh | not executed | Helpers.NextSequenceRepeatsWithDigitPrefix | Helpers.NextSequenceCorrectedFresh |
