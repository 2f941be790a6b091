/** The records the core passes around, and the text/number primitives of the
    `utils` module, which is not part of this model and is taken as given. */
module Records {
  import opened Common

  /** One OCR field: declared type, label and value text. A missing type,
      label or value is the empty string, as the `or ""` coercions make it. */
  datatype Field = Field(typeText: string, labelText: string, valueText: string)

  /** A resolved line item: raw strings, each possibly absent. */
  datatype LineItem = LineItem(
    description: Option<string>,
    quantity: Option<string>,
    unitPrice: Option<string>,
    amount: Option<string>)

  /** An ExpenseDocument, and also a merged invoice (same shape). */
  datatype Invoice = Invoice(
    invoiceNumber: Option<string>,
    invoiceDate: Option<string>,
    total: Option<string>,
    paymentTerms: Option<string>,
    lineItems: seq<LineItem>)

  /** `any(x.values())` for a line-item record. */
  predicate HasContent(li: LineItem) {
    Truthy(li.description) || Truthy(li.quantity) || Truthy(li.unitPrice) || Truthy(li.amount)
  }

  /** The `utils` primitives the core calls. They are deterministic functions
      of their arguments; nothing else is known of them. */
  datatype Utils = Utils(
    cleanText: Option<string> -> Option<string>,                  // clean_text
    toDecimal: Option<string> -> Option<real>,                    // to_decimal_maybe
    toQuantity: Option<string> -> Option<real>,                   // to_decimal_qty
    isCurrencyLike: Option<string> -> bool,                       // is_currency_like
    computeAmount: (Option<string>, Option<string>) -> Option<real>, // compute_amount_if_missing
    format: real -> string)                                       // f"{d}" of a Decimal

  /** A compiled regular expression, as the `search` test it performs. */
  type Pattern = string -> bool

  /** Some pattern of the list finds a match in `s`. */
  function AnyMatch(rxs: seq<Pattern>, s: string): (r: bool)
    ensures r <==> exists k :: 0 <= k < |rxs| && rxs[k](s)
  {
    if rxs == [] then false else rxs[0](s) || AnyMatch(rxs[1..], s)
  }
}
