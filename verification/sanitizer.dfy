/** `sanitize_line_items`: drops summary and heading rows, turns the cleaned
    strings into numbers, repairs a zero quantity, infers a missing quantity
    and drops rows left with nothing in them. */
module Sanitizer {
  import opened Common
  import opened Decimal
  import opened Records

  // ----------------------------------------------------------- SUMMARY_RX

  /** Python's `\w` on ASCII text. */
  predicate IsWordChar(c: char) {
    'a' <= c <= 'z' || 'A' <= c <= 'Z' || '0' <= c <= '9' || c == '_'
  }

  /** What is left of the text once the literal `w` has been matched at its
      start, or nothing when it does not start with `w`. */
  function Lit(o: Option<string>, w: string): (r: Option<string>)
    ensures r.Some? ==> o.Some? && o.value == w + r.value
    ensures o.Some? && w <= o.value ==> r.Some?
  {
    if o.Some? && w <= o.value then
      assert o.value == w + o.value[|w|..];
      Some(o.value[|w|..])
    else None
  }

  /** `\s*` in front of a letter: all the leading whitespace is consumed. */
  function Spaces(o: Option<string>): Option<string> {
    if o.Some? then Some(TrimLeft(o.value)) else None
  }

  /** The match got this far and stops at a word boundary (`\b` after a
      word character, and equally `(?!\w)`). */
  predicate WordEnd(o: Option<string>) {
    o.Some? && (o.value == [] || !IsWordChar(o.value[0]))
  }

  /** `SUMMARY_RX.search(desc)` for
      `^\s*(sub\s*total|subtotal|total(?!\s*fee)|tax|vat|discount|fee\s*discount|total\s*fees(?!\w)|total\s*disbursements(?!\w))\b`
      under IGNORECASE. Every alternative begins with a letter, so `^\s*`
      consumes exactly the leading whitespace. */
  predicate SummaryRow(desc: string) {
    SummaryHead(TrimLeft(Lower(desc)))
  }

  /** The alternatives and the closing `\b`, on lower-cased text that
      starts with no whitespace. Each inner `\s*` stands before a letter as
      well, so it too has one way to match. */
  predicate SummaryHead(s: string) {
    var r := Some(s);
    var total := Lit(r, "total");
    WordEnd(Lit(Spaces(Lit(r, "sub")), "total"))
    || WordEnd(Lit(r, "subtotal"))
    || (WordEnd(total) && Lit(Spaces(total), "fee").None?)
    || WordEnd(Lit(r, "tax"))
    || WordEnd(Lit(r, "vat"))
    || WordEnd(Lit(r, "discount"))
    || WordEnd(Lit(Spaces(Lit(r, "fee")), "discount"))
    || WordEnd(Lit(Spaces(total), "fees"))
    || WordEnd(Lit(Spaces(total), "disbursements"))
  }

  /** `w` does not start `s` when they differ at some position. */
  lemma Mismatch(s: string, w: string, i: nat)
    requires i < |w| && i < |s| && w[i] != s[i]
    ensures Lit(Some(s), w).None?
  {
    if |w| <= |s| {
      assert s[..|w|][i] != w[i];
    }
  }

  /** Text that starts with a letter has no leading whitespace. */
  lemma LetterFirst(s: string)
    requires s != [] && 'a' <= s[0] <= 'z'
    ensures TrimLeft(s) == s
  {
  }

  /** A leading blank is stripped. */
  lemma BlankFirst(s: string)
    requires s != [] && s[0] == ' '
    ensures TrimLeft(s) == TrimLeft(s[1..])
  {
  }

  /** "Subtotal" is a summary row. */
  lemma SubtotalDropped()
    ensures SummaryRow("Subtotal")
  {
    assert Lower("Subtotal") == "subtotal";
    LetterFirst("subtotal");
    assert Lit(Some("subtotal"), "subtotal") == Some([]);
  }

  lemma TaxText()
    ensures TrimLeft(Lower("  TAX")) == "tax"
  {
    assert Lower("  TAX") == "  tax";
    BlankFirst("  tax");
    assert "  tax"[1..] == " tax";
    BlankFirst(" tax");
    assert " tax"[1..] == "tax";
    LetterFirst("tax");
  }

  /** "  TAX" is a summary row: leading whitespace and case do not matter. */
  lemma TaxDropped()
    ensures SummaryRow("  TAX")
  {
    TaxText();
    assert Lit(Some("tax"), "tax") == Some([]);
  }

  lemma TotalFeesText()
    ensures TrimLeft(Lower("Total Fees")) == "total fees"
    ensures TrimLeft(" fees") == "fees"
  {
    assert Lower("Total Fees") == "total fees";
    LetterFirst("total fees");
    BlankFirst(" fees");
    assert " fees"[1..] == "fees";
    LetterFirst("fees");
  }

  /** "Total Fees" is a summary row. */
  lemma TotalFeesDropped()
    ensures SummaryRow("Total Fees")
  {
    TotalFeesText();
    assert Lit(Some("total fees"), "total") == Some(" fees");
    assert Lit(Some("fees"), "fees") == Some([]);
  }

  lemma TotalFeeText()
    ensures TrimLeft(Lower("Total Fee")) == "total fee"
    ensures TrimLeft(" fee") == "fee"
  {
    assert Lower("Total Fee") == "total fee";
    LetterFirst("total fee");
    BlankFirst(" fee");
    assert " fee"[1..] == "fee";
    LetterFirst("fee");
  }

  lemma TotalFeeAlternatives()
    ensures Lit(Some("total fee"), "total") == Some(" fee")
    ensures Lit(Some("fee"), "fee") == Some([])
    ensures Lit(Some("fee"), "fees").None? && Lit(Some("fee"), "disbursements").None?
    ensures var r := Some("total fee");
      Lit(r, "sub").None? && Lit(r, "subtotal").None? && Lit(r, "tax").None? && Lit(r, "vat").None?
      && Lit(r, "discount").None? && Lit(r, "fee").None?
  {
    Mismatch("total fee", "sub", 0);
    Mismatch("total fee", "subtotal", 0);
    Mismatch("total fee", "tax", 1);
    Mismatch("total fee", "vat", 0);
    Mismatch("total fee", "discount", 0);
    Mismatch("total fee", "fee", 0);
    Mismatch("fee", "disbursements", 0);
  }

  /** "Total Fee" is kept: the lookahead after "total" rejects it and
      "fees" needs the plural. */
  lemma TotalFeeKept()
    ensures !SummaryRow("Total Fee")
  {
    TotalFeeText();
    TotalFeeAlternatives();
  }

  lemma TotalsAlternatives()
    ensures Lit(Some("totals"), "total") == Some("s")
    ensures Lit(Some("s"), "fees").None? && Lit(Some("s"), "disbursements").None?
    ensures var r := Some("totals");
      Lit(r, "sub").None? && Lit(r, "subtotal").None? && Lit(r, "tax").None? && Lit(r, "vat").None?
      && Lit(r, "discount").None? && Lit(r, "fee").None?
  {
    Mismatch("totals", "sub", 0);
    Mismatch("totals", "tax", 1);
    Mismatch("totals", "vat", 0);
    Mismatch("totals", "discount", 0);
    Mismatch("totals", "fee", 0);
    Mismatch("s", "fees", 0);
    Mismatch("s", "disbursements", 0);
  }

  /** "Totals" is kept: no word boundary after "total". */
  lemma TotalsKept()
    ensures !SummaryRow("Totals")
  {
    assert Lower("Totals") == "totals";
    LetterFirst("totals");
    LetterFirst("s");
    TotalsAlternatives();
  }

  lemma TaxiAlternatives()
    ensures Lit(Some("taxi"), "tax") == Some("i")
    ensures var r := Some("taxi");
      Lit(r, "sub").None? && Lit(r, "subtotal").None? && Lit(r, "total").None? && Lit(r, "vat").None?
      && Lit(r, "discount").None? && Lit(r, "fee").None?
  {
    Mismatch("taxi", "sub", 0);
    Mismatch("taxi", "total", 1);
    Mismatch("taxi", "vat", 0);
    Mismatch("taxi", "discount", 0);
    Mismatch("taxi", "fee", 0);
  }

  /** "Taxi" is kept: no word boundary after "tax". */
  lemma TaxiKept()
    ensures !SummaryRow("Taxi")
  {
    assert Lower("Taxi") == "taxi";
    LetterFirst("taxi");
    TaxiAlternatives();
  }

  lemma TaxiFareAlternatives()
    ensures Lit(Some("taxi fare"), "tax") == Some("i fare")
    ensures var r := Some("taxi fare");
      Lit(r, "sub").None? && Lit(r, "subtotal").None? && Lit(r, "total").None? && Lit(r, "vat").None?
      && Lit(r, "discount").None? && Lit(r, "fee").None?
  {
    Mismatch("taxi fare", "sub", 0);
    Mismatch("taxi fare", "subtotal", 0);
    Mismatch("taxi fare", "total", 1);
    Mismatch("taxi fare", "vat", 0);
    Mismatch("taxi fare", "discount", 0);
    Mismatch("taxi fare", "fee", 0);
  }

  /** "Taxi fare" is kept: the word after "tax" goes on. */
  lemma TaxiFareKept()
    ensures !SummaryRow("Taxi fare")
  {
    assert Lower("Taxi fare") == "taxi fare";
    LetterFirst("taxi fare");
    TaxiFareAlternatives();
  }

  // ------------------------------------------------------------- one row

  /** A sanitised row: the cleaned description and the parsed numbers. */
  datatype CleanItem = CleanItem(
    description: Option<string>,
    quantity: Option<real>,
    unitPrice: Option<real>,
    amount: Option<real>)

  /** `not d` for an optional Decimal: absent or zero. */
  predicate Falsy(d: Option<real>) {
    d.None? || d.value == 0.0
  }

  /** `x` lies within 0.001 of an integer: of its floor or of the next one. */
  predicate NearInteger(x: real) {
    x - x.Floor as real <= 0.001 || (x.Floor + 1) as real - x <= 0.001
  }

  /** `to_integral_value()` lands within 0.001 of `x` exactly when some
      integer does. */
  lemma NearIntegerIsNearItsRounding(x: real)
    ensures NearInteger(x) <==> Abs(x - ToIntegral(x)) <= 0.001
  {
    var n := ToIntegral(x);
    var f := x.Floor as real;
    assert n == f || n == f + 1.0 by {
      assert f <= x < f + 1.0;
      assert n.Floor as real == n;
    }
  }

  /** `(amt / price).quantize(Decimal("0.001"))`, snapped to the integer
      when it lies within 0.001 of `to_integral_value()`. */
  function InferredQuantity(amount: real, price: real): (q: real)
    requires price != 0.0
    ensures Abs(q - amount / price) <= 0.0015
    ensures q == Mils(amount / price) || q.Floor as real == q
    ensures NearInteger(Mils(amount / price)) ==> q.Floor as real == q && Abs(q - Mils(amount / price)) <= 0.001
    ensures !NearInteger(Mils(amount / price)) ==> q == Mils(amount / price)
  {
    var q := Mils(amount / price);
    NearIntegerIsNearItsRounding(q);
    if Abs(q - ToIntegral(q)) <= 0.001 then ToIntegral(q) else q
  }

  /** The quantity after the two repairs: a zero quantity next to a
      non-zero amount and no usable price is unknown, and an unknown
      quantity is inferred from a non-zero price and the amount. */
  function RepairQuantity(qty: Option<real>, price: Option<real>, amount: Option<real>): (r: Option<real>)
    ensures amount.None? ==> r == qty
    ensures qty.Some? && qty.value != 0.0 ==> r == qty
    ensures qty.Some? && (Falsy(amount) || !Falsy(price)) ==> r == qty
    ensures qty == Some(0.0) && !Falsy(amount) && Falsy(price) ==> r.None?
    ensures qty.None? && amount.Some? && !Falsy(price) ==> r == Some(InferredQuantity(amount.value, price.value))
    ensures qty.None? && Falsy(price) ==> r.None?
  {
    var q := if qty == Some(0.0) && !Falsy(amount) && Falsy(price) then None else qty;
    if q.None? && amount.Some? && !Falsy(price) then Some(InferredQuantity(amount.value, price.value)) else q
  }

  /** One input row: `None` when it is dropped. */
  function SanitizeRow(u: Utils, it: LineItem): (r: Option<CleanItem>)
    ensures var desc := u.cleanText(it.description);
      var qty := u.cleanText(it.quantity);
      var price := u.cleanText(it.unitPrice);
      var amt := u.cleanText(it.amount);
      var amount := if u.toDecimal(amt).Some? then u.toDecimal(amt) else u.computeAmount(qty, price);
      && (r.None? <==> (Truthy(desc) && SummaryRow(desc.value))
                       || (!Truthy(desc) && u.toQuantity(qty).None? && u.toDecimal(price).None? && amount.None?))
      && (r.Some? ==> r.value.description == desc && r.value.unitPrice == u.toDecimal(price)
                      && r.value.amount == amount
                      && r.value.quantity == RepairQuantity(u.toQuantity(qty), u.toDecimal(price), amount))
  {
    var desc := u.cleanText(it.description);
    var qty := u.cleanText(it.quantity);
    var price := u.cleanText(it.unitPrice);
    var amt := u.cleanText(it.amount);
    if Truthy(desc) && SummaryRow(desc.value) then None
    else
      var priceD := u.toDecimal(price);
      var amtD := if u.toDecimal(amt).Some? then u.toDecimal(amt) else u.computeAmount(qty, price);
      var qtyD := RepairQuantity(u.toQuantity(qty), priceD, amtD);
      if !(Truthy(desc) || qtyD.Some? || priceD.Some? || amtD.Some?) then None
      else Some(CleanItem(desc, qtyD, priceD, amtD))
  }

  /** Quantity example: an amount of 45.00 at a unit price of 15.00 with no
      quantity gives the quantity 3. */
  lemma InferQuantityExample()
    ensures RepairQuantity(None, Some(15.0), Some(45.0)) == Some(3.0)
  {
    assert 45.0 / 15.0 == 3.0;
    RoundHalfEvenUnique(3000.0, 3000);
    assert Mils(3.0) == 3.0;
    RoundHalfEvenUnique(3.0, 3);
    assert ToIntegral(3.0) == 3.0;
  }

  /** Zero-quantity example: a quantity of 0 next to an amount of 12.50 and
      no price is unknown, and stays unknown. */
  lemma ZeroQuantityExample()
    ensures RepairQuantity(Some(0.0), None, Some(12.5)).None?
  {
  }

  // ----------------------------------------------------------- the list

  function RowSanitizer(u: Utils): LineItem -> Option<CleanItem> {
    it => SanitizeRow(u, it)
  }

  /** The sanitised rows, in input order. */
  function Sanitize(u: Utils, items: seq<LineItem>): seq<CleanItem> {
    FilterMap(RowSanitizer(u), items)
  }

  /** The output is an order-preserving selection of the input rows: the
      `j`-th output row is the sanitised `ks[j]`-th input row, the positions
      increase, and a row is kept exactly when it is neither a summary row
      nor left empty. */
  lemma SanitizeKeepsOrder(u: Utils, items: seq<LineItem>)
    ensures var out := Sanitize(u, items);
      var ks := KeptIndices(RowSanitizer(u), items);
      && |out| == |ks|
      && (forall j :: 0 <= j < |ks| ==> ks[j] < |items| && SanitizeRow(u, items[ks[j]]) == Some(out[j]))
      && (forall j, k :: 0 <= j < k < |ks| ==> ks[j] < ks[k])
      && (forall i :: 0 <= i < |items| ==> (i in ks <==> SanitizeRow(u, items[i]).Some?))
  {
    FilterMapSelects(RowSanitizer(u), items);
  }

  /** The body of the loop of `sanitize_line_items` for one row; `None`
      where the loop continues without appending. */
  method CleanRow(u: Utils, it: LineItem) returns (row: Option<CleanItem>)
    ensures row == SanitizeRow(u, it)
  {
    var desc := u.cleanText(it.description);
    var qty := u.cleanText(it.quantity);
    var price := u.cleanText(it.unitPrice);
    var amt := u.cleanText(it.amount);

    // drop summary and heading rows
    if Truthy(desc) && SummaryRow(desc.value) {
      return None;
    }

    var qtyD := u.toQuantity(qty);
    var priceD := u.toDecimal(price);
    var amtD := u.toDecimal(amt);

    // a computed amount only where none was parsed
    if amtD.None? {
      amtD := u.computeAmount(qty, price);
    }

    // a zero quantity beside a real amount and no usable price is unknown
    if qtyD == Some(0.0) && !Falsy(amtD) && Falsy(priceD) {
      qtyD := None;
    }

    // infer a missing quantity from the amount and the price
    if qtyD.None? && amtD.Some? && !Falsy(priceD) {
      var q := Mils(amtD.value / priceD.value);
      if Abs(q - ToIntegral(q)) <= 0.001 {
        q := ToIntegral(q);
      }
      qtyD := Some(q);
    }

    // drop rows with nothing left in them
    if !(Truthy(desc) || qtyD.Some? || priceD.Some? || amtD.Some?) {
      return None;
    }
    row := Some(CleanItem(desc, qtyD, priceD, amtD));
  }

  /** `sanitize_line_items`. */
  method SanitizeLineItems(u: Utils, items: seq<LineItem>) returns (cleaned: seq<CleanItem>)
    ensures cleaned == Sanitize(u, items)
  {
    cleaned := [];
    for i := 0 to |items|
      invariant cleaned == Sanitize(u, items[..i])
    {
      assert items[..i + 1][..i] == items[..i];
      var row := CleanRow(u, items[i]);
      if row.Some? {
        cleaned := cleaned + [row.value];
      }
    }
    assert items[..|items|] == items;
  }
}
