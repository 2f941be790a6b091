/** Normalising Textract Expense output (`parse_expense_documents` in
    expense_parser.py): the four header fields, by declared type first and by
    label second, and one resolved line item per raw line item. */
module HeaderNormalizer {
  import opened Common
  import opened Records
  import opened LineItemResolver

  /** RE_INV_NUM, RE_INV_DATE, RE_TOTAL and RE_TERMS. */
  datatype HeaderLabels = HeaderLabels(
    invoiceNumber: seq<Pattern>,
    invoiceDate: seq<Pattern>,
    total: seq<Pattern>,
    paymentTerms: seq<Pattern>)

  const InvoiceNumberTypes: seq<string> := ["INVOICE_RECEIPT_ID", "INVOICE_NUMBER"]
  const InvoiceDateTypes: seq<string> := ["INVOICE_RECEIPT_DATE", "INVOICE_DATE"]
  const TotalTypes: seq<string> := ["TOTAL", "GRAND_TOTAL"]
  const PaymentTermsTypes: seq<string> := ["PAYMENT_TERMS", "TERMS"]

  /** One ExpenseDocument: its summary fields, and its line-item groups, each
      a list of line items, each a list of fields. */
  datatype RawExpenseDocument = RawExpenseDocument(summaryFields: seq<Field>, lineItemGroups: seq<seq<seq<Field>>>)

  /** The value of the first field of `fs` that `accepts`. */
  function FirstValue(fs: seq<Field>, accepts: Field -> bool): (r: Option<string>)
    ensures r.None? <==> forall i :: 0 <= i < |fs| ==> !accepts(fs[i])
    ensures forall i :: (0 <= i < |fs| && accepts(fs[i]) && (forall j :: 0 <= j < i ==> !accepts(fs[j])))
                        ==> r == Some(fs[i].valueText)
  {
    if fs == [] then None
    else if accepts(fs[0]) then Some(fs[0].valueText)
    else
      var r := FirstValue(fs[1..], accepts);
      assert forall i :: 1 <= i < |fs| ==> fs[i] == fs[1..][i - 1];
      r
  }

  /** A field whose declared type is exactly `typeName` and whose value is not empty. */
  predicate TypedWith(f: Field, typeName: string) {
    f.typeText == typeName && f.valueText != ""
  }

  function TypeTest(typeName: string): Field -> bool {
    f => TypedWith(f, typeName)
  }

  /** `get_summary_value_by_type`: the value of the first field typed
      `typeName` whose value is not empty. */
  function ValueByType(fs: seq<Field>, typeName: string): (r: Option<string>)
    ensures r.None? <==> forall i :: 0 <= i < |fs| ==> !TypedWith(fs[i], typeName)
    ensures forall i :: (0 <= i < |fs| && TypedWith(fs[i], typeName)
                         && (forall j :: 0 <= j < i ==> !TypedWith(fs[j], typeName)))
                        ==> r == Some(fs[i].valueText)
  {
    FirstValue(fs, TypeTest(typeName))
  }

  /** A field with a non-empty stripped label that one of `rxs` matches
      (lower-cased) and a non-empty value. */
  predicate LabelledWith(f: Field, rxs: seq<Pattern>) {
    var lbl := Strip(f.labelText);
    lbl != "" && f.valueText != "" && AnyMatch(rxs, Lower(lbl))
  }

  function LabelTest(rxs: seq<Pattern>): Field -> bool {
    f => LabelledWith(f, rxs)
  }

  /** `get_summary_value_by_label`: the raw value of the first field whose
      label one of the patterns matches. */
  function ValueByLabel(fs: seq<Field>, rxs: seq<Pattern>): (r: Option<string>)
    ensures r.None? <==> forall i :: 0 <= i < |fs| ==> !LabelledWith(fs[i], rxs)
    ensures forall i :: (0 <= i < |fs| && LabelledWith(fs[i], rxs)
                         && (forall j :: 0 <= j < i ==> !LabelledWith(fs[j], rxs)))
                        ==> r == Some(fs[i].valueText)
  {
    FirstValue(fs, LabelTest(rxs))
  }

  /** The first name, in order, for which `lookup` finds a value. */
  function FirstSome(names: seq<string>, lookup: string -> Option<string>): (r: Option<string>)
    ensures r.None? <==> forall k :: 0 <= k < |names| ==> lookup(names[k]).None?
    ensures forall k :: (0 <= k < |names| && lookup(names[k]).Some?
                         && (forall m :: 0 <= m < k ==> lookup(names[m]).None?))
                        ==> r == lookup(names[k])
  {
    if names == [] then None
    else if lookup(names[0]).Some? then lookup(names[0])
    else
      var r := FirstSome(names[1..], lookup);
      assert forall k :: 1 <= k < |names| ==> names[k] == names[1..][k - 1];
      r
  }

  function TypeLookup(fs: seq<Field>): string -> Option<string> {
    t => ValueByType(fs, t)
  }

  /** `sumval(*alts)`: the value of the first type name, in order, that has one. */
  function ValueByTypes(fs: seq<Field>, names: seq<string>): (r: Option<string>)
    ensures r.None? <==> forall k :: 0 <= k < |names| ==> ValueByType(fs, names[k]).None?
    ensures forall k :: (0 <= k < |names| && ValueByType(fs, names[k]).Some?
                         && (forall m :: 0 <= m < k ==> ValueByType(fs, names[m]).None?))
                        ==> r == ValueByType(fs, names[k])
  {
    FirstSome(names, TypeLookup(fs))
  }

  /** `sumval(*names) or get_summary_value_by_label(fields, rxs)`. */
  function HeaderValue(fs: seq<Field>, names: seq<string>, rxs: seq<Pattern>): Option<string> {
    var byType := ValueByTypes(fs, names);
    if byType.Some? then byType else ValueByLabel(fs, rxs)
  }

  /** A header is found by declared type whenever some field carries one of
      the type names with a value, and labels are consulted only otherwise;
      no header is found exactly when neither kind of field exists. */
  lemma HeaderPrefersType(fs: seq<Field>, names: seq<string>, rxs: seq<Pattern>)
    ensures (exists i, k :: 0 <= i < |fs| && 0 <= k < |names| && TypedWith(fs[i], names[k])) ==>
      ValueByTypes(fs, names).Some? && HeaderValue(fs, names, rxs) == ValueByTypes(fs, names)
    ensures (forall i, k :: 0 <= i < |fs| && 0 <= k < |names| ==> !TypedWith(fs[i], names[k])) ==>
      HeaderValue(fs, names, rxs) == ValueByLabel(fs, rxs)
    ensures HeaderValue(fs, names, rxs).None? <==>
      forall i :: 0 <= i < |fs| ==> !LabelledWith(fs[i], rxs) && forall k :: 0 <= k < |names| ==> !TypedWith(fs[i], names[k])
  {
  }

  /** `li_extract` with the document's parsed total as the echo hint. */
  function Resolver(u: Utils, ll: LineLabels, totalHint: Option<real>): seq<Field> -> LineItem {
    fields => ResolveLineItem(u, ll, fields, totalHint)
  }

  /** One normalised document. */
  function NormalizeDocument(u: Utils, ll: LineLabels, hl: HeaderLabels, doc: RawExpenseDocument): (d: Invoice)
    ensures d.invoiceNumber == HeaderValue(doc.summaryFields, InvoiceNumberTypes, hl.invoiceNumber)
    ensures d.invoiceDate == HeaderValue(doc.summaryFields, InvoiceDateTypes, hl.invoiceDate)
    ensures d.total == HeaderValue(doc.summaryFields, TotalTypes, hl.total)
    ensures d.paymentTerms == HeaderValue(doc.summaryFields, PaymentTermsTypes, hl.paymentTerms)
  {
    var fs := doc.summaryFields;
    var total := HeaderValue(fs, TotalTypes, hl.total);
    Invoice(
      HeaderValue(fs, InvoiceNumberTypes, hl.invoiceNumber),
      HeaderValue(fs, InvoiceDateTypes, hl.invoiceDate),
      total,
      HeaderValue(fs, PaymentTermsTypes, hl.paymentTerms),
      MapSeq(Resolver(u, ll, u.toDecimal(total)), Flatten(doc.lineItemGroups)))
  }

  /** What `HeaderPrefersType` says of a header value `v`: found by type
      whenever a typed field exists, by label only otherwise, and missing
      exactly when neither kind of field exists. */
  ghost predicate TypeThenLabel(fs: seq<Field>, names: seq<string>, rxs: seq<Pattern>, v: Option<string>) {
    && ((exists i, k :: 0 <= i < |fs| && 0 <= k < |names| && TypedWith(fs[i], names[k])) ==>
          v.Some? && v == ValueByTypes(fs, names))
    && ((forall i, k :: 0 <= i < |fs| && 0 <= k < |names| ==> !TypedWith(fs[i], names[k])) ==>
          v == ValueByLabel(fs, rxs))
    && (v.None? <==>
          forall i :: 0 <= i < |fs| ==> !LabelledWith(fs[i], rxs) && forall k :: 0 <= k < |names| ==> !TypedWith(fs[i], names[k]))
  }

  /** A normalised document's four headers are each found by type first
      and by label second. */
  lemma NormalizeDocumentHeaders(u: Utils, ll: LineLabels, hl: HeaderLabels, doc: RawExpenseDocument)
    ensures var d, fs := NormalizeDocument(u, ll, hl, doc), doc.summaryFields;
      && TypeThenLabel(fs, InvoiceNumberTypes, hl.invoiceNumber, d.invoiceNumber)
      && TypeThenLabel(fs, InvoiceDateTypes, hl.invoiceDate, d.invoiceDate)
      && TypeThenLabel(fs, TotalTypes, hl.total, d.total)
      && TypeThenLabel(fs, PaymentTermsTypes, hl.paymentTerms, d.paymentTerms)
  {
    var d, fs := NormalizeDocument(u, ll, hl, doc), doc.summaryFields;
    HeaderIsTypeThenLabel(fs, InvoiceNumberTypes, hl.invoiceNumber, d.invoiceNumber);
    HeaderIsTypeThenLabel(fs, InvoiceDateTypes, hl.invoiceDate, d.invoiceDate);
    HeaderIsTypeThenLabel(fs, TotalTypes, hl.total, d.total);
    HeaderIsTypeThenLabel(fs, PaymentTermsTypes, hl.paymentTerms, d.paymentTerms);
  }

  /** `HeaderPrefersType`, packaged for a value known to be the header. */
  lemma HeaderIsTypeThenLabel(fs: seq<Field>, names: seq<string>, rxs: seq<Pattern>, v: Option<string>)
    requires v == HeaderValue(fs, names, rxs)
    ensures TypeThenLabel(fs, names, rxs, v)
  {
    HeaderPrefersType(fs, names, rxs);
  }

  /** A normalised document has one line item per raw line item of every
      group, in order, each resolved with the document's parsed total as
      the echo hint. */
  lemma NormalizeDocumentItems(u: Utils, ll: LineLabels, hl: HeaderLabels, doc: RawExpenseDocument)
    ensures var d, raw := NormalizeDocument(u, ll, hl, doc), Flatten(doc.lineItemGroups);
      && |d.lineItems| == |raw|
      && forall i :: 0 <= i < |raw| ==> d.lineItems[i] == ResolveLineItem(u, ll, raw[i], u.toDecimal(d.total))
  {
    var d, raw := NormalizeDocument(u, ll, hl, doc), Flatten(doc.lineItemGroups);
    var f := Resolver(u, ll, u.toDecimal(d.total));
    assert d.lineItems == MapSeq(f, raw);
    forall i | 0 <= i < |raw|
      ensures d.lineItems[i] == ResolveLineItem(u, ll, raw[i], u.toDecimal(d.total))
    {
      assert d.lineItems[i] == f(raw[i]);
    }
  }

  /** Header example: a field typed INVOICE_NUMBER wins over an earlier field
      labelled "Invoice No." whose pattern matches. */
  lemma TypedHeaderWinsExample(rx: Pattern)
    requires rx("invoice no.")
    ensures var fs := [Field("", "Invoice No.", "A-1"), Field("INVOICE_NUMBER", "", "B-2")];
      HeaderValue(fs, InvoiceNumberTypes, [rx]) == Some("B-2")
  {
    var fs := [Field("", "Invoice No.", "A-1"), Field("INVOICE_NUMBER", "", "B-2")];
    assert !TypedWith(fs[0], "INVOICE_RECEIPT_ID") && !TypedWith(fs[1], "INVOICE_RECEIPT_ID");
    assert ValueByType(fs, "INVOICE_RECEIPT_ID").None?;
    assert ValueByType(fs, "INVOICE_NUMBER") == Some("B-2");
  }

  /** One more raw line item resolved and appended. */
  method ExtractNext(u: Utils, ll: LineLabels, line: seq<Field>, totalHint: Option<real>,
                     ghost seen: seq<seq<Field>>, items0: seq<LineItem>)
    returns (items: seq<LineItem>)
    requires items0 == MapSeq(Resolver(u, ll, totalHint), seen)
    ensures items == MapSeq(Resolver(u, ll, totalHint), seen + [line])
  {
    var li := ExtractLineItem(u, ll, line, totalHint);
    MapSeqSnoc(Resolver(u, ll, totalHint), seen, line);
    items := items0 + [li];
  }

  /** The line items of one group, appended to those already resolved. */
  method ExtractGroupItems(u: Utils, ll: LineLabels, lines: seq<seq<Field>>, totalHint: Option<real>,
                           ghost done: seq<seq<Field>>, items0: seq<LineItem>)
    returns (items: seq<LineItem>)
    requires items0 == MapSeq(Resolver(u, ll, totalHint), done)
    ensures items == MapSeq(Resolver(u, ll, totalHint), done + lines)
  {
    items := items0;
    var k := 0;
    assert done + lines[..0] == done;
    while k < |lines|
      invariant 0 <= k <= |lines|
      invariant items == MapSeq(Resolver(u, ll, totalHint), done + lines[..k])
    {
      items := ExtractNext(u, ll, lines[k], totalHint, done + lines[..k], items);
      AppendPrefixSnoc(done, lines, k);
      k := k + 1;
    }
    assert lines[..k] == lines;
  }

  /** The line items of one document: every line item of every group, in order. */
  method ExtractDocumentItems(u: Utils, ll: LineLabels, groups: seq<seq<seq<Field>>>, totalHint: Option<real>)
    returns (items: seq<LineItem>)
    ensures items == MapSeq(Resolver(u, ll, totalHint), Flatten(groups))
  {
    items := [];
    var g := 0;
    while g < |groups|
      invariant 0 <= g <= |groups|
      invariant items == MapSeq(Resolver(u, ll, totalHint), Flatten(groups[..g]))
    {
      items := ExtractGroupItems(u, ll, groups[g], totalHint, Flatten(groups[..g]), items);
      FlattenPrefixSnoc(groups, g);
      g := g + 1;
    }
    assert groups[..g] == groups;
  }

  /** One document: its four headers, then its line items with the parsed
      total as the echo hint. */
  method ParseDocument(u: Utils, ll: LineLabels, hl: HeaderLabels, doc: RawExpenseDocument) returns (inv: Invoice)
    ensures inv == NormalizeDocument(u, ll, hl, doc)
  {
    var fs := doc.summaryFields;
    var invoiceNumber := HeaderValue(fs, InvoiceNumberTypes, hl.invoiceNumber);
    var invoiceDate := HeaderValue(fs, InvoiceDateTypes, hl.invoiceDate);
    var total := HeaderValue(fs, TotalTypes, hl.total);
    var paymentTerms := HeaderValue(fs, PaymentTermsTypes, hl.paymentTerms);
    var totalHint := u.toDecimal(total);
    var items := ExtractDocumentItems(u, ll, doc.lineItemGroups, totalHint);
    inv := Invoice(invoiceNumber, invoiceDate, total, paymentTerms, items);
  }

  /** `parse_document` as an arrow. */
  function Normalizer(u: Utils, ll: LineLabels, hl: HeaderLabels): RawExpenseDocument -> Invoice {
    doc => NormalizeDocument(u, ll, hl, doc)
  }

  /** One more document normalised and appended. */
  method ParseNext(u: Utils, ll: LineLabels, hl: HeaderLabels, doc: RawExpenseDocument,
                   ghost seen: seq<RawExpenseDocument>, parsed0: seq<Invoice>)
    returns (parsed: seq<Invoice>)
    requires parsed0 == MapSeq(Normalizer(u, ll, hl), seen)
    ensures parsed == MapSeq(Normalizer(u, ll, hl), seen + [doc])
  {
    var inv := ParseDocument(u, ll, hl, doc);
    MapSeqSnoc(Normalizer(u, ll, hl), seen, doc);
    parsed := parsed0 + [inv];
  }

  /** The documents of one page, appended to those already parsed. */
  method ParsePage(u: Utils, ll: LineLabels, hl: HeaderLabels, docs: seq<RawExpenseDocument>,
                   ghost done: seq<RawExpenseDocument>, parsed0: seq<Invoice>)
    returns (parsed: seq<Invoice>)
    requires parsed0 == MapSeq(Normalizer(u, ll, hl), done)
    ensures parsed == MapSeq(Normalizer(u, ll, hl), done + docs)
  {
    parsed := parsed0;
    var d := 0;
    assert done + docs[..0] == done;
    while d < |docs|
      invariant 0 <= d <= |docs|
      invariant parsed == MapSeq(Normalizer(u, ll, hl), done + docs[..d])
    {
      parsed := ParseNext(u, ll, hl, docs[d], done + docs[..d], parsed);
      AppendPrefixSnoc(done, docs, d);
      d := d + 1;
    }
    assert docs[..d] == docs;
  }

  /** `parse_expense_documents`: one normalised document per ExpenseDocument
      of every page, in page order. */
  method ParseExpenseDocuments(u: Utils, ll: LineLabels, hl: HeaderLabels, pages: seq<seq<RawExpenseDocument>>)
    returns (parsed: seq<Invoice>)
    ensures parsed == MapSeq(Normalizer(u, ll, hl), Flatten(pages))
  {
    parsed := [];
    var p := 0;
    while p < |pages|
      invariant 0 <= p <= |pages|
      invariant parsed == MapSeq(Normalizer(u, ll, hl), Flatten(pages[..p]))
    {
      parsed := ParsePage(u, ll, hl, pages[p], Flatten(pages[..p]), parsed);
      FlattenPrefixSnoc(pages, p);
      p := p + 1;
    }
    assert pages[..p] == pages;
  }
}
