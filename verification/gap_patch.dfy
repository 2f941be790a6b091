/** The forms fallback of `process_local_pdf`: when the primary invoice lacks
    a usable invoice number, date or payment terms, a FORMS analysis of the
    same file is requested, and its key/value pairs fill those gaps. */
module GapPatch {
  import opened Common
  import opened Records
  import opened HeaderNormalizer
  import opened FormsMap

  // ------------------------------------------------------ key/value search

  /** The position of the first key, in insertion order, that some pattern
      matches; `|keys|` when none does. */
  function FirstMatchingKey(keys: seq<string>, patterns: seq<Pattern>): (i: nat)
    ensures i <= |keys|
    ensures i < |keys| ==> AnyMatch(patterns, keys[i])
    ensures forall j :: 0 <= j < i ==> !AnyMatch(patterns, keys[j])
  {
    if keys == [] then 0
    else if AnyMatch(patterns, keys[0]) then 0
    else 1 + FirstMatchingKey(keys[1..], patterns)
  }

  /** What `_extract_from_kv` returns. */
  function KvLookup(kv: OrderedDict<string>, patterns: seq<Pattern>): (r: Option<string>)
    requires kv.Valid()
  {
    var i := FirstMatchingKey(kv.keys, patterns);
    if i < |kv.keys| then Some(kv.values[kv.keys[i]]) else None
  }

  /** The search finds a value exactly when some key matches some pattern,
      and then it is the value of the first such key in insertion order. */
  lemma KvLookupIsFirstMatch(kv: OrderedDict<string>, patterns: seq<Pattern>)
    requires kv.Valid()
    ensures KvLookup(kv, patterns).None? <==> forall i :: 0 <= i < |kv.keys| ==> !AnyMatch(patterns, kv.keys[i])
    ensures forall i :: (0 <= i < |kv.keys| && AnyMatch(patterns, kv.keys[i])
                         && (forall j :: 0 <= j < i ==> !AnyMatch(patterns, kv.keys[j])))
                        ==> KvLookup(kv, patterns) == Some(kv.values[kv.keys[i]])
  {
  }

  /** `_extract_from_kv`: for each key in order, for each pattern in order,
      return the value as soon as the pattern finds a match in the key. */
  method ExtractFromKv(kv: OrderedDict<string>, patterns: seq<Pattern>) returns (r: Option<string>)
    requires kv.Valid()
    ensures r == KvLookup(kv, patterns)
  {
    for i := 0 to |kv.keys|
      invariant forall j :: 0 <= j < i ==> !AnyMatch(patterns, kv.keys[j])
    {
      var k := kv.keys[i];
      for p := 0 to |patterns|
        invariant forall q :: 0 <= q < p ==> !patterns[q](k)
      {
        if patterns[p](k) {
          return Some(kv.values[k]);
        }
      }
    }
    return None;
  }

  // ------------------------------------------------------------ the patch

  /** `need_inv`, `need_dt` and `need_trm`. */
  datatype Needs = Needs(invoiceNumber: bool, invoiceDate: bool, paymentTerms: bool)

  function NeedsOf(u: Utils, d: Invoice): Needs {
    Needs(!Truthy(d.invoiceNumber) || u.isCurrencyLike(d.invoiceNumber),
          !Truthy(d.invoiceDate),
          !Truthy(d.paymentTerms))
  }

  predicate AnyNeed(n: Needs) {
    n.invoiceNumber || n.invoiceDate || n.paymentTerms
  }

  /** The three guarded assignments, given the key/value map of a FORMS
      analysis that succeeded. */
  function PatchFields(u: Utils, hl: HeaderLabels, d: Invoice, kv: OrderedDict<string>): Invoice
    requires kv.Valid()
  {
    var n := NeedsOf(u, d);
    var invNo := KvLookup(kv, hl.invoiceNumber);
    var invDt := KvLookup(kv, hl.invoiceDate);
    var terms := KvLookup(kv, hl.paymentTerms);
    d.(invoiceNumber := if n.invoiceNumber && Truthy(invNo) && !u.isCurrencyLike(invNo) then invNo else d.invoiceNumber,
       invoiceDate := if n.invoiceDate && Truthy(invDt) then invDt else d.invoiceDate,
       paymentTerms := if n.paymentTerms && Truthy(terms) then terms else d.paymentTerms)
  }

  /** The primary invoice after the fallback. `forms` is what the FORMS
      analysis delivered: its pages when it succeeded, `None` when it did not. */
  function Patched(u: Utils, hl: HeaderLabels, d: Invoice, forms: Option<seq<seq<Block>>>): Invoice {
    if AnyNeed(NeedsOf(u, d)) && forms.Some? then PatchFields(u, hl, d, FormsKeyValues(forms.value)) else d
  }

  /** The patch only fills gaps: a field is touched only when it was flagged
      and the analysis succeeded; an invoice number only by a non-empty,
      non-currency-like value, a date or terms only by a non-empty value,
      each the value of the first matching form key; the total and the line
      items never change. */
  lemma PatchOnlyFillsGaps(u: Utils, hl: HeaderLabels, d: Invoice, forms: Option<seq<seq<Block>>>)
    ensures var r := Patched(u, hl, d, forms);
      && r.total == d.total && r.lineItems == d.lineItems
      && (r.invoiceNumber != d.invoiceNumber ==>
            && NeedsOf(u, d).invoiceNumber && forms.Some?
            && Truthy(r.invoiceNumber) && !u.isCurrencyLike(r.invoiceNumber)
            && r.invoiceNumber == KvLookup(FormsKeyValues(forms.value), hl.invoiceNumber))
      && (r.invoiceDate != d.invoiceDate ==>
            && NeedsOf(u, d).invoiceDate && forms.Some? && Truthy(r.invoiceDate)
            && r.invoiceDate == KvLookup(FormsKeyValues(forms.value), hl.invoiceDate))
      && (r.paymentTerms != d.paymentTerms ==>
            && NeedsOf(u, d).paymentTerms && forms.Some? && Truthy(r.paymentTerms)
            && r.paymentTerms == KvLookup(FormsKeyValues(forms.value), hl.paymentTerms))
  {
  }

  /** Whenever the analysis succeeded and offers a usable value for a
      flagged field, the field takes it and is no longer flagged. */
  lemma PatchFillsWhatItCan(u: Utils, hl: HeaderLabels, d: Invoice, pages: seq<seq<Block>>)
    ensures var r := Patched(u, hl, d, Some(pages));
      var kv := FormsKeyValues(pages);
      && ((NeedsOf(u, d).invoiceNumber && Truthy(KvLookup(kv, hl.invoiceNumber)) && !u.isCurrencyLike(KvLookup(kv, hl.invoiceNumber)))
            ==> r.invoiceNumber == KvLookup(kv, hl.invoiceNumber) && !NeedsOf(u, r).invoiceNumber)
      && ((NeedsOf(u, d).invoiceDate && Truthy(KvLookup(kv, hl.invoiceDate)))
            ==> r.invoiceDate == KvLookup(kv, hl.invoiceDate) && !NeedsOf(u, r).invoiceDate)
      && ((NeedsOf(u, d).paymentTerms && Truthy(KvLookup(kv, hl.paymentTerms)))
            ==> r.paymentTerms == KvLookup(kv, hl.paymentTerms) && !NeedsOf(u, r).paymentTerms)
  {
  }

  /** The patch opens no new gap: whatever is flagged afterwards was
      flagged before. */
  lemma PatchOpensNoGap(u: Utils, hl: HeaderLabels, d: Invoice, forms: Option<seq<seq<Block>>>)
    ensures var n := NeedsOf(u, Patched(u, hl, d, forms));
      && (n.invoiceNumber ==> NeedsOf(u, d).invoiceNumber)
      && (n.invoiceDate ==> NeedsOf(u, d).invoiceDate)
      && (n.paymentTerms ==> NeedsOf(u, d).paymentTerms)
  {
  }

  /** Lines 116-134 of `process_local_pdf`. `requested` says whether the
      FORMS analysis is started; `forms` is its outcome, read only then. */
  method PatchPrimary(u: Utils, hl: HeaderLabels, primary: Invoice, forms: Option<seq<seq<Block>>>)
    returns (patched: Invoice, requested: bool)
    ensures requested <==> !Truthy(primary.invoiceNumber) || u.isCurrencyLike(primary.invoiceNumber)
                           || !Truthy(primary.invoiceDate) || !Truthy(primary.paymentTerms)
    ensures !requested ==> patched == primary
    ensures patched == Patched(u, hl, primary, forms)
  {
    patched := primary;
    var needInv := !Truthy(primary.invoiceNumber) || u.isCurrencyLike(primary.invoiceNumber);
    var needDt := !Truthy(primary.invoiceDate);
    var needTrm := !Truthy(primary.paymentTerms);
    requested := needInv || needDt || needTrm;
    if requested && forms.Some? {
      var kv := ParseFormsKeyValues(forms.value);
      if needInv {
        var invNo := ExtractFromKv(kv, hl.invoiceNumber);
        if Truthy(invNo) && !u.isCurrencyLike(invNo) {
          patched := patched.(invoiceNumber := invNo);
        }
      }
      if needDt {
        var invDt := ExtractFromKv(kv, hl.invoiceDate);
        if Truthy(invDt) {
          patched := patched.(invoiceDate := invDt);
        }
      }
      if needTrm {
        var terms := ExtractFromKv(kv, hl.paymentTerms);
        if Truthy(terms) {
          patched := patched.(paymentTerms := terms);
        }
      }
    }
  }
}
