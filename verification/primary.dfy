/** `choose_primary_document`: among the documents whose total parses (all
    of them when none does), the one with the most non-empty line items,
    the earliest winning ties. */
module PrimarySelector {
  import opened Common
  import opened Records
  import opened StableSort

  /** `len([x for x in d["lineItems"] if any(x.values())])`. */
  function RowCount(d: Invoice): int {
    |Filter(HasContent, d.lineItems)|
  }

  predicate HasTotal(u: Utils, d: Invoice) {
    u.toDecimal(d.total).Some?
  }

  function TotalTest(u: Utils): Invoice -> bool {
    d => HasTotal(u, d)
  }

  /** `with_total if with_total else docs`. */
  function Candidates(u: Utils, docs: seq<Invoice>): (c: seq<Invoice>)
    ensures c == [] <==> docs == []
    ensures forall i :: 0 <= i < |c| ==> c[i] in docs
    ensures (exists i :: 0 <= i < |docs| && HasTotal(u, docs[i])) ==> forall i :: 0 <= i < |c| ==> HasTotal(u, c[i])
    ensures (forall i :: 0 <= i < |docs| ==> !HasTotal(u, docs[i])) ==> c == docs
    ensures forall i :: 0 <= i < |docs| && HasTotal(u, docs[i]) ==> docs[i] in c
    ensures SubsequenceOf(c, docs)
  {
    var withTotal := Filter(TotalTest(u), docs);
    FilterIsSubsequence(TotalTest(u), docs);
    SubsequenceOfSelf(docs);
    if withTotal != [] then withTotal else docs
  }

  /** The document `choose_primary_document` returns. */
  function Primary(u: Utils, docs: seq<Invoice>): (r: Option<Invoice>)
    ensures r.None? <==> docs == []
  {
    if docs == [] then None else Some(SortDesc(Candidates(u, docs), RowCount)[0])
  }

  /** The primary document is a candidate with the largest row count, the
      earliest such candidate; it has a parseable total whenever any
      document does. */
  lemma PrimaryIsBestCandidate(u: Utils, docs: seq<Invoice>)
    requires docs != []
    ensures var c := Candidates(u, docs);
      var i := FirstMaxIndex(c, RowCount);
      && Primary(u, docs) == Some(c[i])
      && (forall j :: 0 <= j < |c| ==> RowCount(c[j]) <= RowCount(c[i]))
      && (forall j :: 0 <= j < i ==> RowCount(c[j]) < RowCount(c[i]))
      && c[i] in docs
      && ((exists k :: 0 <= k < |docs| && HasTotal(u, docs[k])) ==> HasTotal(u, c[i]))
      && (forall k :: 0 <= k < |docs| && HasTotal(u, docs[k]) ==> RowCount(docs[k]) <= RowCount(c[i]))
  {
    SortDescHead(Candidates(u, docs), RowCount);
  }

  /** The caller's list after the call: sorted in place by row count when no
      total parses (the candidate list is then the caller's list itself),
      untouched otherwise. */
  function ListAfter(u: Utils, docs: seq<Invoice>): (r: seq<Invoice>)
    ensures multiset(r) == multiset(docs)
    ensures (exists i :: 0 <= i < |docs| && HasTotal(u, docs[i])) ==> r == docs
    ensures (forall i :: 0 <= i < |docs| ==> !HasTotal(u, docs[i])) ==> SortedDesc(r, RowCount)
  {
    SortDescIsSorted(docs, RowCount);
    if Filter(TotalTest(u), docs) == [] then SortDesc(docs, RowCount) else docs
  }

  /** `[d for d in docs if to_decimal_maybe(d.get("total")) is not None]`. */
  method CollectWithTotal(u: Utils, docs: array<Invoice>) returns (withTotal: seq<Invoice>)
    ensures withTotal == Filter(TotalTest(u), docs[..])
  {
    withTotal := [];
    for i := 0 to docs.Length
      invariant withTotal == Filter(TotalTest(u), docs[..i])
    {
      assert docs[..i + 1][..i] == docs[..i];
      if u.toDecimal(docs[i].total).Some? {
        withTotal := withTotal + [docs[i]];
      }
    }
    assert docs[..docs.Length] == docs[..];
  }

  /** Writes `s` over the array, element by element. */
  method Overwrite(a: array<Invoice>, s: seq<Invoice>)
    requires |s| == a.Length
    modifies a
    ensures a[..] == s
  {
    for i := 0 to a.Length
      invariant a[..i] == s[..i]
    {
      a[i] := s[i];
      assert a[..i + 1] == s[..i + 1];
    }
    assert a[..] == a[..a.Length];
  }

  /** `choose_primary_document` on the caller's list. */
  method ChoosePrimaryDocument(u: Utils, docs: array<Invoice>) returns (primary: Option<Invoice>)
    modifies docs
    ensures primary == Primary(u, old(docs[..]))
    ensures docs[..] == ListAfter(u, old(docs[..]))
  {
    if docs.Length == 0 {
      return None;
    }
    var withTotal := CollectWithTotal(u, docs);
    if withTotal != [] {
      // the candidates are a new list: sorting it leaves the caller's alone
      var sorted := SortDesc(withTotal, RowCount);
      primary := Some(sorted[0]);
    } else {
      // the candidates are the caller's list, sorted in place
      var sorted := SortDesc(docs[..], RowCount);
      Overwrite(docs, sorted);
      primary := Some(docs[0]);
    }
  }
}
