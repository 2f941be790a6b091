/** `merge_documents_by_invoice_number`: one record per invoice number. The
    documents of a group are ordered by score (a stable descending sort); the
    best one is the base, its empty headers are filled from the others in that
    order, and the line items of all members are concatenated. */
module Aggregator {
  import opened Common
  import opened Records
  import opened StableSort

  /** The bucket for documents without an invoice number. */
  const NoId: string := "__NO_ID__"

  /** `d.get("invoiceNumber") or ""`. */
  function NumberText(d: Invoice): string {
    if d.invoiceNumber.Some? then d.invoiceNumber.value else ""
  }

  /** `key_of`: the stripped invoice number, or the sentinel bucket. */
  function KeyOf(d: Invoice): (k: string)
    ensures var inv := Strip(NumberText(d));
      (inv == "" ==> k == NoId) && (inv != "" ==> k == inv)
  {
    var inv := Strip(NumberText(d));
    if inv != "" then inv else NoId
  }

  /** The sentinel is a non-empty, already stripped key. */
  lemma SentinelStripped()
    ensures NoId != "" && Strip(NoId) == NoId
  {
    StripNoOp(NoId);
  }

  /** A key is never empty and is already stripped. */
  lemma KeyOfStripped(d: Invoice)
    ensures KeyOf(d) != "" && Strip(KeyOf(d)) == KeyOf(d)
  {
    var x := NumberText(d);
    if Strip(x) != "" {
      StripIdempotent(x);
      var k := KeyOf(d);
      assert k == Strip(x);
      assert Strip(k) == k;
    } else {
      SentinelStripped();
      var k := KeyOf(d);
      assert k == NoId;
      assert Strip(k) == k;
    }
  }

  /** Two documents share a key exactly when their stripped invoice numbers
      agree or each is blank or the sentinel itself. */
  lemma KeyOfMeaning(d: Invoice, e: Invoice)
    ensures var a, b := Strip(NumberText(d)), Strip(NumberText(e));
      KeyOf(d) == KeyOf(e) <==> a == b || ((a == "" || a == NoId) && (b == "" || b == NoId))
  {
    var a, b := Strip(NumberText(d)), Strip(NumberText(e));
    assert KeyOf(d) == if a != "" then a else NoId;
    assert KeyOf(e) == if b != "" then b else NoId;
    assert |NoId| == 9;
  }

  /** A missing, empty or blank invoice number goes to the sentinel bucket. */
  lemma NoIdForBlank(d: Invoice)
    requires d.invoiceNumber.None? || AllSpace(d.invoiceNumber.value)
    ensures KeyOf(d) == NoId
  {
    if d.invoiceNumber.Some? {
      StripEmptyIffAllSpace(d.invoiceNumber.value);
    }
  }

  /** Any other invoice number is its own key, even "0", which Python
      treats as a string like any other. */
  lemma ZeroIsItsOwnKey(d: Invoice)
    requires d.invoiceNumber == Some("0")
    ensures KeyOf(d) == "0"
  {
    StripNoOp("0");
  }

  /** A document whose invoice number is literally "__NO_ID__" lands in the
      sentinel's bucket, together with the documents that have none. */
  lemma SentinelCollides(d: Invoice, e: Invoice)
    requires d.invoiceNumber == Some(NoId) && e.invoiceNumber.None?
    ensures KeyOf(d) == KeyOf(e)
  {
    StripNoOp(NoId);
    NoIdForBlank(e);
  }

  function Bit(o: Option<string>): int {
    if Truthy(o) then 1 else 0
  }

  /** `score`, scaled by 1000: one point per present header among total,
      invoiceDate and paymentTerms, one thousandth per line item. */
  function Score(d: Invoice): (s: int)
    ensures s >= 0
    ensures Truthy(d.total) && Truthy(d.invoiceDate) && Truthy(d.paymentTerms) ==> s >= 3000
  {
    1000 * (Bit(d.total) + Bit(d.invoiceDate) + Bit(d.paymentTerms)) + |d.lineItems|
  }

  /** `score` as the source writes it, in exact arithmetic: the present
      headers plus a thousandth per line item. */
  function SourceScore(d: Invoice): real {
    (Bit(d.total) + Bit(d.invoiceDate) + Bit(d.paymentTerms)) as real + |d.lineItems| as real / 1000.0
  }

  /** The scaled integer score orders and ties documents exactly as the
      source's fractional one. */
  lemma ScoreOrdersAsSource(a: Invoice, b: Invoice)
    ensures Score(a) < Score(b) <==> SourceScore(a) < SourceScore(b)
    ensures Score(a) == Score(b) <==> SourceScore(a) == SourceScore(b)
  {
    assert SourceScore(a) == Score(a) as real / 1000.0;
    assert SourceScore(b) == Score(b) as real / 1000.0;
  }

  /** With fewer than a thousand line items each, a document with more
      present headers always scores higher, whatever the item counts. */
  lemma HeadersDominateScore(a: Invoice, b: Invoice)
    requires |a.lineItems| < 1000 && |b.lineItems| < 1000
    requires Bit(a.total) + Bit(a.invoiceDate) + Bit(a.paymentTerms) > Bit(b.total) + Bit(b.invoiceDate) + Bit(b.paymentTerms)
    ensures Score(a) > Score(b)
  {
  }

  function ItemCount(d: Invoice): nat {
    |d.lineItems|
  }

  // ------------------------------------------------------------ grouping

  /** `groups.setdefault(key(x), []).append(x)` over `xs`. */
  function GroupBy<T>(key: T -> string, xs: seq<T>): (g: OrderedDict<seq<T>>)
    ensures g.Valid()
  {
    if xs == [] then EmptyDict()
    else
      var g := GroupBy(key, xs[..|xs| - 1]);
      var x := xs[|xs| - 1];
      var k := key(x);
      g.Put(k, (if k in g.values then g.values[k] else []) + [x])
  }

  function Has<T>(key: T -> string, k: string): T -> bool {
    x => key(x) == k
  }

  /** Every listed key has a group, and no group is empty. */
  predicate Grouped<T>(g: OrderedDict<seq<T>>) {
    forall k :: k in g.keys ==> k in g.values && g.values[k] != []
  }

  /** Every element's key gets a group, and every group is non-empty. */
  lemma {:induction false} GroupByCovers<T>(key: T -> string, xs: seq<T>)
    ensures Grouped(GroupBy(key, xs))
    ensures forall i :: 0 <= i < |xs| ==> key(xs[i]) in GroupBy(key, xs).values
  {
    if xs != [] {
      var init := xs[..|xs| - 1];
      GroupByCovers(key, init);
      forall i | 0 <= i < |xs| - 1
        ensures key(xs[i]) in GroupBy(key, xs).values
      {
        assert xs[i] == init[i];
      }
    }
  }

  /** The groups come in order of first appearance of their keys. */
  lemma {:induction false} GroupByKeys<T>(key: T -> string, xs: seq<T>)
    ensures GroupBy(key, xs).keys == Dedup(MapSeq(key, xs))
  {
    if xs != [] {
      var init := xs[..|xs| - 1];
      GroupByKeys(key, init);
      assert MapSeq(key, xs)[..|xs| - 1] == MapSeq(key, init);
    }
  }

  /** Each group holds exactly the elements with its key, in input order. */
  lemma {:induction false} GroupByMembers<T>(key: T -> string, xs: seq<T>)
    ensures forall k :: k in GroupBy(key, xs).values ==> GroupBy(key, xs).values[k] == Filter(Has(key, k), xs)
  {
    if xs != [] {
      var init := xs[..|xs| - 1];
      var k := key(xs[|xs| - 1]);
      var g := GroupBy(key, init);
      GroupByMembers(key, init);
      GroupByCovers(key, init);
      forall j | j in GroupBy(key, xs).values
        ensures GroupBy(key, xs).values[j] == Filter(Has(key, j), xs)
      {
        if j == k && k !in g.values {
          assert Filter(Has(key, j), init) == [] by {
            forall i | 0 <= i < |init|
              ensures !Has(key, j)(init[i])
            {
              assert key(init[i]) in g.values;
            }
          }
        }
      }
    }
  }

  // ------------------------------------------------------------ merging

  /** `if not base.get(f) and other.get(f): base[f] = other[f]` for the
      three header fields. */
  function FillStep(base: Invoice, other: Invoice): Invoice {
    base.(
      invoiceDate := if !Truthy(base.invoiceDate) && Truthy(other.invoiceDate) then other.invoiceDate else base.invoiceDate,
      paymentTerms := if !Truthy(base.paymentTerms) && Truthy(other.paymentTerms) then other.paymentTerms else base.paymentTerms,
      total := if !Truthy(base.total) && Truthy(other.total) then other.total else base.total)
  }

  /** The fill loop over `group_sorted[1:]`. */
  function FillFrom(base: Invoice, others: seq<Invoice>): Invoice {
    if others == [] then base else FillStep(FillFrom(base, others[..|others| - 1]), others[|others| - 1])
  }

  /** One header along the fill loop: kept once truthy, otherwise the
      next truthy value offered. */
  function Fill(cur: Option<string>, vals: seq<Option<string>>): Option<string> {
    if vals == [] then cur
    else
      var c := Fill(cur, vals[..|vals| - 1]);
      var v := vals[|vals| - 1];
      if !Truthy(c) && Truthy(v) then v else c
  }

  /** Filling is fill-only: a truthy header is never overwritten; a falsy
      one takes the first truthy value offered, and stays as it was when
      none is. */
  lemma {:induction false} FillIsFirstTruthy(cur: Option<string>, vals: seq<Option<string>>)
    ensures Truthy(cur) ==> Fill(cur, vals) == cur
    ensures (forall i :: 0 <= i < |vals| ==> !Truthy(vals[i])) ==> Fill(cur, vals) == cur
    ensures forall i :: (0 <= i < |vals| && !Truthy(cur) && Truthy(vals[i])
                         && (forall j :: 0 <= j < i ==> !Truthy(vals[j]))) ==> Fill(cur, vals) == vals[i]
  {
    if vals != [] {
      var init := vals[..|vals| - 1];
      FillIsFirstTruthy(cur, init);
      assert forall i :: 0 <= i < |init| ==> init[i] == vals[i];
      forall i | 0 <= i < |vals| && !Truthy(cur) && Truthy(vals[i]) && (forall j :: 0 <= j < i ==> !Truthy(vals[j]))
        ensures Fill(cur, vals) == vals[i]
      {
        if i == |init| {
          assert Fill(cur, init) == cur;
        }
      }
    }
  }

  function DateOf(d: Invoice): Option<string> { d.invoiceDate }
  function TermsOf(d: Invoice): Option<string> { d.paymentTerms }
  function TotalOf(d: Invoice): Option<string> { d.total }
  function ItemsOf(d: Invoice): seq<LineItem> { d.lineItems }

  /** The fill loop treats the three headers independently and leaves
      everything else of the base alone. */
  lemma {:induction false} FillFromFields(base: Invoice, others: seq<Invoice>)
    ensures FillFrom(base, others) == base.(
      invoiceDate := Fill(base.invoiceDate, MapSeq(DateOf, others)),
      paymentTerms := Fill(base.paymentTerms, MapSeq(TermsOf, others)),
      total := Fill(base.total, MapSeq(TotalOf, others)))
  {
    if others != [] {
      var init := others[..|others| - 1];
      FillFromFields(base, init);
      assert MapSeq(DateOf, others)[..|others| - 1] == MapSeq(DateOf, init);
      assert MapSeq(TermsOf, others)[..|others| - 1] == MapSeq(TermsOf, init);
      assert MapSeq(TotalOf, others)[..|others| - 1] == MapSeq(TotalOf, init);
    }
  }

  /** `all_items.extend(d.get("lineItems", []))` over the documents. */
  function AllItems(ds: seq<Invoice>): (items: seq<LineItem>)
    ensures |items| == SumOf(ds, ItemCount)
  {
    if ds == [] then []
    else
      var init := ds[..|ds| - 1];
      var last := ds[|ds| - 1];
      SumOfAppend(init, [last], ItemCount);
      assert init + [last] == ds;
      assert SumOf([last], ItemCount) == ItemCount(last) + SumOf([], ItemCount);
      AllItems(init) + last.lineItems
  }

  /** The collected items are the documents' own item lists, one after the
      other, in the documents' order. */
  lemma {:induction false} AllItemsConcatenates(ds: seq<Invoice>)
    ensures AllItems(ds) == Flatten(MapSeq(ItemsOf, ds))
  {
    if ds != [] {
      var init := ds[..|ds| - 1];
      AllItemsConcatenates(init);
      assert init + [ds[|ds| - 1]] == ds;
      MapSeqSnoc(ItemsOf, init, ds[|ds| - 1]);
      FlattenSnoc(MapSeq(ItemsOf, init), ds[|ds| - 1].lineItems);
    }
  }

  /** The merged record of one group. */
  function Merge(group: seq<Invoice>): (m: Invoice)
    requires group != []
  {
    var sorted := SortDesc(group, Score);
    FillFrom(sorted[0], sorted[1..]).(lineItems := AllItems(sorted))
  }

  /** The merged record: the base is the earliest member with the highest
      score; the invoice number comes from the base; each header is the
      base's when truthy, else the first truthy one among the other members
      in sorted order; the line items are all the members' items, none lost
      and none added. */
  lemma MergeShape(group: seq<Invoice>)
    requires group != []
    ensures var sorted := SortDesc(group, Score);
      var base := group[FirstMaxIndex(group, Score)];
      var m := Merge(group);
      && sorted[0] == base
      && m.invoiceNumber == base.invoiceNumber
      && m.invoiceDate == Fill(base.invoiceDate, MapSeq(DateOf, sorted[1..]))
      && m.paymentTerms == Fill(base.paymentTerms, MapSeq(TermsOf, sorted[1..]))
      && m.total == Fill(base.total, MapSeq(TotalOf, sorted[1..]))
      && m.lineItems == AllItems(sorted)
      && m.lineItems == Flatten(MapSeq(ItemsOf, sorted))
      && |m.lineItems| == SumOf(group, ItemCount)
  {
    AllItemsConcatenates(SortDesc(group, Score));
    var sorted := SortDesc(group, Score);
    SortDescHead(group, Score);
    FillFromFields(sorted[0], sorted[1..]);
    SortDescSum(group, Score, ItemCount);
  }

  /** A group of one document merges into that very document. */
  lemma MergeSingle(d: Invoice)
    ensures Merge([d]) == d
  {
    assert SortDesc([d], Score) == [d];
    assert AllItems([d]) == AllItems([]) + d.lineItems;
  }

  /** One merged record per group, in group order. */
  function MergedGroups(g: OrderedDict<seq<Invoice>>): (merged: seq<Invoice>)
    requires Grouped(g)
  {
    seq(|g.keys|, i requires 0 <= i < |g.keys| => Merge(g.values[g.keys[i]]))
  }

  /** The output of the merge. */
  function MergeAll(docs: seq<Invoice>): (merged: seq<Invoice>)
  {
    GroupByCovers(KeyOf, docs);
    MergedGroups(GroupBy(KeyOf, docs))
  }

  /** No documents, no records; otherwise one record per distinct key, in
      order of first appearance, merging exactly the documents with that key. */
  lemma MergeAllShape(docs: seq<Invoice>)
    ensures docs == [] ==> MergeAll(docs) == []
    ensures |MergeAll(docs)| == |Dedup(MapSeq(KeyOf, docs))|
    ensures forall i :: 0 <= i < |MergeAll(docs)| ==>
      (&& Filter(Has(KeyOf, Dedup(MapSeq(KeyOf, docs))[i]), docs) != []
       && MergeAll(docs)[i] == Merge(Filter(Has(KeyOf, Dedup(MapSeq(KeyOf, docs))[i]), docs)))
  {
    var g := GroupBy(KeyOf, docs);
    GroupByCovers(KeyOf, docs);
    GroupByKeys(KeyOf, docs);
    GroupByMembers(KeyOf, docs);
    assert MergeAll(docs) == MergedGroups(g);
    forall i | 0 <= i < |MergeAll(docs)|
      ensures Filter(Has(KeyOf, g.keys[i]), docs) != []
      ensures MergeAll(docs)[i] == Merge(Filter(Has(KeyOf, g.keys[i]), docs))
    {
      var k := g.keys[i];
      assert k in g.values && g.values[k] != [];
      assert g.values[k] == Filter(Has(KeyOf, k), docs);
    }
  }

  // ------------------------------------------------------ counting items

  /** The weights of the groups named by `keys`, summed group by group. */
  function KeyedSum<T>(keys: seq<string>, values: map<string, seq<T>>, w: T -> nat): nat
    requires forall k :: k in keys ==> k in values
  {
    if keys == [] then 0 else SumOf(values[keys[0]], w) + KeyedSum(keys[1..], values, w)
  }

  /** Appending to one group adds that element's weight. */
  lemma {:induction false} KeyedSumUpdate<T>(keys: seq<string>, values: map<string, seq<T>>, w: T -> nat, k: string, x: T)
    requires forall j :: j in keys ==> j in values
    requires k in keys && NoDup(keys)
    ensures KeyedSum(keys, values[k := values[k] + [x]], w) == KeyedSum(keys, values, w) + w(x)
  {
    var nv := values[k := values[k] + [x]];
    assert NoDup(keys[1..]) by {
      forall i, j | 0 <= i < j < |keys[1..]| ensures keys[1..][i] != keys[1..][j] {
        assert keys[1..][i] == keys[i + 1] && keys[1..][j] == keys[j + 1];
      }
    }
    if keys[0] == k {
      SumOfAppend(values[k], [x], w);
      assert SumOf([x], w) == w(x) + SumOf([], w);
      assert k !in keys[1..] by {
        forall i | 0 <= i < |keys[1..]| ensures keys[1..][i] != k {
          assert keys[1..][i] == keys[i + 1];
        }
      }
      KeyedSumSame(keys[1..], values, nv, w);
    } else {
      KeyedSumUpdate(keys[1..], values, w, k, x);
    }
  }

  /** Maps that agree on `keys` give the same sum. */
  lemma {:induction false} KeyedSumSame<T>(keys: seq<string>, a: map<string, seq<T>>, b: map<string, seq<T>>, w: T -> nat)
    requires forall k :: k in keys ==> k in a && k in b && a[k] == b[k]
    ensures KeyedSum(keys, a, w) == KeyedSum(keys, b, w)
  {
    if keys != [] {
      KeyedSumSame(keys[1..], a, b, w);
    }
  }

  /** A new key at the end adds its group's weight. */
  lemma {:induction false} KeyedSumSnoc<T>(keys: seq<string>, values: map<string, seq<T>>, w: T -> nat, k: string)
    requires forall j :: j in keys ==> j in values
    requires k in values
    ensures KeyedSum(keys + [k], values, w) == KeyedSum(keys, values, w) + SumOf(values[k], w)
  {
    if keys != [] {
      assert (keys + [k])[1..] == keys[1..] + [k];
      KeyedSumSnoc(keys[1..], values, w, k);
    } else {
      assert ([k])[1..] == [];
    }
  }

  /** A new group of one element adds that element's weight. */
  lemma KeyedSumNewKey<T>(keys: seq<string>, values: map<string, seq<T>>, w: T -> nat, k: string, x: T)
    requires forall j :: j in keys ==> j in values
    requires k !in values
    ensures KeyedSum(keys + [k], values[k := [x]], w) == KeyedSum(keys, values, w) + w(x)
  {
    var nv := values[k := [x]];
    KeyedSumSame(keys, values, nv, w);
    KeyedSumSnoc(keys, nv, w, k);
    assert SumOf([x], w) == w(x) + SumOf([], w);
  }

  /** Grouping loses and duplicates nothing: the groups weigh what the
      input weighs. */
  lemma {:induction false} GroupByKeepsWeight<T>(key: T -> string, xs: seq<T>, w: T -> nat)
    ensures var g := GroupBy(key, xs);
      (forall k :: k in g.keys ==> k in g.values) && KeyedSum(g.keys, g.values, w) == SumOf(xs, w)
  {
    if xs != [] {
      var init := xs[..|xs| - 1];
      var x := xs[|xs| - 1];
      var k := key(x);
      var g := GroupBy(key, init);
      GroupByKeepsWeight(key, init, w);
      SumOfAppend(init, [x], w);
      assert init + [x] == xs;
      assert SumOf([x], w) == w(x) + SumOf([], w);
      if k in g.values {
        KeyedSumUpdate(g.keys, g.values, w, k, x);
      } else {
        assert [] + [x] == [x];
        KeyedSumNewKey(g.keys, g.values, w, k, x);
      }
    }
  }

  /** Merging counts: the records hold as many line items as the input
      documents, in total. */
  lemma MergeKeepsItemCount(docs: seq<Invoice>)
    ensures SumOf(MergeAll(docs), ItemCount) == SumOf(docs, ItemCount)
  {
    var g := GroupBy(KeyOf, docs);
    GroupByCovers(KeyOf, docs);
    GroupByKeepsWeight(KeyOf, docs, ItemCount);
    MergedCount(g.keys, g.values, MergeAll(docs));
  }

  /** Counting the merged records is counting their groups. */
  lemma {:induction false} MergedCount(keys: seq<string>, values: map<string, seq<Invoice>>, merged: seq<Invoice>)
    requires forall k :: k in keys ==> k in values && values[k] != []
    requires |merged| == |keys| && forall i :: 0 <= i < |keys| ==> merged[i] == Merge(values[keys[i]])
    ensures SumOf(merged, ItemCount) == KeyedSum(keys, values, ItemCount)
  {
    if keys != [] {
      MergeShape(values[keys[0]]);
      MergedCount(keys[1..], values, merged[1..]);
    }
  }

  // ------------------------------------------------------------ the loops

  /** The grouping loop. */
  method GroupDocuments(docs: seq<Invoice>) returns (groups: OrderedDict<seq<Invoice>>)
    ensures groups == GroupBy(KeyOf, docs)
  {
    groups := EmptyDict();
    for i := 0 to |docs|
      invariant groups == GroupBy(KeyOf, docs[..i])
    {
      TakeSnoc(docs, i);
      assert docs[..i + 1][..i] == docs[..i];
      var k := KeyOf(docs[i]);
      var members := if k in groups.values then groups.values[k] else [];
      groups := groups.Put(k, members + [docs[i]]);
    }
    assert docs[..|docs|] == docs;
  }

  /** One group: sort, copy the base, fill its headers, gather the items. */
  method MergeGroup(group: seq<Invoice>) returns (base: Invoice)
    requires group != []
    ensures base == Merge(group)
  {
    var sorted := SortDesc(group, Score);
    base := sorted[0];
    for j := 1 to |sorted|
      invariant base == FillFrom(sorted[0], sorted[1..j])
    {
      assert sorted[1..j + 1][..j - 1] == sorted[1..j];
      var other := sorted[j];
      if !Truthy(base.invoiceDate) && Truthy(other.invoiceDate) {
        base := base.(invoiceDate := other.invoiceDate);
      }
      if !Truthy(base.paymentTerms) && Truthy(other.paymentTerms) {
        base := base.(paymentTerms := other.paymentTerms);
      }
      if !Truthy(base.total) && Truthy(other.total) {
        base := base.(total := other.total);
      }
    }
    var allItems: seq<LineItem> := [];
    for j := 0 to |sorted|
      invariant allItems == AllItems(sorted[..j])
    {
      assert sorted[..j + 1][..j] == sorted[..j];
      allItems := allItems + sorted[j].lineItems;
    }
    assert sorted[..|sorted|] == sorted;
    base := base.(lineItems := allItems);
  }

  /** The loop over `groups.items()`. */
  method MergeGroups(groups: OrderedDict<seq<Invoice>>) returns (merged: seq<Invoice>)
    requires Grouped(groups)
    ensures merged == MergedGroups(groups)
  {
    merged := [];
    for i := 0 to |groups.keys|
      invariant merged == MergedGroups(groups)[..i]
    {
      TakeSnoc(MergedGroups(groups), i);
      var m := MergeGroup(groups.values[groups.keys[i]]);
      merged := merged + [m];
    }
  }

  /** `merge_documents_by_invoice_number`. */
  method MergeDocumentsByInvoiceNumber(docs: seq<Invoice>) returns (merged: seq<Invoice>)
    ensures merged == MergeAll(docs)
  {
    if docs == [] {
      return [];
    }
    var groups := GroupDocuments(docs);
    GroupByCovers(KeyOf, docs);
    merged := MergeGroups(groups);
  }
}
