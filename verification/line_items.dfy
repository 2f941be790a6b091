/** The line-item resolver (`li_extract` in expense_parser.py): collects the
    description, raw quantity and rate/amount candidates of one line item,
    drops amount candidates that echo the document total, picks the
    (rate, amount) pair that best fits the quantity, fills gaps, and undoes
    transposed rate/amount columns. */
module LineItemResolver {
  import opened Common
  import opened Decimal
  import opened Records

  const QuantityKeys: set<string> := {"QUANTITY", "QTY", "HOURS", "HOUR", "UNITS"}
  const UnitPriceKeys: set<string> := {"UNIT_PRICE", "PRICE", "RATE"}
  const AmountKeys: set<string> := {"AMOUNT", "TOTAL", "LINE_TOTAL", "NET_AMOUNT", "LINE_AMOUNT", "AMOUNT_AFTER_DISCOUNT"}
  const DescKeys: set<string> := {"ITEM", "DESCRIPTION", "PRODUCT_CODE", "SERVICE"}

  /** RATE_LABEL_RE, AMOUNT_LABEL_RE, QTY_LABEL_RE and DESC_LABEL_RE. */
  datatype LineLabels = LineLabels(rate: Pattern, amount: Pattern, quantity: Pattern, description: Pattern)

  /** The declared type, upper-cased. */
  function TypeKey(f: Field): string {
    Upper(f.typeText)
  }

  /** The label, stripped and lower-cased. */
  function LabelKey(f: Field): string {
    Lower(Strip(f.labelText))
  }

  // ------------------------------------------------------------ collection

  /** The collection rules: which fields feed which column. */
  datatype Column = DescriptionCol | QuantityCol | TypedRate | TypedAmount | LabelledRate | LabelledAmount

  predicate Feeds(ll: LineLabels, c: Column, f: Field) {
    match c
    case DescriptionCol => TypeKey(f) in DescKeys || ll.description(LabelKey(f))
    case QuantityCol => TypeKey(f) in QuantityKeys || ll.quantity(LabelKey(f))
    case TypedRate => TypeKey(f) in UnitPriceKeys
    case TypedAmount => TypeKey(f) in AmountKeys
    case LabelledRate => ll.rate(LabelKey(f))
    case LabelledAmount => ll.amount(LabelKey(f))
  }

  /** What a field gives its column: the stripped value for the description,
      the raw value everywhere else. */
  function Contribution(c: Column, f: Field): string {
    if c == DescriptionCol then Strip(f.valueText) else f.valueText
  }

  /** The values `value(f)` of the fields `f` of `fs` with `feeds(f)`, in field order. */
  function Offered(fs: seq<Field>, feeds: Field -> bool, value: Field -> string): seq<string> {
    if fs == [] then []
    else Offered(fs[..|fs| - 1], feeds, value) + (if feeds(fs[|fs| - 1]) then [value(fs[|fs| - 1])] else [])
  }

  /** `if not x and feeds(f): x = value(f)` over the fields in turn, from None. */
  function FirstOffered(fs: seq<Field>, feeds: Field -> bool, value: Field -> string): Option<string> {
    if fs == [] then None
    else
      var prev := FirstOffered(fs[..|fs| - 1], feeds, value);
      if feeds(fs[|fs| - 1]) && !Truthy(prev) then Some(value(fs[|fs| - 1])) else prev
  }

  /** The first feeding field with a non-empty value wins and later fields
      never overwrite it; with no feeding field the result is None, and with
      only empty values it is not truthy. */
  lemma {:induction false} FirstOfferedIsFirstNonEmpty(fs: seq<Field>, feeds: Field -> bool, value: Field -> string)
    ensures FirstOffered(fs, feeds, value).None? <==> forall i :: 0 <= i < |fs| ==> !feeds(fs[i])
    ensures forall i :: (0 <= i < |fs| && feeds(fs[i]) && value(fs[i]) != ""
                         && (forall j :: 0 <= j < i && feeds(fs[j]) ==> value(fs[j]) == ""))
                        ==> FirstOffered(fs, feeds, value) == Some(value(fs[i]))
    ensures (forall i :: 0 <= i < |fs| && feeds(fs[i]) ==> value(fs[i]) == "")
      ==> !Truthy(FirstOffered(fs, feeds, value))
  {
    if fs != [] {
      var init := fs[..|fs| - 1];
      FirstOfferedIsFirstNonEmpty(init, feeds, value);
      assert forall j :: 0 <= j < |init| ==> init[j] == fs[j];
    }
  }

  lemma OfferedStep(fs: seq<Field>, feeds: Field -> bool, value: Field -> string, i: nat)
    requires i < |fs|
    ensures Offered(fs[..i + 1], feeds, value) == Offered(fs[..i], feeds, value) + (if feeds(fs[i]) then [value(fs[i])] else [])
    ensures FirstOffered(fs[..i + 1], feeds, value)
      == (var prev := FirstOffered(fs[..i], feeds, value);
          if feeds(fs[i]) && !Truthy(prev) then Some(value(fs[i])) else prev)
  {
    assert fs[..i + 1][..i] == fs[..i];
  }

  function Feeder(ll: LineLabels, c: Column): Field -> bool {
    f => Feeds(ll, c, f)
  }

  function Giver(c: Column): Field -> string {
    f => Contribution(c, f)
  }

  /** The contributions of the fields of `fs` that feed column `c`, in field order. */
  function ColumnValues(ll: LineLabels, c: Column, fs: seq<Field>): seq<string> {
    Offered(fs, Feeder(ll, c), Giver(c))
  }

  /** The description (stripped) and the raw quantity: the first contribution
      that is not empty, as collected. */
  function FirstCollected(ll: LineLabels, c: Column, fs: seq<Field>): Option<string> {
    FirstOffered(fs, Feeder(ll, c), Giver(c))
  }

  /** `_push_unique`: append the stripped value unless it is empty or already present. */
  function PushUnique(lst: seq<string>, v: string): seq<string> {
    if v == "" then lst
    else
      var v2 := Strip(v);
      if v2 != "" && v2 !in lst then lst + [v2] else lst
  }

  /** `_push_unique` applied to each value in turn, from the empty list. */
  function Unique(vals: seq<string>): seq<string> {
    if vals == [] then [] else PushUnique(Unique(vals[..|vals| - 1]), vals[|vals| - 1])
  }

  /** The stripped values that are not empty, in order. */
  function StrippedNonEmpty(vals: seq<string>): seq<string> {
    if vals == [] then []
    else
      var v := vals[|vals| - 1];
      StrippedNonEmpty(vals[..|vals| - 1]) + (if Strip(v) != "" then [Strip(v)] else [])
  }

  lemma {:induction false} StrippedNonEmptyIsStripped(vals: seq<string>)
    ensures forall i :: 0 <= i < |StrippedNonEmpty(vals)| ==> StrippedNonEmpty(vals)[i] != "" && Strip(StrippedNonEmpty(vals)[i]) == StrippedNonEmpty(vals)[i]
    ensures forall i :: 0 <= i < |vals| && Strip(vals[i]) != "" ==> Strip(vals[i]) in StrippedNonEmpty(vals)
  {
    if vals != [] {
      var init := vals[..|vals| - 1];
      var v := vals[|vals| - 1];
      StrippedNonEmptyIsStripped(init);
      StripIdempotent(v);
      var r0 := StrippedNonEmpty(init);
      var tail := if Strip(v) != "" then [Strip(v)] else [];
      var r := StrippedNonEmpty(vals);
      assert r == r0 + tail;
      forall i | 0 <= i < |r|
        ensures r[i] != "" && Strip(r[i]) == r[i]
      {
        if i < |r0| {
          assert r[i] == r0[i];
        } else {
          assert r[i] == Strip(v);
        }
      }
      forall i | 0 <= i < |vals| && Strip(vals[i]) != ""
        ensures Strip(vals[i]) in r
      {
        if i < |vals| - 1 {
          assert vals[i] == init[i];
          assert Strip(init[i]) in r0;
        } else {
          assert Strip(vals[i]) in tail;
        }
      }
    }
  }

  /** The candidate list is the first-seen, duplicate-free list of the
      non-empty stripped values. */
  lemma {:induction false} UniqueIsDedupOfStripped(vals: seq<string>)
    ensures Unique(vals) == Dedup(StrippedNonEmpty(vals))
  {
    if vals != [] {
      var init := vals[..|vals| - 1];
      var v := vals[|vals| - 1];
      UniqueIsDedupOfStripped(init);
      var s := StrippedNonEmpty(init);
      var u := Unique(init);
      assert Unique(vals) == PushUnique(u, v);
      if Strip(v) != "" {
        var x := Strip(v);
        assert v != "";
        assert StrippedNonEmpty(vals) == s + [x];
        assert (s + [x])[..|s|] == s;
        assert Dedup(s + [x]) == if x in Dedup(s) then Dedup(s) else Dedup(s) + [x];
      } else {
        assert StrippedNonEmpty(vals) == s;
        assert PushUnique(u, v) == u;
      }
    }
  }

  /** Rate/amount candidate lists: stripped, non-empty, duplicate-free, every
      usable value present, and in first-seen order (what was collected from a
      prefix of the values is a prefix of the final list). */
  lemma CandidateListsWellFormed(vals: seq<string>)
    ensures NoDup(Unique(vals))
    ensures forall i :: 0 <= i < |Unique(vals)| ==> Unique(vals)[i] != "" && Strip(Unique(vals)[i]) == Unique(vals)[i]
    ensures forall i :: 0 <= i < |vals| && Strip(vals[i]) != "" ==> Strip(vals[i]) in Unique(vals)
    ensures forall m :: 0 <= m <= |vals| ==> Unique(vals[..m]) <= Unique(vals)
  {
    UniqueIsDedupOfStripped(vals);
    StrippedNonEmptyIsStripped(vals);
    forall m | 0 <= m <= |vals|
      ensures Unique(vals[..m]) <= Unique(vals)
    {
      UniquePrefix(vals, m);
    }
  }

  lemma {:induction false} UniquePrefix(vals: seq<string>, m: nat)
    requires m <= |vals|
    ensures Unique(vals[..m]) <= Unique(vals)
    decreases |vals|
  {
    if m < |vals| {
      assert vals[..|vals| - 1][..m] == vals[..m];
      UniquePrefix(vals[..|vals| - 1], m);
    } else {
      assert vals[..m] == vals;
    }
  }

  function RateCandidates(ll: LineLabels, fs: seq<Field>): seq<string> {
    Unique(ColumnValues(ll, TypedRate, fs) + ColumnValues(ll, LabelledRate, fs))
  }

  function AmountCandidates(ll: LineLabels, fs: seq<Field>): seq<string> {
    Unique(ColumnValues(ll, TypedAmount, fs) + ColumnValues(ll, LabelledAmount, fs))
  }

  /** Values found by declared type come before values found by label. */
  lemma TypedCandidatesFirst(ll: LineLabels, fs: seq<Field>)
    ensures Unique(ColumnValues(ll, TypedRate, fs)) <= RateCandidates(ll, fs)
    ensures Unique(ColumnValues(ll, TypedAmount, fs)) <= AmountCandidates(ll, fs)
  {
    var tr, lr := ColumnValues(ll, TypedRate, fs), ColumnValues(ll, LabelledRate, fs);
    assert (tr + lr)[..|tr|] == tr;
    UniquePrefix(tr + lr, |tr|);
    var ta, la := ColumnValues(ll, TypedAmount, fs), ColumnValues(ll, LabelledAmount, fs);
    assert (ta + la)[..|ta|] == ta;
    UniquePrefix(ta + la, |ta|);
  }

  // ------------------------------------------------------- echoed totals

  /** An amount candidate that parses to a value close to the document total. */
  predicate Echoed(u: Utils, a: string, total: real) {
    Close(u.toDecimal(Some(a)), Some(total))
  }

  function Unechoed(u: Utils, total: real): string -> bool {
    a => !Echoed(u, a, total)
  }

  /** The candidates that are not echoes of the total, in order. */
  function NotEchoed(u: Utils, amts: seq<string>, total: real): seq<string> {
    Filter(Unechoed(u, total), amts)
  }

  lemma NotEchoedFilters(u: Utils, amts: seq<string>, total: real)
    ensures SubsequenceOf(NotEchoed(u, amts, total), amts)
    ensures forall i :: 0 <= i < |NotEchoed(u, amts, total)| ==> !Echoed(u, NotEchoed(u, amts, total)[i], total)
    ensures forall i :: 0 <= i < |amts| && !Echoed(u, amts[i], total) ==> amts[i] in NotEchoed(u, amts, total)
    ensures forall i :: 0 <= i < |NotEchoed(u, amts, total)| ==> NotEchoed(u, amts, total)[i] in amts
  {
    FilterIsSubsequence(Unechoed(u, total), amts);
  }

  /** Drop the amount candidates that echo the document total, unless that
      would leave none. */
  function DropEchoedTotal(u: Utils, amts: seq<string>, total: Option<real>): seq<string> {
    if total.Some? && amts != [] then
      var kept := NotEchoed(u, amts, total.value);
      if kept != [] then kept else amts
    else amts
  }

  /** The echoed-total filter only removes entries, never empties a non-empty
      list, removes exactly the echoes when something survives, and reverts to
      the original list when every candidate is an echo. */
  lemma DropEchoedTotalOnlyRemoves(u: Utils, amts: seq<string>, total: Option<real>)
    ensures SubsequenceOf(DropEchoedTotal(u, amts, total), amts)
    ensures amts != [] ==> DropEchoedTotal(u, amts, total) != []
    ensures total.None? ==> DropEchoedTotal(u, amts, total) == amts
    ensures total.Some? && (exists i :: 0 <= i < |amts| && !Echoed(u, amts[i], total.value)) ==>
      (forall i :: 0 <= i < |DropEchoedTotal(u, amts, total)| ==> !Echoed(u, DropEchoedTotal(u, amts, total)[i], total.value))
      && (forall i :: 0 <= i < |amts| && !Echoed(u, amts[i], total.value) ==> amts[i] in DropEchoedTotal(u, amts, total))
    ensures total.Some? && (forall i :: 0 <= i < |amts| ==> Echoed(u, amts[i], total.value)) ==>
      DropEchoedTotal(u, amts, total) == amts
  {
    SubsequenceOfRefl(amts);
    if total.Some? {
      NotEchoedFilters(u, amts, total.value);
    }
  }

  lemma {:induction false} SubsequenceOfRefl<T>(s: seq<T>)
    ensures SubsequenceOf(s, s)
  {
    if s != [] {
      SubsequenceOfRefl(s[..|s| - 1]);
    }
  }

  // ----------------------------------------------------------- pair search

  /** `best_pair` once it holds a pair: the rate and amount strings and the adjusted error. */
  datatype Pick = Pick(rate: string, amount: string, err: real)

  /** The error a pair must beat before it is kept (`Decimal("1e9")`). */
  const InitialBestError: real := 1000000000.0

  /** `_soft_rate_bonus`: a currency-formatted rate is penalised. */
  function RateBonus(u: Utils, r: string): (b: real)
    ensures b >= 0.0
    ensures b > 0.0 <==> u.isCurrencyLike(Some(r))
  {
    if u.isCurrencyLike(Some(r)) then 0.03 else 0.0
  }

  /** `_soft_amount_bonus`: a currency-formatted amount, and one with at most
      two decimals, is favoured. */
  function AmountBonus(u: Utils, a: string): (b: real)
    ensures -0.06 <= b <= 0.0
    ensures b <= -0.05 <==> u.isCurrencyLike(Some(a))
    ensures (b == -0.01 || b == -0.06) <==> (u.toDecimal(Some(a)).Some? && IsWholeCents(u.toDecimal(Some(a)).value))
  {
    var bonus := if u.isCurrencyLike(Some(a)) then -0.05 else 0.0;
    var d := u.toDecimal(Some(a));
    if d.Some? && IsWholeCents(d.value) then bonus - 0.01 else bonus
  }

  /** The adjusted error of a (rate, amount) pair for quantity `q`, if both parse. */
  function PairError(u: Utils, q: real, p: (string, string)): Option<real> {
    var rd := u.toDecimal(Some(p.0));
    var ad := u.toDecimal(Some(p.1));
    if rd.None? || ad.None? then None
    else
      var expected := Cents(q * rd.value);
      Some(Abs(expected - ad.value) + RateBonus(u, p.0) + AmountBonus(u, p.1)
           + (if q >= 1.0 && ad.value < rd.value then 0.10 else 0.0))
  }

  function BestError(best: Option<Pick>): real {
    if best.Some? then best.value.err else InitialBestError
  }

  /** One step of the search: keep the pair if its error is strictly smaller. */
  function Consider(u: Utils, q: real, best: Option<Pick>, p: (string, string)): Option<Pick> {
    var e := PairError(u, q, p);
    if e.Some? && e.value < BestError(best) then Some(Pick(p.0, p.1, e.value)) else best
  }

  /** The search over the pairs in order. */
  function BestOf(u: Utils, q: real, ps: seq<(string, string)>): Option<Pick> {
    if ps == [] then None else Consider(u, q, BestOf(u, q, ps[..|ps| - 1]), ps[|ps| - 1])
  }

  /** The pairs of one rate with every amount, in amount order. */
  function Row(r: string, amts: seq<string>): (row: seq<(string, string)>)
    ensures |row| == |amts| && forall j :: 0 <= j < |amts| ==> row[j] == (r, amts[j])
  {
    seq(|amts|, j requires 0 <= j < |amts| => (r, amts[j]))
  }

  /** Every (rate, amount) pair, rates in the outer loop and amounts in the inner one. */
  function Pairs(rates: seq<string>, amts: seq<string>): seq<(string, string)> {
    if rates == [] then [] else Pairs(rates[..|rates| - 1], amts) + Row(rates[|rates| - 1], amts)
  }

  lemma {:induction false} PairsLength(rates: seq<string>, amts: seq<string>)
    ensures |Pairs(rates, amts)| == |rates| * |amts|
  {
    if rates != [] {
      PairsLength(rates[..|rates| - 1], amts);
      assert (|rates| - 1) * |amts| + |amts| == |rates| * |amts|;
    }
  }

  /** Pair (rates[i], amts[j]) is visited at step i * |amts| + j: rate-outer,
      amount-inner order. */
  lemma {:induction false} PairsAt(rates: seq<string>, amts: seq<string>, i: nat, j: nat)
    requires i < |rates| && j < |amts|
    ensures |Pairs(rates, amts)| == |rates| * |amts|
    ensures i * |amts| + j < |Pairs(rates, amts)|
    ensures Pairs(rates, amts)[i * |amts| + j] == (rates[i], amts[j])
  {
    var n, m := |rates|, |amts|;
    var init := rates[..n - 1];
    var before := Pairs(init, amts);
    PairsLength(rates, amts);
    PairsLength(init, amts);
    assert Pairs(rates, amts) == before + Row(rates[n - 1], amts);
    if i < n - 1 {
      PairsAt(init, amts, i, j);
      assert Pairs(rates, amts)[i * m + j] == before[i * m + j];
    } else {
      assert i * m == |before|;
      assert Pairs(rates, amts)[i * m + j] == Row(rates[n - 1], amts)[j];
    }
  }

  /** The position of the first element, in order, whose error is strictly
      the smallest and below `bound`; -1 when no error is below `bound`. */
  function FirstLeast<P>(err: P -> Option<real>, bound: real, ps: seq<P>): (k: int)
    ensures -1 <= k < |ps|
    ensures k == -1 <==> forall j :: 0 <= j < |ps| && err(ps[j]).Some? ==> err(ps[j]).value >= bound
    ensures k >= 0 ==> err(ps[k]).Some? && err(ps[k]).value < bound
    ensures k >= 0 ==> forall j :: 0 <= j < k && err(ps[j]).Some? ==> err(ps[j]).value > err(ps[k]).value
    ensures k >= 0 ==> forall j :: k < j < |ps| && err(ps[j]).Some? ==> err(ps[j]).value >= err(ps[k]).value
  {
    if ps == [] then -1
    else
      var init := ps[..|ps| - 1];
      var k := FirstLeast(err, bound, init);
      assert forall j :: 0 <= j < |init| ==> init[j] == ps[j];
      var e := err(ps[|ps| - 1]);
      var current := if k < 0 then bound else err(ps[k]).value;
      if e.Some? && e.value < current then |ps| - 1 else k
  }

  function ErrorOf(u: Utils, q: real): ((string, string)) -> Option<real> {
    p => PairError(u, q, p)
  }

  /** The position of the pair the search keeps, or -1 when none is kept:
      the first pair, in visiting order, whose error is strictly the smallest
      and below 1e9. */
  function BestIndex(u: Utils, q: real, ps: seq<(string, string)>): (k: int)
    ensures -1 <= k < |ps|
    ensures k == -1 <==> forall j :: 0 <= j < |ps| && PairError(u, q, ps[j]).Some? ==> PairError(u, q, ps[j]).value >= InitialBestError
    ensures k >= 0 ==> PairError(u, q, ps[k]).Some? && PairError(u, q, ps[k]).value < InitialBestError
    ensures k >= 0 ==> forall j :: 0 <= j < k && PairError(u, q, ps[j]).Some? ==> PairError(u, q, ps[j]).value > PairError(u, q, ps[k]).value
    ensures k >= 0 ==> forall j :: k < j < |ps| && PairError(u, q, ps[j]).Some? ==> PairError(u, q, ps[j]).value >= PairError(u, q, ps[k]).value
  {
    FirstLeast(ErrorOf(u, q), InitialBestError, ps)
  }

  /** The search keeps exactly the pair at BestIndex. */
  lemma {:induction false} BestOfAtBestIndex(u: Utils, q: real, ps: seq<(string, string)>)
    ensures var k := BestIndex(u, q, ps);
      BestOf(u, q, ps) == if k < 0 then None else Some(Pick(ps[k].0, ps[k].1, PairError(u, q, ps[k]).value))
  {
    if ps != [] {
      var init := ps[..|ps| - 1];
      BestOfAtBestIndex(u, q, init);
      assert forall j :: 0 <= j < |init| ==> init[j] == ps[j];
    }
  }

  lemma {:induction false} UnparseableRateSkipped(u: Utils, q: real, ps: seq<(string, string)>, r: string, amts: seq<string>)
    requires u.toDecimal(Some(r)).None?
    ensures BestOf(u, q, ps + Row(r, amts)) == BestOf(u, q, ps)
  {
    if amts != [] {
      var init := amts[..|amts| - 1];
      UnparseableRateSkipped(u, q, ps, r, init);
      assert ps + Row(r, amts) == (ps + Row(r, init)) + [(r, amts[|amts| - 1])];
    } else {
      assert ps + Row(r, amts) == ps;
    }
  }

  /** The (rate, amount) strings before gap filling: the best pair when the
      quantity parses and the search keeps one, else the first candidates. */
  function ChoosePair(u: Utils, q: Option<real>, rates: seq<string>, amts: seq<string>): (r: (Option<string>, Option<string>))
    ensures r.0.None? <==> rates == []
    ensures r.1.None? <==> amts == []
    ensures r.0.Some? ==> r.0.value in rates
    ensures r.1.Some? ==> r.1.value in amts
    ensures q.Some? && rates != [] && amts != [] && BestIndex(u, q.value, Pairs(rates, amts)) >= 0 ==>
      var ps := Pairs(rates, amts);
      r == (Some(ps[BestIndex(u, q.value, ps)].0), Some(ps[BestIndex(u, q.value, ps)].1))
    ensures (q.None? || BestIndex(u, q.value, Pairs(rates, amts)) < 0) ==>
      r == (if rates != [] then Some(rates[0]) else None, if amts != [] then Some(amts[0]) else None)
  {
    var best := if q.Some? && rates != [] && amts != [] then BestOf(u, q.value, Pairs(rates, amts)) else None;
    var qv := if q.Some? then q.value else 0.0;
    BestOfAtBestIndex(u, qv, Pairs(rates, amts));
    PairsInCandidates(u, qv, rates, amts);
    if best.Some? then (Some(best.value.rate), Some(best.value.amount))
    else (if rates != [] then Some(rates[0]) else None, if amts != [] then Some(amts[0]) else None)
  }

  lemma {:induction false} PairsInCandidates(u: Utils, q: real, rates: seq<string>, amts: seq<string>)
    ensures forall k :: 0 <= k < |Pairs(rates, amts)| ==> Pairs(rates, amts)[k].0 in rates && Pairs(rates, amts)[k].1 in amts
    ensures BestOf(u, q, Pairs(rates, amts)).Some? ==>
      BestOf(u, q, Pairs(rates, amts)).value.rate in rates && BestOf(u, q, Pairs(rates, amts)).value.amount in amts
  {
    if rates != [] {
      var init := rates[..|rates| - 1];
      PairsInCandidates(u, q, init, amts);
      assert forall x :: x in init ==> x in rates;
    }
    BestOfAtBestIndex(u, q, Pairs(rates, amts));
  }

  // ------------------------------------------------------ gaps and swaps

  /** Fill a missing amount from quantity x rate, then a missing rate from
      amount / quantity; a value already present is never overwritten. */
  function FillGaps(u: Utils, qtyRaw: Option<string>, q: Option<real>, rate: Option<string>, amount: Option<string>)
    : (r: (Option<string>, Option<string>))
    ensures amount.Some? ==> r.1 == amount
    ensures rate.Some? ==> r.0 == rate
    ensures amount.None? ==> r.1 == (var c := u.computeAmount(qtyRaw, rate); if c.Some? then Some(u.format(c.value)) else None)
    ensures r.0 != rate ==>
              (rate.None? && q.Some? && q.value != 0.0 && Truthy(r.1) && u.toDecimal(r.1).Some?
               && r.0 == Some(u.format(Cents(u.toDecimal(r.1).value / q.value))))
    ensures rate.None? && q.Some? && q.value != 0.0 && Truthy(r.1) && u.toDecimal(r.1).Some? ==> r.0.Some?
  {
    var amount1 :=
      if amount.None? then
        var comp := u.computeAmount(qtyRaw, rate);
        if comp.Some? then Some(u.format(comp.value)) else None
      else amount;
    var rate1 :=
      if rate.None? && q.Some? && Truthy(amount1) then
        var ad := u.toDecimal(amount1);
        if ad.Some? && q.value != 0.0 then Some(u.format(Cents(ad.value / q.value))) else rate
      else rate;
    (rate1, amount1)
  }

  /** quantity x rate, rounded to the cent, is close to the amount. */
  predicate Consistent(u: Utils, q: real, rate: Option<string>, amount: Option<string>) {
    var rd := u.toDecimal(rate);
    var ad := u.toDecimal(amount);
    rd.Some? && ad.Some? && Close(Some(Cents(q * rd.value)), ad)
  }

  /** Swap rate and amount exactly when the pair as found is inconsistent
      and the swapped pair is consistent. */
  function CorrectSwap(u: Utils, q: Option<real>, rate: Option<string>, amount: Option<string>)
    : (r: (Option<string>, Option<string>))
    ensures r == (rate, amount) || r == (amount, rate)
    ensures q.Some? && !Consistent(u, q.value, rate, amount) && Consistent(u, q.value, amount, rate) ==> r == (amount, rate)
    ensures r != (rate, amount) ==> q.Some? && !Consistent(u, q.value, rate, amount) && Consistent(u, q.value, r.0, r.1)
  {
    if q.Some? && !Consistent(u, q.value, rate, amount) && Consistent(u, q.value, amount, rate)
    then (amount, rate)
    else (rate, amount)
  }

  // ------------------------------------------------------------ the whole

  /** `li_extract(fields, total_hint_num)`. */
  function ResolveLineItem(u: Utils, ll: LineLabels, fields: seq<Field>, totalHint: Option<real>): LineItem {
    var desc := FirstCollected(ll, DescriptionCol, fields);
    var qtyRaw := FirstCollected(ll, QuantityCol, fields);
    var rates := RateCandidates(ll, fields);
    var amts := DropEchoedTotal(u, AmountCandidates(ll, fields), totalHint);
    var q := u.toQuantity(qtyRaw);
    var chosen := ChoosePair(u, q, rates, amts);
    var filled := FillGaps(u, qtyRaw, q, chosen.0, chosen.1);
    var final := CorrectSwap(u, q, filled.0, filled.1);
    LineItem(desc, qtyRaw, final.0, final.1)
  }

  /** When both candidate lists are non-empty nothing is computed: the
      resolved rate and amount are one rate candidate and one amount
      candidate, possibly swapped. */
  lemma ResolvedPairComesFromCandidates(u: Utils, ll: LineLabels, fields: seq<Field>, totalHint: Option<real>)
    requires RateCandidates(ll, fields) != [] && AmountCandidates(ll, fields) != []
    ensures var li := ResolveLineItem(u, ll, fields, totalHint);
      var rates := RateCandidates(ll, fields);
      var amts := DropEchoedTotal(u, AmountCandidates(ll, fields), totalHint);
      li.unitPrice.Some? && li.amount.Some?
      && ((li.unitPrice.value in rates && li.amount.value in amts)
          || (li.unitPrice.value in amts && li.amount.value in rates))
  {
    DropEchoedTotalOnlyRemoves(u, AmountCandidates(ll, fields), totalHint);
  }

  /** The description and the raw (unstripped) quantity come out as collected:
      the first feeding field with a non-empty value. */
  lemma ResolvedDescriptionAndQuantity(u: Utils, ll: LineLabels, fields: seq<Field>, totalHint: Option<real>, i: nat)
    requires i < |fields| && Feeds(ll, QuantityCol, fields[i]) && fields[i].valueText != ""
    requires forall j :: 0 <= j < i && Feeds(ll, QuantityCol, fields[j]) ==> fields[j].valueText == ""
    ensures ResolveLineItem(u, ll, fields, totalHint).quantity == Some(fields[i].valueText)
    ensures ResolveLineItem(u, ll, fields, totalHint).description == FirstCollected(ll, DescriptionCol, fields)
  {
    FirstOfferedIsFirstNonEmpty(fields, Feeder(ll, QuantityCol), Giver(QuantityCol));
  }

  /** Pairing example: quantity 2, rate candidates "10.00" and "99.00", amount
      candidate "20.00" (no currency symbols): "10.00" is chosen (error 0, less
      the cent bonus) over "99.00" (error 178). */
  lemma PairingExample(u: Utils)
    requires u.toDecimal(Some("10.00")) == Some(10.0) && u.toDecimal(Some("99.00")) == Some(99.0)
    requires u.toDecimal(Some("20.00")) == Some(20.0)
    requires !u.isCurrencyLike(Some("10.00")) && !u.isCurrencyLike(Some("99.00")) && !u.isCurrencyLike(Some("20.00"))
    ensures ChoosePair(u, Some(2.0), ["10.00", "99.00"], ["20.00"]) == (Some("10.00"), Some("20.00"))
  {
    var rates, amts := ["10.00", "99.00"], ["20.00"];
    var p0, p1 := ("10.00", "20.00"), ("99.00", "20.00");
    assert rates[..1] == ["10.00"] && rates[..1][..0] == [];
    assert Row("10.00", amts) == [p0] && Row("99.00", amts) == [p1];
    assert Pairs(rates[..1], amts) == [p0];
    var ps := Pairs(rates, amts);
    assert ps == [p0, p1];
    assert Cents(20.0) == 20.0 by { assert RoundHalfEven(2000.0) == 2000; }
    assert Cents(198.0) == 198.0 by { assert RoundHalfEven(19800.0) == 19800; }
    assert IsWholeCents(20.0);
    assert PairError(u, 2.0, p0) == Some(-0.01);
    assert PairError(u, 2.0, p1) == Some(178.09);
    assert ps[..1] == [p0] && ps[..1][..0] == [];
    assert BestOf(u, 2.0, [p0]) == Some(Pick("10.00", "20.00", -0.01));
    assert BestOf(u, 2.0, ps) == Some(Pick("10.00", "20.00", -0.01));
  }

  /** Swap example: quantity 3, rate "30.00", amount "10.00": 3 x 30 is far
      from 10 but 3 x 10 matches 30, so the columns are swapped. */
  lemma SwapExample(u: Utils)
    requires u.toDecimal(Some("30.00")) == Some(30.0) && u.toDecimal(Some("10.00")) == Some(10.0)
    ensures CorrectSwap(u, Some(3.0), Some("30.00"), Some("10.00")) == (Some("10.00"), Some("30.00"))
  {
    assert Cents(90.0) == 90.0 by { assert RoundHalfEven(9000.0) == 9000; }
    assert Cents(30.0) == 30.0 by { assert RoundHalfEven(3000.0) == 3000; }
  }

  // --------------------------------------------------------- the method

  lemma ColumnStep(ll: LineLabels, c: Column, fs: seq<Field>, i: nat)
    requires i < |fs|
    ensures ColumnValues(ll, c, fs[..i + 1])
      == ColumnValues(ll, c, fs[..i]) + (if Feeds(ll, c, fs[i]) then [Contribution(c, fs[i])] else [])
    ensures FirstCollected(ll, c, fs[..i + 1])
      == (var prev := FirstCollected(ll, c, fs[..i]);
          if Feeds(ll, c, fs[i]) && !Truthy(prev) then Some(Contribution(c, fs[i])) else prev)
  {
    OfferedStep(fs, Feeder(ll, c), Giver(c), i);
  }

  /** `_push_unique` of each value in turn onto the list `lst`. */
  function PushAll(lst: seq<string>, vals: seq<string>): seq<string> {
    if vals == [] then lst else PushUnique(PushAll(lst, vals[..|vals| - 1]), vals[|vals| - 1])
  }

  lemma PushAllSnoc(lst: seq<string>, vals: seq<string>, v: string)
    ensures PushAll(lst, vals + [v]) == PushUnique(PushAll(lst, vals), v)
  {
    assert (vals + [v])[..|vals|] == vals;
  }

  /** `_push_unique` as a step function. */
  function PushStep(): (seq<string>, string) -> seq<string> {
    (lst, v) => PushUnique(lst, v)
  }

  /** `PushAll` and `Unique` are left folds of `_push_unique`. */
  lemma {:induction false} PushAllIsFold(lst: seq<string>, vals: seq<string>)
    ensures PushAll(lst, vals) == FoldLeft(PushStep(), lst, vals)
  {
    if vals != [] {
      PushAllIsFold(lst, vals[..|vals| - 1]);
    }
  }

  lemma {:induction false} UniqueIsFold(vals: seq<string>)
    ensures Unique(vals) == FoldLeft(PushStep(), [], vals)
  {
    if vals != [] {
      UniqueIsFold(vals[..|vals| - 1]);
    }
  }

  /** Pushing `a + b` from the empty list is pushing `b` after `a`. */
  lemma UniqueAppend(a: seq<string>, b: seq<string>)
    ensures Unique(a + b) == PushAll(Unique(a), b)
  {
    UniqueIsFold(a + b);
    UniqueIsFold(a);
    PushAllIsFold(Unique(a), b);
    FoldLeftAppend(PushStep(), [], a, b);
  }

  lemma UniqueSnoc(vals: seq<string>, v: string)
    ensures Unique(vals + [v]) == PushUnique(Unique(vals), v)
  {
    assert (vals + [v])[..|vals|] == vals;
  }

  /** The first collection pass, by declared type (and, for the description
      and quantity, by label too). */
  method CollectByType(ll: LineLabels, fields: seq<Field>)
    returns (desc: Option<string>, qtyRaw: Option<string>, rateCands: seq<string>, amtCands: seq<string>)
    ensures desc == FirstCollected(ll, DescriptionCol, fields)
    ensures qtyRaw == FirstCollected(ll, QuantityCol, fields)
    ensures rateCands == Unique(ColumnValues(ll, TypedRate, fields))
    ensures amtCands == Unique(ColumnValues(ll, TypedAmount, fields))
  {
    desc, qtyRaw, rateCands, amtCands := None, None, [], [];
    ghost var rateVals: seq<string> := [];
    ghost var amtVals: seq<string> := [];
    var i := 0;
    while i < |fields|
      invariant 0 <= i <= |fields|
      invariant desc == FirstCollected(ll, DescriptionCol, fields[..i])
      invariant qtyRaw == FirstCollected(ll, QuantityCol, fields[..i])
      invariant rateVals == ColumnValues(ll, TypedRate, fields[..i]) && rateCands == Unique(rateVals)
      invariant amtVals == ColumnValues(ll, TypedAmount, fields[..i]) && amtCands == Unique(amtVals)
    {
      var f := fields[i];
      var val := f.valueText;
      ColumnStep(ll, DescriptionCol, fields, i);
      ColumnStep(ll, QuantityCol, fields, i);
      ColumnStep(ll, TypedRate, fields, i);
      ColumnStep(ll, TypedAmount, fields, i);
      if !Truthy(desc) && Feeds(ll, DescriptionCol, f) {
        desc := Some(Strip(val));
      }
      if Feeds(ll, QuantityCol, f) {
        if !Truthy(qtyRaw) {
          qtyRaw := Some(val);
        }
      }
      if Feeds(ll, TypedRate, f) {
        UniqueSnoc(rateVals, val);
        rateCands := PushUnique(rateCands, val);
        rateVals := rateVals + [val];
      }
      if Feeds(ll, TypedAmount, f) {
        UniqueSnoc(amtVals, val);
        amtCands := PushUnique(amtCands, val);
        amtVals := amtVals + [val];
      }
      i := i + 1;
    }
    assert fields[..i] == fields;
  }

  /** The second collection pass, by label, continuing the candidate lists
      collected from the values `tr` and `ta`. */
  method CollectByLabel(ll: LineLabels, fields: seq<Field>, ghost tr: seq<string>, ghost ta: seq<string>,
                        rates0: seq<string>, amts0: seq<string>)
    returns (rateCands: seq<string>, amtCands: seq<string>)
    requires rates0 == Unique(tr) && amts0 == Unique(ta)
    ensures rateCands == Unique(tr + ColumnValues(ll, LabelledRate, fields))
    ensures amtCands == Unique(ta + ColumnValues(ll, LabelledAmount, fields))
  {
    rateCands, amtCands := rates0, amts0;
    ghost var rateVals: seq<string> := [];
    ghost var amtVals: seq<string> := [];
    var i := 0;
    while i < |fields|
      invariant 0 <= i <= |fields|
      invariant rateVals == ColumnValues(ll, LabelledRate, fields[..i]) && rateCands == PushAll(rates0, rateVals)
      invariant amtVals == ColumnValues(ll, LabelledAmount, fields[..i]) && amtCands == PushAll(amts0, amtVals)
    {
      var f := fields[i];
      var val := f.valueText;
      ColumnStep(ll, LabelledRate, fields, i);
      ColumnStep(ll, LabelledAmount, fields, i);
      if Feeds(ll, LabelledRate, f) {
        PushAllSnoc(rates0, rateVals, val);
        rateCands := PushUnique(rateCands, val);
        rateVals := rateVals + [val];
      }
      if Feeds(ll, LabelledAmount, f) {
        PushAllSnoc(amts0, amtVals, val);
        amtCands := PushUnique(amtCands, val);
        amtVals := amtVals + [val];
      }
      i := i + 1;
    }
    assert fields[..i] == fields;
    UniqueAppend(tr, rateVals);
    UniqueAppend(ta, amtVals);
  }

  /** The echoed-total filter, as a loop over the candidates. */
  method FilterEchoedTotal(u: Utils, amts: seq<string>, totalHint: Option<real>) returns (kept: seq<string>)
    ensures kept == DropEchoedTotal(u, amts, totalHint)
  {
    kept := amts;
    if totalHint.Some? && amts != [] {
      var filtered: seq<string> := [];
      var k := 0;
      while k < |amts|
        invariant 0 <= k <= |amts|
        invariant filtered == NotEchoed(u, amts[..k], totalHint.value)
      {
        var a := amts[k];
        var ad := u.toDecimal(Some(a));
        assert amts[..k + 1][..k] == amts[..k];
        assert (ad.None? || !Close(ad, totalHint)) == Unechoed(u, totalHint.value)(a);
        if ad.None? || !Close(ad, totalHint) {
          filtered := filtered + [a];
        }
        k := k + 1;
      }
      assert amts[..k] == amts;
      if filtered != [] {
        kept := filtered;
      }
    }
  }

  /** The inner loop of the search: rate `r` (which parses) against every
      amount, continuing from the pairs `done` already visited. */
  method ScanRow(u: Utils, q: real, r: string, amts: seq<string>, ghost done: seq<(string, string)>, best0: Option<Pick>)
    returns (best: Option<Pick>)
    requires u.toDecimal(Some(r)).Some? && best0 == BestOf(u, q, done)
    ensures best == BestOf(u, q, done + Row(r, amts))
  {
    best := best0;
    var ai := 0;
    assert done + Row(r, amts[..0]) == done;
    while ai < |amts|
      invariant 0 <= ai <= |amts|
      invariant best == BestOf(u, q, done + Row(r, amts[..ai]))
    {
      var a := amts[ai];
      var ad := u.toDecimal(Some(a));
      ghost var prev := done + Row(r, amts[..ai]);
      assert done + Row(r, amts[..ai + 1]) == prev + [(r, a)];
      assert (prev + [(r, a)])[..|prev|] == prev;
      assert BestOf(u, q, prev + [(r, a)]) == Consider(u, q, best, (r, a));
      if ad.Some? {
        var err := PairError(u, q, (r, a)).value;
        if err < BestError(best) {
          best := Some(Pick(r, a, err));
        }
      }
      ai := ai + 1;
    }
    assert amts[..ai] == amts;
  }

  /** The nested search over every (rate, amount) pair. */
  method SearchBestPair(u: Utils, q: real, rates: seq<string>, amts: seq<string>) returns (best: Option<Pick>)
    ensures best == BestOf(u, q, Pairs(rates, amts))
  {
    best := None;
    var ri := 0;
    while ri < |rates|
      invariant 0 <= ri <= |rates|
      invariant best == BestOf(u, q, Pairs(rates[..ri], amts))
    {
      var r := rates[ri];
      var rd := u.toDecimal(Some(r));
      ghost var done := Pairs(rates[..ri], amts);
      assert rates[..ri + 1][..ri] == rates[..ri];
      assert Pairs(rates[..ri + 1], amts) == done + Row(r, amts);
      if rd.Some? {
        best := ScanRow(u, q, r, amts, done, best);
      } else {
        UnparseableRateSkipped(u, q, done, r, amts);
      }
      ri := ri + 1;
    }
    assert rates[..ri] == rates;
  }

  /** The pair choice of `li_extract` (`expense_parser.py`, lines 179-204):
      the best-scoring pair when the quantity parses, else the first
      candidate of each column. */
  method PickPair(u: Utils, qd: Option<real>, rateCands: seq<string>, amtCands: seq<string>)
    returns (rate: Option<string>, amount: Option<string>)
    ensures (rate, amount) == ChoosePair(u, qd, rateCands, amtCands)
  {
    rate, amount := None, None;
    if qd.Some? && rateCands != [] && amtCands != [] {
      var best := SearchBestPair(u, qd.value, rateCands, amtCands);
      if best.Some? {
        rate, amount := Some(best.value.rate), Some(best.value.amount);
      }
    }
    if rate.None? && rateCands != [] {
      rate := Some(rateCands[0]);
    }
    if amount.None? && amtCands != [] {
      amount := Some(amtCands[0]);
    }
  }

  /** The repairs of `li_extract` (`expense_parser.py`, lines 206-224):
      fill a missing amount or rate, then undo transposed columns. */
  method FillAndSwap(u: Utils, qtyRaw: Option<string>, qd: Option<real>, rate0: Option<string>, amount0: Option<string>)
    returns (rate: Option<string>, amount: Option<string>)
    ensures var filled := FillGaps(u, qtyRaw, qd, rate0, amount0);
      (rate, amount) == CorrectSwap(u, qd, filled.0, filled.1)
  {
    rate, amount := rate0, amount0;
    if amount.None? {
      var comp := u.computeAmount(qtyRaw, rate);
      amount := if comp.Some? then Some(u.format(comp.value)) else None;
    }
    if rate.None? && qd.Some? && Truthy(amount) {
      var ad := u.toDecimal(amount);
      if ad.Some? && qd.value != 0.0 {
        rate := Some(u.format(Cents(ad.value / qd.value)));
      }
    }
    assert (rate, amount) == FillGaps(u, qtyRaw, qd, rate0, amount0);
    if qd.Some? && !Consistent(u, qd.value, rate, amount) && Consistent(u, qd.value, amount, rate) {
      rate, amount := amount, rate;
    }
  }

  /** `li_extract`, stage by stage as the source does it. */
  method ExtractLineItem(u: Utils, ll: LineLabels, fields: seq<Field>, totalHint: Option<real>) returns (li: LineItem)
    ensures li == ResolveLineItem(u, ll, fields, totalHint)
  {
    var desc, qtyRaw, rateCands, amtCands := CollectByType(ll, fields);
    rateCands, amtCands := CollectByLabel(ll, fields, ColumnValues(ll, TypedRate, fields),
                                          ColumnValues(ll, TypedAmount, fields), rateCands, amtCands);
    amtCands := FilterEchoedTotal(u, amtCands, totalHint);

    var qd := u.toQuantity(qtyRaw);
    var rate, amount := PickPair(u, qd, rateCands, amtCands);
    rate, amount := FillAndSwap(u, qtyRaw, qd, rate, amount);
    li := LineItem(desc, qtyRaw, rate, amount);
  }
}
