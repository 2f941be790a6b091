/** Values, text helpers and collection helpers shared by every component. */
module Common {

  datatype Option<T> = None | Some(value: T)

  /** Python truthiness of an optional string: present and non-empty. */
  predicate Truthy(o: Option<string>) {
    o.Some? && o.value != ""
  }

  // ------------------------------------------------------------------ text

  /** The characters for which Python's `str.isspace()` holds; `str.strip()`
      and the regular-expression class `\s` both use this set. */
  predicate IsSpace(c: char) {
    c == ' ' || '\t' <= c <= '\r' || '\U{1C}' <= c <= '\U{1F}' || c == '\U{85}' || c == '\U{A0}'
    || c == '\U{1680}' || '\U{2000}' <= c <= '\U{200A}' || c == '\U{2028}' || c == '\U{2029}'
    || c == '\U{202F}' || c == '\U{205F}' || c == '\U{3000}'
  }

  predicate AllSpace(s: string) {
    forall i :: 0 <= i < |s| ==> IsSpace(s[i])
  }

  /** `s.lstrip()`: the longest suffix of `s` that does not start with whitespace. */
  function TrimLeft(s: string): (r: string)
    ensures |r| <= |s| && r == s[|s| - |r|..]
    ensures r == [] || !IsSpace(r[0])
  {
    if s != [] && IsSpace(s[0]) then TrimLeft(s[1..]) else s
  }

  /** What `lstrip` removes is whitespace. */
  lemma {:induction false} TrimLeftRemovesSpace(s: string)
    ensures AllSpace(s[..|s| - |TrimLeft(s)|])
  {
    if s != [] && IsSpace(s[0]) {
      var t := s[1..];
      var r := TrimLeft(t);
      TrimLeftRemovesSpace(t);
      var n := |s| - |r|;
      assert TrimLeft(s) == r;
      forall i | 0 <= i < n
        ensures IsSpace(s[..n][i])
      {
        if i > 0 {
          assert s[..n][i] == t[..n - 1][i - 1];
        }
      }
    }
  }

  /** `s.rstrip()`: the longest prefix of `s` that does not end with whitespace. */
  function TrimRight(s: string): (r: string)
    ensures |r| <= |s| && r == s[..|r|]
    ensures r == [] || !IsSpace(r[|r| - 1])
  {
    if s != [] && IsSpace(s[|s| - 1]) then TrimRight(s[..|s| - 1]) else s
  }

  /** What `rstrip` removes is whitespace. */
  lemma {:induction false} TrimRightRemovesSpace(s: string)
    ensures AllSpace(s[|TrimRight(s)|..])
  {
    if s != [] && IsSpace(s[|s| - 1]) {
      var t := s[..|s| - 1];
      var r := TrimRight(t);
      TrimRightRemovesSpace(t);
      assert TrimRight(s) == r;
      forall i | 0 <= i < |s| - |r|
        ensures IsSpace(s[|r|..][i])
      {
        if i < |s| - 1 - |r| {
          assert s[|r|..][i] == t[|r|..][i];
        }
      }
    }
  }

  /** `s.strip()`: `s` without its leading and trailing whitespace. */
  function Strip(s: string): (r: string)
    ensures |r| <= |s|
    ensures r == [] || (!IsSpace(r[0]) && !IsSpace(r[|r| - 1]))
  {
    TrimRight(TrimLeft(s))
  }

  /** `Strip(s)` is `s` with a run of whitespace removed at each end, and
      nothing else removed. */
  lemma StripRemovesOnlySpace(s: string)
    ensures var r := Strip(s);
      exists i :: 0 <= i <= |s| - |r| && r == s[i..i + |r|] && AllSpace(s[..i]) && AllSpace(s[i + |r|..])
  {
    var l := TrimLeft(s);
    var r := TrimRight(l);
    var i := |s| - |l|;
    TrimLeftRemovesSpace(s);
    TrimRightRemovesSpace(l);
    assert r == s[i..i + |r|];
    assert s[i + |r|..] == l[|r|..];
  }

  /** Stripping twice is stripping once. */
  lemma StripIdempotent(s: string)
    ensures Strip(Strip(s)) == Strip(s)
  {
    var r := Strip(s);
    assert TrimLeft(r) == r;
    assert TrimRight(r) == r;
  }

  /** A string strips to nothing exactly when it is all whitespace. */
  lemma StripEmptyIffAllSpace(s: string)
    ensures Strip(s) == "" <==> AllSpace(s)
  {
    StripRemovesOnlySpace(s);
  }

  /** Text with no whitespace at either end strips to itself. */
  lemma StripNoOp(s: string)
    requires s != [] && !IsSpace(s[0]) && !IsSpace(s[|s| - 1])
    ensures Strip(s) == s
  {
    assert TrimLeft(s) == s;
  }

  function LowerChar(c: char): char {
    if 'A' <= c <= 'Z' then (c as int + 32) as char else c
  }

  function UpperChar(c: char): char {
    if 'a' <= c <= 'z' then (c as int - 32) as char else c
  }

  /** `s.lower()` on the ASCII letters. */
  function Lower(s: string): (r: string)
    ensures |r| == |s| && forall i :: 0 <= i < |s| ==> r[i] == LowerChar(s[i])
  {
    seq(|s|, i requires 0 <= i < |s| => LowerChar(s[i]))
  }

  /** `s.upper()` on the ASCII letters. */
  function Upper(s: string): (r: string)
    ensures |r| == |s| && forall i :: 0 <= i < |s| ==> r[i] == UpperChar(s[i])
  {
    seq(|s|, i requires 0 <= i < |s| => UpperChar(s[i]))
  }

  // ------------------------------------------------------------ sequences

  predicate NoDup<T(==)>(s: seq<T>) {
    forall i, j :: 0 <= i < j < |s| ==> s[i] != s[j]
  }

  /** The distinct elements of `xs`, each at the place of its first occurrence. */
  function Dedup<T(==)>(xs: seq<T>): (r: seq<T>)
    ensures NoDup(r)
    ensures forall i :: 0 <= i < |r| ==> r[i] in xs
    ensures forall i :: 0 <= i < |xs| ==> xs[i] in r
  {
    if xs == [] then []
    else
      var d := Dedup(xs[..|xs| - 1]);
      assert xs == xs[..|xs| - 1] + [xs[|xs| - 1]];
      if xs[|xs| - 1] in d then d else d + [xs[|xs| - 1]]
  }

  lemma DedupSnoc<T>(xs: seq<T>, x: T)
    ensures Dedup(xs + [x]) == if x in Dedup(xs) then Dedup(xs) else Dedup(xs) + [x]
  {
    assert (xs + [x])[..|xs|] == xs;
  }

  /** First-seen order: what is collected from a prefix of the input stays a
      prefix of what is collected from the whole input. */
  lemma {:induction false} DedupPrefix<T>(xs: seq<T>, m: nat)
    requires m <= |xs|
    ensures Dedup(xs[..m]) <= Dedup(xs)
    decreases |xs|
  {
    if m < |xs| {
      assert xs[..|xs| - 1][..m] == xs[..m];
      DedupPrefix(xs[..|xs| - 1], m);
    } else {
      assert xs[..m] == xs;
    }
  }

  /** The concatenation of the sequences in `xss`, in order. */
  function Flatten<T>(xss: seq<seq<T>>): seq<T> {
    if xss == [] then [] else Flatten(xss[..|xss| - 1]) + xss[|xss| - 1]
  }

  lemma FlattenSnoc<T>(xss: seq<seq<T>>, xs: seq<T>)
    ensures Flatten(xss + [xs]) == Flatten(xss) + xs
  {
    assert (xss + [xs])[..|xss|] == xss;
  }

  /** Flattening one more element of a prefix of `xss`. */
  lemma FlattenPrefixSnoc<T>(xss: seq<seq<T>>, p: nat)
    requires p < |xss|
    ensures Flatten(xss[..p + 1]) == Flatten(xss[..p]) + xss[p]
  {
    assert xss[..p + 1] == xss[..p] + [xss[p]];
    FlattenSnoc(xss[..p], xss[p]);
  }

  lemma TakeSnoc<T>(ys: seq<T>, k: nat)
    requires k < |ys|
    ensures ys[..k + 1] == ys[..k] + [ys[k]]
  {
  }

  /** Extending a prefix of `ys`, appended to `xs`, by one element. */
  lemma AppendPrefixSnoc<T>(xs: seq<T>, ys: seq<T>, k: nat)
    requires k < |ys|
    ensures xs + ys[..k + 1] == (xs + ys[..k]) + [ys[k]]
  {
    assert ys[..k + 1] == ys[..k] + [ys[k]];
  }

  /** `[f(x) for x in xs]`. */
  function MapSeq<A, B>(f: A -> B, xs: seq<A>): seq<B> {
    seq(|xs|, i requires 0 <= i < |xs| => f(xs[i]))
  }

  lemma MapSeqSnoc<A, B>(f: A -> B, xs: seq<A>, x: A)
    ensures MapSeq(f, xs + [x]) == MapSeq(f, xs) + [f(x)]
  {
    assert (xs + [x])[..|xs|] == xs;
  }

  /** `f` applied to each element in turn, starting from `acc`. */
  function FoldLeft<A, B>(f: (B, A) -> B, acc: B, xs: seq<A>): B {
    if xs == [] then acc else f(FoldLeft(f, acc, xs[..|xs| - 1]), xs[|xs| - 1])
  }

  /** Folding over `a + b` is folding over `b` from the result for `a`. */
  lemma {:induction false} FoldLeftAppend<A, B>(f: (B, A) -> B, acc: B, a: seq<A>, b: seq<A>)
    ensures FoldLeft(f, acc, a + b) == FoldLeft(f, FoldLeft(f, acc, a), b)
  {
    if b == [] {
      assert a + b == a;
    } else {
      var init := b[..|b| - 1];
      FoldLeftAppend(f, acc, a, init);
      assert (a + b)[..|a + b| - 1] == a + init;
    }
  }

  /** `[x for x in xs if p(x)]`. */
  function Filter<T>(p: T -> bool, xs: seq<T>): (r: seq<T>)
    ensures |r| <= |xs|
    ensures forall i :: 0 <= i < |r| ==> p(r[i]) && r[i] in xs
    ensures forall i :: 0 <= i < |xs| && p(xs[i]) ==> xs[i] in r
    ensures r == [] <==> forall i :: 0 <= i < |xs| ==> !p(xs[i])
  {
    if xs == [] then []
    else
      var init := xs[..|xs| - 1];
      var r := Filter(p, init) + (if p(xs[|xs| - 1]) then [xs[|xs| - 1]] else []);
      assert forall i :: 0 <= i < |xs| - 1 ==> xs[i] == init[i];
      r
  }

  /** Filtering only removes elements: the kept ones stay in order. */
  lemma {:induction false} FilterIsSubsequence<T>(p: T -> bool, xs: seq<T>)
    ensures SubsequenceOf(Filter(p, xs), xs)
  {
    if xs != [] {
      var init := xs[..|xs| - 1];
      var x := xs[|xs| - 1];
      var r := Filter(p, init);
      FilterIsSubsequence(p, init);
      assert init + [x] == xs;
      SubsequenceOfSnoc(r, init, x);
      if p(x) {
        assert Filter(p, xs) == r + [x];
      } else {
        assert Filter(p, xs) == r;
      }
    }
  }

  /** `[f(x).value for x in xs if f(x) is not None]`. */
  function FilterMap<A, B>(f: A -> Option<B>, xs: seq<A>): seq<B> {
    if xs == [] then []
    else
      var y := f(xs[|xs| - 1]);
      FilterMap(f, xs[..|xs| - 1]) + (if y.Some? then [y.value] else [])
  }

  /** The positions of `xs` at which `f` yields a value, in order. */
  function KeptIndices<A, B>(f: A -> Option<B>, xs: seq<A>): (ks: seq<nat>)
    ensures forall j :: 0 <= j < |ks| ==> ks[j] < |xs|
  {
    if xs == [] then []
    else KeptIndices(f, xs[..|xs| - 1]) + (if f(xs[|xs| - 1]).Some? then [|xs| - 1] else [])
  }

  /** `FilterMap` is an order-preserving selection: its `j`-th element is
      `f` at the `j`-th kept position, the kept positions increase, and a
      position is kept exactly when `f` yields a value there. */
  lemma {:induction false} FilterMapSelects<A, B>(f: A -> Option<B>, xs: seq<A>)
    ensures var out := FilterMap(f, xs);
      var ks := KeptIndices(f, xs);
      && |out| == |ks|
      && (forall j :: 0 <= j < |ks| ==> f(xs[ks[j]]) == Some(out[j]))
      && (forall j, k :: 0 <= j < k < |ks| ==> ks[j] < ks[k])
      && (forall i :: 0 <= i < |xs| ==> (i in ks <==> f(xs[i]).Some?))
  {
    if xs != [] {
      var n := |xs| - 1;
      var init := xs[..n];
      FilterMapSelects(f, init);
      var ks0 := KeptIndices(f, init);
      assert forall j :: 0 <= j < |ks0| ==> ks0[j] < n;
      assert forall i :: 0 <= i < n ==> xs[i] == init[i];
    }
  }

  /** Every output of `FilterMap` is `f` of some input, and every value
      `f` yields on an input is an output. */
  lemma {:induction false} FilterMapMembers<A, B>(f: A -> Option<B>, xs: seq<A>)
    ensures forall y :: y in FilterMap(f, xs) ==> exists x :: x in xs && f(x) == Some(y)
    ensures forall x :: x in xs && f(x).Some? ==> f(x).value in FilterMap(f, xs)
  {
    if xs != [] {
      var init, last := xs[..|xs| - 1], xs[|xs| - 1];
      FilterMapMembers(f, init);
      assert xs == init + [last];
    }
  }

  /** `FilterMap` over each inner list in turn, with the function `f`
      chooses for that list, the results concatenated. */
  function Gather<T, E>(f: seq<T> -> T -> Option<E>, xss: seq<seq<T>>): seq<E> {
    if xss == [] then [] else Gather(f, xss[..|xss| - 1]) + FilterMap(f(xss[|xss| - 1]), xss[|xss| - 1])
  }

  /** Every gathered value comes from some element of some inner list, and
      every value offered for an element is gathered. */
  lemma {:induction false} GatherMembers<T, E>(f: seq<T> -> T -> Option<E>, xss: seq<seq<T>>)
    ensures forall e :: e in Gather(f, xss) ==>
      exists p, x :: 0 <= p < |xss| && x in xss[p] && f(xss[p])(x) == Some(e)
    ensures forall p, x :: 0 <= p < |xss| && x in xss[p] && f(xss[p])(x).Some? ==>
      f(xss[p])(x).value in Gather(f, xss)
  {
    if xss != [] {
      var init, xs := xss[..|xss| - 1], xss[|xss| - 1];
      GatherMembers(f, init);
      FilterMapMembers(f(xs), xs);
      assert forall p :: 0 <= p < |init| ==> init[p] == xss[p];
      forall e | e in Gather(f, xss)
        ensures exists p, x :: 0 <= p < |xss| && x in xss[p] && f(xss[p])(x) == Some(e)
      {
        if e in Gather(f, init) {
          var p, x :| 0 <= p < |init| && x in init[p] && f(init[p])(x) == Some(e);
          assert xss[p] == init[p];
        } else {
          var x :| x in xs && f(xs)(x) == Some(e);
          assert xss[|xss| - 1] == xs;
        }
      }
    }
  }

  /** `xs` is an order-preserving sub-list of `ys` (some entries removed, none added or moved). */
  predicate SubsequenceOf<T(==)>(xs: seq<T>, ys: seq<T>)
    decreases |ys|
  {
    if xs == [] then true
    else if ys == [] then false
    else (xs[|xs| - 1] == ys[|ys| - 1] && SubsequenceOf(xs[..|xs| - 1], ys[..|ys| - 1]))
         || SubsequenceOf(xs, ys[..|ys| - 1])
  }

  /** Every list is a sub-list of itself. */
  lemma {:induction false} SubsequenceOfSelf<T>(xs: seq<T>)
    ensures SubsequenceOf(xs, xs)
  {
    if xs != [] {
      SubsequenceOfSelf(xs[..|xs| - 1]);
    }
  }

  lemma SubsequenceOfSnoc<T>(xs: seq<T>, ys: seq<T>, y: T)
    requires SubsequenceOf(xs, ys)
    ensures SubsequenceOf(xs, ys + [y]) && SubsequenceOf(xs + [y], ys + [y])
  {
    assert (ys + [y])[..|ys|] == ys;
    assert (xs + [y])[..|xs|] == xs;
  }

  // ------------------------------------------------------- ordered dicts

  /** A Python `dict`: a map plus the insertion order of its keys. Assigning
      to a key already present keeps that key's place. */
  datatype OrderedDict<V> = OrderedDict(keys: seq<string>, values: map<string, V>) {

    ghost predicate Valid() {
      NoDup(keys) && forall k :: k in values <==> k in keys
    }

    /** `d[k] = v`. */
    function Put(k: string, v: V): (d: OrderedDict<V>)
      requires Valid()
      ensures d.Valid()
      ensures d.values == values[k := v]
      ensures d.keys == if k in values then keys else keys + [k]
    {
      if k in values then OrderedDict(keys, values[k := v]) else OrderedDict(keys + [k], values[k := v])
    }
  }

  /** Every entry of the dict satisfies `p`. */
  ghost predicate AllEntries<V>(d: OrderedDict<V>, p: (string, V) -> bool) {
    forall k :: k in d.values ==> p(k, d.values[k])
  }

  /** Assigning an entry that satisfies `p` keeps every entry satisfying `p`. */
  lemma PutKeepsAllEntries<V>(d: OrderedDict<V>, k: string, v: V, p: (string, V) -> bool)
    requires d.Valid() && AllEntries(d, p) && p(k, v)
    ensures AllEntries(d.Put(k, v), p)
  {
  }

  function EmptyDict<V>(): (d: OrderedDict<V>)
    ensures d.Valid() && d.keys == [] && d.values == map[]
  {
    OrderedDict([], map[])
  }
}
