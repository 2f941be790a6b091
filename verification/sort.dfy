/** Python's `sorted(xs, key=key, reverse=True)` and `xs.sort(key=key, reverse=True)`:
    descending by an integer key and stable, so that elements with equal keys
    keep their input order. Written as an insertion sort on sequences. */
module StableSort {

  /** Places `x` into `s` after every element whose key is strictly larger. */
  function Insert<T>(x: T, s: seq<T>, key: T -> int): (r: seq<T>)
    ensures |r| == |s| + 1
    ensures multiset(r) == multiset(s) + multiset{x}
  {
    if s == [] || key(s[0]) <= key(x) then [x] + s
    else
      var r := [s[0]] + Insert(x, s[1..], key);
      assert s == [s[0]] + s[1..];
      r
  }

  /** The input sorted by descending key, ties in input order. */
  function SortDesc<T>(xs: seq<T>, key: T -> int): (r: seq<T>)
    ensures |r| == |xs|
    ensures multiset(r) == multiset(xs)
  {
    if xs == [] then []
    else
      assert xs == [xs[0]] + xs[1..];
      Insert(xs[0], SortDesc(xs[1..], key), key)
  }

  ghost predicate SortedDesc<T>(s: seq<T>, key: T -> int) {
    forall i, j :: 0 <= i < j < |s| ==> key(s[i]) >= key(s[j])
  }

  lemma {:induction false} InsertKeepsSorted<T>(x: T, s: seq<T>, key: T -> int)
    requires SortedDesc(s, key)
    ensures SortedDesc(Insert(x, s, key), key)
    ensures Insert(x, s, key)[0] == x || (s != [] && Insert(x, s, key)[0] == s[0])
  {
    if s != [] && key(s[0]) > key(x) {
      InsertKeepsSorted(x, s[1..], key);
      var t := Insert(x, s[1..], key);
      assert forall j :: 0 <= j < |t| ==> key(t[j]) <= key(s[0]) by {
        assert forall j :: 0 <= j < |s| ==> key(s[j]) <= key(s[0]);
        forall j | 0 <= j < |t|
          ensures key(t[j]) <= key(s[0])
        {
          assert t[j] in multiset(t);
          assert t[j] == x || t[j] in multiset(s[1..]);
          if t[j] != x {
            var m :| 0 <= m < |s[1..]| && s[1..][m] == t[j];
            assert s[m + 1] == t[j];
          }
        }
      }
    }
  }

  /** The sort's output is in descending key order. */
  lemma {:induction false} SortDescIsSorted<T>(xs: seq<T>, key: T -> int)
    ensures SortedDesc(SortDesc(xs, key), key)
  {
    if xs != [] {
      SortDescIsSorted(xs[1..], key);
      InsertKeepsSorted(xs[0], SortDesc(xs[1..], key), key);
    }
  }

  /** The elements of `s` whose key is `k`, in order. */
  function WithKey<T>(s: seq<T>, key: T -> int, k: int): seq<T> {
    if s == [] then []
    else (if key(s[0]) == k then [s[0]] else []) + WithKey(s[1..], key, k)
  }

  lemma WithKeyCons<T>(y: T, t: seq<T>, key: T -> int, k: int)
    ensures WithKey([y] + t, key, k) == (if key(y) == k then [y] else []) + WithKey(t, key, k)
  {
    assert ([y] + t)[1..] == t;
  }

  lemma {:induction false} InsertWithKey<T>(x: T, s: seq<T>, key: T -> int, k: int)
    ensures WithKey(Insert(x, s, key), key, k) == (if key(x) == k then [x] else []) + WithKey(s, key, k)
  {
    if s == [] || key(s[0]) <= key(x) {
      WithKeyCons(x, s, key, k);
    } else {
      var t := Insert(x, s[1..], key);
      assert Insert(x, s, key) == [s[0]] + t;
      InsertWithKey(x, s[1..], key, k);
      WithKeyCons(s[0], t, key, k);
      assert WithKey(s, key, k) == (if key(s[0]) == k then [s[0]] else []) + WithKey(s[1..], key, k);
      if key(x) == k {
        assert key(s[0]) != k;
        assert WithKey(Insert(x, s, key), key, k) == WithKey(t, key, k);
      } else {
        assert WithKey(t, key, k) == WithKey(s[1..], key, k);
      }
    }
  }

  /** Stability: for every key, the elements with that key appear in the
      output in the same order as in the input. */
  lemma {:induction false} SortDescIsStable<T>(xs: seq<T>, key: T -> int, k: int)
    ensures WithKey(SortDesc(xs, key), key, k) == WithKey(xs, key, k)
  {
    if xs != [] {
      SortDescIsStable(xs[1..], key, k);
      InsertWithKey(xs[0], SortDesc(xs[1..], key), key, k);
    }
  }

  /** The index of the earliest element of `xs` with the largest key. */
  function FirstMaxIndex<T>(xs: seq<T>, key: T -> int): (i: nat)
    requires xs != []
    ensures i < |xs|
    ensures forall j :: 0 <= j < |xs| ==> key(xs[j]) <= key(xs[i])
    ensures forall j :: 0 <= j < i ==> key(xs[j]) < key(xs[i])
  {
    if |xs| == 1 then 0
    else
      var i := FirstMaxIndex(xs[1..], key) + 1;
      assert forall j :: 1 <= j < |xs| ==> xs[j] == xs[1..][j - 1];
      if key(xs[i]) <= key(xs[0]) then 0 else i
  }

  /** The first element of the sorted output is the earliest element of the
      input whose key is the largest. */
  lemma {:induction false} SortDescHead<T>(xs: seq<T>, key: T -> int)
    requires xs != []
    ensures SortDesc(xs, key)[0] == xs[FirstMaxIndex(xs, key)]
  {
    var rest := xs[1..];
    var s := SortDesc(rest, key);
    assert SortDesc(xs, key) == Insert(xs[0], s, key);
    if rest != [] {
      SortDescHead(rest, key);
    }
  }

  /** The total weight of the elements of `s`. */
  function SumOf<T>(s: seq<T>, w: T -> nat): nat {
    if s == [] then 0 else w(s[0]) + SumOf(s[1..], w)
  }

  lemma {:induction false} SumOfAppend<T>(a: seq<T>, b: seq<T>, w: T -> nat)
    ensures SumOf(a + b, w) == SumOf(a, w) + SumOf(b, w)
  {
    if a != [] {
      SumOfAppend(a[1..], b, w);
      assert (a + b)[1..] == a[1..] + b;
    } else {
      assert a + b == b;
    }
  }

  lemma {:induction false} InsertSum<T>(x: T, s: seq<T>, key: T -> int, w: T -> nat)
    ensures SumOf(Insert(x, s, key), w) == w(x) + SumOf(s, w)
  {
    if s == [] || key(s[0]) <= key(x) {
      assert ([x] + s)[1..] == s;
    } else {
      InsertSum(x, s[1..], key, w);
      assert ([s[0]] + Insert(x, s[1..], key))[1..] == Insert(x, s[1..], key);
    }
  }

  /** Sorting neither adds nor loses weight. */
  lemma {:induction false} SortDescSum<T>(xs: seq<T>, key: T -> int, w: T -> nat)
    ensures SumOf(SortDesc(xs, key), w) == SumOf(xs, w)
  {
    if xs != [] {
      SortDescSum(xs[1..], key, w);
      InsertSum(xs[0], SortDesc(xs[1..], key), key, w);
    }
  }
}
