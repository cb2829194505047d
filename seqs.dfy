/** The array operations the JavaScript code chains together: `filter`,
    `slice(0, n)` and a stable `sort` by a numeric key. */
module Seqs {

  /** `a` is obtained from `b` by deleting elements, keeping the order. */
  predicate IsSubseq<T(==)>(a: seq<T>, b: seq<T>)
    decreases |b|
  {
    if a == [] then true
    else if b == [] then false
    else if a[0] == b[0] then IsSubseq(a[1..], b[1..])
    else IsSubseq(a, b[1..])
  }

  /** `s.filter(p)`: the elements satisfying `p`, each as often as in `s`, in order. */
  function Filter<T(==, !new)>(s: seq<T>, p: T -> bool): (r: seq<T>)
    ensures |r| <= |s|
    ensures forall x :: x in r <==> x in s && p(x)
    ensures forall i :: 0 <= i < |r| ==> p(r[i])
    ensures IsSubseq(r, s)
  {
    if s == [] then []
    else
      var rest := Filter(s[1..], p);
      if p(s[0]) then [s[0]] + rest else rest
  }

  /** Every element satisfying `p` is kept as often as it occurs in `s`. */
  lemma {:induction false} FilterCount<T(!new)>(s: seq<T>, p: T -> bool, x: T)
    ensures multiset(Filter(s, p))[x] == if p(x) then multiset(s)[x] else 0
  {
    if s != [] {
      FilterCount(s[1..], p, x);
      assert s == [s[0]] + s[1..];
    }
  }

  lemma {:induction false} FilterAppend<T(!new)>(a: seq<T>, b: seq<T>, p: T -> bool)
    ensures Filter(a + b, p) == Filter(a, p) + Filter(b, p)
  {
    if a == [] {
      assert a + b == b;
    } else {
      assert (a + b)[0] == a[0];
      assert (a + b)[1..] == a[1..] + b;
      FilterAppend(a[1..], b, p);
    }
  }

  /** Filtering with a predicate every element satisfies changes nothing. */
  lemma {:induction false} FilterKeepsAll<T(!new)>(s: seq<T>, p: T -> bool)
    requires forall i :: 0 <= i < |s| ==> p(s[i])
    ensures Filter(s, p) == s
  {
    if s != [] {
      FilterKeepsAll(s[1..], p);
    }
  }

  /** The index `s.find(p)` stops at: the first element satisfying `p`, or -1
      when there is none. */
  function FindIndex<T>(s: seq<T>, p: T -> bool): (i: int)
    ensures -1 <= i < |s|
    ensures i >= 0 ==> p(s[i]) && forall j :: 0 <= j < i ==> !p(s[j])
    ensures i == -1 <==> forall j :: 0 <= j < |s| ==> !p(s[j])
  {
    if s == [] then -1
    else if p(s[0]) then 0
    else
      var i := FindIndex(s[1..], p);
      if i == -1 then -1 else i + 1
  }

  /** `s.slice(0, n)` for `n >= 0`. */
  function Take<T>(s: seq<T>, n: nat): (r: seq<T>)
    ensures |r| == if |s| <= n then |s| else n
    ensures forall i :: 0 <= i < |r| ==> r[i] == s[i]
  {
    if |s| <= n then s else s[..n]
  }

  /** The values of a list of (key, value) pairs, keys dropped. */
  function Values<T>(s: seq<(int, T)>): (r: seq<T>)
    ensures |r| == |s| && forall i :: 0 <= i < |s| ==> r[i] == s[i].1
  {
    seq(|s|, i requires 0 <= i < |s| => s[i].1)
  }

  /** The values of the first `n` pairs of a list sorted by key are the
      earliest: a value is kept when fewer than `n` are kept, or when some
      kept pair has a strictly greater key. */
  lemma TakeValuesEarliest<T>(s: seq<(int, T)>, n: nat, p: nat)
    requires SortedByKey(s) && p < |s|
    ensures var r := Values(Take(s, n));
      && (|r| < n ==> s[p].1 in r)
      && (forall i :: 0 <= i < |r| && s[p].0 < s[i].0 ==> s[p].1 in r)
  {
    var r := Values(Take(s, n));
    if p < |r| {
      assert r[p] == s[p].1;
    }
  }

  /** The values taken from a list sorted by a function of its values
      ascend by that function and come from `from` when the list does. */
  lemma TakeValuesSortedBy<T>(s: seq<(int, T)>, key: T -> int, n: nat, from: seq<T>)
    requires SortedByKey(s)
    requires forall i :: 0 <= i < |s| ==> s[i].0 == key(s[i].1) && s[i].1 in from
    ensures var r := Values(Take(s, n));
      && |r| <= n
      && (forall x :: x in r ==> x in from)
      && (forall i, j :: 0 <= i < j < |r| ==> key(r[i]) <= key(r[j]))
  {
    var r := Values(Take(s, n));
    forall x | x in r ensures x in from {
      var i :| 0 <= i < |r| && r[i] == x;
      assert x == s[i].1;
    }
    forall i, j | 0 <= i < j < |r| ensures key(r[i]) <= key(r[j]) {
      assert r[i] == s[i].1 && r[j] == s[j].1;
    }
  }

  /** The same, for a list keyed by a function of its values: a value whose
      key is strictly earlier than that of a taken value is taken too. */
  lemma TakeValuesEarliestBy<T>(s: seq<(int, T)>, key: T -> int, n: nat, p: nat)
    requires SortedByKey(s) && p < |s|
    requires forall i :: 0 <= i < |s| ==> s[i].0 == key(s[i].1)
    ensures var r := Values(Take(s, n));
      && (|r| < n ==> s[p].1 in r)
      && (forall x :: x in r && key(s[p].1) < key(x) ==> s[p].1 in r)
  {
    var r := Values(Take(s, n));
    TakeValuesEarliest(s, n, p);
    forall x | x in r && key(s[p].1) < key(x) ensures s[p].1 in r {
      var i :| 0 <= i < |r| && r[i] == x;
      assert s[i].1 == x;
    }
  }

  // ---------------------------------------------------------------------
  // Stable sorting of (key, value) pairs by key.  JavaScript's
  // `Array.prototype.sort` is stable, so with a comparator `(a, b) => ka - kb`
  // its result is determined: sorted by key, equal keys in input order.

  predicate SortedByKey<T>(s: seq<(int, T)>) {
    forall i, j :: 0 <= i < j < |s| ==> s[i].0 <= s[j].0
  }

  /** The pairs of `s` whose key is `k`, in order. */
  function WithKey<T>(s: seq<(int, T)>, k: int): seq<(int, T)> {
    if s == [] then []
    else (if s[0].0 == k then [s[0]] else []) + WithKey(s[1..], k)
  }

  /** Inserts `x` after every pair whose key is at most `x`'s. */
  function Insert<T>(x: (int, T), s: seq<(int, T)>): seq<(int, T)> {
    if s == [] then [x]
    else if x.0 < s[0].0 then [x] + s
    else [s[0]] + Insert(x, s[1..])
  }

  /** Insertion sort, taking the elements of `s` in input order. */
  function StableSort<T>(s: seq<(int, T)>): seq<(int, T)> {
    if s == [] then []
    else Insert(s[|s| - 1], StableSort(s[..|s| - 1]))
  }

  lemma {:induction false} InsertPerm<T>(x: (int, T), s: seq<(int, T)>)
    ensures multiset(Insert(x, s)) == multiset(s) + multiset{x}
  {
    if s != [] && x.0 >= s[0].0 {
      InsertPerm(x, s[1..]);
      assert s == [s[0]] + s[1..];
    }
  }

  lemma {:induction false} InsertSorted<T>(x: (int, T), s: seq<(int, T)>)
    requires SortedByKey(s)
    ensures SortedByKey(Insert(x, s))
  {
    if s != [] && x.0 >= s[0].0 {
      InsertSorted(x, s[1..]);
      var r := Insert(x, s[1..]);
      InsertPerm(x, s[1..]);
      forall j | 0 <= j < |r| ensures s[0].0 <= r[j].0 {
        assert r[j] in multiset(r);
        if r[j] != x {
          assert r[j] in multiset(s[1..]);
          var i :| 0 <= i < |s[1..]| && s[1..][i] == r[j];
          assert s[i + 1] == r[j];
        }
      }
      assert Insert(x, s) == [s[0]] + r;
    }
  }

  lemma {:induction false} InsertWithKey<T>(x: (int, T), s: seq<(int, T)>, k: int)
    requires SortedByKey(s)
    ensures WithKey(Insert(x, s), k) == WithKey(s, k) + (if x.0 == k then [x] else [])
  {
    if s == [] {
    } else if x.0 < s[0].0 {
      assert Insert(x, s) == [x] + s;
      WithKeyCons(x, s, k);
      if x.0 == k {
        NoSmallKey(s, k);
      }
    } else {
      var t := s[1..];
      SortedTail(s);
      InsertWithKey(x, t, k);
      var r := Insert(x, t);
      assert Insert(x, s) == [s[0]] + r;
      WithKeyCons(s[0], r, k);
      assert s == [s[0]] + t;
      WithKeyCons(s[0], t, k);
    }
  }

  lemma WithKeyCons<T>(y: (int, T), s: seq<(int, T)>, k: int)
    ensures WithKey([y] + s, k) == (if y.0 == k then [y] else []) + WithKey(s, k)
  {
    assert ([y] + s)[1..] == s;
  }

  lemma SortedTail<T>(s: seq<(int, T)>)
    requires SortedByKey(s) && s != []
    ensures SortedByKey(s[1..])
  {
    forall i, j | 0 <= i < j < |s[1..]| ensures s[1..][i].0 <= s[1..][j].0 {
      assert s[1..][i] == s[i + 1] && s[1..][j] == s[j + 1];
    }
  }

  lemma {:induction false} NoSmallKey<T>(s: seq<(int, T)>, k: int)
    requires SortedByKey(s) && s != [] && k < s[0].0
    ensures WithKey(s, k) == []
  {
    if |s| > 1 {
      NoSmallKey(s[1..], k);
    }
  }

  lemma {:induction false} WithKeySnoc<T>(s: seq<(int, T)>, x: (int, T), k: int)
    ensures WithKey(s + [x], k) == WithKey(s, k) + (if x.0 == k then [x] else [])
  {
    if s != [] {
      assert (s + [x])[1..] == s[1..] + [x];
      WithKeySnoc(s[1..], x, k);
    }
  }

  /** The sort orders by key, permutes its input, and keeps pairs with equal
      keys in their input order (stability). */
  lemma {:induction false} StableSortCorrect<T>(s: seq<(int, T)>)
    ensures SortedByKey(StableSort(s))
    ensures multiset(StableSort(s)) == multiset(s)
    ensures forall k :: WithKey(StableSort(s), k) == WithKey(s, k)
  {
    if s != [] {
      var init, x := s[..|s| - 1], s[|s| - 1];
      assert s == init + [x];
      StableSortCorrect(init);
      InsertSorted(x, StableSort(init));
      InsertPerm(x, StableSort(init));
      forall k ensures WithKey(StableSort(s), k) == WithKey(s, k) {
        InsertWithKey(x, StableSort(init), k);
        WithKeySnoc(init, x, k);
      }
    }
  }

  /** The first pair with key `k` is the earliest pair of `s` that has it. */
  lemma {:induction false} FirstWithKey<T>(s: seq<(int, T)>, k: int)
    requires WithKey(s, k) != []
    ensures exists i :: 0 <= i < |s| && s[i] == WithKey(s, k)[0]
                        && s[i].0 == k && forall j :: 0 <= j < i ==> s[j].0 != k
  {
    if s[0].0 != k {
      FirstWithKey(s[1..], k);
      var i :| 0 <= i < |s[1..]| && s[1..][i] == WithKey(s[1..], k)[0]
               && s[1..][i].0 == k && forall j :: 0 <= j < i ==> s[1..][j].0 != k;
      assert s[i + 1] == WithKey(s, k)[0];
      assert forall j :: 0 <= j < i + 1 ==> s[j].0 != k by {
        forall j | 0 <= j < i + 1 ensures s[j].0 != k {
          if j > 0 { assert s[j] == s[1..][j - 1]; }
        }
      }
    } else {
      assert s[0] == WithKey(s, k)[0];
    }
  }

  lemma {:induction false} WithKeyHead<T>(s: seq<(int, T)>)
    requires s != []
    ensures WithKey(s, s[0].0) != [] && WithKey(s, s[0].0)[0] == s[0]
  {
  }

  /** The head of the sorted sequence has the smallest key, and among the
      pairs with that key it is the one that came first in `s`. */
  lemma StableSortHead<T>(s: seq<(int, T)>)
    requires s != []
    ensures |StableSort(s)| == |s|
    ensures forall i :: 0 <= i < |s| ==> StableSort(s)[0].0 <= s[i].0
    ensures exists i :: 0 <= i < |s| && s[i] == StableSort(s)[0]
                        && forall j :: 0 <= j < i ==> s[j].0 > s[i].0
  {
    var r := StableSort(s);
    StableSortCorrect(s);
    assert |r| == |multiset(r)| == |multiset(s)| == |s|;
    forall i | 0 <= i < |s| ensures r[0].0 <= s[i].0 {
      assert s[i] in multiset(r);
      var j :| 0 <= j < |r| && r[j] == s[i];
    }
    var k := r[0].0;
    WithKeyHead(r);
    FirstWithKey(s, k);
  }
}
