/** Stable sorting by a key, as Python's `sort(key=...)`, and the order of strings and of
    tuples of strings it compares keys in. */
module Sorting {

  // ------------------------------------------------------------- the orders

  /** Strings by their first different character. */
  predicate Less(a: string, b: string) {
    if b == "" then false
    else if a == "" then true
    else if a[0] == b[0] then Less(a[1..], b[1..]) else a[0] < b[0]
  }

  /** Tuples of strings by their first different component. */
  predicate TupleLess(a: seq<string>, b: seq<string>) {
    if b == [] then false
    else if a == [] then true
    else if a[0] == b[0] then TupleLess(a[1..], b[1..]) else Less(a[0], b[0])
  }

  ghost predicate IsOrder<K(!new)>(less: (K, K) -> bool) {
    && (forall a :: !less(a, a))
    && (forall a, b :: a == b || less(a, b) || less(b, a))
    && (forall a, b, c :: less(a, b) && less(b, c) ==> less(a, c))
  }

  lemma {:induction false} LessIsTotal(a: string, b: string)
    ensures !Less(a, a)
    ensures a == b || Less(a, b) || Less(b, a)
  {
    if a != "" {
      LessIsTotal(a[1..], if b == "" then "" else b[1..]);
      if b != "" && a[0] == b[0] && a[1..] == b[1..] {
        assert a == [a[0]] + a[1..] && b == [b[0]] + b[1..];
      }
    }
  }

  lemma {:induction false} LessIsTransitive(a: string, b: string, c: string)
    requires Less(a, b) && Less(b, c)
    ensures Less(a, c)
  {
    if a != "" && a[0] == b[0] == c[0] { LessIsTransitive(a[1..], b[1..], c[1..]); }
  }

  lemma {:induction false} TupleLessIsTotal(a: seq<string>, b: seq<string>)
    ensures !TupleLess(a, a)
    ensures a == b || TupleLess(a, b) || TupleLess(b, a)
  {
    if a != [] {
      TupleLessIsTotal(a[1..], if b == [] then [] else b[1..]);
      if b != [] {
        LessIsTotal(a[0], b[0]);
        if a[0] == b[0] && a[1..] == b[1..] {
          assert a == [a[0]] + a[1..] && b == [b[0]] + b[1..];
        }
      }
    }
  }

  lemma {:induction false} TupleLessIsTransitive(a: seq<string>, b: seq<string>, c: seq<string>)
    requires TupleLess(a, b) && TupleLess(b, c)
    ensures TupleLess(a, c)
  {
    if a != [] {
      if a[0] == b[0] == c[0] {
        TupleLessIsTransitive(a[1..], b[1..], c[1..]);
      } else if a[0] != b[0] && b[0] != c[0] {
        LessIsTransitive(a[0], b[0], c[0]);
        LessIsTotal(a[0], a[0]);
      }
    }
  }

  const ByText: (string, string) -> bool := (a: string, b: string) => Less(a, b)
  const ByTuple: (seq<string>, seq<string>) -> bool := (a: seq<string>, b: seq<string>) => TupleLess(a, b)

  lemma TuplesAreOrdered()
    ensures IsOrder(ByTuple)
  {
    forall a, b ensures !ByTuple(a, a) && (a == b || ByTuple(a, b) || ByTuple(b, a)) {
      TupleLessIsTotal(a, b);
    }
    forall a, b, c | ByTuple(a, b) && ByTuple(b, c) ensures ByTuple(a, c) {
      TupleLessIsTransitive(a, b, c);
    }
  }

  // ---------------------------------------------------------------- the sort

  function Insert<T, K>(sorted: seq<T>, x: T, key: T -> K, less: (K, K) -> bool): (r: seq<T>)
    ensures |r| == |sorted| + 1
  {
    if sorted == [] || !less(key(x), key(sorted[|sorted| - 1])) then sorted + [x]
    else Insert(sorted[..|sorted| - 1], x, key, less) + [sorted[|sorted| - 1]]
  }

  function SortBy<T, K>(xs: seq<T>, key: T -> K, less: (K, K) -> bool): (r: seq<T>)
    ensures |r| == |xs|
  {
    if xs == [] then [] else Insert(SortBy(xs[..|xs| - 1], key, less), xs[|xs| - 1], key, less)
  }

  predicate InOrder<T, K>(xs: seq<T>, key: T -> K, less: (K, K) -> bool) {
    forall i, j :: 0 <= i < j < |xs| ==> !less(key(xs[j]), key(xs[i]))
  }

  /** The elements with one key, in list order. */
  function WithKey<T, K(==)>(xs: seq<T>, key: T -> K, k: K): seq<T> {
    if xs == [] then []
    else WithKey(xs[..|xs| - 1], key, k) + if key(xs[|xs| - 1]) == k then [xs[|xs| - 1]] else []
  }

  lemma WithKeyAppend<T, K>(xs: seq<T>, x: T, key: T -> K, k: K)
    ensures WithKey(xs + [x], key, k) == WithKey(xs, key, k) + if key(x) == k then [x] else []
  {
    assert (xs + [x])[..|xs|] == xs;
  }

  lemma {:induction false} WithKeyConcat<T, K>(xs: seq<T>, ys: seq<T>, key: T -> K, k: K)
    ensures WithKey(xs + ys, key, k) == WithKey(xs, key, k) + WithKey(ys, key, k)
  {
    if ys == [] {
      assert xs + ys == xs;
    } else {
      var n := |ys| - 1;
      WithKeyConcat(xs, ys[..n], key, k);
      assert xs + ys == (xs + ys[..n]) + [ys[n]];
      WithKeyAppend(xs + ys[..n], ys[n], key, k);
      assert ys == ys[..n] + [ys[n]];
    }
  }

  lemma {:induction false} WithKeyOfAll<T, K>(xs: seq<T>, key: T -> K, k: K)
    requires forall x :: x in xs ==> key(x) == k
    ensures WithKey(xs, key, k) == xs
  {
    if xs != [] {
      var n := |xs| - 1;
      WithKeyOfAll(xs[..n], key, k);
      assert xs == xs[..n] + [xs[n]];
    }
  }

  lemma {:induction false} InsertMembers<T, K>(sorted: seq<T>, x: T, key: T -> K, less: (K, K) -> bool)
    ensures forall y :: y in Insert(sorted, x, key, less) ==> y == x || y in sorted
  {
    if sorted != [] && less(key(x), key(sorted[|sorted| - 1])) {
      InsertMembers(sorted[..|sorted| - 1], x, key, less);
    }
  }

  lemma {:induction false} InsertSorts<T, K(!new)>(sorted: seq<T>, x: T, key: T -> K, less: (K, K) -> bool)
    requires IsOrder(less) && InOrder(sorted, key, less)
    ensures InOrder(Insert(sorted, x, key, less), key, less)
  {
    if sorted == [] || !less(key(x), key(sorted[|sorted| - 1])) {
      AppendSorts(sorted, x, key, less);
    } else {
      var n := |sorted| - 1;
      var front := Insert(sorted[..n], x, key, less);
      InsertSorts(sorted[..n], x, key, less);
      InsertMembers(sorted[..n], x, key, less);
      forall i | 0 <= i < |front| ensures !less(key(sorted[n]), key(front[i])) {
        assert front[i] in front;
      }
    }
  }

  lemma AppendSorts<T, K(!new)>(sorted: seq<T>, x: T, key: T -> K, less: (K, K) -> bool)
    requires IsOrder(less) && InOrder(sorted, key, less)
    requires sorted == [] || !less(key(x), key(sorted[|sorted| - 1]))
    ensures InOrder(sorted + [x], key, less)
  {
  }

  /** Equal keys keep their order. */
  lemma {:induction false} InsertIsStable<T, K(!new)>(sorted: seq<T>, x: T, key: T -> K, less: (K, K) -> bool, k: K)
    requires IsOrder(less) && InOrder(sorted, key, less)
    ensures WithKey(Insert(sorted, x, key, less), key, k) == WithKey(sorted, key, k) + if key(x) == k then [x] else []
  {
    if sorted == [] || !less(key(x), key(sorted[|sorted| - 1])) {
      WithKeyAppend(sorted, x, key, k);
    } else {
      var n := |sorted| - 1;
      InsertIsStable(sorted[..n], x, key, less, k);
      WithKeyAppend(Insert(sorted[..n], x, key, less), sorted[n], key, k);
    }
  }

  /** The sort puts the list in order, */
  lemma {:induction false} SortSorts<T, K(!new)>(xs: seq<T>, key: T -> K, less: (K, K) -> bool)
    requires IsOrder(less)
    ensures InOrder(SortBy(xs, key, less), key, less)
  {
    if xs != [] {
      SortSorts(xs[..|xs| - 1], key, less);
      InsertSorts(SortBy(xs[..|xs| - 1], key, less), xs[|xs| - 1], key, less);
    }
  }

  /** and elements of one key keep theirs. */
  lemma {:induction false} SortIsStable<T, K(!new)>(xs: seq<T>, key: T -> K, less: (K, K) -> bool, k: K)
    requires IsOrder(less)
    ensures WithKey(SortBy(xs, key, less), key, k) == WithKey(xs, key, k)
  {
    if xs != [] {
      var n := |xs| - 1;
      SortIsStable(xs[..n], key, less, k);
      SortSorts(xs[..n], key, less);
      InsertIsStable(SortBy(xs[..n], key, less), xs[n], key, less, k);
    }
  }

  lemma {:induction false} InsertKeeps<T, K>(sorted: seq<T>, x: T, key: T -> K, less: (K, K) -> bool)
    ensures multiset(Insert(sorted, x, key, less)) == multiset(sorted) + multiset{x}
  {
    if sorted != [] && less(key(x), key(sorted[|sorted| - 1])) {
      InsertKeeps(sorted[..|sorted| - 1], x, key, less);
      assert sorted == sorted[..|sorted| - 1] + [sorted[|sorted| - 1]];
    }
  }

  /** The sort loses and invents nothing. */
  lemma {:induction false} SortKeeps<T, K>(xs: seq<T>, key: T -> K, less: (K, K) -> bool)
    ensures multiset(SortBy(xs, key, less)) == multiset(xs)
  {
    if xs != [] {
      var n := |xs| - 1;
      SortKeeps(xs[..n], key, less);
      InsertKeeps(SortBy(xs[..n], key, less), xs[n], key, less);
      assert xs == xs[..n] + [xs[n]];
    }
  }

  // ------------------------------------------------- when two lists sort alike

  ghost predicate SameByKey<T, K(!new)>(xs: seq<T>, ys: seq<T>, key: T -> K) {
    forall k :: WithKey(xs, key, k) == WithKey(ys, key, k)
  }

  lemma {:induction false} LastHasKey<T, K>(xs: seq<T>, key: T -> K, k: K)
    ensures WithKey(xs, key, k) != [] ==> exists i :: 0 <= i < |xs| && key(xs[i]) == k
  {
    if xs != [] && key(xs[|xs| - 1]) != k { LastHasKey(xs[..|xs| - 1], key, k); }
  }

  lemma SnocAlike<T>(a: seq<T>, x: T, b: seq<T>, y: T)
    requires a + [x] == b + [y]
    ensures a == b && x == y
  {
    assert |a| == |b| && (a + [x])[|a|] == x && (b + [y])[|b|] == y;
    assert (a + [x])[..|a|] == a && (b + [y])[..|b|] == b;
  }

  lemma LastIsKept<T, K>(xs: seq<T>, key: T -> K)
    ensures xs != [] ==> WithKey(xs, key, key(xs[|xs| - 1])) != []
  {
  }

  lemma NothingAlike<T, K(!new)>(ys: seq<T>, key: T -> K)
    requires SameByKey([], ys, key)
    ensures ys == []
  {
    LastIsKept(ys, key);
  }

  lemma WithKeyFront<T, K>(xs: seq<T>, key: T -> K, k: K)
    requires xs != []
    ensures key(xs[|xs| - 1]) == k ==> WithKey(xs, key, k) == WithKey(xs[..|xs| - 1], key, k) + [xs[|xs| - 1]]
    ensures key(xs[|xs| - 1]) != k ==> WithKey(xs, key, k) == WithKey(xs[..|xs| - 1], key, k)
  {
    assert WithKey(xs[..|xs| - 1], key, k) + [] == WithKey(xs[..|xs| - 1], key, k);
  }

  lemma FrontsAlike<T, K(!new)>(xs: seq<T>, ys: seq<T>, key: T -> K, k: K)
    requires xs != [] && ys != [] && SameByKey(xs, ys, key)
    requires k == key(xs[|xs| - 1]) == key(ys[|ys| - 1])
    ensures xs[|xs| - 1] == ys[|ys| - 1]
    ensures SameByKey(xs[..|xs| - 1], ys[..|ys| - 1], key)
  {
    var m, n := |xs| - 1, |ys| - 1;
    forall l
      ensures WithKey(xs[..m], key, l) == WithKey(ys[..n], key, l)
      ensures l == k ==> xs[m] == ys[n]
    {
      assert WithKey(xs, key, l) == WithKey(ys, key, l);
      WithKeyFront(xs, key, l);
      WithKeyFront(ys, key, l);
      if l == k { SnocAlike(WithKey(xs[..m], key, l), xs[m], WithKey(ys[..n], key, l), ys[n]); }
    }
    assert WithKey(xs[..m], key, k) == WithKey(ys[..n], key, k);
  }

  /** Lists in order are equal when they agree key by key. */
  lemma {:induction false} InOrderIsDetermined<T, K(!new)>(xs: seq<T>, ys: seq<T>, key: T -> K, less: (K, K) -> bool)
    requires IsOrder(less) && InOrder(xs, key, less) && InOrder(ys, key, less) && SameByKey(xs, ys, key)
    ensures xs == ys
  {
    if xs == [] {
      NothingAlike(ys, key);
    } else {
      var k := LastOf(xs, ys, key, less);
      var m, n := |xs| - 1, |ys| - 1;
      assert WithKey(xs, key, k) == WithKey(ys, key, k);
      FrontsAlike(xs, ys, key, k);
      InOrderIsDetermined(xs[..m], ys[..n], key, less);
      assert xs == xs[..m] + [xs[m]] && ys == ys[..n] + [ys[n]];
    }
  }

  /** The last elements have the same key. */
  lemma LastOf<T, K(!new)>(xs: seq<T>, ys: seq<T>, key: T -> K, less: (K, K) -> bool) returns (k: K)
    requires IsOrder(less) && xs != [] && InOrder(xs, key, less) && InOrder(ys, key, less) && SameByKey(xs, ys, key)
    ensures ys != [] && k == key(xs[|xs| - 1]) == key(ys[|ys| - 1])
  {
    k := key(xs[|xs| - 1]);
    assert WithKey(ys, key, k) == WithKey(xs, key, k) != [];
    LastHasKey(ys, key, k);
    var l := key(ys[|ys| - 1]);
    assert WithKey(xs, key, l) == WithKey(ys, key, l) != [];
    LastHasKey(xs, key, l);
    var i :| 0 <= i < |ys| && key(ys[i]) == k;
    var j :| 0 <= j < |xs| && key(xs[j]) == l;
    assert k == l || less(k, l) || less(l, k);
  }

  /** Two lists sort to the same list if and only if they agree key by key. */
  lemma SortAlikeIff<T, K(!new)>(xs: seq<T>, ys: seq<T>, key: T -> K, less: (K, K) -> bool)
    requires IsOrder(less)
    ensures SortBy(xs, key, less) == SortBy(ys, key, less) <==> SameByKey(xs, ys, key)
  {
    var sx, sy := SortBy(xs, key, less), SortBy(ys, key, less);
    SortSorts(xs, key, less);
    SortSorts(ys, key, less);
    forall k ensures WithKey(sx, key, k) == WithKey(xs, key, k) && WithKey(sy, key, k) == WithKey(ys, key, k) {
      SortIsStable(xs, key, less, k);
      SortIsStable(ys, key, less, k);
    }
    if SameByKey(xs, ys, key) {
      assert SameByKey(sx, sy, key) by {
        forall k ensures WithKey(sx, key, k) == WithKey(sy, key, k) {
          assert WithKey(xs, key, k) == WithKey(ys, key, k);
        }
      }
      InOrderIsDetermined(sx, sy, key, less);
    }
  }
}
