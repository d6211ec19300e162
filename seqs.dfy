/**
 * Sequence vocabulary shared by the model: distinctness, ranges, the
 * JavaScript `filter` and `slice(0, k)` idioms, and a stable sort by an
 * integer key pair (JavaScript's `Array.prototype.sort` is stable).
 */
module Seqs {

  /** No element occurs twice. */
  predicate Distinct<T(==)>(s: seq<T>) {
    forall i, j :: 0 <= i < j < |s| ==> s[i] != s[j]
  }

  /** The set of elements of a sequence. */
  function Elems<T>(s: seq<T>): set<T> {
    set x | x in s
  }

  /** Every element lies in lo..hi. */
  predicate AllIn(s: seq<int>, lo: int, hi: int) {
    forall i :: 0 <= i < |s| ==> lo <= s[i] <= hi
  }

  predicate SortedAsc(s: seq<int>) {
    forall i, j :: 0 <= i < j < |s| ==> s[i] <= s[j]
  }

  predicate StrictlyAsc(s: seq<int>) {
    forall i, j :: 0 <= i < j < |s| ==> s[i] < s[j]
  }

  /** The integers lo, lo + 1, ..., hi (`Array.from({length}, (_, i) => i + lo)`). */
  function Range(lo: int, hi: int): (r: seq<int>)
    decreases hi - lo
    ensures |r| == if lo <= hi then hi - lo + 1 else 0
    ensures forall i :: 0 <= i < |r| ==> r[i] == lo + i
  {
    if lo > hi then [] else [lo] + Range(lo + 1, hi)
  }

  lemma RangeMembers(lo: int, hi: int)
    ensures Distinct(Range(lo, hi))
    ensures forall x :: x in Range(lo, hi) <==> lo <= x <= hi
  {
    var r := Range(lo, hi);
    forall x | lo <= x <= hi ensures x in r {
      assert r[x - lo] == x;
    }
  }

  /** `s.slice(0, k)` for a non-negative k: the first k elements, or all of them. */
  function Take<T>(s: seq<T>, k: nat): (r: seq<T>)
    ensures |r| == if k <= |s| then k else |s|
    ensures r == s[..|r|]
  {
    if k <= |s| then s[..k] else s
  }

  /** `s.slice(0, k)` for any integer k: a negative k counts back from the end. */
  function SliceTo<T>(s: seq<T>, k: int): (r: seq<T>)
    ensures |r| <= |s| && r == s[..|r|]
    ensures k >= 0 ==> |r| == if k <= |s| then k else |s|
    ensures k < 0 ==> |r| == if |s| + k >= 0 then |s| + k else 0
  {
    if k >= 0 then Take(s, k)
    else if |s| + k >= 0 then s[..|s| + k]
    else []
  }

  /** `s.filter(p)`. */
  function Filter<T(!new)>(s: seq<T>, p: T -> bool): (r: seq<T>)
    ensures |r| <= |s|
    ensures forall x :: x in r <==> x in s && p(x)
    ensures Distinct(s) ==> Distinct(r)
  {
    if s == [] then []
    else
      var rest := Filter(s[1..], p);
      assert Distinct(s) ==> s[0] !in s[1..] by {
        if Distinct(s) { HeadNotInTail(s); }
      }
      if p(s[0]) then [s[0]] + rest else rest
  }

  /** `s.filter(x => !t.includes(x))`: the elements of s outside t, in order. */
  function Remove<T(!new)>(s: seq<T>, t: set<T>): (r: seq<T>)
    ensures |r| <= |s|
    ensures forall x :: x in r <==> x in s && x !in t
    ensures Distinct(s) ==> Distinct(r)
  {
    if s == [] then []
    else
      var rest := Remove(s[1..], t);
      assert Distinct(s) ==> s[0] !in s[1..] by {
        if Distinct(s) { HeadNotInTail(s); }
      }
      if s[0] !in t then [s[0]] + rest else rest
  }

  function Min(a: int, b: int): int {
    if a <= b then a else b
  }

  function Max(a: int, b: int): int {
    if a >= b then a else b
  }

  lemma SubsetCard<T>(a: set<T>, b: set<T>)
    requires a <= b
    ensures |a| <= |b|
  {
    assert b == a + (b - a);
  }

  /** Filtering distributes over concatenation. */
  lemma {:induction false} FilterConcat<T(!new)>(a: seq<T>, b: seq<T>, p: T -> bool)
    ensures Filter(a + b, p) == Filter(a, p) + Filter(b, p)
  {
    if a != [] {
      var h := if p(a[0]) then [a[0]] else [];
      assert (a + b)[0] == a[0] && (a + b)[1..] == a[1..] + b;
      FilterConcat(a[1..], b, p);
      assert Filter(a, p) == h + Filter(a[1..], p);
      assert Filter(a + b, p) == h + Filter(a[1..] + b, p);
    } else {
      assert a + b == b;
    }
  }

  lemma ThreeParts<T>(a: T, b: T, c: T)
    ensures [a, b, c] == [a] + ([b] + [c])
  {
  }

  lemma InitLast<T>(s: seq<T>)
    requires |s| > 0
    ensures s == s[..|s| - 1] + [s[|s| - 1]]
  {
  }

  /** Every element satisfies p at its index. */
  predicate Every<T>(s: seq<T>, p: (int, T) -> bool) {
    forall k :: 0 <= k < |s| ==> p(k, s[k])
  }

  lemma EverySnoc<T>(s: seq<T>, x: T, p: (int, T) -> bool)
    requires Every(s, p) && p(|s|, x)
    ensures Every(s + [x], p)
  {
    forall k | 0 <= k < |s| + 1 ensures p(k, (s + [x])[k]) {
      if k < |s| {
        assert (s + [x])[k] == s[k];
      }
    }
  }

  lemma SnocAt<T>(s: seq<T>, x: T, k: nat)
    requires k <= |s|
    ensures (s + [x])[k] == if k < |s| then s[k] else x
  {
  }

  /** The tail of a concatenation that starts inside its first part. */
  lemma DropConcat<T>(a: seq<T>, b: seq<T>, n: nat)
    requires n <= |a|
    ensures (a + b)[n..] == a[n..] + b
  {
  }

  lemma ConcatAssoc<T>(a: seq<T>, b: seq<T>, c: seq<T>)
    ensures a + b + c == a + (b + c)
  {
  }

  /** Permutations have the same length. */
  lemma PermutationLength<T>(a: seq<T>, b: seq<T>)
    requires multiset(a) == multiset(b)
    ensures |a| == |b|
  {
    assert |multiset(a)| == |a| && |multiset(b)| == |b|;
  }

  /** One more element of a prefix. */
  lemma TakeSnoc<T>(s: seq<T>, i: nat)
    requires i < |s|
    ensures s[..i + 1] == s[..i] + [s[i]]
  {
  }

  /** Filtering a sequence extended by one element. */
  lemma FilterSnoc<T(!new)>(s: seq<T>, x: T, p: T -> bool)
    ensures Filter(s + [x], p) == Filter(s, p) + (if p(x) then [x] else [])
  {
    FilterConcat(s, [x], p);
    assert [x][1..] == [];
  }

  /** Filtering keeps a sequence whole when every element passes ... */
  lemma {:induction false} FilterAll<T(!new)>(s: seq<T>, p: T -> bool)
    requires forall x :: x in s ==> p(x)
    ensures Filter(s, p) == s
  {
    if s != [] {
      FilterAll(s[1..], p);
    }
  }

  /** ... and empties it when none does. */
  lemma {:induction false} FilterNone<T(!new)>(s: seq<T>, p: T -> bool)
    requires forall x :: x in s ==> !p(x)
    ensures Filter(s, p) == []
  {
    if s != [] {
      FilterNone(s[1..], p);
    }
  }

  /** A filter that keeps as many elements as it saw keeps all of them. */
  lemma {:induction false} FilterFull<T(!new)>(s: seq<T>, p: T -> bool)
    requires |Filter(s, p)| == |s|
    ensures Filter(s, p) == s
  {
    if s != [] {
      assert |Filter(s[1..], p)| <= |s| - 1;
      FilterFull(s[1..], p);
    }
  }

  /** A prefix of a distinct sequence is distinct and draws on its elements. */
  lemma PrefixDistinct<T>(s: seq<T>, n: nat)
    requires n <= |s| && Distinct(s)
    ensures Distinct(s[..n]) && forall x :: x in s[..n] ==> x in s
  {
    forall i, j | 0 <= i < j < n ensures s[..n][i] != s[..n][j] {
      assert s[..n][i] == s[i] && s[..n][j] == s[j];
    }
  }

  lemma HeadNotInTail<T>(s: seq<T>)
    requires Distinct(s) && |s| > 0
    ensures s[0] !in s[1..]
  {
    forall k | 0 <= k < |s[1..]| ensures s[1..][k] != s[0] {
      assert s[1..][k] == s[k + 1];
    }
  }

  /** A distinct sequence has as many elements as its set. */
  lemma {:induction false} DistinctCard<T>(s: seq<T>)
    requires Distinct(s)
    ensures |Elems(s)| == |s|
  {
    if s != [] {
      HeadNotInTail(s);
      assert Distinct(s[1..]);
      DistinctCard(s[1..]);
      assert Elems(s) == {s[0]} + Elems(s[1..]);
    }
  }

  /** The members a distinct sequence shares with a set, counted head first. */
  lemma InterHead<T>(s: seq<T>, u: set<T>)
    requires Distinct(s) && |s| > 0
    ensures Distinct(s[1..])
    ensures |Elems(s) * u| == (if s[0] in u then 1 else 0) + |Elems(s[1..]) * u|
  {
    HeadNotInTail(s);
    assert Distinct(s[1..]);
    assert Elems(s) == {s[0]} + Elems(s[1..]);
    if s[0] in u {
      assert Elems(s) * u == {s[0]} + Elems(s[1..]) * u;
    } else {
      assert Elems(s) * u == Elems(s[1..]) * u;
    }
  }

  /** Removing a set from a distinct sequence drops exactly the members it shares with the set. */
  lemma {:induction false} RemoveCard<T(!new)>(s: seq<T>, t: set<T>)
    requires Distinct(s)
    ensures |Remove(s, t)| == |s| - |Elems(s) * t|
  {
    if s != [] {
      InterHead(s, t);
      RemoveCard(s[1..], t);
    }
  }

  /** Two distinct sequences with no common element concatenate to a distinct one. */
  lemma DistinctConcat<T>(a: seq<T>, b: seq<T>)
    requires Distinct(a) && Distinct(b)
    requires forall x :: x in a ==> x !in b
    ensures Distinct(a + b)
  {
    forall i, j | 0 <= i < j < |a + b|
      ensures (a + b)[i] != (a + b)[j]
    {
      if i < |a| && j >= |a| {
        assert (a + b)[i] in a && (a + b)[j] == b[j - |a|];
      }
    }
  }

  /** Distinctness in terms of the multiset: no element counted twice. */
  lemma {:induction false} DistinctCounts<T>(s: seq<T>)
    requires Distinct(s)
    ensures forall x :: multiset(s)[x] <= 1
  {
    if s != [] {
      HeadNotInTail(s);
      assert Distinct(s[1..]);
      DistinctCounts(s[1..]);
      assert s == [s[0]] + s[1..];
      assert multiset(s) == multiset{s[0]} + multiset(s[1..]);
    }
  }

  lemma TwoOccurrences<T>(s: seq<T>, i: nat, j: nat)
    requires i < j < |s|
    ensures s[i] == s[j] ==> multiset(s)[s[i]] >= 2
  {
    assert s == s[..j] + s[j..];
    assert s[..j][i] == s[i];
    assert s[j..][0] == s[j];
    assert multiset(s) == multiset(s[..j]) + multiset(s[j..]);
  }

  lemma CountsDistinct<T>(s: seq<T>)
    requires forall x :: multiset(s)[x] <= 1
    ensures Distinct(s)
  {
    forall i, j | 0 <= i < j < |s|
      ensures s[i] != s[j]
    {
      TwoOccurrences(s, i, j);
    }
  }

  /** A permutation of a distinct sequence is distinct. */
  lemma PermutationDistinct<T>(a: seq<T>, b: seq<T>)
    requires multiset(a) == multiset(b) && Distinct(a)
    ensures Distinct(b)
  {
    DistinctCounts(a);
    CountsDistinct(b);
  }

  /** No two elements share a key. */
  predicate DistinctKeys<T>(s: seq<T>, key: T -> int) {
    forall i, j :: 0 <= i < j < |s| ==> key(s[i]) != key(s[j])
  }

  /** Distinct keys survive a permutation. */
  lemma PermutationKeys<T>(a: seq<T>, b: seq<T>, key: T -> int)
    requires multiset(a) == multiset(b) && DistinctKeys(a, key)
    ensures DistinctKeys(b, key)
  {
    assert Distinct(a);
    PermutationDistinct(a, b);
    forall i, j | 0 <= i < j < |b| ensures key(b[i]) != key(b[j]) {
      assert b[i] in multiset(a) && b[j] in multiset(a);
      var p :| 0 <= p < |a| && a[p] == b[i];
      var q :| 0 <= q < |a| && a[q] == b[j];
      assert p != q;
    }
  }

  // ---------------------------------------------------------------------
  // Stable sort, descending by a lexicographically ordered key pair.
  // A JavaScript comparator `(a, b) => b.k - a.k` is the key (k, 0);
  // `(a, b) => a - b` on integers is the key (-x, 0).
  // ---------------------------------------------------------------------

  /** Key a may stand before key b: a is lexicographically at least b. */
  predicate KeyGe(a: (int, int), b: (int, int)) {
    a.0 > b.0 || (a.0 == b.0 && a.1 >= b.1)
  }

  predicate SortedBy<T>(s: seq<T>, key: T -> (int, int)) {
    forall i, j :: 0 <= i < j < |s| ==> KeyGe(key(s[i]), key(s[j]))
  }

  /** Inserts x after every element whose key is at least x's. */
  function Insert<T(!new)>(x: T, s: seq<T>, key: T -> (int, int)): (r: seq<T>)
    ensures |r| == |s| + 1
    ensures multiset(r) == multiset(s) + multiset{x}
  {
    if s == [] || !KeyGe(key(s[0]), key(x)) then [x] + s
    else
      assert s == [s[0]] + s[1..];
      [s[0]] + Insert(x, s[1..], key)
  }

  lemma {:induction false} InsertSorted<T(!new)>(x: T, s: seq<T>, key: T -> (int, int))
    requires SortedBy(s, key)
    ensures SortedBy(Insert(x, s, key), key)
  {
    if s == [] {
    } else if !KeyGe(key(s[0]), key(x)) {
      var r := [x] + s;
      forall i, j | 0 <= i < j < |r| ensures KeyGe(key(r[i]), key(r[j])) {
        if i == 0 {
          assert r[j] == s[j - 1];
          assert j == 1 || KeyGe(key(s[0]), key(s[j - 1]));
        } else {
          assert r[i] == s[i - 1] && r[j] == s[j - 1];
        }
      }
    } else {
      var rest := Insert(x, s[1..], key);
      assert SortedBy(s[1..], key) by {
        forall i, j | 0 <= i < j < |s[1..]| ensures KeyGe(key(s[1..][i]), key(s[1..][j])) {
          assert s[1..][i] == s[i + 1] && s[1..][j] == s[j + 1];
        }
      }
      InsertSorted(x, s[1..], key);
      var r := [s[0]] + rest;
      forall i, j | 0 <= i < j < |r| ensures KeyGe(key(r[i]), key(r[j])) {
        if i == 0 {
          var y := rest[j - 1];
          assert r[j] == y;
          assert y in multiset(rest);
          if y != x {
            assert y in multiset(s[1..]);
            var m :| 0 <= m < |s[1..]| && s[1..][m] == y;
            assert s[m + 1] == y;
          }
        } else {
          assert r[i] == rest[i - 1] && r[j] == rest[j - 1];
        }
      }
    }
  }

  /** Insertion sort, taking the elements from the back. */
  function SortBy<T(!new)>(s: seq<T>, key: T -> (int, int)): (r: seq<T>)
    ensures |r| == |s|
    ensures multiset(r) == multiset(s)
    ensures SortedBy(r, key)
  {
    if s == [] then []
    else
      assert s == s[..|s| - 1] + [s[|s| - 1]];
      var sorted := SortBy(s[..|s| - 1], key);
      InsertSorted(s[|s| - 1], sorted, key);
      Insert(s[|s| - 1], sorted, key)
  }

  /** The elements whose key is k, in their order. */
  function WithKey<T(!new)>(s: seq<T>, key: T -> (int, int), k: (int, int)): (r: seq<T>)
    ensures forall y :: y in r ==> y in s && key(y) == k
  {
    if s == [] then []
    else (if key(s[0]) == k then [s[0]] else []) + WithKey(s[1..], key, k)
  }

  lemma WithKeyCons<T(!new)>(h: T, t: seq<T>, key: T -> (int, int), k: (int, int))
    ensures WithKey([h] + t, key, k) == (if key(h) == k then [h] else []) + WithKey(t, key, k)
  {
    assert ([h] + t)[0] == h && ([h] + t)[1..] == t;
  }

  lemma {:induction false} WithKeyConcat<T(!new)>(a: seq<T>, b: seq<T>, key: T -> (int, int), k: (int, int))
    ensures WithKey(a + b, key, k) == WithKey(a, key, k) + WithKey(b, key, k)
  {
    if a != [] {
      assert a == [a[0]] + a[1..];
      assert a + b == [a[0]] + (a[1..] + b);
      WithKeyConcat(a[1..], b, key, k);
      WithKeyCons(a[0], a[1..] + b, key, k);
      WithKeyCons(a[0], a[1..], key, k);
      var h := if key(a[0]) == k then [a[0]] else [];
      ConcatAssoc(h, WithKey(a[1..], key, k), WithKey(b, key, k));
    } else {
      assert a + b == b;
    }
  }

  lemma {:induction false} WithKeyNone<T(!new)>(s: seq<T>, key: T -> (int, int), k: (int, int))
    requires forall i :: 0 <= i < |s| ==> key(s[i]) != k
    ensures WithKey(s, key, k) == []
  {
    if s != [] {
      WithKeyNone(s[1..], key, k);
    }
  }

  lemma {:induction false} InsertStable<T(!new)>(x: T, s: seq<T>, key: T -> (int, int), k: (int, int))
    requires SortedBy(s, key)
    ensures WithKey(Insert(x, s, key), key, k) == WithKey(s, key, k) + (if key(x) == k then [x] else [])
  {
    if s == [] || !KeyGe(key(s[0]), key(x)) {
      assert Insert(x, s, key) == [x] + s;
      WithKeyCons(x, s, key, k);
      if key(x) == k {
        forall i | 0 <= i < |s| ensures key(s[i]) != k {
          assert i == 0 || KeyGe(key(s[0]), key(s[i]));
        }
        WithKeyNone(s, key, k);
      }
    } else {
      var r := Insert(x, s[1..], key);
      assert Insert(x, s, key) == [s[0]] + r;
      assert SortedBy(s[1..], key);
      InsertStable(x, s[1..], key, k);
      WithKeyCons(s[0], r, key, k);
      WithKeyCons(s[0], s[1..], key, k);
      assert [s[0]] + s[1..] == s;
      var h := if key(s[0]) == k then [s[0]] else [];
      ConcatAssoc(h, WithKey(s[1..], key, k), if key(x) == k then [x] else []);
    }
  }

  /**
   * Stability: for every key, the elements with that key appear in the
   * sorted sequence in exactly the order they had before.
   */
  lemma {:induction false} SortStable<T(!new)>(s: seq<T>, key: T -> (int, int), k: (int, int))
    ensures WithKey(SortBy(s, key), key, k) == WithKey(s, key, k)
  {
    if s != [] {
      var init, last := s[..|s| - 1], s[|s| - 1];
      SortStable(init, key, k);
      InsertStable(last, SortBy(init, key), key, k);
      InitLast(s);
      assert SortBy(s, key) == Insert(last, SortBy(init, key), key);
      WithKeyConcat(init, [last], key, k);
      assert WithKey([last], key, k) == if key(last) == k then [last] else [] by {
        assert [last][1..] == [];
      }
    }
  }

  function AscKey(x: int): (int, int) {
    (-x, 0)
  }

  /** `s.sort((a, b) => a - b)`: ascending, a permutation of s. */
  function SortAsc(s: seq<int>): (r: seq<int>)
    ensures |r| == |s|
    ensures multiset(r) == multiset(s)
    ensures SortedAsc(r)
    ensures forall x :: x in r <==> x in s
  {
    var r := SortBy(s, AscKey);
    assert forall i, j :: 0 <= i < j < |r| ==> KeyGe(AscKey(r[i]), AscKey(r[j]));
    assert forall x :: x in r <==> x in multiset(r);
    r
  }

  /** Sorting keeps every element within the same bounds. */
  lemma SortAscIn(s: seq<int>, lo: int, hi: int)
    requires AllIn(s, lo, hi)
    ensures AllIn(SortAsc(s), lo, hi)
  {
    var r := SortAsc(s);
    forall i | 0 <= i < |r| ensures lo <= r[i] <= hi {
      assert r[i] in s;
    }
  }

  /** Sorting a distinct sequence yields a strictly ascending one. */
  lemma SortAscDistinct(s: seq<int>)
    requires Distinct(s)
    ensures Distinct(SortAsc(s)) && StrictlyAsc(SortAsc(s))
  {
    PermutationDistinct(s, SortAsc(s));
  }

  /** A strictly ascending sequence is its own ascending sort. */
  lemma {:induction false} SortAscOfSorted(s: seq<int>)
    requires StrictlyAsc(s)
    ensures SortAsc(s) == s
  {
    SortedUnique(SortAsc(s), s);
  }

  lemma SameMinimum(a: seq<int>, b: seq<int>)
    requires SortedAsc(a) && StrictlyAsc(b) && |a| > 0 && |b| > 0
    requires multiset(a) == multiset(b)
    ensures a[0] == b[0]
  {
    assert a[0] in multiset(b) && b[0] in multiset(a);
    var i :| 0 <= i < |b| && b[i] == a[0];
    var j :| 0 <= j < |a| && a[j] == b[0];
    assert forall k :: 0 <= k < |b| ==> b[0] <= b[k];
    assert forall k :: 0 <= k < |a| ==> a[0] <= a[k];
  }

  lemma DropSame(a: seq<int>, b: seq<int>)
    requires |a| > 0 && |b| > 0 && a[0] == b[0]
    requires multiset(a) == multiset(b)
    ensures multiset(a[1..]) == multiset(b[1..])
  {
    assert a == [a[0]] + a[1..] && b == [b[0]] + b[1..];
    assert multiset(a) == multiset{a[0]} + multiset(a[1..]);
    assert multiset(b) == multiset{b[0]} + multiset(b[1..]);
    forall x ensures multiset(a[1..])[x] == multiset(b[1..])[x] {
      assert multiset(a)[x] == multiset{a[0]}[x] + multiset(a[1..])[x];
      assert multiset(b)[x] == multiset{b[0]}[x] + multiset(b[1..])[x];
    }
  }

  /** Two strictly ascending sequences with the same elements are equal. */
  lemma {:induction false} SortedUnique(a: seq<int>, b: seq<int>)
    requires SortedAsc(a) && StrictlyAsc(b)
    requires multiset(a) == multiset(b)
    ensures a == b
  {
    assert |a| == |multiset(a)| == |b|;
    if a != [] {
      SameMinimum(a, b);
      DropSame(a, b);
      assert SortedAsc(a[1..]) && StrictlyAsc(b[1..]);
      SortedUnique(a[1..], b[1..]);
      assert a == [a[0]] + a[1..] && b == [b[0]] + b[1..];
    }
  }

  // ---------------------------------------------------------------------
  // Sums, counts and maxima (`reduce`, `filter(...).length`, `Math.max`)
  // ---------------------------------------------------------------------

  /** `s.reduce((sum, x) => sum + f(x), 0)`. */
  function SumBy<T>(s: seq<T>, f: T -> int): int {
    if s == [] then 0 else f(s[0]) + SumBy(s[1..], f)
  }

  lemma {:induction false} SumByConcat<T>(a: seq<T>, b: seq<T>, f: T -> int)
    ensures SumBy(a + b, f) == SumBy(a, f) + SumBy(b, f)
  {
    if a != [] {
      assert (a + b)[0] == a[0] && (a + b)[1..] == a[1..] + b;
      SumByConcat(a[1..], b, f);
    } else {
      assert a + b == b;
    }
  }

  /** Taking one term out of a sum. */
  lemma SumByRemove<T>(b: seq<T>, i: nat, f: T -> int)
    requires i < |b|
    ensures SumBy(b, f) == f(b[i]) + SumBy(b[..i] + b[i + 1..], f)
  {
    var pre, post := b[..i], b[i + 1..];
    var mid := [b[i]] + post;
    assert b == pre + mid;
    SumByConcat(pre, mid, f);
    SumByConcat(pre, post, f);
    assert mid[0] == b[i] && mid[1..] == post;
    assert SumBy(mid, f) == f(b[i]) + SumBy(post, f);
  }

  lemma MultisetAt<T>(b: seq<T>, i: nat)
    requires i < |b|
    ensures multiset(b) == multiset(b[..i] + b[i + 1..]) + multiset{b[i]}
  {
    assert b == b[..i] + [b[i]] + b[i + 1..];
  }

  lemma MultisetCancel<T>(x: multiset<T>, y: multiset<T>, e: T)
    requires x + multiset{e} == y + multiset{e}
    ensures x == y
  {
    forall z ensures x[z] == y[z] {
      assert (x + multiset{e})[z] == (y + multiset{e})[z];
    }
  }

  /** Taking the same element out of two permutations of each other. */
  lemma MultisetRemove<T>(a: seq<T>, b: seq<T>, i: nat)
    requires |a| > 0 && i < |b| && b[i] == a[0] && multiset(a) == multiset(b)
    ensures multiset(a[1..]) == multiset(b[..i] + b[i + 1..])
  {
    MultisetAt(a, 0);
    assert a[..0] + a[1..] == a[1..];
    MultisetAt(b, i);
    MultisetCancel(multiset(a[1..]), multiset(b[..i] + b[i + 1..]), a[0]);
  }

  /** A sum does not depend on the order of its terms. */
  lemma {:induction false} SumByPermutation<T>(a: seq<T>, b: seq<T>, f: T -> int)
    requires multiset(a) == multiset(b)
    ensures SumBy(a, f) == SumBy(b, f)
    decreases |a|
  {
    PermutationLength(a, b);
    if a != [] {
      assert a[0] in multiset(b);
      var i :| 0 <= i < |b| && b[i] == a[0];
      SumByRemove(b, i, f);
      MultisetRemove(a, b, i);
      SumByPermutation(a[1..], b[..i] + b[i + 1..], f);
    }
  }

  /** One for each element satisfying p. */
  function Indicator<T>(p: T -> bool): T -> int {
    x => if p(x) then 1 else 0
  }

  /** `filter(p).length` counts the elements satisfying p. */
  lemma {:induction false} FilterCount<T(!new)>(s: seq<T>, p: T -> bool)
    ensures |Filter(s, p)| == SumBy(s, Indicator(p))
  {
    if s != [] {
      FilterCount(s[1..], p);
    }
  }

  /** `Math.max(...s.map(f))` for a non-empty s. */
  function MaxBy<T>(s: seq<T>, f: T -> int): (m: int)
    requires |s| > 0
    ensures forall x :: x in s ==> f(x) <= m
    ensures exists k :: 0 <= k < |s| && f(s[k]) == m
  {
    if |s| == 1 then f(s[0]) else
      var rest := MaxBy(s[1..], f);
      assert forall x :: x in s ==> x == s[0] || x in s[1..];
      var k :| 0 <= k < |s[1..]| && f(s[1..][k]) == rest;
      assert f(s[k + 1]) == rest;
      if f(s[0]) >= rest then f(s[0]) else rest
  }

  /** The maximum is the only bound that is also attained, so it ignores order. */
  lemma MaxByPermutation<T>(a: seq<T>, b: seq<T>, f: T -> int)
    requires |a| > 0 && multiset(a) == multiset(b)
    ensures |b| > 0 && MaxBy(a, f) == MaxBy(b, f)
  {
    PermutationLength(a, b);
    forall x ensures x in a <==> x in b {
      assert x in a <==> x in multiset(a);
      assert x in b <==> x in multiset(b);
    }
    var ka :| 0 <= ka < |a| && f(a[ka]) == MaxBy(a, f);
    var kb :| 0 <= kb < |b| && f(b[kb]) == MaxBy(b, f);
    assert a[ka] in b && b[kb] in a;
  }
}
