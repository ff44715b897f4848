/** Generic sequence tools used by several core files: flattening, grouping by
    a string key (itertools `into_group_map_by`), distinctness, a stable sort
    by size descending (`sort_by_key(|x| -size)`), string order and sorted
    insertion under a strict total order (`BTreeMap` / `sorted_by_key`). */
module Seqs {

  // ---------------------------------------------------------------- flattening

  function FlatMap<A, B>(s: seq<A>, f: A -> seq<B>): seq<B> {
    if s == [] then [] else f(s[0]) + FlatMap(s[1..], f)
  }

  lemma {:induction false} FlatMapAppend<A, B>(a: seq<A>, b: seq<A>, f: A -> seq<B>)
    ensures FlatMap(a + b, f) == FlatMap(a, f) + FlatMap(b, f)
  {
    if a == [] {
      assert a + b == b;
    } else {
      assert (a + b)[0] == a[0] && (a + b)[1..] == a[1..] + b;
      FlatMapAppend(a[1..], b, f);
    }
  }

  /** An element of a flattening comes from the image of some element. */
  lemma {:induction false} FlatMapMember<A, B>(s: seq<A>, f: A -> seq<B>, y: B)
    ensures y in FlatMap(s, f) <==> exists k :: 0 <= k < |s| && y in f(s[k])
  {
    if s != [] {
      FlatMapMember(s[1..], f, y);
      if y in FlatMap(s[1..], f) {
        var k :| 0 <= k < |s[1..]| && y in f(s[1..][k]);
        assert y in f(s[k + 1]);
      }
      if exists k :: 0 <= k < |s| && y in f(s[k]) {
        var k :| 0 <= k < |s| && y in f(s[k]);
        if k > 0 {
          assert y in f(s[1..][k - 1]);
        }
      }
    }
  }

  /** Taking one element out of the middle takes its image out of the flattening, up to order. */
  lemma FlatMapRemove<A, B>(t: seq<A>, k: nat, f: A -> seq<B>)
    requires k < |t|
    ensures multiset(FlatMap(t, f)) == multiset(f(t[k])) + multiset(FlatMap(t[..k] + t[k + 1..], f))
  {
    var pre, post := t[..k], t[k + 1..];
    assert t == pre + ([t[k]] + post);
    FlatMapAppend(pre, [t[k]] + post, f);
    FlatMapAppend(pre, post, f);
    assert FlatMap([t[k]] + post, f) == f(t[k]) + FlatMap(post, f);
  }

  /** Flattening a permutation gives a permutation of the flattening. */
  lemma {:induction false} FlatMapPermutation<A, B>(s: seq<A>, t: seq<A>, f: A -> seq<B>)
    requires multiset(s) == multiset(t)
    ensures multiset(FlatMap(s, f)) == multiset(FlatMap(t, f))
    decreases |s|
  {
    if s == [] {
      assert |t| == |multiset(t)| == 0;
    } else {
      assert s[0] in multiset(t);
      var k :| 0 <= k < |t| && t[k] == s[0];
      RemoveMatching(s, t, k);
      FlatMapPermutation(s[1..], t[..k] + t[k + 1..], f);
      FlatMapRemove(t, k, f);
    }
  }

  /** Removing the same element from two permutations of each other leaves permutations. */
  lemma RemoveMatching<A>(s: seq<A>, t: seq<A>, k: nat)
    requires multiset(s) == multiset(t) && s != [] && k < |t| && t[k] == s[0]
    ensures multiset(s[1..]) == multiset(t[..k] + t[k + 1..])
  {
    var before, after, e := multiset(t[..k]), multiset(t[k + 1..]), multiset{s[0]};
    assert t == t[..k] + [t[k]] + t[k + 1..];
    assert s == [s[0]] + s[1..];
    assert multiset(s) == e + multiset(s[1..]);
    assert multiset(t) == before + e + after;
    assert multiset(t[..k] + t[k + 1..]) == before + after;
    forall x ensures multiset(s[1..])[x] == (before + after)[x] {
      assert (e + multiset(s[1..]))[x] == (before + e + after)[x];
    }
  }

  function Concat<T>(ss: seq<seq<T>>): seq<T> {
    if ss == [] then [] else ss[0] + Concat(ss[1..])
  }

  /** The elements satisfying `p`, in order. */
  function FilterBy<T(!new)>(xs: seq<T>, p: T -> bool): (r: seq<T>)
    ensures forall x :: x in r <==> x in xs && p(x)
  {
    if xs == [] then []
    else if p(xs[0]) then [xs[0]] + FilterBy(xs[1..], p)
    else FilterBy(xs[1..], p)
  }

  lemma {:induction false} ConcatSnoc<T>(ss: seq<seq<T>>, s: seq<T>)
    ensures Concat(ss + [s]) == Concat(ss) + s
  {
    if ss == [] {
      assert [s][1..] == [];
    } else {
      assert (ss + [s])[1..] == ss[1..] + [s];
      ConcatSnoc(ss[1..], s);
    }
  }

  /** One more group of a prefix adds its elements at the end. */
  lemma ConcatPrefix<T>(ss: seq<seq<T>>, g: nat)
    requires g < |ss|
    ensures Concat(ss[..g + 1]) == Concat(ss[..g]) + ss[g]
  {
    assert ss[..g + 1] == ss[..g] + [ss[g]];
    ConcatSnoc(ss[..g], ss[g]);
  }

  /** An element of a concatenation is an element of one of its parts. */
  lemma {:induction false} ConcatMember<T>(ss: seq<seq<T>>, x: T)
    ensures x in Concat(ss) <==> exists k :: 0 <= k < |ss| && x in ss[k]
  {
    if ss != [] {
      ConcatMember(ss[1..], x);
      if exists k :: 0 <= k < |ss| && x in ss[k] {
        var k :| 0 <= k < |ss| && x in ss[k];
        if k > 0 {
          assert x in ss[1..][k - 1];
        }
      }
      if exists k :: 0 <= k < |ss[1..]| && x in ss[1..][k] {
        var k :| 0 <= k < |ss[1..]| && x in ss[1..][k];
        assert x in ss[k + 1];
      }
    }
  }

  // -------------------------------------------------------------- distinctness

  predicate Distinct<T(==)>(s: seq<T>) {
    forall i, j :: 0 <= i < j < |s| ==> s[i] != s[j]
  }

  lemma {:induction false} DistinctCounts<T>(s: seq<T>, x: T)
    requires Distinct(s)
    ensures multiset(s)[x] <= 1
  {
    if s != [] {
      var init := s[..|s| - 1];
      assert s == init + [s[|s| - 1]];
      DistinctCounts(init, x);
      assert s[|s| - 1] !in init;
    }
  }

  /** A permutation of a duplicate-free sequence is duplicate-free. */
  lemma DistinctPermutation<T>(s: seq<T>, t: seq<T>)
    requires Distinct(s) && multiset(s) == multiset(t)
    ensures Distinct(t)
  {
    forall i, j | 0 <= i < j < |t| ensures t[i] != t[j] {
      if t[i] == t[j] {
        assert t == t[..i] + [t[i]] + t[i + 1..j] + [t[j]] + t[j + 1..];
        assert multiset(t)[t[i]] >= 2;
        DistinctCounts(s, t[i]);
      }
    }
  }

  function Map<A, B>(s: seq<A>, f: A -> B): (r: seq<B>)
    ensures |r| == |s| && forall i :: 0 <= i < |s| ==> r[i] == f(s[i])
  {
    if s == [] then [] else [f(s[0])] + Map(s[1..], f)
  }

  lemma MapAppend<A, B>(a: seq<A>, b: seq<A>, f: A -> B)
    ensures Map(a + b, f) == Map(a, f) + Map(b, f)
  {
  }

  lemma {:induction false} MapAsFlatMap<A, B>(s: seq<A>, f: A -> B)
    ensures Map(s, f) == FlatMap(s, x => [f(x)])
  {
    if s != [] {
      MapAsFlatMap(s[1..], f);
    }
  }

  lemma MapPermutation<A, B>(s: seq<A>, t: seq<A>, f: A -> B)
    requires multiset(s) == multiset(t)
    ensures multiset(Map(s, f)) == multiset(Map(t, f))
  {
    MapAsFlatMap(s, f);
    MapAsFlatMap(t, f);
    FlatMapPermutation(s, t, x => [f(x)]);
  }

  // ------------------------------------------------------------------ grouping

  /** The elements of `xs` whose key is `k`, in order. */
  function Filter<T>(xs: seq<T>, key: T -> string, k: string): (r: seq<T>)
    ensures forall y :: y in r ==> key(y) == k && y in xs
    ensures |r| <= |xs|
  {
    if xs == [] then []
    else (if key(xs[0]) == k then [xs[0]] else []) + Filter(xs[1..], key, k)
  }

  /** The elements of `xs` whose key lies in `ks`, in order. */
  function FilterIn<T>(xs: seq<T>, key: T -> string, ks: set<string>): seq<T> {
    if xs == [] then []
    else (if key(xs[0]) in ks then [xs[0]] else []) + FilterIn(xs[1..], key, ks)
  }

  /** The distinct keys of `xs`, in order of first appearance. */
  function Keys<T>(xs: seq<T>, key: T -> string): (ks: seq<string>)
    ensures Distinct(ks)
    ensures forall i :: 0 <= i < |xs| ==> key(xs[i]) in ks
    ensures forall k :: k in ks ==> exists i :: 0 <= i < |xs| && key(xs[i]) == k
  {
    if xs == [] then []
    else
      var ks := Keys(xs[..|xs| - 1], key);
      var last := key(xs[|xs| - 1]);
      assert forall i :: 0 <= i < |xs| - 1 ==> xs[..|xs| - 1][i] == xs[i];
      if last in ks then ks else ks + [last]
  }

  /** `Filter` for each key of `ks`, in that order. */
  function GroupsFor<T>(xs: seq<T>, key: T -> string, ks: seq<string>): (gs: seq<seq<T>>)
    ensures |gs| == |ks|
    ensures forall i :: 0 <= i < |ks| ==> gs[i] == Filter(xs, key, ks[i])
  {
    if ks == [] then [] else [Filter(xs, key, ks[0])] + GroupsFor(xs, key, ks[1..])
  }

  /** `into_group_map_by(key)`, groups listed in order of first appearance. */
  function GroupBy<T>(xs: seq<T>, key: T -> string): seq<seq<T>> {
    GroupsFor(xs, key, Keys(xs, key))
  }

  lemma {:induction false} FilterNonEmpty<T>(xs: seq<T>, key: T -> string, i: nat)
    requires i < |xs|
    ensures Filter(xs, key, key(xs[i])) != []
  {
    if i > 0 {
      FilterNonEmpty(xs[1..], key, i - 1);
    }
  }

  /** The first element of a group is the first element of `xs` with that key. */
  lemma {:induction false} FilterHead<T>(xs: seq<T>, key: T -> string, k: string, i: nat)
    requires i < |xs| && key(xs[i]) == k
    requires forall j :: 0 <= j < i ==> key(xs[j]) != k
    ensures Filter(xs, key, k) != [] && Filter(xs, key, k)[0] == xs[i]
  {
    if i > 0 {
      FilterHead(xs[1..], key, k, i - 1);
    }
  }

  lemma {:induction false} FilterInSplit<T>(xs: seq<T>, key: T -> string, k: string, ks: set<string>)
    requires k !in ks
    ensures multiset(FilterIn(xs, key, ks + {k})) == multiset(Filter(xs, key, k)) + multiset(FilterIn(xs, key, ks))
  {
    if xs != [] {
      FilterInSplit(xs[1..], key, k, ks);
    }
  }

  lemma {:induction false} FilterInAll<T>(xs: seq<T>, key: T -> string, ks: set<string>)
    requires forall i :: 0 <= i < |xs| ==> key(xs[i]) in ks
    ensures FilterIn(xs, key, ks) == xs
  {
    if xs != [] {
      FilterInAll(xs[1..], key, ks);
      assert xs == [xs[0]] + xs[1..];
    }
  }

  lemma {:induction false} GroupsForConserve<T>(xs: seq<T>, key: T -> string, ks: seq<string>)
    requires Distinct(ks)
    ensures multiset(Concat(GroupsFor(xs, key, ks))) == multiset(FilterIn(xs, key, set k | k in ks))
  {
    if ks == [] {
      assert (set k | k in ks) == {};
      FilterInEmpty(xs, key);
    } else {
      var rest := set k | k in ks[1..];
      assert (set k | k in ks) == rest + {ks[0]};
      assert ks[0] !in rest;
      GroupsForConserve(xs, key, ks[1..]);
      FilterInSplit(xs, key, ks[0], rest);
    }
  }

  lemma {:induction false} FilterInEmpty<T>(xs: seq<T>, key: T -> string)
    ensures FilterIn(xs, key, {}) == []
  {
    if xs != [] {
      FilterInEmpty(xs[1..], key);
    }
  }

  /** Grouping neither loses nor duplicates an element. */
  lemma GroupByConserves<T>(xs: seq<T>, key: T -> string)
    ensures multiset(Concat(GroupBy(xs, key))) == multiset(xs)
  {
    var ks := Keys(xs, key);
    GroupsForConserve(xs, key, ks);
    FilterInAll(xs, key, set k | k in ks);
  }

  /** Every group is non-empty and its elements share the group's key. */
  lemma GroupByShape<T>(xs: seq<T>, key: T -> string)
    ensures forall g :: 0 <= g < |GroupBy(xs, key)| ==>
      GroupBy(xs, key)[g] != [] &&
      GroupBy(xs, key)[g] == Filter(xs, key, Keys(xs, key)[g])
  {
    var ks := Keys(xs, key);
    forall g | 0 <= g < |ks| ensures Filter(xs, key, ks[g]) != [] {
      assert ks[g] in ks;
      var i :| 0 <= i < |xs| && key(xs[i]) == ks[g];
      FilterNonEmpty(xs, key, i);
    }
  }

  // ------------------------------------------------- sorting by size, descending

  predicate SortedDesc<T>(s: seq<T>, size: T -> int) {
    forall i, j :: 0 <= i < j < |s| ==> size(s[i]) >= size(s[j])
  }

  /** Places `x` before the first element that is not larger than it. */
  function InsertDesc<T>(x: T, s: seq<T>, size: T -> int): seq<T> {
    if s == [] || size(s[0]) <= size(x) then [x] + s
    else [s[0]] + InsertDesc(x, s[1..], size)
  }

  lemma {:induction false} InsertDescPermutation<T>(x: T, s: seq<T>, size: T -> int)
    ensures multiset(InsertDesc(x, s, size)) == multiset(s) + multiset{x}
  {
    if s != [] && size(s[0]) > size(x) {
      InsertDescPermutation(x, s[1..], size);
      assert s == [s[0]] + s[1..];
    }
  }

  lemma {:induction false} InsertDescSorted<T>(x: T, s: seq<T>, size: T -> int)
    requires SortedDesc(s, size)
    ensures SortedDesc(InsertDesc(x, s, size), size)
  {
    if s != [] && size(s[0]) > size(x) {
      InsertDescSorted(x, s[1..], size);
      InsertDescPermutation(x, s[1..], size);
      var t := InsertDesc(x, s[1..], size);
      forall y | y in t ensures size(s[0]) >= size(y) {
        assert y in multiset(t);
        if y != x {
          assert y in multiset(s[1..]);
        }
      }
    }
  }

  /** A stable sort by `size`, largest first (`sort_by_key(|e| -size(e))`). */
  function SortDesc<T>(s: seq<T>, size: T -> int): seq<T> {
    if s == [] then [] else InsertDesc(s[0], SortDesc(s[1..], size), size)
  }

  lemma {:induction false} SortDescSorted<T>(s: seq<T>, size: T -> int)
    ensures SortedDesc(SortDesc(s, size), size)
  {
    if s != [] {
      SortDescSorted(s[1..], size);
      InsertDescSorted(s[0], SortDesc(s[1..], size), size);
    }
  }

  lemma {:induction false} SortDescPermutation<T>(s: seq<T>, size: T -> int)
    ensures multiset(SortDesc(s, size)) == multiset(s)
  {
    if s != [] {
      SortDescPermutation(s[1..], size);
      InsertDescPermutation(s[0], SortDesc(s[1..], size), size);
      assert s == [s[0]] + s[1..];
    }
  }

  // --------------------------------------------- strict orders, sorted insertion

  ghost predicate StrictTotalOrder<K(!new)>(lt: (K, K) -> bool) {
    && (forall a :: !lt(a, a))
    && (forall a, b, c {:trigger lt(a, b), lt(b, c)} :: lt(a, b) && lt(b, c) ==> lt(a, c))
    && (forall a, b :: a == b || lt(a, b) || lt(b, a))
  }

  /** Lexicographic order of code points: Rust's `Ord` on `String` (UTF-8 byte
      order agrees with code-point order) and SQLite's BINARY collation. */
  predicate StrLt(a: string, b: string) {
    if a == [] then b != []
    else if b == [] then false
    else if a[0] != b[0] then a[0] < b[0]
    else StrLt(a[1..], b[1..])
  }

  lemma {:induction false} StrLtIrreflexive(a: string)
    ensures !StrLt(a, a)
  {
    if a != [] {
      StrLtIrreflexive(a[1..]);
    }
  }

  lemma {:induction false} StrLtTransitive(a: string, b: string, c: string)
    requires StrLt(a, b) && StrLt(b, c)
    ensures StrLt(a, c)
  {
    if a != [] && b != [] && c != [] && a[0] == b[0] && b[0] == c[0] {
      StrLtTransitive(a[1..], b[1..], c[1..]);
    }
  }

  lemma {:induction false} StrLtTotal(a: string, b: string)
    ensures a == b || StrLt(a, b) || StrLt(b, a)
  {
    if a != [] && b != [] && a[0] == b[0] {
      StrLtTotal(a[1..], b[1..]);
      assert a == [a[0]] + a[1..] && b == [b[0]] + b[1..];
    }
  }

  /** String order is a strict total order. */
  lemma StrLtIsStrictTotalOrder()
    ensures StrictTotalOrder(StrLt)
  {
    forall a ensures !StrLt(a, a) { StrLtIrreflexive(a); }
    forall a, b, c | StrLt(a, b) && StrLt(b, c) ensures StrLt(a, c) { StrLtTransitive(a, b, c); }
    forall a, b ensures a == b || StrLt(a, b) || StrLt(b, a) { StrLtTotal(a, b); }
  }

  predicate Ascending<T, K>(s: seq<T>, key: T -> K, lt: (K, K) -> bool) {
    forall i, j :: 0 <= i < j < |s| ==> lt(key(s[i]), key(s[j]))
  }

  /** Inserts `x` before the first element whose key is above `key(x)`. */
  function InsertAscending<T, K>(s: seq<T>, x: T, key: T -> K, lt: (K, K) -> bool): seq<T> {
    if s == [] || lt(key(x), key(s[0])) then [x] + s
    else [s[0]] + InsertAscending(s[1..], x, key, lt)
  }

  lemma {:induction false} InsertAscendingPermutation<T, K>(s: seq<T>, x: T, key: T -> K, lt: (K, K) -> bool)
    ensures multiset(InsertAscending(s, x, key, lt)) == multiset(s) + multiset{x}
  {
    if s != [] && !lt(key(x), key(s[0])) {
      InsertAscendingPermutation(s[1..], x, key, lt);
      assert s == [s[0]] + s[1..];
    }
  }

  lemma InsertAscendingMembers<T, K>(s: seq<T>, x: T, key: T -> K, lt: (K, K) -> bool, y: T)
    ensures y in InsertAscending(s, x, key, lt) <==> y == x || y in s
  {
    InsertAscendingPermutation(s, x, key, lt);
    assert y in InsertAscending(s, x, key, lt) <==> y in multiset(InsertAscending(s, x, key, lt));
    assert y in s <==> y in multiset(s);
  }

  /** Inserting into a sequence whose keys strictly ascend, a key not yet
      among them, keeps the keys strictly ascending. */
  lemma {:induction false} InsertAscendingSorted<T, K(!new)>(s: seq<T>, x: T, key: T -> K, lt: (K, K) -> bool)
    requires StrictTotalOrder(lt)
    requires Ascending(s, key, lt)
    requires forall i :: 0 <= i < |s| ==> key(s[i]) != key(x)
    ensures Ascending(InsertAscending(s, x, key, lt), key, lt)
  {
    if s == [] {
    } else if lt(key(x), key(s[0])) {
      assert forall j :: 0 < j < |s| ==> lt(key(s[0]), key(s[j]));
    } else {
      var tail := InsertAscending(s[1..], x, key, lt);
      InsertAscendingSorted(s[1..], x, key, lt);
      InsertAscendingPermutation(s[1..], x, key, lt);
      assert lt(key(s[0]), key(x));
      forall j | 0 <= j < |tail| ensures lt(key(s[0]), key(tail[j])) {
        assert tail[j] in multiset(tail);
        if tail[j] != x {
          assert tail[j] in multiset(s[1..]);
          var m :| 0 <= m < |s[1..]| && s[1..][m] == tail[j];
          assert s[m + 1] == tail[j];
        }
      }
    }
  }

  /** The rows of `table` whose key is `wanted`, strictly ascending in `lt`
      of `key` (`ORDER BY`, or collecting a map's values then
      `sorted_by_key`). `rowKey` recovers a wanted row's key from the row. */
  method OrderedRows<K, V, J(!new)>(table: map<K, V>, rowKey: V -> K, wanted: K -> bool,
                                    key: V -> J, lt: (J, J) -> bool)
    returns (rows: seq<V>)
    requires StrictTotalOrder(lt)
    requires forall k :: k in table && wanted(k) ==> rowKey(table[k]) == k
    requires forall a, b :: a in table && b in table && wanted(a) && wanted(b) && key(table[a]) == key(table[b]) ==> a == b
    ensures Ascending(rows, key, lt)
    ensures forall v :: v in rows <==> rowKey(v) in table && wanted(rowKey(v)) && table[rowKey(v)] == v
  {
    rows := [];
    var rest := table.Keys;
    ghost var seen: set<K> := {};
    while rest != {}
      invariant rest !! seen && rest + seen == table.Keys
      invariant Ascending(rows, key, lt)
      invariant forall v :: v in rows ==> rowKey(v) in seen && wanted(rowKey(v)) && table[rowKey(v)] == v
      invariant forall k :: k in seen && wanted(k) ==> table[k] in rows
      decreases rest
    {
      var k :| k in rest;
      var v := table[k];
      if wanted(k) {
        assert rowKey(v) == k;
        forall i | 0 <= i < |rows| ensures key(rows[i]) != key(v) {
          assert rows[i] in rows;
        }
        InsertAscendingSorted(rows, v, key, lt);
        var inserted := InsertAscending(rows, v, key, lt);
        forall y | y in inserted ensures rowKey(y) in seen + {k} && wanted(rowKey(y)) && table[rowKey(y)] == y {
          InsertAscendingMembers(rows, v, key, lt, y);
        }
        forall y | y in rows ensures y in inserted {
          InsertAscendingMembers(rows, v, key, lt, y);
        }
        InsertAscendingMembers(rows, v, key, lt, v);
        rows := inserted;
      }
      rest := rest - {k};
      seen := seen + {k};
    }
  }
}
