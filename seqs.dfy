/** Sequence helpers: pandas' `unique()` (first occurrence kept), boolean-mask
    filtering, and the counting facts the tree proofs need. */
module Seqs {
  import opened Wrappers

  predicate Distinct<T(==)>(s: seq<T>) {
    forall i, j :: 0 <= i < j < |s| ==> s[i] != s[j]
  }

  /** The index of the first occurrence of `x` in `s`. */
  function FirstIndex<T(==)>(s: seq<T>, x: T): (i: nat)
    requires x in s
    ensures i < |s| && s[i] == x && x !in s[..i]
  {
    if s[0] == x then 0 else 1 + FirstIndex(s[1..], x)
  }

  lemma {:induction false} FirstIndexPrefix<T>(s: seq<T>, n: nat, x: T)
    requires n <= |s| && x in s[..n]
    ensures FirstIndex(s, x) == FirstIndex(s[..n], x)
  {
    if s[0] != x {
      assert s[1..][..n - 1] == s[..n][1..];
      FirstIndexPrefix(s[1..], n - 1, x);
    }
  }

  /** pandas' `Series.unique()`: every value once, in order of first appearance. */
  function Dedup<T(==)>(s: seq<T>): seq<T> {
    if s == [] then []
    else
      var d := Dedup(s[..|s| - 1]);
      if s[|s| - 1] in d then d else d + [s[|s| - 1]]
  }

  /** `Dedup` keeps exactly the values of its input, each once. */
  lemma {:induction false} DedupMembers<T>(s: seq<T>)
    ensures var r := Dedup(s);
      |r| <= |s| && Distinct(r) &&
      (forall i :: 0 <= i < |r| ==> r[i] in s) &&
      (forall i :: 0 <= i < |s| ==> s[i] in r)
  {
    if s != [] {
      var init, last := s[..|s| - 1], s[|s| - 1];
      assert s == init + [last];
      DedupMembers(init);
    }
  }

  /** The order of `Dedup` is the order of first occurrences in the input. */
  lemma {:induction false} DedupFirstOccurrenceOrder<T>(s: seq<T>, i: nat, j: nat)
    requires i < j < |Dedup(s)|
    ensures Dedup(s)[i] in s && Dedup(s)[j] in s
    ensures FirstIndex(s, Dedup(s)[i]) < FirstIndex(s, Dedup(s)[j])
  {
    DedupMembers(s);
    var n := |s| - 1;
    var init, last := s[..n], s[n];
    var d := Dedup(init);
    var r := Dedup(s);
    DedupMembers(init);
    assert s == init + [last];
    FirstIndexPrefix(s, n, r[i]);
    if last in d {
      assert r == d;
      FirstIndexPrefix(s, n, r[j]);
      DedupFirstOccurrenceOrder(init, i, j);
    } else if j < |d| {
      FirstIndexPrefix(s, n, r[j]);
      DedupFirstOccurrenceOrder(init, i, j);
    } else {
      assert r[j] == last && last !in init;
      assert FirstIndex(s, r[j]) == n;
    }
  }

  /** A sequence with no repeated element is its own `Dedup`. */
  lemma {:induction false} DedupDistinct<T>(s: seq<T>)
    requires Distinct(s)
    ensures Dedup(s) == s
  {
    if s != [] {
      var init := s[..|s| - 1];
      assert Distinct(init);
      DedupDistinct(init);
      assert s == init + [s[|s| - 1]];
    }
  }

  /** A column of a frame: `f` of every row, in row order. */
  function Column<A, B>(s: seq<A>, f: A -> B): (r: seq<B>)
    ensures |r| == |s| && forall i :: 0 <= i < |s| ==> r[i] == f(s[i])
  {
    seq(|s|, i requires 0 <= i < |s| => f(s[i]))
  }

  /** pandas' boolean-mask selection `df[mask]`: the rows satisfying `p`, in order. */
  function Filter<T>(s: seq<T>, p: T -> bool): seq<T> {
    if s == [] then []
    else Filter(s[..|s| - 1], p) + (if p(s[|s| - 1]) then [s[|s| - 1]] else [])
  }

  /** `Filter` keeps exactly the elements satisfying `p`. */
  lemma {:induction false} FilterMembers<T>(s: seq<T>, p: T -> bool)
    ensures var r := Filter(s, p);
      |r| <= |s| &&
      (forall i :: 0 <= i < |r| ==> p(r[i]) && r[i] in s) &&
      (forall i :: 0 <= i < |s| && p(s[i]) ==> s[i] in r)
  {
    if s != [] {
      var init, last := s[..|s| - 1], s[|s| - 1];
      assert s == init + [last];
      FilterMembers(init, p);
    }
  }

  lemma ConcatAssoc<T>(a: seq<T>, b: seq<T>, c: seq<T>)
    ensures (a + b) + c == a + (b + c)
  {
  }

  /** The loop step of "done + to do == all": the next piece moves from the part
      still to do to the part done. */
  lemma MoveFront<T>(done: seq<T>, todo: seq<T>, piece: seq<T>, rest: seq<T>, all: seq<T>)
    requires done + todo == all && todo == piece + rest
    ensures (done + piece) + rest == all
  {
    ConcatAssoc(done, piece, rest);
  }

  /** The loop step of a filter: the next element is appended when it passes. */
  lemma FilterStep<T>(s: seq<T>, i: nat, p: T -> bool)
    requires i < |s|
    ensures Filter(s[..i + 1], p) == Filter(s[..i], p) + (if p(s[i]) then [s[i]] else [])
  {
    assert s[..i + 1][..i] == s[..i];
  }

  lemma {:induction false} FilterConcat<T>(a: seq<T>, b: seq<T>, p: T -> bool)
    ensures Filter(a + b, p) == Filter(a, p) + Filter(b, p)
    decreases |b|
  {
    if b != [] {
      var init := b[..|b| - 1];
      assert a + b == (a + init) + [b[|b| - 1]];
      FilterConcat(a, init, p);
    } else {
      assert a + b == a;
    }
  }

  /** Filtering a sequence that starts with `x`. */
  lemma FilterCons<T>(x: T, s: seq<T>, p: T -> bool)
    ensures Filter([x] + s, p) == (if p(x) then [x] else []) + Filter(s, p)
  {
    FilterConcat([x], s, p);
    assert Filter([x], p) == Filter([], p) + (if p(x) then [x] else []);
  }

  /** Filtering around one element `x` of the middle of a sequence. */
  lemma FilterMiddle<T>(front: seq<T>, x: T, back: seq<T>, p: T -> bool)
    ensures multiset(Filter(front + [x] + back, p)) ==
      multiset(Filter(front + back, p)) + multiset(if p(x) then [x] else [])
  {
    FilterConcat(front, back, p);
    FilterConcat(front + [x], back, p);
    FilterConcat(front, [x], p);
    assert Filter([x], p) == Filter([], p) + (if p(x) then [x] else []);
  }

  /** Taking one occurrence of `x` out of both sides of a permutation. */
  lemma RemoveOne<T>(init: seq<T>, x: T, front: seq<T>, back: seq<T>)
    requires multiset(init + [x]) == multiset(front + [x] + back)
    ensures multiset(init) == multiset(front + back)
  {
    assert multiset(init + [x]) == multiset(init) + multiset{x};
    assert multiset(front + [x] + back) == multiset(front + back) + multiset{x};
    assert multiset(init) == multiset(init + [x]) - multiset{x};
  }

  /** Filtering two orderings of the same rows keeps the same rows. */
  lemma {:induction false} FilterPermutation<T>(s: seq<T>, t: seq<T>, p: T -> bool)
    requires multiset(s) == multiset(t)
    ensures multiset(Filter(s, p)) == multiset(Filter(t, p))
    decreases |s|
  {
    if s != [] {
      var init, x := s[..|s| - 1], s[|s| - 1];
      assert s == init + [x];
      assert x in multiset(t);
      var i :| 0 <= i < |t| && t[i] == x;
      var front, back := t[..i], t[i + 1..];
      assert t == front + [x] + back;
      RemoveOne(init, x, front, back);
      FilterPermutation(init, front + back, p);
      FilterMiddle(front, x, back, p);
    }
  }

  /** The column of a concatenation is the concatenation of the columns. */
  lemma ColumnConcat<A, B>(s: seq<A>, t: seq<A>, f: A -> B)
    ensures Column(s + t, f) == Column(s, f) + Column(t, f)
  {
    var l, r := Column(s + t, f), Column(s, f) + Column(t, f);
    assert |l| == |r|;
    forall i | 0 <= i < |l| ensures l[i] == r[i] {
      if i < |s| {
        assert (s + t)[i] == s[i];
      } else {
        assert (s + t)[i] == t[i - |s|];
      }
    }
  }

  /** Projecting two orderings of the same rows gives two orderings of the same values. */
  lemma {:induction false} ColumnPermutation<A, B>(s: seq<A>, t: seq<A>, f: A -> B)
    requires multiset(s) == multiset(t)
    ensures multiset(Column(s, f)) == multiset(Column(t, f))
    decreases |s|
  {
    if s == [] {
      assert |t| == |multiset(t)| == 0;
    } else {
      var init, x := s[..|s| - 1], s[|s| - 1];
      assert s == init + [x];
      assert x in multiset(t);
      var i :| 0 <= i < |t| && t[i] == x;
      var front, back := t[..i], t[i + 1..];
      assert t == front + [x] + back;
      RemoveOne(init, x, front, back);
      ColumnPermutation(init, front + back, f);
      ColumnConcat(init, [x], f);
      ColumnConcat(front, back, f);
      ColumnConcat(front + [x], back, f);
      ColumnConcat(front, [x], f);
    }
  }

  /** A filter that every element passes keeps the whole sequence. */
  lemma {:induction false} FilterAll<T>(s: seq<T>, p: T -> bool)
    requires forall i :: 0 <= i < |s| ==> p(s[i])
    ensures Filter(s, p) == s
  {
    if s != [] {
      FilterAll(s[..|s| - 1], p);
      assert s == s[..|s| - 1] + [s[|s| - 1]];
    }
  }

  /** A filter that no element passes keeps nothing. */
  lemma {:induction false} FilterNone<T>(s: seq<T>, p: T -> bool)
    requires forall i :: 0 <= i < |s| ==> !p(s[i])
    ensures Filter(s, p) == []
  {
    if s != [] {
      FilterNone(s[..|s| - 1], p);
    }
  }

  /** The defined results of `f` over `s`, in order: a loop that appends at most one
      item per element. */
  function FilterMap<A, B>(s: seq<A>, f: A -> Option<B>): seq<B> {
    if s == [] then []
    else
      var m := f(s[|s| - 1]);
      FilterMap(s[..|s| - 1], f) + (if m.Some? then [m.value] else [])
  }

  /** At most one item per element, and an item is in the result exactly when some
      element yields it. */
  lemma {:induction false} FilterMapMembers<A, B>(s: seq<A>, f: A -> Option<B>, b: B)
    ensures |FilterMap(s, f)| <= |s|
    ensures b in FilterMap(s, f) <==> exists i :: 0 <= i < |s| && f(s[i]) == Some(b)
  {
    if s != [] {
      var init := s[..|s| - 1];
      FilterMapMembers(init, f, b);
      if b in FilterMap(init, f) {
        var i :| 0 <= i < |init| && f(init[i]) == Some(b);
        assert s[i] == init[i];
      }
      if exists i :: 0 <= i < |s| && f(s[i]) == Some(b) {
        var i :| 0 <= i < |s| && f(s[i]) == Some(b);
        if i < |init| {
          assert init[i] == s[i];
        }
      }
    }
  }

  /** The number of positions of `ks` that hold `v`. */
  function Occurrences<K(==)>(ks: seq<K>, v: K): nat {
    if ks == [] then 0 else Occurrences(ks[..|ks| - 1], v) + (if ks[|ks| - 1] == v then 1 else 0)
  }

  lemma {:induction false} OccurrencesDistinct<K>(ks: seq<K>, v: K)
    requires Distinct(ks)
    ensures Occurrences(ks, v) == if v in ks then 1 else 0
  {
    if ks != [] {
      var init := ks[..|ks| - 1];
      assert ks == init + [ks[|ks| - 1]];
      OccurrencesDistinct(init, v);
    }
  }

  /** The elements of `s` whose key is `k` (one bucket of a group-by on `key`). */
  function Group<T, K(==)>(s: seq<T>, key: T -> K, k: K): seq<T> {
    Filter(s, x => key(x) == k)
  }

  /** A group holds exactly the elements with that key. */
  lemma GroupMembers<T, K>(s: seq<T>, key: T -> K, k: K)
    ensures var g := Group(s, key, k);
      |g| <= |s| &&
      (forall i :: 0 <= i < |g| ==> key(g[i]) == k && g[i] in s) &&
      (forall i :: 0 <= i < |s| && key(s[i]) == k ==> s[i] in g)
  {
    FilterMembers(s, x => key(x) == k);
  }

  /** A single element with the key forms the whole group. */
  lemma GroupSingle<T, K>(x: T, key: T -> K, k: K)
    requires key(x) == k
    ensures Group([x], key, k) == [x]
  {
    GroupMembers([x], key, k);
  }

  /** The total size of the groups of `s` for the keys `ks`, in order. */
  function GroupSizes<T, K(==)>(s: seq<T>, key: T -> K, ks: seq<K>): nat {
    if ks == [] then 0 else GroupSizes(s, key, ks[..|ks| - 1]) + |Group(s, key, ks[|ks| - 1])|
  }

  lemma {:induction false} GroupSizesSnoc<T, K>(s: seq<T>, x: T, key: T -> K, ks: seq<K>)
    ensures GroupSizes(s + [x], key, ks) == GroupSizes(s, key, ks) + Occurrences(ks, key(x))
  {
    if ks != [] {
      var init, k := ks[..|ks| - 1], ks[|ks| - 1];
      GroupSizesSnoc(s, x, key, init);
      assert s + [x] == (s + [x])[..|s|] + [x];
      assert (s + [x])[..|s|] == s;
    }
  }

  /** Grouping by distinct keys that cover every element partitions the sequence:
      every element lands in exactly one group. */
  lemma {:induction false} GroupsPartition<T, K>(s: seq<T>, key: T -> K, ks: seq<K>)
    requires Distinct(ks)
    requires forall i :: 0 <= i < |s| ==> key(s[i]) in ks
    ensures GroupSizes(s, key, ks) == |s|
  {
    if s == [] {
      GroupSizesEmpty(key, ks);
    } else {
      var init, x := s[..|s| - 1], s[|s| - 1];
      assert s == init + [x];
      GroupsPartition(init, key, ks);
      GroupSizesSnoc(init, x, key, ks);
      OccurrencesDistinct(ks, key(x));
    }
  }

  lemma {:induction false} GroupSizesEmpty<T, K>(key: T -> K, ks: seq<K>)
    ensures GroupSizes([], key, ks) == 0
  {
    if ks != [] {
      GroupSizesEmpty(key, ks[..|ks| - 1]);
    }
  }

  predicate StrictlyIncreasing(s: seq<int>) {
    forall i, j :: 0 <= i < j < |s| ==> s[i] < s[j]
  }

  lemma StrictlyIncreasingDistinct(s: seq<int>)
    requires StrictlyIncreasing(s)
    ensures Distinct(s)
  {
  }

  function InsertSorted(s: seq<int>, x: int): seq<int> {
    if s == [] then [x]
    else if x < s[0] then [x] + s
    else if x == s[0] then s
    else [s[0]] + InsertSorted(s[1..], x)
  }

  lemma {:induction false} InsertSortedMembers(s: seq<int>, x: int)
    ensures var r := InsertSorted(s, x);
      x in r &&
      (forall i :: 0 <= i < |r| ==> r[i] == x || r[i] in s) &&
      (forall i :: 0 <= i < |s| ==> s[i] in r)
  {
    if s != [] && x > s[0] {
      var tail := s[1..];
      InsertSortedMembers(tail, x);
      forall i | 0 < i < |s|
        ensures s[i] in InsertSorted(s, x)
      {
        assert s[i] == tail[i - 1];
      }
    }
  }

  /** A value below every element of an increasing sequence can go in front. */
  lemma ConsIncreasing(a: int, t: seq<int>)
    requires StrictlyIncreasing(t) && forall i :: 0 <= i < |t| ==> a < t[i]
    ensures StrictlyIncreasing([a] + t)
  {
    forall i, j | 0 <= i < j < |[a] + t|
      ensures ([a] + t)[i] < ([a] + t)[j]
    {
      if i > 0 {
        assert ([a] + t)[i] == t[i - 1];
      }
      assert ([a] + t)[j] == t[j - 1];
    }
  }

  /** A value above every element of an increasing sequence can go at the end. */
  lemma SnocIncreasing(d: seq<int>, x: int)
    requires StrictlyIncreasing(d) && forall i :: 0 <= i < |d| ==> d[i] < x
    ensures StrictlyIncreasing(d + [x])
  {
    forall i, j | 0 <= i < j < |d + [x]|
      ensures (d + [x])[i] < (d + [x])[j]
    {
      assert (d + [x])[i] == d[i];
      if j < |d| {
        assert (d + [x])[j] == d[j];
      }
    }
  }

  lemma {:induction false} InsertSortedIncreasing(s: seq<int>, x: int)
    requires StrictlyIncreasing(s)
    ensures StrictlyIncreasing(InsertSorted(s, x))
  {
    if s != [] && x > s[0] {
      var tail := s[1..];
      var t := InsertSorted(tail, x);
      InsertSortedIncreasing(tail, x);
      InsertSortedMembers(tail, x);
      forall i | 0 <= i < |t|
        ensures s[0] < t[i]
      {
        if t[i] != x {
          var k :| 0 <= k < |tail| && tail[k] == t[i];
          assert tail[k] == s[k + 1];
        }
      }
      assert InsertSorted(s, x) == [s[0]] + t;
      ConsIncreasing(s[0], t);
    }
  }

  lemma InsertSortedProps(s: seq<int>, x: int)
    requires StrictlyIncreasing(s)
    ensures var r := InsertSorted(s, x);
      StrictlyIncreasing(r) && x in r &&
      (forall i :: 0 <= i < |r| ==> r[i] == x || r[i] in s) &&
      (forall i :: 0 <= i < |s| ==> s[i] in r)
  {
    InsertSortedMembers(s, x);
    InsertSortedIncreasing(s, x);
  }

  /** Python's `sorted(series.unique())`: the distinct values in ascending order. */
  function SortedDistinct(s: seq<int>): seq<int> {
    if s == [] then [] else InsertSorted(SortedDistinct(s[..|s| - 1]), s[|s| - 1])
  }

  lemma {:induction false} SortedDistinctProps(s: seq<int>)
    ensures var r := SortedDistinct(s);
      StrictlyIncreasing(r) && (|r| == 0 <==> |s| == 0) &&
      (forall i :: 0 <= i < |r| ==> r[i] in s) &&
      (forall i :: 0 <= i < |s| ==> s[i] in r)
  {
    if s != [] {
      var init, last := s[..|s| - 1], s[|s| - 1];
      assert s == init + [last];
      SortedDistinctProps(init);
      InsertSortedProps(SortedDistinct(init), last);
    }
  }

  predicate NonDecreasing(s: seq<int>) {
    forall i, j :: 0 <= i < j < |s| ==> s[i] <= s[j]
  }

  /** `unique()` of a sorted column lists its distinct values in ascending order. */
  lemma {:induction false} DedupNonDecreasing(s: seq<int>)
    requires NonDecreasing(s)
    ensures StrictlyIncreasing(Dedup(s))
  {
    if s != [] {
      var init, last := s[..|s| - 1], s[|s| - 1];
      assert NonDecreasing(init);
      DedupNonDecreasing(init);
      DedupMembers(init);
      var d := Dedup(init);
      if last !in d {
        forall i | 0 <= i < |d|
          ensures d[i] < last
        {
          var m :| 0 <= m < |init| && init[m] == d[i];
          assert s[m] == d[i];
        }
        SnocIncreasing(d, last);
      }
    }
  }

  /** The 1-based dense rank of `x` among the ascending distinct values `sorted`
      (the `{date: idx + 1 for idx, date in enumerate(...)}` tables). */
  function Rank(sorted: seq<int>, x: int): (k: nat)
    requires x in sorted
    ensures 1 <= k <= |sorted| && sorted[k - 1] == x
  {
    FirstIndex(sorted, x) + 1
  }

  /** Ranks order values as the values are ordered, equal values share a rank, and
      every rank from 1 to the number of distinct values is taken. */
  lemma RankOrder(sorted: seq<int>, x: int, y: int)
    requires StrictlyIncreasing(sorted) && x in sorted && y in sorted
    ensures x < y <==> Rank(sorted, x) < Rank(sorted, y)
    ensures x == y <==> Rank(sorted, x) == Rank(sorted, y)
  {
  }

  lemma RankDense(sorted: seq<int>, k: nat)
    requires StrictlyIncreasing(sorted) && 1 <= k <= |sorted|
    ensures Rank(sorted, sorted[k - 1]) == k
  {
    StrictlyIncreasingDistinct(sorted);
  }

  /** The integers `lo, lo + 1, …, hi - 1`. */
  function Range(lo: int, hi: int): (r: seq<int>)
    requires lo <= hi
    ensures |r| == hi - lo && forall i :: 0 <= i < |r| ==> r[i] == lo + i
  {
    seq(hi - lo, i requires 0 <= i < hi - lo => lo + i)
  }

  /** A prefix one element longer is the prefix followed by that element. */
  lemma PrefixStep<T>(s: seq<T>, i: nat)
    requires i < |s|
    ensures s[..i + 1] == s[..i] + [s[i]]
  {
  }

  /** Python's `s[:stop]`: a negative `stop` counts from the end. */
  function PyPrefix<T>(s: seq<T>, stop: int): (r: seq<T>)
    ensures |r| <= |s| && r == s[..|r|]
    ensures stop >= 0 ==> |r| == if stop <= |s| then stop else |s|
    ensures stop < 0 ==> |r| == if -stop <= |s| then |s| + stop else 0
  {
    if stop >= 0 then (if stop <= |s| then s[..stop] else s)
    else if -stop <= |s| then s[..|s| + stop] else []
  }
}
