/** A stable sort by an integer-triple key, compared lexicographically: what the
    model uses for pandas' `sort_values` on up to three columns. */
module Sorting {
  import opened Seqs

  type Key = (int, int, int)

  predicate Less(a: Key, b: Key) {
    a.0 < b.0 || (a.0 == b.0 && (a.1 < b.1 || (a.1 == b.1 && a.2 < b.2)))
  }

  /** Keys never decrease along `s`. */
  predicate SortedBy<T>(s: seq<T>, key: T -> Key) {
    forall i, j :: 0 <= i < j < |s| ==> !Less(key(s[j]), key(s[i]))
  }

  /** `x` goes after every element whose key is not greater than its own. */
  function InsertBy<T>(s: seq<T>, x: T, key: T -> Key): (r: seq<T>)
    ensures |r| == |s| + 1
    ensures multiset(r) == multiset(s) + multiset{x}
  {
    if s == [] then [x]
    else if Less(key(x), key(s[0])) then [x] + s
    else
      assert s == [s[0]] + s[1..];
      [s[0]] + InsertBy(s[1..], x, key)
  }

  /** Inserting an element no smaller than a bound into elements no smaller than it
      keeps every element at or above the bound. */
  lemma InsertByBound<T>(s: seq<T>, x: T, key: T -> Key, b: Key)
    requires forall i :: 0 <= i < |s| ==> !Less(key(s[i]), b)
    requires !Less(key(x), b)
    ensures forall k :: 0 <= k < |InsertBy(s, x, key)| ==> !Less(key(InsertBy(s, x, key)[k]), b)
  {
    var t := InsertBy(s, x, key);
    forall k | 0 <= k < |t|
      ensures !Less(key(t[k]), b)
    {
      assert t[k] in multiset(s) + multiset{x} by {
        assert t[k] in multiset(t);
      }
      if t[k] != x {
        assert t[k] in s;
      }
    }
  }

  lemma {:induction false} InsertBySorted<T>(s: seq<T>, x: T, key: T -> Key)
    requires SortedBy(s, key)
    ensures SortedBy(InsertBy(s, x, key), key)
  {
    if s != [] && !Less(key(x), key(s[0])) {
      var tail := s[1..];
      var t := InsertBy(tail, x, key);
      assert SortedBy(tail, key) by {
        forall i, j | 0 <= i < j < |tail|
          ensures !Less(key(tail[j]), key(tail[i]))
        {
          assert tail[i] == s[i + 1] && tail[j] == s[j + 1];
        }
      }
      InsertBySorted(tail, x, key);
      assert forall m :: 0 <= m < |tail| ==> !Less(key(tail[m]), key(s[0])) by {
        forall m | 0 <= m < |tail|
          ensures !Less(key(tail[m]), key(s[0]))
        {
          assert tail[m] == s[m + 1];
        }
      }
      InsertByBound(tail, x, key, key(s[0]));
      var r := [s[0]] + t;
      forall i, j | 0 <= i < j < |r|
        ensures !Less(key(r[j]), key(r[i]))
      {
        if i == 0 {
          assert r[i] == s[0] && r[j] == t[j - 1];
        } else {
          assert r[i] == t[i - 1] && r[j] == t[j - 1];
        }
      }
    }
  }

  function SortBy<T>(s: seq<T>, key: T -> Key): (r: seq<T>)
    ensures |r| == |s| && multiset(r) == multiset(s)
  {
    if s == [] then []
    else
      assert s == s[..|s| - 1] + [s[|s| - 1]];
      InsertBy(SortBy(s[..|s| - 1], key), s[|s| - 1], key)
  }

  /** Two elements already in key order stay as they are. */
  lemma SortByPair<T>(x: T, y: T, key: T -> Key)
    requires !Less(key(y), key(x))
    ensures SortBy([x, y], key) == [x, y]
  {
    assert [x, y][..1] == [x];
    assert [x][..0] == [];
    assert InsertBy([x], y, key) == [x] + InsertBy([], y, key);
  }

  /** The sorted sequence is ordered by the key and holds exactly the input's
      elements, as often as the input does. */
  lemma {:induction false} SortBySorted<T>(s: seq<T>, key: T -> Key)
    ensures SortedBy(SortBy(s, key), key)
  {
    if s != [] {
      SortBySorted(s[..|s| - 1], key);
      InsertBySorted(SortBy(s[..|s| - 1], key), s[|s| - 1], key);
    }
  }

  /** Dropping rows from a sorted frame leaves it sorted. */
  lemma {:induction false} FilterSorted<T>(s: seq<T>, key: T -> Key, p: T -> bool)
    requires SortedBy(s, key)
    ensures SortedBy(Filter(s, p), key)
  {
    if s != [] {
      var init, last := s[..|s| - 1], s[|s| - 1];
      assert SortedBy(init, key);
      FilterSorted(init, key, p);
      FilterMembers(init, p);
      var f := Filter(init, p);
      if p(last) {
        forall i | 0 <= i < |f|
          ensures !Less(key(last), key(f[i]))
        {
          var m :| 0 <= m < |init| && init[m] == f[i];
          assert s[m] == f[i];
        }
      }
    }
  }
}
