// A stable insertion sort under a caller-given ordering, used wherever the
// server asks a store or a utility to sort (Mongo `$sort`, `sort.Slice`).
module Sorting {
  /** `leq` is total and transitive on every pair of values. */
  ghost predicate TotalPreorder<T(!new)>(leq: (T, T) -> bool)
  {
    (forall a, b :: leq(a, b) || leq(b, a)) &&
    (forall a, b, c :: leq(a, b) && leq(b, c) ==> leq(a, c))
  }

  predicate SortedBy<T>(s: seq<T>, leq: (T, T) -> bool)
  {
    forall i, j :: 0 <= i < j < |s| ==> leq(s[i], s[j])
  }

  function Insert<T>(x: T, s: seq<T>, leq: (T, T) -> bool): (r: seq<T>)
    ensures multiset(r) == multiset(s) + multiset{x}
    ensures |r| == |s| + 1
  {
    if |s| == 0 then [x]
    else if leq(x, s[0]) then [x] + s
    else
      assert s == [s[0]] + s[1..];
      [s[0]] + Insert(x, s[1..], leq)
  }

  function SortBy<T>(s: seq<T>, leq: (T, T) -> bool): (r: seq<T>)
    ensures multiset(r) == multiset(s)
    ensures |r| == |s|
  {
    if |s| == 0 then []
    else
      assert s == [s[0]] + s[1..];
      Insert(s[0], SortBy(s[1..], leq), leq)
  }

  lemma {:induction false} InsertSorted<T(!new)>(x: T, s: seq<T>, leq: (T, T) -> bool)
    requires TotalPreorder(leq)
    requires SortedBy(s, leq)
    ensures SortedBy(Insert(x, s, leq), leq)
  {
    if |s| > 0 && !leq(x, s[0]) {
      assert leq(s[0], x);
      InsertSorted(x, s[1..], leq);
      var r := Insert(x, s, leq);
      var t := Insert(x, s[1..], leq);
      assert r == [s[0]] + t;
      forall k | 0 <= k < |t|
        ensures leq(s[0], t[k])
      {
        assert t[k] in multiset(t);
        assert t[k] in multiset(s[1..]) + multiset{x};
        if t[k] != x {
          assert t[k] in multiset(s[1..]);
          var m :| 0 <= m < |s[1..]| && s[1..][m] == t[k];
          assert s[m + 1] == t[k];
        }
      }
    }
  }

  /** The result is ordered by `leq` and holds exactly the input's elements. */
  lemma {:induction false} SortBySorted<T(!new)>(s: seq<T>, leq: (T, T) -> bool)
    requires TotalPreorder(leq)
    ensures SortedBy(SortBy(s, leq), leq)
    ensures multiset(SortBy(s, leq)) == multiset(s)
  {
    if |s| > 0 {
      SortBySorted(s[1..], leq);
      InsertSorted(s[0], SortBy(s[1..], leq), leq);
    }
  }
}
