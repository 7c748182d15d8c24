/** Python's stable `sorted`, and the uniqueness of its result. */
module Sorting {

  ghost predicate TotalPreorder<T(!new)>(leq: (T, T) -> bool) {
    && (forall x, y :: leq(x, y) || leq(y, x))
    && (forall x, y, z :: leq(x, y) && leq(y, z) ==> leq(x, z))
  }

  ghost predicate SortedBy<T>(leq: (T, T) -> bool, s: seq<T>) {
    forall i, j :: 0 <= i < j < |s| ==> leq(s[i], s[j])
  }

  /** No two different elements of `s` share a sort key. */
  ghost predicate DistinctKeys<T>(leq: (T, T) -> bool, s: seq<T>) {
    forall x, y :: x in s && y in s && leq(x, y) && leq(y, x) ==> x == y
  }

  /** Insert `x` in front of the first element it does not exceed, so that equal keys keep their order. */
  function Insert<T>(leq: (T, T) -> bool, x: T, s: seq<T>): (r: seq<T>)
    ensures multiset(r) == multiset(s) + multiset{x}
  {
    if s == [] then [x]
    else if leq(x, s[0]) then [x] + s
    else
      assert s == [s[0]] + s[1..];
      [s[0]] + Insert(leq, x, s[1..])
  }

  function Sort<T>(leq: (T, T) -> bool, s: seq<T>): (r: seq<T>)
    ensures multiset(r) == multiset(s)
  {
    if s == [] then []
    else
      assert s == [s[0]] + s[1..];
      Insert(leq, s[0], Sort(leq, s[1..]))
  }

  lemma {:induction false} InsertSorted<T(!new)>(leq: (T, T) -> bool, x: T, s: seq<T>)
    requires TotalPreorder(leq) && SortedBy(leq, s)
    ensures SortedBy(leq, Insert(leq, x, s))
  {
    if s != [] && !leq(x, s[0]) {
      InsertSorted(leq, x, s[1..]);
      var tail := Insert(leq, x, s[1..]);
      forall y | y in tail ensures leq(s[0], y) {
        assert y in multiset(tail);
        assert y == x || y in s[1..];
      }
    }
  }

  lemma {:induction false} SortSorts<T(!new)>(leq: (T, T) -> bool, s: seq<T>)
    requires TotalPreorder(leq)
    ensures SortedBy(leq, Sort(leq, s))
  {
    if s != [] {
      SortSorts(leq, s[1..]);
      InsertSorted(leq, s[0], Sort(leq, s[1..]));
    }
  }

  lemma SortMembers<T>(leq: (T, T) -> bool, s: seq<T>, x: T)
    ensures x in Sort(leq, s) <==> x in s
  {
    assert x in Sort(leq, s) <==> x in multiset(Sort(leq, s));
  }

  lemma TailMultiset<T>(s: seq<T>)
    requires s != []
    ensures multiset(s[1..]) == multiset(s) - multiset{s[0]}
  {
    assert s == [s[0]] + s[1..];
  }

  lemma SameHead<T(!new)>(leq: (T, T) -> bool, s: seq<T>, t: seq<T>)
    requires TotalPreorder(leq)
    requires SortedBy(leq, s) && SortedBy(leq, t)
    requires multiset(s) == multiset(t) && s != [] && t != []
    requires DistinctKeys(leq, s)
    ensures s[0] == t[0]
  {
    assert s[0] in multiset(t) && t[0] in multiset(s);
    assert leq(s[0], s[0]) && leq(t[0], t[0]);
    assert leq(s[0], t[0]) && leq(t[0], s[0]);
  }

  /** With distinct keys there is only one sorted arrangement of a multiset. */
  lemma {:induction false} SortedUnique<T(!new)>(leq: (T, T) -> bool, s: seq<T>, t: seq<T>)
    requires TotalPreorder(leq)
    requires SortedBy(leq, s) && SortedBy(leq, t)
    requires multiset(s) == multiset(t)
    requires DistinctKeys(leq, s)
    ensures s == t
  {
    assert |multiset(s)| == |s| && |multiset(t)| == |t|;
    if s != [] {
      SameHead(leq, s, t);
      TailMultiset(s);
      TailMultiset(t);
      SortedUnique(leq, s[1..], t[1..]);
      assert s == [s[0]] + s[1..] && t == [t[0]] + t[1..];
    }
  }

  /** Sorting does not depend on the order in which the elements arrive. */
  lemma SortOrderIndependent<T(!new)>(leq: (T, T) -> bool, s: seq<T>, t: seq<T>)
    requires TotalPreorder(leq)
    requires multiset(s) == multiset(t)
    requires DistinctKeys(leq, s)
    ensures Sort(leq, s) == Sort(leq, t)
  {
    SortSorts(leq, s);
    SortSorts(leq, t);
    forall x | x in Sort(leq, s) ensures x in s { SortMembers(leq, s, x); }
    SortedUnique(leq, Sort(leq, s), Sort(leq, t));
  }
}
