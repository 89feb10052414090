/** Python's `sorted` under a total order, as the tools use it.

    Every key the tools sort by ends in a position or a name, so no two elements tie, and the
    order of equal keys, which Python keeps, never matters. Sorting is by insertion: what counts
    is that the result holds the same elements, in order. */
module Sorting {

  ghost predicate TotalOrder<T(!new)>(le: (T, T) -> bool) {
    && (forall x, y :: le(x, y) || le(y, x))
    && (forall x, y, z :: le(x, y) && le(y, z) ==> le(x, z))
  }

  ghost predicate Sorted<T(!new)>(le: (T, T) -> bool, s: seq<T>) {
    forall i, j :: 0 <= i < j < |s| ==> le(s[i], s[j])
  }

  function Insert<T(!new)>(le: (T, T) -> bool, x: T, s: seq<T>): (r: seq<T>)
    requires TotalOrder(le) && Sorted(le, s)
    ensures multiset(r) == multiset(s) + multiset{x}
    ensures Sorted(le, r)
  {
    if s == [] then [x]
    else if le(x, s[0]) then [x] + s
    else
      assert s == [s[0]] + s[1..];
      var rest := Insert(le, x, s[1..]);
      InsertKeepsFirst(le, s[0], x, s[1..], rest);
      [s[0]] + rest
  }

  lemma InsertKeepsFirst<T(!new)>(le: (T, T) -> bool, first: T, x: T, s: seq<T>, r: seq<T>)
    requires multiset(r) == multiset(s) + multiset{x}
    requires le(first, x) && forall i :: 0 <= i < |s| ==> le(first, s[i])
    ensures forall i :: 0 <= i < |r| ==> le(first, r[i])
  {
    forall i | 0 <= i < |r| ensures le(first, r[i]) {
      assert r[i] in multiset(r);
      if r[i] != x {
        assert r[i] in multiset(s);
      }
    }
  }

  /** `s` in the order `le` gives. */
  function SortBy<T(!new)>(le: (T, T) -> bool, s: seq<T>): (r: seq<T>)
    requires TotalOrder(le)
    ensures multiset(r) == multiset(s)
    ensures Sorted(le, r)
  {
    if s == [] then []
    else
      assert s == [s[0]] + s[1..];
      Insert(le, s[0], SortBy(le, s[1..]))
  }
}
