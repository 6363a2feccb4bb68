/** Sorting a table by a column, as pandas' `sort_values` does. The default
    algorithm there is not stable, so the only promises made are the ones every
    correct sort keeps: the result is ordered and is a permutation of the input. */
module Sorting {

  /** `le` is total and transitive: a comparison of one column, ascending or descending. */
  ghost predicate TotalPreorder<T(!new)>(le: (T, T) -> bool) {
    && (forall a, b :: le(a, b) || le(b, a))
    && (forall a, b, c :: le(a, b) && le(b, c) ==> le(a, c))
  }

  ghost predicate SortedBy<T>(s: seq<T>, le: (T, T) -> bool) {
    forall i, j :: 0 <= i < j < |s| ==> le(s[i], s[j])
  }

  function Insert<T(!new)>(x: T, s: seq<T>, le: (T, T) -> bool): (r: seq<T>)
    requires TotalPreorder(le) && SortedBy(s, le)
    ensures SortedBy(r, le)
    ensures multiset(r) == multiset(s) + multiset{x}
  {
    if s == [] then [x]
    else if le(x, s[0]) then [x] + s
    else
      var rest := Insert(x, s[1..], le);
      assert s == [s[0]] + s[1..];
      BoundKept(s[0], x, s[1..], rest, le);
      [s[0]] + rest
  }

  /** A lower bound of `s` and of `x` bounds every arrangement of them. */
  lemma BoundKept<T(!new)>(b: T, x: T, s: seq<T>, rest: seq<T>, le: (T, T) -> bool)
    requires le(b, x) && forall k :: 0 <= k < |s| ==> le(b, s[k])
    requires multiset(rest) == multiset(s) + multiset{x}
    ensures forall j :: 0 <= j < |rest| ==> le(b, rest[j])
  {
    forall j | 0 <= j < |rest| ensures le(b, rest[j]) {
      var y := rest[j];
      assert y in multiset(rest);
      if y != x {
        assert y in multiset(s);
        var k :| 0 <= k < |s| && s[k] == y;
      }
    }
  }

  function SortBy<T(!new)>(s: seq<T>, le: (T, T) -> bool): (r: seq<T>)
    requires TotalPreorder(le)
    ensures SortedBy(r, le)
    ensures multiset(r) == multiset(s)
    ensures |r| == |s|
  {
    if s == [] then []
    else
      assert s == [s[0]] + s[1..];
      Insert(s[0], SortBy(s[1..], le), le)
  }
}
