/**
 * Comparison sorting as the .NET List.Sort contract promises it: the result
 * is ordered by the comparison and is a permutation of the input. The order
 * of elements that compare equal is not promised by List.Sort; the model
 * picks one (insertion order), and callers' properties do not depend on it.
 */
module Sorting {

  /** `le` is total and transitive, as a Comparison must be for List.Sort to be defined. */
  ghost predicate TotalPreorder<T(!new)>(le: (T, T) -> bool)
  {
    && (forall a, b :: le(a, b) || le(b, a))
    && (forall a, b, c :: le(a, b) && le(b, c) ==> le(a, c))
  }

  predicate SortedBy<T>(s: seq<T>, le: (T, T) -> bool)
  {
    forall i, j :: 0 <= i < j < |s| ==> le(s[i], s[j])
  }

  lemma SortedCons<T>(b: T, t: seq<T>, le: (T, T) -> bool)
    requires SortedBy(t, le) && forall y :: y in t ==> le(b, y)
    ensures SortedBy([b] + t, le)
  {
    var r := [b] + t;
    forall i, j | 0 <= i < j < |r| ensures le(r[i], r[j]) {
      assert r[j] == t[j - 1];
      if i > 0 { assert r[i] == t[i - 1]; }
    }
  }

  function Insert<T(!new)>(x: T, s: seq<T>, le: (T, T) -> bool): (r: seq<T>)
    requires TotalPreorder(le) && SortedBy(s, le)
    ensures SortedBy(r, le) && multiset(r) == multiset(s) + multiset{x}
    ensures |r| == |s| + 1
  {
    if |s| == 0 then [x]
    else if le(x, s[0]) then
      assert forall y :: y in s ==> le(x, y) by {
        forall y | y in s ensures le(x, y) {
          var k :| 0 <= k < |s| && s[k] == y;
          if k > 0 { assert le(s[0], s[k]); }
        }
      }
      SortedCons(x, s, le);
      [x] + s
    else
      var t := Insert(x, s[1..], le);
      assert s == [s[0]] + s[1..];
      assert forall y :: y in t ==> le(s[0], y) by {
        forall y | y in t ensures le(s[0], y) {
          assert y in multiset(t);
          if y != x {
            assert y in multiset(s[1..]);
            var k :| 0 <= k < |s[1..]| && s[1..][k] == y;
            assert s[k + 1] == y;
          }
        }
      }
      SortedCons(s[0], t, le);
      [s[0]] + t
  }

  function SortBy<T(!new)>(s: seq<T>, le: (T, T) -> bool): (r: seq<T>)
    requires TotalPreorder(le)
    ensures SortedBy(r, le) && multiset(r) == multiset(s)
    ensures |r| == |s|
  {
    if |s| == 0 then []
    else
      assert s == [s[0]] + s[1..];
      Insert(s[0], SortBy(s[1..], le), le)
  }
}
