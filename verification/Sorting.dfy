/** A stable sort by a total preorder, the meaning given to the source's `sort_by` calls. */
module Sorting {

  ghost predicate TotalPreorder<T(!new)>(leq: (T, T) -> bool) {
    && (forall x, y :: leq(x, y) || leq(y, x))
    && (forall x, y, z :: leq(x, y) && leq(y, z) ==> leq(x, z))
  }

  ghost predicate Sorted<T(!new)>(leq: (T, T) -> bool, s: seq<T>) {
    forall i, j :: 0 <= i < j < |s| ==> leq(s[i], s[j])
  }

  function Insert<T(!new)>(leq: (T, T) -> bool, x: T, s: seq<T>): seq<T> {
    if s == [] || leq(x, s[0]) then [x] + s else [s[0]] + Insert(leq, x, s[1..])
  }

  /** Elements that compare equal keep their relative order: an element is placed
      before every equal one that followed it. */
  function SortBy<T(!new)>(leq: (T, T) -> bool, s: seq<T>): seq<T> {
    if s == [] then [] else Insert(leq, s[0], SortBy(leq, s[1..]))
  }

  lemma {:induction false} InsertCounts<T(!new)>(leq: (T, T) -> bool, x: T, s: seq<T>)
    ensures multiset(Insert(leq, x, s)) == multiset(s) + multiset{x}
  {
    if s != [] && !leq(x, s[0]) {
      InsertCounts(leq, x, s[1..]);
      assert s == [s[0]] + s[1..];
    }
  }

  lemma PrependSorted<T(!new)>(leq: (T, T) -> bool, x: T, s: seq<T>)
    requires Sorted(leq, s) && forall y :: y in s ==> leq(x, y)
    ensures Sorted(leq, [x] + s)
  {
  }

  lemma {:induction false} InsertSorted<T(!new)>(leq: (T, T) -> bool, x: T, s: seq<T>)
    requires TotalPreorder(leq) && Sorted(leq, s)
    ensures Sorted(leq, Insert(leq, x, s))
    ensures multiset(Insert(leq, x, s)) == multiset(s) + multiset{x}
  {
    InsertCounts(leq, x, s);
    if s == [] {
    } else if leq(x, s[0]) {
      forall y | y in s ensures leq(x, y) {
        assert leq(s[0], s[0]);
        assert y == s[0] || leq(s[0], y);
      }
      PrependSorted(leq, x, s);
    } else {
      InsertSorted(leq, x, s[1..]);
      var tail := Insert(leq, x, s[1..]);
      hide Insert;
      forall y | y in tail ensures leq(s[0], y) {
        assert y in multiset(tail);
        assert y == x || y in s[1..];
      }
      PrependSorted(leq, s[0], tail);
    }
  }

  lemma {:induction false} SortBySorts<T(!new)>(leq: (T, T) -> bool, s: seq<T>)
    requires TotalPreorder(leq)
    ensures Sorted(leq, SortBy(leq, s))
    ensures multiset(SortBy(leq, s)) == multiset(s)
  {
    if s != [] {
      SortBySorts(leq, s[1..]);
      InsertSorted(leq, s[0], SortBy(leq, s[1..]));
      assert s == [s[0]] + s[1..];
    }
  }

  lemma {:induction false} SortByKeepsSorted<T(!new)>(leq: (T, T) -> bool, s: seq<T>)
    requires Sorted(leq, s)
    ensures SortBy(leq, s) == s
  {
    if s != [] {
      SortByKeepsSorted(leq, s[1..]);
      assert s == [s[0]] + s[1..];
    }
  }

  lemma SortByMembers<T(!new)>(leq: (T, T) -> bool, s: seq<T>)
    requires TotalPreorder(leq)
    ensures |SortBy(leq, s)| == |s|
    ensures forall x :: x in SortBy(leq, s) <==> x in s
  {
    SortBySorts(leq, s);
    assert |multiset(SortBy(leq, s))| == |multiset(s)|;
    forall x ensures x in SortBy(leq, s) <==> x in s {
      assert x in SortBy(leq, s) <==> x in multiset(SortBy(leq, s));
      assert x in s <==> x in multiset(s);
    }
  }

  lemma {:induction false} CountsOfDistinct<T(!new)>(s: seq<T>)
    requires forall i, j :: 0 <= i < j < |s| ==> s[i] != s[j]
    ensures forall x :: x in multiset(s) ==> multiset(s)[x] == 1
  {
    if s != [] {
      CountsOfDistinct(s[1..]);
      assert s == [s[0]] + s[1..];
    }
  }

  lemma SortByDistinct<T(!new)>(leq: (T, T) -> bool, s: seq<T>)
    requires TotalPreorder(leq)
    requires forall i, j :: 0 <= i < j < |s| ==> s[i] != s[j]
    ensures forall i, j :: 0 <= i < j < |SortBy(leq, s)| ==> SortBy(leq, s)[i] != SortBy(leq, s)[j]
  {
    SortBySorts(leq, s);
    CountsOfDistinct(s);
    var r := SortBy(leq, s);
    forall i, j | 0 <= i < j < |r| ensures r[i] != r[j] {
      assert r == r[..j] + r[j..];
      assert r[i] == r[..j][i] && r[j] == r[j..][0];
      assert r[i] in multiset(r[..j]) && r[j] in multiset(r[j..]);
      assert multiset(r) == multiset(r[..j]) + multiset(r[j..]) == multiset(s);
      assert r[i] == r[j] ==> multiset(s)[r[i]] >= 2;
    }
  }
}
