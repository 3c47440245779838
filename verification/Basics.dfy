/** Vocabulary shared by the models: optional values, duplicate-free sequences,
    order-preserving filters, and the orders used by the sorted steps. */
module Basics {

  datatype Option<+T> = None | Some(value: T)

  ghost predicate NoDup<T(!new)>(s: seq<T>) {
    forall i, j :: 0 <= i < j < |s| ==> s[i] != s[j]
  }

  /** `order` lists exactly the elements of `keys`, each once: what iterating a hash
      container yields, in an order the container does not promise. */
  ghost predicate Lists<T(!new)>(order: seq<T>, keys: set<T>) {
    NoDup(order) && forall x :: x in order <==> x in keys
  }

  /** The elements of `s` that lie in `kept`, in their original order. */
  function Keep<T(==,!new)>(s: seq<T>, kept: set<T>): (r: seq<T>)
    ensures forall x :: x in r <==> x in s && x in kept
  {
    if s == [] then [] else (if s[0] in kept then [s[0]] else []) + Keep(s[1..], kept)
  }

  lemma {:induction false} KeepNoDup<T(!new)>(s: seq<T>, kept: set<T>)
    requires NoDup(s)
    ensures NoDup(Keep(s, kept))
  {
    if s != [] {
      KeepNoDup(s[1..], kept);
      assert forall i :: 0 <= i < |Keep(s[1..], kept)| ==> Keep(s[1..], kept)[i] in s[1..];
    }
  }

  lemma {:induction false} KeepAppend<T(!new)>(s: seq<T>, t: seq<T>, kept: set<T>)
    ensures Keep(s + t, kept) == Keep(s, kept) + Keep(t, kept)
  {
    if s == [] {
      assert s + t == t;
    } else {
      assert (s + t)[1..] == s[1..] + t;
      KeepAppend(s[1..], t, kept);
    }
  }

  lemma {:induction false} KeepAgree<T(!new)>(s: seq<T>, a: set<T>, b: set<T>)
    requires forall x :: x in s ==> (x in a <==> x in b)
    ensures Keep(s, a) == Keep(s, b)
  {
    if s != [] {
      assert forall x :: x in s[1..] ==> x in s;
      KeepAgree(s[1..], a, b);
    }
  }

  lemma {:induction false} KeepKeep<T(!new)>(s: seq<T>, a: set<T>, b: set<T>)
    ensures Keep(Keep(s, a), b) == Keep(s, a * b)
  {
    if s != [] {
      KeepKeep(s[1..], a, b);
      if s[0] in a {
        assert Keep(s, a)[1..] == Keep(s[1..], a);
      } else {
        assert Keep(s, a) == Keep(s[1..], a);
      }
    }
  }

  /** `s` without the elements of `gone`. */
  function Drop<T(==,!new)>(s: seq<T>, gone: set<T>): (r: seq<T>)
    ensures forall x :: x in r <==> x in s && x !in gone
  {
    Keep(s, (set x | x in s) - gone)
  }

  lemma {:induction false} KeepAll<T(!new)>(s: seq<T>, kept: set<T>)
    requires forall x :: x in s ==> x in kept
    ensures Keep(s, kept) == s
  {
    if s != [] {
      assert forall x :: x in s[1..] ==> x in s;
      KeepAll(s[1..], kept);
      assert s == [s[0]] + s[1..];
    }
  }

  lemma DropDrop<T(!new)>(s: seq<T>, a: set<T>, b: set<T>)
    ensures Drop(Drop(s, a), b) == Drop(s, a + b)
  {
    var all := set x | x in s;
    var rest := Drop(s, a);
    KeepAgree(rest, (set x | x in rest) - b, all - b);
    KeepKeep(s, all - a, all - b);
    KeepAgree(s, (all - a) * (all - b), all - (a + b));
  }

  lemma ConcatAssociative<T>(a: seq<T>, b: seq<T>, c: seq<T>)
    ensures (a + b) + c == a + (b + c)
  {
  }

  /** `x` occurs in `q` at index `p` or earlier. */
  ghost predicate Within<T(!new)>(q: seq<T>, x: T, p: nat) {
    exists i :: 0 <= i <= p && i < |q| && q[i] == x
  }

  lemma {:induction false} KeepWithin<T(!new)>(q: seq<T>, kept: set<T>, x: T, p: nat)
    requires Within(q, x, p) && x in kept
    ensures Within(Keep(q, kept), x, p)
  {
    var i :| 0 <= i <= p && i < |q| && q[i] == x;
    if i == 0 {
      assert Keep(q, kept)[0] == x;
    } else {
      assert q[1..][i - 1] == x;
      KeepWithin(q[1..], kept, x, p - 1);
      var j :| 0 <= j <= p - 1 && j < |Keep(q[1..], kept)| && Keep(q[1..], kept)[j] == x;
      var k := if q[0] in kept then j + 1 else j;
      assert Keep(q, kept)[k] == x;
    }
  }

  lemma WithinAppend<T(!new)>(q: seq<T>, t: seq<T>, x: T, p: nat)
    requires Within(q, x, p)
    ensures Within(q + t, x, p)
  {
    var i :| 0 <= i <= p && i < |q| && q[i] == x;
    assert (q + t)[i] == x;
  }

  /** A duplicate-free list is exactly as long as the set it lists. */
  lemma {:induction false} ListedLength<T(!new)>(order: seq<T>, keys: set<T>)
    requires Lists(order, keys)
    ensures |order| == |keys|
  {
    if order == [] {
      assert keys == {};
    } else {
      var rest := order[1..];
      assert forall x :: x in order <==> x == order[0] || x in rest;
      assert order[0] !in rest;
      ListedLength(rest, keys - {order[0]});
      assert keys == (keys - {order[0]}) + {order[0]};
    }
  }

  lemma SubsetSize<T(!new)>(a: set<T>, b: set<T>)
    requires a <= b
    ensures |a| <= |b|
  {
    assert b == a + (b - a);
  }

  /** Some order in which a hash container may be iterated. */
  method Iterate<T(==,!new)>(keys: set<T>) returns (order: seq<T>)
    ensures Lists(order, keys)
  {
    order := [];
    var left := keys;
    while left != {}
      invariant left <= keys
      invariant NoDup(order)
      invariant forall x :: x in order <==> x in keys && x !in left
    {
      var x :| x in left;
      left := left - {x};
      order := order + [x];
    }
  }

  /** Strings compare by code point, first difference decides. */
  predicate StringLeq(a: string, b: string) {
    a == [] || (b != [] && (a[0] < b[0] || (a[0] == b[0] && StringLeq(a[1..], b[1..]))))
  }

  lemma {:induction false} StringLeqTotal(a: string, b: string)
    ensures StringLeq(a, b) || StringLeq(b, a)
    ensures StringLeq(a, b) && StringLeq(b, a) ==> a == b
  {
    if a != [] && b != [] && a[0] == b[0] {
      StringLeqTotal(a[1..], b[1..]);
      assert a == [a[0]] + a[1..] && b == [b[0]] + b[1..];
    }
  }

  lemma {:induction false} StringLeqTransitive(a: string, b: string, c: string)
    requires StringLeq(a, b) && StringLeq(b, c)
    ensures StringLeq(a, c)
  {
    if a != [] && b != [] && c != [] && a[0] == b[0] == c[0] {
      StringLeqTransitive(a[1..], b[1..], c[1..]);
    }
  }
}
