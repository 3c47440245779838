/** Ordering a conversation for display (src/application/desktop.rs): a depth-first walk from
    the root over replies, then whatever the root does not reach. */
module ThreadOrder {
  import opened Basics
  import opened Sorting

  datatype DbStatus = DbStatus(id: string, createdAt: string, inReplyToId: Option<string>, content: string)

  type Statuses = map<string, DbStatus>

  /** The map is keyed by the statuses' own ids. */
  ghost predicate Keyed(statuses: Statuses) {
    forall id :: id in statuses ==> statuses[id].id == id
  }

  // ---- display order of siblings ------------------------------------------------------------

  predicate EarlierLeq(a: DbStatus, b: DbStatus) {
    if a.createdAt != b.createdAt then StringLeq(a.createdAt, b.createdAt) else StringLeq(a.id, b.id)
  }

  lemma EarlierIsOrder()
    ensures TotalPreorder(EarlierLeq)
  {
    forall x: DbStatus, y: DbStatus ensures EarlierLeq(x, y) || EarlierLeq(y, x) {
      StringLeqTotal(x.createdAt, y.createdAt);
      StringLeqTotal(x.id, y.id);
    }
    forall x: DbStatus, y: DbStatus, z: DbStatus | EarlierLeq(x, y) && EarlierLeq(y, z)
      ensures EarlierLeq(x, z)
    {
      if x.createdAt == y.createdAt == z.createdAt {
        StringLeqTransitive(x.id, y.id, z.id);
      } else if x.createdAt != y.createdAt && y.createdAt != z.createdAt {
        StringLeqTransitive(x.createdAt, y.createdAt, z.createdAt);
        StringLeqTotal(x.createdAt, y.createdAt);
      }
    }
  }

  // ---- the reply graph -------------------------------------------------------------------------

  /** `children` maps a status to the ids of its replies in display order. */
  datatype Graph = Graph(statuses: Statuses, children: map<string, seq<string>>)

  /** The present status that `id` replies to. */
  function Parent(statuses: Statuses, id: string): Option<string> {
    if id in statuses && statuses[id].inReplyToId.Some? && statuses[id].inReplyToId.value in statuses
    then statuses[id].inReplyToId else None
  }

  function Replies(g: Graph, id: string): seq<string> {
    if id in g.children then g.children[id] else []
  }

  ghost predicate InDisplayOrder(statuses: Statuses, ids: seq<string>) {
    && NoDup(ids)
    && (forall i :: 0 <= i < |ids| ==> ids[i] in statuses)
    && (forall i, j :: 0 <= i < j < |ids| ==> EarlierLeq(statuses[ids[i]], statuses[ids[j]]))
  }

  ghost predicate WellFormed(g: Graph) {
    && Keyed(g.statuses)
    && (forall p :: InDisplayOrder(g.statuses, Replies(g, p)))
    && (forall p, c :: c in Replies(g, p) <==> Parent(g.statuses, c) == Some(p))
  }

  // ---- the walk --------------------------------------------------------------------------------

  datatype Trail = Trail(visited: set<string>, ids: seq<string>)

  function Visit(g: Graph, id: string, visited: set<string>): (t: Trail)
    ensures visited <= t.visited
    decreases g.statuses.Keys - visited, 0
  {
    if id in visited then Trail(visited, [])
    else if id !in g.statuses then Trail(visited + {id}, [])
    else
      var below := VisitAll(g, Replies(g, id), visited + {id});
      Trail(below.visited, [id] + below.ids)
  }

  function VisitAll(g: Graph, ids: seq<string>, visited: set<string>): (t: Trail)
    ensures visited <= t.visited
    decreases g.statuses.Keys - visited, |ids| + 1
  {
    if ids == [] then Trail(visited, [])
    else
      var first := Visit(g, ids[0], visited);
      var rest := VisitAll(g, ids[1..], first.visited);
      Trail(rest.visited, first.ids + rest.ids)
  }

  /** Root first, then the ids the walk has not visited, in the order of `remaining`. */
  function OrderFrom(g: Graph, root: string, remaining: seq<string>): seq<string> {
    var first := Visit(g, root, {});
    first.ids + VisitAll(g, remaining, first.visited).ids
  }

  ghost predicate IsRemaining(g: Graph, root: string, remaining: seq<string>) {
    && InDisplayOrder(g.statuses, remaining)
    && forall id :: id in remaining <==> id in g.statuses && id !in Visit(g, root, {}).visited
  }

  // ---- what one walk visits ------------------------------------------------------------------------

  /** The walk lists, once each, the present ids it newly visits. */
  ghost predicate ListsNew(g: Graph, visited: set<string>, t: Trail) {
    && visited <= t.visited && NoDup(t.ids)
    && forall id :: id in t.ids <==> id in g.statuses && id in t.visited && id !in visited
  }

  lemma JoinedListsNew(g: Graph, visited: set<string>, first: Trail, rest: Trail)
    requires ListsNew(g, visited, first) && ListsNew(g, first.visited, rest)
    ensures ListsNew(g, visited, Trail(rest.visited, first.ids + rest.ids))
  {
    var ids := first.ids + rest.ids;
    forall i, j | 0 <= i < j < |ids| ensures ids[i] != ids[j] {
      if i < |first.ids| <= j {
        assert ids[i] in first.ids && ids[j] in rest.ids;
      }
    }
  }

  lemma HeadListsNew(g: Graph, id: string, visited: set<string>, below: Trail)
    requires id in g.statuses && id !in visited && ListsNew(g, visited + {id}, below)
    ensures ListsNew(g, visited, Trail(below.visited, [id] + below.ids))
  {
    assert ListsNew(g, visited, Trail(visited + {id}, [id]));
    JoinedListsNew(g, visited, Trail(visited + {id}, [id]), below);
  }

  lemma {:induction false} VisitListsNew(g: Graph, id: string, visited: set<string>)
    ensures ListsNew(g, visited, Visit(g, id, visited))
    decreases g.statuses.Keys - visited, 0
  {
    if id !in visited && id in g.statuses {
      VisitAllListsNew(g, Replies(g, id), visited + {id});
      HeadListsNew(g, id, visited, VisitAll(g, Replies(g, id), visited + {id}));
    }
  }

  lemma {:induction false} VisitAllListsNew(g: Graph, ids: seq<string>, visited: set<string>)
    ensures ListsNew(g, visited, VisitAll(g, ids, visited))
    decreases g.statuses.Keys - visited, |ids| + 1
  {
    if ids != [] {
      var first := Visit(g, ids[0], visited);
      VisitListsNew(g, ids[0], visited);
      VisitAllListsNew(g, ids[1..], first.visited);
      JoinedListsNew(g, visited, first, VisitAll(g, ids[1..], first.visited));
    }
  }

  /** Every id of `ids` is visited. */
  lemma {:induction false} VisitsGiven(g: Graph, ids: seq<string>, visited: set<string>)
    ensures forall id :: id in ids ==> id in VisitAll(g, ids, visited).visited
    decreases |ids|
  {
    if ids != [] {
      var first := Visit(g, ids[0], visited);
      assert ids[0] in first.visited;
      VisitsGiven(g, ids[1..], first.visited);
      assert ids == [ids[0]] + ids[1..];
    }
  }

  /** All replies to a listed status are visited. */
  lemma {:induction false} VisitIsClosed(g: Graph, id: string, visited: set<string>)
    ensures forall x, c :: x in Visit(g, id, visited).ids && c in Replies(g, x)
              ==> c in Visit(g, id, visited).visited
    decreases g.statuses.Keys - visited, 0
  {
    if id !in visited && id in g.statuses {
      VisitAllIsClosed(g, Replies(g, id), visited + {id});
      VisitsGiven(g, Replies(g, id), visited + {id});
    }
  }

  lemma {:induction false} VisitAllIsClosed(g: Graph, ids: seq<string>, visited: set<string>)
    ensures forall x, c :: x in VisitAll(g, ids, visited).ids && c in Replies(g, x)
              ==> c in VisitAll(g, ids, visited).visited
    decreases g.statuses.Keys - visited, |ids| + 1
  {
    if ids != [] {
      var first := Visit(g, ids[0], visited);
      VisitIsClosed(g, ids[0], visited);
      VisitAllIsClosed(g, ids[1..], first.visited);
    }
  }

  // ---- parents come first ------------------------------------------------------------------------------

  /** `x` has its parent among `ids`. */
  ghost predicate ParentAmong(g: Graph, x: string, ids: seq<string>) {
    Parent(g.statuses, x).Some? && Parent(g.statuses, x).value in ids
  }

  /** Every listed id is one of `starts` or follows its parent. */
  ghost predicate FollowsParent(g: Graph, starts: seq<string>, ids: seq<string>) {
    forall j :: 0 <= j < |ids| ==> ids[j] in starts || ParentAmong(g, ids[j], ids[..j])
  }

  lemma JoinedFollows(g: Graph, starts: seq<string>, a: seq<string>, b: seq<string>)
    requires FollowsParent(g, starts, a) && FollowsParent(g, starts, b)
    ensures FollowsParent(g, starts, a + b)
  {
    var ids := a + b;
    forall j | 0 <= j < |ids| ensures ids[j] in starts || ParentAmong(g, ids[j], ids[..j]) {
      if j < |a| {
        assert ids[..j] == a[..j];
      } else {
        assert ids[..j] == a + b[..j - |a|];
      }
    }
  }

  lemma WiderStarts(g: Graph, few: seq<string>, many: seq<string>, ids: seq<string>)
    requires FollowsParent(g, few, ids) && forall x :: x in few ==> x in many
    ensures FollowsParent(g, many, ids)
  {
  }

  lemma HeadFollows(g: Graph, id: string, below: seq<string>)
    requires WellFormed(g) && FollowsParent(g, Replies(g, id), below)
    ensures FollowsParent(g, [id], [id] + below)
  {
    var ids := [id] + below;
    forall j | 0 <= j < |ids| ensures ids[j] in [id] || ParentAmong(g, ids[j], ids[..j]) {
      if j > 0 {
        assert ids[..j] == [id] + below[..j - 1];
        assert below[j - 1] in Replies(g, id) ==> Parent(g.statuses, below[j - 1]) == Some(id);
      }
    }
  }

  lemma {:induction false} VisitFollows(g: Graph, id: string, visited: set<string>)
    requires WellFormed(g)
    ensures FollowsParent(g, [id], Visit(g, id, visited).ids)
    decreases g.statuses.Keys - visited, 0
  {
    if id !in visited && id in g.statuses {
      VisitAllFollows(g, Replies(g, id), visited + {id});
      HeadFollows(g, id, VisitAll(g, Replies(g, id), visited + {id}).ids);
    }
  }

  lemma {:induction false} VisitAllFollows(g: Graph, ids: seq<string>, visited: set<string>)
    requires WellFormed(g)
    ensures FollowsParent(g, ids, VisitAll(g, ids, visited).ids)
    decreases g.statuses.Keys - visited, |ids| + 1
  {
    hide WellFormed, FollowsParent;
    if ids == [] {
      EmptyFollows(g, ids);
    } else {
      var first := Visit(g, ids[0], visited);
      VisitFollows(g, ids[0], visited);
      VisitAllFollows(g, ids[1..], first.visited);
      WiderStarts(g, [ids[0]], ids, first.ids);
      WiderStarts(g, ids[1..], ids, VisitAll(g, ids[1..], first.visited).ids);
      JoinedFollows(g, ids, first.ids, VisitAll(g, ids[1..], first.visited).ids);
    }
  }

  lemma EmptyFollows(g: Graph, starts: seq<string>)
    ensures FollowsParent(g, starts, [])
  {
  }

  // ---- siblings keep display order ---------------------------------------------------------------------

  ghost predicate Siblings(g: Graph, x: string, y: string) {
    Parent(g.statuses, x).Some? && Parent(g.statuses, x) == Parent(g.statuses, y)
  }

  ghost predicate SiblingsOrdered(g: Graph, ids: seq<string>) {
    forall i, j :: 0 <= i < j < |ids| && Siblings(g, ids[i], ids[j]) ==>
      (ids[i] in g.statuses && ids[j] in g.statuses && EarlierLeq(g.statuses[ids[i]], g.statuses[ids[j]]))
  }

  /** Replies to `p` from `ids`, walked with `p` already visited. */
  lemma {:induction false} RepliesOrdered(g: Graph, p: string, ids: seq<string>, visited: set<string>)
    requires WellFormed(g) && p in visited
    requires InDisplayOrder(g.statuses, ids)
    requires forall c :: c in ids ==> Parent(g.statuses, c) == Some(p)
    ensures SiblingsOrdered(g, VisitAll(g, ids, visited).ids)
    decreases g.statuses.Keys - visited, |ids| + 1
  {
    hide WellFormed, SiblingsOrdered, InDisplayOrder, FollowsParent, ListsNew;
    if ids == [] {
      NoneOrdered(g);
    } else {
      var first := Visit(g, ids[0], visited);
      var rest := VisitAll(g, ids[1..], first.visited);
      TailInOrder(g.statuses, ids);
      SubtreeOrdered(g, ids[0], p, visited);
      RepliesOrdered(g, p, ids[1..], first.visited);
      VisitListsNew(g, ids[0], visited);
      VisitAllListsNew(g, ids[1..], first.visited);
      VisitFollows(g, ids[0], visited);
      VisitAllFollows(g, ids[1..], first.visited);
      JoinedOrdered(g, p, ids, visited, first, rest);
    }
  }

  lemma NoneOrdered(g: Graph)
    ensures SiblingsOrdered(g, [])
  {
  }

  lemma TailInOrder(statuses: Statuses, ids: seq<string>)
    requires InDisplayOrder(statuses, ids) && ids != []
    ensures InDisplayOrder(statuses, ids[1..])
  {
  }

  /** The subtree of a reply to `p`, walked with `p` already visited. */
  lemma {:induction false} SubtreeOrdered(g: Graph, id: string, p: string, visited: set<string>)
    requires WellFormed(g) && p in visited && Parent(g.statuses, id) == Some(p)
    ensures SiblingsOrdered(g, Visit(g, id, visited).ids)
    decreases g.statuses.Keys - visited, 0
  {
    hide WellFormed, SiblingsOrdered, FollowsParent, ListsNew;
    if id in visited {
      NoneOrdered(g);
    } else {
      var below := VisitAll(g, Replies(g, id), visited + {id});
      RepliesFacts(g, id);
      RepliesOrdered(g, id, Replies(g, id), visited + {id});
      VisitAllListsNew(g, Replies(g, id), visited + {id});
      VisitAllFollows(g, Replies(g, id), visited + {id});
      HeadOrdered(g, id, p, visited, below);
    }
  }

  lemma RepliesFacts(g: Graph, id: string)
    requires WellFormed(g)
    ensures InDisplayOrder(g.statuses, Replies(g, id))
    ensures forall c :: c in Replies(g, id) ==> Parent(g.statuses, c) == Some(id)
  {
  }

  lemma HeadOrdered(g: Graph, id: string, p: string, visited: set<string>, below: Trail)
    requires p in visited && id !in visited && Parent(g.statuses, id) == Some(p)
    requires ListsNew(g, visited + {id}, below) && SiblingsOrdered(g, below.ids)
    requires FollowsParent(g, Replies(g, id), below.ids)
    requires forall c :: c in Replies(g, id) ==> Parent(g.statuses, c) == Some(id)
    ensures SiblingsOrdered(g, [id] + below.ids)
  {
    forall j | 0 <= j < |below.ids| ensures !Siblings(g, id, below.ids[j]) {
      NoSiblingBelow(g, id, p, visited, below, j);
    }
    hide Siblings, FollowsParent, ListsNew;
    PrependOrdered(g, id, below.ids);
  }

  /** `p` was visited before, so nothing below has `p` as its parent. */
  lemma NoSiblingBelow(g: Graph, id: string, p: string, visited: set<string>, below: Trail, j: nat)
    requires p in visited && id !in visited && Parent(g.statuses, id) == Some(p)
    requires ListsNew(g, visited + {id}, below)
    requires FollowsParent(g, Replies(g, id), below.ids)
    requires forall c :: c in Replies(g, id) ==> Parent(g.statuses, c) == Some(id)
    requires j < |below.ids|
    ensures !Siblings(g, id, below.ids[j])
  {
    var x := below.ids[j];
    assert p !in below.ids;
    hide Parent, ListsNew, Replies;
    assert x in Replies(g, id) || ParentAmong(g, x, below.ids[..j]);
  }

  lemma PrependOrdered(g: Graph, id: string, ids: seq<string>)
    requires SiblingsOrdered(g, ids)
    requires forall j :: 0 <= j < |ids| ==> !Siblings(g, id, ids[j])
    ensures SiblingsOrdered(g, [id] + ids)
  {
    hide Siblings, EarlierLeq;
    var all := [id] + ids;
    assert forall j :: 0 < j < |all| ==> all[j] == ids[j - 1];
  }

  lemma JoinedOrdered(g: Graph, p: string, ids: seq<string>, visited: set<string>, first: Trail, rest: Trail)
    requires ids != [] && p in visited && InDisplayOrder(g.statuses, ids)
    requires forall c :: c in ids ==> Parent(g.statuses, c) == Some(p)
    requires ListsNew(g, visited, first) && ListsNew(g, first.visited, rest)
    requires FollowsParent(g, [ids[0]], first.ids) && FollowsParent(g, ids[1..], rest.ids)
    requires SiblingsOrdered(g, first.ids) && SiblingsOrdered(g, rest.ids)
    ensures SiblingsOrdered(g, first.ids + rest.ids)
  {
    var all, n := first.ids + rest.ids, |first.ids|;
    assert p !in first.ids && p !in rest.ids;
    forall i, j | 0 <= i < n <= j < |all| && Siblings(g, all[i], all[j])
      ensures all[i] in g.statuses && all[j] in g.statuses
              && EarlierLeq(g.statuses[all[i]], g.statuses[all[j]])
    {
      var x, y := first.ids[i], rest.ids[j - n];
      assert x in [ids[0]] || ParentAmong(g, x, first.ids[..i]);
      assert y in ids[1..] || ParentAmong(g, y, rest.ids[..j - n]);
      if x == ids[0] {
        var k :| 0 <= k < |ids[1..]| && ids[1..][k] == y;
        assert ids[k + 1] == y;
      } else {
        assert false;
      }
    }
  }

  // ---- reachability ----------------------------------------------------------------------------------------

  /** Following reply links upward from `x` meets `root` after `n` steps. */
  ghost predicate ReachedIn(statuses: Statuses, root: string, x: string, n: nat)
    decreases n
  {
    x in statuses &&
    if n == 0 then x == root
    else Parent(statuses, x).Some? && ReachedIn(statuses, root, Parent(statuses, x).value, n - 1)
  }

  ghost predicate Reached(statuses: Statuses, root: string, x: string) {
    exists n: nat :: ReachedIn(statuses, root, x, n)
  }

  lemma {:induction false} ReachedIsListed(g: Graph, root: string, x: string, n: nat)
    requires WellFormed(g) && ReachedIn(g.statuses, root, x, n)
    ensures x in Visit(g, root, {}).ids
    decreases n
  {
    if n > 0 {
      var p := Parent(g.statuses, x).value;
      ReachedIsListed(g, root, p, n - 1);
      assert x in Replies(g, p);
      VisitIsClosed(g, root, {});
      VisitListsNew(g, root, {});
    }
  }

  lemma {:induction false} ListedIsReached(g: Graph, root: string, j: nat)
    requires WellFormed(g) && root in g.statuses && j < |Visit(g, root, {}).ids|
    ensures Reached(g.statuses, root, Visit(g, root, {}).ids[j])
    decreases j
  {
    var ids := Visit(g, root, {}).ids;
    var x := ids[j];
    VisitListsNew(g, root, {});
    assert x in ids;
    if x == root {
      assert ReachedIn(g.statuses, root, x, 0);
    } else {
      VisitFollows(g, root, {});
      assert ParentAmong(g, x, ids[..j]);
      var p := Parent(g.statuses, x).value;
      var k :| 0 <= k < j && ids[k] == p;
      ListedIsReached(g, root, k);
      var n: nat :| ReachedIn(g.statuses, root, p, n);
      assert ReachedIn(g.statuses, root, x, n + 1);
    }
  }

  // ---- the whole order ----------------------------------------------------------------------------------------

  /** The order is a duplicate-free permutation of the status map, cycles included. */
  lemma OrderIsPermutation(g: Graph, root: string, remaining: seq<string>)
    requires WellFormed(g) && IsRemaining(g, root, remaining)
    ensures Lists(OrderFrom(g, root, remaining), g.statuses.Keys)
  {
    var first := Visit(g, root, {});
    var rest := VisitAll(g, remaining, first.visited);
    VisitListsNew(g, root, {});
    VisitAllListsNew(g, remaining, first.visited);
    VisitsGiven(g, remaining, first.visited);
    JoinedListsNew(g, {}, first, rest);
  }

  /** The ids the root reaches are exactly the first part of the order. */
  lemma ReachedComeFirst(g: Graph, root: string, remaining: seq<string>, i: nat)
    requires WellFormed(g) && root in g.statuses && IsRemaining(g, root, remaining)
    requires i < |OrderFrom(g, root, remaining)|
    ensures i < |Visit(g, root, {}).ids|
       <==> Reached(g.statuses, root, OrderFrom(g, root, remaining)[i])
  {
    var first := Visit(g, root, {});
    var order := OrderFrom(g, root, remaining);
    if i < |first.ids| {
      ListedIsReached(g, root, i);
    } else {
      OrderIsPermutation(g, root, remaining);
      forall k | 0 <= k < |first.ids| ensures first.ids[k] != order[i] {
        assert order[k] == first.ids[k];
      }
      if Reached(g.statuses, root, order[i]) {
        var n: nat :| ReachedIn(g.statuses, root, order[i], n);
        ReachedIsListed(g, root, order[i], n);
      }
    }
  }

  lemma RootedWalk(g: Graph, root: string)
    requires root in g.statuses
    ensures Visit(g, root, {}).ids == [root] + VisitAll(g, Replies(g, root), {root}).ids
  {
    assert {} + {root} == {root};
  }

  /** A present root is first, and every other status the root reaches comes after the status it
      replies to. */
  lemma ParentsPrecedeReplies(g: Graph, root: string, remaining: seq<string>)
    requires WellFormed(g) && root in g.statuses && IsRemaining(g, root, remaining)
    ensures var order := OrderFrom(g, root, remaining);
            && |order| > 0 && order[0] == root
            && (forall i :: 0 < i < |order| && Reached(g.statuses, root, order[i]) ==>
                  ParentAmong(g, order[i], order[..i]))
  {
    var first := Visit(g, root, {}).ids;
    var order := OrderFrom(g, root, remaining);
    RootedWalk(g, root);
    VisitFollows(g, root, {});
    VisitListsNew(g, root, {});
    assert first <= order && order[0] == first[0] == root;
    assert NoDup(first) && FollowsParent(g, [root], first);
    forall i | 0 < i < |order| && Reached(g.statuses, root, order[i]) ensures i < |first| {
      ReachedComeFirst(g, root, remaining, i);
    }
    hide Visit, VisitAll, WellFormed, OrderFrom, Reached, ParentAmong, IsRemaining, NoDup, FollowsParent;
    StartFollows(g, root, first, order);
  }

  lemma StartFollows(g: Graph, root: string, first: seq<string>, order: seq<string>)
    requires first <= order && first != [] && first[0] == root
    requires NoDup(first) && FollowsParent(g, [root], first)
    ensures forall i :: 0 < i < |first| ==> ParentAmong(g, order[i], order[..i])
  {
    hide ParentAmong;
    forall i | 0 < i < |first| ensures ParentAmong(g, order[i], order[..i]) {
      assert first[i] != first[0];
      assert order[..i] == first[..i];
    }
  }

  /** Every status the root reaches comes before every status it does not reach. */
  lemma ThreadPrecedesTheRest(g: Graph, root: string, remaining: seq<string>, i: nat, j: nat)
    requires WellFormed(g) && root in g.statuses && IsRemaining(g, root, remaining)
    requires i < |OrderFrom(g, root, remaining)| && j < |OrderFrom(g, root, remaining)|
    requires Reached(g.statuses, root, OrderFrom(g, root, remaining)[i])
    requires !Reached(g.statuses, root, OrderFrom(g, root, remaining)[j])
    ensures i < j
  {
    ReachedComeFirst(g, root, remaining, i);
    ReachedComeFirst(g, root, remaining, j);
  }

  /** Replies to one status the root reaches appear in order of creation time and then id. (The
      root itself, if a cycle makes it a reply, keeps its place in front.) */
  lemma RepliesInDisplayOrder(g: Graph, root: string, remaining: seq<string>, i: nat, j: nat)
    requires WellFormed(g) && root in g.statuses && IsRemaining(g, root, remaining)
    requires 0 < i < j < |OrderFrom(g, root, remaining)|
    requires Reached(g.statuses, root, OrderFrom(g, root, remaining)[j])
    requires Siblings(g, OrderFrom(g, root, remaining)[i], OrderFrom(g, root, remaining)[j])
    ensures var order := OrderFrom(g, root, remaining);
            && order[i] in g.statuses && order[j] in g.statuses
            && EarlierLeq(g.statuses[order[i]], g.statuses[order[j]])
  {
    var below := VisitAll(g, Replies(g, root), {root}).ids;
    var order := OrderFrom(g, root, remaining);
    RootedWalk(g, root);
    assert Visit(g, root, {}).ids <= order;
    ReachedComeFirst(g, root, remaining, j);
    RepliesFacts(g, root);
    RepliesOrdered(g, root, Replies(g, root), {root});
    hide *;
    OrderedAfterRoot(g, root, below, order, i, j);
  }

  lemma OrderedAfterRoot(g: Graph, root: string, below: seq<string>, order: seq<string>, i: nat, j: nat)
    requires [root] + below <= order && 0 < i < j <= |below|
    requires SiblingsOrdered(g, below) && Siblings(g, order[i], order[j])
    ensures order[i] in g.statuses && order[j] in g.statuses
    ensures EarlierLeq(g.statuses[order[i]], g.statuses[order[j]])
  {
    hide Siblings, EarlierLeq;
    assert order[i] == below[i - 1] && order[j] == below[j - 1];
  }

  // ---- the order does not depend on hash iteration ----------------------------------------------------------

  lemma {:induction false} DisplayOrderUnique(statuses: Statuses, a: seq<string>, b: seq<string>)
    requires Keyed(statuses) && InDisplayOrder(statuses, a) && InDisplayOrder(statuses, b)
    requires forall id :: id in a <==> id in b
    ensures a == b
    decreases a
  {
    assert b != [] ==> b[0] in b;
    if a != [] {
      assert a[0] in b && b[0] in a;
      SameFirst(statuses, a, b);
      TailInOrder(statuses, a);
      TailInOrder(statuses, b);
      assert forall id :: id in a <==> id == a[0] || id in a[1..];
      assert forall id :: id in b <==> id == b[0] || id in b[1..];
      assert a[0] !in a[1..] && b[0] !in b[1..];
      DisplayOrderUnique(statuses, a[1..], b[1..]);
      assert a == [a[0]] + a[1..] && b == [b[0]] + b[1..];
    }
  }

  lemma SameFirst(statuses: Statuses, a: seq<string>, b: seq<string>)
    requires Keyed(statuses) && InDisplayOrder(statuses, a) && InDisplayOrder(statuses, b)
    requires a != [] && b != [] && a[0] in b && b[0] in a
    ensures a[0] == b[0]
  {
    var x, y := statuses[a[0]], statuses[b[0]];
    if a[0] != b[0] {
      assert EarlierLeq(x, y) && EarlierLeq(y, x);
      StringLeqTotal(x.createdAt, y.createdAt);
      StringLeqTotal(x.id, y.id);
    }
  }

  lemma {:induction false} SameVisit(g: Graph, h: Graph, id: string, visited: set<string>)
    requires g.statuses == h.statuses && forall p :: Replies(g, p) == Replies(h, p)
    ensures Visit(g, id, visited) == Visit(h, id, visited)
    decreases g.statuses.Keys - visited, 0
  {
    if id !in visited && id in g.statuses {
      SameVisitAll(g, h, Replies(g, id), visited + {id});
    }
  }

  lemma {:induction false} SameVisitAll(g: Graph, h: Graph, ids: seq<string>, visited: set<string>)
    requires g.statuses == h.statuses && forall p :: Replies(g, p) == Replies(h, p)
    ensures VisitAll(g, ids, visited) == VisitAll(h, ids, visited)
    decreases g.statuses.Keys - visited, |ids| + 1
  {
    if ids != [] {
      SameVisit(g, h, ids[0], visited);
      SameVisitAll(g, h, ids[1..], Visit(g, ids[0], visited).visited);
    }
  }

  /** Status map and root alone determine the order. */
  lemma OrderIsDetermined(g: Graph, h: Graph, root: string, remainingG: seq<string>, remainingH: seq<string>)
    requires g.statuses == h.statuses && WellFormed(g) && WellFormed(h)
    requires IsRemaining(g, root, remainingG) && IsRemaining(h, root, remainingH)
    ensures OrderFrom(g, root, remainingG) == OrderFrom(h, root, remainingH)
  {
    forall p ensures Replies(g, p) == Replies(h, p) {
      assert forall c :: c in Replies(g, p) <==> c in Replies(h, p) by {
        assert forall c :: c in Replies(g, p) <==> Parent(g.statuses, c) == Some(p);
      }
      DisplayOrderUnique(g.statuses, Replies(g, p), Replies(h, p));
    }
    SameVisit(g, h, root, {});
    DisplayOrderUnique(g.statuses, remainingG, remainingH);
    SameVisitAll(g, h, remainingG, Visit(g, root, {}).visited);
  }

  // ---- the imperative walk ---------------------------------------------------------------------------------

  function RowsOf(statuses: Statuses, ids: seq<string>): (rows: seq<DbStatus>)
    requires forall i :: 0 <= i < |ids| ==> ids[i] in statuses
    ensures |rows| == |ids| && forall i :: 0 <= i < |ids| ==> rows[i] == statuses[ids[i]]
  {
    seq(|ids|, i requires 0 <= i < |ids| => statuses[ids[i]])
  }

  function IdsOf(rows: seq<DbStatus>): (ids: seq<string>)
    ensures |ids| == |rows| && forall i :: 0 <= i < |ids| ==> ids[i] == rows[i].id
  {
    seq(|rows|, i requires 0 <= i < |rows| => rows[i].id)
  }

  method SortIds(statuses: Statuses, ids: seq<string>) returns (sorted: seq<string>)
    requires Keyed(statuses) && NoDup(ids) && forall i :: 0 <= i < |ids| ==> ids[i] in statuses
    ensures InDisplayOrder(statuses, sorted)
    ensures forall id :: id in sorted <==> id in ids
  {
    var rows := RowsOf(statuses, ids);
    var sortedRows := SortBy(EarlierLeq, rows);
    sorted := IdsOf(sortedRows);
    EarlierIsOrder();
    SortBySorts(EarlierLeq, rows);
    SortByMembers(EarlierLeq, rows);
    SortByDistinct(EarlierLeq, rows);
    hide EarlierLeq, SortBy, TotalPreorder;
    SortedIds(statuses, ids, rows, sortedRows);
  }

  lemma SortedIds(statuses: Statuses, ids: seq<string>, rows: seq<DbStatus>, sortedRows: seq<DbStatus>)
    requires Keyed(statuses) && |rows| == |ids|
    requires forall i :: 0 <= i < |ids| ==> ids[i] in statuses && rows[i] == statuses[ids[i]]
    requires Sorted(EarlierLeq, sortedRows) && NoDup(sortedRows)
    requires forall row :: row in sortedRows <==> row in rows
    ensures InDisplayOrder(statuses, IdsOf(sortedRows))
    ensures forall id :: id in IdsOf(sortedRows) <==> id in ids
  {
    hide EarlierLeq;
    var sorted := IdsOf(sortedRows);
    forall i | 0 <= i < |sorted|
      ensures sorted[i] in ids && sorted[i] in statuses && statuses[sorted[i]] == sortedRows[i]
    {
      assert sortedRows[i] in rows;
      var k :| 0 <= k < |rows| && rows[k] == sortedRows[i];
      assert ids[k] in ids && statuses[ids[k]].id == ids[k];
    }
    forall id | id in ids ensures id in sorted {
      var k :| 0 <= k < |ids| && ids[k] == id;
      assert rows[k] in sortedRows;
      var i :| 0 <= i < |sortedRows| && sortedRows[i] == rows[k];
      assert sorted[i] == id;
    }
  }

  /** The replies of each status, in display order. */
  method BuildGraph(statuses: Statuses) returns (g: Graph)
    requires Keyed(statuses)
    ensures g.statuses == statuses && WellFormed(g)
  {
    var unsorted := CollectReplies(statuses);
    var parents := Iterate(unsorted.Keys);
    var children: map<string, seq<string>> := map[];
    for n := 0 to |parents|
      invariant forall p :: p in children <==> p in parents[..n]
      invariant forall p :: p in children ==> InDisplayOrder(statuses, children[p])
      invariant forall p, c :: p in children ==> (c in children[p] <==> Parent(statuses, c) == Some(p))
    {
      assert parents[..n + 1] == parents[..n] + [parents[n]];
      assert parents[n] in parents;
      var sorted := SortIds(statuses, unsorted[parents[n]]);
      children := children[parents[n] := sorted];
    }
    assert parents[..|parents|] == parents;
    g := Graph(statuses, children);
    forall p, c ensures c in Replies(g, p) <==> Parent(statuses, c) == Some(p) {
      assert Parent(statuses, c) == Some(p) ==> p in unsorted;
    }
  }

  method CollectReplies(statuses: Statuses) returns (replies: map<string, seq<string>>)
    requires Keyed(statuses)
    ensures forall p :: p in replies ==>
              NoDup(replies[p]) && forall i :: 0 <= i < |replies[p]| ==> replies[p][i] in statuses
    ensures forall p, c :: p in replies ==> (c in replies[p] <==> Parent(statuses, c) == Some(p))
    ensures forall c :: Parent(statuses, c).Some? ==> Parent(statuses, c).value in replies
  {
    replies := map[];
    var order := Iterate(statuses.Keys);
    for n := 0 to |order|
      invariant forall p :: p in replies ==> NoDup(replies[p])
      invariant forall p, c :: p in replies ==>
                  (c in replies[p] <==> c in order[..n] && Parent(statuses, c) == Some(p))
      invariant forall c :: c in order[..n] && Parent(statuses, c).Some? ==> Parent(statuses, c).value in replies
    {
      assert order[..n + 1] == order[..n] + [order[n]];
      assert order[n] !in order[..n];
      var parent := Parent(statuses, order[n]);
      if parent.Some? {
        var before := if parent.value in replies then replies[parent.value] else [];
        assert order[n] !in before;
        replies := replies[parent.value := before + [order[n]]];
      }
    }
    assert order[..|order|] == order;
    forall p, i | p in replies && 0 <= i < |replies[p]| ensures replies[p][i] in statuses {
      assert replies[p][i] in replies[p];
    }
  }

  class ThreadWalk {
    const graph: Graph
    var visited: set<string>
    var ordered: seq<DbStatus>
    ghost var ids: seq<string>

    /** `ordered` holds the statuses of the ids listed so far. */
    ghost predicate Valid()
      reads this
    {
      && (forall i :: 0 <= i < |ids| ==> ids[i] in graph.statuses)
      && ordered == RowsOf(graph.statuses, ids)
    }

    constructor (graph: Graph)
      ensures Valid() && this.graph == graph && visited == {} && ids == []
    {
      this.graph, visited, ordered, ids := graph, {}, [], [];
    }

    method Append(id: string)
      requires Valid()
      modifies this
      ensures Valid()
      ensures visited == Visit(graph, id, old(visited)).visited
      ensures ids == old(ids) + Visit(graph, id, old(visited)).ids
      decreases graph.statuses.Keys - visited, 0
    {
      if id in visited {
        return;
      }
      visited := visited + {id};
      if id !in graph.statuses {
        return;
      }
      ghost var start := ids;
      ordered := ordered + [graph.statuses[id]];
      ids := ids + [id];
      AppendAll(Replies(graph, id));
      ConcatAssociative(start, [id], VisitAll(graph, Replies(graph, id), old(visited) + {id}).ids);
    }

    method AppendAll(starts: seq<string>)
      requires Valid()
      modifies this
      ensures Valid()
      ensures visited == VisitAll(graph, starts, old(visited)).visited
      ensures ids == old(ids) + VisitAll(graph, starts, old(visited)).ids
      decreases graph.statuses.Keys - visited, |starts| + 1
    {
      var n := 0;
      while n < |starts|
        invariant 0 <= n <= |starts| && Valid() && old(visited) <= visited
        invariant visited == VisitAll(graph, starts[..n], old(visited)).visited
        invariant ids == old(ids) + VisitAll(graph, starts[..n], old(visited)).ids
      {
        assert starts[..n + 1] == starts[..n] + [starts[n]];
        VisitAllNext(graph, starts[..n], starts[n], old(visited));
        ConcatAssociative(old(ids), VisitAll(graph, starts[..n], old(visited)).ids,
                          Visit(graph, starts[n], visited).ids);
        Append(starts[n]);
        n := n + 1;
      }
      assert starts[..n] == starts;
    }
  }

  lemma {:induction false} VisitAllNext(g: Graph, ids: seq<string>, last: string, visited: set<string>)
    ensures var before := VisitAll(g, ids, visited);
            var next := Visit(g, last, before.visited);
            VisitAll(g, ids + [last], visited) == Trail(next.visited, before.ids + next.ids)
    decreases |ids|
  {
    if ids == [] {
      assert ids + [last] == [last];
    } else {
      var first := Visit(g, ids[0], visited);
      assert (ids + [last])[1..] == ids[1..] + [last];
      VisitAllNext(g, ids[1..], last, first.visited);
      ConcatAssociative(first.ids, VisitAll(g, ids[1..], first.visited).ids,
                        Visit(g, last, VisitAll(g, ids[1..], first.visited).visited).ids);
    }
  }

  method OrderThreadStatuses(statuses: Statuses, rootId: string)
    returns (ordered: seq<DbStatus>, ghost graph: Graph, ghost remaining: seq<string>)
    requires Keyed(statuses)
    ensures graph.statuses == statuses && WellFormed(graph) && IsRemaining(graph, rootId, remaining)
    ensures IdsOf(ordered) == OrderFrom(graph, rootId, remaining)
    ensures forall i :: 0 <= i < |ordered| ==> ordered[i].id in statuses && ordered[i] == statuses[ordered[i].id]
  {
    var g := BuildGraph(statuses);
    graph := g;
    var walk := new ThreadWalk(g);
    walk.Append(rootId);
    VisitListsNew(g, rootId, {});
    var unseen := Iterate(set id | id in statuses && id !in walk.visited);
    forall i | 0 <= i < |unseen| ensures unseen[i] in statuses {
      assert unseen[i] in unseen;
    }
    var rest := SortIds(statuses, unseen);
    remaining := rest;
    walk.AppendAll(rest);
    ordered := walk.ordered;
    assert walk.ids == OrderFrom(g, rootId, rest);
  }
}
