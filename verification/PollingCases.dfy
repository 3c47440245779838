/** Runs in which polling parts from what one would expect of it. */
module PollingCases {
  import opened Basics
  import opened Text
  import opened Sorting
  import opened Polling
  import opened PollingInvariant
  import opened PollingRestart
  import opened PollingReplay

  // ---- distinct posts ---------------------------------------------------------------------------

  function Id(k: nat): string { "at://" + seq(k, _ => 'a') }

  function Post(k: nat): Status { Status(Id(k), Id(k), "seen") }

  lemma Ids(k: nat)
    ensures |Id(k)| == 5 + k && IsReal(Id(k)) && Clean(Id(k)) && RevisionId(Post(k)) == Some(Id(k))
  {
    assert Id(k)[0] == 'a' && Id(k)[|Id(k)| - 1] in "a/";
    TrimResult(Id(k));
  }

  function PostsBetween(low: nat, high: nat): seq<Status>
    requires low <= high
    decreases high - low
  {
    if low == high then [] else [Post(low)] + PostsBetween(low + 1, high)
  }

  ghost function IdsBetween(low: nat, high: nat): set<string> { set k | low <= k < high :: Id(k) }

  lemma PageIdsFirst(status: Status, rest: seq<Status>)
    requires RevisionId(status).Some?
    ensures PageIds([status] + rest) == {RevisionId(status).value} + PageIds(rest)
  {
    hide RevisionId;
    assert ([status] + rest)[1..] == rest;
  }

  lemma IdsBetweenFirst(low: nat, high: nat)
    requires low < high
    ensures IdsBetween(low, high) == {Id(low)} + IdsBetween(low + 1, high)
  {
    hide Id;
  }

  lemma {:induction false} PageIdsBetween(low: nat, high: nat)
    requires low <= high
    ensures PageIds(PostsBetween(low, high)) == IdsBetween(low, high)
    decreases high - low
  {
    if low == high {
      assert IdsBetween(low, high) == {};
    } else {
      hide Id, Post, RevisionId, IsReal, Clean, PageIds, IdsBetween;
      Ids(low);
      PageIdsBetween(low + 1, high);
      PageIdsFirst(Post(low), PostsBetween(low + 1, high));
      IdsBetweenFirst(low, high);
    }
  }

  lemma {:induction false} CountIds(n: nat)
    ensures |IdsBetween(0, n)| == n
  {
    hide Id;
    if n > 0 {
      CountIds(n - 1);
      assert IdsBetween(0, n) == IdsBetween(0, n - 1) + {Id(n - 1)};
      forall k | 0 <= k < n - 1 ensures Id(k) != Id(n - 1) {
        Ids(k);
        Ids(n - 1);
      }
    }
  }

  // ---- small windows --------------------------------------------------------------------------------

  lemma SinglePage(st: PollState, status: Status, order: seq<string>)
    requires RevisionId(status).Some?
    ensures BeforePrune(st, [status], order).revisions
         == st.revisions[RevisionId(status).value := RevisionEntry(status.revision, st.pollNumber + 1)]
  {
    hide RevisionId, Requeued;
    PageStart(Track(st.revisions, st.pollNumber + 1, status), st.pollNumber + 1);
    assert [status][1..] == [];
  }

  lemma OneMore(revisions: Revisions, id: string, entry: RevisionEntry)
    ensures |revisions[id := entry]| == |revisions| + if id in revisions then 0 else 1
  {
    assert revisions[id := entry].Keys == revisions.Keys + {id};
    if id in revisions {
      assert revisions.Keys + {id} == revisions.Keys;
    }
  }

  /** A poll that leaves the window within its bound. */
  lemma Polled(st: PollState, page: seq<Status>, order: seq<string>)
    requires Lists(order, st.revisions.Keys) && |BeforePrune(st, page, order).revisions| <= MAX_TRACKED_REVISIONS
    ensures Legal(st, Poll(page, order, {})) && Observe(st, page, order, {}) == BeforePrune(st, page, order)
  {
    hide BeforePrune, Evictable, Lists;
    EvictsNothing(BeforePrune(st, page, order).revisions, {});
    ForgetNothing(BeforePrune(st, page, order));
  }

  function Once(id: string, fingerprint: string): Revisions { map[id := RevisionEntry(fingerprint, 1)] }

  lemma FirstPoll(status: Status, id: string)
    requires RevisionId(status) == Some(id)
    ensures Legal(FRESH, Poll([status], [], {}))
    ensures Observe(FRESH, [status], [], {}) == PollState(Once(id, status.revision), [], {}, 1)
  {
    hide *;
    NothingListed();
    FirstPage(status, id);
    Polled(FRESH, [status], []);
  }

  lemma NothingListed()
    ensures Lists([], FRESH.revisions.Keys)
  {
  }

  lemma FirstPage(status: Status, id: string)
    requires RevisionId(status) == Some(id)
    ensures BeforePrune(FRESH, [status], []) == PollState(Once(id, status.revision), [], {}, 1)
    ensures |BeforePrune(FRESH, [status], []).revisions| <= MAX_TRACKED_REVISIONS
  {
    hide RevisionId, CurrentIds, MissingSet, Absorb;
    SinglePage(FRESH, status, []);
    var kept := {} - CurrentIds([status]);
    assert kept == {};
  }

  /** What a page without the only tracked record leaves: it is queued exactly if it is a post. */
  function Missed(id: string, fingerprint: string): PollState {
    PollState(Once(id, fingerprint), if IsReal(id) then [id] else [], if IsReal(id) then {id} else {}, 2)
  }

  lemma MissingPoll(id: string, fingerprint: string)
    ensures var st := PollState(Once(id, fingerprint), [], {}, 1);
            Legal(st, Poll([], [id], {})) && Observe(st, [], [id], {}) == Missed(id, fingerprint)
  {
    hide IsReal;
    var st := PollState(Once(id, fingerprint), [], {}, 1);
    assert MissingSet(st, {}) == if IsReal(id) then {id} else {};
    var missing := MissingSet(st, {});
    hide MissingSet;
    assert [id][1..] == [] && Keep([id], missing) == if IsReal(id) then [id] else [];
    assert st.members - CurrentIds([]) == {} && Keep(st.queue, {}) == [];
    assert Enqueue(st, Keep([id], missing)).(pollNumber := 2) == Missed(id, fingerprint) by {
      if IsReal(id) {
        EnqueueOne(st, id);
      }
    }
    assert |st.revisions| == 1;
    Polled(st, [], [id]);
  }

  lemma EnqueueOne(st: PollState, id: string)
    requires id !in st.members
    ensures Enqueue(st, [id]) == st.(queue := st.queue + [id], members := st.members + {id})
  {
    assert [id][1..] == [];
  }

  lemma FirstStep(st: PollState, e: Event, rest: seq<Event>)
    ensures LegalRun(st, [e] + rest) <==> Legal(st, e) && LegalRun(Next(st, e), rest)
    ensures Final(st, [e] + rest) == Final(Next(st, e), rest)
  {
    hide Legal, Next;
    assert ([e] + rest)[1..] == rest;
  }

  lemma RunOfTwo(st: PollState, first: Event, second: Event)
    requires Legal(st, first) && Legal(Next(st, first), second)
    ensures LegalRun(st, [first, second]) && Final(st, [first, second]) == Next(Next(st, first), second)
  {
    hide Legal, Next;
    assert [first] + [second] == [first, second] && [second] + [] == [second];
    FirstStep(st, first, [second]);
    FirstStep(Next(st, first), second, []);
  }

  function SeenThenMissed(status: Status, id: string): seq<Event> {
    [Poll([status], [], {}), Poll([], [id], {})]
  }

  lemma MissedOnce(status: Status, id: string)
    requires RevisionId(status) == Some(id)
    ensures LegalRun(FRESH, SeenThenMissed(status, id))
    ensures Final(FRESH, SeenThenMissed(status, id)) == Missed(id, status.revision)
  {
    hide RevisionId, IsReal, Observe, Legal, Once;
    FirstPoll(status, id);
    MissingPoll(id, status.revision);
    RunOfTwo(FRESH, Poll([status], [], {}), Poll([], [id], {}));
  }

  // ---- a full window ------------------------------------------------------------------------------

  /** The window is full of real posts, and `oldest` was seen before all others. */
  ghost predicate FullWindow(st: PollState, oldest: string) {
    && Inv(st, {}) && |st.revisions| == MAX_TRACKED_REVISIONS
    && (forall id :: id in st.revisions ==> IsReal(id))
    && oldest in st.revisions
    && (forall id :: id in st.revisions && id != oldest
          ==> st.revisions[oldest].lastSeenPoll < st.revisions[id].lastSeenPoll)
  }

  /** A new post evicts exactly the oldest one; after a restart any other post `y` may be evicted
      instead, because a checkpoint keeps no dates. */
  lemma RestartForgetsAges(
    st: PollState, cp: PersistedCheckpoint, post: Status, orderA: seq<string>, orderB: seq<string>,
    x: string, y: string)
    requires FullWindow(st, x) && IsCheckpoint(cp, st) && y in st.revisions
    requires RevisionId(post).Some? && RevisionId(post).value !in st.revisions
    ensures forall victims :: Evictable(BeforePrune(st, [post], orderA).revisions, victims) <==> victims == {x}
    ensures Evictable(BeforePrune(Restored(cp), [post], orderB).revisions, {y})
  {
    hide BeforePrune, Restored, RevisionId, IsReal, IsCheckpoint, Lists, Evictable, Clean;
    RestoredWhole(st, cp);
    assert SavedIds(st) == st.revisions.Keys;
    var id := RevisionId(post).value;
    SinglePage(st, post, orderA);
    SinglePage(Restored(cp), post, orderB);
    OldestGoes(st.revisions, id, RevisionEntry(post.revision, st.pollNumber + 1), x);
    SameSize(Restored(cp).revisions, st.revisions);
    AnyGoes(Restored(cp).revisions, id, RevisionEntry(post.revision, 2), y);
  }

  lemma SameSize(a: Revisions, b: Revisions)
    requires a.Keys == b.Keys
    ensures |a| == |b|
  {
    assert |a| == |a.Keys| && |b| == |b.Keys|;
  }

  lemma OldestGoes(revisions: Revisions, id: string, entry: RevisionEntry, x: string)
    requires |revisions| == MAX_TRACKED_REVISIONS && id !in revisions && x in revisions
    requires forall k :: k in revisions && k != x ==> revisions[x].lastSeenPoll < revisions[k].lastSeenPoll
    requires revisions[x].lastSeenPoll < entry.lastSeenPoll
    ensures var next := revisions[id := entry];
            forall victims :: Evictable(next, victims) <==> victims == {x}
  {
    var next := revisions[id := entry];
    OneMore(revisions, id, entry);
    forall victims ensures Evictable(next, victims) <==> victims == {x} {
      if Evictable(next, victims) {
        assert x in victims by {
          var v :| v in victims;
        }
        assert |victims - {x}| == 0;
      }
    }
  }

  lemma AnyGoes(revisions: Revisions, id: string, entry: RevisionEntry, y: string)
    requires |revisions| == MAX_TRACKED_REVISIONS && id !in revisions && y in revisions
    requires forall k :: k in revisions ==> revisions[k].lastSeenPoll == 1
    requires entry.lastSeenPoll == 2
    ensures Evictable(revisions[id := entry], {y})
  {
    OneMore(revisions, id, entry);
  }

  /** Three polls that fill the window: one post, another one, and then 510 others. */
  function FillingRun(first: Status, second: Status, x: string, y: string): seq<Event> {
    [Poll([first], [], {}), Poll([second], [x], {}),
     Poll(PostsBetween(2, MAX_TRACKED_REVISIONS), [x, y], {})]
  }

  function Twice(x: string, first: Status, y: string, second: Status): Revisions {
    map[x := RevisionEntry(first.revision, 1), y := RevisionEntry(second.revision, 2)]
  }

  lemma SecondPoll(first: Status, second: Status, x: string, y: string)
    requires RevisionId(first) == Some(x) && RevisionId(second) == Some(y) && x != y
    ensures var st := PollState(Once(x, first.revision), [], {}, 1);
            var next := Observe(st, [second], [x], {});
            && Legal(st, Poll([second], [x], {}))
            && next.revisions == Twice(x, first, y, second) && next.pollNumber == 2
  {
    hide RevisionId, Lists, Absorb;
    var st := PollState(Once(x, first.revision), [], {}, 1);
    ListOne(x, RevisionEntry(first.revision, 1));
    SinglePage(st, second, [x]);
    assert BeforePrune(st, [second], [x]).revisions == Twice(x, first, y, second);
    OneMore(st.revisions, y, RevisionEntry(second.revision, 2));
    assert BeforePrune(st, [second], [x]).pollNumber == 2;
    hide BeforePrune, Observe, Legal;
    Polled(st, [second], [x]);
  }

  lemma ListOne(id: string, entry: RevisionEntry)
    ensures Lists([id], map[id := entry].Keys)
  {
  }

  lemma ListTwo(id: string, entry: RevisionEntry, other: string, next: RevisionEntry)
    requires id != other
    ensures Lists([id, other], map[id := entry, other := next].Keys)
  {
    assert other in [id, other];
  }

  lemma FilledIds()
    ensures IdsBetween(0, MAX_TRACKED_REVISIONS) == {Id(0), Id(1)} + IdsBetween(2, MAX_TRACKED_REVISIONS)
    ensures {Id(0), Id(1)} !! IdsBetween(2, MAX_TRACKED_REVISIONS)
  {
    forall k, j | 0 <= k < 2 <= j ensures Id(k) != Id(j) {
      Ids(k);
      Ids(j);
    }
    hide Id;
  }

  lemma TrackMany(st: PollState, order: seq<string>)
    requires st.revisions.Keys == {Id(0), Id(1)} && Lists(order, st.revisions.Keys)
    ensures var page := PostsBetween(2, MAX_TRACKED_REVISIONS);
            var next := Observe(st, page, order, {});
            && Legal(st, Poll(page, order, {})) && next.pollNumber == st.pollNumber + 1
            && next.revisions.Keys == IdsBetween(0, MAX_TRACKED_REVISIONS)
            && (forall id :: id in next.revisions && id !in st.revisions
                  ==> next.revisions[id].lastSeenPoll == st.pollNumber + 1)
            && (forall id :: id in st.revisions ==> next.revisions[id] == st.revisions[id])
  {
    hide Id, Absorb, PageIds, LastRevision, Requeued, PostsBetween, IdsBetween, Lists;
    var page := PostsBetween(2, MAX_TRACKED_REVISIONS);
    PageIdsBetween(2, MAX_TRACKED_REVISIONS);
    AbsorbResult(st.revisions, st.pollNumber + 1, page);
    CountIds(MAX_TRACKED_REVISIONS);
    FilledIds();
    var before := BeforePrune(st, page, order);
    assert before.revisions == Absorb(st.revisions, st.pollNumber + 1, page);
    assert before.pollNumber == st.pollNumber + 1;
    hide BeforePrune, Observe, Legal;
    Polled(st, page, order);
  }

  lemma RunOfThree(st: PollState, first: Event, second: Event, third: Event)
    requires Legal(st, first) && Legal(Next(st, first), second) && Legal(Next(Next(st, first), second), third)
    ensures LegalRun(st, [first, second, third])
    ensures Final(st, [first, second, third]) == Next(Next(Next(st, first), second), third)
  {
    hide Legal, Next;
    assert [first] + [second, third] == [first, second, third];
    FirstStep(st, first, [second, third]);
    RunOfTwo(Next(st, first), second, third);
  }

  /** What is left of an old post after a poll that shows another one. */
  lemma OldEntry(st: PollState, status: Status, order: seq<string>, victims: set<string>, id: string)
    requires RevisionId(status).Some? && RevisionId(status).value != id && id in st.revisions
    ensures var next := Observe(st, [status], order, victims);
            if id in victims then id !in next.revisions
            else id in next.revisions && next.revisions[id] == st.revisions[id]
  {
    hide RevisionId, Requeued, Absorb, BeforePrune, Drop;
    SinglePage(st, status, order);
  }

  /** With a full window and one new post, going on forgets the oldest post `x`, while the
      restored poller may forget `y`, and then reports `y` again although it is unchanged. */
  lemma RestartEvictsDifferently(
    st: PollState, cp: PersistedCheckpoint, post: Status, orderA: seq<string>, orderB: seq<string>,
    x: string, y: string, again: Status)
    requires FullWindow(st, x) && IsCheckpoint(cp, st) && y in st.revisions && y != x
    requires RevisionId(post).Some? && RevisionId(post).value !in st.revisions
    requires again.id == y && again.revision == st.revisions[y].fingerprint
    requires Lists(orderA, st.revisions.Keys) && Lists(orderB, Restored(cp).revisions.Keys)
    ensures var pollA, pollB := Poll([post], orderA, {x}), Poll([post], orderB, {y});
            && Legal(st, pollA) && Legal(Restored(cp), pollB)
            && Posts(Next(st, pollA), [again]) == [] && Posts(Next(Restored(cp), pollB), [again]) == [again]
  {
    hide *;
    RestartForgetsAges(st, cp, post, orderA, orderB, x, y);
    RestoredEntry(st, cp, x, y);
    ShownAgain(st, post, orderA, {x}, again);
    ShownAgain(Restored(cp), post, orderB, {y}, again);
    LegalPoll(st, [post], orderA, {x});
    LegalPoll(Restored(cp), [post], orderB, {y});
  }

  lemma RestoredEntry(st: PollState, cp: PersistedCheckpoint, oldest: string, id: string)
    requires FullWindow(st, oldest) && id in st.revisions && IsCheckpoint(cp, st)
    ensures id in Restored(cp).revisions && Restored(cp).revisions[id].fingerprint == st.revisions[id].fingerprint
    ensures Restored(cp).revisions.Keys == st.revisions.Keys && IsReal(id) && Clean(id)
  {
    hide Restored, IsCheckpoint, IsReal, Clean, Lists;
    RestoredWhole(st, cp);
    assert SavedIds(st) == st.revisions.Keys;
  }

  lemma LegalPoll(st: PollState, page: seq<Status>, order: seq<string>, victims: set<string>)
    requires Lists(order, st.revisions.Keys) && Evictable(BeforePrune(st, page, order).revisions, victims)
    ensures Legal(st, Poll(page, order, victims))
    ensures Next(st, Poll(page, order, victims)) == Observe(st, page, order, victims)
  {
  }

  /** A tracked post shown again after another one is reported only if it was evicted. */
  lemma ShownAgain(st: PollState, post: Status, order: seq<string>, victims: set<string>, again: Status)
    requires RevisionId(post).Some? && RevisionId(post).value != again.id
    requires again.id in st.revisions && again.revision == st.revisions[again.id].fingerprint
    requires IsReal(again.id) && Clean(again.id)
    ensures Posts(Observe(st, [post], order, victims), [again]) == if again.id in victims then [again] else []
  {
    hide RevisionId, Observe, BeforePrune, Posts, IsReal, Clean;
    OldEntry(st, post, order, victims, again.id);
    SinglePost(Observe(st, [post], order, victims), again);
  }

  // ---- polls that fill the window -------------------------------------------------------------------

  /** After the filling run: the first post is the oldest, the second one next, the others newest. */
  ghost predicate Filled(st: PollState) {
    && st.pollNumber == 3 && st.revisions.Keys == IdsBetween(0, MAX_TRACKED_REVISIONS)
    && Id(0) in st.revisions && st.revisions[Id(0)].lastSeenPoll == 1
    && Id(1) in st.revisions && st.revisions[Id(1)].lastSeenPoll == 2
    && forall id :: id in st.revisions && id != Id(0) && id != Id(1) ==> st.revisions[id].lastSeenPoll == 3
  }

  lemma LastPoll(st: PollState, x: string, y: string)
    requires x == Id(0) && y == Id(1) && st.revisions == Twice(x, Post(0), y, Post(1)) && st.pollNumber == 2
    ensures var page := PostsBetween(2, MAX_TRACKED_REVISIONS);
            && Legal(st, Poll(page, [x, y], {})) && Filled(Observe(st, page, [x, y], {}))
  {
    Ids(0);
    Ids(1);
    hide Id, Legal, Observe, RevisionId, Clean, IsReal, PostsBetween, IdsBetween, Lists, Post;
    ListTwo(x, RevisionEntry(Post(0).revision, 1), y, RevisionEntry(Post(1).revision, 2));
    TrackMany(st, [x, y]);
  }

  lemma WindowIsFilled(first: Status, second: Status, x: string, y: string)
    requires first == Post(0) && second == Post(1) && x == Id(0) && y == Id(1)
    requires RevisionId(first) == Some(x) && RevisionId(second) == Some(y) && x != y
    ensures var run := FillingRun(first, second, x, y);
            LegalRun(FRESH, run) && Filled(Final(FRESH, run))
  {
    hide Id, Post, Legal, Observe, LegalRun, Final, PostsBetween, Filled, RevisionId, Once, Twice;
    FirstPoll(first, x);
    SecondPoll(first, second, x, y);
    var seen := Observe(FRESH, [first], [], {});
    LastPoll(Observe(seen, [second], [x], {}), x, y);
    RunOfThree(FRESH, Poll([first], [], {}), Poll([second], [x], {}),
               Poll(PostsBetween(2, MAX_TRACKED_REVISIONS), [x, y], {}));
  }

  lemma FilledIsFull(st: PollState)
    requires Inv(st, {}) && Filled(st)
    ensures FullWindow(st, Id(0)) && Id(1) in st.revisions && Id(1) != Id(0)
    ensures RevisionId(Post(MAX_TRACKED_REVISIONS)).Some?
    ensures RevisionId(Post(MAX_TRACKED_REVISIONS)).value !in st.revisions
  {
    hide Id, IdsBetween, Inv, RevisionId, Clean, IsReal;
    Ids(MAX_TRACKED_REVISIONS);
    WindowIds(st.revisions);
  }

  lemma WindowIds(revisions: Revisions)
    requires revisions.Keys == IdsBetween(0, MAX_TRACKED_REVISIONS)
    ensures |revisions| == MAX_TRACKED_REVISIONS && Id(MAX_TRACKED_REVISIONS) !in revisions
    ensures forall id :: id in revisions ==> IsReal(id)
  {
    hide Id, RevisionId, Clean, IsReal;
    CountIds(MAX_TRACKED_REVISIONS);
    Ids(MAX_TRACKED_REVISIONS);
    forall id | id in revisions ensures IsReal(id) && id != Id(MAX_TRACKED_REVISIONS) {
      var k :| 0 <= k < MAX_TRACKED_REVISIONS && Id(k) == id;
      Ids(k);
    }
  }

  /** A reachable state with a full window, a second post to be forgotten, and a new one to come. */
  lemma FullWindowIsReached()
    ensures var run := FillingRun(Post(0), Post(1), Id(0), Id(1));
            var st := Final(FRESH, run);
            && LegalRun(FRESH, run)
            && FullWindow(st, Id(0)) && Id(1) in st.revisions && Id(1) != Id(0)
            && RevisionId(Post(MAX_TRACKED_REVISIONS)).Some?
            && RevisionId(Post(MAX_TRACKED_REVISIONS)).value !in st.revisions
  {
    Ids(0);
    Ids(1);
    hide *;
    var run := FillingRun(Post(0), Post(1), Id(0), Id(1));
    WindowIsFilled(Post(0), Post(1), Id(0), Id(1));
    ReachableInv(run);
    FilledIsFull(Final(FRESH, run));
  }

  // ---- records announced again ---------------------------------------------------------------------

  const NOTHING_SAVED := PersistedCheckpoint([], [])

  /** Any record that is not a post: seen, absent from one page, and shown again. Going on reports
      nothing, while the poller restored from its checkpoint announces it a second time. */
  lemma RecordIsReplayed(status: Status, id: string)
    requires RevisionId(status) == Some(id) && !IsReal(id)
    ensures var run := SeenThenMissed(status, id);
            var st, restored := Final(FRESH, run), Restored(NOTHING_SAVED);
            && LegalRun(FRESH, run) && IsCheckpoint(NOTHING_SAVED, st)
            && Changed(st.revisions, st.pollNumber + 1, [status]) == []
            && Changed(restored.revisions, restored.pollNumber + 1, [status]) == [status]
  {
    hide RevisionId, IsReal, SeenThenMissed, Final, LegalRun;
    MissedOnce(status, id);
    var st := Missed(id, status.revision);
    assert SavedIds(st) == {};
    QuietOrNot(st.revisions, 3, status);
    QuietOrNot(Restored(NOTHING_SAVED).revisions, 2, status);
  }

  /** A repost is such a record. */
  lemma RepostIsReplayed()
    ensures var repost := Status("repost:r", "", "seen");
            RevisionId(repost) == Some("repost:r") && !IsReal("repost:r")
  {
    VisibleRecord("repost:r", "", "seen");
  }

  lemma VisibleRecord(id: string, uri: string, revision: string)
    requires id != "" && !IsWhitespace(id[0]) && !IsWhitespace(id[|id| - 1]) && id[0] != 'a'
    ensures RevisionId(Status(id, uri, revision)) == Some(id) && !IsReal(id)
  {
    TrimResult(id);
    hide Trim;
  }

  lemma QuietOrNot(revisions: Revisions, number: nat, status: Status)
    ensures Changed(revisions, number, [status]) == if IsNews(revisions, status) then [status] else []
  {
    hide IsNews, Track;
    PageStart(Track(revisions, number, status), number);
    assert [status][1..] == [];
  }

  /** The same for every notification that is seen, absent from one page, and shown again. */
  lemma NotificationIsReplayed(n: Notification)
    requires Trim(n.id) != ""
    ensures var st := ObserveNotifications(ObserveNotifications(NotificationState(map[], 0), [n], {}), [], {});
            && IsNotificationCheckpoint(NOTHING_SAVED, st)
            && Announced(st, [n]) == []
            && Announced(RestoredNotifications(NOTHING_SAVED), [n]) == Records([n])
  {
    var record, seen := Status(n.id, "", n.revision), Once(Trim(n.id), n.revision);
    assert RevisionId(record) == Some(Trim(n.id));
    assert Records([n]) == [record] && Records([]) == [];
    hide RevisionId, Trim, Absorb, Changed, IsNotificationCheckpoint, RestoredNotifications;
    FirstAbsorbed(record, Trim(n.id));
    assert seen - {} == seen;
    PageStart(seen, 2);
    QuietOrNot(seen, 3, record);
    QuietOrNot(map[], 2, record);
    NothingRestored(NotificationState(seen, 2));
    assert IsNews(map[], record) && !IsNews(seen, record);
  }

  lemma FirstAbsorbed(record: Status, id: string)
    requires RevisionId(record) == Some(id)
    ensures Absorb(map[], 1, [record]) == Once(id, record.revision)
  {
    hide RevisionId;
    PageStart(Once(id, record.revision), 1);
    assert [record][1..] == [];
  }

  lemma NothingRestored(st: NotificationState)
    requires forall id :: id in st.revisions ==> st.revisions[id].lastSeenPoll < st.pollNumber
    ensures IsNotificationCheckpoint(NOTHING_SAVED, st)
    ensures RestoredNotifications(NOTHING_SAVED) == NotificationState(map[], 1)
  {
    assert SavedIds(PollState(st.revisions, [], {}, st.pollNumber)) == {};
  }
}
