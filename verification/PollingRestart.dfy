/** Restarting from a checkpoint is invisible for real posts. */
module PollingRestart {
  import opened Basics
  import opened Text
  import opened Sorting
  import opened Polling
  import opened PollingInvariant

  /** What a restart preserves between the state `a` that went on and the state `b` that was
      restored: the reconciliation set, the fingerprint of every real post, and which posts are
      due to be missed, up to those already queued or pending. */
  ghost predicate Alike(a: PollState, b: PollState, pending: set<string>) {
    && a.members == b.members
    && (forall id :: id in b.revisions && IsReal(id) ==> id in a.revisions)
    && (forall id :: id in a.revisions && IsReal(id) ==>
          && id in b.revisions
          && a.revisions[id].fingerprint == b.revisions[id].fingerprint
          && (a.revisions[id].lastSeenPoll == a.pollNumber ==> b.revisions[id].lastSeenPoll == b.pollNumber)
          && (b.revisions[id].lastSeenPoll == b.pollNumber ==>
                a.revisions[id].lastSeenPoll == a.pollNumber || id in a.members || id in pending))
  }

  /** Nothing is dropped from a checkpoint whose ids are all still cached. */
  lemma {:induction false} KeepRowsAll(rows: seq<PersistedRevision>, existing: set<string>)
    requires forall i :: 0 <= i < |rows| ==> rows[i].id in existing
    ensures KeepRows(rows, existing) == rows
  {
    if rows != [] {
      KeepRowsAll(rows[..|rows| - 1], existing);
      assert rows == rows[..|rows| - 1] + [rows[|rows| - 1]];
    }
  }

  lemma WholeCheckpoint(st: PollState, cp: PersistedCheckpoint)
    requires Inv(st, {}) && IsCheckpoint(cp, st)
    ensures Validated(cp, SavedIds(st)) == cp && Keep(st.queue, SavedIds(st)) == st.queue
  {
    CheckpointRows(st, {}, cp);
    KeepRowsAll(cp.revisions, SavedIds(st));
    KeepAll(st.queue, SavedIds(st));
  }

  lemma RestoredWhole(st: PollState, cp: PersistedCheckpoint)
    requires Inv(st, {}) && IsCheckpoint(cp, st)
    ensures var next := Restored(cp);
            && Inv(next, {}) && next.queue == st.queue && next.pollNumber == 1
            && next.members == st.members * SavedIds(st)
            && next.revisions.Keys == SavedIds(st)
            && (forall id :: id in next.revisions
                  ==> next.revisions[id] == RevisionEntry(st.revisions[id].fingerprint, 1))
  {
    hide *;
    WholeCheckpoint(st, cp);
    CheckpointRows(st, {}, cp);
    RestoreInv(st, {}, cp, SavedIds(st));
    RowsReload(st, cp, SavedIds(st));
    QueueReloads(st, {}, cp, SavedIds(st));
  }

  lemma RestoredAlike(st: PollState, cp: PersistedCheckpoint)
    requires Inv(st, {}) && IsCheckpoint(cp, st)
    ensures Inv(Restored(cp), {}) && Alike(st, Restored(cp), {}) && Restored(cp).queue == st.queue
  {
    hide Restored, IsCheckpoint;
    RestoredWhole(st, cp);
    CheckpointAlike(st, Restored(cp));
  }

  lemma CheckpointAlike(st: PollState, next: PollState)
    requires UnboundedInv(st, {})
    requires next.members == st.members * SavedIds(st) && next.pollNumber == 1
    requires next.revisions.Keys == SavedIds(st)
    requires forall id :: id in next.revisions ==> next.revisions[id] == RevisionEntry(st.revisions[id].fingerprint, 1)
    ensures Alike(st, next, {})
  {
    hide Clean, IsReal, Lists;
  }

  // ---- pages -----------------------------------------------------------------------------

  function RealOnly(statuses: seq<Status>): seq<Status> {
    if statuses == [] then []
    else (if IsReal(statuses[0].id) then [statuses[0]] else []) + RealOnly(statuses[1..])
  }

  ghost predicate AgreeOnReal(a: Revisions, b: Revisions) {
    forall id :: IsReal(id) ==>
      && (id in a <==> id in b)
      && (id in a ==> a[id].fingerprint == b[id].fingerprint)
  }

  lemma {:induction false} RealOnlyAppend(s: seq<Status>, t: seq<Status>)
    ensures RealOnly(s + t) == RealOnly(s) + RealOnly(t)
  {
    if s == [] {
      assert s + t == t;
    } else {
      assert (s + t)[1..] == s[1..] + t;
      RealOnlyAppend(s[1..], t);
      ConcatAssociative(if IsReal(s[0].id) then [s[0]] else [], RealOnly(s[1..]), RealOnly(t));
    }
  }

  /** A post with a real id is tracked under a real id. */
  lemma RealIsTracked(status: Status)
    requires IsReal(status.id)
    ensures RevisionId(status).Some? && IsReal(RevisionId(status).value)
  {
    RealTrims(status.id);
  }

  lemma {:induction false} RealTrims(id: string)
    requires IsReal(id)
    ensures IsReal(Trim(id))
  {
    assert id[0] == 'a' && id[4] == '/';
    RealTrimsEnd(id);
  }

  lemma {:induction false} RealTrimsEnd(id: string)
    requires IsReal(id)
    ensures IsReal(TrimEnd(id))
    decreases |id|
  {
    if IsWhitespace(id[|id| - 1]) {
      assert id[4] == '/';
      RealTrimsEnd(id[..|id| - 1]);
    }
  }

  lemma TrackAgrees(a: Revisions, b: Revisions, na: nat, nb: nat, status: Status)
    requires AgreeOnReal(a, b)
    ensures AgreeOnReal(Track(a, na, status), Track(b, nb, status))
    ensures IsReal(status.id) ==> (IsNews(a, status) <==> IsNews(b, status))
  {
    if IsReal(status.id) {
      RealIsTracked(status);
    }
    hide IsReal, RevisionId;
  }

  lemma {:induction false} ChangedAgrees(a: Revisions, b: Revisions, na: nat, nb: nat, page: seq<Status>)
    requires AgreeOnReal(a, b)
    ensures RealOnly(Changed(a, na, page)) == RealOnly(Changed(b, nb, page))
    decreases page
  {
    hide Track, IsNews, AgreeOnReal;
    if page != [] {
      TrackAgrees(a, b, na, nb, page[0]);
      var nextA, nextB := Track(a, na, page[0]), Track(b, nb, page[0]);
      ChangedAgrees(nextA, nextB, na, nb, page[1..]);
      var headA := if IsNews(a, page[0]) then [page[0]] else [];
      var headB := if IsNews(b, page[0]) then [page[0]] else [];
      RealOnlyAppend(headA, Changed(nextA, na, page[1..]));
      RealOnlyAppend(headB, Changed(nextB, nb, page[1..]));
      assert RealOnly(headA) == RealOnly(headB);
    }
  }

  lemma AlikeAgrees(a: PollState, b: PollState, pending: set<string>)
    requires Alike(a, b, pending)
    ensures AgreeOnReal(a.revisions, b.revisions)
  {
  }

  lemma PageAlike(a: PollState, b: PollState, page: seq<Status>, orderA: seq<string>, orderB: seq<string>)
    requires Inv(a, {}) && Inv(b, {}) && Alike(a, b, {})
    requires Lists(orderA, a.revisions.Keys) && Lists(orderB, b.revisions.Keys)
    ensures Alike(BeforePrune(a, page, orderA), BeforePrune(b, page, orderB), {})
  {
    RequeuedResult(a, page, orderA);
    RequeuedResult(b, page, orderB);
    AbsorbResult(a.revisions, a.pollNumber + 1, page);
    AbsorbResult(b.revisions, b.pollNumber + 1, page);
    SameMembers(a, b, CurrentIds(page));
    var na, nb := BeforePrune(a, page, orderA), BeforePrune(b, page, orderB);
    assert na.revisions == Absorb(a.revisions, a.pollNumber + 1, page) && na.pollNumber == a.pollNumber + 1;
    assert nb.revisions == Absorb(b.revisions, b.pollNumber + 1, page) && nb.pollNumber == b.pollNumber + 1;
    assert na.members == nb.members == (a.members - CurrentIds(page)) + MissingSet(a, CurrentIds(page));
    hide Absorb, BeforePrune, Requeued, Lists;
    AbsorbedAlike(a, b, na, nb, page);
  }

  lemma SameMembers(a: PollState, b: PollState, current: set<string>)
    requires Alike(a, b, {}) && UnboundedInv(a, {})
    ensures (a.members - current) + MissingSet(a, current) == (b.members - current) + MissingSet(b, current)
    ensures MissingSet(a, current) <= MissingSet(b, current)
    ensures MissingSet(b, current) - MissingSet(a, current) <= a.members - current
  {
    hide Clean, IsReal, Lists;
  }

  lemma AbsorbedAlike(a: PollState, b: PollState, na: PollState, nb: PollState, page: seq<Status>)
    requires Alike(a, b, {}) && UnboundedInv(a, {}) && UnboundedInv(b, {})
    requires na.members == nb.members == (a.members - CurrentIds(page)) + MissingSet(a, CurrentIds(page))
    requires na.pollNumber == a.pollNumber + 1 && nb.pollNumber == b.pollNumber + 1
    requires na.revisions.Keys == a.revisions.Keys + PageIds(page)
    requires nb.revisions.Keys == b.revisions.Keys + PageIds(page)
    requires forall id :: id in PageIds(page) ==>
               && na.revisions[id] == RevisionEntry(LastRevision(page, id), na.pollNumber)
               && nb.revisions[id] == RevisionEntry(LastRevision(page, id), nb.pollNumber)
    requires forall id :: id in a.revisions && id !in PageIds(page) ==> na.revisions[id] == a.revisions[id]
    requires forall id :: id in b.revisions && id !in PageIds(page) ==> nb.revisions[id] == b.revisions[id]
    ensures Alike(na, nb, {})
  {
    hide PageIds, CurrentIds, Clean, IsReal, Lists, LastRevision, MissingSet;
  }

  // ---- evictions ---------------------------------------------------------------------------

  ghost predicate SameReal(v: set<string>, w: set<string>) {
    forall id :: IsReal(id) ==> (id in v <==> id in w)
  }

  /** Evicting the same real posts keeps two states alike. */
  lemma EvictedAlike(a: PollState, b: PollState, victimsA: set<string>, victimsB: set<string>)
    requires UnboundedInv(a, {}) && UnboundedInv(b, {}) && Alike(a, b, {}) && SameReal(victimsA, victimsB)
    ensures Alike(Forget(a, victimsA), Forget(b, victimsB), {})
  {
    hide IsReal, Clean, Lists, Drop;
    assert forall id :: id in a.members ==> IsReal(id);
  }

  /** Evicting different real posts leaves one that only one of the two states tracks. */
  lemma DifferentEvictions(a: PollState, b: PollState, victimsA: set<string>, victimsB: set<string>)
    requires Alike(a, b, {}) && victimsA <= a.revisions.Keys && victimsB <= b.revisions.Keys
    requires !SameReal(victimsA, victimsB)
    ensures !AgreeOnReal(Forget(a, victimsA).revisions, Forget(b, victimsB).revisions)
  {
    hide IsReal, Drop;
  }

  /** The real posts that a page arriving next would report. */
  function Posts(st: PollState, page: seq<Status>): seq<Status> {
    RealOnly(Changed(st.revisions, st.pollNumber + 1, page))
  }

  /** Whatever page arrives next, both states report the same real posts. */
  ghost predicate LookAlike(a: PollState, b: PollState) {
    forall page :: Posts(a, page) == Posts(b, page)
  }

  lemma SinglePost(st: PollState, status: Status)
    requires IsReal(status.id) && Clean(status.id)
    ensures Posts(st, [status]) == if IsChanged(st.revisions, status.id, status.revision) then [status] else []
  {
    assert RevisionId(status) == Some(status.id);
    assert [status][1..] == [];
    assert RealOnly([status]) == [status];
    assert Changed(st.revisions, st.pollNumber + 1, [status]) == if IsNews(st.revisions, status) then [status] else [];
  }

  /** Two states cannot be told apart by the next page if and only if they track the same real
      posts with the same fingerprints. */
  lemma LookAlikeIff(a: PollState, b: PollState)
    requires forall id :: id in a.revisions || id in b.revisions ==> Clean(id)
    ensures LookAlike(a, b) <==> AgreeOnReal(a.revisions, b.revisions)
  {
    hide IsReal, Clean, Changed, RealOnly;
    if AgreeOnReal(a.revisions, b.revisions) {
      forall page ensures Posts(a, page) == Posts(b, page) {
        ChangedAgrees(a.revisions, b.revisions, a.pollNumber + 1, b.pollNumber + 1, page);
      }
    } else {
      var id :| IsReal(id) && !((id in a.revisions <==> id in b.revisions)
        && (id in a.revisions ==> a.revisions[id].fingerprint == b.revisions[id].fingerprint));
      var fingerprint := if id in a.revisions then a.revisions[id].fingerprint else b.revisions[id].fingerprint;
      var status := Status(id, id, fingerprint);
      SinglePost(a, status);
      SinglePost(b, status);
      assert Posts(a, [status]) != Posts(b, [status]);
    }
  }

  // ---- runs of polls --------------------------------------------------------------------------

  ghost predicate SamePolls(a: seq<Event>, b: seq<Event>) {
    |a| == |b| && forall i :: 0 <= i < |a| ==> a[i].Poll? && b[i].Poll? && a[i].page == b[i].page
  }

  /** At every poll the two runs evict the same real posts. */
  ghost predicate SameEvictions(a: seq<Event>, b: seq<Event>)
    requires SamePolls(a, b)
  {
    forall i :: 0 <= i < |a| ==> SameReal(a[i].victims, b[i].victims)
  }

  /** What one poll reports: the changed real posts in order, and the reconciliation set. */
  datatype Report = Report(posts: seq<Status>, candidates: set<string>)

  ghost function Reports(st: PollState, polls: seq<Event>): seq<Report>
    requires forall i :: 0 <= i < |polls| ==> polls[i].Poll?
    decreases polls
  {
    if polls == [] then []
    else [Report(Posts(st, polls[0].page), Next(st, polls[0]).members)] + Reports(Next(st, polls[0]), polls[1..])
  }

  /** At the start and after every poll, no next page would tell the two runs apart. */
  ghost predicate NeverApart(a: PollState, b: PollState, pollsA: seq<Event>, pollsB: seq<Event>)
    requires |pollsA| == |pollsB|
    decreases pollsA
  {
    LookAlike(a, b) &&
    (pollsA == [] || NeverApart(Next(a, pollsA[0]), Next(b, pollsB[0]), pollsA[1..], pollsB[1..]))
  }

  lemma PollAlike(a: PollState, b: PollState, pollA: Event, pollB: Event)
    requires Inv(a, {}) && Inv(b, {}) && Alike(a, b, {})
    requires pollA.Poll? && pollB.Poll? && pollA.page == pollB.page && Legal(a, pollA) && Legal(b, pollB)
    ensures Inv(Next(a, pollA), {}) && Inv(Next(b, pollB), {})
    ensures SameReal(pollA.victims, pollB.victims)
       ==> Alike(Next(a, pollA), Next(b, pollB), {}) && Next(a, pollA).members == Next(b, pollB).members
    ensures !SameReal(pollA.victims, pollB.victims) ==> !LookAlike(Next(a, pollA), Next(b, pollB))
  {
    StepInv(a, pollA);
    StepInv(b, pollB);
    PageAlike(a, b, pollA.page, pollA.order, pollB.order);
    BeforePruneInv(a, pollA.page, pollA.order);
    BeforePruneInv(b, pollB.page, pollB.order);
    var na, nb := BeforePrune(a, pollA.page, pollA.order), BeforePrune(b, pollB.page, pollB.order);
    assert Next(a, pollA) == Forget(na, pollA.victims) && Next(b, pollB) == Forget(nb, pollB.victims);
    assert pollA.victims <= na.revisions.Keys && pollB.victims <= nb.revisions.Keys;
    hide BeforePrune, Legal, Next, Forget, LookAlike, AgreeOnReal, SameReal, Clean;
    if SameReal(pollA.victims, pollB.victims) {
      EvictedAlike(na, nb, pollA.victims, pollB.victims);
    } else {
      DifferentEvictions(na, nb, pollA.victims, pollB.victims);
      LookAlikeIff(Next(a, pollA), Next(b, pollB));
    }
  }

  lemma AlikeLookAlike(a: PollState, b: PollState)
    requires Inv(a, {}) && Inv(b, {}) && Alike(a, b, {})
    ensures LookAlike(a, b)
  {
    AlikeAgrees(a, b, {});
    LookAlikeIff(a, b);
  }

  lemma FirstEvictions(pollsA: seq<Event>, pollsB: seq<Event>)
    requires SamePolls(pollsA, pollsB) && pollsA != []
    ensures SamePolls(pollsA[1..], pollsB[1..])
    ensures SameEvictions(pollsA, pollsB)
       <==> SameReal(pollsA[0].victims, pollsB[0].victims) && SameEvictions(pollsA[1..], pollsB[1..])
  {
    hide SameReal;
    var restA, restB := pollsA[1..], pollsB[1..];
    assert forall i :: 0 < i < |pollsA| ==> pollsA[i] == restA[i - 1] && pollsB[i] == restB[i - 1];
    assert forall i :: 0 <= i < |restA| ==> restA[i] == pollsA[i + 1] && restB[i] == pollsB[i + 1];
  }

  lemma {:induction false} AlikeReports(a: PollState, b: PollState, pollsA: seq<Event>, pollsB: seq<Event>)
    requires Inv(a, {}) && Inv(b, {}) && Alike(a, b, {})
    requires LegalRun(a, pollsA) && LegalRun(b, pollsB) && SamePolls(pollsA, pollsB)
    ensures SameEvictions(pollsA, pollsB) ==> Reports(a, pollsA) == Reports(b, pollsB)
    ensures SameEvictions(pollsA, pollsB) <==> NeverApart(a, b, pollsA, pollsB)
    decreases pollsA
  {
    AlikeLookAlike(a, b);
    if pollsA != [] {
      var pollA, pollB := pollsA[0], pollsB[0];
      PollAlike(a, b, pollA, pollB);
      FirstEvictions(pollsA, pollsB);
      assert Posts(a, pollA.page) == Posts(b, pollB.page);
      hide Inv, Alike, Legal, Next, Posts, SameReal, SameEvictions, LookAlike;
      if SameReal(pollA.victims, pollB.victims) {
        AlikeReports(Next(a, pollA), Next(b, pollB), pollsA[1..], pollsB[1..]);
      }
    }
  }

  /** From any reachable state, restoring the state's own checkpoint and then observing any
      pages reports the same changed posts, in the same order, and the same reconciliation set
      as going on without a restart, whatever orders the hash maps are iterated in, provided
      that the two runs evict the same real posts. The proviso is exact: as soon as they evict
      different ones, some page arriving next is reported differently. */
  lemma RestartIsInvisible(events: seq<Event>, cp: PersistedCheckpoint, pollsA: seq<Event>, pollsB: seq<Event>)
    requires LegalRun(FRESH, events) && IsCheckpoint(cp, Final(FRESH, events))
    requires LegalRun(Final(FRESH, events), pollsA) && LegalRun(Restored(cp), pollsB)
    requires SamePolls(pollsA, pollsB)
    ensures SameEvictions(pollsA, pollsB)
       ==> Reports(Final(FRESH, events), pollsA) == Reports(Restored(cp), pollsB)
    ensures SameEvictions(pollsA, pollsB) <==> NeverApart(Final(FRESH, events), Restored(cp), pollsA, pollsB)
  {
    hide *;
    ReachableInv(events);
    RestoredAlike(Final(FRESH, events), cp);
    AlikeReports(Final(FRESH, events), Restored(cp), pollsA, pollsB);
  }

  // ---- while nothing is evicted -----------------------------------------------------------------

  /** A poll that evicts nothing, or a finished batch. */
  predicate Evictionless(turn: Event) { turn.Settled? || (turn.Poll? && turn.victims == {}) }

  ghost predicate NothingEvicted(turns: seq<Event>) {
    forall i :: 0 <= i < |turns| ==> Evictionless(turns[i])
  }

  lemma EvictsNothing(revisions: Revisions, victims: set<string>)
    requires |revisions| <= MAX_TRACKED_REVISIONS
    ensures Evictable(revisions, victims) <==> victims == {}
  {
  }

  lemma PolledKeys(st: PollState, page: seq<Status>, order: seq<string>)
    ensures BeforePrune(st, page, order).revisions.Keys == st.revisions.Keys + PageIds(page)
    ensures Observe(st, page, order, {}).revisions == BeforePrune(st, page, order).revisions
  {
    hide Absorb, PageIds, LastRevision, Drop;
    AbsorbResult(st.revisions, st.pollNumber + 1, page);
    assert BeforePrune(st, page, order).revisions - {} == BeforePrune(st, page, order).revisions;
  }

  /** A window that tracks no more ids than another evicts nothing when the other does not. */
  lemma SmallerWindow(a: PollState, b: PollState, page: seq<Status>, orderA: seq<string>, orderB: seq<string>)
    requires b.revisions.Keys <= a.revisions.Keys
    requires Evictable(BeforePrune(a, page, orderA).revisions, {})
    ensures forall victims :: Evictable(BeforePrune(b, page, orderB).revisions, victims) <==> victims == {}
    ensures Observe(b, page, orderB, {}).revisions.Keys <= Observe(a, page, orderA, {}).revisions.Keys
  {
    var windowA, windowB := BeforePrune(a, page, orderA).revisions, BeforePrune(b, page, orderB).revisions;
    assert |windowA| <= MAX_TRACKED_REVISIONS;
    hide BeforePrune, Observe, Evictable, PageIds;
    PolledKeys(a, page, orderA);
    PolledKeys(b, page, orderB);
    SubsetSize(windowB.Keys, windowA.Keys);
    forall victims ensures Evictable(windowB, victims) <==> victims == {} {
      EvictsNothing(windowB, victims);
    }
  }

  lemma NothingEvictedStep(a: PollState, b: PollState, pollA: Event, pollB: Event)
    requires b.revisions.Keys <= a.revisions.Keys
    requires pollA.Poll? && pollB.Poll? && pollA.page == pollB.page && Legal(a, pollA) && Legal(b, pollB)
    requires Evictionless(pollA)
    ensures Evictionless(pollB) && Next(b, pollB).revisions.Keys <= Next(a, pollA).revisions.Keys
  {
    hide Evictable, BeforePrune, Observe, Lists;
    SmallerWindow(a, b, pollA.page, pollA.order, pollB.order);
  }

  lemma NothingEvictedFirst(turns: seq<Event>)
    requires turns != []
    ensures NothingEvicted(turns) <==> Evictionless(turns[0]) && NothingEvicted(turns[1..])
  {
    hide Evictionless;
    assert forall i :: 0 < i < |turns| ==> turns[i] == turns[1..][i - 1];
    assert forall i :: 0 <= i < |turns[1..]| ==> turns[1..][i] == turns[i + 1];
  }

  lemma {:induction false} NothingEvictedEither(a: PollState, b: PollState, pollsA: seq<Event>, pollsB: seq<Event>)
    requires b.revisions.Keys <= a.revisions.Keys
    requires LegalRun(a, pollsA) && LegalRun(b, pollsB) && SamePolls(pollsA, pollsB) && NothingEvicted(pollsA)
    ensures NothingEvicted(pollsB)
    decreases pollsA
  {
    hide Legal, Next, Evictionless;
    if pollsA != [] {
      FirstEvictions(pollsA, pollsB);
      NothingEvictedFirst(pollsA);
      NothingEvictedFirst(pollsB);
      NothingEvictedStep(a, b, pollsA[0], pollsB[0]);
      hide SamePolls, NothingEvicted;
      NothingEvictedEither(Next(a, pollsA[0]), Next(b, pollsB[0]), pollsA[1..], pollsB[1..]);
    }
  }

  /** In particular a restart cannot be seen while the run that goes on stays within 512 ids. */
  lemma RestartIsInvisibleInWindow(
    events: seq<Event>, cp: PersistedCheckpoint, pollsA: seq<Event>, pollsB: seq<Event>)
    requires LegalRun(FRESH, events) && IsCheckpoint(cp, Final(FRESH, events))
    requires LegalRun(Final(FRESH, events), pollsA) && LegalRun(Restored(cp), pollsB)
    requires SamePolls(pollsA, pollsB) && NothingEvicted(pollsA)
    ensures NothingEvicted(pollsB) && Reports(Final(FRESH, events), pollsA) == Reports(Restored(cp), pollsB)
  {
    var st := Final(FRESH, events);
    hide Restored, Inv, IsCheckpoint, LegalRun, Reports, NeverApart;
    ReachableInv(events);
    RestoredWhole(st, cp);
    NothingEvictedEither(st, Restored(cp), pollsA, pollsB);
    RestartIsInvisible(events, cp, pollsA, pollsB);
  }

  // ---- pages and reconciliation batches ------------------------------------------------------

  /** The same page, with the real ids iterated in the same order and the same real posts evicted,
      or the same answers to a batch. */
  ghost predicate Matches(a: Event, b: Event) {
    match a
    case Poll(page, order, victims) =>
      b.Poll? && b.page == page && RealIds(b.order) == RealIds(order) && SameReal(victims, b.victims)
    case Settled(_, _) => b == a
    case _ => false
  }

  ghost predicate Matching(a: seq<Event>, b: seq<Event>) {
    |a| == |b| && forall i :: 0 <= i < |a| ==> Matches(a[i], b[i])
  }

  ghost predicate AlikeInStep(a: PollState, b: PollState, pending: set<string>) {
    Alike(a, b, pending) && a.queue == b.queue
  }

  lemma {:induction false} EnqueueSame(
    a: PollState, b: PollState, order: seq<string>, missedA: set<string>, missedB: set<string>)
    requires a.queue == b.queue && a.members == b.members
    requires missedA <= missedB && missedB - missedA <= a.members
    ensures Enqueue(a, Keep(order, missedA)).queue == Enqueue(b, Keep(order, missedB)).queue
    decreases order
  {
    if order != [] {
      var id, rest := order[0], order[1..];
      var keptA, keptB := Keep(rest, missedA), Keep(rest, missedB);
      if id in missedA && id !in a.members {
        assert ([id] + keptA)[1..] == keptA && ([id] + keptB)[1..] == keptB;
        EnqueueSame(a.(queue := a.queue + [id], members := a.members + {id}),
                    b.(queue := b.queue + [id], members := b.members + {id}), rest, missedA, missedB);
      } else {
        assert Enqueue(a, Keep(order, missedA)) == Enqueue(a, keptA) by {
          assert ([id] + keptA)[1..] == keptA;
          assert [] + keptA == keptA;
        }
        assert Enqueue(b, Keep(order, missedB)) == Enqueue(b, keptB) by {
          assert ([id] + keptB)[1..] == keptB;
          assert [] + keptB == keptB;
        }
        EnqueueSame(a, b, rest, missedA, missedB);
      }
    }
  }

  function RealIds(order: seq<string>): (ids: seq<string>)
    ensures forall id :: id in ids <==> id in order && IsReal(id)
  {
    if order == [] then [] else (if IsReal(order[0]) then [order[0]] else []) + RealIds(order[1..])
  }

  lemma {:induction false} KeepReal(order: seq<string>, kept: set<string>)
    requires forall id :: id in kept ==> IsReal(id)
    ensures Keep(RealIds(order), kept) == Keep(order, kept)
  {
    hide IsReal;
    if order != [] {
      KeepReal(order[1..], kept);
      var head := if IsReal(order[0]) then [order[0]] else [];
      KeepAppend(head, RealIds(order[1..]), kept);
      assert Keep(head, kept) == if order[0] in kept then [order[0]] else [];
    }
  }

  lemma {:induction false} RealIdsKeep(order: seq<string>, kept: set<string>)
    requires forall id :: id in order && IsReal(id) ==> id in kept
    ensures RealIds(Keep(order, kept)) == RealIds(order)
  {
    hide IsReal;
    if order != [] {
      assert forall id :: id in order[1..] ==> id in order;
      RealIdsKeep(order[1..], kept);
      if order[0] in kept {
        assert Keep(order, kept)[1..] == Keep(order[1..], kept);
      } else {
        assert Keep(order, kept) == Keep(order[1..], kept);
      }
    }
  }

  lemma QueuesInStep(a: PollState, b: PollState, page: seq<Status>, orderA: seq<string>, orderB: seq<string>)
    requires UnboundedInv(a, {}) && AlikeInStep(a, b, {}) && RealIds(orderA) == RealIds(orderB)
    ensures BeforePrune(a, page, orderA).queue == BeforePrune(b, page, orderB).queue
  {
    var current := CurrentIds(page);
    SameMembers(a, b, current);
    var missedA, missedB := MissingSet(a, current), MissingSet(b, current);
    KeepReal(orderA, missedA);
    KeepReal(orderB, missedB);
    hide UnboundedInv, MissingSet, CurrentIds;
    var kept := a.members - current;
    EnqueueSame(a.(queue := Keep(a.queue, kept), members := kept), b.(queue := Keep(b.queue, kept), members := kept),
                RealIds(orderA), missedA, missedB);
    hide Keep, Enqueue, Absorb;
  }

  lemma DropSame(queue: seq<string>, v: set<string>, w: set<string>)
    requires SameReal(v, w) && forall id :: id in queue ==> IsReal(id)
    ensures Drop(queue, v) == Drop(queue, w)
  {
    hide IsReal;
    assert (set x | x in queue) - v == (set x | x in queue) - w;
  }

  lemma PageInStep(a: PollState, b: PollState, pollA: Event, pollB: Event)
    requires Inv(a, {}) && Inv(b, {}) && AlikeInStep(a, b, {})
    requires Legal(a, pollA) && Legal(b, pollB) && pollA.Poll? && Matches(pollA, pollB)
    ensures Inv(Next(a, pollA), {}) && Inv(Next(b, pollB), {}) && AlikeInStep(Next(a, pollA), Next(b, pollB), {})
  {
    PollAlike(a, b, pollA, pollB);
    QueuesInStep(a, b, pollA.page, pollA.order, pollB.order);
    BeforePruneInv(a, pollA.page, pollA.order);
    hide BeforePrune, Alike, IsReal, Keep, Legal;
    DropSame(BeforePrune(a, pollA.page, pollA.order).queue, pollA.victims, pollB.victims);
  }

  lemma TakeAlike(a: PollState, b: PollState)
    requires AlikeInStep(a, b, {})
    ensures Batch(a) == Batch(b)
    ensures AlikeInStep(Take(a), Take(b), set id | id in Batch(a))
  {
  }

  lemma ReconciledAlike(a: PollState, b: PollState, status: Status, rest: set<string>)
    requires status.id in a.revisions && IsReal(status.id)
    requires AlikeInStep(a, b, rest + {status.id})
    ensures AlikeInStep(Reconciled(a, status), Reconciled(b, status), rest)
    ensures ReconciledChange(a, status) == ReconciledChange(b, status)
  {
    hide IsReal;
  }

  lemma GoneAlike(a: PollState, b: PollState, id: string, rest: set<string>)
    requires AlikeInStep(a, b, rest + {id})
    ensures AlikeInStep(Forget(a, {id}), Forget(b, {id}), rest)
  {
    hide IsReal, Drop;
  }

  lemma DeferredAlike(a: PollState, b: PollState, id: string, rest: set<string>)
    requires AlikeInStep(a, b, rest + {id})
    ensures AlikeInStep(Enqueue(a, [id]), Enqueue(b, [id]), rest)
  {
    var next := a.(queue := a.queue + [id], members := a.members + {id});
    assert Enqueue(a, [id]) == if id in a.members then a else next;
    hide IsReal;
  }

  lemma SettleAlike(a: PollState, b: PollState, id: string, outcome: Outcome, rest: set<string>)
    requires Inv(a, rest + {id}) && AlikeInStep(a, b, rest + {id}) && Answers(outcome, id)
    ensures AlikeInStep(Settle(a, id, outcome), Settle(b, id, outcome), rest)
    ensures Message(a, id, outcome) == Message(b, id, outcome)
    ensures b.revisions.Keys <= a.revisions.Keys
        ==> Settle(b, id, outcome).revisions.Keys <= Settle(a, id, outcome).revisions.Keys
  {
    assert id in a.revisions && IsReal(id);
    hide Inv, AlikeInStep;
    match outcome {
      case Found(status) => ReconciledAlike(a, b, status, rest);
      case Gone => GoneAlike(a, b, id, rest);
      case Deferred => DeferredAlike(a, b, id, rest);
    }
  }

  lemma {:induction false} SettleAllAlike(
    a: PollState, b: PollState, ids: seq<string>, outcomes: seq<Outcome>, accepts: nat)
    requires |outcomes| == |ids| && NoDup(ids)
    requires forall i :: 0 <= i < |ids| ==> Answers(outcomes[i], ids[i])
    requires Inv(a, set id | id in ids) && Inv(b, set id | id in ids)
    requires AlikeInStep(a, b, set id | id in ids)
    ensures var runA, runB := SettleAll(a, ids, outcomes, accepts), SettleAll(b, ids, outcomes, accepts);
            && runA.sent == runB.sent && runA.unsettled == runB.unsettled
            && AlikeInStep(runA.state, runB.state, set id | id in runA.unsettled)
            && (b.revisions.Keys <= a.revisions.Keys ==> runB.state.revisions.Keys <= runA.state.revisions.Keys)
    decreases ids
  {
    hide Settle, Message, Inv, AlikeInStep;
    if ids != [] {
      var rest := set id | id in ids[1..];
      assert (set id | id in ids) == rest + {ids[0]};
      SettleInv(a, ids[0], outcomes[0], rest);
      SettleInv(b, ids[0], outcomes[0], rest);
      SettleAlike(a, b, ids[0], outcomes[0], rest);
      SettleFirst(a, ids, outcomes, accepts);
      SettleFirst(b, ids, outcomes, accepts);
      var nextA, nextB := Settle(a, ids[0], outcomes[0]), Settle(b, ids[0], outcomes[0]);
      if Message(a, ids[0], outcomes[0]).None? {
        SettleAllAlike(nextA, nextB, ids[1..], outcomes[1..], accepts);
      } else if accepts > 0 {
        SettleAllAlike(nextA, nextB, ids[1..], outcomes[1..], accepts - 1);
      }
    }
  }

  /** What one turn lets the outside see: changed real posts, messages of a reconciliation batch,
      and the queue it leaves. */
  datatype Sight = Sight(posts: seq<Status>, sent: seq<StreamEvent>, queue: seq<string>)

  ghost function Seen(st: PollState, turn: Event): Sight {
    var queue := Next(st, turn).queue;
    match turn
    case Poll(page, _, _) => Sight(Posts(st, page), [], queue)
    case Settled(outcomes, accepts) =>
      Sight([], if |outcomes| == BatchSize(st) then Reconcile(st, outcomes, accepts).sent else [], queue)
    case _ => Sight([], [], queue)
  }

  ghost function Sights(st: PollState, turns: seq<Event>): seq<Sight>
    decreases turns
  {
    if turns == [] then [] else [Seen(st, turns[0])] + Sights(Next(st, turns[0]), turns[1..])
  }

  lemma LookupInStep(a: PollState, b: PollState, outcomes: seq<Outcome>, accepts: nat)
    requires Inv(a, {}) && Inv(b, {}) && AlikeInStep(a, b, {})
    requires LegalOutcomes(a, outcomes) && Reconcile(a, outcomes, accepts).unsettled == []
    ensures LegalOutcomes(b, outcomes)
    ensures var runA, runB := Reconcile(a, outcomes, accepts), Reconcile(b, outcomes, accepts);
            && runB.unsettled == [] && runA.sent == runB.sent
            && Inv(runA.state, {}) && Inv(runB.state, {}) && AlikeInStep(runA.state, runB.state, {})
            && runA.state.queue == runB.state.queue
            && (b.revisions.Keys <= a.revisions.Keys ==> runB.state.revisions.Keys <= runA.state.revisions.Keys)
  {
    TakeInv(a);
    TakeInv(b);
    TakeAlike(a, b);
    hide Inv, Alike, Take, SettleAll;
    SettleAllInv(Take(a), Batch(a), outcomes, accepts);
    SettleAllInv(Take(b), Batch(b), outcomes, accepts);
    SettleAllAlike(Take(a), Take(b), Batch(a), outcomes, accepts);
    assert (set id | id in Reconcile(a, outcomes, accepts).unsettled) == {};
  }

  lemma TurnAlike(a: PollState, b: PollState, turnA: Event, turnB: Event)
    requires Inv(a, {}) && Inv(b, {}) && AlikeInStep(a, b, {})
    requires Legal(a, turnA) && Matches(turnA, turnB) && (turnB.Poll? ==> Legal(b, turnB))
    ensures Legal(b, turnB) && Seen(a, turnA) == Seen(b, turnB)
    ensures Inv(Next(a, turnA), {}) && Inv(Next(b, turnB), {}) && AlikeInStep(Next(a, turnA), Next(b, turnB), {})
    ensures turnA.Settled? && b.revisions.Keys <= a.revisions.Keys
        ==> Next(b, turnB).revisions.Keys <= Next(a, turnA).revisions.Keys
  {
    match turnA {
      case Poll(_, _, _) =>
        PageInStep(a, b, turnA, turnB);
        AlikeLookAlike(a, b);
        assert Posts(a, turnA.page) == Posts(b, turnA.page);
        hide Posts, Observe, Legal, Inv, Alike;
      case Settled(outcomes, accepts) =>
        LookupSizes(a, b, outcomes);
        LookupInStep(a, b, outcomes, accepts);
        hide Inv, Alike, Reconcile, LegalOutcomes;
    }
  }

  lemma LookupSizes(a: PollState, b: PollState, outcomes: seq<Outcome>)
    requires LegalOutcomes(a, outcomes) && a.queue == b.queue
    ensures |outcomes| == BatchSize(a) == BatchSize(b)
  {
  }

  lemma {:induction false} TurnsAlike(a: PollState, b: PollState, turnsA: seq<Event>, turnsB: seq<Event>)
    requires Inv(a, {}) && Inv(b, {}) && AlikeInStep(a, b, {})
    requires LegalRun(a, turnsA) && LegalRun(b, turnsB) && Matching(turnsA, turnsB)
    ensures Sights(a, turnsA) == Sights(b, turnsB)
    decreases turnsA
  {
    hide Inv, AlikeInStep, Legal, Seen, Next, Matches;
    if turnsA != [] {
      TurnAlike(a, b, turnsA[0], turnsB[0]);
      TurnsAlike(Next(a, turnsA[0]), Next(b, turnsB[0]), turnsA[1..], turnsB[1..]);
    }
  }

  /** With reconciliation batches among the pages: runs that go on from a reachable state and
      from its restored checkpoint with the same pages, the same answers, the same real ids in
      the same order and the same real posts evicted report the same posts, look up the same ids
      in the same batches, send the same messages and leave the same queue after every turn. */
  lemma RestartKeepsReconciling(events: seq<Event>, cp: PersistedCheckpoint, turnsA: seq<Event>, turnsB: seq<Event>)
    requires LegalRun(FRESH, events) && IsCheckpoint(cp, Final(FRESH, events))
    requires LegalRun(Final(FRESH, events), turnsA) && LegalRun(Restored(cp), turnsB)
    requires Matching(turnsA, turnsB)
    ensures Sights(Final(FRESH, events), turnsA) == Sights(Restored(cp), turnsB)
  {
    var st := Final(FRESH, events);
    ReachableInv(events);
    RestoredAlike(st, cp);
    assert AlikeInStep(st, Restored(cp), {});
    hide *;
    TurnsAlike(st, Restored(cp), turnsA, turnsB);
  }

  /** The same turn with the iteration order restricted to the ids `st` tracks. */
  ghost function Mirrored(st: PollState, turn: Event): Event {
    match turn
    case Poll(page, order, _) => Poll(page, Keep(order, st.revisions.Keys), {})
    case _ => turn
  }

  ghost function Mirror(st: PollState, turns: seq<Event>): seq<Event>
    decreases turns
  {
    if turns == [] then []
    else
      var turn := Mirrored(st, turns[0]);
      [turn] + Mirror(Next(st, turn), turns[1..])
  }

  lemma RestrictedOrder(a: PollState, b: PollState, order: seq<string>)
    requires Alike(a, b, {}) && b.revisions.Keys <= a.revisions.Keys && Lists(order, a.revisions.Keys)
    ensures var orderB := Keep(order, b.revisions.Keys);
            Lists(orderB, b.revisions.Keys) && RealIds(orderB) == RealIds(order)
  {
    hide IsReal;
    KeepNoDup(order, b.revisions.Keys);
    RealIdsKeep(order, b.revisions.Keys);
  }

  lemma MirroredMatches(a: PollState, b: PollState, turn: Event)
    requires Alike(a, b, {}) && b.revisions.Keys <= a.revisions.Keys && Legal(a, turn)
    requires Evictionless(turn)
    ensures Matches(turn, Mirrored(b, turn))
    ensures turn.Poll? ==> Legal(b, Mirrored(b, turn))
                           && Next(b, Mirrored(b, turn)).revisions.Keys <= Next(a, turn).revisions.Keys
  {
    hide Observe, BeforePrune, Evictable, IsReal, Lists, Alike, RealIds, Keep;
    match turn {
      case Poll(page, order, _) =>
        RestrictedOrder(a, b, order);
        SmallerWindow(a, b, page, order, Keep(order, b.revisions.Keys));
      case Settled(_, _) =>
    }
  }

  lemma MirrorStep(a: PollState, b: PollState, turn: Event)
    requires Inv(a, {}) && Inv(b, {}) && AlikeInStep(a, b, {}) && b.revisions.Keys <= a.revisions.Keys
    requires Legal(a, turn) && Evictionless(turn)
    ensures var turnB := Mirrored(b, turn);
            && Legal(b, turnB) && Matches(turn, turnB)
            && Inv(Next(a, turn), {}) && Inv(Next(b, turnB), {}) && AlikeInStep(Next(a, turn), Next(b, turnB), {})
            && Next(b, turnB).revisions.Keys <= Next(a, turn).revisions.Keys
  {
    MirroredMatches(a, b, turn);
    hide Inv, Alike, Legal, Next, Matches;
    TurnAlike(a, b, turn, Mirrored(b, turn));
  }

  lemma {:induction false} MirrorMatches(a: PollState, b: PollState, turns: seq<Event>)
    requires Inv(a, {}) && Inv(b, {}) && AlikeInStep(a, b, {}) && b.revisions.Keys <= a.revisions.Keys
    requires LegalRun(a, turns) && NothingEvicted(turns)
    ensures LegalRun(b, Mirror(b, turns)) && Matching(turns, Mirror(b, turns))
    decreases turns
  {
    hide Inv, AlikeInStep, Legal, Next, Matches, Mirrored, Evictionless;
    if turns != [] {
      var turnB := Mirrored(b, turns[0]);
      MirrorStep(a, b, turns[0]);
      MirrorMatches(Next(a, turns[0]), Next(b, turnB), turns[1..]);
      assert Mirror(b, turns) == [turnB] + Mirror(Next(b, turnB), turns[1..]);
      MatchingFirst(turns, Mirror(b, turns));
    }
  }

  lemma MatchingFirst(a: seq<Event>, b: seq<Event>)
    requires a != [] && b != [] && Matches(a[0], b[0]) && Matching(a[1..], b[1..])
    ensures Matching(a, b)
  {
    hide Matches;
    forall i | 0 < i < |a| ensures Matches(a[i], b[i]) {
      assert a[i] == a[1..][i - 1] && b[i] == b[1..][i - 1];
    }
  }

  /** While nothing is evicted, every continuation of a reachable state is matched by one of the
      restored state that only iterates its smaller map. */
  lemma RestartCanFollow(events: seq<Event>, cp: PersistedCheckpoint, turns: seq<Event>)
    requires LegalRun(FRESH, events) && IsCheckpoint(cp, Final(FRESH, events))
    requires LegalRun(Final(FRESH, events), turns) && NothingEvicted(turns)
    ensures var mirrored := Mirror(Restored(cp), turns);
            && LegalRun(Restored(cp), mirrored)
            && Sights(Final(FRESH, events), turns) == Sights(Restored(cp), mirrored)
  {
    var st := Final(FRESH, events);
    ReachableInv(events);
    RestoredAlike(st, cp);
    RestoredWhole(st, cp);
    assert AlikeInStep(st, Restored(cp), {}) && SavedIds(st) <= st.revisions.Keys;
    hide *;
    MirrorMatches(st, Restored(cp), turns);
    RestartKeepsReconciling(events, cp, turns, Mirror(Restored(cp), turns));
  }
}
