/** What a restart announces again: synthetic records and notifications. The module also
    models the notification poller, whose window keeps no reconciliation queue. */
module PollingReplay {
  import opened Basics
  import opened Text
  import opened Sorting
  import opened Polling
  import opened PollingInvariant
  import opened PollingRestart

  /** `b` tracks some of what `a` tracks, with the same fingerprints. */
  ghost predicate Restricts(b: Revisions, a: Revisions) {
    forall id :: id in b ==> id in a && b[id].fingerprint == a[id].fingerprint
  }

  /** Record `i` of the page is the first of its id there, `a` tracks it with the revision it
      shows, and `b` has lost it. */
  ghost predicate Forgotten(a: Revisions, b: Revisions, page: seq<Status>, i: nat)
    requires i < |page|
  {
    match RevisionId(page[i])
    case None => false
    case Some(id) =>
      && (forall j :: 0 <= j < i ==> RevisionId(page[j]) != Some(id))
      && id in a && a[id].fingerprint == page[i].revision && id !in b
  }

  lemma ForgottenShift(a: Revisions, b: Revisions, na: nat, nb: nat, page: seq<Status>, i: nat)
    requires 0 < i < |page|
    ensures Forgotten(a, b, page, i)
       <==> Forgotten(Track(a, na, page[0]), Track(b, nb, page[0]), page[1..], i - 1)
  {
    match RevisionId(page[i]) {
      case None =>
      case Some(id) =>
        assert (forall j :: 0 <= j < i ==> RevisionId(page[j]) != Some(id))
          <==> RevisionId(page[0]) != Some(id)
               && (forall j :: 0 <= j < i - 1 ==> RevisionId(page[1..][j]) != Some(id)) by {
          assert forall j :: 0 <= j < i - 1 ==> page[1..][j] == page[j + 1];
          assert forall j :: 1 <= j < i ==> page[j] == page[1..][j - 1];
        }
    }
  }

  /** A smaller window reports the same changes if and only if it has forgotten none of the
      records the page shows unchanged; otherwise it reports strictly more. */
  lemma {:induction false} SameChangesIff(a: Revisions, b: Revisions, na: nat, nb: nat, page: seq<Status>)
    requires Restricts(b, a)
    ensures |Changed(a, na, page)| <= |Changed(b, nb, page)|
    ensures Changed(a, na, page) == Changed(b, nb, page)
        <==> forall i :: 0 <= i < |page| ==> !Forgotten(a, b, page, i)
    decreases page
  {
    if page != [] {
      var s, rest := page[0], page[1..];
      var nextA, nextB := Track(a, na, s), Track(b, nb, s);
      SameChangesIff(nextA, nextB, na, nb, rest);
      forall i | 0 < i < |page|
        ensures Forgotten(a, b, page, i) <==> Forgotten(nextA, nextB, rest, i - 1)
      {
        ForgottenShift(a, b, na, nb, page, i);
      }
      assert IsNews(a, s) ==> IsNews(b, s);
      assert Forgotten(a, b, page, 0) <==> IsNews(b, s) && !IsNews(a, s);
      var restA, restB := Changed(nextA, na, rest), Changed(nextB, nb, rest);
      hide Changed, Forgotten, Track, IsNews;
      assert (forall i :: 0 <= i < |page| ==> !Forgotten(a, b, page, i))
        <==> !Forgotten(a, b, page, 0) && (forall i :: 0 <= i < |rest| ==> !Forgotten(nextA, nextB, rest, i)) by {
        forall i | 0 <= i < |rest| ensures Forgotten(a, b, page, i + 1) <==> Forgotten(nextA, nextB, rest, i) {}
      }
      HeadsAgree(Changed(a, na, page), Changed(b, nb, page), s, restA, restB, IsNews(a, s), IsNews(b, s)) by {
        ChangedFirst(a, na, page);
        ChangedFirst(b, nb, page);
      }
    }
  }

  lemma ChangedFirst(a: Revisions, na: nat, page: seq<Status>)
    requires page != []
    ensures Changed(a, na, page)
         == (if IsNews(a, page[0]) then [page[0]] else []) + Changed(Track(a, na, page[0]), na, page[1..])
  {
  }

  lemma HeadsAgree(
    wholeA: seq<Status>, wholeB: seq<Status>, s: Status, restA: seq<Status>, restB: seq<Status>,
    newsA: bool, newsB: bool)
    requires wholeA == (if newsA then [s] else []) + restA && wholeB == (if newsB then [s] else []) + restB
    requires newsA ==> newsB
    requires |restA| <= |restB|
    ensures |wholeA| <= |wholeB|
    ensures wholeA == wholeB <==> newsA == newsB && restA == restB
  {
    if newsA {
      assert wholeA[1..] == restA && wholeB[1..] == restB;
    } else if !newsB {
      assert wholeA == restA && wholeB == restB;
    }
  }

  /** The first page after a restart reports exactly what it would have reported without the
      restart if and only if it shows no unchanged record that was tracked but neither seen in
      the latest poll nor queued. (By the invariant such a record is never a real post.) */
  lemma RestartReplaysIff(st: PollState, cp: PersistedCheckpoint, page: seq<Status>)
    requires Inv(st, {}) && IsCheckpoint(cp, st)
    ensures Changed(st.revisions, st.pollNumber + 1, page) == Changed(Restored(cp).revisions, 2, page)
       <==> forall i :: 0 <= i < |page| ==> !Forgotten(st.revisions, Restored(cp).revisions, page, i)
    ensures forall id :: id in st.revisions && id !in Restored(cp).revisions
              <==> id in st.revisions && st.revisions[id].lastSeenPoll != st.pollNumber && id !in st.members
  {
    hide Changed, Forgotten, Restored, Inv, IsCheckpoint;
    RestoredWhole(st, cp);
    SameChangesIff(st.revisions, Restored(cp).revisions, st.pollNumber + 1, 2, page);
  }

  // ---- notifications --------------------------------------------------------------------------

  /** A notification; `revision` renders the fields that identify its revision. */
  datatype Notification = Notification(id: string, revision: string)

  datatype NotificationState = NotificationState(revisions: Revisions, pollNumber: nat)

  /** Notifications are tracked under their trimmed id, like posts without a uri. */
  function Records(page: seq<Notification>): (records: seq<Status>)
    ensures |records| == |page|
    ensures forall i :: 0 <= i < |page| ==> records[i] == Status(page[i].id, "", page[i].revision)
  {
    seq(|page|, i requires 0 <= i < |page| => Status(page[i].id, "", page[i].revision))
  }

  function ObserveNotifications(
    st: NotificationState, page: seq<Notification>, victims: set<string>): NotificationState
  {
    NotificationState(Absorb(st.revisions, st.pollNumber + 1, Records(page)) - victims, st.pollNumber + 1)
  }

  /** The very first page is a baseline and announces nothing. */
  function Announced(st: NotificationState, page: seq<Notification>): seq<Status> {
    if st.pollNumber == 0 then [] else Changed(st.revisions, st.pollNumber + 1, Records(page))
  }

  function RestoredNotifications(cp: PersistedCheckpoint): NotificationState {
    NotificationState(LoadRevisions(Window(cp.revisions)), 1)
  }

  /** Only what the latest page showed is saved. */
  ghost predicate IsNotificationCheckpoint(cp: PersistedCheckpoint, st: NotificationState) {
    IsCheckpoint(cp, PollState(st.revisions, [], {}, st.pollNumber))
  }

  ghost predicate NotificationInv(st: NotificationState) {
    && (forall id :: id in st.revisions ==> Clean(id) && st.revisions[id].lastSeenPoll <= st.pollNumber)
    && |st.revisions| <= MAX_TRACKED_REVISIONS
  }

  lemma ObserveNotificationsInv(st: NotificationState, page: seq<Notification>, victims: set<string>)
    requires NotificationInv(st)
    requires Evictable(Absorb(st.revisions, st.pollNumber + 1, Records(page)), victims)
    ensures NotificationInv(ObserveNotifications(st, page, victims))
  {
    hide Absorb, PageIds, Trim, LastRevision, Evictable, NotificationInv;
    var records := Records(page);
    var absorbed := Absorb(st.revisions, st.pollNumber + 1, records);
    AbsorbResult(st.revisions, st.pollNumber + 1, records);
    PageIdsVisible(records);
    PruneFits(absorbed, victims);
    AbsorbedNotifications(st, absorbed, PageIds(records), victims);
  }

  lemma AbsorbedNotifications(
    st: NotificationState, absorbed: Revisions, pageIds: set<string>, victims: set<string>)
    requires NotificationInv(st)
    requires absorbed.Keys == st.revisions.Keys + pageIds
    requires forall id :: id in pageIds ==> Clean(id)
    requires forall id :: id in pageIds ==> absorbed[id].lastSeenPoll == st.pollNumber + 1
    requires forall id :: id in st.revisions && id !in pageIds ==> absorbed[id] == st.revisions[id]
    requires |absorbed - victims| <= MAX_TRACKED_REVISIONS
    ensures NotificationInv(NotificationState(absorbed - victims, st.pollNumber + 1))
  {
    hide Trim;
  }

  lemma NotificationRows(st: NotificationState, cp: PersistedCheckpoint)
    requires NotificationInv(st) && IsNotificationCheckpoint(cp, st)
    ensures var revisions := RestoredNotifications(cp).revisions;
            forall id :: id in revisions <==> id in st.revisions && st.revisions[id].lastSeenPoll == st.pollNumber
    ensures Restricts(RestoredNotifications(cp).revisions, st.revisions)
  {
    var saved := SavedIds(PollState(st.revisions, [], {}, st.pollNumber));
    ListedLength(Rows(cp.revisions), saved);
    SubsetSize(saved, st.revisions.Keys);
    hide LoadRevisions, Sorted, DistinctRows, Loads;
    NotificationRowsDistinct(st, cp);
    LoadRevisionsResult(cp.revisions);
    assert RestoredNotifications(cp).revisions == LoadRevisions(cp.revisions);
    hide NotificationInv, IsNotificationCheckpoint;
    LoadedNotifications(st.revisions, cp.revisions, LoadRevisions(cp.revisions), saved);
  }

  lemma LoadedNotifications(
    tracked: Revisions, rows: seq<PersistedRevision>, loaded: Revisions, saved: set<string>)
    requires Loads(rows, loaded) && Lists(Rows(rows), saved) && saved <= tracked.Keys
    requires forall i :: 0 <= i < |rows| ==>
               rows[i].id in tracked && rows[i].fingerprint == tracked[rows[i].id].fingerprint
    ensures forall id :: id in loaded <==> id in saved
    ensures Restricts(loaded, tracked)
  {
    forall id | id in saved ensures id in loaded {
      assert id in Rows(rows);
      var i :| 0 <= i < |rows| && rows[i].id == id;
    }
    forall id | id in loaded ensures id in saved && loaded[id].fingerprint == tracked[id].fingerprint {
      assert Names(rows, id);
      var i :| 0 <= i < |rows| && rows[i].id == id;
      assert Rows(rows)[i] in Rows(rows);
    }
  }

  lemma NotificationRowsDistinct(st: NotificationState, cp: PersistedCheckpoint)
    requires NotificationInv(st) && IsNotificationCheckpoint(cp, st)
    ensures DistinctRows(cp.revisions)
  {
    hide Trim, Sorted;
    var ids := Rows(cp.revisions);
    forall i, j | 0 <= i < j < |cp.revisions| ensures cp.revisions[i].id != cp.revisions[j].id {
      assert ids[i] != ids[j];
    }
  }

  /** After a restart the next page announces what it would have announced without it if and
      only if it shows no unchanged notification that was tracked but absent from the last page. */
  lemma NotificationReplaysIff(st: NotificationState, cp: PersistedCheckpoint, page: seq<Notification>)
    requires NotificationInv(st) && st.pollNumber > 0 && IsNotificationCheckpoint(cp, st)
    ensures Announced(st, page) == Announced(RestoredNotifications(cp), page)
       <==> forall i :: 0 <= i < |page| ==>
              !Forgotten(st.revisions, RestoredNotifications(cp).revisions, Records(page), i)
  {
    NotificationRows(st, cp);
    hide Changed, Forgotten;
    SameChangesIff(st.revisions, RestoredNotifications(cp).revisions, st.pollNumber + 1, 2, Records(page));
  }

  class NotificationRevisionState {
    var revisions: Revisions
    var pollNumber: nat

    ghost function State(): NotificationState
      reads this
    {
      NotificationState(revisions, pollNumber)
    }

    constructor Default()
      ensures State() == NotificationState(map[], 0)
    {
      revisions, pollNumber := map[], 0;
    }

    method ObservePage(page: seq<Notification>) returns (changed: seq<Status>, ghost victims: set<string>)
      modifies this
      ensures Evictable(Absorb(old(revisions), old(pollNumber) + 1, Records(page)), victims)
      ensures State() == ObserveNotifications(old(State()), page, victims)
      ensures changed == Announced(old(State()), page)
    {
      hide Absorb, Changed;
      var isInitialPage := pollNumber == 0;
      pollNumber := pollNumber + 1;
      var records := Records(page);
      changed := [];
      PageStart(revisions, pollNumber);
      assert records[..0] == [];
      for i := 0 to |records|
        invariant pollNumber == old(pollNumber) + 1
        invariant revisions == Absorb(old(revisions), pollNumber, records[..i])
        invariant changed == if isInitialPage then [] else Changed(old(revisions), pollNumber, records[..i])
      {
        PageNext(old(revisions), pollNumber, records[..i], records[i]);
        assert records[..i + 1] == records[..i] + [records[i]];
        if IsNews(revisions, records[i]) && !isInitialPage {
          changed := changed + [records[i]];
        }
        revisions := Track(revisions, pollNumber, records[i]);
      }
      assert records[..|records|] == records;
      victims := Prune();
    }

    method Prune() returns (ghost victims: set<string>)
      modifies `revisions
      ensures Evictable(old(revisions), victims)
      ensures revisions == old(revisions) - victims
    {
      victims := {};
      if |revisions| <= MAX_TRACKED_REVISIONS {
        return;
      }
      var order := Iterate(revisions.Keys);
      var candidates := CandidateIds(SortBy(SeenLeq, Candidates(revisions, order)));
      var removeCount := |revisions| - MAX_TRACKED_REVISIONS;
      SortedCandidates(revisions, order);
      VictimPrefix(revisions, SortBy(SeenLeq, Candidates(revisions, order)), removeCount);
      victims := set v | v in candidates[..removeCount];
      hide Evictable, Lists, Sorted, SortBy;
      RemoveAll(candidates[..removeCount]);
    }

    method RemoveAll(gone: seq<string>)
      modifies `revisions
      ensures revisions == old(revisions) - set v | v in gone
    {
      for i := 0 to |gone|
        invariant revisions == old(revisions) - set v | v in gone[..i]
      {
        assert gone[..i + 1] == gone[..i] + [gone[i]];
        revisions := revisions - {gone[i]};
      }
      assert gone[..|gone|] == gone;
    }
  }
}
