/** What every step of a polling stream keeps, over whole runs with restarts. */
module PollingInvariant {
  import opened Basics
  import opened Text
  import opened Sorting
  import opened Polling

  /** The ids that get tracked: trimmed and not empty. */
  predicate Clean(id: string) { Trim(id) == id && id != "" }

  /** The invariant without its bound on the size of the window. `pending` holds the ids of a
      reconciliation batch that are not settled yet; it is empty outside a running batch. */
  ghost predicate UnboundedInv(st: PollState, pending: set<string>) {
    && Lists(st.queue, st.members)
    && pending !! st.members
    && (forall id :: id in st.members || id in pending ==> id in st.revisions && IsReal(id))
    && (forall id :: id in st.revisions ==> Clean(id))
    && (forall id :: id in st.revisions ==> st.revisions[id].lastSeenPoll <= st.pollNumber)
    && (forall id :: id in st.revisions && IsReal(id)
          ==> st.revisions[id].lastSeenPoll == st.pollNumber || id in st.members || id in pending)
  }

  ghost predicate Inv(st: PollState, pending: set<string>) {
    UnboundedInv(st, pending) && |st.revisions| <= MAX_TRACKED_REVISIONS
  }

  // ---- queueing ------------------------------------------------------------------------

  ghost predicate QueueMatches(st: PollState) { Lists(st.queue, st.members) }

  lemma {:induction false} EnqueueResult(st: PollState, ids: seq<string>)
    requires QueueMatches(st)
    ensures var next := Enqueue(st, ids);
            && QueueMatches(next)
            && next.members == st.members + (set id | id in ids)
            && st.queue <= next.queue
    decreases ids
  {
    if ids != [] {
      var id, rest := ids[0], ids[1..];
      assert ids == [id] + rest;
      if id in st.members {
        EnqueueResult(st, rest);
      } else {
        EnqueueResult(st.(queue := st.queue + [id], members := st.members + {id}), rest);
      }
    }
  }

  lemma KeepQueue(st: PollState, kept: set<string>)
    requires QueueMatches(st)
    ensures Lists(Keep(st.queue, kept), st.members * kept)
  {
    KeepNoDup(st.queue, kept);
  }

  lemma RequeuedResult(st: PollState, page: seq<Status>, order: seq<string>)
    requires QueueMatches(st) && Lists(order, st.revisions.Keys)
    ensures QueueMatches(Requeued(st, page, order))
    ensures var current := CurrentIds(page);
            Requeued(st, page, order).members == (st.members - current) + MissingSet(st, current)
  {
    var current := CurrentIds(page);
    var kept := st.members - current;
    var missing := Keep(order, MissingSet(st, current));
    KeepQueue(st, kept);
    assert st.members * kept == kept;
    KeepNoDup(order, MissingSet(st, current));
    EnqueueResult(st.(queue := Keep(st.queue, kept), members := kept), missing);
    assert (set id | id in missing) == MissingSet(st, current);
  }

  lemma ForgetResult(st: PollState, ids: set<string>)
    requires QueueMatches(st)
    ensures QueueMatches(Forget(st, ids))
  {
    KeepNoDup(st.queue, (set x | x in st.queue) - ids);
  }

  // ---- absorbing a page ------------------------------------------------------------------

  /** The revision a page leaves behind for `id`: that of its last occurrence. */
  function LastRevision(page: seq<Status>, id: string): string
    requires id in PageIds(page)
  {
    if id in PageIds(page[1..]) then LastRevision(page[1..], id) else page[0].revision
  }

  lemma {:induction false} AbsorbResult(revisions: Revisions, number: nat, page: seq<Status>)
    ensures Absorb(revisions, number, page).Keys == revisions.Keys + PageIds(page)
    ensures forall id :: id in PageIds(page)
              ==> Absorb(revisions, number, page)[id] == RevisionEntry(LastRevision(page, id), number)
    ensures forall id :: id in revisions && id !in PageIds(page)
              ==> Absorb(revisions, number, page)[id] == revisions[id]
    decreases page
  {
    if page != [] {
      AbsorbResult(Track(revisions, number, page[0]), number, page[1..]);
    }
  }

  lemma {:induction false} PageIdsVisible(page: seq<Status>)
    ensures forall id :: id in PageIds(page) ==> Clean(id)
  {
    if page != [] {
      PageIdsVisible(page[1..]);
      match RevisionId(page[0]) {
        case Some(id) =>
          TrimResult(page[0].id);
          TrimResult(page[0].uri);
        case None =>
      }
    }
  }

  /** A clean id that a page shows for reconciliation is also one it shows as a revision. */
  lemma {:induction false} CurrentCleanIds(page: seq<Status>)
    ensures forall id :: id in CurrentIds(page) && Clean(id) ==> id in PageIds(page)
  {
    if page != [] {
      CurrentCleanIds(page[1..]);
    }
  }

  // ---- one step ----------------------------------------------------------------------------

  lemma PageEntries(st: PollState, page: seq<Status>, order: seq<string>)
    requires forall id :: id in st.revisions ==> Clean(id)
    requires forall id :: id in st.revisions ==> st.revisions[id].lastSeenPoll <= st.pollNumber
    ensures var next := BeforePrune(st, page, order);
            && next.pollNumber == st.pollNumber + 1
            && next.revisions.Keys == st.revisions.Keys + PageIds(page)
            && (forall id :: id in next.revisions ==> Clean(id))
            && (forall id :: id in next.revisions ==> next.revisions[id].lastSeenPoll <= next.pollNumber)
            && (forall id :: id in PageIds(page) ==> next.revisions[id].lastSeenPoll == next.pollNumber)
            && (forall id :: id in st.revisions && id !in PageIds(page)
                  ==> id in next.revisions && next.revisions[id] == st.revisions[id])
  {
    hide Absorb, Requeued, PageIds, Trim, LastRevision;
    AbsorbResult(st.revisions, st.pollNumber + 1, page);
    PageIdsVisible(page);
  }

  lemma BeforePruneInv(st: PollState, page: seq<Status>, order: seq<string>)
    requires Inv(st, {}) && Lists(order, st.revisions.Keys)
    ensures UnboundedInv(BeforePrune(st, page, order), {})
  {
    var next := BeforePrune(st, page, order);
    CurrentCleanIds(page);
    RequeuedResult(st, page, order);
    PageEntries(st, page, order);
    assert next.queue == Requeued(st, page, order).queue && next.members == Requeued(st, page, order).members;
    hide BeforePrune;
    PolledInv(st, next, page);
  }

  lemma PolledInv(st: PollState, next: PollState, page: seq<Status>)
    requires UnboundedInv(st, {})
    requires forall id :: id in CurrentIds(page) && Clean(id) ==> id in PageIds(page)
    requires QueueMatches(next)
    requires next.members == (st.members - CurrentIds(page)) + MissingSet(st, CurrentIds(page))
    requires next.revisions.Keys == st.revisions.Keys + PageIds(page)
    requires forall id :: id in next.revisions ==> Clean(id)
    requires forall id :: id in next.revisions ==> next.revisions[id].lastSeenPoll <= next.pollNumber
    requires forall id :: id in PageIds(page) ==> next.revisions[id].lastSeenPoll == next.pollNumber
    requires forall id :: id in st.revisions && id !in PageIds(page)
               ==> id in next.revisions && next.revisions[id] == st.revisions[id]
    ensures UnboundedInv(next, {})
  {
    hide PageIds, CurrentIds, Clean, IsReal, Lists;
  }

  lemma ForgetInv(st: PollState, ids: set<string>)
    requires UnboundedInv(st, {})
    ensures UnboundedInv(Forget(st, ids), {})
  {
    hide Clean, IsReal, Drop, Lists;
    ForgetResult(st, ids);
  }

  lemma PruneFits(revisions: Revisions, victims: set<string>)
    requires Evictable(revisions, victims)
    ensures |revisions - victims| <= MAX_TRACKED_REVISIONS
  {
    assert revisions.Keys == (revisions - victims).Keys + victims;
    assert (revisions - victims).Keys !! victims;
  }

  lemma ObserveInv(st: PollState, page: seq<Status>, order: seq<string>, victims: set<string>)
    requires Inv(st, {}) && Lists(order, st.revisions.Keys)
    requires Evictable(BeforePrune(st, page, order).revisions, victims)
    ensures Inv(Observe(st, page, order, victims), {})
  {
    BeforePruneInv(st, page, order);
    hide BeforePrune, Evictable, IsReal, Trim, Drop, Lists;
    ForgetInv(BeforePrune(st, page, order), victims);
    PruneFits(BeforePrune(st, page, order).revisions, victims);
  }

  lemma TakeInv(st: PollState)
    requires Inv(st, {})
    ensures NoDup(Batch(st))
    ensures Inv(Take(st), set id | id in Batch(st))
  {
    var n := BatchSize(st);
    var next := Take(st);
    assert st.queue == st.queue[..n] + st.queue[n..];
    forall i, j | 0 <= i < n <= j < |st.queue| ensures st.queue[i] != st.queue[j] {}
    forall id ensures id in next.queue <==> id in next.members {
      if id in next.queue {
        var j :| 0 <= j < |next.queue| && next.queue[j] == id;
        assert st.queue[n + j] == id;
      }
    }
  }

  /** The lookup answered about the post that was asked for. */
  ghost predicate Answers(outcome: Outcome, id: string) {
    outcome.Found? ==> outcome.status.id == id
  }

  lemma SettleInv(st: PollState, id: string, outcome: Outcome, rest: set<string>)
    requires Inv(st, rest + {id}) && id !in rest && Answers(outcome, id)
    ensures Inv(Settle(st, id, outcome), rest)
  {
    match outcome {
      case Found(status) =>
        assert RealId(status) == Some(id);
        assert Reconciled(st, status).revisions.Keys == st.revisions.Keys;
      case Gone =>
        ForgetResult(st, {id});
        SubsetSize((st.revisions - {id}).Keys, st.revisions.Keys);
      case Deferred =>
        EnqueueResult(st, [id]);
    }
  }

  /** The assumption is exact: the lookup of a post missed by the latest poll keeps the invariant
      if and only if it comes back under the id that was asked for. Otherwise the missed post
      stays tracked but would never be asked for again. */
  lemma AnswerMustMatch(st: PollState, id: string, status: Status, rest: set<string>)
    requires Inv(st, rest + {id}) && id !in rest
    requires st.revisions[id].lastSeenPoll < st.pollNumber
    ensures Inv(Settle(st, id, Found(status)), rest) <==> status.id == id
  {
    if status.id == id {
      SettleInv(st, id, Found(status), rest);
    } else {
      var next := Settle(st, id, Found(status));
      assert id in next.revisions && next.revisions[id] == st.revisions[id];
      assert id !in next.members && IsReal(id);
    }
    hide IsReal, Clean, Lists;
  }

  lemma {:induction false} SettleAllInv(st: PollState, ids: seq<string>, outcomes: seq<Outcome>, accepts: nat)
    requires |outcomes| == |ids| && NoDup(ids)
    requires forall i :: 0 <= i < |ids| ==> Answers(outcomes[i], ids[i])
    requires Inv(st, set id | id in ids)
    ensures var run := SettleAll(st, ids, outcomes, accepts);
            Inv(run.state, set id | id in run.unsettled)
    decreases ids
  {
    hide Settle, Message, Inv;
    if ids != [] {
      var rest := set id | id in ids[1..];
      assert (set id | id in ids) == rest + {ids[0]};
      SettleInv(st, ids[0], outcomes[0], rest);
      var next := Settle(st, ids[0], outcomes[0]);
      SettleFirst(st, ids, outcomes, accepts);
      if Message(st, ids[0], outcomes[0]).None? {
        SettleAllInv(next, ids[1..], outcomes[1..], accepts);
      } else if accepts > 0 {
        SettleAllInv(next, ids[1..], outcomes[1..], accepts - 1);
      }
    }
  }

  // ---- checkpoints ----------------------------------------------------------------------------

  /** The rows and queued ids of a checkpoint that still name a cached post; loading a
      checkpoint drops the others. */
  function Validated(cp: PersistedCheckpoint, existing: set<string>): PersistedCheckpoint {
    PersistedCheckpoint(KeepRows(cp.revisions, existing), Keep(cp.reconciliationQueue, existing))
  }

  function KeepRows(rows: seq<PersistedRevision>, existing: set<string>): seq<PersistedRevision> {
    if rows == [] then []
    else KeepRows(rows[..|rows| - 1], existing)
         + (if rows[|rows| - 1].id in existing then [rows[|rows| - 1]] else [])
  }

  ghost predicate DistinctRows(rows: seq<PersistedRevision>) {
    && (forall i, j :: 0 <= i < j < |rows| ==> rows[i].id != rows[j].id)
    && (forall i :: 0 <= i < |rows| ==> Trim(rows[i].id) != "")
  }

  lemma DistinctSplit(rows: seq<PersistedRevision>, last: PersistedRevision)
    ensures DistinctRows(rows + [last]) <==>
              && DistinctRows(rows) && Trim(last.id) != ""
              && forall i :: 0 <= i < |rows| ==> rows[i].id != last.id
  {
    hide Trim;
    var all, n := rows + [last], |rows|;
    assert all[n] == last;
    assert forall i :: 0 <= i < n ==> all[i] == rows[i];
  }

  lemma {:induction false} KeepRowsResult(rows: seq<PersistedRevision>, existing: set<string>)
    requires DistinctRows(rows)
    ensures DistinctRows(KeepRows(rows, existing))
    ensures |KeepRows(rows, existing)| <= |rows|
    ensures forall r :: r in KeepRows(rows, existing) <==> r in rows && r.id in existing
  {
    if rows != [] {
      var before, last := rows[..|rows| - 1], rows[|rows| - 1];
      assert rows == before + [last];
      hide DistinctRows, Trim;
      DistinctSplit(before, last);
      KeepRowsResult(before, existing);
      var kept := KeepRows(before, existing);
      assert KeepRows(rows, existing) == kept + (if last.id in existing then [last] else []);
      hide KeepRows;
      forall i | 0 <= i < |kept| ensures kept[i].id != last.id {
        assert kept[i] in before;
      }
      DistinctSplit(kept, last);
      if last.id !in existing {
        assert kept + [] == kept;
      }
    }
  }

  /** The window holds exactly the rows, each as if seen in the poll numbered one. */
  ghost predicate Loads(rows: seq<PersistedRevision>, revisions: Revisions) {
    && (forall i :: 0 <= i < |rows| ==>
          rows[i].id in revisions && revisions[rows[i].id] == RevisionEntry(rows[i].fingerprint, 1))
    && (forall id :: id in revisions ==> Names(rows, id))
    && |revisions| == |rows|
  }

  ghost predicate Names(rows: seq<PersistedRevision>, id: string) {
    exists i :: 0 <= i < |rows| && rows[i].id == id
  }

  lemma NamesNext(rows: seq<PersistedRevision>, last: PersistedRevision, id: string)
    ensures Names(rows + [last], id) <==> Names(rows, id) || id == last.id
  {
    var all := rows + [last];
    assert all[|rows|] == last;
    if Names(rows, id) {
      var i :| 0 <= i < |rows| && rows[i].id == id;
      assert all[i].id == id;
    }
  }

  lemma LoadsNext(rows: seq<PersistedRevision>, last: PersistedRevision, revisions: Revisions)
    requires Loads(rows, revisions) && forall i :: 0 <= i < |rows| ==> rows[i].id != last.id
    ensures Loads(rows + [last], revisions[last.id := RevisionEntry(last.fingerprint, 1)])
  {
    var all, next := rows + [last], revisions[last.id := RevisionEntry(last.fingerprint, 1)];
    assert last.id !in revisions by {
      assert !Names(rows, last.id);
    }
    assert next.Keys == revisions.Keys + {last.id};
    hide Names;
    forall i | 0 <= i < |all|
      ensures all[i].id in next && next[all[i].id] == RevisionEntry(all[i].fingerprint, 1)
    {
      assert if i < |rows| then all[i] == rows[i] else all[i] == last;
    }
    forall id | id in next ensures Names(all, id) {
      NamesNext(rows, last, id);
    }
  }

  lemma {:induction false} LoadRevisionsResult(rows: seq<PersistedRevision>)
    requires DistinctRows(rows)
    ensures Loads(rows, LoadRevisions(rows))
  {
    if rows != [] {
      var before, last := rows[..|rows| - 1], rows[|rows| - 1];
      assert rows == before + [last];
      hide DistinctRows, Loads, Trim;
      DistinctSplit(before, last);
      LoadRevisionsResult(before);
      LoadsNext(before, last, LoadRevisions(before));
    }
  }

  lemma {:induction false} LoadQueueResult(ids: seq<string>)
    requires NoDup(ids) && forall i :: 0 <= i < |ids| ==> Trim(ids[i]) != ""
    ensures LoadQueue(ids) == ids
  {
    if ids != [] {
      var before := ids[..|ids| - 1];
      LoadQueueResult(before);
      assert ids == before + [ids[|ids| - 1]];
    }
  }

  lemma CheckpointRows(st: PollState, pending: set<string>, cp: PersistedCheckpoint)
    requires Inv(st, pending) && IsCheckpoint(cp, st)
    ensures DistinctRows(cp.revisions) && |cp.revisions| <= MAX_TRACKED_REVISIONS
    ensures |cp.reconciliationQueue| <= MAX_TRACKED_REVISIONS
    ensures forall i :: 0 <= i < |cp.revisions| ==> cp.revisions[i].id in SavedIds(st)
    ensures forall id :: id in SavedIds(st)
              ==> PersistedRevision(id, st.revisions[id].fingerprint) in cp.revisions
  {
    var ids := Rows(cp.revisions);
    ListedLength(ids, SavedIds(st));
    ListedLength(st.queue, st.members);
    SubsetSize(SavedIds(st), st.revisions.Keys);
    SubsetSize(st.members, st.revisions.Keys);
    forall i, j | 0 <= i < j < |cp.revisions| ensures cp.revisions[i].id != cp.revisions[j].id {
      assert ids[i] != ids[j];
    }
    forall i | 0 <= i < |cp.revisions| ensures cp.revisions[i].id in SavedIds(st) {
      assert ids[i] in ids;
    }
    forall id | id in SavedIds(st)
      ensures PersistedRevision(id, st.revisions[id].fingerprint) in cp.revisions
    {
      assert id in ids;
      var i :| 0 <= i < |ids| && ids[i] == id;
      assert cp.revisions[i] == PersistedRevision(id, st.revisions[id].fingerprint);
    }
  }

  lemma RowsReload(st: PollState, cp: PersistedCheckpoint, existing: set<string>)
    requires DistinctRows(cp.revisions) && |cp.revisions| <= MAX_TRACKED_REVISIONS
    requires IsCheckpoint(cp, st)
    requires forall i :: 0 <= i < |cp.revisions| ==> cp.revisions[i].id in SavedIds(st)
    requires forall id :: id in SavedIds(st)
              ==> PersistedRevision(id, st.revisions[id].fingerprint) in cp.revisions
    ensures var revisions := Restored(Validated(cp, existing)).revisions;
            && revisions.Keys == SavedIds(st) * existing
            && |revisions| <= MAX_TRACKED_REVISIONS
            && (forall id :: id in revisions
                  ==> revisions[id] == RevisionEntry(st.revisions[id].fingerprint, 1))
  {
    var rows := KeepRows(cp.revisions, existing);
    KeepRowsResult(cp.revisions, existing);
    assert Restored(Validated(cp, existing)).revisions == LoadRevisions(rows);
    assert forall i :: 0 <= i < |cp.revisions| ==>
      cp.revisions[i].fingerprint == st.revisions[cp.revisions[i].id].fingerprint;
    hide KeepRows, LoadRevisions, DistinctRows, IsCheckpoint, Restored, Validated, SavedIds;
    LoadRevisionsResult(rows);
    KeptRowsLoaded(st, cp.revisions, rows, LoadRevisions(rows), SavedIds(st), existing);
  }

  lemma KeptRowsLoaded(
    st: PollState, all: seq<PersistedRevision>, rows: seq<PersistedRevision>, revisions: Revisions,
    saved: set<string>, existing: set<string>)
    requires forall id :: id in saved ==> id in st.revisions
    requires forall i :: 0 <= i < |all| ==>
               all[i].id in saved && all[i].fingerprint == st.revisions[all[i].id].fingerprint
    requires forall id :: id in saved ==> PersistedRevision(id, st.revisions[id].fingerprint) in all
    requires forall r :: r in rows <==> r in all && r.id in existing
    requires Loads(rows, revisions)
    ensures revisions.Keys == saved * existing
    ensures forall id :: id in revisions ==> revisions[id] == RevisionEntry(st.revisions[id].fingerprint, 1)
  {
    forall id | id in revisions
      ensures id in saved * existing && revisions[id] == RevisionEntry(st.revisions[id].fingerprint, 1)
    {
      var i :| 0 <= i < |rows| && rows[i].id == id;
      assert rows[i] in rows;
    }
    forall id | id in saved * existing ensures id in revisions {
      var row := PersistedRevision(id, st.revisions[id].fingerprint);
      assert row in rows;
      var i :| 0 <= i < |rows| && rows[i] == row;
    }
  }

  lemma QueueReloads(st: PollState, pending: set<string>, cp: PersistedCheckpoint, existing: set<string>)
    requires Inv(st, pending) && IsCheckpoint(cp, st)
    ensures var next := Restored(Validated(cp, existing));
            && next.queue == Keep(st.queue, existing) && Lists(next.queue, next.members)
            && next.members == st.members * existing
  {
    var kept := Keep(st.queue, existing);
    assert forall id :: id in st.queue ==> Trim(id) != "";
    assert Lists(st.queue, st.members) && |st.revisions| <= MAX_TRACKED_REVISIONS;
    assert st.members <= st.revisions.Keys;
    assert Validated(cp, existing).reconciliationQueue == kept;
    hide Inv, UnboundedInv, IsCheckpoint, Validated, Keep, LoadRevisions, Trim;
    KeptQueue(st, existing);
    LoadQueueResult(kept);
    assert Window(kept) == kept;
  }

  lemma KeptQueue(st: PollState, existing: set<string>)
    requires Lists(st.queue, st.members) && st.members <= st.revisions.Keys
    requires |st.revisions| <= MAX_TRACKED_REVISIONS
    requires forall id :: id in st.queue ==> Trim(id) != ""
    ensures var kept := Keep(st.queue, existing);
            && Lists(kept, st.members * existing) && |kept| <= MAX_TRACKED_REVISIONS
            && forall i :: 0 <= i < |kept| ==> Trim(kept[i]) != ""
  {
    hide Trim;
    var kept := Keep(st.queue, existing);
    KeepNoDup(st.queue, existing);
    hide Keep;
    ListedLength(kept, st.members * existing);
    SubsetSize(st.members * existing, st.revisions.Keys);
    assert forall i :: 0 <= i < |kept| ==> kept[i] in kept;
  }

  lemma ReloadedInv(st: PollState, next: PollState, existing: set<string>)
    requires Lists(next.queue, next.members) && next.members == st.members * existing
    requires forall id :: id in st.members ==> id in st.revisions && IsReal(id)
    requires forall id :: id in st.revisions ==> Clean(id)
    requires next.pollNumber == 1
    requires forall id :: id in next.revisions ==> id in st.revisions && next.revisions[id].lastSeenPoll == 1
    requires forall id :: id in st.members && id in existing ==> id in next.revisions
    ensures UnboundedInv(next, {})
  {
    hide Clean, IsReal, Lists;
  }

  /** Restoring a checkpoint, even one saved after a batch was cut short, gives back a state
      that satisfies the invariant. */
  lemma RestoreInv(st: PollState, pending: set<string>, cp: PersistedCheckpoint, existing: set<string>)
    requires Inv(st, pending) && IsCheckpoint(cp, st)
    ensures Inv(Restored(Validated(cp, existing)), {})
  {
    var next := Restored(Validated(cp, existing));
    CheckpointRows(st, pending, cp);
    assert UnboundedInv(st, pending);
    assert forall id :: id in SavedIds(st) ==> id in st.revisions;
    assert forall id :: id in st.members ==> id in SavedIds(st);
    hide Restored, Validated, SavedIds, Lists, IsReal, Trim, DistinctRows, IsCheckpoint;
    QueueReloads(st, pending, cp, existing);
    RowsReload(st, cp, existing);
    ReloadedInv(st, next, existing);
  }

  // ---- whole runs ------------------------------------------------------------------------------

  datatype Event =
    | Poll(page: seq<Status>, order: seq<string>, victims: set<string>)
    | Settled(outcomes: seq<Outcome>, accepts: nat)
    | Restart(checkpoint: PersistedCheckpoint, existing: set<string>)
    | CutShort(outcomes: seq<Outcome>, accepts: nat, checkpoint: PersistedCheckpoint, existing: set<string>)

  ghost predicate LegalOutcomes(st: PollState, outcomes: seq<Outcome>) {
    && |outcomes| == BatchSize(st)
    && forall i :: 0 <= i < |outcomes| ==> Answers(outcomes[i], Batch(st)[i])
  }

  ghost predicate Legal(st: PollState, e: Event) {
    match e
    case Poll(page, order, victims) =>
      && Lists(order, st.revisions.Keys)
      && Evictable(BeforePrune(st, page, order).revisions, victims)
    case Settled(outcomes, accepts) =>
      LegalOutcomes(st, outcomes) && Reconcile(st, outcomes, accepts).unsettled == []
    case Restart(checkpoint, _) => IsCheckpoint(checkpoint, st)
    case CutShort(outcomes, accepts, checkpoint, _) =>
      LegalOutcomes(st, outcomes) && IsCheckpoint(checkpoint, Reconcile(st, outcomes, accepts).state)
  }

  ghost function Next(st: PollState, e: Event): PollState {
    match e
    case Poll(page, order, victims) => Observe(st, page, order, victims)
    case Settled(outcomes, accepts) =>
      if |outcomes| == BatchSize(st) then Reconcile(st, outcomes, accepts).state else st
    case Restart(checkpoint, existing) => Restored(Validated(checkpoint, existing))
    case CutShort(_, _, checkpoint, existing) => Restored(Validated(checkpoint, existing))
  }

  ghost function Final(st: PollState, events: seq<Event>): PollState
    decreases events
  {
    if events == [] then st else Final(Next(st, events[0]), events[1..])
  }

  ghost predicate LegalRun(st: PollState, events: seq<Event>)
    decreases events
  {
    events == [] || (Legal(st, events[0]) && LegalRun(Next(st, events[0]), events[1..]))
  }

  lemma StepInv(st: PollState, e: Event)
    requires Inv(st, {}) && Legal(st, e)
    ensures Inv(Next(st, e), {})
  {
    match e {
      case Poll(page, order, victims) => ObserveInv(st, page, order, victims);
      case Settled(outcomes, accepts) =>
        TakeInv(st);
        SettleAllInv(Take(st), Batch(st), outcomes, accepts);
        assert (set id | id in Reconcile(st, outcomes, accepts).unsettled) == {};
      case Restart(checkpoint, existing) => RestoreInv(st, {}, checkpoint, existing);
      case CutShort(outcomes, accepts, checkpoint, existing) =>
        TakeInv(st);
        SettleAllInv(Take(st), Batch(st), outcomes, accepts);
        var run := Reconcile(st, outcomes, accepts);
        RestoreInv(run.state, (set id | id in run.unsettled), checkpoint, existing);
    }
  }

  /** Outside a running batch the queue is duplicate-free and holds exactly the set's ids, every
      queued id is tracked, every tracked post was seen in the latest poll or is queued, and the
      window holds at most 512 ids: for every run, restarts and interrupted batches included. */
  lemma {:induction false} RunInv(st: PollState, events: seq<Event>)
    requires Inv(st, {}) && LegalRun(st, events)
    ensures Inv(Final(st, events), {})
    decreases events
  {
    hide Inv, Next, Legal;
    if events != [] {
      StepInv(st, events[0]);
      RunInv(Next(st, events[0]), events[1..]);
    }
  }

  lemma ReachableInv(events: seq<Event>)
    requires LegalRun(FRESH, events)
    ensures Inv(Final(FRESH, events), {})
  {
    RunInv(FRESH, events);
  }
}
