/** What a lookup answered under another id does to the post that was asked for. */
module PollingAnswers {
  import opened Basics
  import opened Text
  import opened Polling
  import opened PollingInvariant
  import opened PollingWindow
  import opened PollingCases

  /** Nothing will ask for `id`: it is not queued, and if tracked it was missed before the latest poll. */
  ghost predicate Unasked(st: PollState, id: string) {
    && QueueMatches(st) && id !in st.members
    && (id in st.revisions ==> st.revisions[id].lastSeenPoll < st.pollNumber)
  }

  /** A missed post is looked up, and the answer is about another one: the missed post stays
      tracked although nothing asks for it any more. */
  lemma WrongAnswerLosesPost(status: Status, other: Status, accepts: nat)
    requires IsReal(status.id) && Clean(status.id) && IsReal(other.id) && other.id != status.id
    ensures var run := SeenThenMissed(status, status.id);
            LegalRun(FRESH, run) && Batch(Final(FRESH, run)) == [status.id]
    ensures var next := Reconcile(Final(FRESH, SeenThenMissed(status, status.id)), [Found(other)], accepts).state;
            status.id in next.revisions && Unasked(next, status.id) && !Inv(next, {})
  {
    assert RevisionId(status) == Some(status.id);
    hide RevisionId, Clean, SeenThenMissed, Final, LegalRun, IsReal, Reconcile, Unasked, Inv;
    MissedOnce(status, status.id);
    AnsweredWrongly(status.id, status.revision, other, accepts);
  }

  lemma AnsweredWrongly(id: string, fingerprint: string, other: Status, accepts: nat)
    requires IsReal(id) && IsReal(other.id) && other.id != id
    ensures Batch(Missed(id, fingerprint)) == [id]
    ensures var next := Reconcile(Missed(id, fingerprint), [Found(other)], accepts).state;
            id in next.revisions && Unasked(next, id) && !Inv(next, {})
  {
    var st, taken := Missed(id, fingerprint), PollState(Once(id, fingerprint), [], {}, 2);
    assert Batch(st) == [id] && Take(st) == taken;
    hide IsReal, Inv;
    SettleFirst(taken, [id], [Found(other)], accepts);
    var next := Reconcile(st, [Found(other)], accepts).state;
    assert next == Reconciled(taken, other) by {
      assert [id][1..] == [] && [Found(other)][1..] == [];
      assert Settle(taken, id, Found(other)) == Reconciled(taken, other);
      SettleNone(Reconciled(taken, other), accepts);
      SettleNone(Reconciled(taken, other), if accepts > 0 then accepts - 1 else 0);
    }
    assert RealId(other) == Some(other.id);
    UnaskedBreaksInv(next, id);
  }

  lemma UnaskedBreaksInv(st: PollState, id: string)
    requires Unasked(st, id) && id in st.revisions && IsReal(id)
    ensures !Inv(st, {})
  {
  }

  lemma PollKeepsUnasked(st: PollState, page: seq<Status>, order: seq<string>, victims: set<string>, id: string)
    requires Unasked(st, id) && Lists(order, st.revisions.Keys) && id !in PageIds(page)
    ensures Unasked(Observe(st, page, order, victims), id)
  {
    hide Absorb, PageIds, LastRevision, Keep, Lists;
    RequeuedResult(st, page, order);
    AbsorbResult(st.revisions, st.pollNumber + 1, page);
    var before := BeforePrune(st, page, order);
    assert before.members == Requeued(st, page, order).members && before.queue == Requeued(st, page, order).queue;
    assert id !in before.members;
    hide Requeued, BeforePrune;
    ForgetResult(before, victims);
  }

  lemma SettleKeepsUnasked(st: PollState, asked: string, outcome: Outcome, id: string)
    requires Unasked(st, id) && asked != id && Answers(outcome, asked)
    ensures Unasked(Settle(st, asked, outcome), id)
  {
    hide Lists, Drop;
    match outcome {
      case Found(_) =>
      case Gone => ForgetResult(st, {asked});
      case Deferred => EnqueueResult(st, [asked]);
    }
  }

  lemma {:induction false} BatchKeepsUnasked(
    st: PollState, ids: seq<string>, outcomes: seq<Outcome>, accepts: nat, id: string)
    requires Unasked(st, id) && |outcomes| == |ids| && id !in ids
    requires forall i :: 0 <= i < |ids| ==> Answers(outcomes[i], ids[i])
    ensures Unasked(SettleAll(st, ids, outcomes, accepts).state, id)
    decreases ids
  {
    if ids != [] {
      hide Unasked, Settle, Message, Answers;
      SettleKeepsUnasked(st, ids[0], outcomes[0], id);
      SettleFirst(st, ids, outcomes, accepts);
      var next := Settle(st, ids[0], outcomes[0]);
      assert id !in ids[1..];
      if Message(st, ids[0], outcomes[0]).None? {
        BatchKeepsUnasked(next, ids[1..], outcomes[1..], accepts, id);
      } else if accepts > 0 {
        BatchKeepsUnasked(next, ids[1..], outcomes[1..], accepts - 1, id);
      }
    }
  }

  lemma ReconcileKeepsUnasked(st: PollState, outcomes: seq<Outcome>, accepts: nat, id: string)
    requires Unasked(st, id) && LegalOutcomes(st, outcomes)
    ensures Unasked(Reconcile(st, outcomes, accepts).state, id)
  {
    TakeQueue(st);
    assert id !in st.queue;
    hide SettleAll, Lists, Answers;
    assert Unasked(Take(st), id);
    BatchKeepsUnasked(Take(st), Batch(st), outcomes, accepts, id);
  }

  lemma {:induction false} LoadedQueue(ids: seq<string>)
    ensures NoDup(LoadQueue(ids)) && forall id :: id in LoadQueue(ids) ==> id in ids
  {
    hide Trim;
    if ids != [] {
      LoadedQueue(ids[..|ids| - 1]);
    }
  }

  lemma {:induction false} LoadedRows(rows: seq<PersistedRevision>)
    ensures forall id :: id in LoadRevisions(rows) ==> Names(rows, id)
  {
    hide Trim, Names;
    if rows != [] {
      var before, last := rows[..|rows| - 1], rows[|rows| - 1];
      LoadedRows(before);
      assert rows == before + [last];
      forall id | id in LoadRevisions(rows) ensures Names(rows, id) {
        NamesNext(before, last, id);
      }
    }
  }

  lemma {:induction false} KeptRowNames(rows: seq<PersistedRevision>, existing: set<string>, id: string)
    requires !Names(rows, id)
    ensures !Names(KeepRows(rows, existing), id)
  {
    hide Names;
    if rows == [] {
      assert KeepRows(rows, existing) == rows;
    } else {
      var before, last := rows[..|rows| - 1], rows[|rows| - 1];
      assert rows == before + [last];
      NamesNext(before, last, id);
      KeptRowNames(before, existing, id);
      NamesNext(KeepRows(before, existing), last, id);
      assert KeepRows(before, existing) + [] == KeepRows(before, existing);
    }
  }

  lemma WindowNames(rows: seq<PersistedRevision>, id: string)
    ensures Names(Window(rows), id) ==> Names(rows, id)
  {
    if Names(Window(rows), id) {
      var i :| 0 <= i < |Window(rows)| && Window(rows)[i].id == id;
      assert rows[i].id == id;
    }
  }

  lemma NamedIsSaved(st: PollState, cp: PersistedCheckpoint, id: string)
    requires IsCheckpoint(cp, st)
    ensures Names(cp.revisions, id) ==> id in SavedIds(st)
  {
    if Names(cp.revisions, id) {
      var i :| 0 <= i < |cp.revisions| && cp.revisions[i].id == id;
      assert Rows(cp.revisions)[i] in Rows(cp.revisions);
    }
  }

  lemma RestartKeepsUnasked(st: PollState, cp: PersistedCheckpoint, existing: set<string>, id: string)
    requires Unasked(st, id) && IsCheckpoint(cp, st)
    ensures Unasked(Restored(Validated(cp, existing)), id)
  {
    NamedIsSaved(st, cp, id);
    assert id !in cp.reconciliationQueue && !Names(cp.revisions, id);
    var rows, queue := KeepRows(cp.revisions, existing), Keep(cp.reconciliationQueue, existing);
    hide Names, LoadQueue, LoadRevisions, KeepRows, Keep, IsCheckpoint;
    KeptRowNames(cp.revisions, existing, id);
    WindowNames(rows, id);
    LoadedRows(Window(rows));
    LoadedQueue(Window(queue));
    assert forall x :: x in Window(queue) ==> x in queue;
  }

  lemma StepKeepsUnasked(st: PollState, e: Event, id: string)
    requires Unasked(st, id) && Legal(st, e) && (e.Poll? ==> id !in PageIds(e.page))
    ensures Unasked(Next(st, e), id)
  {
    hide Unasked, Observe, Reconcile, Restored, Validated, IsCheckpoint, Evictable, LegalOutcomes, Lists;
    match e {
      case Poll(page, order, victims) => PollKeepsUnasked(st, page, order, victims, id);
      case Settled(outcomes, accepts) => SameCount(st, outcomes); ReconcileKeepsUnasked(st, outcomes, accepts, id);
      case Restart(cp, existing) => RestartKeepsUnasked(st, cp, existing, id);
      case CutShort(outcomes, accepts, cp, existing) =>
        SameCount(st, outcomes);
        ReconcileKeepsUnasked(st, outcomes, accepts, id);
        RestartKeepsUnasked(Reconcile(st, outcomes, accepts).state, cp, existing, id);
    }
  }

  lemma SameCount(st: PollState, outcomes: seq<Outcome>)
    requires LegalOutcomes(st, outcomes)
    ensures |outcomes| == BatchSize(st)
  {
  }

  /** Such a post is never asked for again until a page shows it, whatever polls, batches and
      restarts follow, even if every later lookup answers properly. */
  lemma {:induction false} NeverAskedAgain(st: PollState, events: seq<Event>, id: string)
    requires Unasked(st, id) && LegalRun(st, events)
    requires forall i :: 0 <= i < |events| && events[i].Poll? ==> id !in PageIds(events[i].page)
    ensures Unasked(Final(st, events), id) && id !in Batch(Final(st, events))
    decreases events
  {
    if events == [] {
      assert id !in st.queue;
    } else {
      hide Unasked, Legal, Next, PageIds;
      StepKeepsUnasked(st, events[0], id);
      NeverAskedAgain(Next(st, events[0]), events[1..], id);
    }
  }

  // ---- what any answers keep ---------------------------------------------------------------------------

  /** The part of the invariant that does not depend on what lookups answer. */
  ghost predicate QueueInv(st: PollState) {
    && QueueMatches(st)
    && (forall id :: id in st.queue ==> IsReal(id))
    && (forall id :: id in st.revisions ==> st.revisions[id].lastSeenPoll <= st.pollNumber)
  }

  /** As `Legal`, with lookups answering about any post. */
  ghost predicate Possible(st: PollState, e: Event) {
    match e
    case Poll(page, order, victims) =>
      && Lists(order, st.revisions.Keys)
      && Evictable(BeforePrune(st, page, order).revisions, victims)
    case Settled(outcomes, accepts) => |outcomes| == BatchSize(st)
    case Restart(checkpoint, _) => IsCheckpoint(checkpoint, st)
    case CutShort(outcomes, accepts, checkpoint, _) =>
      |outcomes| == BatchSize(st) && IsCheckpoint(checkpoint, Reconcile(st, outcomes, accepts).state)
  }

  ghost predicate PossibleRun(st: PollState, events: seq<Event>)
    decreases events
  {
    events == [] || (Possible(st, events[0]) && PossibleRun(Next(st, events[0]), events[1..]))
  }

  lemma PageKeepsQueue(st: PollState, page: seq<Status>, order: seq<string>)
    requires QueueInv(st) && Lists(order, st.revisions.Keys)
    ensures QueueInv(BeforePrune(st, page, order))
  {
    hide Absorb, PageIds, LastRevision, Keep, Lists, IsReal, CurrentIds;
    RequeuedResult(st, page, order);
    QueuedMembers(st);
    QueuedMembers(Requeued(st, page, order));
    AbsorbResult(st.revisions, st.pollNumber + 1, page);
    hide Requeued;
    assert BeforePrune(st, page, order).revisions == Absorb(st.revisions, st.pollNumber + 1, page);
  }

  lemma ForgetKeepsQueue(st: PollState, ids: set<string>)
    requires QueueInv(st)
    ensures QueueInv(Forget(st, ids))
  {
    hide Keep, Lists, IsReal;
    ForgetResult(st, ids);
  }

  lemma PollKeepsQueue(st: PollState, page: seq<Status>, order: seq<string>, victims: set<string>)
    requires QueueInv(st) && Lists(order, st.revisions.Keys)
    requires Evictable(BeforePrune(st, page, order).revisions, victims)
    ensures QueueInv(Observe(st, page, order, victims))
    ensures |Observe(st, page, order, victims).revisions| <= MAX_TRACKED_REVISIONS
  {
    hide BeforePrune, Evictable, QueueInv, Lists, Drop;
    PageKeepsQueue(st, page, order);
    ForgetKeepsQueue(BeforePrune(st, page, order), victims);
    PruneFits(BeforePrune(st, page, order).revisions, victims);
  }

  lemma QueuedMembers(st: PollState)
    requires QueueMatches(st)
    ensures forall id :: id in st.queue <==> id in st.members
  {
  }

  lemma SettleKeepsQueue(st: PollState, asked: string, outcome: Outcome)
    requires QueueInv(st) && IsReal(asked)
    ensures QueueInv(Settle(st, asked, outcome))
  {
    hide Lists, Drop, IsReal;
    match outcome {
      case Found(_) =>
      case Gone => ForgetResult(st, {asked});
      case Deferred =>
        EnqueueResult(st, [asked]);
        QueuedMembers(st);
        QueuedMembers(Enqueue(st, [asked]));
    }
  }

  lemma {:induction false} BatchKeepsQueue(st: PollState, ids: seq<string>, outcomes: seq<Outcome>, accepts: nat)
    requires QueueInv(st) && |outcomes| == |ids| && forall i :: 0 <= i < |ids| ==> IsReal(ids[i])
    ensures QueueInv(SettleAll(st, ids, outcomes, accepts).state)
    decreases ids
  {
    if ids != [] {
      hide QueueInv, Settle, Message, IsReal;
      SettleKeepsQueue(st, ids[0], outcomes[0]);
      SettleFirst(st, ids, outcomes, accepts);
      var next := Settle(st, ids[0], outcomes[0]);
      if Message(st, ids[0], outcomes[0]).None? {
        BatchKeepsQueue(next, ids[1..], outcomes[1..], accepts);
      } else if accepts > 0 {
        BatchKeepsQueue(next, ids[1..], outcomes[1..], accepts - 1);
      }
    }
  }

  lemma ReconcileKeepsQueue(st: PollState, outcomes: seq<Outcome>, accepts: nat)
    requires QueueInv(st) && |outcomes| == BatchSize(st)
    ensures QueueInv(Reconcile(st, outcomes, accepts).state)
  {
    TakeQueue(st);
    hide SettleAll, Lists, IsReal;
    forall id | id in Take(st).queue ensures id in st.queue {}
    BatchKeepsQueue(Take(st), Batch(st), outcomes, accepts);
  }

  lemma {:induction false} LoadedDates(rows: seq<PersistedRevision>)
    ensures forall id :: id in LoadRevisions(rows) ==> LoadRevisions(rows)[id].lastSeenPoll == 1
  {
    hide Trim;
    if rows != [] {
      LoadedDates(rows[..|rows| - 1]);
    }
  }

  lemma RestartKeepsQueue(st: PollState, cp: PersistedCheckpoint, existing: set<string>)
    requires QueueInv(st) && IsCheckpoint(cp, st)
    ensures QueueInv(Restored(Validated(cp, existing)))
  {
    var rows, queue := KeepRows(cp.revisions, existing), Keep(cp.reconciliationQueue, existing);
    assert cp.reconciliationQueue == st.queue;
    hide LoadQueue, LoadRevisions, KeepRows, Keep, IsCheckpoint, IsReal;
    LoadedDates(Window(rows));
    LoadedQueue(Window(queue));
    assert forall x :: x in Window(queue) ==> x in queue;
  }

  lemma StepKeepsQueue(st: PollState, e: Event)
    requires QueueInv(st) && Possible(st, e)
    ensures QueueInv(Next(st, e))
    ensures e.Poll? ==> |Next(st, e).revisions| <= MAX_TRACKED_REVISIONS
  {
    hide QueueInv, Observe, Reconcile, Restored, Validated, IsCheckpoint, Evictable, Lists;
    match e {
      case Poll(page, order, victims) => PollKeepsQueue(st, page, order, victims);
      case Settled(outcomes, accepts) => ReconcileKeepsQueue(st, outcomes, accepts);
      case Restart(cp, existing) => RestartKeepsQueue(st, cp, existing);
      case CutShort(outcomes, accepts, cp, existing) =>
        ReconcileKeepsQueue(st, outcomes, accepts);
        RestartKeepsQueue(Reconcile(st, outcomes, accepts).state, cp, existing);
    }
  }

  lemma {:induction false} RunKeepsQueue(st: PollState, events: seq<Event>)
    requires QueueInv(st) && PossibleRun(st, events)
    ensures QueueInv(Final(st, events))
    decreases events
  {
    hide QueueInv, Possible, Next;
    if events != [] {
      StepKeepsQueue(st, events[0]);
      RunKeepsQueue(Next(st, events[0]), events[1..]);
    }
  }

  /** Whatever posts lookups answer about, in every run with restarts and interrupted batches the
      queue stays duplicate-free, holds exactly the set's ids and only real ones, and no id is
      dated later than the latest poll. */
  lemma QueueSurvivesAnyAnswer(events: seq<Event>)
    requires PossibleRun(FRESH, events)
    ensures QueueInv(Final(FRESH, events))
  {
    RunKeepsQueue(FRESH, events);
  }
}
