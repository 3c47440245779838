/** Revision polling (src/bluesky/streaming.rs): the transition functions of one polling
    stream, and the class whose methods carry them out in place. */
module Polling {
  import opened Basics
  import opened Text
  import opened Sorting

  const MAX_TRACKED_REVISIONS := 512
  const RECONCILIATION_BUDGET := 4

  /** A post as polling sees it; `revision` is its fingerprint (a digest of all its fields). */
  datatype Status = Status(id: string, uri: string, revision: string)

  datatype RevisionEntry = RevisionEntry(fingerprint: string, lastSeenPoll: nat)
  type Revisions = map<string, RevisionEntry>

  datatype PersistedRevision = PersistedRevision(id: string, fingerprint: string)
  datatype PersistedCheckpoint = PersistedCheckpoint(
    revisions: seq<PersistedRevision>, reconciliationQueue: seq<string>)

  datatype PollState = PollState(
    revisions: Revisions, queue: seq<string>, members: set<string>, pollNumber: nat)

  const FRESH := PollState(map[], [], {}, 0)

  // ---- identities -------------------------------------------------------------------

  predicate IsReal(id: string) { "at://" <= id }

  /** The identity used for reconciliation. */
  function RealId(status: Status): Option<string> {
    if IsReal(status.id) then Some(status.id) else None
  }

  /** The identity under which a revision is tracked. */
  function RevisionId(status: Status): Option<string> {
    if Trim(status.id) != "" then Some(Trim(status.id))
    else if Trim(status.uri) != "" then Some(Trim(status.uri))
    else None
  }

  function CurrentIds(page: seq<Status>): set<string> {
    if page == [] then {}
    else (match RealId(page[0]) case Some(id) => {id} case None => {}) + CurrentIds(page[1..])
  }

  function PageIds(page: seq<Status>): set<string> {
    if page == [] then {}
    else (match RevisionId(page[0]) case Some(id) => {id} case None => {}) + PageIds(page[1..])
  }

  // ---- one poll ---------------------------------------------------------------------

  predicate IsChanged(revisions: Revisions, id: string, fingerprint: string) {
    id in revisions ==> revisions[id].fingerprint != fingerprint
  }

  /** The revision window after one post of a page. */
  function Track(revisions: Revisions, number: nat, status: Status): Revisions {
    match RevisionId(status)
    case None => revisions
    case Some(id) => revisions[id := RevisionEntry(status.revision, number)]
  }

  predicate IsNews(revisions: Revisions, status: Status) {
    match RevisionId(status)
    case None => false
    case Some(id) => IsChanged(revisions, id, status.revision)
  }

  function Absorb(revisions: Revisions, number: nat, page: seq<Status>): Revisions
    decreases page
  {
    if page == [] then revisions else Absorb(Track(revisions, number, page[0]), number, page[1..])
  }

  function Changed(revisions: Revisions, number: nat, page: seq<Status>): seq<Status>
    decreases page
  {
    if page == [] then []
    else (if IsNews(revisions, page[0]) then [page[0]] else [])
         + Changed(Track(revisions, number, page[0]), number, page[1..])
  }

  function Enqueue(st: PollState, ids: seq<string>): (next: PollState)
    ensures next.revisions == st.revisions && next.pollNumber == st.pollNumber
    decreases ids
  {
    if ids == [] then st
    else if ids[0] in st.members then Enqueue(st, ids[1..])
    else Enqueue(st.(queue := st.queue + [ids[0]], members := st.members + {ids[0]}), ids[1..])
  }

  function MissingSet(st: PollState, current: set<string>): set<string> {
    set id | id in st.revisions && IsReal(id)
             && st.revisions[id].lastSeenPoll == st.pollNumber && id !in current
  }

  /** The state after a page's reappearing ids left the queue and its missing ids joined it;
      `order` is the iteration order of the revision map. */
  function Requeued(st: PollState, page: seq<Status>, order: seq<string>): (next: PollState)
    ensures next.revisions == st.revisions && next.pollNumber == st.pollNumber + 1
  {
    var kept := st.members - CurrentIds(page);
    Enqueue(st.(queue := Keep(st.queue, kept), members := kept),
            Keep(order, MissingSet(st, CurrentIds(page)))).(pollNumber := st.pollNumber + 1)
  }

  function BeforePrune(st: PollState, page: seq<Status>, order: seq<string>): PollState {
    var next := Requeued(st, page, order);
    next.(revisions := Absorb(st.revisions, st.pollNumber + 1, page))
  }

  /** `mark_deleted`, for a whole set of ids. */
  function Forget(st: PollState, ids: set<string>): PollState {
    PollState(st.revisions - ids, Drop(st.queue, ids), st.members - ids, st.pollNumber)
  }

  /** Which sets of ids pruning may evict: just enough to fit the window, none of them seen
      later than a survivor. Ties fall either way. */
  ghost predicate Evictable(revisions: Revisions, victims: set<string>) {
    && victims <= revisions.Keys
    && |victims| == (if |revisions| <= MAX_TRACKED_REVISIONS then 0
                     else |revisions| - MAX_TRACKED_REVISIONS)
    && (forall v, s :: v in victims && s in revisions && s !in victims
          ==> revisions[v].lastSeenPoll <= revisions[s].lastSeenPoll)
  }

  function Observe(st: PollState, page: seq<Status>, order: seq<string>, victims: set<string>): PollState {
    Forget(BeforePrune(st, page, order), victims)
  }

  // ---- reconciliation ----------------------------------------------------------------

  /** What looking up one missing post returned. */
  datatype Outcome = Found(status: Status) | Gone | Deferred

  datatype StreamEvent = StatusUpdate(status: Status) | Delete(id: string)

  function BatchSize(st: PollState): nat {
    if |st.queue| < RECONCILIATION_BUDGET then |st.queue| else RECONCILIATION_BUDGET
  }

  function Batch(st: PollState): seq<string> { st.queue[..BatchSize(st)] }

  function Take(st: PollState): PollState {
    st.(queue := st.queue[BatchSize(st)..],
        members := st.members - (set id | id in st.queue[..BatchSize(st)]))
  }

  function Reconciled(st: PollState, status: Status): PollState {
    match RealId(status)
    case None => st
    case Some(id) =>
      st.(revisions := st.revisions[id := RevisionEntry(status.revision, st.pollNumber)])
  }

  function ReconciledChange(st: PollState, status: Status): Option<Status> {
    match RealId(status)
    case None => None
    case Some(id) => if IsChanged(st.revisions, id, status.revision) then Some(status) else None
  }

  function Settle(st: PollState, id: string, outcome: Outcome): PollState {
    match outcome
    case Found(status) => Reconciled(st, status)
    case Gone => Forget(st, {id})
    case Deferred => Enqueue(st, [id])
  }

  function Message(st: PollState, id: string, outcome: Outcome): Option<StreamEvent> {
    match outcome
    case Found(status) =>
      (match ReconciledChange(st, status)
       case Some(changed) => Some(StatusUpdate(changed))
       case None => None)
    case Gone => Some(Delete(id))
    case Deferred => None
  }

  datatype BatchRun = BatchRun(state: PollState, sent: seq<StreamEvent>, unsettled: seq<string>)

  /** Settles the ids of a batch in turn. The receiver takes `accepts` messages and then
      closes, which ends the batch at the next message. */
  function SettleAll(st: PollState, ids: seq<string>, outcomes: seq<Outcome>, accepts: nat): BatchRun
    requires |outcomes| == |ids|
    decreases ids
  {
    if ids == [] then BatchRun(st, [], [])
    else
      var next := Settle(st, ids[0], outcomes[0]);
      match Message(st, ids[0], outcomes[0])
      case None => SettleAll(next, ids[1..], outcomes[1..], accepts)
      case Some(message) =>
        if accepts == 0 then BatchRun(next, [], ids[1..])
        else
          var run := SettleAll(next, ids[1..], outcomes[1..], accepts - 1);
          run.(sent := [message] + run.sent)
  }

  function Reconcile(st: PollState, outcomes: seq<Outcome>, accepts: nat): BatchRun
    requires |outcomes| == BatchSize(st)
  {
    SettleAll(Take(st), Batch(st), outcomes, accepts)
  }

  // ---- checkpoints ---------------------------------------------------------------------

  function SavedIds(st: PollState): set<string> {
    set id | id in st.revisions
             && (st.revisions[id].lastSeenPoll == st.pollNumber || id in st.members)
  }

  predicate IdLeq(a: PersistedRevision, b: PersistedRevision) { StringLeq(a.id, b.id) }

  /** `cp` is the checkpoint of `st`: one row per saved id, rows in id order, queue as is. */
  ghost predicate IsCheckpoint(cp: PersistedCheckpoint, st: PollState) {
    && Lists(Rows(cp.revisions), SavedIds(st))
    && Sorted(IdLeq, cp.revisions)
    && (forall i :: 0 <= i < |cp.revisions|
          ==> cp.revisions[i].id in st.revisions
              && cp.revisions[i].fingerprint == st.revisions[cp.revisions[i].id].fingerprint)
    && cp.reconciliationQueue == st.queue
  }

  function Rows(revisions: seq<PersistedRevision>): (ids: seq<string>)
    ensures |ids| == |revisions|
    ensures forall i :: 0 <= i < |ids| ==> ids[i] == revisions[i].id
  {
    seq(|revisions|, i requires 0 <= i < |revisions| => revisions[i].id)
  }

  function LoadRevisions(rows: seq<PersistedRevision>): Revisions {
    if rows == [] then map[]
    else
      var row := rows[|rows| - 1];
      var before := LoadRevisions(rows[..|rows| - 1]);
      if Trim(row.id) == "" then before else before[row.id := RevisionEntry(row.fingerprint, 1)]
  }

  function LoadQueue(ids: seq<string>): seq<string> {
    if ids == [] then []
    else
      var id := ids[|ids| - 1];
      var before := LoadQueue(ids[..|ids| - 1]);
      if Trim(id) == "" || id in before then before else before + [id]
  }

  function Window<T>(s: seq<T>): seq<T> {
    if |s| <= MAX_TRACKED_REVISIONS then s else s[..MAX_TRACKED_REVISIONS]
  }

  function Restored(cp: PersistedCheckpoint): (st: PollState)
    ensures st.pollNumber == 1
  {
    var queue := LoadQueue(Window(cp.reconciliationQueue));
    PollState(LoadRevisions(Window(cp.revisions)), queue, set id | id in queue, 1)
  }

  // ---- the stateful poller ---------------------------------------------------------------

  class PollingRevisionState {
    var revisions: Revisions
    var reconciliationQueue: seq<string>
    var reconciliationSet: set<string>
    var pollNumber: nat

    ghost function State(): PollState
      reads this
    {
      PollState(revisions, reconciliationQueue, reconciliationSet, pollNumber)
    }

    constructor Default()
      ensures State() == FRESH
    {
      revisions, reconciliationQueue, reconciliationSet, pollNumber := map[], [], {}, 0;
    }

    constructor FromCheckpoint(checkpoint: PersistedCheckpoint)
      ensures State() == Restored(checkpoint)
    {
      var rows, queued := Window(checkpoint.revisions), Window(checkpoint.reconciliationQueue);
      var revisions: Revisions := map[];
      for i := 0 to |rows|
        invariant revisions == LoadRevisions(rows[..i])
      {
        assert rows[..i + 1][..i] == rows[..i];
        if Trim(rows[i].id) != "" {
          revisions := revisions[rows[i].id := RevisionEntry(rows[i].fingerprint, 1)];
        }
      }
      assert rows[..|rows|] == rows;
      var queue: seq<string>, members: set<string> := [], {};
      for i := 0 to |queued|
        invariant queue == LoadQueue(queued[..i]) && members == set id | id in queue
      {
        assert queued[..i + 1][..i] == queued[..i];
        if Trim(queued[i]) != "" && queued[i] !in members {
          members := members + {queued[i]};
          queue := queue + [queued[i]];
        }
      }
      assert queued[..|queued|] == queued;
      this.revisions, reconciliationQueue, reconciliationSet, pollNumber := revisions, queue, members, 1;
    }

    method Checkpoint() returns (checkpoint: PersistedCheckpoint)
      ensures IsCheckpoint(checkpoint, State())
    {
      ghost var st := State();
      var order := Iterate(revisions.Keys);
      var rows: seq<PersistedRevision> := [];
      for i := 0 to |order|
        invariant forall x :: x in Rows(rows) <==> x in order[..i] && x in SavedIds(st)
        invariant NoDup(Rows(rows))
        invariant forall k :: 0 <= k < |rows| ==>
            (rows[k].id in revisions && rows[k].fingerprint == revisions[rows[k].id].fingerprint)
      {
        var id := order[i];
        assert order[..i + 1] == order[..i] + [id];
        assert id in order;
        assert id !in Rows(rows);
        if revisions[id].lastSeenPoll == pollNumber || id in reconciliationSet {
          ghost var before := rows;
          rows := rows + [PersistedRevision(id, revisions[id].fingerprint)];
          assert Rows(rows) == Rows(before) + [id];
        }
      }
      assert order[..|order|] == order;
      checkpoint := PersistedCheckpoint(SortBy(IdLeq, rows), reconciliationQueue);
      SortedRows(rows, SavedIds(st));
      SortByMembers(IdLeq, rows);
      forall i | 0 <= i < |checkpoint.revisions|
        ensures checkpoint.revisions[i] in rows
      {
        assert checkpoint.revisions[i] in SortBy(IdLeq, rows);
      }
    }

    method QueueReconciliation(id: string)
      modifies this
      ensures State() == Enqueue(old(State()), [id])
    {
      if id !in reconciliationSet {
        reconciliationSet := reconciliationSet + {id};
        reconciliationQueue := reconciliationQueue + [id];
      }
    }

    method MarkDeleted(id: string)
      modifies this
      ensures State() == Forget(old(State()), {id})
    {
      revisions := revisions - {id};
      reconciliationSet := reconciliationSet - {id};
      reconciliationQueue := Drop(reconciliationQueue, {id});
    }

    method ObservePage(page: seq<Status>)
      returns (changed: seq<Status>, candidates: nat, ghost order: seq<string>, ghost victims: set<string>)
      modifies this
      ensures Lists(order, old(revisions).Keys)
      ensures Evictable(BeforePrune(old(State()), page, order).revisions, victims)
      ensures State() == Observe(old(State()), page, order, victims)
      ensures changed == Changed(old(revisions), old(pollNumber) + 1, page)
      ensures candidates == |reconciliationQueue|
    {
      hide Requeued, Absorb, Changed, Forget, Evictable;
      order := QueueMissing(page);
      changed := AbsorbPage(page);
      assert State() == BeforePrune(old(State()), page, order);
      victims := PruneRevisionWindow();
      candidates := |reconciliationQueue|;
    }

    method QueueMissing(page: seq<Status>) returns (ghost order: seq<string>)
      modifies this
      ensures Lists(order, old(revisions).Keys)
      ensures State() == Requeued(old(State()), page, order)
    {
      ghost var st := State();
      pollNumber := pollNumber + 1;
      var current := CurrentIds(page);
      reconciliationSet := reconciliationSet - current;
      reconciliationQueue := Keep(reconciliationQueue, reconciliationSet);

      var previousPoll := pollNumber - 1;
      var iterated := Iterate(revisions.Keys);
      order := iterated;
      var missing := Keep(iterated, set id | id in revisions && IsReal(id)
                                             && revisions[id].lastSeenPoll == previousPoll && id !in current);
      assert missing == Keep(iterated, MissingSet(st, current)) by {
        KeepAgree(iterated, MissingSet(st, current),
                  set id | id in revisions && IsReal(id)
                           && revisions[id].lastSeenPoll == previousPoll && id !in current);
      }
      QueueAll(missing);
      EnqueueNumber(st.(queue := Keep(st.queue, st.members - current), members := st.members - current),
                    missing, pollNumber);
    }

    method QueueAll(ids: seq<string>)
      modifies this
      ensures State() == Enqueue(old(State()), ids)
    {
      for i := 0 to |ids|
        invariant Enqueue(State(), ids[i..]) == Enqueue(old(State()), ids)
      {
        assert ids[i..][1..] == ids[i + 1..];
        QueueReconciliation(ids[i]);
      }
    }

    method AbsorbPage(page: seq<Status>) returns (changed: seq<Status>)
      modifies this
      ensures State() == old(State()).(revisions := Absorb(old(revisions), pollNumber, page))
      ensures changed == Changed(old(revisions), pollNumber, page)
    {
      hide Absorb, Changed;
      changed := [];
      PageStart(revisions, pollNumber);
      assert page[..0] == [];
      for i := 0 to |page|
        invariant State() == old(State()).(revisions := revisions)
        invariant revisions == Absorb(old(revisions), pollNumber, page[..i])
        invariant changed == Changed(old(revisions), pollNumber, page[..i])
      {
        PageNext(old(revisions), pollNumber, page[..i], page[i]);
        assert page[..i + 1] == page[..i] + [page[i]];
        if IsNews(revisions, page[i]) {
          changed := changed + [page[i]];
        }
        match RevisionId(page[i]) {
          case None =>
          case Some(id) => revisions := revisions[id := RevisionEntry(page[i].revision, pollNumber)];
        }
      }
      assert page[..|page|] == page;
    }

    method PruneRevisionWindow() returns (ghost victims: set<string>)
      modifies this
      ensures Evictable(old(revisions), victims)
      ensures State() == Forget(old(State()), victims)
    {
      ghost var st := State();
      victims := {};
      ForgetNothing(st);
      if |revisions| <= MAX_TRACKED_REVISIONS {
        return;
      }
      var order := Iterate(revisions.Keys);
      var candidates := CandidateIds(SortBy(SeenLeq, Candidates(revisions, order)));
      var removeCount := |revisions| - MAX_TRACKED_REVISIONS;
      SortedCandidates(revisions, order);
      VictimPrefix(revisions, SortBy(SeenLeq, Candidates(revisions, order)), removeCount);
      victims := MarkAllDeleted(candidates[..removeCount]);
    }

    method MarkAllDeleted(ids: seq<string>) returns (ghost gone: set<string>)
      modifies this
      ensures gone == set id | id in ids
      ensures State() == Forget(old(State()), gone)
    {
      gone := {};
      ForgetNothing(State());
      for i := 0 to |ids|
        invariant gone == set id | id in ids[..i]
        invariant State() == Forget(old(State()), gone)
      {
        assert ids[..i + 1] == ids[..i] + [ids[i]];
        MarkDeleted(ids[i]);
        ForgetTwice(old(State()), gone, {ids[i]});
        gone := gone + {ids[i]};
      }
      assert ids[..|ids|] == ids;
    }

    method ObserveReconciled(status: Status) returns (update: Option<Status>)
      modifies this
      ensures State() == Reconciled(old(State()), status)
      ensures update == ReconciledChange(old(State()), status)
    {
      match RealId(status) {
        case None => update := None;
        case Some(id) =>
          update := if IsChanged(revisions, id, status.revision) then Some(status) else None;
          revisions := revisions[id := RevisionEntry(status.revision, pollNumber)];
      }
    }

    method TakeReconciliationBatch() returns (ids: seq<string>)
      modifies this
      ensures ids == Batch(old(State()))
      ensures State() == Take(old(State()))
    {
      ghost var st := State();
      ids := [];
      while |ids| < RECONCILIATION_BUDGET && reconciliationQueue != []
        invariant |ids| <= BatchSize(st)
        invariant ids == st.queue[..|ids|] && reconciliationQueue == st.queue[|ids|..]
        invariant reconciliationSet == st.members - (set id | id in ids)
        invariant revisions == st.revisions && pollNumber == st.pollNumber
        decreases |reconciliationQueue|
      {
        var id := reconciliationQueue[0];
        reconciliationQueue := reconciliationQueue[1..];
        reconciliationSet := reconciliationSet - {id};
        ids := ids + [id];
      }
    }

    method SettleOne(id: string, outcome: Outcome) returns (message: Option<StreamEvent>)
      modifies this
      ensures State() == Settle(old(State()), id, outcome)
      ensures message == Message(old(State()), id, outcome)
    {
      message := None;
      match outcome {
        case Found(status) =>
          var update := ObserveReconciled(status);
          if update.Some? {
            message := Some(StatusUpdate(update.value));
          }
        case Gone =>
          MarkDeleted(id);
          message := Some(Delete(id));
        case Deferred =>
          QueueReconciliation(id);
      }
    }

    /** `accepts` counts the messages the receiver takes before it closes. */
    method ReconcileMissing(lookup: string -> Outcome, accepts: nat)
      returns (sent: seq<StreamEvent>, ghost unsettled: seq<string>)
      modifies this
      ensures BatchRun(State(), sent, unsettled)
              == Reconcile(old(State()), Lookups(lookup, Batch(old(State()))), accepts)
    {
      hide SettleAll, Settle, Message, Take;
      var ids := TakeReconciliationBatch();
      ghost var outcomes := Lookups(lookup, ids);
      ghost var whole := SettleAll(State(), ids, outcomes, accepts);
      sent := [];
      unsettled := [];
      assert ids[0..] == ids && outcomes[0..] == outcomes;
      for i := 0 to |ids|
        invariant |sent| <= accepts
        invariant var rest := SettleAll(State(), ids[i..], outcomes[i..], accepts - |sent|);
                  whole == rest.(sent := sent + rest.sent)
      {
        assert ids[i..][1..] == ids[i + 1..] && outcomes[i..][1..] == outcomes[i + 1..];
        SettleFirst(State(), ids[i..], outcomes[i..], accepts - |sent|);
        var message := SettleOne(ids[i], lookup(ids[i]));
        if message.Some? {
          if |sent| == accepts {
            unsettled := ids[i + 1..];
            return;
          }
          sent := sent + [message.value];
        }
      }
      SettleNone(State(), accepts - |sent|);
    }
  }

  lemma SettleNone(st: PollState, accepts: nat)
    ensures SettleAll(st, [], [], accepts) == BatchRun(st, [], [])
  {
  }

  function Lookups(lookup: string -> Outcome, ids: seq<string>): (outcomes: seq<Outcome>)
    ensures |outcomes| == |ids|
    ensures forall i :: 0 <= i < |ids| ==> outcomes[i] == lookup(ids[i])
  {
    seq(|ids|, i requires 0 <= i < |ids| => lookup(ids[i]))
  }

  datatype Candidate = Candidate(id: string, lastSeen: nat)

  predicate SeenLeq(a: Candidate, b: Candidate) { a.lastSeen <= b.lastSeen }

  function Candidates(revisions: Revisions, order: seq<string>): (r: seq<Candidate>)
    requires forall id :: id in order ==> id in revisions
    ensures |r| == |order|
    ensures forall i :: 0 <= i < |r| ==> r[i] == Candidate(order[i], revisions[order[i]].lastSeenPoll)
  {
    seq(|order|, i requires 0 <= i < |order| => Candidate(order[i], revisions[order[i]].lastSeenPoll))
  }

  function CandidateIds(candidates: seq<Candidate>): (ids: seq<string>)
    ensures |ids| == |candidates|
    ensures forall i :: 0 <= i < |ids| ==> ids[i] == candidates[i].id
  {
    seq(|candidates|, i requires 0 <= i < |candidates| => candidates[i].id)
  }

  lemma {:induction false} EnqueueNumber(st: PollState, ids: seq<string>, number: nat)
    ensures Enqueue(st.(pollNumber := number), ids) == Enqueue(st, ids).(pollNumber := number)
    decreases ids
  {
    if ids != [] {
      var next := st.(queue := st.queue + [ids[0]], members := st.members + {ids[0]});
      EnqueueNumber(if ids[0] in st.members then st else next, ids[1..], number);
    }
  }

  lemma PageStart(revisions: Revisions, number: nat)
    ensures Absorb(revisions, number, []) == revisions && Changed(revisions, number, []) == []
  {
  }

  lemma {:induction false} PageNext(revisions: Revisions, number: nat, page: seq<Status>, last: Status)
    ensures Absorb(revisions, number, page + [last]) == Track(Absorb(revisions, number, page), number, last)
    ensures Changed(revisions, number, page + [last]) == Changed(revisions, number, page)
              + (if IsNews(Absorb(revisions, number, page), last) then [last] else [])
    decreases page
  {
    hide Track, IsNews;
    if page == [] {
      assert page + [last] == [last];
      PageStart(Track(revisions, number, last), number);
    } else {
      var next := Track(revisions, number, page[0]);
      assert (page + [last])[1..] == page[1..] + [last];
      PageNext(next, number, page[1..], last);
      assert Absorb(revisions, number, page) == Absorb(next, number, page[1..]);
      ConcatAssociative(if IsNews(revisions, page[0]) then [page[0]] else [],
                        Changed(next, number, page[1..]),
                        if IsNews(Absorb(revisions, number, page), last) then [last] else []);
    }
  }

  lemma SettleFirst(st: PollState, ids: seq<string>, outcomes: seq<Outcome>, accepts: nat)
    requires |outcomes| == |ids| > 0
    ensures var next := Settle(st, ids[0], outcomes[0]);
            SettleAll(st, ids, outcomes, accepts) ==
            match Message(st, ids[0], outcomes[0])
            case None => SettleAll(next, ids[1..], outcomes[1..], accepts)
            case Some(message) =>
              if accepts == 0 then BatchRun(next, [], ids[1..])
              else
                var run := SettleAll(next, ids[1..], outcomes[1..], accepts - 1);
                run.(sent := [message] + run.sent)
  {
  }

  lemma ForgetNothing(st: PollState)
    ensures Forget(st, {}) == st
  {
    KeepAll(st.queue, (set x | x in st.queue) - {});
  }

  lemma ForgetTwice(st: PollState, a: set<string>, b: set<string>)
    ensures Forget(Forget(st, a), b) == Forget(st, a + b)
  {
    DropDrop(st.queue, a, b);
  }

  lemma SortedCandidates(revisions: Revisions, order: seq<string>)
    requires Lists(order, revisions.Keys)
    ensures var r := SortBy(SeenLeq, Candidates(revisions, order));
            && Sorted(SeenLeq, r)
            && Lists(CandidateIds(r), revisions.Keys)
            && forall i :: 0 <= i < |r| ==> r[i].id in revisions
                                            && r[i].lastSeen == revisions[r[i].id].lastSeenPoll
  {
    var all := Candidates(revisions, order);
    var r := SortBy(SeenLeq, all);
    SortBySorts(SeenLeq, all);
    SortByMembers(SeenLeq, all);
    SortByDistinct(SeenLeq, all);
    forall i | 0 <= i < |r|
      ensures r[i].id in revisions && r[i] == Candidate(r[i].id, revisions[r[i].id].lastSeenPoll)
    {
      assert r[i] in all;
    }
    forall id | id in revisions ensures id in CandidateIds(r) {
      var k :| 0 <= k < |order| && order[k] == id;
      assert all[k] in r;
      var i :| 0 <= i < |r| && r[i] == all[k];
      assert CandidateIds(r)[i] == id;
    }
  }

  /** The first `count` ids in order of last sighting are a legal choice of victims. */
  lemma VictimPrefix(revisions: Revisions, r: seq<Candidate>, count: nat)
    requires Sorted(SeenLeq, r) && Lists(CandidateIds(r), revisions.Keys)
    requires forall i :: 0 <= i < |r| ==> r[i].id in revisions
                                          && r[i].lastSeen == revisions[r[i].id].lastSeenPoll
    requires |revisions| == MAX_TRACKED_REVISIONS + count
    ensures |r| == |revisions|
    ensures Evictable(revisions, set v | v in CandidateIds(r)[..count])
  {
    var ids := CandidateIds(r);
    ListedLength(ids, revisions.Keys);
    var victims := set v | v in ids[..count];
    ListedLength(ids[..count], victims);
    forall v, s | v in victims && s in revisions && s !in victims
      ensures revisions[v].lastSeenPoll <= revisions[s].lastSeenPoll
    {
      var i :| 0 <= i < count && ids[i] == v;
      var j :| 0 <= j < |ids| && ids[j] == s;
      assert ids[..count] <= ids && s !in ids[..count];
      assert SeenLeq(r[i], r[j]);
    }
  }

  lemma IdLeqIsOrder()
    ensures TotalPreorder(IdLeq)
  {
    forall x: PersistedRevision, y: PersistedRevision
      ensures IdLeq(x, y) || IdLeq(y, x)
    {
      StringLeqTotal(x.id, y.id);
    }
    forall x: PersistedRevision, y: PersistedRevision, z: PersistedRevision | IdLeq(x, y) && IdLeq(y, z)
      ensures IdLeq(x, z)
    {
      StringLeqTransitive(x.id, y.id, z.id);
    }
  }

  lemma SortedRows(rows: seq<PersistedRevision>, ids: set<string>)
    requires Lists(Rows(rows), ids)
    ensures Lists(Rows(SortBy(IdLeq, rows)), ids)
    ensures Sorted(IdLeq, SortBy(IdLeq, rows)) && TotalPreorder(IdLeq)
  {
    IdLeqIsOrder();
    SortBySorts(IdLeq, rows);
    SortByMembers(IdLeq, rows);
    var sorted := SortBy(IdLeq, rows);
    SortByDistinct(IdLeq, rows);
    forall i, j | 0 <= i < j < |sorted| ensures sorted[i].id != sorted[j].id {
      assert sorted[i] in rows && sorted[j] in rows;
    }
    forall id ensures id in Rows(sorted) <==> id in ids {
      if id in Rows(sorted) {
        var i :| 0 <= i < |sorted| && sorted[i].id == id;
        assert sorted[i] in rows;
        var k :| 0 <= k < |rows| && rows[k] == sorted[i];
        assert Rows(rows)[k] == id;
      }
      if id in ids {
        assert id in Rows(rows);
        var k :| 0 <= k < |rows| && rows[k].id == id;
        assert rows[k] in sorted;
        var i :| 0 <= i < |sorted| && sorted[i] == rows[k];
        assert Rows(sorted)[i] == id;
      }
    }
  }
}
