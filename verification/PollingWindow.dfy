/** What pruning may forget, and how long a queued id may wait. */
module PollingWindow {
  import opened Basics
  import opened Text
  import opened Polling
  import opened PollingInvariant

  // ---- the current page is never forgotten --------------------------------------------------

  predicate SamePost(a: Status, b: Status) { RevisionId(a).Some? && RevisionId(a) == RevisionId(b) }

  /** A page shows every post with one revision only. */
  ghost predicate Coherent(page: seq<Status>) {
    forall i, j :: 0 <= i < |page| && 0 <= j < |page| && SamePost(page[i], page[j])
      ==> page[i].revision == page[j].revision
  }

  lemma EvictedSet(revisions: Revisions, victims: set<string>)
    requires Evictable(revisions, victims) && victims != {}
    ensures |(revisions - victims).Keys| == MAX_TRACKED_REVISIONS
  {
    assert revisions.Keys == (revisions - victims).Keys + victims;
    assert (revisions - victims).Keys !! victims;
  }

  /** Pruning takes nothing from a set of at most 512 ids that were all seen after the others. */
  lemma LatestSurvive(revisions: Revisions, latest: set<string>, number: nat, victims: set<string>)
    requires Evictable(revisions, victims)
    requires latest <= revisions.Keys && |latest| <= MAX_TRACKED_REVISIONS
    requires forall id :: id in latest ==> revisions[id].lastSeenPoll == number
    requires forall id :: id in revisions && id !in latest ==> revisions[id].lastSeenPoll < number
    ensures latest !! victims
  {
    if v :| v in latest && v in victims {
      var survivors := (revisions - victims).Keys;
      EvictedSet(revisions, victims);
      forall s | s in survivors ensures s in latest - {v} {
        assert revisions[v].lastSeenPoll <= revisions[s].lastSeenPoll;
      }
      SubsetSize(survivors, latest - {v});
    }
  }

  /** After a page of at most 512 distinct ids every id of the page is tracked with the revision
      it came with last, and nothing evicted was seen later than anything kept. */
  lemma CurrentPageSurvives(st: PollState, page: seq<Status>, order: seq<string>, victims: set<string>)
    requires forall id :: id in st.revisions ==> st.revisions[id].lastSeenPoll <= st.pollNumber
    requires |PageIds(page)| <= MAX_TRACKED_REVISIONS
    requires Evictable(BeforePrune(st, page, order).revisions, victims)
    ensures var before, next := BeforePrune(st, page, order), Observe(st, page, order, victims);
            && (forall id :: id in PageIds(page) ==>
                  id in next.revisions
                  && next.revisions[id] == RevisionEntry(LastRevision(page, id), st.pollNumber + 1))
            && next.revisions.Keys == before.revisions.Keys - victims
            && (forall v, s :: v in victims && s in next.revisions
                  ==> before.revisions[v].lastSeenPoll <= next.revisions[s].lastSeenPoll)
            && |next.revisions| <= MAX_TRACKED_REVISIONS
  {
    hide Absorb, Requeued, PageIds, LastRevision, Drop;
    var before := BeforePrune(st, page, order).revisions;
    assert before == Absorb(st.revisions, st.pollNumber + 1, page);
    AbsorbResult(st.revisions, st.pollNumber + 1, page);
    hide BeforePrune;
    LatestSurvive(before, PageIds(page), st.pollNumber + 1, victims);
    PruneFits(before, victims);
  }

  /** Exactly the pages whose every post is tracked with the revision shown report no change. */
  lemma {:induction false} QuietPage(revisions: Revisions, number: nat, page: seq<Status>)
    ensures Changed(revisions, number, page) == []
        <==> forall i :: 0 <= i < |page| ==> !IsNews(revisions, page[i])
    decreases page
  {
    if page != [] {
      var next := Track(revisions, number, page[0]);
      QuietPage(next, number, page[1..]);
      if !IsNews(revisions, page[0]) {
        forall i | 1 <= i < |page| ensures IsNews(revisions, page[i]) <==> IsNews(next, page[1..][i - 1]) {}
        assert forall i :: 1 <= i < |page| ==> page[i] == page[1..][i - 1];
        assert forall i :: 0 <= i < |page[1..]| ==> page[1..][i] == page[i + 1];
      }
    }
  }

  lemma {:induction false} LastRevisionOccurs(page: seq<Status>, id: string) returns (i: nat)
    requires id in PageIds(page)
    ensures i < |page| && RevisionId(page[i]) == Some(id) && page[i].revision == LastRevision(page, id)
  {
    hide RevisionId;
    if id in PageIds(page[1..]) {
      var j := LastRevisionOccurs(page[1..], id);
      i := j + 1;
      assert page[i] == page[1..][j];
    } else {
      i := 0;
    }
  }

  lemma {:induction false} PageIdsOccur(page: seq<Status>, i: nat)
    requires i < |page| && RevisionId(page[i]).Some?
    ensures RevisionId(page[i]).value in PageIds(page)
  {
    if i > 0 {
      PageIdsOccur(page[1..], i - 1);
    }
  }

  /** Observing the same page again reports no change if and only if the page never shows one
      post with two different revisions. */
  lemma SecondLook(st: PollState, page: seq<Status>, order: seq<string>, victims: set<string>)
    requires forall id :: id in st.revisions ==> st.revisions[id].lastSeenPoll <= st.pollNumber
    requires |PageIds(page)| <= MAX_TRACKED_REVISIONS
    requires Evictable(BeforePrune(st, page, order).revisions, victims)
    ensures var next := Observe(st, page, order, victims);
            Changed(next.revisions, next.pollNumber + 1, page) == [] <==> Coherent(page)
  {
    var next := Observe(st, page, order, victims);
    CurrentPageSurvives(st, page, order, victims);
    QuietPage(next.revisions, next.pollNumber + 1, page);
    hide Observe, BeforePrune, PageIds, LastRevision, Changed, Evictable, RevisionId;
    forall i | 0 <= i < |page| && RevisionId(page[i]).Some?
      ensures RevisionId(page[i]).value in PageIds(page)
    {
      PageIdsOccur(page, i);
    }
    if Coherent(page) {
      forall i | 0 <= i < |page| ensures !IsNews(next.revisions, page[i]) {
        match RevisionId(page[i]) {
          case None =>
          case Some(id) =>
            var j := LastRevisionOccurs(page, id);
        }
      }
    }
  }

  function TwoRevisions(): seq<Status> {
    [Status("at://a", "at://a", "old"), Status("at://a", "at://a", "new")]
  }

  lemma TwoRevisionsOfOnePost()
    ensures |PageIds(TwoRevisions())| <= 2 && !Coherent(TwoRevisions())
  {
    var page := TwoRevisions();
    assert RevisionId(page[0]) == RevisionId(page[1]) by {
      TrimResult("at://a");
    }
    assert page[0].revision[0] != page[1].revision[0];
    VisibleStart("at://a");
    assert SamePost(page[0], page[1]);
    hide RevisionId;
    assert page[1..][1..] == [];
    var id := RevisionId(page[0]).value;
    assert PageIds(page) <= {id};
    SubsetSize(PageIds(page), {id});
  }

  lemma ObservedDates(st: PollState, page: seq<Status>, order: seq<string>, victims: set<string>)
    requires forall id :: id in st.revisions ==> st.revisions[id].lastSeenPoll <= st.pollNumber
    ensures var next := Observe(st, page, order, victims);
            && next.pollNumber == st.pollNumber + 1
            && forall id :: id in next.revisions ==> next.revisions[id].lastSeenPoll <= next.pollNumber
  {
    hide Absorb, Requeued, PageIds, LastRevision, Drop;
    AbsorbResult(st.revisions, st.pollNumber + 1, page);
  }

  /** However often one page is observed again, the next look at it is quiet if and only if it
      never shows one post with two different revisions. */
  lemma {:induction false} RepeatedLook(st: PollState, page: seq<Status>, polls: seq<Event>)
    requires forall id :: id in st.revisions ==> st.revisions[id].lastSeenPoll <= st.pollNumber
    requires |PageIds(page)| <= MAX_TRACKED_REVISIONS
    requires polls != [] && LegalRun(st, polls)
    requires forall i :: 0 <= i < |polls| ==> polls[i].Poll? && polls[i].page == page
    ensures var last := Final(st, polls);
            Changed(last.revisions, last.pollNumber + 1, page) == [] <==> Coherent(page)
    decreases polls
  {
    hide PageIds, BeforePrune, Observe, Changed, Evictable, Coherent, Lists;
    var order, victims := polls[0].order, polls[0].victims;
    assert Next(st, polls[0]) == Observe(st, page, order, victims);
    if |polls| == 1 {
      assert polls[1..] == [];
      SecondLook(st, page, order, victims);
    } else {
      ObservedDates(st, page, order, victims);
      RepeatedLook(Observe(st, page, order, victims), page, polls[1..]);
    }
  }

  /** A page that shows one post with two revisions is reported as changed forever. */
  lemma IncoherentPageIsNeverQuiet(st: PollState, page: seq<Status>, polls: seq<Event>)
    requires forall id :: id in st.revisions ==> st.revisions[id].lastSeenPoll <= st.pollNumber
    requires |PageIds(page)| <= MAX_TRACKED_REVISIONS && !Coherent(page)
    requires polls != [] && LegalRun(st, polls)
    requires forall i :: 0 <= i < |polls| ==> polls[i].Poll? && polls[i].page == page
    ensures var last := Final(st, polls);
            Changed(last.revisions, last.pollNumber + 1, page) != []
  {
    RepeatedLook(st, page, polls);
  }

  // ---- bounded wait ----------------------------------------------------------------------------

  lemma ObserveKeepsPlace(
    st: PollState, page: seq<Status>, order: seq<string>, victims: set<string>, x: string, p: nat)
    requires QueueMatches(st) && Lists(order, st.revisions.Keys)
    requires Within(st.queue, x, p) && x !in CurrentIds(page) && x !in victims
    ensures Within(Observe(st, page, order, victims).queue, x, p)
    ensures QueueMatches(Observe(st, page, order, victims))
  {
    hide Absorb, CurrentIds;
    var kept := st.members - CurrentIds(page);
    var start := st.(queue := Keep(st.queue, kept), members := kept);
    var missing := Keep(order, MissingSet(st, CurrentIds(page)));
    KeepWithin(st.queue, kept, x, p);
    KeepQueue(st, kept);
    assert st.members * kept == kept;
    EnqueueResult(start, missing);
    PrefixWithin(start.queue, Enqueue(start, missing).queue, x, p);
    var before := BeforePrune(st, page, order);
    assert before.queue == Enqueue(start, missing).queue;
    hide BeforePrune;
    KeepWithin(before.queue, (set y | y in before.queue) - victims, x, p);
    ForgetResult(before, victims);
  }

  lemma PrefixWithin(q: seq<string>, r: seq<string>, x: string, p: nat)
    requires Within(q, x, p) && q <= r
    ensures Within(r, x, p)
  {
    WithinAppend(q, r[|q|..], x, p);
    assert r == q + r[|q|..];
  }

  lemma {:induction false} SettleKeepsPlace(
    st: PollState, ids: seq<string>, outcomes: seq<Outcome>, accepts: nat, x: string, p: nat)
    requires QueueMatches(st) && |outcomes| == |ids|
    requires Within(st.queue, x, p) && x !in ids
    ensures Within(SettleAll(st, ids, outcomes, accepts).state.queue, x, p)
    ensures QueueMatches(SettleAll(st, ids, outcomes, accepts).state)
    decreases ids
  {
    if ids != [] {
      var id, outcome := ids[0], outcomes[0];
      var next := Settle(st, id, outcome);
      SettleFirst(st, ids, outcomes, accepts);
      assert Within(next.queue, x, p) && QueueMatches(next) by {
        match outcome {
          case Found(_) =>
          case Gone =>
            ForgetResult(st, {id});
            KeepWithin(st.queue, (set y | y in st.queue) - {id}, x, p);
          case Deferred =>
            EnqueueResult(st, [id]);
            PrefixWithin(st.queue, next.queue, x, p);
        }
      }
      hide Settle, Message, QueueMatches, Within;
      assert x !in ids[1..];
      if Message(st, id, outcome).None? {
        SettleKeepsPlace(next, ids[1..], outcomes[1..], accepts, x, p);
      } else if accepts > 0 {
        SettleKeepsPlace(next, ids[1..], outcomes[1..], accepts - 1, x, p);
      }
    }
  }

  lemma TakeQueue(st: PollState)
    requires QueueMatches(st)
    ensures QueueMatches(Take(st))
  {
    var n := BatchSize(st);
    assert st.queue == st.queue[..n] + st.queue[n..];
    forall i, j | 0 <= i < n <= j < |st.queue| ensures st.queue[i] != st.queue[j] {}
    forall id ensures id in Take(st).queue <==> id in Take(st).members {
      if id in Take(st).queue {
        var j :| 0 <= j < |Take(st).queue| && Take(st).queue[j] == id;
        assert st.queue[n + j] == id;
      }
    }
  }

  /** A batch that does not hand out `x` moves it four places forward. */
  lemma BatchAdvances(st: PollState, outcomes: seq<Outcome>, accepts: nat, x: string, p: nat)
    requires QueueMatches(st) && |outcomes| == BatchSize(st)
    requires Within(st.queue, x, p) && x !in Batch(st)
    ensures p >= RECONCILIATION_BUDGET
    ensures QueueMatches(Reconcile(st, outcomes, accepts).state)
    ensures Within(Reconcile(st, outcomes, accepts).state.queue, x, p - RECONCILIATION_BUDGET)
  {
    var i :| 0 <= i <= p && i < |st.queue| && st.queue[i] == x;
    var n := BatchSize(st);
    assert st.queue[..n] <= st.queue && x !in st.queue[..n];
    assert i >= n;
    assert Take(st).queue[i - n] == x;
    assert Within(Take(st).queue, x, p - RECONCILIATION_BUDGET);
    TakeQueue(st);
    hide SettleAll, QueueMatches, Within;
    SettleKeepsPlace(Take(st), Batch(st), outcomes, accepts, x, p - RECONCILIATION_BUDGET);
  }

  datatype Round = Observed(page: seq<Status>, order: seq<string>, victims: set<string>)
                 | Reconciling(outcomes: seq<Outcome>, accepts: nat)

  ghost predicate Possible(st: PollState, round: Round) {
    match round
    case Observed(_, order, _) => Lists(order, st.revisions.Keys)
    case Reconciling(outcomes, _) => |outcomes| == BatchSize(st)
  }

  ghost function Then(st: PollState, round: Round): PollState
    requires Possible(st, round)
  {
    match round
    case Observed(page, order, victims) => Observe(st, page, order, victims)
    case Reconciling(outcomes, accepts) => Reconcile(st, outcomes, accepts).state
  }

  /** Until `x` is handed out it neither reappears nor is pruned or deleted. */
  ghost predicate Undisturbed(st: PollState, rounds: seq<Round>, x: string)
    decreases rounds
  {
    rounds == [] || (
      && Possible(st, rounds[0])
      && match rounds[0]
         case Observed(page, _, victims) =>
           x !in CurrentIds(page) && x !in victims && Undisturbed(Then(st, rounds[0]), rounds[1..], x)
         case Reconciling(_, _) =>
           x in Batch(st) || Undisturbed(Then(st, rounds[0]), rounds[1..], x))
  }

  function Batches(rounds: seq<Round>): nat {
    if rounds == [] then 0 else (if rounds[0].Reconciling? then 1 else 0) + Batches(rounds[1..])
  }

  /** The number of the first batch that hands out `x`, counting from one. */
  ghost function HandedOut(st: PollState, rounds: seq<Round>, x: string): Option<nat>
    decreases rounds
  {
    if rounds == [] || !Possible(st, rounds[0]) then None
    else if rounds[0].Reconciling? && x in Batch(st) then Some(1)
    else match HandedOut(Then(st, rounds[0]), rounds[1..], x)
      case None => None
      case Some(n) => Some(n + if rounds[0].Reconciling? then 1 else 0)
  }

  /** An id at queue position `p` is handed out by batch `p/4 + 1` at the latest, whatever pages,
      new candidates, deletions and requeues occur before. */
  lemma {:induction false} BoundedWait(st: PollState, rounds: seq<Round>, x: string, p: nat)
    requires QueueMatches(st) && Within(st.queue, x, p)
    requires Undisturbed(st, rounds, x)
    requires Batches(rounds) >= p / RECONCILIATION_BUDGET + 1
    ensures HandedOut(st, rounds, x).Some?
    ensures HandedOut(st, rounds, x).value <= p / RECONCILIATION_BUDGET + 1
    decreases rounds
  {
    hide Observe, Reconcile, QueueMatches, Within, Lists, CurrentIds;
    match rounds[0] {
      case Observed(page, order, victims) =>
        ObserveKeepsPlace(st, page, order, victims, x, p);
        BoundedWait(Then(st, rounds[0]), rounds[1..], x, p);
      case Reconciling(outcomes, accepts) =>
        if x !in Batch(st) {
          BatchAdvances(st, outcomes, accepts, x, p);
          BoundedWait(Then(st, rounds[0]), rounds[1..], x, p - RECONCILIATION_BUDGET);
        }
    }
  }
}
