/** The coalescing event emitter (src/application/desktop.rs): callers that announce a cache
    commit share one queued event, and which announcements can be lost. */
module Emitter {
  import opened Basics

  const EMIT_QUEUE_CAPACITY := 1024

  datatype Item = Detached(call: nat) | Direct

  /** The receive loop between two items, holding one, or having cleared the flag for one. */
  datatype Loop = Idle | Holding(item: Item) | Cleared

  /** `callers` won the flag and are serialising, `senders` are spawned sends. */
  datatype State = State(
    pending: bool, callers: set<nat>, senders: set<nat>, queue: seq<Item>, loop: Loop)

  const START := State(false, {}, {}, [], Idle)

  datatype Step =
    | Call(call: nat)           // swap the flag; go on only if it was clear
    | Spawn(call: nat)
    | SerialiseFails(call: nat)
    | Send(call: nat)
    | SendFails(call: nat)
    | SendDirect                // some other event is queued
    | Receive
    | Clear                     // the loop clears the flag before it delivers
    | Deliver

  ghost predicate Enabled(s: State, step: Step) {
    match step
    case Call(c) => c !in s.callers && c !in s.senders
    case Spawn(c) => c in s.callers && c !in s.senders
    case SerialiseFails(c) => c in s.callers
    case Send(c) => c in s.senders && |s.queue| < EMIT_QUEUE_CAPACITY
    case SendFails(c) => c in s.senders
    case SendDirect => |s.queue| < EMIT_QUEUE_CAPACITY
    case Receive => s.loop.Idle? && s.queue != []
    case Clear => s.loop.Holding? && s.loop.item.Detached?
    case Deliver => s.loop.Cleared? || (s.loop.Holding? && s.loop.item.Direct?)
  }

  ghost function Next(s: State, step: Step): State
    requires Enabled(s, step)
  {
    match step
    case Call(c) => if s.pending then s else s.(pending := true, callers := s.callers + {c})
    case Spawn(c) => s.(callers := s.callers - {c}, senders := s.senders + {c})
    case SerialiseFails(c) => s.(callers := s.callers - {c}, pending := false)
    case Send(c) => s.(senders := s.senders - {c}, queue := s.queue + [Detached(c)])
    case SendFails(c) => s.(senders := s.senders - {c}, pending := false)
    case SendDirect => s.(queue := s.queue + [Direct])
    case Receive => s.(loop := Holding(s.queue[0]), queue := s.queue[1..])
    case Clear => s.(pending := false, loop := Cleared)
    case Deliver => s.(loop := Idle)
  }

  // ---- one detached event per set flag ----------------------------------------------------------

  function Queued(queue: seq<Item>): nat {
    if queue == [] then 0 else (if queue[0].Detached? then 1 else 0) + Queued(queue[1..])
  }

  lemma {:induction false} QueuedAppend(queue: seq<Item>, item: Item)
    ensures Queued(queue + [item]) == Queued(queue) + if item.Detached? then 1 else 0
  {
    if queue == [] {
      assert queue + [item] == [item];
    } else {
      assert (queue + [item])[1..] == queue[1..] + [item];
      QueuedAppend(queue[1..], item);
    }
  }

  /** Detached events on their way that the receive loop has not cleared yet. */
  ghost function Uncleared(s: State): nat {
    |s.callers| + |s.senders| + Queued(s.queue) + if s.loop.Holding? && s.loop.item.Detached? then 1 else 0
  }

  ghost predicate Inv(s: State) { Uncleared(s) == if s.pending then 1 else 0 }

  lemma CallerInv(s: State, c: nat)
    requires Inv(s)
    ensures Enabled(s, Call(c)) ==> Inv(Next(s, Call(c)))
    ensures Enabled(s, Spawn(c)) ==> Inv(Next(s, Spawn(c)))
    ensures Enabled(s, SerialiseFails(c)) ==> Inv(Next(s, SerialiseFails(c)))
  {
    hide Queued;
    if c in s.callers {
      RemoveOne(s.callers, c);
    } else {
      AddOne(s.callers, c);
    }
    if c !in s.senders {
      AddOne(s.senders, c);
    }
  }

  lemma SenderInv(s: State, c: nat)
    requires Inv(s) && c in s.senders
    ensures Enabled(s, Send(c)) ==> Inv(Next(s, Send(c)))
    ensures Inv(Next(s, SendFails(c)))
  {
    RemoveOne(s.senders, c);
    QueuedAppend(s.queue, Detached(c));
    hide Queued;
  }

  lemma StepInv(s: State, step: Step)
    requires Enabled(s, step) && Inv(s)
    ensures Inv(Next(s, step))
  {
    hide Queued;
    match step {
      case Call(c) => CallerInv(s, c);
      case Spawn(c) => CallerInv(s, c);
      case SerialiseFails(c) => CallerInv(s, c);
      case Send(c) => SenderInv(s, c);
      case SendFails(c) => SenderInv(s, c);
      case SendDirect => QueuedAppend(s.queue, Direct);
      case Receive => QueuedFirst(s.queue);
      case Clear =>
      case Deliver =>
    }
  }

  lemma RemoveOne(s: set<nat>, x: nat)
    requires x in s
    ensures |s - {x}| == |s| - 1
  {
  }

  lemma AddOne(s: set<nat>, x: nat)
    requires x !in s
    ensures |s + {x}| == |s| + 1
  {
  }

  lemma QueuedFirst(queue: seq<Item>)
    requires queue != []
    ensures Queued(queue) == (if queue[0].Detached? then 1 else 0) + Queued(queue[1..])
  {
  }

  ghost predicate IsRun(states: seq<State>, steps: seq<Step>) {
    && |states| == |steps| + 1
    && states[0] == START
    && forall i :: 0 <= i < |steps| ==> Enabled(states[i], steps[i]) && states[i + 1] == Next(states[i], steps[i])
  }

  lemma {:induction false} RunInv(states: seq<State>, steps: seq<Step>, i: nat)
    requires IsRun(states, steps) && i < |states|
    ensures Inv(states[i])
  {
    if i > 0 {
      RunInv(states, steps, i - 1);
      hide Inv, Next, Enabled;
      StepInv(states[i - 1], steps[i - 1]);
    }
  }

  /** In every interleaving, failures included, exactly one detached event is on its way and not
      yet cleared while the flag is set, and none while it is clear. */
  lemma OneEventPerFlag(states: seq<State>, steps: seq<Step>, i: nat)
    requires IsRun(states, steps) && i < |states|
    ensures Uncleared(states[i]) == if states[i].pending then 1 else 0
  {
    RunInv(states, steps, i);
  }

  // ---- every commit is covered ----------------------------------------------------------------------

  /** Nothing is under way any more. */
  ghost predicate Quiet(s: State) {
    s.callers == {} && s.senders == {} && s.queue == [] && s.loop.Idle?
  }

  predicate Failure(step: Step) { step.SerialiseFails? || step.SendFails? }

  /** Between two points of a run: calls that found the flag clear and set it. */
  ghost function Wins(states: seq<State>, steps: seq<Step>, first: nat, last: nat): nat
    requires first <= last <= |steps| < |states|
    decreases last
  {
    if first == last then 0
    else Wins(states, steps, first, last - 1)
         + if steps[last - 1].Call? && !states[last - 1].pending then 1 else 0
  }

  /** Between two points of a run: payloads that could not be serialised or queued. */
  function Failures(steps: seq<Step>, first: nat, last: nat): nat
    requires first <= last <= |steps|
    decreases last
  {
    if first == last then 0
    else Failures(steps, first, last - 1) + if Failure(steps[last - 1]) then 1 else 0
  }

  function Clears(steps: seq<Step>, first: nat, last: nat): nat
    requires first <= last <= |steps|
    decreases last
  {
    if first == last then 0
    else Clears(steps, first, last - 1) + if steps[last - 1].Clear? then 1 else 0
  }

  /** A detached event is delivered after the step `call` and before the point `later`. */
  ghost predicate Delivered(states: seq<State>, steps: seq<Step>, call: nat, later: nat)
    requires later <= |steps| < |states|
  {
    exists k :: call < k < later && steps[k].Deliver? && states[k].loop.Cleared?
  }

  /** After a call every event ends cleared or in a failure, one for each time the flag was set. */
  lemma {:induction false} EventsBalance(states: seq<State>, steps: seq<Step>, call: nat, later: nat)
    requires IsRun(states, steps) && call < later < |states| && steps[call].Call?
    ensures Failures(steps, call + 1, later) + Clears(steps, call + 1, later) + Uncleared(states[later])
         == 1 + Wins(states, steps, call + 1, later)
    decreases later
  {
    RunInv(states, steps, later);
    assert states[later] == Next(states[later - 1], steps[later - 1]);
    if later > call + 1 {
      EventsBalance(states, steps, call, later - 1);
      RunInv(states, steps, later - 1);
      EventEnds(states[later - 1], steps[later - 1]);
    }
    hide Uncleared;
  }

  lemma EventEnds(s: State, step: Step)
    requires Enabled(s, step) && Inv(s)
    ensures Failure(step) || step.Clear? ==> s.pending
  {
    match step {
      case SerialiseFails(c) => assert |s.callers| > 0;
      case SendFails(c) => assert |s.senders| > 0;
      case _ =>
    }
  }

  /** A delivery follows a call exactly if the loop was about to deliver or cleared the flag since. */
  lemma {:induction false} ClearedIsDelivered(states: seq<State>, steps: seq<Step>, call: nat, later: nat)
    requires IsRun(states, steps) && call < later < |states| && steps[call].Call?
    ensures Delivered(states, steps, call, later) || states[later].loop.Cleared?
       <==> states[call].loop.Cleared? || Clears(steps, call + 1, later) > 0
    decreases later
  {
    var last := later - 1;
    assert states[later] == Next(states[last], steps[last]);
    if last > call {
      ClearedIsDelivered(states, steps, call, last);
      if Delivered(states, steps, call, last) {
        var k :| call < k < last && steps[k].Deliver? && states[k].loop.Cleared?;
        assert Delivered(states, steps, call, later);
      }
      assert Delivered(states, steps, call, later)
        <==> Delivered(states, steps, call, last) || (steps[last].Deliver? && states[last].loop.Cleared?);
    }
  }

  lemma {:induction false} NoFailures(steps: seq<Step>, first: nat, last: nat)
    requires first <= last <= |steps|
    requires forall k :: first <= k < last ==> !Failure(steps[k])
    ensures Failures(steps, first, last) == 0
    decreases last
  {
    if first < last {
      NoFailures(steps, first, last - 1);
    }
  }

  /** A call, skipped or not, is followed by a delivery before any later quiet state if and only
      if the loop was about to deliver anyway, or the events that failed since are fewer than
      those that were under way or started since. */
  lemma DeliveredIff(states: seq<State>, steps: seq<Step>, call: nat, later: nat)
    requires IsRun(states, steps) && call < later < |states| && steps[call].Call? && Quiet(states[later])
    ensures Delivered(states, steps, call, later)
       <==> states[call].loop.Cleared?
            || Failures(steps, call + 1, later) < 1 + Wins(states, steps, call + 1, later)
  {
    EventsBalance(states, steps, call, later);
    ClearedIsDelivered(states, steps, call, later);
  }

  /** No commit is lost unless some payload could not be serialised or queued after it. */
  lemma NoLostCommit(states: seq<State>, steps: seq<Step>, call: nat, later: nat)
    requires IsRun(states, steps) && call < later < |states| && steps[call].Call? && Quiet(states[later])
    requires forall k :: call < k < later ==> !Failure(steps[k])
    ensures Delivered(states, steps, call, later)
  {
    DeliveredIff(states, steps, call, later);
    NoFailures(steps, call + 1, later);
  }

  const LOSING_STEPS := [Call(0), Call(1), SerialiseFails(0)]
  const LOSING_STATES := [START, State(true, {0}, {}, [], Idle), State(true, {0}, {}, [], Idle), START]

  /** A call is skipped because another one holds the flag, whose payload then cannot be
      serialised: the skipped commit is never announced. */
  lemma FailureLosesSkippedCommit()
    ensures IsRun(LOSING_STATES, LOSING_STEPS) && LOSING_STEPS[1].Call? && LOSING_STATES[1].pending
    ensures Quiet(LOSING_STATES[3]) && !Delivered(LOSING_STATES, LOSING_STEPS, 1, 3)
  {
    assert LOSING_STATES[0] == START && LOSING_STATES[3] == START;
  }

  // ---- quiet is reached ------------------------------------------------------------------------------

  /** Work left: every internal step that is not a failure reduces it. */
  ghost function Work(s: State): nat {
    5 * |s.callers| + 4 * |s.senders| + 3 * |s.queue|
    + match s.loop case Idle => 0 case Holding(_) => 2 case Cleared => 1
  }

  predicate Internal(step: Step) {
    step.Spawn? || step.Send? || step.Receive? || step.Clear? || step.Deliver?
  }

  lemma InternalStepsFinish(s: State, step: Step)
    requires Enabled(s, step) && Internal(step)
    ensures Work(Next(s, step)) < Work(s)
  {
    match step {
      case Spawn(c) => assert |s.callers - {c}| == |s.callers| - 1;
      case Send(c) => assert |s.senders - {c}| == |s.senders| - 1;
      case _ =>
    }
  }

  /** Until everything is quiet some internal step can be taken: a full queue only makes senders
      wait for the loop, and the loop never waits for senders. */
  lemma SomethingCanMove(states: seq<State>, steps: seq<Step>, i: nat) returns (step: Step)
    requires IsRun(states, steps) && i < |states| && !Quiet(states[i])
    ensures Internal(step) && Enabled(states[i], step)
  {
    var s := states[i];
    RunInv(states, steps, i);
    if s.loop.Cleared? || (s.loop.Holding? && s.loop.item.Direct?) {
      step := Deliver;
    } else if s.loop.Holding? {
      step := Clear;
    } else if s.queue != [] {
      step := Receive;
    } else if s.senders != {} {
      var c :| c in s.senders;
      step := Send(c);
    } else {
      var c :| c in s.callers;
      step := Spawn(c);
    }
  }

  /** From any reachable state internal steps alone lead to a quiet one, where every call made so
      far has been followed by a delivery or, since then, by a failure. */
  lemma QuietIsReached(states: seq<State>, steps: seq<Step>)
    returns (moreStates: seq<State>, moreSteps: seq<Step>)
    requires IsRun(states, steps)
    ensures IsRun(states + moreStates, steps + moreSteps) && Quiet((states + moreStates)[|steps + moreSteps|])
    ensures forall i :: 0 <= i < |moreSteps| ==> Internal(moreSteps[i])
    ensures forall call :: 0 <= call < |steps| && steps[call].Call?
              && (forall k :: call < k < |steps| ==> !Failure(steps[k]))
              ==> Delivered(states + moreStates, steps + moreSteps, call, |steps + moreSteps|)
  {
    moreStates, moreSteps := RunToQuiet(states, steps);
    var allStates, allSteps := states + moreStates, steps + moreSteps;
    forall call | 0 <= call < |steps| && steps[call].Call? && (forall k :: call < k < |steps| ==> !Failure(steps[k]))
      ensures Delivered(allStates, allSteps, call, |allSteps|)
    {
      forall k | call < k < |allSteps| ensures !Failure(allSteps[k]) {
        if k >= |steps| {
          assert allSteps[k] == moreSteps[k - |steps|];
        }
      }
      NoLostCommit(allStates, allSteps, call, |allSteps|);
    }
  }

  lemma {:induction false} RunToQuiet(states: seq<State>, steps: seq<Step>)
    returns (moreStates: seq<State>, moreSteps: seq<Step>)
    requires IsRun(states, steps)
    ensures IsRun(states + moreStates, steps + moreSteps) && Quiet((states + moreStates)[|steps + moreSteps|])
    ensures forall i :: 0 <= i < |moreSteps| ==> Internal(moreSteps[i])
    decreases Work(states[|steps|])
  {
    var n := |steps|;
    if Quiet(states[n]) {
      moreStates, moreSteps := [], [];
      assert states + [] == states && steps + [] == steps;
    } else {
      var step := SomethingCanMove(states, steps, n);
      var next := Next(states[n], step);
      InternalStepsFinish(states[n], step);
      ExtendRun(states, steps, step);
      hide Next, Enabled, Quiet, Work;
      var restStates, restSteps := RunToQuiet(states + [next], steps + [step]);
      moreStates, moreSteps := [next] + restStates, [step] + restSteps;
      assert states + moreStates == states + [next] + restStates;
      assert steps + moreSteps == steps + [step] + restSteps;
    }
  }

  lemma ExtendRun(states: seq<State>, steps: seq<Step>, step: Step)
    requires IsRun(states, steps) && Enabled(states[|steps|], step)
    ensures IsRun(states + [Next(states[|steps|], step)], steps + [step])
  {
  }
}
