/** The recovery gate of the Bluesky client (src/bluesky/client.rs): requests that saw a 401
    share one recovery per generation, and logout fences off everything older. */
module AuthRecovery {
  import opened Basics

  // ---- outcomes -----------------------------------------------------------------------------

  /** `Provider` stands for every other error kind, known by the text it renders to. */
  datatype Error = Unauthorized | Other(message: string) | Provider(rendered: string)

  datatype Result = Ok | Err(error: Error)

  datatype Outcome = Success | Refused | Failed(message: string)

  function Render(error: Error): string {
    match error
    case Unauthorized => "Unauthorized - token may be expired"
    case Other(message) => message
    case Provider(rendered) => rendered
  }

  function Capture(result: Result): Outcome {
    match result
    case Ok => Success
    case Err(Unauthorized) => Refused
    case Err(error) => Failed(Render(error))
  }

  function IntoResult(outcome: Outcome): Result {
    match outcome
    case Success => Ok
    case Refused => Err(Unauthorized)
    case Failed(message) => Err(Other(message))
  }

  /** A shared result agrees with the original on success, on being an authentication refusal
      and on the rendered text; it is the original itself unless that was a provider error. */
  lemma SharingKeepsMeaning(result: Result)
    ensures var shared := IntoResult(Capture(result));
            && (shared.Ok? <==> result.Ok?)
            && (shared == Err(Unauthorized) <==> result == Err(Unauthorized))
            && (result.Err? ==> Render(shared.error) == Render(result.error))
            && (shared == result <==> !(result.Err? && result.error.Provider?))
  {
  }

  // ---- the guarded record ----------------------------------------------------------------------

  datatype Record = Record(generation: nat, lastGeneration: Option<nat>, lastOutcome: Option<Outcome>)

  const INITIAL := Record(0, None, None)

  /** What a request that observed an outdated generation returns. */
  function SharedResult(r: Record): Result {
    match (r.lastGeneration, r.lastOutcome)
    case (Some(generation), Some(outcome)) =>
      if generation == r.generation then IntoResult(outcome) else Err(Unauthorized)
    case _ => Err(Unauthorized)
  }

  /** The record and the request's result after its recovery ended with `result`. */
  function Publish(r: Record, observed: nat, result: Result): (Record, Result) {
    if r.generation == observed
    then (Record(observed + 1, Some(observed + 1), Some(Capture(result))), result)
    else (r, Err(Unauthorized))
  }

  class AuthRecoveryGate {
    var generation: nat
    var lastGeneration: Option<nat>
    var lastOutcome: Option<Outcome>

    ghost function State(): Record
      reads this
    {
      Record(generation, lastGeneration, lastOutcome)
    }

    constructor ()
      ensures State() == INITIAL
    {
      generation, lastGeneration, lastOutcome := 0, None, None;
    }

    /** `run` once the lock is held: either another recovery's result, or permission to recover. */
    method Enter(observed: nat) returns (shared: Option<Result>)
      ensures shared == if generation != observed then Some(SharedResult(State())) else None
    {
      if generation != observed {
        match (lastGeneration, lastOutcome) {
          case (Some(recorded), Some(outcome)) =>
            return Some(if recorded == generation then IntoResult(outcome) else Err(Unauthorized));
          case _ =>
            return Some(Err(Unauthorized));
        }
      }
      shared := None;
    }

    /** `run` after the recovery closure: compare-and-exchange, then publish. */
    method Leave(observed: nat, result: Result) returns (returned: Result)
      modifies this
      ensures (State(), returned) == Publish(old(State()), observed, result)
    {
      if generation != observed {
        return Err(Unauthorized);
      }
      generation := observed + 1;
      lastGeneration, lastOutcome := Some(observed + 1), Some(Capture(result));
      returned := result;
    }

    method InvalidateForLogout()
      modifies this
      ensures State() == Record(old(generation) + 1, None, None)
    {
      generation := generation + 1;
      lastGeneration, lastOutcome := None, None;
    }
  }

  // ---- all interleavings ---------------------------------------------------------------------------

  /** Where one call of `run` is. `Recovering` means its closure is running. */
  datatype Request =
    | Waiting(observed: nat)
    | Holding(observed: nat)
    | Recovering(observed: nat)
    | Finished(result: Result)
    | Cancelled

  datatype Logout = Queued | Entered | Advanced | Completed | Abandoned

  datatype Holder = ByRequest(request: nat) | ByLogout(logout: nat)

  /** What advanced the generation, in order. */
  datatype Advance = Recovered(generation: nat, outcome: Outcome) | LoggedOut

  datatype Gate = Gate(
    record: Record, lock: Option<Holder>, requests: map<nat, Request>, logouts: map<nat, Logout>,
    ledger: seq<Advance>)

  const START := Gate(INITIAL, None, map[], map[], [])

  datatype Step =
    | Observe(p: nat)                    // load the generation, queue for the lock
    | Acquire(p: nat)
    | Check(p: nat)                      // compare generations under the lock
    | Complete(p: nat, result: Result)   // the closure ends; publish and release
    | Cancel(p: nat)                     // the caller drops the future
    | LogoutQueue(l: nat)
    | LogoutEnter(l: nat)
    | LogoutAdvance(l: nat)
    | LogoutClear(l: nat)                // clear the shared outcome and release
    | LogoutAbandon(l: nat)              // dropped while still queued for the lock

  ghost predicate Enabled(g: Gate, step: Step) {
    match step
    case Observe(p) => p !in g.requests
    case Acquire(p) => g.lock == None && p in g.requests && g.requests[p].Waiting?
    case Check(p) => p in g.requests && g.requests[p].Holding?
    case Complete(p, _) => p in g.requests && g.requests[p].Recovering?
    case Cancel(p) =>
      p in g.requests && (g.requests[p].Waiting? || g.requests[p].Holding? || g.requests[p].Recovering?)
    case LogoutQueue(l) => l !in g.logouts
    case LogoutEnter(l) => g.lock == None && l in g.logouts && g.logouts[l].Queued?
    case LogoutAdvance(l) => l in g.logouts && g.logouts[l].Entered?
    case LogoutClear(l) => l in g.logouts && g.logouts[l].Advanced?
    case LogoutAbandon(l) => l in g.logouts && g.logouts[l].Queued?
  }

  ghost function Next(g: Gate, step: Step): Gate
    requires Enabled(g, step)
  {
    match step
    case Observe(p) => g.(requests := g.requests[p := Waiting(g.record.generation)])
    case Acquire(p) =>
      g.(lock := Some(ByRequest(p)), requests := g.requests[p := Holding(g.requests[p].observed)])
    case Check(p) =>
      var observed := g.requests[p].observed;
      if g.record.generation != observed
      then g.(lock := None, requests := g.requests[p := Finished(SharedResult(g.record))])
      else g.(requests := g.requests[p := Recovering(observed)])
    case Complete(p, result) =>
      var observed := g.requests[p].observed;
      var (record, returned) := Publish(g.record, observed, result);
      g.(record := record, lock := None, requests := g.requests[p := Finished(returned)],
         ledger := if g.record.generation == observed
                   then g.ledger + [Recovered(observed, Capture(result))] else g.ledger)
    case Cancel(p) =>
      g.(lock := if g.lock == Some(ByRequest(p)) then None else g.lock, requests := g.requests[p := Cancelled])
    case LogoutQueue(l) => g.(logouts := g.logouts[l := Queued])
    case LogoutEnter(l) => g.(lock := Some(ByLogout(l)), logouts := g.logouts[l := Entered])
    case LogoutAdvance(l) =>
      g.(record := g.record.(generation := g.record.generation + 1),
         logouts := g.logouts[l := Advanced], ledger := g.ledger + [LoggedOut])
    case LogoutClear(l) =>
      g.(record := g.record.(lastGeneration := None, lastOutcome := None), lock := None,
         logouts := g.logouts[l := Completed])
    case LogoutAbandon(l) => g.(logouts := g.logouts[l := Abandoned])
  }

  ghost predicate Inside(g: Gate, holder: Holder) {
    match holder
    case ByRequest(p) => p in g.requests && (g.requests[p].Holding? || g.requests[p].Recovering?)
    case ByLogout(l) => l in g.logouts && (g.logouts[l].Entered? || g.logouts[l].Advanced?)
  }

  /** A logout has advanced the generation and not yet cleared the shared outcome. */
  ghost predicate MidLogout(g: Gate) {
    g.lock.Some? && g.lock.value.ByLogout? && g.lock.value.logout in g.logouts
    && g.logouts[g.lock.value.logout].Advanced?
  }

  /** The closure of request `p` is running. */
  ghost predicate Runs(g: Gate, p: nat) { p in g.requests && g.requests[p].Recovering? }

  ghost predicate Active(r: Request) { r.Waiting? || r.Holding? || r.Recovering? }

  ghost predicate Inv(g: Gate) {
    && (forall h: Holder :: Inside(g, h) <==> g.lock == Some(h))
    && (forall p :: p in g.requests && Active(g.requests[p]) ==> g.requests[p].observed <= g.record.generation)
    && (forall p :: p in g.requests && g.requests[p].Recovering? ==> g.requests[p].observed == g.record.generation)
    && g.record.generation == |g.ledger|
    && (forall i :: 0 <= i < |g.ledger| && g.ledger[i].Recovered? ==> g.ledger[i].generation == i)
    && (g.record.lastGeneration.Some? <==> g.record.lastOutcome.Some?)
    && (if MidLogout(g) then g.ledger != [] && g.ledger[|g.ledger| - 1].LoggedOut?
        else match g.record.lastOutcome
             case Some(outcome) =>
               && g.record.lastGeneration == Some(g.record.generation)
               && g.ledger != [] && g.ledger[|g.ledger| - 1].Recovered?
               && g.ledger[|g.ledger| - 1].outcome == outcome
             case None => g.ledger == [] || g.ledger[|g.ledger| - 1].LoggedOut?)
  }

  lemma LockKept(g: Gate, step: Step)
    requires (forall h: Holder :: Inside(g, h) <==> g.lock == Some(h)) && Enabled(g, step)
    ensures forall h: Holder :: Inside(Next(g, step), h) <==> Next(g, step).lock == Some(h)
  {
    match step {
      case Check(p) => assert Inside(g, ByRequest(p));
      case Complete(p, _) => assert Inside(g, ByRequest(p));
      case LogoutAdvance(l) => assert Inside(g, ByLogout(l));
      case LogoutClear(l) => assert Inside(g, ByLogout(l));
      case Cancel(p) => assert Inside(g, ByRequest(p)) <==> !g.requests[p].Waiting?;
      case _ =>
    }
  }

  lemma OnlyHolderRuns(g: Gate, holder: Holder)
    requires Inv(g) && Inside(g, holder)
    ensures g.lock == Some(holder)
    ensures forall p :: Runs(g, p) ==> holder == ByRequest(p)
  {
    forall p | Runs(g, p) ensures holder == ByRequest(p) {
      assert Inside(g, ByRequest(p)) <==> g.lock == Some(ByRequest(p));
    }
  }

  lemma CompleteInv(g: Gate, p: nat, result: Result)
    requires Inv(g) && Enabled(g, Complete(p, result))
    ensures Inv(Next(g, Complete(p, result)))
  {
    LockKept(g, Complete(p, result));
    OnlyHolderRuns(g, ByRequest(p));
    assert forall q :: q in g.requests && q != p ==> !Runs(g, q);
    hide Inside, Capture;
  }

  lemma LogoutAdvanceInv(g: Gate, l: nat)
    requires Inv(g) && Enabled(g, LogoutAdvance(l))
    ensures Inv(Next(g, LogoutAdvance(l)))
  {
    LockKept(g, LogoutAdvance(l));
    OnlyHolderRuns(g, ByLogout(l));
    assert forall q :: q in g.requests ==> !Runs(g, q);
    hide Inside;
  }

  lemma LogoutClearInv(g: Gate, l: nat)
    requires Inv(g) && Enabled(g, LogoutClear(l))
    ensures Inv(Next(g, LogoutClear(l)))
  {
    LockKept(g, LogoutClear(l));
    OnlyHolderRuns(g, ByLogout(l));
    hide Inside;
  }

  lemma CheckInv(g: Gate, p: nat)
    requires Inv(g) && Enabled(g, Check(p))
    ensures Inv(Next(g, Check(p)))
  {
    LockKept(g, Check(p));
    OnlyHolderRuns(g, ByRequest(p));
    hide Inside, SharedResult;
  }

  lemma CancelInv(g: Gate, p: nat)
    requires Inv(g) && Enabled(g, Cancel(p))
    ensures Inv(Next(g, Cancel(p)))
  {
    LockKept(g, Cancel(p));
    assert Inside(g, ByRequest(p)) <==> !g.requests[p].Waiting?;
    hide Inside;
  }

  lemma StepInv(g: Gate, step: Step)
    requires Inv(g) && Enabled(g, step)
    ensures Inv(Next(g, step))
  {
    match step {
      case Check(p) => CheckInv(g, p);
      case Complete(p, result) => CompleteInv(g, p, result);
      case Cancel(p) => CancelInv(g, p);
      case LogoutAdvance(l) => LogoutAdvanceInv(g, l);
      case LogoutClear(l) => LogoutClearInv(g, l);
      case _ => LockKept(g, step);
    }
  }

  /** A run lists its states and the step taken between each two. */
  ghost predicate IsRun(states: seq<Gate>, steps: seq<Step>) {
    && |states| == |steps| + 1
    && states[0] == START
    && forall i :: 0 <= i < |steps| ==> Enabled(states[i], steps[i]) && states[i + 1] == Next(states[i], steps[i])
  }

  lemma {:induction false} RunInv(states: seq<Gate>, steps: seq<Step>, i: nat)
    requires IsRun(states, steps) && i < |states|
    ensures Inv(states[i])
  {
    hide Inv, Next, Enabled;
    if i == 0 {
      StartInv();
    } else {
      RunInv(states, steps, i - 1);
      StepInv(states[i - 1], steps[i - 1]);
    }
  }

  lemma StartInv()
    ensures Inv(START)
  {
  }

  /** Single flight: in every reachable state each generation was completed by at most one
      recovery, the record is absent or belongs to the current generation whenever the lock is
      free, and a recovery that ends finds the generation it observed, so its
      compare-and-exchange succeeds. */
  lemma SingleFlight(states: seq<Gate>, steps: seq<Step>, i: nat)
    requires IsRun(states, steps) && i < |states|
    ensures var g := states[i];
            && (forall m, n :: 0 <= m < n < |g.ledger| && g.ledger[m].Recovered? && g.ledger[n].Recovered?
                  ==> g.ledger[m].generation != g.ledger[n].generation)
            && (g.lock == None ==> g.record.lastGeneration == None
                                   || g.record.lastGeneration == Some(g.record.generation))
            && (forall p :: p in g.requests && g.requests[p].Recovering?
                  ==> g.requests[p].observed == g.record.generation)
            && (forall p, q :: Runs(g, p) && Runs(g, q) ==> p == q)
  {
    RunInv(states, steps, i);
    var g := states[i];
    forall p, q | Runs(g, p) && Runs(g, q) ensures p == q
    {
      assert Inside(g, ByRequest(p)) && Inside(g, ByRequest(q));
    }
  }

  /** A completing recovery always publishes: it advances the generation by one, records its
      outcome and returns its own result. */
  lemma CompletionPublishes(states: seq<Gate>, steps: seq<Step>, i: nat)
    requires IsRun(states, steps) && i < |steps| && steps[i].Complete?
    ensures var (g, next, p) := (states[i], states[i + 1], steps[i].p);
            && next.record
               == Record(g.record.generation + 1, Some(g.record.generation + 1), Some(Capture(steps[i].result)))
            && next.requests[p] == Finished(steps[i].result)
            && next.ledger == g.ledger + [Recovered(g.record.generation, Capture(steps[i].result))]
  {
    RunInv(states, steps, i);
  }

  /** A request that finds its observation outdated returns exactly the outcome of the latest
      advance: the latest recovery's, or `Unauthorized` if that advance was a logout. */
  lemma WaiterSharesLatest(states: seq<Gate>, steps: seq<Step>, i: nat)
    requires IsRun(states, steps) && i < |steps| && steps[i].Check?
    requires states[i].requests[steps[i].p].observed != states[i].record.generation
    ensures states[i].ledger != []
    ensures var latest := states[i].ledger[|states[i].ledger| - 1];
            states[i + 1].requests[steps[i].p]
              == Finished(match latest
                          case Recovered(_, outcome) => IntoResult(outcome)
                          case LoggedOut => Err(Unauthorized))
  {
    RunInv(states, steps, i);
    assert Inside(states[i], ByRequest(steps[i].p));
  }

  /** `p` has begun and can no longer start its closure, nor is it running it. */
  ghost predicate FencedOff(g: Gate, p: nat) {
    p in g.requests &&
    match g.requests[p]
    case Waiting(observed) => observed < g.record.generation
    case Holding(observed) => observed < g.record.generation
    case Recovering(_) => false
    case Finished(_) => true
    case Cancelled => true
  }

  lemma FenceHolds(g: Gate, step: Step, p: nat)
    requires Enabled(g, step) && FencedOff(g, p)
    ensures FencedOff(Next(g, step), p)
  {
  }

  lemma {:induction false} FenceLasts(states: seq<Gate>, steps: seq<Step>, first: nat, last: nat, p: nat)
    requires IsRun(states, steps) && first <= last < |states|
    requires FencedOff(states[first], p)
    ensures FencedOff(states[last], p)
    decreases last - first
  {
    hide FencedOff, Next, Enabled;
    if first < last {
      FenceLasts(states, steps, first, last - 1, p);
      FenceHolds(states[last - 1], steps[last - 1], p);
    }
  }

  /** Logout fence, for every interleaving: a request that had observed a generation when logout
      advanced it never runs its closure at any later point of the run; and at the moment logout
      completes no closure is running at all. */
  lemma LogoutFence(states: seq<Gate>, steps: seq<Step>, advance: nat, later: nat, p: nat)
    requires IsRun(states, steps) && advance < later < |states|
    requires steps[advance].LogoutAdvance? && p in states[advance].requests
    ensures p in states[later].requests && !states[later].requests[p].Recovering?
  {
    RunInv(states, steps, advance);
    assert Inside(states[advance], ByLogout(steps[advance].l));
    assert Inside(states[advance], ByRequest(p)) <==> states[advance].lock == Some(ByRequest(p));
    assert FencedOff(states[advance + 1], p);
    FenceLasts(states, steps, advance + 1, later, p);
  }

  lemma LogoutFindsNothingRunning(states: seq<Gate>, steps: seq<Step>, completion: nat, p: nat)
    requires IsRun(states, steps) && completion < |steps| && steps[completion].LogoutClear?
    ensures states[completion + 1].lock == None
    ensures p in states[completion + 1].requests ==> !states[completion + 1].requests[p].Recovering?
  {
    RunInv(states, steps, completion + 1);
    assert Inside(states[completion + 1], ByRequest(p)) <==> states[completion + 1].lock == Some(ByRequest(p));
  }

  /** Every closure that runs after a logout completed belongs to a request that observed the
      generation that logout had set, or a later one. */
  lemma LaterRecoveriesAreNew(states: seq<Gate>, steps: seq<Step>, advance: nat, later: nat, p: nat)
    requires IsRun(states, steps) && advance < later < |states| && steps[advance].LogoutAdvance?
    requires p in states[later].requests && states[later].requests[p].Recovering?
    ensures p !in states[advance].requests
    ensures states[later].requests[p].observed >= states[advance + 1].record.generation
  {
    if p in states[advance].requests {
      LogoutFence(states, steps, advance, later, p);
    }
    RunInv(states, steps, later);
    GenerationGrows(states, steps, advance + 1, later);
  }

  lemma {:induction false} GenerationGrows(states: seq<Gate>, steps: seq<Step>, first: nat, last: nat)
    requires IsRun(states, steps) && first <= last < |states|
    ensures states[first].record.generation <= states[last].record.generation
    decreases last - first
  {
    if first < last {
      GenerationGrows(states, steps, first, last - 1);
      assert states[last] == Next(states[last - 1], steps[last - 1]);
    }
  }
}
