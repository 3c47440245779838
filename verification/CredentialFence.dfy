/** All interleavings of login, token rotation and logout writes (src/auth/credential_store.rs):
    a credential sink created before its account's login generation advanced can no longer write. */
module CredentialFence {
  import opened Basics
  import opened CredentialVault

  datatype Kind =
    | Login(acct: string, credentials: Credentials)
    | Logout(acct: string)
    | Rotation(sink: nat, credentials: Credentials)            // a sink's checked write
    | Overwrite(acct: string, credentials: Credentials)        // an unchecked write at startup

  /** `Checked` is reached by rotations only, `Stored` once the database has committed. */
  datatype Stage = Waiting | Entered | Checked | Stored | Ended(result: WriteResult) | Dropped

  datatype Operation = Operation(kind: Kind, stage: Stage)

  /** A sink between fetching its account's counter and reading it has no expectation yet.
      `created` counts the advances before the reading. */
  datatype Sink = Sink(acct: string, expected: Option<nat>, created: nat)

  /** `ledger` lists the accounts whose generation advanced, in order. */
  datatype Store = Store(
    vault: Vault, sinks: map<nat, Sink>, lock: Option<nat>, operations: map<nat, Operation>, ledger: seq<string>)

  ghost predicate IsStart(s: Store) {
    s.vault.generations == map[] && s.sinks == map[] && s.lock == None && s.operations == map[] && s.ledger == []
  }

  datatype Step =
    | FetchCounter(sink: nat, acct: string)
    | ReadCounter(sink: nat)
    | Begin(op: nat, kind: Kind)
    | Enter(op: nat)
    | Check(op: nat)
    | Commit(op: nat, fallback: Option<string>)       // the database commits; a logout finds its fallback
    | Refuse(op: nat, saved: bool)                    // the database fails, or finds no row
    | Finish(op: nat)                                 // advance the generation where due, release the lock
    | Drop(op: nat)                                   // the caller drops the future at an await point

  ghost predicate Holds(s: Store, op: nat) {
    op in s.operations
    && (s.operations[op].stage.Entered? || s.operations[op].stage.Checked? || s.operations[op].stage.Stored?)
  }

  /** Where an operation stands when it may touch the database. */
  predicate MayWrite(operation: Operation) {
    if operation.kind.Rotation? then operation.stage.Checked? else operation.stage.Entered?
  }

  /** The sink has read its counter. */
  predicate Usable(s: Store, k: nat) { k in s.sinks && s.sinks[k].expected.Some? }

  /** The account an operation writes to. */
  function Account(s: Store, kind: Kind): string
    requires kind.Rotation? ==> kind.sink in s.sinks
  {
    match kind
    case Login(acct, _) => acct
    case Logout(acct) => acct
    case Rotation(sink, _) => s.sinks[sink].acct
    case Overwrite(acct, _) => acct
  }

  /** The transaction of an operation. */
  function ChangeOf(s: Store, kind: Kind, fallback: Option<string>): Change
    requires kind.Rotation? ==> kind.sink in s.sinks
  {
    match kind
    case Login(acct, c) => LogsIn(acct, c)
    case Logout(acct) => LogsOut(acct, fallback)
    case Rotation(sink, c) => Rotates(s.sinks[sink].acct, c)
    case Overwrite(acct, c) => Rotates(acct, c)
  }

  ghost predicate Enabled(s: Store, step: Step) {
    match step
    case FetchCounter(k, _) => k !in s.sinks
    case ReadCounter(k) => k in s.sinks && s.sinks[k].expected == None
    case Begin(op, kind) => op !in s.operations && (kind.Rotation? ==> Usable(s, kind.sink))
    case Enter(op) => s.lock == None && op in s.operations && s.operations[op].stage.Waiting?
    case Check(op) =>
      && op in s.operations && s.operations[op].kind.Rotation? && s.operations[op].stage.Entered?
      && Usable(s, s.operations[op].kind.sink)
    case Commit(op, fallback) =>
      && op in s.operations && MayWrite(s.operations[op])
      && var kind := s.operations[op].kind;
      && (kind.Rotation? ==> kind.sink in s.sinks)
      && (kind.Login? || Account(s, kind) in s.vault.rows)
      && (kind.Logout? ==> IsFallback(s.vault.rows, kind.acct, fallback))
    case Refuse(op, saved) =>
      && op in s.operations && MayWrite(s.operations[op])
      && var kind := s.operations[op].kind;
      && (kind.Rotation? ==> kind.sink in s.sinks)
      && (saved ==> !kind.Login? && Account(s, kind) !in s.vault.rows)
    case Finish(op) => op in s.operations && s.operations[op].stage.Stored?
    case Drop(op) => op in s.operations && (s.operations[op].stage.Waiting? || Holds(s, op))
  }

  function At(s: Store, op: nat, stage: Stage): map<nat, Operation>
    requires op in s.operations
  {
    s.operations[op := s.operations[op].(stage := stage)]
  }

  /** The account's counter has moved on since the sink read it. */
  predicate IsStale(s: Store, sink: nat)
    requires Usable(s, sink)
  {
    Generation(s.vault, s.sinks[sink].acct) != s.sinks[sink].expected.value
  }

  predicate AdvancesAccount(kind: Kind) { kind.Login? || kind.Logout? }

  ghost function Next(s: Store, step: Step): Store
    requires Enabled(s, step)
  {
    match step
    case FetchCounter(k, acct) =>
      s.(vault := Fetched(s.vault, acct), sinks := s.sinks[k := Sink(acct, None, 0)])
    case ReadCounter(k) =>
      var acct := s.sinks[k].acct;
      s.(sinks := s.sinks[k := Sink(acct, Some(Generation(s.vault, acct)), |s.ledger|)])
    case Begin(op, kind) => s.(operations := s.operations[op := Operation(kind, Waiting)])
    case Enter(op) => s.(lock := Some(op), operations := At(s, op, Entered))
    case Check(op) =>
      if IsStale(s, s.operations[op].kind.sink)
      then s.(lock := None, operations := At(s, op, Ended(StaleLoginGeneration)))
      else s.(operations := At(s, op, Checked))
    case Commit(op, fallback) =>
      s.(vault := Committed(s.vault, ChangeOf(s, s.operations[op].kind, fallback)), operations := At(s, op, Stored))
    case Refuse(op, saved) =>
      s.(lock := None, operations := At(s, op, Ended(if saved then RowNotFound else DatabaseFailure)))
    case Finish(op) =>
      var kind, done := s.operations[op].kind, s.(lock := None, operations := At(s, op, Ended(Written)));
      if AdvancesAccount(kind)
      then done.(vault := Advanced(s.vault, kind.acct), ledger := s.ledger + [kind.acct]) else done
    case Drop(op) =>
      s.(lock := if s.lock == Some(op) then None else s.lock, operations := At(s, op, Dropped))
  }

  /** The operation waits, the lock is free, and nothing will make it refuse. */
  ghost predicate Ready(s: Store, op: nat, fallback: Option<string>) {
    && op in s.operations && s.operations[op].stage.Waiting? && s.lock == None
    && ReadyKind(s, s.operations[op].kind, fallback)
  }

  ghost predicate ReadyKind(s: Store, kind: Kind, fallback: Option<string>) {
    match kind
    case Login(_, _) => true
    case Logout(acct) => acct in s.vault.rows && IsFallback(s.vault.rows, acct, fallback)
    case Rotation(sink, _) => Usable(s, sink) && !IsStale(s, sink) && s.sinks[sink].acct in s.vault.rows
    case Overwrite(acct, _) => acct in s.vault.rows
  }

  /** The steps of an operation that runs without interruption. */
  function Section(op: nat, kind: Kind, fallback: Option<string>): seq<Step> {
    [Enter(op)] + (if kind.Rotation? then [Check(op)] else []) + [Commit(op, fallback), Finish(op)]
  }

  /** Takes steps one after the other, as far as they are enabled. */
  ghost function Played(s: Store, steps: seq<Step>): Store
    decreases steps
  {
    if steps == [] || !Enabled(s, steps[0]) then s else Played(Next(s, steps[0]), steps[1..])
  }

  lemma PlayedFirst(s: Store, step: Step, rest: seq<Step>)
    requires Enabled(s, step)
    ensures Played(s, [step] + rest) == Played(Next(s, step), rest)
  {
    hide Enabled, Next;
    assert ([step] + rest)[1..] == rest;
  }

  /** What the method of an operation makes of the vault. */
  function MethodResult(s: Store, kind: Kind, fallback: Option<string>): Vault
    requires kind.Rotation? ==> kind.sink in s.sinks
  {
    var changed := Committed(s.vault, ChangeOf(s, kind, fallback));
    if AdvancesAccount(kind) then Advanced(changed, kind.acct) else changed
  }

  lemma CommitAndFinish(s: Store, op: nat, fallback: Option<string>)
    requires op in s.operations && MayWrite(s.operations[op]) && ReadyKind(s, s.operations[op].kind, fallback)
    ensures Played(s, [Commit(op, fallback), Finish(op)]).vault == MethodResult(s, s.operations[op].kind, fallback)
  {
    hide Committed, Advanced, IsFallback, IsStale;
    assert Enabled(s, Commit(op, fallback));
    var stored := Next(s, Commit(op, fallback));
    assert [Commit(op, fallback)] + [Finish(op)] == [Commit(op, fallback), Finish(op)];
    assert [Finish(op)] + [] == [Finish(op)];
    PlayedFirst(s, Commit(op, fallback), [Finish(op)]);
    PlayedFirst(stored, Finish(op), []);
  }

  /** An operation that runs without interruption does exactly what its method does. */
  lemma UninterruptedIsMethod(s: Store, op: nat, fallback: Option<string>)
    requires Ready(s, op, fallback)
    ensures Played(s, Section(op, s.operations[op].kind, fallback)).vault
         == MethodResult(s, s.operations[op].kind, fallback)
  {
    var kind, ending := s.operations[op].kind, [Commit(op, fallback), Finish(op)];
    var entered := Next(s, Enter(op));
    hide Committed, Advanced, IsFallback, Generation;
    if kind.Rotation? {
      var checked := Next(entered, Check(op));
      PlayedFirst(entered, Check(op), ending);
      CommitAndFinish(checked, op, fallback);
      assert Section(op, kind, fallback) == [Enter(op)] + ([Check(op)] + ending);
      PlayedFirst(s, Enter(op), [Check(op)] + ending);
    } else {
      CommitAndFinish(entered, op, fallback);
      assert Section(op, kind, fallback) == [Enter(op)] + ending;
      PlayedFirst(s, Enter(op), ending);
    }
    hide Played, Enabled, Next;
  }

  // ---- what every step keeps -----------------------------------------------------------------------

  function Count(ledger: seq<string>, acct: string): nat {
    if ledger == [] then 0
    else Count(ledger[..|ledger| - 1], acct) + if ledger[|ledger| - 1] == acct then 1 else 0
  }

  ghost predicate LockInv(s: Store) {
    forall op: nat :: Holds(s, op) <==> s.lock == Some(op)
  }

  ghost predicate CounterInv(s: Store) {
    forall acct :: Generation(s.vault, acct) == Count(s.ledger, acct)
  }

  ghost predicate SinkInv(s: Store) {
    forall k :: k in s.sinks ==>
      && s.sinks[k].created <= |s.ledger|
      && (s.sinks[k].expected.Some? ==>
            s.sinks[k].expected.value == Count(s.ledger[..s.sinks[k].created], s.sinks[k].acct))
  }

  /** Between its check and its end a rotation's sink stays fresh: the lock is held. */
  ghost predicate RotationOk(s: Store, o: Operation) {
    o.kind.Rotation? ==>
      Usable(s, o.kind.sink) && (o.stage.Checked? ==> !IsStale(s, o.kind.sink))
  }

  ghost predicate RotationInv(s: Store) {
    forall op :: op in s.operations ==> RotationOk(s, s.operations[op])
  }

  ghost predicate Inv(s: Store) { LockInv(s) && CounterInv(s) && SinkInv(s) && RotationInv(s) }

  lemma CountAppend(ledger: seq<string>, acct: string)
    ensures forall a :: Count(ledger + [acct], a) == Count(ledger, a) + if a == acct then 1 else 0
  {
    assert (ledger + [acct])[..|ledger|] == ledger;
  }

  lemma LockStep(s: Store, step: Step)
    requires LockInv(s) && Enabled(s, step)
    ensures LockInv(Next(s, step))
  {
    hide Committed, Advanced, Fetched, IsFallback, IsStale;
    match step {
      case Check(op) => assert Holds(s, op);
      case Commit(op, _) => assert Holds(s, op);
      case Refuse(op, _) => assert Holds(s, op);
      case Finish(op) => assert Holds(s, op);
      case Drop(op) => assert Holds(s, op) <==> s.lock == Some(op);
      case _ =>
    }
  }

  lemma CommitKeepsGenerations(v: Vault, change: Change)
    ensures Committed(v, change).generations == v.generations
  {
  }

  /** Generations and ledger move together, and only when a login or logout finishes. */
  lemma GenerationStep(s: Store, step: Step)
    requires Enabled(s, step)
    ensures var t := Next(s, step);
            if step.Finish? && AdvancesAccount(s.operations[step.op].kind) then
              var acct := s.operations[step.op].kind.acct;
              t.ledger == s.ledger + [acct]
              && forall a :: Generation(t.vault, a) == Generation(s.vault, a) + if a == acct then 1 else 0
            else t.ledger == s.ledger && forall a :: Generation(t.vault, a) == Generation(s.vault, a)
  {
    if step.Commit? {
      CommitKeepsGenerations(s.vault, ChangeOf(s, s.operations[step.op].kind, step.fallback));
    }
    hide Committed, IsFallback, IsStale, Holds;
  }

  lemma CounterStep(s: Store, step: Step)
    requires CounterInv(s) && Enabled(s, step)
    ensures CounterInv(Next(s, step))
  {
    GenerationStep(s, step);
    if step.Finish? && AdvancesAccount(s.operations[step.op].kind) {
      CountAppend(s.ledger, s.operations[step.op].kind.acct);
    }
    hide Next, Enabled, Generation, Count;
  }

  lemma SinkStep(s: Store, step: Step)
    requires CounterInv(s) && SinkInv(s) && Enabled(s, step)
    ensures SinkInv(Next(s, step))
  {
    var t := Next(s, step);
    GenerationStep(s, step);
    assert s.ledger <= t.ledger;
    assert s.ledger[..|s.ledger|] == s.ledger;
    forall k | k in s.sinks && s.sinks[k].created <= |s.ledger|
      ensures t.ledger[..s.sinks[k].created] == s.ledger[..s.sinks[k].created]
    {
    }
    hide Committed, IsFallback, IsStale, Holds, Count, Generation;
  }

  lemma UsableLasts(s: Store, step: Step, k: nat)
    requires Enabled(s, step) && Usable(s, k)
    ensures k in Next(s, step).sinks && Next(s, step).sinks[k] == s.sinks[k]
  {
  }

  lemma NoOtherChecked(s: Store, op: nat)
    requires LockInv(s) && Holds(s, op)
    ensures forall other :: other in s.operations && other != op ==> !s.operations[other].stage.Checked?
  {
    forall other | other in s.operations && other != op ensures !s.operations[other].stage.Checked? {
      assert Holds(s, other) <==> s.lock == Some(other);
    }
  }

  /** What an operation of the next state was before the step. */
  lemma OperationBefore(s: Store, step: Step, op: nat)
    requires Enabled(s, step) && op in Next(s, step).operations
    ensures var o := Next(s, step).operations[op];
            if op in s.operations then
              && o.kind == s.operations[op].kind
              && (o.stage.Checked? ==> s.operations[op].stage.Checked?
                                       || (step == Check(op) && !IsStale(s, o.kind.sink)))
            else step == Begin(op, o.kind) && !o.stage.Checked?
  {
    hide Committed, Advanced, Fetched, IsFallback;
  }

  lemma RotationStep(s: Store, step: Step)
    requires Inv(s) && Enabled(s, step)
    ensures RotationInv(Next(s, step))
  {
    var t := Next(s, step);
    forall op | op in t.operations ensures RotationOk(t, t.operations[op]) {
      OperationBefore(s, step, op);
      RotationLasts(s, step, op);
    }
    hide *;
  }

  lemma RotationLasts(s: Store, step: Step, op: nat)
    requires LockInv(s) && RotationInv(s) && Enabled(s, step) && op in Next(s, step).operations
    ensures RotationOk(Next(s, step), Next(s, step).operations[op])
  {
    var o := Next(s, step).operations[op];
    if o.kind.Rotation? {
      OperationBefore(s, step, op);
      assert op in s.operations ==> RotationOk(s, s.operations[op]);
      assert Usable(s, o.kind.sink);
      UsableLasts(s, step, o.kind.sink);
      GenerationStep(s, step);
      if step.Finish? {
        assert Holds(s, step.op);
        NoOtherChecked(s, step.op);
      }
      hide Next, Enabled, LockInv, Generation;
    }
  }

  lemma StepInv(s: Store, step: Step)
    requires Inv(s) && Enabled(s, step)
    ensures Inv(Next(s, step))
  {
    hide LockInv, CounterInv, SinkInv, RotationInv, Enabled, Next;
    LockStep(s, step);
    CounterStep(s, step);
    SinkStep(s, step);
    RotationStep(s, step);
  }

  ghost predicate IsRun(states: seq<Store>, steps: seq<Step>) {
    && |states| == |steps| + 1
    && IsStart(states[0])
    && forall i :: 0 <= i < |steps| ==> Enabled(states[i], steps[i]) && states[i + 1] == Next(states[i], steps[i])
  }

  lemma {:induction false} RunInv(states: seq<Store>, steps: seq<Step>, i: nat)
    requires IsRun(states, steps) && i < |states|
    ensures Inv(states[i])
  {
    if i == 0 {
      assert Inv(states[0]);
    } else {
      RunInv(states, steps, i - 1);
      hide Inv, Next, Enabled;
      StepInv(states[i - 1], steps[i - 1]);
    }
  }

  // ---- the fence -------------------------------------------------------------------------------------

  lemma {:induction false} CountAdds(ledger: seq<string>, k: nat, acct: string)
    requires k <= |ledger|
    ensures Count(ledger, acct) >= Count(ledger[..k], acct)
    ensures Count(ledger, acct) == Count(ledger[..k], acct) <==> acct !in ledger[k..]
  {
    var n := |ledger|;
    if k == n {
      assert ledger[..k] == ledger;
    } else {
      CountAdds(ledger[..n - 1], k, acct);
      assert ledger[..n - 1][..k] == ledger[..k];
      assert ledger[k..] == ledger[..n - 1][k..] + [ledger[n - 1]];
    }
  }

  /** A sink is stale exactly when a login or logout of its own account has advanced the
      generation since the sink read it: other accounts never invalidate it. */
  lemma StaleIff(states: seq<Store>, steps: seq<Step>, i: nat, k: nat)
    requires IsRun(states, steps) && i < |states| && Usable(states[i], k)
    ensures states[i].sinks[k].created <= |states[i].ledger|
    ensures IsStale(states[i], k) <==> states[i].sinks[k].acct in states[i].ledger[states[i].sinks[k].created..]
  {
    RunInv(states, steps, i);
    CountAdds(states[i].ledger, states[i].sinks[k].created, states[i].sinks[k].acct);
  }

  /** A sink that has read its counter never changes, and the ledger only grows. */
  lemma {:induction false} SinkLasts(states: seq<Store>, steps: seq<Step>, first: nat, last: nat, k: nat)
    requires IsRun(states, steps) && first <= last < |states| && Usable(states[first], k)
    ensures k in states[last].sinks && states[last].sinks[k] == states[first].sinks[k]
    ensures states[first].ledger <= states[last].ledger
    decreases last - first
  {
    hide Next, Enabled;
    if first < last {
      SinkLasts(states, steps, first, last - 1, k);
      UsableLasts(states[last - 1], steps[last - 1], k);
      GenerationStep(states[last - 1], steps[last - 1]);
    }
  }

  /** The step ends a login or logout of `acct` by advancing its generation. */
  ghost predicate Advances(s: Store, step: Step, acct: string) {
    step.Finish? && step.op in s.operations
    && AdvancesAccount(s.operations[step.op].kind) && s.operations[step.op].kind.acct == acct
  }

  lemma StaleForever(states: seq<Store>, steps: seq<Step>, advance: nat, later: nat, k: nat)
    requires IsRun(states, steps) && advance < later < |states| && Usable(states[advance], k)
    requires Advances(states[advance], steps[advance], states[advance].sinks[k].acct)
    ensures Usable(states[later], k) && states[later].sinks[k] == states[advance].sinks[k]
    ensures IsStale(states[later], k)
  {
    var acct, created := states[advance].sinks[k].acct, states[advance].sinks[k].created;
    StaleIff(states, steps, advance, k);
    SinkLasts(states, steps, advance, later, k);
    SinkLasts(states, steps, advance, advance + 1, k);
    SinkLasts(states, steps, advance + 1, later, k);
    StaleIff(states, steps, later, k);
    GenerationStep(states[advance], steps[advance]);
    hide IsRun, IsStale, Next, Enabled;
    assert states[advance + 1].ledger == states[advance].ledger + [acct];
    assert states[later].ledger[|states[advance].ledger|] == acct;
    assert states[later].ledger[created..][|states[advance].ledger| - created] == acct;
  }

  /** Login fence, for every interleaving of logins, logouts, sink creations, rotations and
      dropped calls: after a login or logout advanced an account's generation, every check by a
      sink that had read its counter before ends as stale, and no step of an operation of that
      sink ever changes a row. */
  lemma LoginFence(states: seq<Store>, steps: seq<Step>, advance: nat, later: nat, op: nat)
    requires IsRun(states, steps) && advance < later < |steps|
    requires op in states[later].operations && states[later].operations[op].kind.Rotation?
    requires var k := states[later].operations[op].kind.sink;
             Usable(states[advance], k) && Advances(states[advance], steps[advance], states[advance].sinks[k].acct)
    ensures steps[later] == Check(op) ==>
              states[later + 1].operations[op].stage == Ended(StaleLoginGeneration)
    ensures !(steps[later].Commit? && steps[later].op == op)
    ensures !steps[later].FetchCounter? && !steps[later].ReadCounter? && steps[later].op == op ==>
              states[later + 1].vault == states[later].vault
  {
    var k := states[later].operations[op].kind.sink;
    StaleForever(states, steps, advance, later, k);
    RunInv(states, steps, later);
    assert RotationOk(states[later], states[later].operations[op]);
    assert states[later + 1] == Next(states[later], steps[later]);
    hide CounterInv, SinkInv, LockInv, Count, IsStale, Committed, IsFallback;
  }
}
