/** Logins and logouts whose call is dropped in the middle: the one gap of the login fence. */
module CredentialGap {
  import opened Basics
  import opened CredentialVault
  import opened CredentialFence

  /** What became of an operation whose transaction has committed. */
  ghost predicate AfterStored(states: seq<Store>, steps: seq<Step>, stored: nat, later: nat, op: nat)
    requires later <= |steps| < |states|
  {
    && op in states[later].operations
    && match states[later].operations[op].stage
       case Stored => true
       case Ended(_) => exists f :: stored < f < later && steps[f] == Finish(op)
       case Dropped =>
         exists d :: stored < d < later && steps[d] == Drop(op)
                     && op in states[d].operations && states[d].operations[op].stage.Stored?
       case _ => false
  }

  lemma StoredStep(s: Store, step: Step, op: nat)
    requires Enabled(s, step) && op in s.operations
    ensures var t := Next(s, step);
            && op in t.operations && t.operations[op].kind == s.operations[op].kind
            && match s.operations[op].stage
               case Stored =>
                 || t.operations[op].stage.Stored?
                 || (t.operations[op].stage.Ended? && step == Finish(op))
                 || (t.operations[op].stage.Dropped? && step == Drop(op))
               case Ended(_) => t.operations[op] == s.operations[op]
               case Dropped => t.operations[op] == s.operations[op]
               case _ => true
  {
    hide Committed, Advanced, Fetched, IsFallback, IsStale;
  }

  lemma {:induction false} StoredEnds(states: seq<Store>, steps: seq<Step>, stored: nat, later: nat, op: nat)
    requires IsRun(states, steps) && stored < later < |states|
    requires steps[stored].Commit? && steps[stored].op == op
    ensures AfterStored(states, steps, stored, later, op)
    ensures op in states[stored].operations && states[later].operations[op].kind == states[stored].operations[op].kind
    decreases later
  {
    var last := later - 1;
    assert states[later] == Next(states[last], steps[last]);
    if last > stored {
      StoredEnds(states, steps, stored, last, op);
      StoredStep(states[last], steps[last], op);
      hide Next, Enabled;
      match states[last].operations[op].stage {
        case Ended(_) =>
          var f :| stored < f < last && steps[f] == Finish(op);
          assert stored < f < later && steps[f] == Finish(op);
        case Dropped =>
          var d :| stored < d < last && steps[d] == Drop(op)
                   && op in states[d].operations && states[d].operations[op].stage.Stored?;
          assert stored < d < later && steps[d] == Drop(op);
        case _ =>
      }
    }
  }

  /** The fence has one gap: a login or logout that has written its row but is dropped before it
      advances the generation. A sink that had read its counter before that write can itself
      commit afterwards only if the call was dropped at exactly that point. */
  lemma OnlyDroppedWritesAreOverwritten(
    states: seq<Store>, steps: seq<Step>, stored: nat, later: nat, call: nat, op: nat)
    requires IsRun(states, steps) && stored < later < |steps|
    requires steps[stored].Commit? && steps[stored].op == call
    requires steps[later].Commit? && steps[later].op == op && op in states[later].operations
    requires call in states[stored].operations && AdvancesAccount(states[stored].operations[call].kind)
    requires var kind := states[later].operations[op].kind;
             && kind.Rotation? && Usable(states[stored], kind.sink)
             && states[stored].sinks[kind.sink].acct == states[stored].operations[call].kind.acct
    ensures exists d :: stored < d < later && steps[d] == Drop(call)
                        && call in states[d].operations && states[d].operations[call].stage.Stored?
  {
    var k, acct := states[later].operations[op].kind.sink, states[stored].operations[call].kind.acct;
    StoredEnds(states, steps, stored, later, call);
    RunInv(states, steps, later);
    HoldersAgree(states[later], steps[later], call);
    if states[later].operations[call].stage.Ended? {
      var f :| stored < f < later && steps[f] == Finish(call);
      StoredEnds(states, steps, stored, f, call);
      SinkLasts(states, steps, stored, f, k);
      assert Advances(states[f], steps[f], acct);
      LoginFence(states, steps, f, later, op);
    }
  }

  /** While one operation commits no other one is past its own commit and before its end. */
  lemma HoldersAgree(s: Store, step: Step, call: nat)
    requires LockInv(s) && Enabled(s, step) && step.Commit? && call in s.operations
    ensures s.operations[call].stage.Stored? ==> false
  {
    assert Holds(s, step.op);
    assert Holds(s, call) <==> s.lock == Some(call);
  }

  // The operations of such a run: a login, and a rotation by a sink created before it.

  function LoginAt(acct: string, c: Credentials, stage: Stage): Operation { Operation(Login(acct, c), stage) }

  function RotationAt(c: Credentials, stage: Stage): Operation { Operation(Rotation(0, c), stage) }

  function Both(vault: Vault, acct: string, lock: Option<nat>, login: Operation, rotation: Operation): Store {
    Store(vault, map[0 := Sink(acct, Some(0), 0)], lock, map[0 := login, 1 := rotation], [])
  }

  lemma ItBegins(start: Store, acct: string, login: Credentials, rotation: Credentials)
    returns (states: seq<Store>, steps: seq<Step>)
    requires IsStart(start)
    ensures IsRun(states, steps) && |steps| == 4 && |states| == 5 && states[0] == start
    ensures states[4]
         == Both(Fetched(start.vault, acct), acct, None, LoginAt(acct, login, Waiting), RotationAt(rotation, Waiting))
  {
    var fetched := Fetched(start.vault, acct);
    steps := [FetchCounter(0, acct), ReadCounter(0), Begin(0, Login(acct, login)), Begin(1, Rotation(0, rotation))];
    var s1 := Store(fetched, map[0 := Sink(acct, None, 0)], None, map[], []);
    var s2 := s1.(sinks := map[0 := Sink(acct, Some(0), 0)]);
    var s3 := s2.(operations := map[0 := LoginAt(acct, login, Waiting)]);
    var s4 := Both(fetched, acct, None, LoginAt(acct, login, Waiting), RotationAt(rotation, Waiting));
    assert Generation(fetched, acct) == 0;
    hide Fetched, Generation;
    assert Enabled(start, steps[0]) && Next(start, steps[0]) == s1;
    assert Enabled(s1, steps[1]) && Next(s1, steps[1]) == s2;
    assert Enabled(s2, steps[2]) && Next(s2, steps[2]) == s3;
    assert Enabled(s3, steps[3]) && Next(s3, steps[3]) == s4;
    states := [start, s1, s2, s3, s4];
    hide Enabled, Next;
  }

  lemma LoginEnters(v: Vault, acct: string, login: Credentials, other: Operation)
    ensures var waiting := Both(v, acct, None, LoginAt(acct, login, Waiting), other);
            Enabled(waiting, Enter(0))
            && Next(waiting, Enter(0)) == Both(v, acct, Some(0), LoginAt(acct, login, Entered), other)
  {
  }

  lemma LoginCommits(v: Vault, acct: string, login: Credentials, other: Operation)
    ensures var entered := Both(v, acct, Some(0), LoginAt(acct, login, Entered), other);
            var stored := Committed(v, LogsIn(acct, login));
            Enabled(entered, Commit(0, None))
            && Next(entered, Commit(0, None)) == Both(stored, acct, Some(0), LoginAt(acct, login, Stored), other)
  {
    hide Committed, IsFallback;
  }

  lemma LoginDrops(v: Vault, acct: string, login: Credentials, other: Operation)
    ensures var committed := Both(v, acct, Some(0), LoginAt(acct, login, Stored), other);
            Enabled(committed, Drop(0))
            && Next(committed, Drop(0)) == Both(v, acct, None, LoginAt(acct, login, Dropped), other)
  {
  }

  lemma RotationSteps(v: Vault, acct: string, c: Credentials, other: Operation)
    requires Generation(v, acct) == 0 && acct in v.rows
    ensures var waiting := Both(v, acct, None, other, RotationAt(c, Waiting));
            var entered := Both(v, acct, Some(1), other, RotationAt(c, Entered));
            var checked := Both(v, acct, Some(1), other, RotationAt(c, Checked));
            var committed := Both(Committed(v, Rotates(acct, c)), acct, Some(1), other, RotationAt(c, Stored));
            && Enabled(waiting, Enter(1)) && Next(waiting, Enter(1)) == entered
            && Enabled(entered, Check(1)) && Next(entered, Check(1)) == checked
            && Enabled(checked, Commit(1, None)) && Next(checked, Commit(1, None)) == committed
  {
    hide Committed, IsFallback, Generation;
  }

  lemma TokensWritten(v: Vault, acct: string, login: Credentials, rotation: Credentials)
    ensures var stored := Committed(Fetched(v, acct), LogsIn(acct, login));
            var last := Committed(stored, Rotates(acct, rotation));
            && Generation(stored, acct) == Generation(v, acct)
            && acct in stored.rows && stored.rows[acct].token == login.token
            && acct in last.rows && last.rows[acct].token == rotation.token
  {
  }

  /** A run with that gap: the token of a sink created before the login replaces the login's. */
  lemma DroppedLoginIsOverwritten(start: Store, acct: string, login: Credentials, rotation: Credentials)
    returns (states: seq<Store>, steps: seq<Step>)
    requires IsStart(start)
    ensures IsRun(states, steps) && states[0] == start && |steps| == 10
    ensures steps[5] == Commit(0, None)
    ensures 0 in states[5].operations && states[5].operations[0].kind == Login(acct, login)
    ensures acct in states[6].vault.rows && states[6].vault.rows[acct].token == login.token
    ensures steps[6] == Drop(0) && steps[9] == Commit(1, None)
    ensures acct in states[10].vault.rows && states[10].vault.rows[acct].token == rotation.token
  {
    assert Generation(start.vault, acct) == 0;
    hide Committed, Fetched, Generation, Enabled, Next, IsStart, IsRun;
    var fetched := Fetched(start.vault, acct);
    TokensWritten(start.vault, acct, login, rotation);
    states, steps := ItBegins(start, acct, login, rotation);
    states, steps := LoginThenDropped(states, steps, fetched, acct, login, RotationAt(rotation, Waiting));
    states, steps := DroppedThenOverwritten(states, steps, Committed(fetched, LogsIn(acct, login)), acct,
                                            LoginAt(acct, login, Dropped), rotation);
  }

  lemma LoginThenDropped(
    states: seq<Store>, steps: seq<Step>, v: Vault, acct: string, login: Credentials, other: Operation)
    returns (moreStates: seq<Store>, moreSteps: seq<Step>)
    requires IsRun(states, steps) && |states| == |steps| + 1
    requires states[|steps|] == Both(v, acct, None, LoginAt(acct, login, Waiting), other)
    ensures IsRun(moreStates, moreSteps) && |moreStates| == |moreSteps| + 1 && |moreSteps| == |steps| + 3
    ensures states <= moreStates && steps <= moreSteps
    ensures moreSteps[|steps| + 1] == Commit(0, None) && moreSteps[|steps| + 2] == Drop(0)
    ensures moreStates[|steps| + 1] == Both(v, acct, Some(0), LoginAt(acct, login, Entered), other)
    ensures moreStates[|steps| + 2].vault == Committed(v, LogsIn(acct, login))
    ensures moreStates[|steps| + 3]
         == Both(Committed(v, LogsIn(acct, login)), acct, None, LoginAt(acct, login, Dropped), other)
  {
    hide Committed, Generation, Enabled, Next, IsRun;
    var stored := Committed(v, LogsIn(acct, login));
    LoginEnters(v, acct, login, other);
    LoginCommits(v, acct, login, other);
    LoginDrops(stored, acct, login, other);
    moreStates, moreSteps := Continued(states, steps, Enter(0),
      Both(v, acct, Some(0), LoginAt(acct, login, Entered), other));
    moreStates, moreSteps := Continued(moreStates, moreSteps, Commit(0, None),
      Both(stored, acct, Some(0), LoginAt(acct, login, Stored), other));
    moreStates, moreSteps := Continued(moreStates, moreSteps, Drop(0),
      Both(stored, acct, None, LoginAt(acct, login, Dropped), other));
  }

  lemma DroppedThenOverwritten(
    states: seq<Store>, steps: seq<Step>, v: Vault, acct: string, dropped: Operation, rotation: Credentials)
    returns (moreStates: seq<Store>, moreSteps: seq<Step>)
    requires IsRun(states, steps) && |states| == |steps| + 1
    requires states[|steps|] == Both(v, acct, None, dropped, RotationAt(rotation, Waiting))
    requires Generation(v, acct) == 0 && acct in v.rows
    ensures IsRun(moreStates, moreSteps) && |moreStates| == |moreSteps| + 1 && |moreSteps| == |steps| + 3
    ensures states <= moreStates && steps <= moreSteps && moreSteps[|steps| + 2] == Commit(1, None)
    ensures moreStates[|moreSteps|].vault == Committed(v, Rotates(acct, rotation))
  {
    hide Committed, Generation, Enabled, Next, IsRun;
    RotationSteps(v, acct, rotation, dropped);
    moreStates, moreSteps := Continued(states, steps, Enter(1),
      Both(v, acct, Some(1), dropped, RotationAt(rotation, Entered)));
    moreStates, moreSteps := Continued(moreStates, moreSteps, Check(1),
      Both(v, acct, Some(1), dropped, RotationAt(rotation, Checked)));
    moreStates, moreSteps := Continued(moreStates, moreSteps, Commit(1, None),
      Both(Committed(v, Rotates(acct, rotation)), acct, Some(1), dropped, RotationAt(rotation, Stored)));
  }

  lemma Continued(states: seq<Store>, steps: seq<Step>, step: Step, t: Store)
    returns (moreStates: seq<Store>, moreSteps: seq<Step>)
    requires IsRun(states, steps) && |states| == |steps| + 1
    requires Enabled(states[|steps|], step) && t == Next(states[|steps|], step)
    ensures moreStates == states + [t] && moreSteps == steps + [step]
    ensures IsRun(moreStates, moreSteps) && |moreStates| == |moreSteps| + 1
  {
    moreStates, moreSteps := states + [t], steps + [step];
    hide Enabled, Next;
  }
}
