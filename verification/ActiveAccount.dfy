/** Which account is active, and which accounts columns are bound to, in all interleavings. */
module ActiveAccount {
  import opened Basics
  import opened CredentialVault
  import opened CredentialFence

  /** Exactly one account is active if there is any, and columns are bound to existing accounts. */
  ghost predicate Consistent(v: Vault) {
    && (v.rows != map[] ==> exists a :: ActiveAlone(v.rows, a))
    && (forall c :: c in v.columns && v.columns[c].Some? ==> v.columns[c].value in v.rows)
  }

  ghost predicate ActiveAlone(rows: Rows, acct: string) {
    acct in rows && forall a :: a in rows ==> (rows[a].active <==> a == acct)
  }

  lemma CommitConsistent(v: Vault, change: Change)
    requires Consistent(v)
    requires change.LogsOut? ==> IsFallback(v.rows, change.acct, change.fallback)
    ensures Consistent(Committed(v, change))
  {
    var next := Committed(v, change);
    match change {
      case LogsIn(acct, _) => assert ActiveAlone(next.rows, acct);
      case LogsOut(acct, fallback) =>
        match fallback {
          case Some(f) => assert ActiveAlone(next.rows, f);
          case None => assert next.rows == map[];
        }
      case Rotates(acct, _) =>
        if v.rows != map[] {
          var a :| ActiveAlone(v.rows, a);
          assert ActiveAlone(next.rows, a);
        }
    }
    hide Preferred;
  }

  /** In every interleaving, dropped calls and failures included, exactly one account is active
      while there is any, and no column is bound to a removed account. */
  lemma {:induction false} AccountsStayConsistent(states: seq<Store>, steps: seq<Step>, i: nat)
    requires IsRun(states, steps) && i < |states| && Consistent(states[0].vault)
    ensures Consistent(states[i].vault)
  {
    if i > 0 {
      AccountsStayConsistent(states, steps, i - 1);
      ConsistentStep(states[i - 1], steps[i - 1]);
      hide Consistent, Enabled, Next;
    }
  }

  lemma ConsistentStep(s: Store, step: Step)
    requires Enabled(s, step) && Consistent(s.vault)
    ensures Consistent(Next(s, step).vault)
  {
    hide Committed, IsFallback, ActiveAlone, IsStale, Holds;
    if step.Commit? {
      CommitConsistent(s.vault, ChangeOf(s, s.operations[step.op].kind, step.fallback));
    }
  }
}
