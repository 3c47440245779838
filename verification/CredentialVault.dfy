/** The credential store (src/auth/credential_store.rs) with the account queries it makes
    (src/db/queries/settings.rs): what one login, rotation or logout does. */
module CredentialVault {
  import opened Basics

  datatype Credentials = Credentials(token: string, password: Option<string>)

  datatype Row = Row(token: string, password: Option<string>, active: bool)
  type Rows = map<string, Row>

  /** The account a column is bound to, if any, by column id. */
  type Bindings = map<string, Option<string>>

  /** What the store keeps: the database tables, and one login generation per known account. */
  datatype Vault = Vault(rows: Rows, columns: Bindings, generations: map<string, nat>)

  // ---- transitions shared by the methods and the interleavings ---------------------------------

  /** A missing password keeps the stored one. */
  function Coalesce(password: Option<string>, stored: Option<string>): Option<string> {
    if password.Some? then password else stored
  }

  /** Only the chosen account is active. */
  function Activated(rows: Rows, chosen: Option<string>): Rows {
    map acct | acct in rows :: rows[acct].(active := chosen == Some(acct))
  }

  function LoggedIn(rows: Rows, acct: string, c: Credentials): Rows {
    var stored := if acct in rows then rows[acct].password else None;
    Activated(rows[acct := Row(c.token, Coalesce(c.password, stored), true)], Some(acct))
  }

  function Rotated(rows: Rows, acct: string, c: Credentials): Rows {
    if acct in rows
    then rows[acct := Row(c.token, Coalesce(c.password, rows[acct].password), rows[acct].active)]
    else rows
  }

  /** Columns of a removed account pass to the fallback account, or go with it. */
  function Reassigned(columns: Bindings, acct: string, fallback: Option<string>): Bindings {
    match fallback
    case Some(_) => map c | c in columns :: if columns[c] == Some(acct) then fallback else columns[c]
    case None => map c | c in columns && columns[c] != Some(acct) :: columns[c]
  }

  /** `a` is preferred to `b` as a fallback: active ones first, then by name. */
  predicate Preferred(rows: Rows, a: string, b: string)
    requires a in rows && b in rows
  {
    if rows[a].active == rows[b].active then StringLeq(a, b) else rows[a].active
  }

  /** The preferred one of some accounts other than `acct`. */
  ghost predicate IsFallbackAmong(rows: Rows, among: set<string>, acct: string, fallback: Option<string>) {
    match fallback
    case None => among <= {acct}
    case Some(f) =>
      && f in among && f in rows && f != acct
      && forall other :: other in among && other in rows && other != acct ==> Preferred(rows, f, other)
  }

  /** The account that takes over when `acct` is removed. */
  ghost predicate IsFallback(rows: Rows, acct: string, fallback: Option<string>) {
    IsFallbackAmong(rows, rows.Keys, acct, fallback)
  }

  /** One database transaction. */
  datatype Change =
    | LogsIn(acct: string, credentials: Credentials)
    | LogsOut(acct: string, fallback: Option<string>)
    | Rotates(acct: string, credentials: Credentials)

  function Committed(v: Vault, change: Change): Vault {
    match change
    case LogsIn(acct, c) => v.(rows := LoggedIn(v.rows, acct, c))
    case LogsOut(acct, fallback) =>
      v.(rows := Activated(v.rows - {acct}, fallback), columns := Reassigned(v.columns, acct, fallback))
    case Rotates(acct, c) => v.(rows := Rotated(v.rows, acct, c))
  }

  function Generation(v: Vault, acct: string): nat {
    if acct in v.generations then v.generations[acct] else 0
  }

  /** The account has a counter, zero at first. */
  function Fetched(v: Vault, acct: string): Vault {
    v.(generations := v.generations[acct := Generation(v, acct)])
  }

  function Advanced(v: Vault, acct: string): Vault {
    v.(generations := v.generations[acct := Generation(v, acct) + 1])
  }

  lemma {:induction false} AdvancedFromFetched(v: Vault, fetched: Vault, acct: string)
    requires fetched == Fetched(v, acct)
    ensures acct in fetched.generations
    ensures Advanced(v, acct) == fetched.(generations := fetched.generations[acct := fetched.generations[acct] + 1])
  {
  }

  datatype WriteResult = Written | StaleLoginGeneration | RowNotFound | DatabaseFailure

  /** What an update of one row answers; `saved` is false if the database fails. */
  function UpdateResult(v: Vault, acct: string, saved: bool): WriteResult {
    if !saved then DatabaseFailure else if acct in v.rows then Written else RowNotFound
  }

  // ---- the store, one critical section per method ----------------------------------------------

  /** The shared counter of one account. */
  class Counter {
    var value: nat

    constructor ()
      ensures value == 0
    {
      value := 0;
    }
  }

  class AccountCredentialSink {
    const acct: string
    const generation: Counter
    const expectedGeneration: nat

    constructor (acct: string, generation: Counter, expectedGeneration: nat)
      ensures this.acct == acct && this.generation == generation && this.expectedGeneration == expectedGeneration
    {
      this.acct, this.generation, this.expectedGeneration := acct, generation, expectedGeneration;
    }
  }

  class CredentialStore {
    var rows: Rows
    var columns: Bindings
    var accountGenerations: map<string, Counter>

    /** Every account has its own counter. */
    ghost predicate Valid()
      reads this
    {
      forall a, b :: a in accountGenerations && b in accountGenerations && a != b
        ==> accountGenerations[a] != accountGenerations[b]
    }

    ghost function State(): Vault
      reads this, accountGenerations.Values
    {
      Vault(rows, columns, map a | a in accountGenerations :: accountGenerations[a].value)
    }

    /** `sink` watches the counter of its account. */
    ghost predicate Watches(sink: AccountCredentialSink)
      reads this
    {
      sink.acct in accountGenerations && sink.generation == accountGenerations[sink.acct]
    }

    constructor (rows: Rows, columns: Bindings)
      ensures Valid() && State() == Vault(rows, columns, map[])
    {
      this.rows, this.columns, accountGenerations := rows, columns, map[];
    }

    /** Counters are never replaced, so whatever watches one keeps watching it. */
    method GenerationForAccount(acct: string) returns (counter: Counter)
      requires Valid()
      modifies this`accountGenerations
      ensures Valid() && acct in accountGenerations && counter == accountGenerations[acct]
      ensures State() == Fetched(old(State()), acct)
      ensures counter in old(accountGenerations.Values) || fresh(counter)
      ensures forall a :: a in old(accountGenerations) ==>
                a in accountGenerations && accountGenerations[a] == old(accountGenerations)[a]
    {
      if acct !in accountGenerations {
        var created := new Counter();
        accountGenerations := accountGenerations[acct := created];
      }
      counter := accountGenerations[acct];
    }

    method BlueskySink(acct: string) returns (sink: AccountCredentialSink)
      requires Valid()
      modifies this`accountGenerations
      ensures Valid() && Watches(sink) && sink.acct == acct
      ensures State() == Fetched(old(State()), acct)
      ensures sink.expectedGeneration == Generation(State(), acct)
      ensures forall a :: a in old(accountGenerations) ==>
                a in accountGenerations && accountGenerations[a] == old(accountGenerations)[a]
    {
      var generation := GenerationForAccount(acct);
      sink := new AccountCredentialSink(acct, generation, generation.value);
    }

    method AdvanceGeneration(acct: string)
      requires Valid()
      modifies this`accountGenerations, accountGenerations.Values
      ensures Valid() && State() == Advanced(old(State()), acct)
      ensures forall a :: a in old(accountGenerations) ==>
                a in accountGenerations && accountGenerations[a] == old(accountGenerations)[a]
    {
      var generation := GenerationForAccount(acct);
      ghost var fetched := State();
      AdvancedFromFetched(old(State()), fetched, acct);
      hide Fetched, Advanced, Generation;
      assert fetched.generations.Keys == accountGenerations.Keys;
      assert forall a :: a in accountGenerations && a != acct ==> accountGenerations[a] != generation;
      ghost var expected := fetched.generations[acct := fetched.generations[acct] + 1];
      generation.value := generation.value + 1;
      forall a | a in accountGenerations ensures accountGenerations[a].value == expected[a] {}
    }

    /** `saved` says whether the database accepted the transaction. */
    method PersistLoginAccount(acct: string, c: Credentials, saved: bool) returns (result: WriteResult)
      requires Valid()
      modifies this, accountGenerations.Values
      ensures Valid() && result == if saved then Written else DatabaseFailure
      ensures State() == if saved then Advanced(Committed(old(State()), LogsIn(acct, c)), acct) else old(State())
      ensures forall a :: a in old(accountGenerations) ==>
                a in accountGenerations && accountGenerations[a] == old(accountGenerations)[a]
    {
      if !saved {
        return DatabaseFailure;
      }
      rows := LoggedIn(rows, acct, c);
      assert State() == Committed(old(State()), LogsIn(acct, c));
      hide Committed, Advanced;
      AdvanceGeneration(acct);
      result := Written;
    }

    method UpdateForAccount(acct: string, c: Credentials, saved: bool) returns (result: WriteResult)
      requires Valid()
      modifies this`rows
      ensures Valid() && result == UpdateResult(old(State()), acct, saved)
      ensures State() == if result == Written then Committed(old(State()), Rotates(acct, c)) else old(State())
    {
      if !saved {
        return DatabaseFailure;
      }
      if acct !in rows {
        return RowNotFound;
      }
      rows := Rotated(rows, acct, c);
      result := Written;
    }

    method UpdateForAccountGeneration(sink: AccountCredentialSink, c: Credentials, saved: bool)
      returns (result: WriteResult)
      requires Valid() && Watches(sink)
      modifies this`rows
      ensures Valid()
      ensures result == if Generation(old(State()), sink.acct) != sink.expectedGeneration then StaleLoginGeneration
                        else UpdateResult(old(State()), sink.acct, saved)
      ensures State() == if result == Written then Committed(old(State()), Rotates(sink.acct, c)) else old(State())
    {
      if sink.generation.value != sink.expectedGeneration {
        return StaleLoginGeneration;
      }
      result := UpdateForAccount(sink.acct, c, saved);
    }

    /** The query for the fallback account. */
    method FallbackFor(acct: string) returns (fallback: Option<string>)
      ensures IsFallback(rows, acct, fallback)
    {
      var order := Iterate(rows.Keys);
      fallback := None;
      ghost var among: set<string> := {};
      for i := 0 to |order|
        invariant among == set a | a in order[..i]
        invariant IsFallbackAmong(rows, among, acct, fallback)
      {
        assert order[..i + 1] == order[..i] + [order[i]] && order[i] in order;
        NextFallback(rows, among, acct, fallback, order[i]);
        among := among + {order[i]};
        if order[i] != acct && (fallback.None? || !Preferred(rows, fallback.value, order[i])) {
          fallback := Some(order[i]);
        }
      }
      assert order[..|order|] == order && among == rows.Keys;
    }

    method RemoveAccountAndReassign(acct: string, saved: bool)
      returns (result: WriteResult, active: Option<string>)
      requires Valid()
      modifies this, accountGenerations.Values
      ensures Valid() && result == UpdateResult(old(State()), acct, saved)
      ensures result == Written ==>
                && IsFallback(old(rows), acct, active)
                && State() == Advanced(Committed(old(State()), LogsOut(acct, active)), acct)
      ensures result != Written ==> State() == old(State()) && active == None
      ensures forall a :: a in old(accountGenerations) ==>
                a in accountGenerations && accountGenerations[a] == old(accountGenerations)[a]
    {
      active := None;
      if !saved {
        return DatabaseFailure, None;
      }
      if acct !in rows {
        return RowNotFound, None;
      }
      active := FallbackFor(acct);
      rows, columns := Activated(rows - {acct}, active), Reassigned(columns, acct, active);
      assert State() == Committed(old(State()), LogsOut(acct, active));
      hide Committed, Advanced, IsFallback;
      AdvanceGeneration(acct);
      result := Written;
    }
  }

  lemma {:induction false} PreferredTransitive(rows: Rows, a: string, b: string, c: string)
    requires a in rows && b in rows && c in rows && Preferred(rows, a, b) && Preferred(rows, b, c)
    ensures Preferred(rows, a, c)
  {
    if rows[a].active == rows[b].active == rows[c].active {
      StringLeqTransitive(a, b, c);
    }
  }

  lemma {:induction false} PreferredTotal(rows: Rows, a: string, b: string)
    requires a in rows && b in rows
    ensures Preferred(rows, a, b) || Preferred(rows, b, a)
    ensures Preferred(rows, a, b) && Preferred(rows, b, a) ==> a == b
  {
    StringLeqTotal(a, b);
  }

  /** One more candidate replaces the fallback exactly if the fallback is not preferred to it. */
  lemma {:induction false} NextFallback(
    rows: Rows, among: set<string>, acct: string, fallback: Option<string>, candidate: string)
    requires IsFallbackAmong(rows, among, acct, fallback) && candidate in rows
    ensures var more := among + {candidate};
            IsFallbackAmong(rows, more, acct,
              if candidate != acct && (fallback.None? || !Preferred(rows, fallback.value, candidate))
              then Some(candidate) else fallback)
  {
    PreferredTotal(rows, candidate, candidate);
    if fallback.Some? {
      var f := fallback.value;
      PreferredTotal(rows, f, candidate);
      forall other | other in among && other in rows && other != acct
        ensures Preferred(rows, candidate, f) ==> Preferred(rows, candidate, other)
      {
        if Preferred(rows, candidate, f) {
          PreferredTransitive(rows, candidate, f, other);
        }
      }
    }
    hide Preferred;
  }

  /** The query has one answer, and an active account other than the removed one stays active. */
  lemma {:induction false} FallbackIsUnique(rows: Rows, acct: string, f: Option<string>, g: Option<string>)
    requires IsFallback(rows, acct, f) && IsFallback(rows, acct, g)
    ensures f == g
    ensures forall a :: a in rows && a != acct && rows[a].active ==> f.Some? && rows[f.value].active
  {
    if f.Some? && g.Some? {
      PreferredTotal(rows, f.value, g.value);
    }
  }
}
