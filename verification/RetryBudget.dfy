/** Per-server retry spacing (src/api/retry.rs). Instants and durations are milliseconds. */
module RetryBudget {
  import opened Basics

  const MAX_ATTEMPTS := 3
  const BASE_DELAY := 250
  const MAX_DELAY := 60000
  const SERVER_RETRY_SPACING := 250
  const MAX_TRACKED_SERVERS := 256

  // ---- how long to wait before trying again ----------------------------------------------------

  datatype ErrorCode =
    Unauthorized | RateLimited | Timeout | Unsupported | InvalidResponse | Transport | Internal

  datatype AdapterError = AdapterError(code: ErrorCode, retryAfterSeconds: Option<nat>)

  function Min(a: nat, b: nat): nat { if a <= b then a else b }

  function Max(a: int, b: int): int { if a >= b then a else b }

  function Power2(n: nat): nat { if n == 0 then 1 else 2 * Power2(n - 1) }

  function Exponential(attempt: nat): nat {
    Min(BASE_DELAY * Power2(Min(if attempt == 0 then 0 else attempt - 1, 8)), MAX_DELAY)
  }

  function HeaderDelay(error: AdapterError): nat {
    match error.retryAfterSeconds case None => 0 case Some(s) => Min(1000 * s, MAX_DELAY)
  }

  predicate Retryable(code: ErrorCode) { code.RateLimited? || code.Timeout? || code.Transport? }

  /** `hash` is the stable hash of the operation name and the attempt. */
  function RetryDelay(error: AdapterError, hash: nat, attempt: nat): Option<nat> {
    if !Retryable(error.code) then None
    else
      var exponential := Exponential(attempt);
      var jitter := hash % (Min(exponential, 250) + 1);
      Some(Min(Max(exponential, HeaderDelay(error)) + jitter, MAX_DELAY))
  }

  lemma {:induction false} PowerGrows(m: nat, n: nat)
    requires m <= n
    ensures 1 <= Power2(m) <= Power2(n)
    decreases n
  {
    if m < n {
      PowerGrows(m, n - 1);
    } else if m > 0 {
      PowerGrows(m - 1, m - 1);
    }
  }

  /** A delay is given for exactly the retryable errors. It honours a Retry-After header up to a
      minute, adds at most 250 ms of jitter, stays between 250 ms and a minute, and its
      exponential part never shrinks from one attempt to a later one. */
  lemma DelayBounds(error: AdapterError, hash: nat, attempt: nat, later: nat)
    requires attempt <= later
    ensures RetryDelay(error, hash, attempt).Some? <==> Retryable(error.code)
    ensures Retryable(error.code) ==>
              var delay := RetryDelay(error, hash, attempt).value;
              && BASE_DELAY <= delay <= MAX_DELAY
              && HeaderDelay(error) <= delay <= Max(Exponential(attempt), HeaderDelay(error)) + 250
    ensures Exponential(attempt) <= Exponential(later)
  {
    PowerGrows(0, Min(if attempt == 0 then 0 else attempt - 1, 8));
    PowerGrows(Min(if attempt == 0 then 0 else attempt - 1, 8), Min(if later == 0 then 0 else later - 1, 8));
  }

  // ---- reservations ---------------------------------------------------------------------------------

  type Budgets = map<string, int>

  /** Entries whose time has not come yet. */
  function Pruned(budgets: Budgets, now: int): Budgets {
    map k | k in budgets && budgets[k] > now :: budgets[k]
  }

  /** One reservation under the lock. `server` is the folded name; `evicted` the entry dropped
      because the registry was full. */
  datatype Reservation = Reservation(server: string, now: int, delay: nat, evicted: Option<string>)

  function Kept(budgets: Budgets, r: Reservation): Budgets {
    Pruned(budgets, r.now) - (match r.evicted case None => {} case Some(victim) => {victim})
  }

  function ReservedAt(budgets: Budgets, r: Reservation): int {
    var kept := Kept(budgets, r);
    Max(if r.server in kept then kept[r.server] else r.now, r.now + r.delay)
  }

  function After(budgets: Budgets, r: Reservation): Budgets {
    Kept(budgets, r)[r.server := ReservedAt(budgets, r) + SERVER_RETRY_SPACING]
  }

  /** An entry is evicted exactly when a new server meets a full registry, and then it is one
      whose time comes first. */
  ghost predicate Lawful(budgets: Budgets, r: Reservation) {
    var live := Pruned(budgets, r.now);
    match r.evicted
    case None => |live| < MAX_TRACKED_SERVERS || r.server in live
    case Some(victim) =>
      && |live| >= MAX_TRACKED_SERVERS && r.server !in live && victim in live
      && forall k :: k in live ==> live[victim] <= live[k]
  }

  class ServerBudgets {
    var budgets: Budgets

    /** The reservations made so far, in lock order. */
    ghost var history: seq<Reservation>

    ghost predicate Valid()
      reads this
    {
      LawfulHistory(history) && budgets == BudgetsAt(history, |history|)
    }

    constructor ()
      ensures Valid() && history == []
    {
      budgets, history := map[], [];
    }

    method Soonest() returns (soonest: string)
      requires budgets != map[]
      ensures soonest in budgets && forall k :: k in budgets ==> budgets[soonest] <= budgets[k]
    {
      var order := Iterate(budgets.Keys);
      assert order != [] by {
        var k :| k in budgets;
        assert k in order;
      }
      assert order[0] in order;
      soonest := order[0];
      for i := 1 to |order|
        invariant soonest in budgets
        invariant forall k :: k in order[..i] ==> k in budgets && budgets[soonest] <= budgets[k]
      {
        assert order[..i + 1] == order[..i] + [order[i]];
        assert order[i] in order;
        if budgets[order[i]] < budgets[soonest] {
          soonest := order[i];
        }
      }
      assert order[..|order|] == order;
    }

    /** `fold` is the case folding of host names, `now` the clock reading taken by the caller. */
    method Reserve(host: string, fold: string -> string, now: int, delay: nat)
      returns (wait: nat, ghost evicted: Option<string>)
      requires Valid()
      modifies this
      ensures Valid() && |budgets| <= MAX_TRACKED_SERVERS
      ensures history == old(history) + [Reservation(fold(host), now, delay, evicted)]
      ensures wait == At(history, |old(history)|) - now
    {
      var reservedAt;
      reservedAt, evicted := ReserveLocked(fold(host), now, delay);
      ghost var r := Reservation(fold(host), now, delay, evicted);
      hide Lawful, After, ReservedAt, BudgetsAt;
      HistoryGrows(history, r);
      history := history + [r];
      RegistryBounded(history, |history|);
      wait := reservedAt - now;
    }

    /** The critical section. */
    method ReserveLocked(server: string, now: int, delay: nat)
      returns (reservedAt: int, ghost evicted: Option<string>)
      modifies `budgets
      ensures var r := Reservation(server, now, delay, evicted);
              && Lawful(old(budgets), r) && budgets == After(old(budgets), r)
              && reservedAt == ReservedAt(old(budgets), r) && reservedAt >= now
    {
      budgets := Pruned(budgets, now);
      evicted := MakeRoom(server);
      ghost var r := Reservation(server, now, delay, evicted);
      assert budgets == Kept(old(budgets), r) && Lawful(old(budgets), r);
      hide Pruned, Lawful, Kept;
      reservedAt := Max(if server in budgets then budgets[server] else now, now + delay);
      budgets := budgets[server := reservedAt + SERVER_RETRY_SPACING];
    }

    /** Drops the entry whose time comes first if a new server meets a full registry. */
    method MakeRoom(server: string) returns (ghost evicted: Option<string>)
      modifies `budgets
      ensures match evicted
              case None =>
                budgets == old(budgets) && (|budgets| < MAX_TRACKED_SERVERS || server in budgets)
              case Some(victim) =>
                && budgets == old(budgets) - {victim} && |old(budgets)| >= MAX_TRACKED_SERVERS
                && server !in old(budgets) && victim in old(budgets)
                && forall k :: k in old(budgets) ==> old(budgets)[victim] <= old(budgets)[k]
    {
      evicted := None;
      if |budgets| >= MAX_TRACKED_SERVERS && server !in budgets {
        var soonest := Soonest();
        evicted := Some(soonest);
        budgets := budgets - {soonest};
      }
    }

    method ReservePaced(host: string, fold: string -> string, now: int, delay: nat) returns (wait: nat)
      requires Valid()
      modifies this
      ensures Valid() && |history| == |old(history)| + 1 && old(history) <= history
      ensures Paced(history, |old(history)|, fold(host), now, wait, Some(delay))
    {
      ghost var evicted;
      wait, evicted := Reserve(host, fold, now, delay);
    }

    /** Runs a request until it succeeds, fails for good, or has failed three times. Before every
        retry it sleeps as long as its reservation says; `waits` lists these times. The request,
        the hash and the clock are the environment. */
    method Idempotent(host: string, fold: string -> string, request: nat -> Option<AdapterError>,
                      hash: nat -> nat, clock: nat -> int)
      returns (failure: Option<AdapterError>, attempts: nat, waits: seq<nat>)
      requires Valid()
      modifies this
      ensures Valid() && 1 <= attempts <= MAX_ATTEMPTS
      ensures failure == request(attempts)
      ensures forall k :: 1 <= k < attempts ==> request(k).Some? && Retryable(request(k).value.code)
      ensures attempts < MAX_ATTEMPTS ==> failure.None? || !Retryable(failure.value.code)
      ensures |waits| == attempts - 1 && |history| == |old(history)| + attempts - 1 && old(history) <= history
      ensures forall k :: 1 <= k < attempts ==>
                Paced(history, |old(history)| + k - 1, fold(host), clock(k), waits[k - 1],
                      RetryDelay(request(k).value, hash(k), k))
    {
      hide RetryDelay, At, BudgetsAt, LawfulHistory, Paced;
      attempts, waits := 1, [];
      while true
        invariant Valid() && 1 <= attempts <= MAX_ATTEMPTS
        invariant forall k :: 1 <= k < attempts ==> request(k).Some? && Retryable(request(k).value.code)
        invariant |waits| == attempts - 1 && |history| == |old(history)| + attempts - 1 && old(history) <= history
        invariant forall k :: 1 <= k < attempts ==>
                    Paced(history, |old(history)| + k - 1, fold(host), clock(k), waits[k - 1],
                          RetryDelay(request(k).value, hash(k), k))
        decreases MAX_ATTEMPTS - attempts
      {
        failure := request(attempts);
        if failure.None? {
          return;
        }
        var delay := RetryDelay(failure.value, hash(attempts), attempts);
        DelayBounds(failure.value, hash(attempts), attempts, attempts);
        if delay.None? || attempts >= MAX_ATTEMPTS {
          return;
        }
        ghost var before := history;
        var wait := ReservePaced(host, fold, clock(attempts), delay.value);
        PacedLasts(before, history);
        waits := waits + [wait];
        attempts := attempts + 1;
      }
    }
  }

  /** Reservation `i` asked for `delay` at `now` and was told to wait exactly `wait`. */
  ghost predicate Paced(history: seq<Reservation>, i: nat, server: string, now: int, wait: nat, delay: Option<nat>) {
    && i < |history| && delay.Some?
    && history[i].server == server && history[i].now == now && history[i].delay == delay.value
    && wait == At(history, i) - now
  }

  lemma PacedLasts(history: seq<Reservation>, longer: seq<Reservation>)
    requires history <= longer
    ensures forall i: nat, server, now, wait, delay ::
              i < |history| && Paced(history, i, server, now, wait, delay)
              ==> Paced(longer, i, server, now, wait, delay)
  {
    forall i: nat, server, now, wait, delay | i < |history| && Paced(history, i, server, now, wait, delay)
      ensures Paced(longer, i, server, now, wait, delay)
    {
      AtPrefix(history, longer, i);
    }
  }

  lemma StaysBounded(budgets: Budgets, r: Reservation)
    requires |budgets| <= MAX_TRACKED_SERVERS && Lawful(budgets, r)
    ensures |After(budgets, r)| <= MAX_TRACKED_SERVERS
  {
    var live := Pruned(budgets, r.now);
    PrunedSize(budgets, r.now);
    AfterKeys(budgets, r);
    hide After, Pruned;
    match r.evicted {
      case None =>
        if r.server in live {
          assert After(budgets, r).Keys == live.Keys;
        }
      case Some(victim) => assert |live.Keys - {victim}| == |live.Keys| - 1;
    }
  }

  lemma AfterKeys(budgets: Budgets, r: Reservation)
    ensures var gone := match r.evicted case None => {} case Some(victim) => {victim};
            After(budgets, r).Keys == (Pruned(budgets, r.now).Keys - gone) + {r.server}
  {
  }

  lemma PrunedSize(budgets: Budgets, now: int)
    ensures |Pruned(budgets, now)| <= |budgets|
  {
    SubsetSize(Pruned(budgets, now).Keys, budgets.Keys);
  }

  // ---- any sequence of reservations ------------------------------------------------------------------

  function BudgetsAt(history: seq<Reservation>, i: nat): Budgets
    requires i <= |history|
  {
    if i == 0 then map[] else After(BudgetsAt(history, i - 1), history[i - 1])
  }

  /** The instant reservation `i` was given. */
  function At(history: seq<Reservation>, i: nat): int
    requires i < |history|
  {
    ReservedAt(BudgetsAt(history, i), history[i])
  }

  ghost predicate LawfulAt(history: seq<Reservation>, i: nat)
    requires i < |history|
  {
    Lawful(BudgetsAt(history, i), history[i])
  }

  ghost predicate LawfulHistory(history: seq<Reservation>) {
    forall i :: 0 <= i < |history| ==> LawfulAt(history, i)
  }

  lemma {:induction false} BudgetsPrefix(history: seq<Reservation>, longer: seq<Reservation>, i: nat)
    requires history <= longer && i <= |history|
    ensures BudgetsAt(longer, i) == BudgetsAt(history, i)
  {
    hide After;
    if i > 0 {
      BudgetsPrefix(history, longer, i - 1);
    }
  }

  lemma AtPrefix(history: seq<Reservation>, longer: seq<Reservation>, i: nat)
    requires history <= longer && i < |history|
    ensures At(longer, i) == At(history, i) && (LawfulAt(longer, i) <==> LawfulAt(history, i))
  {
    BudgetsPrefix(history, longer, i);
    hide ReservedAt, Lawful;
  }

  lemma HistoryGrows(history: seq<Reservation>, r: Reservation)
    requires LawfulHistory(history) && Lawful(BudgetsAt(history, |history|), r)
    ensures var longer := history + [r];
            && LawfulHistory(longer)
            && BudgetsAt(longer, |longer|) == After(BudgetsAt(history, |history|), r)
            && At(longer, |history|) == ReservedAt(BudgetsAt(history, |history|), r)
  {
    var longer := history + [r];
    BudgetsPrefix(history, longer, |history|);
    assert longer[|history|] == r;
    hide Lawful, After, ReservedAt;
    forall i | 0 <= i < |longer| ensures LawfulAt(longer, i) {
      if i < |history| {
        AtPrefix(history, longer, i);
      }
    }
  }

  /** Every wait is at least the delay asked for. */
  lemma WaitsAtLeastDelay(history: seq<Reservation>, i: nat)
    requires i < |history|
    ensures At(history, i) - history[i].now >= history[i].delay
  {
  }

  /** The registry never holds more than 256 servers. */
  lemma {:induction false} RegistryBounded(history: seq<Reservation>, i: nat)
    requires LawfulHistory(history) && i <= |history|
    ensures |BudgetsAt(history, i)| <= MAX_TRACKED_SERVERS
  {
    hide *;
    HistoryUnfolds(history, i);
    if i > 0 {
      RegistryBounded(history, i - 1);
      StaysBounded(BudgetsAt(history, i - 1), history[i - 1]);
    }
  }

  lemma HistoryUnfolds(history: seq<Reservation>, i: nat)
    requires LawfulHistory(history) && i <= |history|
    ensures i == 0 ==> |BudgetsAt(history, i)| <= MAX_TRACKED_SERVERS
    ensures i > 0 ==> BudgetsAt(history, i) == After(BudgetsAt(history, i - 1), history[i - 1])
    ensures i > 0 ==> Lawful(BudgetsAt(history, i - 1), history[i - 1])
  {
    assert i > 0 ==> LawfulAt(history, i - 1);
    hide Lawful, After;
  }

  /** After reservation `i` and before `j`, the server's entry still enforces the spacing, unless
      some clock reading since has reached it. */
  ghost predicate Guarded(history: seq<Reservation>, i: nat, j: nat)
    requires i < j <= |history|
  {
    var server, next := history[i].server, At(history, i) + SERVER_RETRY_SPACING;
    || (server in BudgetsAt(history, j) && BudgetsAt(history, j)[server] >= next)
    || (exists k :: i < k < j && history[k].now >= next)
  }

  /** No reservation after `i` and before `j` dropped the server's entry for capacity. */
  ghost predicate NotEvicted(history: seq<Reservation>, i: nat, j: nat)
    requires i < j <= |history|
  {
    forall k :: i < k < j ==> history[k].evicted != Some(history[i].server)
  }

  lemma {:induction false} GuardLasts(history: seq<Reservation>, i: nat, j: nat)
    requires i < j <= |history| && NotEvicted(history, i, j)
    ensures Guarded(history, i, j)
    decreases j
  {
    if i + 1 < j {
      assert forall k :: i < k < j - 1 ==> history[k].evicted != Some(history[i].server);
      GuardLasts(history, i, j - 1);
      var next := At(history, i) + SERVER_RETRY_SPACING;
      if k :| i < k < j - 1 && history[k].now >= next {
        assert i < k < j && history[k].now >= next;
      } else {
        assert history[j - 1].now >= next || history[i].server in Kept(BudgetsAt(history, j - 1), history[j - 1]);
      }
    }
  }

  /** Two reservations for one server are at least 250 ms apart unless its entry was evicted for
      capacity in between, provided no clock reading taken in between is later than the second's:
      pruning alone never weakens the spacing. */
  lemma SpacingSurvivesPruning(history: seq<Reservation>, i: nat, j: nat)
    requires LawfulHistory(history) && i < j < |history| && history[i].server == history[j].server
    requires NotEvicted(history, i, j)
    requires forall k :: i < k < j ==> history[k].now <= history[j].now
    ensures At(history, j) >= At(history, i) + SERVER_RETRY_SPACING
  {
    GuardLasts(history, i, j);
    assert LawfulAt(history, j);
  }

  /** With no reservation for the server in between, the second is given exactly the later of
      the instant it asked for and 250 ms after the first. */
  lemma SpacingIsExact(history: seq<Reservation>, i: nat, j: nat)
    requires LawfulHistory(history) && i < j < |history| && history[i].server == history[j].server
    requires NotEvicted(history, i, j)
    requires forall k :: i < k < j ==> history[k].now <= history[j].now && history[k].server != history[i].server
    ensures At(history, j) == Max(history[j].now + history[j].delay, At(history, i) + SERVER_RETRY_SPACING)
  {
    SpacingSurvivesPruning(history, i, j);
    EntryUnchanged(history, i, j);
    assert LawfulAt(history, j);
  }

  /** No clock reading between the two reservations has reached the end of the first's spacing. */
  ghost predicate NoReadingPast(history: seq<Reservation>, i: nat, j: nat)
    requires i < j <= |history|
  {
    forall k :: i < k < j ==> history[k].now < At(history, i) + SERVER_RETRY_SPACING
  }

  /** An entry is registered as long as it is neither evicted nor outlived by a reading. */
  lemma {:induction false} RegisteredIff(history: seq<Reservation>, i: nat, j: nat)
    requires LawfulHistory(history) && i < j <= |history|
    requires forall k :: i < k < j ==> history[k].server != history[i].server
    ensures history[i].server in BudgetsAt(history, j)
       <==> NotEvicted(history, i, j) && NoReadingPast(history, i, j)
    decreases j
  {
    if i + 1 < j {
      var last := j - 1;
      RegisteredIff(history, i, last);
      EntryUnchanged(history, i, last);
      assert LawfulAt(history, last);
      assert NotEvicted(history, i, j)
        <==> NotEvicted(history, i, last) && history[last].evicted != Some(history[i].server);
      assert NoReadingPast(history, i, j)
        <==> NoReadingPast(history, i, last) && history[last].now < At(history, i) + SERVER_RETRY_SPACING;
      hide NotEvicted, NoReadingPast, At;
      AfterKeys(BudgetsAt(history, last), history[last]);
      assert BudgetsAt(history, j) == After(BudgetsAt(history, last), history[last]);
    }
  }

  /** Exactly when the spacing holds between two successive reservations for a server: its entry
      was not evicted for capacity and no reading in between had reached the end of the spacing,
      or the second asks for an instant late enough anyway. */
  lemma SpacingIff(history: seq<Reservation>, i: nat, j: nat)
    requires LawfulHistory(history) && i < j < |history| && history[i].server == history[j].server
    requires forall k :: i < k < j ==> history[k].server != history[i].server
    ensures At(history, j) >= At(history, i) + SERVER_RETRY_SPACING <==>
              || (NotEvicted(history, i, j) && NoReadingPast(history, i, j))
              || history[j].now + history[j].delay >= At(history, i) + SERVER_RETRY_SPACING
  {
    RegisteredIff(history, i, j);
    EntryUnchanged(history, i, j);
    assert LawfulAt(history, j);
  }

  lemma {:induction false} EntryUnchanged(history: seq<Reservation>, i: nat, j: nat)
    requires i < j <= |history|
    requires forall k :: i < k < j ==> history[k].server != history[i].server
    ensures history[i].server in BudgetsAt(history, j) ==>
              BudgetsAt(history, j)[history[i].server] == At(history, i) + SERVER_RETRY_SPACING
    decreases j
  {
    if i + 1 < j {
      EntryUnchanged(history, i, j - 1);
    }
  }

  /** The clock is read before the lock is taken, so readings may reach the lock out of order.
      Then another server's later reading can prune an entry that an earlier one still needs. */
  lemma LateReadingBreaksSpacing()
    ensures var history :=
              [Reservation("a", 0, 0, None), Reservation("b", 1000, 0, None), Reservation("a", 10, 0, None)];
            && LawfulHistory(history) && NotEvicted(history, 0, 2)
            && At(history, 2) == At(history, 0) + 10
  {
    var history := [Reservation("a", 0, 0, None), Reservation("b", 1000, 0, None), Reservation("a", 10, 0, None)];
    assert "a"[0] != "b"[0];
    var first, second := BudgetsAt(history, 1), BudgetsAt(history, 2);
    assert first == map["a" := 250];
    assert Pruned(first, 1000) == map[];
    assert second == map["b" := 1250];
    assert Pruned(second, 10) == map["b" := 1250];
  }
}
