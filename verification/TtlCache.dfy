/** The bounded cache of notification subjects (src/bluesky/client.rs), proved against the
    history of its calls. Instants are integers in any fixed unit. */
module TtlCache {
  import opened Basics

  datatype Cached<T> = Cached(value: T, fetchedAt: int, lastAccessed: int)

  /** One call. An insert also records which key, if any, it pushed out. */
  datatype Call<T> =
    | Inserted(key: string, value: T, now: int, evicted: Option<string>)
    | Removed(key: string)
    | Read(keys: seq<string>, now: int)

  /** Time since `fetchedAt`, zero if the clock reads earlier. */
  function Age(fetchedAt: int, now: int): nat { if now >= fetchedAt then now - fetchedAt else 0 }

  /** What the history says about one key. */
  function Live<T>(history: seq<Call<T>>, ttl: nat, key: string): Option<Cached<T>> {
    if history == [] then None
    else Advance(Live(history[..|history| - 1], ttl, key), history[|history| - 1], ttl, key)
  }

  function Advance<T>(entry: Option<Cached<T>>, call: Call<T>, ttl: nat, key: string): Option<Cached<T>> {
    match call
    case Inserted(k, value, now, evicted) =>
      if k == key then Some(Cached(value, now, now)) else if evicted == Some(key) then None else entry
    case Removed(k) => if k == key then None else entry
    case Read(keys, now) =>
      match entry
      case None => None
      case Some(c) =>
        if Age(c.fetchedAt, now) > ttl then None
        else if key in keys then Some(c.(lastAccessed := now)) else entry
  }

  function InsertedKeys<T>(history: seq<Call<T>>): set<string> {
    set i | 0 <= i < |history| && history[i].Inserted? :: history[i].key
  }

  ghost function LiveKeys<T>(history: seq<Call<T>>, ttl: nat): set<string> {
    set k | k in InsertedKeys(history) && Live(history, ttl, k).Some?
  }

  /** An insert may push out a key only if it is new, the cache is full, and the key it pushes
      out is live and least recently accessed; and then it must. */
  ghost predicate LawfulCall<T>(before: seq<Call<T>>, call: Call<T>, ttl: nat, capacity: nat) {
    call.Inserted? ==>
      var live := LiveKeys(before, ttl);
      match call.evicted
      case None => call.key in live || |live| < capacity
      case Some(victim) =>
        && call.key !in live && |live| >= capacity && victim in live
        && forall k :: k in live ==>
             Live(before, ttl, victim).value.lastAccessed <= Live(before, ttl, k).value.lastAccessed
  }

  ghost predicate Lawful<T>(history: seq<Call<T>>, ttl: nat, capacity: nat) {
    history == [] || (
      var n := |history| - 1;
      Lawful(history[..n], ttl, capacity) && LawfulCall(history[..n], history[n], ttl, capacity))
  }

  lemma {:induction false} LiveWasInserted<T>(history: seq<Call<T>>, ttl: nat, key: string)
    requires Live(history, ttl, key).Some?
    ensures key in InsertedKeys(history) && key in LiveKeys(history, ttl)
  {
    var n := |history| - 1;
    if history[n].Inserted? && history[n].key == key {
    } else {
      LiveWasInserted(history[..n], ttl, key);
      var i :| 0 <= i < n && history[..n][i].Inserted? && history[..n][i].key == key;
      assert history[i].Inserted? && history[i].key == key;
    }
  }

  lemma LiveKeysAfter<T>(history: seq<Call<T>>, call: Call<T>, ttl: nat)
    ensures forall k :: Live(history + [call], ttl, k) == Advance(Live(history, ttl, k), call, ttl, k)
    ensures forall k :: k in LiveKeys(history, ttl) <==> Live(history, ttl, k).Some?
  {
    assert (history + [call])[..|history|] == history;
    forall k | Live(history, ttl, k).Some? ensures k in LiveKeys(history, ttl) {
      LiveWasInserted(history, ttl, k);
    }
  }

  /** The size never exceeds the capacity. */
  lemma {:induction false} SizeBounded<T>(history: seq<Call<T>>, ttl: nat, capacity: nat)
    requires Lawful(history, ttl, capacity) && capacity >= 1
    ensures |LiveKeys(history, ttl)| <= capacity
  {
    if history == [] {
      assert LiveKeys(history, ttl) == {};
    } else {
      var n := |history| - 1;
      var before, call := history[..n], history[n];
      assert history == before + [call];
      SizeBounded(before, ttl, capacity);
      LiveKeysAfter(before, call, ttl);
      LiveKeysAfter(history, call, ttl);
      var was, now := LiveKeys(before, ttl), LiveKeys(history, ttl);
      hide LiveKeys, Live, Lawful;
      match call {
        case Inserted(key, _, _, evicted) =>
          var gone := match evicted case None => {} case Some(v) => {v};
          SubsetSize(now, (was - gone) + {key});
        case Removed(_) => SubsetSize(now, was);
        case Read(_, _) => SubsetSize(now, was);
      }
    }
  }

  /** Call `i` inserted `key`, and no later call replaced, removed, evicted or expired it. */
  ghost predicate Survives<T>(history: seq<Call<T>>, ttl: nat, key: string, i: nat) {
    && i < |history| && history[i].Inserted? && history[i].key == key
    && forall j :: i < j < |history| ==>
         match history[j]
         case Inserted(k, _, _, evicted) => k != key && evicted != Some(key)
         case Removed(k) => k != key
         case Read(_, now) => Age(history[i].now, now) <= ttl
  }

  /** An entry is live exactly when some insert of its key survives, and then it holds that
      insert's value and time. */
  lemma {:induction false} LiveIffSurvives<T>(history: seq<Call<T>>, ttl: nat, key: string)
    ensures Live(history, ttl, key).Some? <==> exists i: nat :: Survives(history, ttl, key, i)
    ensures forall i: nat :: Survives(history, ttl, key, i) ==>
              && Live(history, ttl, key).Some?
              && Live(history, ttl, key).value.value == history[i].value
              && Live(history, ttl, key).value.fetchedAt == history[i].now
    decreases |history|
  {
    if history != [] {
      var n := |history| - 1;
      var before, call := history[..n], history[n];
      LiveIffSurvives(before, ttl, key);
      forall i: nat | i < n
        ensures Survives(history, ttl, key, i) <==>
                Survives(before, ttl, key, i) && KeptBy(call, ttl, key, before[i])
      {
        SurvivesStep(history, ttl, key, i);
      }
      var now := Live(history, ttl, key);
      assert now == Advance(Live(before, ttl, key), call, ttl, key);
      assert Survives(history, ttl, key, n) <==> call.Inserted? && call.key == key;
      hide Live, Survives;
      if now.Some? {
        if call.Inserted? && call.key == key {
          assert Survives(history, ttl, key, n);
        } else {
          var i: nat :| Survives(before, ttl, key, i);
          SurvivesBound(before, ttl, key, i);
          assert Survives(history, ttl, key, i);
        }
      }
      forall i: nat | Survives(history, ttl, key, i)
        ensures now.Some? && now.value.value == history[i].value && now.value.fetchedAt == history[i].now
      {
        SurvivesBound(history, ttl, key, i);
        if i < n {
          assert Survives(before, ttl, key, i);
        }
      }
    }
  }

  /** The last call leaves alone what call `source` inserted under `key`. */
  ghost predicate KeptBy<T>(call: Call<T>, ttl: nat, key: string, source: Call<T>) {
    source.Inserted? &&
    match call
    case Inserted(k, _, _, evicted) => k != key && evicted != Some(key)
    case Removed(k) => k != key
    case Read(_, now) => Age(source.now, now) <= ttl
  }

  lemma SurvivesBound<T>(history: seq<Call<T>>, ttl: nat, key: string, i: nat)
    requires Survives(history, ttl, key, i)
    ensures i < |history| && history[i].Inserted?
  {
  }

  lemma SurvivesStep<T>(history: seq<Call<T>>, ttl: nat, key: string, i: nat)
    requires i < |history| - 1
    ensures var n := |history| - 1;
            Survives(history, ttl, key, i) <==>
            Survives(history[..n], ttl, key, i) && KeptBy(history[n], ttl, key, history[i])
  {
    var n := |history| - 1;
    assert forall j :: 0 <= j < n ==> history[..n][j] == history[j];
  }

  /** A key stops being live only through its removal, its expiry at a read, or being least
      recently accessed when a new key arrives at a full cache. */
  lemma LeavesOnlyWhen<T>(history: seq<Call<T>>, call: Call<T>, ttl: nat, capacity: nat, key: string)
    requires Lawful(history + [call], ttl, capacity)
    requires Live(history, ttl, key).Some? && Live(history + [call], ttl, key).None?
    ensures match call
            case Removed(k) => k == key
            case Read(_, now) => Age(Live(history, ttl, key).value.fetchedAt, now) > ttl
            case Inserted(k, _, _, _) =>
              && k !in LiveKeys(history, ttl) && |LiveKeys(history, ttl)| >= capacity
              && forall other :: other in LiveKeys(history, ttl) ==>
                   Live(history, ttl, key).value.lastAccessed <= Live(history, ttl, other).value.lastAccessed
  {
    LiveKeysAfter(history, call, ttl);
    assert (history + [call])[..|history|] == history;
    assert LawfulCall(history, call, ttl, capacity);
  }

  function Lookup<T>(entries: map<string, Cached<T>>, key: string): Option<Cached<T>> {
    if key in entries then Some(entries[key]) else None
  }

  lemma LawfulAfter<T>(history: seq<Call<T>>, call: Call<T>, ttl: nat, capacity: nat)
    requires Lawful(history, ttl, capacity) && LawfulCall(history, call, ttl, capacity)
    ensures Lawful(history + [call], ttl, capacity)
  {
    assert (history + [call])[..|history|] == history;
  }

  lemma InsertIsLawful<T>(
    entries: map<string, Cached<T>>, history: seq<Call<T>>, call: Call<T>, ttl: nat, capacity: nat)
    requires Lawful(history, ttl, capacity) && call.Inserted?
    requires forall key :: Live(history, ttl, key) == Lookup(entries, key)
    requires match call.evicted
             case None => call.key in entries || |entries| < capacity
             case Some(victim) =>
               && call.key !in entries && |entries| >= capacity && victim in entries
               && forall key :: key in entries ==> entries[victim].lastAccessed <= entries[key].lastAccessed
    ensures Lawful(history + [call], ttl, capacity)
    ensures forall key :: Live(history + [call], ttl, key) == Advance(Lookup(entries, key), call, ttl, key)
  {
    LiveKeysAfter(history, call, ttl);
    assert LiveKeys(history, ttl) == entries.Keys;
    hide Live, LiveKeys, Lawful;
    LawfulAfter(history, call, ttl, capacity);
  }

  class BoundedTtlCache<T> {
    var entries: map<string, Cached<T>>
    const capacity: nat
    const ttl: nat
    ghost var history: seq<Call<T>>

    /** The entries are exactly what the history of calls says is live. */
    ghost predicate Valid()
      reads this
    {
      && capacity >= 1
      && Lawful(history, ttl, capacity)
      && (forall key :: Live(history, ttl, key) == Lookup(entries, key))
    }

    constructor (capacity: nat, ttl: nat)
      ensures Valid() && history == [] && this.ttl == ttl
      ensures this.capacity == if capacity >= 1 then capacity else 1
    {
      entries := map[];
      this.capacity := if capacity >= 1 then capacity else 1;
      this.ttl := ttl;
      history := [];
    }

    method GetMany(keys: seq<string>, now: int) returns (found: map<string, T>)
      requires Valid()
      modifies this
      ensures Valid() && history == old(history) + [Read(keys, now)]
      ensures forall key :: key in found <==> key in keys && Live(history, ttl, key).Some?
      ensures forall key :: key in found ==> found[key] == Live(history, ttl, key).value.value
      ensures forall key :: key in found ==> Age(Live(history, ttl, key).value.fetchedAt, now) <= ttl
    {
      ghost var call, start := Read(keys, now), entries;
      LiveKeysAfter(history, call, ttl);
      LawfulAfter(history, call, ttl, capacity);
      hide Live, Lawful, LiveKeys;
      Retain(now);
      found := Touch(keys, now);
      history := history + [call];
      assert forall key :: Lookup(entries, key) == Advance(Lookup(start, key), call, ttl, key);
    }

    /** Drops the expired entries. */
    method Retain(now: int)
      modifies `entries
      ensures forall key :: key in entries <==> key in old(entries) && Age(old(entries)[key].fetchedAt, now) <= ttl
      ensures forall key :: key in entries ==> entries[key] == old(entries)[key]
    {
      entries := map key | key in entries && Age(entries[key].fetchedAt, now) <= ttl :: entries[key];
    }

    /** Collects the entries asked for and marks them as accessed. */
    method Touch(keys: seq<string>, now: int) returns (found: map<string, T>)
      modifies `entries
      ensures entries.Keys == old(entries).Keys
      ensures forall key :: key in entries ==>
                entries[key] == if key in keys then old(entries)[key].(lastAccessed := now) else old(entries)[key]
      ensures forall key :: key in found <==> key in keys && key in entries
      ensures forall key :: key in found ==> found[key] == entries[key].value
    {
      found := map[];
      for i := 0 to |keys|
        invariant entries.Keys == old(entries).Keys
        invariant forall key :: key in entries ==>
                    entries[key] == if key in keys[..i] then old(entries)[key].(lastAccessed := now)
                                    else old(entries)[key]
        invariant forall key :: key in found <==> key in keys[..i] && key in entries
        invariant forall key :: key in found ==> found[key] == entries[key].value
      {
        assert keys[..i + 1] == keys[..i] + [keys[i]];
        if keys[i] in entries {
          entries := entries[keys[i] := entries[keys[i]].(lastAccessed := now)];
          found := found[keys[i] := entries[keys[i]].value];
        }
      }
      assert keys[..|keys|] == keys;
    }

    /** A least recently accessed key; ties fall to whichever the hash map yields first. */
    method Oldest() returns (oldest: string)
      requires entries != map[]
      ensures oldest in entries
      ensures forall key :: key in entries ==> entries[oldest].lastAccessed <= entries[key].lastAccessed
    {
      var order := Iterate(entries.Keys);
      assert order != [] by {
        var key :| key in entries;
        assert key in order;
      }
      assert order[0] in order;
      oldest := order[0];
      for i := 1 to |order|
        invariant oldest in entries
        invariant forall key :: key in order[..i] ==>
                    key in entries && entries[oldest].lastAccessed <= entries[key].lastAccessed
      {
        assert order[..i + 1] == order[..i] + [order[i]];
        assert order[i] in order;
        if entries[order[i]].lastAccessed < entries[oldest].lastAccessed {
          oldest := order[i];
        }
      }
      assert order[..|order|] == order;
    }

    method Insert(key: string, value: T, now: int) returns (ghost evicted: Option<string>)
      requires Valid()
      modifies this
      ensures Valid() && history == old(history) + [Inserted(key, value, now, evicted)]
    {
      hide Live, Lawful;
      evicted := None;
      if key !in entries && |entries| >= capacity {
        var oldest := Oldest();
        evicted := Some(oldest);
        entries := entries - {oldest};
      }
      entries := entries[key := Cached(value, now, now)];
      ghost var call := Inserted(key, value, now, evicted);
      InsertIsLawful(old(entries), history, call, ttl, capacity);
      history := history + [call];
    }

    method Remove(key: string)
      requires Valid()
      modifies this
      ensures Valid() && history == old(history) + [Removed(key)]
    {
      entries := entries - {key};
      LiveKeysAfter(history, Removed(key), ttl);
      assert (history + [Removed(key)])[..|history|] == history;
      history := history + [Removed(key)];
    }
  }
}
