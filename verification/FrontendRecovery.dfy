/** The checkpoint that lets a stalled window be reloaded without losing a draft
    (src/application/frontend_recovery.rs), over every history of calls. */
module FrontendRecovery {
  import opened Basics

  const MAX_CHECKPOINT_BYTES := 1048576

  /** A draft document; `encoded` is the size of its serialised form, if it can be serialised. */
  datatype Value = Null | Draft(content: string, encoded: Option<nat>)

  function EncodedSize(value: Value): Option<nat> {
    match value case Null => Some(4) case Draft(_, encoded) => encoded
  }

  datatype Stored = Stored(
    checkpoint: Option<Value>, generation: Option<string>, recoveryBlocked: bool,
    recreationPermitted: bool, poisoned: bool)

  const DEFAULT := Stored(None, None, true, false, false)

  /** `Restore` carries the fresh token it hands to the new document. `Poison` stands for a
      panic while the lock is held. */
  datatype Call =
    | Checkpoint(value: Value, blocked: bool, generation: string)
    | Restore(token: string)
    | BeginRecovery
    | BeginRecreation
    | Poison

  datatype Reply =
    | Accepted
    | TooLarge
    | Unavailable
    | StaleDocument
    | Restored(checkpoint: Option<Value>, generation: string)
    | Granted
    | Denied

  function Kept(value: Value): Option<Value> { if value.Null? then None else Some(value) }

  function Apply(s: Stored, call: Call): (Stored, Reply) {
    match call
    case Poison => (s.(poisoned := true), Unavailable)
    case Checkpoint(value, blocked, generation) =>
      if s.poisoned then (s, Unavailable)
      else if s.generation != Some(generation) then (s, StaleDocument)
      else
        var held := s.(recoveryBlocked := true);
        (match EncodedSize(value)
         case None => (held, Unavailable)
         case Some(size) =>
           if size > MAX_CHECKPOINT_BYTES then (held, TooLarge)
           else (held.(checkpoint := Kept(value), recoveryBlocked := blocked), Accepted))
    case Restore(token) =>
      if s.poisoned then (s, Unavailable)
      else (s.(generation := Some(token), recoveryBlocked := true, recreationPermitted := false),
            Restored(s.checkpoint, token))
    case BeginRecovery =>
      if s.poisoned || s.recoveryBlocked then (s, Denied)
      else (s.(recoveryBlocked := true, generation := None, recreationPermitted := true), Granted)
    case BeginRecreation =>
      if s.poisoned || !s.recoveryBlocked || s.generation.Some? || !s.recreationPermitted then (s, Denied)
      else (s.(recreationPermitted := false), Granted)
  }

  class FrontendRecoveryState {
    var checkpoint: Option<Value>
    var generation: Option<string>
    var recoveryBlocked: bool
    var recreationPermitted: bool
    var poisoned: bool

    ghost function State(): Stored
      reads this
    {
      Stored(checkpoint, generation, recoveryBlocked, recreationPermitted, poisoned)
    }

    constructor ()
      ensures State() == DEFAULT
    {
      checkpoint, generation, recoveryBlocked, recreationPermitted, poisoned := None, None, true, false, false;
    }

    method SaveCheckpoint(value: Value, blocked: bool, writer: string) returns (reply: Reply)
      modifies this
      ensures (State(), reply) == Apply(old(State()), Checkpoint(value, blocked, writer))
    {
      if poisoned {
        return Unavailable;
      }
      if generation != Some(writer) {
        return StaleDocument;
      }
      recoveryBlocked := true;
      var size := EncodedSize(value);
      if size.None? {
        return Unavailable;
      }
      if size.value > MAX_CHECKPOINT_BYTES {
        return TooLarge;
      }
      checkpoint := Kept(value);
      recoveryBlocked := blocked;
      reply := Accepted;
    }

    method RestoreCheckpoint(token: string) returns (reply: Reply)
      modifies this
      ensures (State(), reply) == Apply(old(State()), Restore(token))
    {
      if poisoned {
        return Unavailable;
      }
      generation := Some(token);
      recoveryBlocked := true;
      recreationPermitted := false;
      reply := Restored(checkpoint, token);
    }

    method RecoveryAllowed() returns (allowed: bool)
      ensures allowed <==> Apply(State(), BeginRecovery).1 == Granted
    {
      allowed := !poisoned && !recoveryBlocked;
    }

    method FrontendOwnsCheckpoint() returns (owns: bool)
      ensures owns <==> !poisoned && generation.Some?
    {
      owns := !poisoned && generation.Some?;
    }

    method TryBeginRecovery() returns (granted: bool)
      modifies this
      ensures (State(), if granted then Granted else Denied) == Apply(old(State()), BeginRecovery)
    {
      if poisoned || recoveryBlocked {
        return false;
      }
      recoveryBlocked := true;
      generation := None;
      recreationPermitted := true;
      granted := true;
    }

    method TryBeginRecreation() returns (granted: bool)
      modifies this
      ensures (State(), if granted then Granted else Denied) == Apply(old(State()), BeginRecreation)
    {
      if poisoned || !recoveryBlocked || generation.Some? || !recreationPermitted {
        return false;
      }
      recreationPermitted := false;
      granted := true;
    }
  }

  // ---- histories ---------------------------------------------------------------------------------

  function StateAt(calls: seq<Call>, i: nat): Stored
    requires i <= |calls|
  {
    if i == 0 then DEFAULT else Apply(StateAt(calls, i - 1), calls[i - 1]).0
  }

  function ReplyAt(calls: seq<Call>, i: nat): Reply
    requires i < |calls|
  {
    Apply(StateAt(calls, i), calls[i]).1
  }

  predicate Recovers(calls: seq<Call>, i: nat)
    requires i < |calls|
  {
    calls[i].BeginRecovery? && ReplyAt(calls, i) == Granted
  }

  predicate Recreates(calls: seq<Call>, i: nat)
    requires i < |calls|
  {
    calls[i].BeginRecreation? && ReplyAt(calls, i) == Granted
  }

  predicate Restores(calls: seq<Call>, i: nat)
    requires i < |calls|
  {
    calls[i].Restore? && ReplyAt(calls, i).Restored?
  }

  predicate Accepts(calls: seq<Call>, i: nat)
    requires i < |calls|
  {
    calls[i].Checkpoint? && ReplyAt(calls, i) == Accepted
  }

  /** A permission to recreate implies that recovery is blocked and no document owns the
      checkpoint; an unblocked checkpoint is owned. */
  lemma {:induction false} PermissionsExclude(calls: seq<Call>, i: nat)
    requires i <= |calls|
    ensures var s := StateAt(calls, i);
            && (s.recreationPermitted ==> s.recoveryBlocked && s.generation.None?)
            && (!s.recoveryBlocked ==> s.generation.Some?)
  {
    if i > 0 {
      PermissionsExclude(calls, i - 1);
    }
  }

  /** Restore `r` made the document `token` current, and it still is at `i`. */
  ghost predicate CurrentSince(calls: seq<Call>, i: nat, r: nat, token: string)
    requires i <= |calls|
  {
    && r < i && Restores(calls, r) && calls[r].token == token
    && forall k :: r < k < i ==> !Restores(calls, k) && !Recovers(calls, k)
  }

  lemma {:induction false} CurrentDocument(calls: seq<Call>, i: nat) returns (r: nat)
    requires i <= |calls| && StateAt(calls, i).generation.Some?
    ensures CurrentSince(calls, i, r, StateAt(calls, i).generation.value)
  {
    if Restores(calls, i - 1) {
      r := i - 1;
    } else {
      r := CurrentDocument(calls, i - 1);
    }
  }

  /** Checkpoint `c` unblocked recovery, and nothing has blocked it since. */
  ghost predicate UnblockedSince(calls: seq<Call>, i: nat, c: nat)
    requires i <= |calls|
  {
    && c < i && Accepts(calls, c) && !calls[c].blocked
    && forall k :: c < k < i ==> !Restores(calls, k) && !Recovers(calls, k)
  }

  lemma {:induction false} Unblocked(calls: seq<Call>, i: nat) returns (c: nat)
    requires i <= |calls| && !StateAt(calls, i).recoveryBlocked
    ensures UnblockedSince(calls, i, c)
  {
    if Accepts(calls, i - 1) {
      c := i - 1;
    } else {
      c := Unblocked(calls, i - 1);
    }
  }

  /** Between two successful recoveries there is a restore, and after it an accepted unblocking
      checkpoint written by the document that restore created, the latest one at that time. */
  lemma RecoveryNeedsFreshCheckpoint(calls: seq<Call>, i: nat, j: nat) returns (r: nat, c: nat)
    requires i < j < |calls| && Recovers(calls, i) && Recovers(calls, j)
    ensures i < r < c < j && Restores(calls, r)
    ensures Accepts(calls, c) && !calls[c].blocked && calls[c].generation == calls[r].token
    ensures forall k :: r < k < c ==> !Restores(calls, k)
  {
    c := Unblocked(calls, j);
    assert c != i;
    r := CurrentDocument(calls, c);
  }

  /** Recovery `i` granted a recreation that is still available at `j`. */
  ghost predicate GrantedSince(calls: seq<Call>, j: nat, i: nat)
    requires j <= |calls|
  {
    && i < j && Recovers(calls, i)
    && forall k :: i < k < j ==> !Restores(calls, k) && !Recreates(calls, k) && !Recovers(calls, k)
  }

  lemma {:induction false} RecreationGrant(calls: seq<Call>, j: nat) returns (i: nat)
    requires j <= |calls| && StateAt(calls, j).recreationPermitted
    ensures GrantedSince(calls, j, i)
  {
    PermissionsExclude(calls, j - 1);
    if Recovers(calls, j - 1) {
      i := j - 1;
    } else {
      i := RecreationGrant(calls, j - 1);
    }
  }

  /** Every successful recreation follows a successful recovery with no restore in between, and
      two recreations never use the same recovery. */
  lemma RecreationsUseDistinctRecoveries(calls: seq<Call>, j: nat, l: nat) returns (i: nat, k: nat)
    requires j < l < |calls| && Recreates(calls, j) && Recreates(calls, l)
    ensures i < j < k < l
    ensures GrantedSince(calls, j, i) && GrantedSince(calls, l, k)
  {
    i := RecreationGrant(calls, j);
    k := RecreationGrant(calls, l);
    assert k != j;
  }

  /** The accepted checkpoint that is latest before `i`. */
  ghost predicate LastAccepted(calls: seq<Call>, i: nat, c: nat)
    requires i <= |calls|
  {
    c < i && Accepts(calls, c) && forall k :: c < k < i ==> !Accepts(calls, k)
  }

  lemma {:induction false} NoDraft(calls: seq<Call>, i: nat)
    requires i <= |calls| && forall c :: 0 <= c < i ==> !Accepts(calls, c)
    ensures StateAt(calls, i).checkpoint == None
  {
    if i > 0 {
      NoDraft(calls, i - 1);
      assert !Accepts(calls, i - 1);
    }
  }

  lemma {:induction false} StoredDraft(calls: seq<Call>, i: nat, c: nat)
    requires i <= |calls| && LastAccepted(calls, i, c)
    ensures StateAt(calls, i).checkpoint == Kept(calls[c].value)
  {
    if c < i - 1 {
      assert !Accepts(calls, i - 1);
      StoredDraft(calls, i - 1, c);
    }
  }

  /** A restore returns the value of the last accepted checkpoint, null meaning none, whatever
      was rejected, recovered or recreated in between. */
  lemma RestoreReturnsLastAccepted(calls: seq<Call>, i: nat)
    requires i < |calls| && Restores(calls, i)
    ensures (forall c :: 0 <= c < i ==> !Accepts(calls, c)) ==> ReplyAt(calls, i).checkpoint == None
    ensures forall c: nat :: LastAccepted(calls, i, c) ==> ReplyAt(calls, i).checkpoint == Kept(calls[c].value)
  {
    if forall c :: 0 <= c < i ==> !Accepts(calls, c) {
      NoDraft(calls, i);
    }
    forall c: nat | LastAccepted(calls, i, c) ensures StateAt(calls, i).checkpoint == Kept(calls[c].value) {
      StoredDraft(calls, i, c);
    }
  }

  ghost predicate FreshTokens(calls: seq<Call>) {
    forall i, j :: 0 <= i < j < |calls| && calls[i].Restore? && calls[j].Restore? ==>
      calls[i].token != calls[j].token
  }

  /** With fresh tokens a document that was replaced by a later restore, or disowned by a
      recovery, can no longer change anything. */
  lemma ReplacedDocumentIsPowerless(calls: seq<Call>, r: nat, later: nat, i: nat)
    requires FreshTokens(calls) && r < later < i < |calls| && Restores(calls, r)
    requires Restores(calls, later) || Recovers(calls, later)
    requires calls[i].Checkpoint? && calls[i].generation == calls[r].token
    ensures ReplyAt(calls, i) in {StaleDocument, Unavailable}
    ensures StateAt(calls, i + 1) == StateAt(calls, i)
  {
    if !StateAt(calls, i).poisoned && StateAt(calls, i).generation == Some(calls[i].generation) {
      var s := CurrentDocument(calls, i);
    }
  }

  /** An accepted write comes from the current document; an oversized write by it keeps the old
      draft and leaves recovery blocked; a write by any other document changes no field. */
  lemma WriteOutcomes(calls: seq<Call>, i: nat)
    requires i < |calls| && calls[i].Checkpoint? && !StateAt(calls, i).poisoned
    ensures var s, t, reply := StateAt(calls, i), StateAt(calls, i + 1), ReplyAt(calls, i);
            && (reply == StaleDocument <==> s.generation != Some(calls[i].generation))
            && (reply == StaleDocument ==> t == s)
            && (reply == Accepted ==> t == s.(checkpoint := Kept(calls[i].value), recoveryBlocked := calls[i].blocked))
            && (reply == TooLarge ==> t == s.(recoveryBlocked := true))
            && (reply == TooLarge <==> s.generation == Some(calls[i].generation) && EncodedSize(calls[i].value).Some?
                                       && EncodedSize(calls[i].value).value > MAX_CHECKPOINT_BYTES)
  {
  }

  /** Recovery from a draft that is newer than the stored one is impossible: whenever recovery is
      granted, the stored draft is that of the last write the current document attempted. */
  lemma RecoveryLosesNoDraft(calls: seq<Call>, j: nat, w: nat)
    requires w < j < |calls| && Recovers(calls, j)
    requires calls[w].Checkpoint? && StateAt(calls, w).generation == Some(calls[w].generation)
    requires !StateAt(calls, w).poisoned
    requires forall k :: w < k < j ==>
               !(calls[k].Checkpoint? && StateAt(calls, k).generation == Some(calls[k].generation))
    ensures Accepts(calls, w) && !calls[w].blocked && StateAt(calls, j).checkpoint == Kept(calls[w].value)
  {
    hide Apply;
    BlockedStays(calls, w, j);
    RecoveryWasUnblocked(calls, j);
    WriteBlocksOrIsStored(calls, w);
    forall k | w < k < j ensures !Accepts(calls, k) {
      OnlyCurrentIsAccepted(calls, k);
    }
    StoredDraft(calls, j, w);
  }

  lemma RecoveryWasUnblocked(calls: seq<Call>, j: nat)
    requires j < |calls| && Recovers(calls, j)
    ensures !StateAt(calls, j).recoveryBlocked
  {
  }

  lemma OnlyCurrentIsAccepted(calls: seq<Call>, k: nat)
    requires k < |calls|
    ensures Accepts(calls, k) ==> calls[k].Checkpoint? && StateAt(calls, k).generation == Some(calls[k].generation)
  {
  }

  lemma WriteBlocksOrIsStored(calls: seq<Call>, w: nat)
    requires w < |calls| && calls[w].Checkpoint? && StateAt(calls, w).generation == Some(calls[w].generation)
    requires !StateAt(calls, w).poisoned
    ensures StateAt(calls, w + 1).recoveryBlocked || (Accepts(calls, w) && !calls[w].blocked)
  {
  }

  lemma {:induction false} BlockedStays(calls: seq<Call>, w: nat, j: nat)
    requires w < j <= |calls|
    requires forall k :: w < k < j ==>
               !(calls[k].Checkpoint? && StateAt(calls, k).generation == Some(calls[k].generation))
    ensures StateAt(calls, w + 1).recoveryBlocked ==> StateAt(calls, j).recoveryBlocked
    decreases j
  {
    if w + 1 < j {
      BlockedStays(calls, w, j - 1);
    }
  }
}
