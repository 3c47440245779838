/** Batched view hydration (src/application/timeline_hydration.rs): related statuses and
    accounts are fetched in rounds, and the views come out as if each row were looked up. */
module Hydration {
  import opened Basics

  /** A row's id and server. */
  type Key = (string, string)

  datatype DbStatus = DbStatus(
    id: string, serverDomain: string, uri: string, createdAt: string, accountId: string,
    reblogOfId: Option<string>, quoteId: Option<string>, content: string, marks: Marks)

  /** What a viewer did with a status, as far as it is known. */
  datatype Marks = Marks(favourited: Option<bool>, reblogged: Option<bool>, bookmarked: Option<bool>)

  /** A viewer's account, and the id and server of a status. */
  type ViewerKey = (string, string, string)

  datatype DbAccount = DbAccount(
    id: string, serverDomain: string, acct: string, displayName: string, avatar: string, emojis: string)

  datatype Database = Database(
    statuses: map<Key, DbStatus>, accounts: map<Key, DbAccount>, viewerStates: map<ViewerKey, Marks>)

  function StatusKey(status: DbStatus): Key { (status.id, status.serverDomain) }

  function AccountKey(status: DbStatus): Key { (status.accountId, status.serverDomain) }

  ghost predicate Keyed(db: Database) {
    && (forall k :: k in db.statuses ==> StatusKey(db.statuses[k]) == k)
    && (forall k :: k in db.accounts ==> (db.accounts[k].id, db.accounts[k].serverDomain) == k)
  }

  // ---- views -------------------------------------------------------------------------------------

  /** A quoted status with its author. */
  datatype Quote = Quote(status: DbStatus, account: Option<DbAccount>)

  /** Who boosted a status, when it is shown through a boost. */
  datatype Boost = Boost(
    caption: string, displayName: string, acct: string, avatar: Option<string>, accountId: string,
    emojis: string, originalCreatedAt: string)

  /** `status` and `account` supply every field the other parts do not override. */
  datatype View = View(
    status: DbStatus, account: Option<DbAccount>, id: string, uri: string, createdAt: string,
    quote: Option<Quote>, boost: Option<Boost>)

  /** The rows a view may draw on. */
  datatype Context = Context(statuses: map<Key, DbStatus>, accounts: map<Key, DbAccount>)

  function AccountFor(c: Context, status: DbStatus): Option<DbAccount> {
    if AccountKey(status) in c.accounts then Some(c.accounts[AccountKey(status)]) else None
  }

  function StatusAt(c: Context, key: Key): Option<DbStatus> {
    if key in c.statuses then Some(c.statuses[key]) else None
  }

  function WithQuote(c: Context, status: DbStatus, account: Option<DbAccount>): View {
    var plain := View(status, account, status.id, status.uri, status.createdAt, None, None);
    if status.quoteId.None? then plain
    else match StatusAt(c, (status.quoteId.value, status.serverDomain))
      case None => plain
      case Some(quote) => plain.(quote := Some(Quote(quote, AccountFor(c, quote))))
  }

  function BoostOf(status: DbStatus, account: Option<DbAccount>, originalCreatedAt: string): Boost {
    match account
    case None =>
      Boost(status.accountId + " boosted", status.accountId, "@" + status.accountId, None, status.accountId, "",
            originalCreatedAt)
    case Some(a) =>
      var name := if a.displayName == "" then "@" + a.acct else a.displayName;
      Boost(name + " boosted", name, "@" + a.acct, Some(a.avatar), status.accountId, a.emojis, originalCreatedAt)
  }

  /** The view of a status, shown through the boost if it is one whose target is at hand. */
  function ResolvingReblog(c: Context, status: DbStatus): View {
    var account := AccountFor(c, status);
    if status.reblogOfId.None? then WithQuote(c, status, account)
    else match StatusAt(c, (status.reblogOfId.value, status.serverDomain))
      case None => WithQuote(c, status, account)
      case Some(original) =>
        var view := WithQuote(c, original, AccountFor(c, original));
        view.(id := status.id, uri := status.uri, createdAt := status.createdAt,
              boost := Some(BoostOf(status, account, view.createdAt)))
  }

  /** Every row the view needs is looked up in the database itself. */
  function DirectView(db: Database, status: DbStatus): View {
    ResolvingReblog(Context(db.statuses, db.accounts), status)
  }

  // ---- what is prefetched ---------------------------------------------------------------------------

  function Primary(statuses: seq<DbStatus>): set<Key> {
    set s | s in statuses :: StatusKey(s)
  }

  function Targets(status: DbStatus): set<Key> {
    (if status.reblogOfId.Some? then {(status.reblogOfId.value, status.serverDomain)} else {})
    + (if status.quoteId.Some? then {(status.quoteId.value, status.serverDomain)} else {})
  }

  function Related(statuses: seq<DbStatus>): set<Key> {
    set s, k | s in statuses && k in Targets(s) :: k
  }

  /** The quote of a boost's target, where both exist. */
  function TargetQuote(known: map<Key, DbStatus>, status: DbStatus): set<Key> {
    if status.reblogOfId.None? then {}
    else
      var key := (status.reblogOfId.value, status.serverDomain);
      if key !in known || known[key].quoteId.None? then {}
      else {(known[key].quoteId.value, known[key].serverDomain)}
  }

  function TargetQuotes(known: map<Key, DbStatus>, statuses: seq<DbStatus>): set<Key> {
    set s, k | s in statuses && k in TargetQuote(known, s) :: k
  }

  function Restrict<V>(rows: map<Key, V>, keys: set<Key>): map<Key, V> {
    map k | k in rows && k in keys :: rows[k]
  }

  function Wanted(db: Database, statuses: seq<DbStatus>): set<Key> {
    Primary(statuses) + Related(statuses) + TargetQuotes(db.statuses, statuses)
  }

  function Authors(statuses: map<Key, DbStatus>): set<Key> {
    set k | k in statuses :: AccountKey(statuses[k])
  }

  /** Exactly the primary rows, the rows they boost or quote, the rows those boosts quote, and
      the authors of all of them. */
  function Prefetched(db: Database, statuses: seq<DbStatus>): Context {
    var rows := Restrict(db.statuses, Wanted(db, statuses));
    Context(rows, Restrict(db.accounts, Authors(rows)))
  }

  /** The given rows are the database's own. */
  ghost predicate DrawnFrom(db: Database, statuses: seq<DbStatus>) {
    forall s :: s in statuses ==> StatusKey(s) in db.statuses && db.statuses[StatusKey(s)] == s
  }

  lemma RestrictLookup<V>(rows: map<Key, V>, keys: set<Key>, key: Key)
    requires key in keys
    ensures key in Restrict(rows, keys) <==> key in rows
    ensures key in rows ==> Restrict(rows, keys)[key] == rows[key]
  {
  }

  lemma AuthorAtHand(db: Database, statuses: seq<DbStatus>, key: Key)
    requires key in Wanted(db, statuses) && key in db.statuses
    ensures AccountFor(Prefetched(db, statuses), db.statuses[key])
         == AccountFor(Context(db.statuses, db.accounts), db.statuses[key])
  {
    var rows := Restrict(db.statuses, Wanted(db, statuses));
    RestrictLookup(db.statuses, Wanted(db, statuses), key);
    assert AccountKey(rows[key]) in Authors(rows);
    hide Wanted, Restrict;
    RestrictLookup(db.accounts, Authors(rows), AccountKey(rows[key]));
  }

  lemma RowAtHand(db: Database, statuses: seq<DbStatus>, key: Key)
    requires key in Wanted(db, statuses)
    ensures StatusAt(Prefetched(db, statuses), key) == StatusAt(Context(db.statuses, db.accounts), key)
  {
    RestrictLookup(db.statuses, Wanted(db, statuses), key);
  }

  lemma QuotedViewAtHand(db: Database, statuses: seq<DbStatus>, status: DbStatus, account: Option<DbAccount>)
    requires status.quoteId.Some? ==> (status.quoteId.value, status.serverDomain) in Wanted(db, statuses)
    ensures WithQuote(Prefetched(db, statuses), status, account)
         == WithQuote(Context(db.statuses, db.accounts), status, account)
  {
    if status.quoteId.Some? {
      var key := (status.quoteId.value, status.serverDomain);
      RowAtHand(db, statuses, key);
      if key in db.statuses {
        AuthorAtHand(db, statuses, key);
      }
    }
    hide Wanted, Prefetched;
  }

  /** Hydrating in batches gives the same view as looking up every row: the boost target, the
      quote, the quote of the boost target, and the authors of all of them. */
  lemma BatchedEqualsDirect(db: Database, statuses: seq<DbStatus>, status: DbStatus)
    requires Keyed(db) && DrawnFrom(db, statuses) && status in statuses
    ensures ResolvingReblog(Prefetched(db, statuses), status) == DirectView(db, status)
  {
    var key := StatusKey(status);
    assert key in Primary(statuses);
    assert forall k :: k in Targets(status) ==> k in Related(statuses);
    AuthorAtHand(db, statuses, key);
    if status.reblogOfId.Some? {
      var target := (status.reblogOfId.value, status.serverDomain);
      assert target in Targets(status);
      RowAtHand(db, statuses, target);
      if target in db.statuses {
        var original := db.statuses[target];
        AuthorAtHand(db, statuses, target);
        assert TargetQuote(db.statuses, status) <= TargetQuotes(db.statuses, statuses);
        QuotedViewAtHand(db, statuses, original, AccountFor(Context(db.statuses, db.accounts), original));
      }
    }
    assert status.quoteId.Some? ==> (status.quoteId.value, status.serverDomain) in Targets(status);
    hide Prefetched, Primary, Related, TargetQuotes, TargetQuote, WithQuote, Restrict;
    QuotedViewAtHand(db, statuses, status, AccountFor(Context(db.statuses, db.accounts), status));
  }

  // ---- the rounds ----------------------------------------------------------------------------------------

  class KeyCollector {
    var keys: seq<Key>
    var seen: set<Key>
    ghost const known: set<Key>

    /** Each key is asked for once, and none that is already known. */
    ghost predicate Valid()
      reads this
    {
      && NoDup(keys)
      && (forall k :: k in keys <==> k in seen && k !in known)
      && known <= seen
    }

    ghost function Asked(): set<Key>
      reads this
    {
      set k | k in keys
    }

    constructor (known: set<Key>)
      ensures Valid() && this.known == known && Asked() == {}
    {
      keys, seen := [], known;
      this.known := known;
    }

    method PushUnique(key: Key)
      requires Valid()
      modifies this
      ensures Valid() && Asked() == old(Asked()) + ({key} - known)
    {
      if key !in seen {
        seen := seen + {key};
        keys := keys + [key];
      }
    }

    method PushAll(wanted: set<Key>)
      requires Valid()
      modifies this
      ensures Valid() && Asked() == old(Asked()) + (wanted - known)
    {
      var order := Iterate(wanted);
      for i := 0 to |order|
        invariant Valid()
        invariant Asked() == old(Asked()) + ((set k | k in order[..i]) - known)
      {
        assert order[..i + 1] == order[..i] + [order[i]];
        PushUnique(order[i]);
      }
      assert order[..|order|] == order;
      assert (set k | k in order) == wanted;
    }
  }

  /** The rows of a query for the given keys. */
  function QueryRows<V>(rows: map<Key, V>, keys: seq<Key>): map<Key, V> {
    map k | k in rows && k in keys :: rows[k]
  }

  /** Rows already at hand win over fetched ones. */
  function OrInsert(have: map<Key, DbStatus>, fetched: map<Key, DbStatus>): map<Key, DbStatus> {
    fetched + have
  }

  method Load(db: Database, statuses: seq<DbStatus>) returns (context: Context)
    requires Keyed(db) && DrawnFrom(db, statuses)
    ensures context == Prefetched(db, statuses)
  {
    var rows := LoadPrimary(db, statuses);
    hide Restrict, QueryRows, OrInsert, Related, Primary, TargetQuotes, Authors;

    var related := RelatedKeys(rows, statuses);
    MergedRows(db.statuses, Primary(statuses), Related(statuses), related);
    rows := OrInsert(rows, QueryRows(db.statuses, related));

    TargetsKnown(db, rows, statuses);
    var quotes := TargetQuoteKeys(rows, statuses);
    MergedRows(db.statuses, Primary(statuses) + Related(statuses), TargetQuotes(db.statuses, statuses), quotes);
    rows := OrInsert(rows, QueryRows(db.statuses, quotes));

    var authors := AuthorKeys(rows);
    QueriedRows(db.accounts, Authors(rows), authors);
    context := Context(rows, QueryRows(db.accounts, authors));
  }

  method RelatedKeys(rows: map<Key, DbStatus>, statuses: seq<DbStatus>) returns (keys: seq<Key>)
    ensures NoDup(keys) && forall k :: k in keys <==> k in Related(statuses) && k !in rows
  {
    var collector := new KeyCollector(rows.Keys);
    for i := 0 to |statuses|
      invariant collector.Valid() && collector.known == rows.Keys
      invariant collector.Asked() == Related(statuses[..i]) - rows.Keys
    {
      RelatedNext(statuses[..i], statuses[i]);
      assert statuses[..i + 1] == statuses[..i] + [statuses[i]];
      collector.PushAll(Targets(statuses[i]));
    }
    assert statuses[..|statuses|] == statuses;
    keys := collector.keys;
    assert forall k :: k in keys <==> k in collector.Asked();
  }

  method TargetQuoteKeys(rows: map<Key, DbStatus>, statuses: seq<DbStatus>) returns (keys: seq<Key>)
    ensures NoDup(keys) && forall k :: k in keys <==> k in TargetQuotes(rows, statuses) && k !in rows
  {
    var collector := new KeyCollector(rows.Keys);
    for i := 0 to |statuses|
      invariant collector.Valid() && collector.known == rows.Keys
      invariant collector.Asked() == TargetQuotes(rows, statuses[..i]) - rows.Keys
    {
      TargetQuotesNext(rows, statuses[..i], statuses[i]);
      assert statuses[..i + 1] == statuses[..i] + [statuses[i]];
      collector.PushAll(TargetQuote(rows, statuses[i]));
    }
    assert statuses[..|statuses|] == statuses;
    keys := collector.keys;
    assert forall k :: k in keys <==> k in collector.Asked();
  }

  method AuthorKeys(rows: map<Key, DbStatus>) returns (keys: seq<Key>)
    ensures NoDup(keys) && forall k :: k in keys <==> k in Authors(rows)
  {
    var collector := new KeyCollector({});
    collector.PushAll(Authors(rows));
    keys := collector.keys;
    assert forall k :: k in keys <==> k in collector.Asked();
  }

  lemma QueriedRows<V>(rows: map<Key, V>, wanted: set<Key>, asked: seq<Key>)
    requires forall k :: k in asked <==> k in wanted
    ensures QueryRows(rows, asked) == Restrict(rows, wanted)
  {
  }

  /** A round fetches exactly the wanted rows that are not at hand yet. */
  lemma MergedRows(rows: map<Key, DbStatus>, have: set<Key>, wanted: set<Key>, asked: seq<Key>)
    requires forall k :: k in asked <==> k in wanted && k !in Restrict(rows, have)
    ensures OrInsert(Restrict(rows, have), QueryRows(rows, asked)) == Restrict(rows, have + wanted)
  {
  }

  method LoadPrimary(db: Database, statuses: seq<DbStatus>) returns (rows: map<Key, DbStatus>)
    requires DrawnFrom(db, statuses)
    ensures rows == Restrict(db.statuses, Primary(statuses))
  {
    rows := map[];
    for i := 0 to |statuses|
      invariant rows == Restrict(db.statuses, Primary(statuses[..i]))
    {
      assert statuses[..i + 1] == statuses[..i] + [statuses[i]];
      assert statuses[i] in statuses;
      assert Primary(statuses[..i + 1]) == Primary(statuses[..i]) + {StatusKey(statuses[i])};
      rows := rows[StatusKey(statuses[i]) := statuses[i]];
    }
    assert statuses[..|statuses|] == statuses;
  }

  lemma RelatedNext(before: seq<DbStatus>, status: DbStatus)
    ensures Related(before + [status]) == Related(before) + Targets(status)
    ensures Related([]) == {}
  {
    var all := before + [status];
    assert all[|before|] == status;
    assert forall s :: s in all <==> s in before || s == status;
    hide Targets;
  }

  lemma TargetQuotesNext(known: map<Key, DbStatus>, before: seq<DbStatus>, status: DbStatus)
    ensures TargetQuotes(known, before + [status]) == TargetQuotes(known, before) + TargetQuote(known, status)
    ensures TargetQuotes(known, []) == {}
  {
    var all := before + [status];
    assert all[|before|] == status;
    assert forall s :: s in all <==> s in before || s == status;
    hide TargetQuote;
  }

  /** After the first round every boost target that exists is at hand, so the second round asks
      for the same quotes as the whole database would name. */
  lemma TargetsKnown(db: Database, rows: map<Key, DbStatus>, statuses: seq<DbStatus>)
    requires rows == Restrict(db.statuses, Primary(statuses) + Related(statuses))
    ensures TargetQuotes(rows, statuses) == TargetQuotes(db.statuses, statuses)
  {
    forall s | s in statuses ensures TargetQuote(rows, s) == TargetQuote(db.statuses, s) {
      if s.reblogOfId.Some? {
        var key := (s.reblogOfId.value, s.serverDomain);
        assert key in Targets(s);
        assert key in Related(statuses);
      }
    }
  }

  /** A timeline entry: which status to show, and the account whose timeline it came from. */
  datatype StatusRef = StatusRef(statusId: string, serverDomain: string, sourceAcct: Option<string>)

  /** The three buttons under a status; what is unknown shows as not done. */
  datatype Buttons = Buttons(favourited: bool, reblogged: bool, bookmarked: bool)

  function Pressed(mark: Option<bool>): bool { mark == Some(true) }

  function ButtonsOf(marks: Marks): Buttons {
    Buttons(Pressed(marks.favourited), Pressed(marks.reblogged), Pressed(marks.bookmarked))
  }

  datatype Sourced = Sourced(view: View, sourceAcct: Option<string>, buttons: Buttons)

  /** Viewer states belong to the status shown, so for a boost to its target. */
  function ViewerKeyOf(view: View, acct: string): ViewerKey { (acct, view.status.id, view.status.serverDomain) }

  /** The buttons by direct lookup: the source account's own state, else what the row says. */
  function DirectButtons(db: Database, view: View, sourceAcct: Option<string>): Buttons {
    match sourceAcct
    case None => ButtonsOf(view.status.marks)
    case Some(acct) =>
      if ViewerKeyOf(view, acct) in db.viewerStates then ButtonsOf(db.viewerStates[ViewerKeyOf(view, acct)])
      else ButtonsOf(view.status.marks)
  }

  /** One query for all viewer states, each key asked for once; then every view takes its own. */
  method ApplyViewerStates(db: Database, views: seq<Sourced>) returns (updated: seq<Sourced>)
    requires forall i :: 0 <= i < |views| ==> views[i].buttons == ButtonsOf(views[i].view.status.marks)
    ensures |updated| == |views|
    ensures forall i :: 0 <= i < |views| ==>
              updated[i] == views[i].(buttons := DirectButtons(db, views[i].view, views[i].sourceAcct))
  {
    var keys := ViewerKeys(views);
    var states := map key | key in keys && key in db.viewerStates :: db.viewerStates[key];
    updated := [];
    for i := 0 to |views|
      invariant |updated| == i
      invariant forall j :: 0 <= j < i ==>
                  updated[j] == views[j].(buttons := DirectButtons(db, views[j].view, views[j].sourceAcct))
    {
      var entry := views[i];
      if entry.sourceAcct.Some? {
        var key := ViewerKeyOf(entry.view, entry.sourceAcct.value);
        assert Wants(views, i, key);
        if key in states {
          entry := entry.(buttons := ButtonsOf(states[key]));
        }
      }
      updated := updated + [entry];
    }
  }

  /** View `i` wants the viewer state under `key`. */
  predicate Wants(views: seq<Sourced>, i: nat, key: ViewerKey)
    requires i < |views|
  {
    views[i].sourceAcct.Some? && key == ViewerKeyOf(views[i].view, views[i].sourceAcct.value)
  }

  method ViewerKeys(views: seq<Sourced>) returns (keys: seq<ViewerKey>)
    ensures NoDup(keys)
    ensures forall key :: key in keys <==> exists i :: 0 <= i < |views| && Wants(views, i, key)
  {
    keys := [];
    var seen: set<ViewerKey> := {};
    for i := 0 to |views|
      invariant NoDup(keys) && forall key :: key in keys <==> key in seen
      invariant forall key :: key in seen <==> exists j :: 0 <= j < i && Wants(views, j, key)
    {
      if views[i].sourceAcct.Some? {
        var key := ViewerKeyOf(views[i].view, views[i].sourceAcct.value);
        assert Wants(views, i, key);
        if key !in seen {
          seen := seen + {key};
          keys := keys + [key];
        }
      }
    }
  }

  datatype Loaded = Views(views: seq<Sourced>) | NotCached(missing: StatusRef)

  function RefKey(r: StatusRef): Key { (r.statusId, r.serverDomain) }

  ghost predicate FirstMissing(db: Database, refs: seq<StatusRef>, i: int) {
    && 0 <= i < |refs| && RefKey(refs[i]) !in db.statuses
    && forall j :: 0 <= j < i ==> RefKey(refs[j]) in db.statuses
  }

  /** Every reference becomes the direct view of its status, in order; the first one that is not
      cached makes the whole load fail. */
  method RefsToViews(db: Database, refs: seq<StatusRef>) returns (loaded: Loaded)
    requires Keyed(db)
    ensures loaded.NotCached? <==> exists i :: 0 <= i < |refs| && RefKey(refs[i]) !in db.statuses
    ensures loaded.NotCached? ==> exists i :: FirstMissing(db, refs, i) && refs[i] == loaded.missing
    ensures loaded.Views? ==>
              && |loaded.views| == |refs|
              && forall i :: 0 <= i < |refs| ==>
                   && RefKey(refs[i]) in db.statuses
                   && var view := DirectView(db, db.statuses[RefKey(refs[i])]);
                      loaded.views[i] == Sourced(view, refs[i].sourceAcct, DirectButtons(db, view, refs[i].sourceAcct))
  {
    var statuses: seq<DbStatus> := [];
    for i := 0 to |refs|
      invariant |statuses| == i
      invariant forall j :: 0 <= j < i ==> RefKey(refs[j]) in db.statuses && statuses[j] == db.statuses[RefKey(refs[j])]
    {
      if RefKey(refs[i]) !in db.statuses {
        assert FirstMissing(db, refs, i);
        return NotCached(refs[i]);
      }
      statuses := statuses + [db.statuses[RefKey(refs[i])]];
    }
    assert DrawnFrom(db, statuses);
    var context := Load(db, statuses);
    hide Prefetched, DirectView, DirectButtons, Keyed;
    var views := Hydrate(db, context, statuses, refs);
    loaded := Views(views);
  }

  /** The views of the looked-up statuses, with their source accounts and viewer states. */
  method Hydrate(db: Database, context: Context, statuses: seq<DbStatus>, refs: seq<StatusRef>)
    returns (views: seq<Sourced>)
    requires Keyed(db) && DrawnFrom(db, statuses) && context == Prefetched(db, statuses) && |statuses| == |refs|
    ensures |views| == |refs|
    ensures forall i :: 0 <= i < |refs| ==>
              var view := DirectView(db, statuses[i]);
              views[i] == Sourced(view, refs[i].sourceAcct, DirectButtons(db, view, refs[i].sourceAcct))
  {
    hide ResolvingReblog, Prefetched, DirectView, DirectButtons, Keyed;
    views := [];
    for i := 0 to |refs|
      invariant |views| == i
      invariant forall j :: 0 <= j < i ==>
                  && views[j].view == DirectView(db, statuses[j]) && views[j].sourceAcct == refs[j].sourceAcct
                  && views[j].buttons == ButtonsOf(views[j].view.status.marks)
    {
      assert statuses[i] in statuses;
      BatchedEqualsDirect(db, statuses, statuses[i]);
      var view := ResolvingReblog(context, statuses[i]);
      views := views + [Sourced(view, refs[i].sourceAcct, ButtonsOf(view.status.marks))];
    }
    views := ApplyViewerStates(db, views);
  }
}
