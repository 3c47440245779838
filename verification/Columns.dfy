/** Normalising the columns of a saved workspace (src/application/desktop.rs). */
module Columns {
  import opened Basics
  import opened Sorting

  datatype Column = Column(id: string, name: string, paneIndex: nat, position: int, maxStatuses: int)

  /** Pane first, then position, then name. */
  predicate ColumnLeq(a: Column, b: Column) {
    if a.paneIndex != b.paneIndex then a.paneIndex < b.paneIndex
    else if a.position != b.position then a.position < b.position
    else StringLeq(a.name, b.name)
  }

  lemma ColumnLeqIsOrder()
    ensures TotalPreorder(ColumnLeq)
  {
    forall x: Column, y: Column ensures ColumnLeq(x, y) || ColumnLeq(y, x) {
      StringLeqTotal(x.name, y.name);
    }
    forall x: Column, y: Column, z: Column | ColumnLeq(x, y) && ColumnLeq(y, z)
      ensures ColumnLeq(x, z)
    {
      if x.paneIndex == y.paneIndex == z.paneIndex && x.position == y.position == z.position {
        StringLeqTransitive(x.name, y.name, z.name);
      }
    }
  }

  function AtLeastOne(n: int): int { if n >= 1 then n else 1 }

  function Placed(column: Column, pane: nat, position: int): Column {
    column.(paneIndex := pane, position := position, maxStatuses := AtLeastOne(column.maxStatuses))
  }

  /** Where `column` goes after `sorted`, renumbered to `out`: the next place in the same pane,
      or the next pane's first. */
  function NextPlace(sorted: seq<Column>, out: seq<Column>, column: Column): Column
    requires |sorted| == |out|
  {
    var n := |sorted|;
    if n == 0 then Placed(column, 0, 0)
    else if column.paneIndex == sorted[n - 1].paneIndex
    then Placed(column, out[n - 1].paneIndex, out[n - 1].position + 1)
    else Placed(column, out[n - 1].paneIndex + 1, 0)
  }

  function Renumber(sorted: seq<Column>): (out: seq<Column>)
    ensures |out| == |sorted|
  {
    if sorted == [] then []
    else
      var n := |sorted| - 1;
      var before := Renumber(sorted[..n]);
      before + [NextPlace(sorted[..n], before, sorted[n])]
  }

  function Normalized(columns: seq<Column>): seq<Column> {
    Renumber(SortBy(ColumnLeq, columns))
  }

  /** `next` is the next place in the pane of `column`, or the first place of the next pane. */
  predicate Succeeds(column: Column, next: Column) {
    || (next.paneIndex == column.paneIndex && next.position == column.position + 1)
    || (next.paneIndex == column.paneIndex + 1 && next.position == 0)
  }

  /** Panes count 0, 1, ... without gaps, positions count 0, 1, ... within each pane. */
  ghost predicate Canonical(columns: seq<Column>) {
    && (columns != [] ==> columns[0].paneIndex == 0 && columns[0].position == 0)
    && (forall k :: 0 < k < |columns| ==> Succeeds(columns[k - 1], columns[k]))
    && (forall k :: 0 <= k < |columns| ==> columns[k].maxStatuses >= 1)
  }

  lemma CanonicalSplit(columns: seq<Column>, last: Column)
    ensures Canonical(columns + [last]) <==>
              && Canonical(columns) && last.maxStatuses >= 1
              && (if columns == [] then last.paneIndex == 0 && last.position == 0
                  else Succeeds(columns[|columns| - 1], last))
  {
    var all := columns + [last];
    assert forall k :: 0 <= k < |columns| ==> all[k] == columns[k];
    assert all[|columns|] == last;
    hide Succeeds;
  }

  /** `out` holds the columns of `sorted` one for one, changing numbers only, and keeps which
      columns share a pane and which panes come first. */
  ghost predicate KeepsPanes(sorted: seq<Column>, out: seq<Column>) {
    && |out| == |sorted|
    && (forall k :: 0 <= k < |out| ==> out[k] == Placed(sorted[k], out[k].paneIndex, out[k].position))
    && (forall i, j :: 0 <= i < j < |out| ==>
          && out[i].paneIndex <= out[j].paneIndex
          && (out[i].paneIndex == out[j].paneIndex <==> sorted[i].paneIndex == sorted[j].paneIndex))
  }

  ghost predicate PanesAscend(sorted: seq<Column>) {
    forall i, j :: 0 <= i < j < |sorted| ==> sorted[i].paneIndex <= sorted[j].paneIndex
  }

  lemma KeepsPanesNext(sorted: seq<Column>, out: seq<Column>, column: Column, next: Column)
    requires KeepsPanes(sorted, out) && PanesAscend(sorted + [column])
    requires next == Placed(column, next.paneIndex, next.position)
    requires out != [] ==>
               var last := |out| - 1;
               next.paneIndex == out[last].paneIndex + if column.paneIndex == sorted[last].paneIndex then 0 else 1
    ensures KeepsPanes(sorted + [column], out + [next])
  {
    var all, placed, n := sorted + [column], out + [next], |out|;
    assert forall k :: 0 <= k < n ==> all[k] == sorted[k] && placed[k] == out[k];
    assert all[n] == column && placed[n] == next;
    forall i | 0 <= i < n
      ensures out[i].paneIndex <= next.paneIndex
      ensures out[i].paneIndex == next.paneIndex <==> sorted[i].paneIndex == column.paneIndex
    {
      assert i < n - 1 ==> out[i].paneIndex <= out[n - 1].paneIndex;
      assert all[i].paneIndex <= all[n - 1].paneIndex <= all[n].paneIndex;
    }
  }

  lemma {:induction false} RenumberResult(sorted: seq<Column>)
    requires PanesAscend(sorted)
    ensures Canonical(Renumber(sorted)) && KeepsPanes(sorted, Renumber(sorted))
  {
    if sorted != [] {
      var n := |sorted| - 1;
      var before, out := Renumber(sorted[..n]), Renumber(sorted);
      RenumberResult(sorted[..n]);
      assert sorted == sorted[..n] + [sorted[n]] && out == before + [out[n]];
      assert out[n] == Placed(sorted[n], out[n].paneIndex, out[n].position);
      assert if n == 0 then out[n].paneIndex == 0 && out[n].position == 0 else Succeeds(before[n - 1], out[n]);
      assert n > 0 ==> sorted[..n][n - 1] == sorted[n - 1];
      hide Renumber, Canonical, KeepsPanes;
      CanonicalSplit(before, out[n]);
      KeepsPanesNext(sorted[..n], before, sorted[n], out[n]);
    }
  }

  /** Canonical columns are in strictly increasing (pane, position) order. */
  lemma {:induction false} CanonicalIsSorted(columns: seq<Column>, i: nat, j: nat)
    requires Canonical(columns) && i < j < |columns|
    ensures || columns[i].paneIndex < columns[j].paneIndex
            || (columns[i].paneIndex == columns[j].paneIndex && columns[i].position < columns[j].position)
    ensures columns[j].position >= 0
    decreases j
  {
    assert Succeeds(columns[j - 1], columns[j]);
    PositionsNatural(columns, j);
    PositionsNatural(columns, j - 1);
    if i < j - 1 {
      CanonicalIsSorted(columns, i, j - 1);
    }
  }

  lemma {:induction false} PositionsNatural(columns: seq<Column>, k: nat)
    requires Canonical(columns) && k < |columns|
    ensures columns[k].position >= 0
  {
    if k > 0 {
      assert Succeeds(columns[k - 1], columns[k]);
      PositionsNatural(columns, k - 1);
    }
  }

  lemma CanonicalSorted(columns: seq<Column>)
    requires Canonical(columns)
    ensures Sorted(ColumnLeq, columns)
  {
    forall i, j | 0 <= i < j < |columns| ensures ColumnLeq(columns[i], columns[j]) {
      CanonicalIsSorted(columns, i, j);
    }
  }

  /** Renumbering canonical columns changes nothing. */
  lemma {:induction false} RenumberCanonical(columns: seq<Column>)
    requires Canonical(columns)
    ensures Renumber(columns) == columns
  {
    if columns != [] {
      var n := |columns| - 1;
      assert columns == columns[..n] + [columns[n]];
      CanonicalSplit(columns[..n], columns[n]);
      hide Canonical;
      RenumberCanonical(columns[..n]);
      assert Placed(columns[n], columns[n].paneIndex, columns[n].position) == columns[n];
    }
  }

  function Ids(columns: seq<Column>): seq<string> {
    if columns == [] then [] else [columns[0].id] + Ids(columns[1..])
  }

  lemma {:induction false} InsertIds(leq: (Column, Column) -> bool, x: Column, s: seq<Column>)
    ensures multiset(Ids(Insert(leq, x, s))) == multiset(Ids(s)) + multiset{x.id}
  {
    if s != [] && !leq(x, s[0]) {
      InsertIds(leq, x, s[1..]);
      assert ([s[0]] + Insert(leq, x, s[1..]))[1..] == Insert(leq, x, s[1..]);
    } else {
      assert ([x] + s)[1..] == s;
    }
  }

  lemma {:induction false} SortIds(leq: (Column, Column) -> bool, s: seq<Column>)
    ensures multiset(Ids(SortBy(leq, s))) == multiset(Ids(s))
  {
    if s != [] {
      SortIds(leq, s[1..]);
      InsertIds(leq, s[0], SortBy(leq, s[1..]));
    }
  }

  lemma {:induction false} SameIds(s: seq<Column>, t: seq<Column>)
    requires |s| == |t| && forall k :: 0 <= k < |s| ==> s[k].id == t[k].id
    ensures Ids(s) == Ids(t)
  {
    if s != [] {
      SameIds(s[1..], t[1..]);
    }
  }

  /** Pane indexes become 0..k-1 in pane order, positions within each pane 0..m-1 in order of
      (position, name), every column keeps everything but its numbers, and the multiset of
      column ids is preserved. */
  lemma NormalizedIsCanonical(columns: seq<Column>)
    ensures Canonical(Normalized(columns))
    ensures KeepsPanes(SortBy(ColumnLeq, columns), Normalized(columns))
    ensures Sorted(ColumnLeq, SortBy(ColumnLeq, columns))
    ensures multiset(SortBy(ColumnLeq, columns)) == multiset(columns)
    ensures multiset(Ids(Normalized(columns))) == multiset(Ids(columns))
  {
    var sorted := SortBy(ColumnLeq, columns);
    SortedPanesAscend(columns);
    SortBySorts(ColumnLeq, columns);
    hide SortBy, Renumber;
    RenumberResult(sorted);
    SameIds(sorted, Normalized(columns));
    SortIds(ColumnLeq, columns);
  }

  lemma SortedPanesAscend(columns: seq<Column>)
    ensures PanesAscend(SortBy(ColumnLeq, columns)) && TotalPreorder(ColumnLeq)
  {
    ColumnLeqIsOrder();
    SortBySorts(ColumnLeq, columns);
    var sorted := SortBy(ColumnLeq, columns);
    forall i, j | 0 <= i < j < |sorted| ensures sorted[i].paneIndex <= sorted[j].paneIndex {
      assert ColumnLeq(sorted[i], sorted[j]);
    }
  }

  /** Exactly the canonical column lists are left alone. */
  lemma FixedPointIffCanonical(columns: seq<Column>)
    ensures Normalized(columns) == columns <==> Canonical(columns)
  {
    NormalizedIsCanonical(columns);
    if Canonical(columns) {
      CanonicalSorted(columns);
      SortByKeepsSorted(ColumnLeq, columns);
      RenumberCanonical(columns);
    }
  }

  /** Normalising twice equals normalising once. */
  lemma NormalizedTwice(columns: seq<Column>)
    ensures Normalized(Normalized(columns)) == Normalized(columns)
  {
    NormalizedIsCanonical(columns);
    FixedPointIffCanonical(Normalized(columns));
  }

  method NormalizedColumnRequest(columns: seq<Column>) returns (out: seq<Column>)
    ensures out == Normalized(columns)
  {
    var sorted := SortBy(ColumnLeq, columns);
    SortedPanesAscend(columns);
    hide SortBy, Renumber;
    out := [];
    var paneMap: map<nat, nat> := map[];
    var positions: map<nat, int> := map[];
    assert sorted[..0] == [];
    RenumberNothing();
    for n := 0 to |sorted|
      invariant out == Renumber(sorted[..n])
      invariant Tracks(sorted[..n], out, paneMap, positions)
    {
      RenumberNext(sorted[..n], sorted[n]);
      assert sorted[..n + 1] == sorted[..n] + [sorted[n]];
      var nextPane := |paneMap|;
      var pane := if sorted[n].paneIndex in paneMap then paneMap[sorted[n].paneIndex] else nextPane;
      var position := if pane in positions then positions[pane] else 0;
      var next := Placed(sorted[n], pane, position);
      TracksNext(sorted[..n], out, paneMap, positions, sorted[n], next);
      paneMap := paneMap[sorted[n].paneIndex := pane];
      positions := positions[pane := position + 1];
      out := out + [next];
    }
    assert sorted[..|sorted|] == sorted;
  }

  /** What the two maps hold once `sorted` is renumbered to `out`. */
  ghost predicate Tracks(sorted: seq<Column>, out: seq<Column>, paneMap: map<nat, nat>, positions: map<nat, int>) {
    var n := |sorted| - 1;
    && |out| == |sorted|
    && (sorted == [] ==> paneMap == map[])
    && (sorted != [] ==>
          && (forall p :: p in paneMap ==> p <= sorted[n].paneIndex)
          && sorted[n].paneIndex in paneMap
          && paneMap[sorted[n].paneIndex] == out[n].paneIndex == |paneMap| - 1
          && out[n].paneIndex in positions && positions[out[n].paneIndex] == out[n].position + 1)
    && CountsUpTo(positions, |paneMap|)
  }

  lemma TracksNext(
    sorted: seq<Column>, out: seq<Column>, paneMap: map<nat, nat>, positions: map<nat, int>,
    column: Column, next: Column)
    requires Tracks(sorted, out, paneMap, positions)
    requires sorted != [] ==> sorted[|sorted| - 1].paneIndex <= column.paneIndex
    requires var pane := if column.paneIndex in paneMap then paneMap[column.paneIndex] else |paneMap|;
             next == Placed(column, pane, if pane in positions then positions[pane] else 0)
    ensures next == NextPlace(sorted, out, column)
    ensures Tracks(sorted + [column], out + [next],
                   paneMap[column.paneIndex := next.paneIndex], positions[next.paneIndex := next.position + 1])
  {
    if column.paneIndex in paneMap {
      SamePane(sorted, out, paneMap, positions, column, next);
    } else {
      NewPane(sorted, out, paneMap, positions, column, next);
    }
  }

  lemma SamePane(
    sorted: seq<Column>, out: seq<Column>, paneMap: map<nat, nat>, positions: map<nat, int>,
    column: Column, next: Column)
    requires Tracks(sorted, out, paneMap, positions) && column.paneIndex in paneMap
    requires sorted != [] ==> sorted[|sorted| - 1].paneIndex <= column.paneIndex
    requires next.paneIndex == paneMap[column.paneIndex]
    requires next
             == Placed(column, next.paneIndex, if next.paneIndex in positions then positions[next.paneIndex] else 0)
    ensures next == NextPlace(sorted, out, column)
    ensures Tracks(sorted + [column], out + [next],
                   paneMap[column.paneIndex := next.paneIndex], positions[next.paneIndex := next.position + 1])
  {
    assert sorted != [] && column.paneIndex == sorted[|sorted| - 1].paneIndex;
    assert paneMap[column.paneIndex := next.paneIndex] == paneMap;
    LastTracked(sorted, out, column, next, paneMap, positions[next.paneIndex := next.position + 1]);
  }

  lemma NewPane(
    sorted: seq<Column>, out: seq<Column>, paneMap: map<nat, nat>, positions: map<nat, int>,
    column: Column, next: Column)
    requires Tracks(sorted, out, paneMap, positions) && column.paneIndex !in paneMap
    requires sorted != [] ==> sorted[|sorted| - 1].paneIndex <= column.paneIndex
    requires next.paneIndex == |paneMap|
    requires next
             == Placed(column, next.paneIndex, if next.paneIndex in positions then positions[next.paneIndex] else 0)
    ensures next == NextPlace(sorted, out, column)
    ensures Tracks(sorted + [column], out + [next],
                   paneMap[column.paneIndex := next.paneIndex], positions[next.paneIndex := next.position + 1])
  {
    NewPanePlace(sorted, out, paneMap, positions, column, next);
    assert forall p :: p in paneMap ==> p <= column.paneIndex;
    assert |out| == |sorted|;
    PanesGrow(paneMap, column.paneIndex);
    CountsNext(positions, |paneMap|, next.position + 1);
    hide Tracks, NextPlace, Placed, CountsUpTo;
    LastTracked(sorted, out, column, next,
                paneMap[column.paneIndex := next.paneIndex], positions[next.paneIndex := next.position + 1]);
  }

  lemma PanesGrow(paneMap: map<nat, nat>, pane: nat)
    requires pane !in paneMap
    ensures |paneMap[pane := |paneMap|]| == |paneMap| + 1
  {
    assert paneMap[pane := |paneMap|].Keys == paneMap.Keys + {pane};
  }

  /** Positions are counted for the panes numbered below `n`. */
  ghost predicate CountsUpTo(positions: map<nat, int>, n: nat) {
    forall q: nat :: q in positions <==> q < n
  }

  lemma CountsNext(positions: map<nat, int>, n: nat, position: int)
    requires CountsUpTo(positions, n)
    ensures CountsUpTo(positions[n := position], n + 1)
  {
  }

  lemma NewPanePlace(
    sorted: seq<Column>, out: seq<Column>, paneMap: map<nat, nat>, positions: map<nat, int>,
    column: Column, next: Column)
    requires Tracks(sorted, out, paneMap, positions) && column.paneIndex !in paneMap
    requires next.paneIndex == |paneMap|
    requires next
             == Placed(column, next.paneIndex, if next.paneIndex in positions then positions[next.paneIndex] else 0)
    ensures next == NextPlace(sorted, out, column)
  {
    hide Placed;
    assert next.paneIndex !in positions;
  }

  lemma LastTracked(
    sorted: seq<Column>, out: seq<Column>, column: Column, next: Column,
    paneMap: map<nat, nat>, positions: map<nat, int>)
    requires |out| == |sorted|
    requires forall p :: p in paneMap ==> p <= column.paneIndex
    requires column.paneIndex in paneMap && paneMap[column.paneIndex] == next.paneIndex == |paneMap| - 1
    requires next.paneIndex in positions && positions[next.paneIndex] == next.position + 1
    requires CountsUpTo(positions, |paneMap|)
    ensures Tracks(sorted + [column], out + [next], paneMap, positions)
  {
    var all, placed := sorted + [column], out + [next];
    assert all[|sorted|] == column && placed[|out|] == next;
  }

  lemma RenumberNothing()
    ensures Renumber([]) == []
  {
  }

  lemma RenumberNext(before: seq<Column>, column: Column)
    ensures Renumber(before + [column]) == Renumber(before) + [NextPlace(before, Renumber(before), column)]
  {
    assert (before + [column])[..|before|] == before;
    hide NextPlace;
  }
}
