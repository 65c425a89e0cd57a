/** The client's allocation list: the forest of rows, flattened below the expanded ones. */
module AllocationView {
  import opened Options
  import opened Sequences
  import opened AllocationDepths
  import opened Forests
  import opened StableSorting

  /** Rows have ids of their own, and a parent's id is smaller than its child's; a parent may be missing. */
  predicate ForestRows(rows: seq<Row>) {
    && Apart(rows)
    && forall k :: 0 <= k < |rows| && rows[k].parentId.Some? ==> rows[k].parentId.value < rows[k].nodeId
  }

  function Ids(rows: seq<Row>): (ids: seq<nat>)
    ensures |ids| == |rows|
  {
    seq(|rows|, k requires 0 <= k < |rows| => rows[k].nodeId)
  }

  /** The rows naming a parent, in their order. */
  function Naming(rows: seq<Row>, p: Option<nat>): seq<Row> {
    if rows == [] then []
    else
      var last := rows[|rows| - 1];
      Naming(rows[..|rows| - 1], p) + (if last.parentId == p then [last] else [])
  }

  predicate NotSmaller(a: Row, b: Row) {
    a.bytes >= b.bytes
  }

  predicate OtherId(a: Row, b: Row) {
    a.nodeId != b.nodeId
  }

  function ChildrenOf(rows: seq<Row>, p: Option<nat>): seq<Row> {
    Sorted(Naming(rows, p), NotSmaller)
  }

  // ---- child lists

  predicate Apart(rows: seq<Row>) {
    Pairwise(rows, OtherId)
  }

  predicate LargestFirst(rows: seq<Row>) {
    forall j, k :: 0 <= j < k < |rows| ==> rows[j].bytes >= rows[k].bytes
  }

  lemma {:induction false} NamingKeeps(rows: seq<Row>, p: Option<nat>)
    requires Apart(rows)
    ensures Apart(Naming(rows, p))
    ensures forall x :: x in Naming(rows, p) <==> x in rows && x.parentId == p
  {
    if rows != [] {
      var n := |rows| - 1;
      NamingKeeps(rows[..n], p);
      var before := Naming(rows[..n], p);
      forall k | 0 <= k < |before|
        ensures before[k].nodeId != rows[n].nodeId
      {
        assert before[k] in rows[..n];
      }
      assert rows == rows[..n] + [rows[n]];
    }
  }

  /** A child list holds exactly the rows naming the parent, each once, largest first. */
  lemma ChildrenAreRight(rows: seq<Row>, p: Option<nat>)
    requires Apart(rows)
    ensures Apart(ChildrenOf(rows, p)) && LargestFirst(ChildrenOf(rows, p))
    ensures forall x :: x in ChildrenOf(rows, p) <==> x in rows && x.parentId == p
  {
    hide Sorted, Naming;
    NamingKeeps(rows, p);
    SortingOrders(Naming(rows, p), NotSmaller);
    SortingKeepsElements(Naming(rows, p), NotSmaller);
    SortingKeepsPairs(Naming(rows, p), NotSmaller, OtherId);
  }

  // ---- filtered rows

  /** The rows a filter keeps, in their order. */
  function Filtered(rows: seq<Row>, keep: Row -> bool): seq<Row> {
    if rows == [] then []
    else
      var last := rows[|rows| - 1];
      Filtered(rows[..|rows| - 1], keep) + (if keep(last) then [last] else [])
  }

  /** A filter keeps a forest a forest; the rows of dropped parents hang nowhere. */
  lemma {:induction false} FilteredIsAForest(rows: seq<Row>, keep: Row -> bool)
    requires ForestRows(rows)
    ensures ForestRows(Filtered(rows, keep))
    ensures forall x :: x in Filtered(rows, keep) <==> x in rows && keep(x)
  {
    if rows != [] {
      var n := |rows| - 1;
      FilteredIsAForest(rows[..n], keep);
      var before := Filtered(rows[..n], keep);
      forall k | 0 <= k < |before|
        ensures before[k].nodeId != rows[n].nodeId
      {
        assert before[k] in rows[..n];
      }
      assert rows == rows[..n] + [rows[n]];
    }
  }

  // ---- the forest of the rows

  /** The row with an id. */
  function RowWith(rows: seq<Row>, id: nat): (r: Option<Row>)
    ensures r.Some? ==> r.value in rows && r.value.nodeId == id
    ensures r.None? ==> forall x :: x in rows ==> x.nodeId != id
  {
    if rows == [] then None
    else if rows[|rows| - 1].nodeId == id then Some(rows[|rows| - 1])
    else RowWith(rows[..|rows| - 1], id)
  }

  function PlaceBelow(parent: Option<nat>): Place {
    if parent.None? then Top else Below(parent.value)
  }

  function PlaceOf(rows: seq<Row>, id: nat): Place {
    var row := RowWith(rows, id);
    if row.None? then Absent else PlaceBelow(row.value.parentId)
  }

  /** A bound on the ids. */
  function IdBound(rows: seq<Row>): (n: nat)
    ensures forall x :: x in rows ==> x.nodeId < n
  {
    if rows == [] then 0
    else
      var n := IdBound(rows[..|rows| - 1]);
      var last := rows[|rows| - 1].nodeId;
      assert rows == rows[..|rows| - 1] + [rows[|rows| - 1]];
      if last < n then n else last + 1
  }

  /** Nodes are ids; ids no row has are nowhere. */
  function ForestOf(rows: seq<Row>): Forest {
    Forest(seq(IdBound(rows), id requires 0 <= id < IdBound(rows) => PlaceOf(rows, id)),
           seq(IdBound(rows), id requires 0 <= id < IdBound(rows) => Ids(ChildrenOf(rows, Some(id)))),
           Ids(ChildrenOf(rows, None)))
  }

  lemma RowIsOneWithItsId(rows: seq<Row>, x: Row)
    requires Apart(rows) && x in rows
    ensures RowWith(rows, x.nodeId) == Some(x)
  {
    var y := RowWith(rows, x.nodeId).value;
    var j :| 0 <= j < |rows| && rows[j] == x;
    var k :| 0 <= k < |rows| && rows[k] == y;
  }

  lemma ListedHasItsPlace(rows: seq<Row>, p: Option<nat>, k: nat)
    requires Apart(rows) && k < |ChildrenOf(rows, p)|
    ensures
      var id := ChildrenOf(rows, p)[k].nodeId;
      id < IdBound(rows) && PlaceOf(rows, id) == PlaceBelow(p)
  {
    var x := ChildrenOf(rows, p)[k];
    ChildrenAreRight(rows, p);
    assert x in ChildrenOf(rows, p);
    RowIsOneWithItsId(rows, x);
  }

  lemma PlacedIsListed(rows: seq<Row>, p: Option<nat>, id: nat)
    requires Apart(rows) && PlaceOf(rows, id) == PlaceBelow(p)
    ensures id in Ids(ChildrenOf(rows, p))
  {
    var list := ChildrenOf(rows, p);
    var x := RowWith(rows, id).value;
    ChildrenAreRight(rows, p);
    assert x in list;
    var k :| 0 <= k < |list| && list[k] == x;
    assert Ids(list)[k] == id;
  }

  lemma IdsDoNotRepeat(list: seq<Row>)
    requires Apart(list)
    ensures NoRepeats(Ids(list))
  {
  }

  lemma PlacesOf(rows: seq<Row>)
    ensures |ForestOf(rows).place| == IdBound(rows)
    ensures forall id :: 0 <= id < |ForestOf(rows).place| ==> ForestOf(rows).place[id] == PlaceOf(rows, id)
  {
    hide ChildrenOf, PlaceOf, IdBound;
  }

  lemma ChildListIsRight(rows: seq<Row>, p: Option<nat>)
    requires Apart(rows)
    ensures ListsChildrenOf(ForestOf(rows), Ids(ChildrenOf(rows, p)), PlaceBelow(p))
  {
    var f := ForestOf(rows);
    var list := ChildrenOf(rows, p);
    ChildrenAreRight(rows, p);
    IdsDoNotRepeat(list);
    PlacesOf(rows);
    hide ChildrenOf, IdBound, PlaceOf, ForestOf, PlaceBelow, NoRepeats, Apart, LargestFirst;
    forall k | 0 <= k < |list|
      ensures list[k].nodeId < |f.place| && f.place[list[k].nodeId] == PlaceBelow(p)
    {
      ListedHasItsPlace(rows, p, k);
    }
    forall id | 0 <= id < |f.place| && f.place[id] == PlaceBelow(p)
      ensures id in Ids(list)
    {
      PlacedIsListed(rows, p, id);
    }
  }

  lemma RowsAreAForest(rows: seq<Row>)
    requires ForestRows(rows)
    ensures Consistent(ForestOf(rows))
  {
    var f := ForestOf(rows);
    forall id | 0 <= id < |f.place| && f.place[id].Below?
      ensures f.place[id].parent < id
    {
      var x := RowWith(rows, id).value;
      assert x in rows;
    }
    ChildListIsRight(rows, None);
    forall p | 0 <= p < |f.kids|
      ensures ListsChildrenOf(f, f.kids[p], Below(p))
    {
      ChildListIsRight(rows, Some(p));
    }
  }

  // ---- the list

  /** The ids shown, top to bottom. */
  function VisibleIds(rows: seq<Row>, expanded: set<nat>): seq<nat>
    requires ForestRows(rows)
  {
    RowsAreAForest(rows);
    Listing(ForestOf(rows), expanded)
  }

  /** Every ancestor of the row is there and expanded. */
  predicate AncestorsExpanded(rows: seq<Row>, expanded: set<nat>, id: nat)
    requires ForestRows(rows)
    decreases id
  {
    var row := RowWith(rows, id);
    && row.Some?
    && (row.value.parentId.None?
        || (assert row.value in rows;
            row.value.parentId.value in expanded && AncestorsExpanded(rows, expanded, row.value.parentId.value)))
  }

  lemma PlaceInForest(rows: seq<Row>, id: nat)
    ensures
      var place, row := ForestOf(rows).place, RowWith(rows, id);
      if row.Some? then id < |place| && place[id] == PlaceBelow(row.value.parentId)
      else id < |place| ==> place[id] == Absent
  {
    hide ForestOf;
    PlacesOf(rows);
  }

  lemma ParentIsSmaller(rows: seq<Row>, id: nat)
    requires ForestRows(rows) && RowWith(rows, id).Some? && RowWith(rows, id).value.parentId.Some?
    ensures RowWith(rows, id).value.parentId.value < id
  {
    hide RowWith, Apart;
    assert RowWith(rows, id).value in rows;
  }

  lemma {:induction false} ShownMeansAncestorsExpanded(rows: seq<Row>, expanded: set<nat>, id: nat)
    requires ForestRows(rows) && ParentsFirst(ForestOf(rows))
    ensures Shown(ForestOf(rows), expanded, id) <==> AncestorsExpanded(rows, expanded, id)
    decreases id
  {
    hide ForestOf, ForestRows, RowWith;
    var row := RowWith(rows, id);
    PlaceInForest(rows, id);
    if row.Some? && row.value.parentId.Some? {
      ParentIsSmaller(rows, id);
      ShownMeansAncestorsExpanded(rows, expanded, row.value.parentId.value);
    }
  }

  /** The list shows exactly the rows all of whose ancestors are expanded, each once. */
  lemma ListShowsOnce(rows: seq<Row>, expanded: set<nat>, id: nat)
    requires ForestRows(rows)
    ensures Times(VisibleIds(rows, expanded), id) == if AncestorsExpanded(rows, expanded, id) then 1 else 0
  {
    RowsAreAForest(rows);
    ListingShowsOnce(ForestOf(rows), expanded, id);
    ShownMeansAncestorsExpanded(rows, expanded, id);
  }

  /** Expanding a shown row puts one block of rows right behind it; everything else keeps its order. */
  lemma ExpandingInsertsABlock(rows: seq<Row>, expanded: set<nat>, k: nat) returns (block: seq<nat>)
    requires ForestRows(rows) && k < |VisibleIds(rows, expanded)|
    requires VisibleIds(rows, expanded)[k] !in expanded
    ensures
      var shown := VisibleIds(rows, expanded);
      BlockInserted(shown, k, block, VisibleIds(rows, expanded + {shown[k]}))
  {
    var shown := VisibleIds(rows, expanded);
    var id := shown[k];
    RowsAreAForest(rows);
    ListedIsShown(shown, k);
    ListingShowsOnce(ForestOf(rows), expanded, id);
    var at := ListingOpened(ForestOf(rows), expanded, id);
    OnlyPlace(shown, k, at);
    block := BlockOf(ForestOf(rows), expanded, id);
  }

  lemma {:induction false} ListedIsShown(s: seq<nat>, k: nat)
    requires k < |s|
    ensures Times(s, s[k]) > 0
  {
    if k < |s| - 1 {
      ListedIsShown(s[..|s| - 1], k);
    }
  }

  lemma {:induction false} OnlyPlace(s: seq<nat>, j: nat, k: nat)
    requires j < |s| && k < |s| && s[j] == s[k] && Times(s, s[j]) == 1
    ensures j == k
  {
    var n := |s| - 1;
    if j < n && k < n {
      ListedIsShown(s[..n], j);
      OnlyPlace(s[..n], j, k);
    } else if j < n {
      ListedIsShown(s[..n], j);
    } else if k < n {
      ListedIsShown(s[..n], k);
    }
  }

  function Toggled(expanded: set<nat>, id: nat): set<nat> {
    if id in expanded then expanded - {id} else expanded + {id}
  }

  /** Collapsing a row hides nothing above it. */
  lemma {:induction false} StillShown(rows: seq<Row>, expanded: set<nat>, id: nat, top: nat)
    requires ForestRows(rows) && id <= top && AncestorsExpanded(rows, expanded, id)
    ensures AncestorsExpanded(rows, expanded - {top}, id)
    decreases id
  {
    var row := RowWith(rows, id);
    if row.value.parentId.Some? {
      assert row.value in rows;
      StillShown(rows, expanded, row.value.parentId.value, top);
    }
  }

  /** A listed row is listed once, and would be shown if it were not expanded itself. */
  lemma ShownWithoutItself(rows: seq<Row>, expanded: set<nat>, k: nat)
    requires ForestRows(rows) && k < |VisibleIds(rows, expanded)|
    ensures Consistent(ForestOf(rows))
    ensures
      var id := VisibleIds(rows, expanded)[k];
      && Times(VisibleIds(rows, expanded), id) == 1 && id < |ForestOf(rows).place|
      && Shown(ForestOf(rows), expanded - {id}, id)
  {
    hide ForestOf, Consistent, Times, VisibleIds, RowWith;
    var id := VisibleIds(rows, expanded)[k];
    RowsAreAForest(rows);
    ListedIsShown(VisibleIds(rows, expanded), k);
    ListShowsOnce(rows, expanded, id);
    StillShown(rows, expanded, id, id);
    ConsistentIsParentsFirst(ForestOf(rows));
    ShownMeansAncestorsExpanded(rows, expanded - {id}, id);
  }

  lemma ConsistentIsParentsFirst(f: Forest)
    requires Consistent(f)
    ensures ParentsFirst(f)
  {
  }

  /** Collapsing a shown row takes the block right behind it away. */
  lemma CollapsingRemovesABlock(rows: seq<Row>, expanded: set<nat>, k: nat) returns (block: seq<nat>)
    requires ForestRows(rows) && k < |VisibleIds(rows, expanded)|
    requires VisibleIds(rows, expanded)[k] in expanded
    ensures
      var shown := VisibleIds(rows, expanded);
      BlockInserted(VisibleIds(rows, expanded - {shown[k]}), k, block, shown)
  {
    hide AncestorsExpanded, ForestOf, ForestRows, Consistent, Times, Shown, RowWith;
    var shown := VisibleIds(rows, expanded);
    var id := shown[k];
    var fewer := expanded - {id};
    assert fewer + {id} == expanded;
    RowsAreAForest(rows);
    ShownWithoutItself(rows, expanded, k);
    var at := ListingOpened(ForestOf(rows), fewer, id);
    block := BlockOf(ForestOf(rows), fewer, id);
    assert shown[at] == id;
    OnlyPlace(shown, k, at);
  }

  lemma BlockKeepsFront(before: seq<nat>, k: nat, block: seq<nat>, after: seq<nat>)
    requires BlockInserted(before, k, block, after)
    ensures k < |before| && k < |after| && after[..k + 1] == before[..k + 1] && after[k] == before[k]
  {
    assert before[..k + 1][k] == after[..k + 1][k];
  }

  lemma TogglingTwice(expanded: set<nat>, id: nat)
    ensures Toggled(Toggled(expanded, id), id) == expanded
  {
  }

  /**
   * Toggling a shown row inserts or removes one block right behind it: the list up to the row stays,
   * so the row is still selected, and toggling again brings the old list back.
   */
  lemma TogglingMovesOneBlock(rows: seq<Row>, expanded: set<nat>, k: nat) returns (block: seq<nat>)
    requires ForestRows(rows) && k < |VisibleIds(rows, expanded)|
    ensures
      var before := VisibleIds(rows, expanded);
      var toggled := Toggled(expanded, before[k]);
      var after := VisibleIds(rows, toggled);
      && (if before[k] in expanded then BlockInserted(after, k, block, before) else BlockInserted(before, k, block, after))
      && k < |after| && after[..k + 1] == before[..k + 1]
      && Toggled(toggled, after[k]) == expanded
  {
    var before := VisibleIds(rows, expanded);
    var after := VisibleIds(rows, Toggled(expanded, before[k]));
    hide VisibleIds, BlockInserted;
    if before[k] in expanded {
      block := CollapsingRemovesABlock(rows, expanded, k);
      BlockKeepsFront(after, k, block, before);
    } else {
      block := ExpandingInsertsABlock(rows, expanded, k);
      BlockKeepsFront(before, k, block, after);
    }
    TogglingTwice(expanded, before[k]);
  }

  // ---- the code

  predicate HasChildren(rows: seq<Row>, id: nat) {
    exists child :: child in rows && child.parentId == Some(id)
  }

  ghost predicate Grouped(rows: seq<Row>, children: map<Option<nat>, seq<Row>>) {
    && (forall p :: p in children ==> children[p] == ChildrenOf(rows, p))
    && (forall p :: p !in children ==> ChildrenOf(rows, p) == [])
  }

  /** The lists hold the rows in their own order. */
  ghost predicate Listed(rows: seq<Row>, lists: map<Option<nat>, seq<Row>>) {
    && (forall p :: p in lists ==> lists[p] == Naming(rows, p))
    && (forall p :: p !in lists ==> Naming(rows, p) == [])
  }

  lemma OneMoreListed(rows: seq<Row>, lists: map<Option<nat>, seq<Row>>, row: Row)
    requires Listed(rows, lists)
    ensures
      var siblings := if row.parentId in lists then lists[row.parentId] else [];
      Listed(rows + [row], lists[row.parentId := siblings + [row]])
  {
    assert (rows + [row])[..|rows|] == rows;
    forall p ensures Naming(rows + [row], p) == if row.parentId == p then Naming(rows, p) + [row] else Naming(rows, p) {
    }
  }

  lemma SortedLists(rows: seq<Row>, lists: map<Option<nat>, seq<Row>>, children: map<Option<nat>, seq<Row>>)
    requires Listed(rows, lists)
    requires forall p :: p in children <==> p in lists
    requires forall p :: p in children ==> children[p] == Sorted(lists[p], NotSmaller)
    ensures Grouped(rows, children)
  {
    hide Naming;
  }

  /** Rows grouped under their parents, each group sorted. */
  method AllocationChildrenByParent(rows: seq<Row>) returns (children: map<Option<nat>, seq<Row>>)
    ensures Grouped(rows, children)
  {
    hide Listed, Grouped;
    var lists: map<Option<nat>, seq<Row>> := map[];
    NothingListed();
    for i := 0 to |rows|
      invariant Listed(rows[..i], lists)
    {
      var row := rows[i];
      OneMoreListed(rows[..i], lists, row);
      assert rows[..i] + [row] == rows[..i + 1];
      var siblings := if row.parentId in lists then lists[row.parentId] else [];
      lists := lists[row.parentId := siblings + [row]];
    }
    assert rows[..|rows|] == rows;
    children := map p | p in lists :: Sorted(lists[p], NotSmaller);
    SortedLists(rows, lists, children);
  }

  lemma NothingListed()
    ensures Listed([], map[])
  {
  }

  /** Nodes below a parent have larger ids. */
  function LowestBelow(parentId: Option<nat>): nat {
    if parentId.None? then 0 else parentId.value + 1
  }

  predicate Has(rows: seq<Row>, parentId: Option<nat>) {
    parentId.Some? ==> parentId.value < IdBound(rows)
  }

  lemma WalkableBelow(rows: seq<Row>, parentId: Option<nat>)
    requires ForestRows(rows) && Has(rows, parentId)
    ensures
      var f := ForestOf(rows);
      Consistent(f) && LowestBelow(parentId) <= |f.place| && AllFrom(f, Ids(ChildrenOf(rows, parentId)), LowestBelow(parentId))
    ensures forall x :: x in ChildrenOf(rows, parentId) ==> x in rows
  {
    RowsAreAForest(rows);
    ChildListIsRight(rows, parentId);
    ChildrenAreRight(rows, parentId);
  }

  ghost predicate ComesFrom(longer: seq<Row>, visible: seq<Row>, rows: seq<Row>) {
    forall x :: x in longer ==> x in visible || x in rows
  }

  lemma StartsFrom(visible: seq<Row>, rows: seq<Row>)
    ensures ComesFrom(visible, visible, rows)
  {
  }

  lemma OneMoreFrom(longer: seq<Row>, row: Row, visible: seq<Row>, rows: seq<Row>)
    requires ComesFrom(longer, visible, rows) && row in rows
    ensures ComesFrom(longer + [row], visible, rows)
  {
  }

  lemma ComesFromBoth(below: seq<Row>, longer: seq<Row>, visible: seq<Row>, rows: seq<Row>)
    requires ComesFrom(below, longer, rows) && ComesFrom(longer, visible, rows)
    ensures ComesFrom(below, visible, rows)
  {
  }

  lemma GroupOf(rows: seq<Row>, children: map<Option<nat>, seq<Row>>, p: Option<nat>)
    requires Grouped(rows, children)
    ensures if p in children then children[p] == ChildrenOf(rows, p) else ChildrenOf(rows, p) == []
  {
  }

  lemma NothingWalked(f: Forest, open: set<nat>, low: nat, visible: seq<Row>)
    requires Consistent(f) && low <= |f.place|
    ensures AllFrom(f, [], low) && Ids(visible) == Ids(visible) + WalkAll(f, open, [], low)
    ensures Ids([]) == []
  {
  }

  lemma OneMoreId(rows: seq<Row>, row: Row)
    ensures Ids(rows + [row]) == Ids(rows) + [row.nodeId]
  {
  }

  lemma WalkOfRow(rows: seq<Row>, expanded: set<nat>, row: Row)
    requires ForestRows(rows) && row in rows
    ensures
      var f := ForestOf(rows);
      var kids := Ids(ChildrenOf(rows, Some(row.nodeId)));
      && Consistent(f) && row.nodeId < |f.place| && AllFrom(f, kids, row.nodeId + 1)
      && Walk(f, expanded, row.nodeId) ==
        if row.nodeId in expanded then [row.nodeId] + WalkAll(f, expanded, kids, row.nodeId + 1) else [row.nodeId]
  {
    hide *;
    RowsAreAForest(rows);
    KidsOfRow(rows, row);
    WalkUnfolds(ForestOf(rows), expanded, row.nodeId);
  }

  lemma KidsOfRow(rows: seq<Row>, row: Row)
    requires row in rows
    ensures row.nodeId < |ForestOf(rows).place| && row.nodeId < |ForestOf(rows).kids|
    ensures ForestOf(rows).kids[row.nodeId] == Ids(ChildrenOf(rows, Some(row.nodeId)))
  {
    hide ChildrenOf, Ids, PlaceOf;
  }

  lemma OneMoreWalked(f: Forest, open: set<nat>, list: seq<nat>, i: nat, low: nat)
    requires Consistent(f) && low <= |f.place| && AllFrom(f, list, low) && i < |list|
    ensures AllFrom(f, list[..i], low) && AllFrom(f, list[..i + 1], low)
    ensures WalkAll(f, open, list[..i + 1], low) == WalkAll(f, open, list[..i], low) + Walk(f, open, list[i])
  {
    assert list[..i + 1][..i] == list[..i];
  }

  lemma NoChildrenNoWalk(rows: seq<Row>, id: nat)
    requires ForestRows(rows)
    ensures !HasChildren(rows, id) ==> ChildrenOf(rows, Some(id)) == []
  {
    ChildrenAreRight(rows, Some(id));
    var list := ChildrenOf(rows, Some(id));
    if list != [] {
      assert list[0] in list;
    }
  }

  /** The first n rows of a child list have been walked, behind what was visible before. */
  ghost predicate Progress(
    rows: seq<Row>, parentId: Option<nat>, expanded: set<nat>, visible: seq<Row>, longer: seq<Row>, n: nat)
    requires ForestRows(rows)
  {
    var f, list, low := ForestOf(rows), Ids(ChildrenOf(rows, parentId)), LowestBelow(parentId);
    && n <= |list| && Consistent(f) && low <= |f.place| && AllFrom(f, list, low) && AllFrom(f, list[..n], low)
    && Ids(longer) == Ids(visible) + WalkAll(f, expanded, list[..n], low)
    && ComesFrom(longer, visible, rows)
  }

  /** All of them have. */
  ghost predicate Appended(
    rows: seq<Row>, parentId: Option<nat>, expanded: set<nat>, visible: seq<Row>, longer: seq<Row>)
    requires ForestRows(rows)
  {
    Progress(rows, parentId, expanded, visible, longer, |ChildrenOf(rows, parentId)|)
  }

  lemma ProgressStarts(rows: seq<Row>, parentId: Option<nat>, expanded: set<nat>, visible: seq<Row>)
    requires ForestRows(rows) && Has(rows, parentId)
    ensures Progress(rows, parentId, expanded, visible, visible, 0)
  {
    WalkableBelow(rows, parentId);
    hide Consistent, ForestOf, ChildrenOf;
    NothingWalked(ForestOf(rows), expanded, LowestBelow(parentId), visible);
    assert Ids(ChildrenOf(rows, parentId))[..0] == [];
  }

  lemma AppendedMeans(
    rows: seq<Row>, parentId: Option<nat>, expanded: set<nat>, visible: seq<Row>, longer: seq<Row>)
    requires ForestRows(rows) && Appended(rows, parentId, expanded, visible, longer)
    ensures
      var f, list, low := ForestOf(rows), Ids(ChildrenOf(rows, parentId)), LowestBelow(parentId);
      && Consistent(f) && low <= |f.place| && AllFrom(f, list, low)
      && Ids(longer) == Ids(visible) + WalkAll(f, expanded, list, low) && ComesFrom(longer, visible, rows)
  {
    hide ForestRows, Consistent, ForestOf, ChildrenOf, AllFrom, ComesFrom, WalkAll;
    var list := Ids(ChildrenOf(rows, parentId));
    assert list[..|list|] == list;
  }

  /** A row appended alone, or with everything below it, adds exactly its walk. */
  lemma RowWalked(rows: seq<Row>, expanded: set<nat>, longer: seq<Row>, row: Row, next: seq<Row>)
    requires ForestRows(rows) && row in rows
    requires
      if row.nodeId in expanded && HasChildren(rows, row.nodeId)
      then Appended(rows, Some(row.nodeId), expanded, longer + [row], next)
      else next == longer + [row]
    ensures Consistent(ForestOf(rows)) && row.nodeId < |ForestOf(rows).place|
    ensures Ids(next) == Ids(longer) + Walk(ForestOf(rows), expanded, row.nodeId) && ComesFrom(next, longer, rows)
  {
    hide *;
    LowestBelowRow(row.nodeId);
    StartsFrom(longer, rows);
    OneMoreFrom(longer, row, longer, rows);
    WalkOfRow(rows, expanded, row);
    NoChildrenNoWalk(rows, row.nodeId);
    OneMoreId(longer, row);
    NoIds();
    if row.nodeId in expanded && HasChildren(rows, row.nodeId) {
      AppendedMeans(rows, Some(row.nodeId), expanded, longer + [row], next);
      ComesFromBoth(next, longer + [row], longer, rows);
      var kids := Ids(ChildrenOf(rows, Some(row.nodeId)));
      Regroup(Ids(longer), [row.nodeId], WalkAll(ForestOf(rows), expanded, kids, row.nodeId + 1));
    } else if row.nodeId in expanded {
      NoWalk(ForestOf(rows), expanded, row.nodeId + 1);
    }
  }

  lemma LowestBelowRow(id: nat)
    ensures LowestBelow(Some(id)) == id + 1
  {
  }

  lemma NoWalk(f: Forest, open: set<nat>, low: nat)
    requires Consistent(f) && low <= |f.place|
    ensures AllFrom(f, [], low) && WalkAll(f, open, [], low) == []
  {
  }

  lemma NoIds()
    ensures Ids([]) == []
  {
  }

  lemma ProgressOn(rows: seq<Row>, parentId: Option<nat>, expanded: set<nat>, visible: seq<Row>, longer: seq<Row>, n: nat,
                   next: seq<Row>)
    requires ForestRows(rows) && Progress(rows, parentId, expanded, visible, longer, n) && n < |ChildrenOf(rows, parentId)|
    requires ChildrenOf(rows, parentId)[n] in rows
    requires
      var row := ChildrenOf(rows, parentId)[n];
      if row.nodeId in expanded && HasChildren(rows, row.nodeId)
      then Appended(rows, Some(row.nodeId), expanded, longer + [row], next)
      else next == longer + [row]
    ensures Progress(rows, parentId, expanded, visible, next, n + 1)
  {
    var f, list, low := ForestOf(rows), ChildrenOf(rows, parentId), LowestBelow(parentId);
    RowWalked(rows, expanded, longer, list[n], next);
    hide ForestRows, Consistent, ForestOf, ChildrenOf, IdBound, AllFrom, ComesFrom, HasChildren, WalkAll, Walk, Appended;
    ComesFromBoth(next, longer, visible, rows);
    assert Ids(list)[n] == list[n].nodeId;
    OneMoreWalked(f, expanded, Ids(list), n, low);
    Regroup(Ids(visible), WalkAll(f, expanded, Ids(list)[..n], low), Walk(f, expanded, list[n].nodeId));
  }

  method AppendVisibleAllocationRows(
    parentId: Option<nat>, rows: seq<Row>, children: map<Option<nat>, seq<Row>>, expanded: set<nat>, visible: seq<Row>)
    returns (longer: seq<Row>)
    requires ForestRows(rows) && Has(rows, parentId) && Grouped(rows, children)
    ensures Appended(rows, parentId, expanded, visible, longer)
    decreases IdBound(rows) + 1 - LowestBelow(parentId)
  {
    ProgressStarts(rows, parentId, expanded, visible);
    GroupOf(rows, children, parentId);
    hide Progress, ForestRows, ChildrenOf, Grouped, HasChildren;
    longer := visible;
    if parentId !in children {
      return;
    }
    var list := children[parentId];
    for i := 0 to |list|
      invariant Progress(rows, parentId, expanded, visible, longer, i)
    {
      var row := list[i];
      ListedIsARow(rows, parentId, i);
      ghost var before := longer;
      longer := longer + [row];
      if row.nodeId in expanded && HasChildren(rows, row.nodeId) {
        longer := AppendVisibleAllocationRows(Some(row.nodeId), rows, children, expanded, longer);
      }
      ProgressOn(rows, parentId, expanded, visible, before, i, longer);
    }
  }

  lemma ListedIsARow(rows: seq<Row>, parentId: Option<nat>, i: nat)
    requires ForestRows(rows) && i < |ChildrenOf(rows, parentId)|
    ensures
      var row := ChildrenOf(rows, parentId)[i];
      row in rows && row.nodeId < IdBound(rows) && row.nodeId >= LowestBelow(parentId)
  {
    ChildrenAreRight(rows, parentId);
    var row := ChildrenOf(rows, parentId)[i];
    assert row in ChildrenOf(rows, parentId);
  }

  method VisibleAllocationHotSpotRows(rows: seq<Row>, filtering: bool, expanded: set<nat>) returns (visible: seq<Row>)
    requires ForestRows(rows)
    ensures filtering ==> visible == rows
    ensures !filtering ==> Ids(visible) == VisibleIds(rows, expanded) && forall x :: x in visible ==> x in rows
  {
    if filtering {
      return rows;
    }
    var children := AllocationChildrenByParent(rows);
    visible := AppendVisibleAllocationRows(None, rows, children, expanded, []);
    WholeListAppended(rows, expanded, visible);
  }

  lemma WholeListAppended(rows: seq<Row>, expanded: set<nat>, visible: seq<Row>)
    requires ForestRows(rows) && Appended(rows, None, expanded, [], visible)
    ensures Ids(visible) == VisibleIds(rows, expanded) && forall x :: x in visible ==> x in rows
  {
    hide ForestRows, Consistent, ChildrenOf, WalkAll, Appended;
    AppendedMeans(rows, None, expanded, [], visible);
    NoIds();
  }

  function LastIndex(n: nat): nat {
    if n == 0 then 0 else n - 1
  }

  /** The ids on screen: all of them while filtering, the flattened forest otherwise. */
  function OnScreen(rows: seq<Row>, filtering: bool, expanded: set<nat>): seq<nat>
    requires ForestRows(rows)
  {
    if filtering then Ids(rows) else VisibleIds(rows, expanded)
  }

  /** The selected row is the same one after it was toggled, at the same place. */
  lemma SelectionStays(rows: seq<Row>, filtering: bool, expanded: set<nat>, k: nat)
    requires ForestRows(rows) && k < |OnScreen(rows, filtering, expanded)|
    ensures
      var before := OnScreen(rows, filtering, expanded);
      var after := OnScreen(rows, filtering, Toggled(expanded, before[k]));
      k < |after| && after[k] == before[k]
  {
    hide VisibleIds, ForestRows, Toggled;
    if !filtering {
      var block := TogglingMovesOneBlock(rows, expanded, k);
      var before, after := VisibleIds(rows, expanded), VisibleIds(rows, Toggled(expanded, VisibleIds(rows, expanded)[k]));
      assert after[k] == after[..k + 1][k] == before[..k + 1][k];
    }
  }

  lemma ToggledIsOneMoreOrLess(expanded: set<nat>)
    ensures forall id :: id in expanded ==> Toggled(expanded, id) == expanded - {id}
    ensures forall id :: id !in expanded ==> Toggled(expanded, id) == expanded + {id}
  {
  }

  /** The state of the allocation tab that toggling touches. */
  class AllocationPane {
    var rows: seq<Row>
    var filtering: bool
    var expanded: set<nat>
    var selectedRowIdx: nat

    constructor (rows: seq<Row>)
      ensures this.rows == rows && !filtering && expanded == {} && selectedRowIdx == 0
    {
      this.rows, filtering, expanded, selectedRowIdx := rows, false, {}, 0;
    }

    method ToggleSelectedExpanded()
      requires ForestRows(rows)
      modifies this`expanded, this`selectedRowIdx
      ensures
        var before := old(OnScreen(rows, filtering, expanded));
        if old(selectedRowIdx) < |before| && HasChildren(rows, before[old(selectedRowIdx)]) then
          && expanded == Toggled(old(expanded), before[old(selectedRowIdx)])
          && selectedRowIdx == Least(old(selectedRowIdx), LastIndex(|OnScreen(rows, filtering, expanded)|))
        else expanded == old(expanded) && selectedRowIdx == old(selectedRowIdx)
      ensures
        var before, after := old(OnScreen(rows, filtering, expanded)), OnScreen(rows, filtering, expanded);
        old(selectedRowIdx) < |before| ==>
          && selectedRowIdx == old(selectedRowIdx) < |after|
          && after[selectedRowIdx] == before[selectedRowIdx]
    {
      hide VisibleIds, ForestRows, HasChildren, Toggled;
      ToggledIsOneMoreOrLess(expanded);
      var visible := VisibleAllocationHotSpotRows(rows, filtering, expanded);
      if selectedRowIdx >= |visible| {
        return;
      }
      var nodeId := visible[selectedRowIdx].nodeId;
      assert Ids(visible)[selectedRowIdx] == nodeId;
      if !HasChildren(rows, nodeId) {
        return;
      }
      SelectionStays(rows, filtering, expanded, selectedRowIdx);
      if nodeId !in expanded {
        expanded := expanded + {nodeId};
      } else {
        expanded := expanded - {nodeId};
      }
      var now := VisibleAllocationHotSpotRows(rows, filtering, expanded);
      var maxIdx := if |now| == 0 then 0 else |now| - 1;
      selectedRowIdx := if selectedRowIdx < maxIdx then selectedRowIdx else maxIdx;
    }
  }
}
