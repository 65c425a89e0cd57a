/** The client's rows for the allocation tree, and the depth it works out for each by climbing parent ids. */
module AllocationDepths {
  import opened Options
  import opened Sequences
  import NativeAllocations
  import NativeSnapshots
  import LiveSnapshots

  const MAX_DEPTH: nat := 16

  datatype TreeNode = TreeNode(
    id: nat, parentId: int, className: string, methodName: string, methodDescriptor: string, allocatedType: string,
    allocatedSize: nat, instanceCount: nat)

  datatype Row = Row(
    nodeId: nat, parentId: Option<nat>, depth: nat, name: string, allocatedType: string, bytes: nat, allocations: nat)

  /** The parent id of the first node with an id. */
  function ParentOf(nodes: seq<TreeNode>, id: int): Option<int> {
    if nodes == [] then None
    else
      var before := ParentOf(nodes[..|nodes| - 1], id);
      var last := nodes[|nodes| - 1];
      if before.None? && last.id == id then Some(last.parentId) else before
  }

  function DepthFrom(nodes: seq<TreeNode>, parentId: int, depth: nat): nat
    decreases MAX_DEPTH - depth
  {
    if parentId < 0 || depth >= MAX_DEPTH then depth
    else
      var next := ParentOf(nodes, parentId);
      if next.None? then depth + 1 else DepthFrom(nodes, next.value, depth + 1)
  }

  method AllocationDepth(startId: int, nodes: seq<TreeNode>) returns (depth: nat)
    ensures depth == DepthFrom(nodes, startId, 0)
  {
    var parentId := startId;
    depth := 0;
    while parentId >= 0 && depth < MAX_DEPTH
      invariant DepthFrom(nodes, parentId, depth) == DepthFrom(nodes, startId, 0)
      decreases MAX_DEPTH - depth
    {
      depth := depth + 1;
      var parent := ParentOf(nodes, parentId);
      if parent.None? {
        break;
      }
      parentId := parent.value;
    }
  }

  function WithDots(name: string): (r: string)
    ensures |r| == |name|
  {
    seq(|name|, k requires 0 <= k < |name| => if name[k] == '/' then '.' else name[k])
  }

  function RowFor(nodes: seq<TreeNode>, node: TreeNode): Row {
    var allocatedType := WithDots(node.allocatedType);
    var name := if node.className == "" && node.methodName == "" then allocatedType
                else node.className + "." + node.methodName + node.methodDescriptor;
    Row(node.id, if node.parentId >= 0 then Some(node.parentId) else None, DepthFrom(nodes, node.parentId, 0), name,
        allocatedType, node.allocatedSize, node.instanceCount)
  }

  function Rows(nodes: seq<TreeNode>): (rows: seq<Row>)
    ensures |rows| == |nodes|
  {
    seq(|nodes|, k requires 0 <= k < |nodes| => RowFor(nodes, nodes[k]))
  }

  // ---- depth is the level in the tree

  predicate OtherNode(a: TreeNode, b: TreeNode) {
    a.id != b.id
  }

  predicate IdsApart(nodes: seq<TreeNode>) {
    Pairwise(nodes, OtherNode)
  }

  /** One level below the parent; a parent that is missing counts as one level. */
  ghost predicate LevelFits(nodes: seq<TreeNode>, level: seq<nat>, k: nat)
    requires |level| == |nodes| && k < |nodes|
  {
    if nodes[k].parentId < 0 then level[k] == 0
    else if IsMissing(nodes, nodes[k].parentId) then level[k] == 1
    else exists j :: 0 <= j < |nodes| && nodes[j].id == nodes[k].parentId && level[k] == level[j] + 1
  }

  predicate IsMissing(nodes: seq<TreeNode>, id: int) {
    forall j :: 0 <= j < |nodes| ==> nodes[j].id != id
  }

  lemma {:induction false} NodeIsFound(nodes: seq<TreeNode>, j: nat)
    requires IdsApart(nodes) && j < |nodes|
    ensures ParentOf(nodes, nodes[j].id) == Some(nodes[j].parentId)
  {
    var n := |nodes| - 1;
    if j < n {
      NodeIsFound(nodes[..n], j);
    } else {
      NotFound(nodes[..n], nodes[n].id);
    }
  }

  lemma {:induction false} NotFound(nodes: seq<TreeNode>, id: int)
    requires IsMissing(nodes, id)
    ensures ParentOf(nodes, id) == None
  {
    if nodes != [] {
      NotFound(nodes[..|nodes| - 1], id);
    }
  }

  lemma {:induction false} DepthIsLevel(nodes: seq<TreeNode>, level: seq<nat>, k: nat, depth: nat)
    requires IdsApart(nodes) && |level| == |nodes| && k < |nodes| && depth <= MAX_DEPTH
    requires forall j :: 0 <= j < |nodes| ==> LevelFits(nodes, level, j)
    ensures DepthFrom(nodes, nodes[k].parentId, depth) == Least(MAX_DEPTH, depth + level[k])
    decreases level[k]
  {
    assert LevelFits(nodes, level, k);
    if nodes[k].parentId >= 0 && depth < MAX_DEPTH {
      if IsMissing(nodes, nodes[k].parentId) {
        NotFound(nodes, nodes[k].parentId);
      } else {
        var j :| 0 <= j < |nodes| && nodes[j].id == nodes[k].parentId && level[k] == level[j] + 1;
        NodeIsFound(nodes, j);
        DepthIsLevel(nodes, level, j, depth + 1);
      }
    }
  }

  // ---- both agents' snapshots

  predicate CarriesNative(nodes: seq<TreeNode>, lines: seq<NativeSnapshots.Numbered>) {
    && |nodes| == |lines|
    && forall k :: 0 <= k < |nodes| ==> nodes[k].id == lines[k].id && nodes[k].parentId == lines[k].parentId
  }

  /** Rows of the native snapshot: one less than the path's length, up to the client's cap. */
  lemma NativeRowDepth(nodes: seq<TreeNode>, lines: seq<NativeSnapshots.Numbered>, k: nat)
    requires CarriesNative(nodes, lines) && NativeSnapshots.AllNumberedRight(lines) && k < |nodes|
    ensures lines[k].stats.path != [] && Rows(nodes)[k].depth == Least(MAX_DEPTH, |lines[k].stats.path| - 1)
  {
    forall j | 0 <= j < |nodes|
      ensures nodes[j].id == j && |lines[j].stats.path| > 0
    {
      assert NativeSnapshots.NumberedRight(lines, j);
    }
    var level: seq<nat> := seq(|nodes|, j requires 0 <= j < |nodes| => |lines[j].stats.path| - 1);
    forall j | 0 <= j < |nodes|
      ensures LevelFits(nodes, level, j)
    {
      assert NativeSnapshots.NumberedRight(lines, j);
      if nodes[j].parentId >= 0 {
        var p := nodes[j].parentId;
        assert nodes[p].id == nodes[j].parentId && level[j] == level[p] + 1;
      }
    }
    DepthIsLevel(nodes, level, k, 0);
  }

  predicate CarriesLive(nodes: seq<TreeNode>, rows: seq<LiveSnapshots.Row>) {
    && |nodes| == |rows|
    && forall k :: 0 <= k < |nodes| ==> nodes[k].id == rows[k].id && nodes[k].parentId == rows[k].parentId
  }

  ghost predicate AllHang(rows: seq<LiveSnapshots.Row>) {
    forall k {:trigger LiveSnapshots.HangsRight(rows, 0, k, [], -1)} ::
      0 <= k < |rows| ==> LiveSnapshots.HangsRight(rows, 0, k, [], -1)
  }

  /** Rows of the Java snapshot, whose paths have no limit: exact up to length 17, and never less than the cap beyond. */
  lemma LiveRowDepth(nodes: seq<TreeNode>, rows: seq<LiveSnapshots.Row>, k: nat)
    requires CarriesLive(nodes, rows) && AllHang(rows) && k < |nodes|
    ensures rows[k].path != [] && Rows(nodes)[k].depth == Least(16, |rows[k].path| - 1)
    ensures Rows(nodes)[k].depth == |rows[k].path| - 1 <==> |rows[k].path| <= 17
  {
    forall j | 0 <= j < |nodes|
      ensures nodes[j].id == j && |rows[j].path| > 0
    {
      assert LiveSnapshots.HangsRight(rows, 0, j, [], -1);
    }
    var level: seq<nat> := seq(|nodes|, j requires 0 <= j < |nodes| => |rows[j].path| - 1);
    forall j | 0 <= j < |nodes|
      ensures LevelFits(nodes, level, j)
    {
      assert LiveSnapshots.HangsRight(rows, 0, j, [], -1);
      if nodes[j].parentId >= 0 {
        var p := nodes[j].parentId;
        assert nodes[p].id == nodes[j].parentId && level[j] == level[p] + 1;
      }
    }
    DepthIsLevel(nodes, level, k, 0);
  }

  lemma {:induction false} EntriesAreShort(events: seq<NativeAllocations.Event>, p: seq<nat>)
    requires NativeAllocations.ShortPaths(events) && NativeAllocations.EventsOn(events, p) > 0
    ensures 1 <= |p| <= NativeAllocations.MAX_FRAMES
  {
    if !NativeAllocations.IsOn(events[|events| - 1], p) {
      EntriesAreShort(events[..|events| - 1], p);
    }
  }

  /** So the cap never shortens a native row's depth. */
  lemma NativeDepthIsNeverCapped(
    nodes: seq<TreeNode>, lines: seq<NativeSnapshots.Numbered>, events: seq<NativeAllocations.Event>, k: nat)
    requires CarriesNative(nodes, lines) && NativeSnapshots.AllNumberedRight(lines) && k < |nodes|
    requires NativeAllocations.ShortPaths(events)
    requires NativeAllocations.EventsOn(events, lines[k].stats.path) > 0
    ensures Rows(nodes)[k].depth == |lines[k].stats.path| - 1
  {
    EntriesAreShort(events, lines[k].stats.path);
    NativeRowDepth(nodes, lines, k);
  }
}
