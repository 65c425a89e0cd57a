/** The native snapshot's way to the client: numbered, printed, read, sent, and given depths. */
module AllocationPipeline {
  import opened NativeAllocations
  import opened NativeSnapshots
  import opened AllocationTsv
  import opened AllocationDepths
  import opened AllocationView

  function Printable(line: Numbered): HotSpot {
    var s := line.stats;
    HotSpot(line.id, line.parentId, s.methodMeta.className, s.methodMeta.methodName, s.methodMeta.methodDescriptor,
            s.allocatedType, s.allocatedSize, s.instanceCount)
  }

  function PrintableRows(lines: seq<Numbered>): (r: seq<HotSpot>)
    ensures |r| == |lines|
  {
    seq(|lines|, k requires 0 <= k < |lines| => Printable(lines[k]))
  }

  /** Read rows as they are sent: the counters of a read row are never negative here. */
  function Sent(r: ReadRow): TreeNode
    requires r.id >= 0 && r.allocatedSize >= 0 && r.instanceCount >= 0
  {
    TreeNode(r.id, r.parentId, r.className, r.methodName, r.methodDescriptor, r.allocatedType, r.allocatedSize,
             r.instanceCount)
  }

  predicate CanBeSent(rows: seq<ReadRow>) {
    forall k :: 0 <= k < |rows| ==> rows[k].id >= 0 && rows[k].allocatedSize >= 0 && rows[k].instanceCount >= 0
  }

  function SentRows(rows: seq<ReadRow>): (r: seq<TreeNode>)
    requires CanBeSent(rows)
    ensures |r| == |rows|
  {
    seq(|rows|, k requires 0 <= k < |rows| => Sent(rows[k]))
  }

  // ---- which rows arrive

  /** The positions of the rows that survive printing. */
  function Kept(rows: seq<HotSpot>): (r: seq<nat>)
    ensures forall j :: 0 <= j < |r| ==> r[j] < |rows| && Survives(rows[r[j]])
    ensures forall i, j :: 0 <= i < j < |r| ==> r[i] < r[j]
  {
    if rows == [] then []
    else
      var n := |rows| - 1;
      Kept(rows[..n]) + (if Survives(rows[n]) then [n] else [])
  }

  lemma {:induction false} KeptIsAll(rows: seq<HotSpot>, k: nat)
    requires k < |rows| && Survives(rows[k])
    ensures k in Kept(rows)
  {
    hide Survives;
    if k < |rows| - 1 {
      KeptIsAll(rows[..|rows| - 1], k);
    }
  }

  lemma {:induction false} SurvivorsAt(rows: seq<HotSpot>, j: nat)
    requires j < |Kept(rows)|
    ensures |Survivors(rows)| == |Kept(rows)| && Survivors(rows)[j] == Cleaned(rows[Kept(rows)[j]])
  {
    hide Survives, Cleaned;
    var n := |rows| - 1;
    if j < |Kept(rows[..n])| {
      SurvivorsAt(rows[..n], j);
    } else {
      AsManyAsKept(rows[..n]);
    }
  }

  lemma {:induction false} AsManyAsKept(rows: seq<HotSpot>)
    ensures |Survivors(rows)| == |Kept(rows)|
  {
    hide Survives, Cleaned;
    if rows != [] {
      AsManyAsKept(rows[..|rows| - 1]);
    }
  }

  lemma {:induction false} AllAreKept(rows: seq<HotSpot>)
    requires forall j :: 0 <= j < |rows| ==> Survives(rows[j])
    ensures |Kept(rows)| == |rows| && forall j :: 0 <= j < |rows| ==> Kept(rows)[j] == j
  {
    hide Survives;
    if rows != [] {
      AllAreKept(rows[..|rows| - 1]);
    }
  }

  // ---- what a row shows when it arrives

  /** How a method and a type are named, once tabs and line ends are spaces. */
  function ShownName(s: Stats): string {
    var c, m := Clean(s.methodMeta.className), Clean(s.methodMeta.methodName);
    if c == "" && m == "" then WithDots(Clean(s.allocatedType)) else c + "." + m + Clean(s.methodMeta.methodDescriptor)
  }

  /** The levels above a row up to the first that did not arrive, which still counts as one. */
  function ArrivedLevel(lines: seq<Numbered>, k: nat): nat
    requires k < |lines| && AllNumberedRight(lines)
    decreases k
  {
    assert NumberedRight(lines, k);
    var p := lines[k].parentId;
    if p == -1 then 0 else if Survives(Printable(lines[p])) then ArrivedLevel(lines, p) + 1 else 1
  }

  /** A client row tells the names, type, bytes and count of a numbered entry, its parent, and how deep it hangs. */
  predicate ShowsLine(row: Row, lines: seq<Numbered>, k: nat)
    requires k < |lines| && AllNumberedRight(lines)
  {
    var s := lines[k].stats;
    && row.nodeId == k && row.depth == ArrivedLevel(lines, k)
    && row.name == ShownName(s) && row.allocatedType == WithDots(Clean(s.allocatedType))
    && row.bytes == s.allocatedSize && row.allocations == s.instanceCount
    && if row.parentId.None? then |s.path| == 1
       else |s.path| > 1 && row.parentId.value < k && lines[row.parentId.value].stats.path == s.path[..|s.path| - 1]
  }

  /** Every entry strictly between a path and its outermost method arrives. */
  predicate PathArrives(lines: seq<Numbered>, path: seq<nat>) {
    forall j :: 0 <= j < |lines| && 2 <= |lines[j].stats.path| < |path| && lines[j].stats.path <= path ==>
      Survives(Printable(lines[j]))
  }

  predicate PathsApart(lines: seq<Numbered>) {
    forall i, j :: 0 <= i < j < |lines| ==> lines[i].stats.path != lines[j].stats.path
  }

  lemma {:induction false} ArrivedLevelIsShort(lines: seq<Numbered>, k: nat)
    requires k < |lines| && AllNumberedRight(lines)
    ensures ArrivedLevel(lines, k) + 1 <= |lines[k].stats.path|
    decreases k
  {
    hide Survives, Printable;
    assert NumberedRight(lines, k);
    if lines[k].parentId != -1 {
      assert NumberedRight(lines, lines[k].parentId);
      ArrivedLevelIsShort(lines, lines[k].parentId);
    }
  }

  /** A row hangs as deep as its path is long if and only if everything between it and its outermost method arrives. */
  lemma {:induction false} LevelIsWholePath(lines: seq<Numbered>, k: nat)
    requires k < |lines| && AllNumberedRight(lines) && PathsApart(lines)
    ensures ArrivedLevel(lines, k) + 1 == |lines[k].stats.path| <==> PathArrives(lines, lines[k].stats.path)
    decreases k
  {
    hide Survives, Printable;
    var path, p := lines[k].stats.path, lines[k].parentId;
    assert NumberedRight(lines, k);
    if p != -1 {
      assert NumberedRight(lines, p);
      LevelIsWholePath(lines, p);
      ArrivedLevelIsShort(lines, p);
      ArrivesBySteps(lines, path, p);
      if |path| == 2 {
        assert lines[p].parentId == -1;
      }
    }
  }

  lemma ArrivesBySteps(lines: seq<Numbered>, path: seq<nat>, p: nat)
    requires p < |lines| && PathsApart(lines) && |path| >= 2 && lines[p].stats.path == path[..|path| - 1]
    ensures PathArrives(lines, path) <==>
      PathArrives(lines, lines[p].stats.path) && (|path| > 2 ==> Survives(Printable(lines[p])))
  {
    hide Survives, Printable;
    var parent := lines[p].stats.path;
    forall j | 0 <= j < |lines| && lines[j].stats.path <= parent
      ensures lines[j].stats.path <= path
    {
      assert parent[..|lines[j].stats.path|] == path[..|lines[j].stats.path|];
    }
    forall j | 0 <= j < |lines| && 2 <= |lines[j].stats.path| < |path| && lines[j].stats.path <= path
      ensures lines[j].stats.path <= parent && (|lines[j].stats.path| == |parent| ==> j == p)
    {
      assert lines[j].stats.path == path[..|lines[j].stats.path|];
      assert parent[..|lines[j].stats.path|] == path[..|lines[j].stats.path|];
    }
  }

  // ---- the way of a snapshot

  /** The rows the client has when a snapshot's table was read and sent. */
  function ClientRows(lines: seq<Numbered>): (r: seq<Row>)
    requires CanBeSent(Read(Text(PrintableRows(lines))))
  {
    Rows(SentRows(Read(Text(PrintableRows(lines)))))
  }

  /** Nodes that agree with the lines they come from. */
  ghost predicate Carries(nodes: seq<TreeNode>, lines: seq<Numbered>) {
    && |nodes| == |Kept(PrintableRows(lines))|
    && forall j :: 0 <= j < |nodes| ==> IsNodeOf(nodes[j], lines[Kept(PrintableRows(lines))[j]])
  }

  predicate IsNodeOf(node: TreeNode, line: Numbered) {
    var s := line.stats;
    && node.id == line.id && node.parentId == line.parentId
    && node.className == Clean(s.methodMeta.className) && node.methodName == Clean(s.methodMeta.methodName)
    && node.methodDescriptor == Clean(s.methodMeta.methodDescriptor) && node.allocatedType == Clean(s.allocatedType)
    && node.allocatedSize == s.allocatedSize && node.instanceCount == s.instanceCount
  }

  lemma SurvivorsAreSent(lines: seq<Numbered>)
    requires AllNumberedRight(lines) && |lines| <= 0x8000_0000
    ensures
      var read := Read(Text(PrintableRows(lines)));
      CanBeSent(read) && Carries(SentRows(read), lines)
  {
    var printed := PrintableRows(lines);
    forall j | 0 <= j < |printed|
      ensures HasInt32Ids(printed[j])
    {
      assert NumberedRight(lines, j);
    }
    hide Read, Text, Survives, Clean;
    TableRoundTrip(printed);
    AsManyAsKept(printed);
    forall j | 0 <= j < |Survivors(printed)|
      ensures Survivors(printed)[j] == Cleaned(Printable(lines[Kept(printed)[j]]))
      ensures Survivors(printed)[j].id >= 0
    {
      SurvivorsAt(printed, j);
      assert NumberedRight(lines, Kept(printed)[j]);
    }
  }

  lemma NodeIds(nodes: seq<TreeNode>, lines: seq<Numbered>)
    requires Carries(nodes, lines) && AllNumberedRight(lines)
    ensures IdsApart(nodes)
    ensures forall j :: 0 <= j < |nodes| ==> nodes[j].id == Kept(PrintableRows(lines))[j]
  {
    hide Survives, Clean;
    var kept := Kept(PrintableRows(lines));
    forall j | 0 <= j < |nodes| ensures nodes[j].id == kept[j] {
      assert IsNodeOf(nodes[j], lines[kept[j]]) && NumberedRight(lines, kept[j]);
    }
  }

  lemma LevelsFit(nodes: seq<TreeNode>, lines: seq<Numbered>, level: seq<nat>, j: nat)
    requires Carries(nodes, lines) && AllNumberedRight(lines) && |level| == |nodes| && j < |nodes|
    requires forall i :: 0 <= i < |level| ==> level[i] == ArrivedLevel(lines, Kept(PrintableRows(lines))[i])
    ensures LevelFits(nodes, level, j)
  {
    hide Survives, Clean;
    var printed := PrintableRows(lines);
    var kept := Kept(printed);
    var k := kept[j];
    NodeIds(nodes, lines);
    assert IsNodeOf(nodes[j], lines[k]) && NumberedRight(lines, k);
    var p := lines[k].parentId;
    if p >= 0 {
      if Survives(Printable(lines[p])) {
        KeptIsAll(printed, p);
        var i :| 0 <= i < |kept| && kept[i] == p;
        assert nodes[i].id == p;
      } else {
        assert forall i :: 0 <= i < |nodes| ==> nodes[i].id != p;
      }
    }
  }

  lemma DepthIsArrivedLevel(nodes: seq<TreeNode>, lines: seq<Numbered>, events: seq<Event>, j: nat)
    requires Carries(nodes, lines) && AllNumberedRight(lines) && j < |nodes| && ShortPaths(events)
    requires EventsOn(events, lines[Kept(PrintableRows(lines))[j]].stats.path) > 0
    ensures Rows(nodes)[j].depth == ArrivedLevel(lines, Kept(PrintableRows(lines))[j])
  {
    hide ShortPaths, AllNumberedRight, ArrivedLevel, IsNodeOf;
    var kept := Kept(PrintableRows(lines));
    var level: seq<nat> := seq(|nodes|, i requires 0 <= i < |nodes| => LevelOf(nodes, lines, i));
    NodeIds(nodes, lines);
    forall i | 0 <= i < |nodes| ensures LevelFits(nodes, level, i) {
      LevelsFit(nodes, lines, level, i);
    }
    DepthIsLevel(nodes, level, j, 0);
    EntriesAreShort(events, lines[kept[j]].stats.path);
    ArrivedLevelIsShort(lines, kept[j]);
  }

  ghost function LevelOf(nodes: seq<TreeNode>, lines: seq<Numbered>, i: nat): (level: nat)
    requires Carries(nodes, lines) && AllNumberedRight(lines) && i < |nodes|
    ensures level == ArrivedLevel(lines, Kept(PrintableRows(lines))[i])
  {
    ArrivedLevel(lines, Kept(PrintableRows(lines))[i])
  }

  lemma NodesAreAForest(nodes: seq<TreeNode>, lines: seq<Numbered>)
    requires Carries(nodes, lines) && AllNumberedRight(lines)
    ensures ForestRows(Rows(nodes))
  {
    hide Survives, Clean, DepthFrom;
    NodeIds(nodes, lines);
    var kept := Kept(PrintableRows(lines));
    forall j | 0 <= j < |nodes|
      ensures nodes[j].parentId < nodes[j].id
    {
      assert IsNodeOf(nodes[j], lines[kept[j]]) && NumberedRight(lines, kept[j]);
    }
  }

  lemma RowShowsLine(nodes: seq<TreeNode>, lines: seq<Numbered>, j: nat)
    requires Carries(nodes, lines) && AllNumberedRight(lines) && j < |nodes|
    requires Rows(nodes)[j].depth == ArrivedLevel(lines, Kept(PrintableRows(lines))[j])
    ensures ShowsLine(Rows(nodes)[j], lines, Kept(PrintableRows(lines))[j])
  {
    hide Survives, Clean, WithDots, Kept, ArrivedLevel, DepthFrom;
    var k := Kept(PrintableRows(lines))[j];
    assert IsNodeOf(nodes[j], lines[k]) && NumberedRight(lines, k);
  }

  /**
   * A snapshot of any history: the client gets exactly the rows that survive printing, in order. Each shows the names,
   * type, bytes and count of its entry and the entry it hangs under, at the depth of the part of its path that
   * arrived; and together they are a forest, which is what the list is drawn from.
   */
  lemma SurvivingRowsReachTheClient(m: map<Key, Stats>, events: seq<Event>, entries: seq<Stats>, j: nat)
    requires Represents(m, events) && ListsEntries(m, entries) && |entries| <= 0x8000_0000 && ShortPaths(events)
    requires j < |Kept(PrintableRows(NativeSnapshots.Lines(SortedRows(entries))))|
    ensures
      var lines := NativeSnapshots.Lines(SortedRows(entries));
      var kept := Kept(PrintableRows(lines));
      && AllNumberedRight(lines) && PathsApart(lines) && CanBeSent(Read(Text(PrintableRows(lines))))
      && |ClientRows(lines)| == |kept| && ForestRows(ClientRows(lines))
      && ShowsLine(ClientRows(lines)[j], lines, kept[j])
  {
    var lines := NativeSnapshots.Lines(SortedRows(entries));
    LinesAreRight(m, events, entries);
    EntryIsOnEvents(m, events, entries, Kept(PrintableRows(lines))[j]);
    hide Read, Text, Survives, Represents, ListsEntries, PrintableRows, SortedRows, Rows, ShowsLine, Kept, Sent;
    SurvivorsAreSent(lines);
    var nodes := SentRows(Read(Text(PrintableRows(lines))));
    NodesAreAForest(nodes, lines);
    DepthIsArrivedLevel(nodes, lines, events, j);
    RowShowsLine(nodes, lines, j);
  }

  /** If every row survives, every row arrives, each at the depth of its whole path. */
  lemma RowsReachTheClient(m: map<Key, Stats>, events: seq<Event>, entries: seq<Stats>, k: nat)
    requires Represents(m, events) && ListsEntries(m, entries) && k < |entries| <= 0x8000_0000 && ShortPaths(events)
    requires forall j :: 0 <= j < |entries| ==> Survives(PrintableRows(NativeSnapshots.Lines(SortedRows(entries)))[j])
    ensures
      var lines := NativeSnapshots.Lines(SortedRows(entries));
      && AllNumberedRight(lines) && CanBeSent(Read(Text(PrintableRows(lines))))
      && |ClientRows(lines)| == |entries| && ShowsLine(ClientRows(lines)[k], lines, k)
      && ClientRows(lines)[k].depth + 1 == |lines[k].stats.path|
  {
    hide Represents, ListsEntries, SortedRows, ShowsLine, Survives, Read, Text, Rows, Sent, ShortPaths;
    var lines := NativeSnapshots.Lines(SortedRows(entries));
    AllAreKept(PrintableRows(lines));
    SurvivingRowsReachTheClient(m, events, entries, k);
    LevelIsWholePath(lines, k);
    EverythingArrives(lines, k);
    ShownDepth(ClientRows(lines)[k], lines, k);
  }

  lemma ShownDepth(row: Row, lines: seq<Numbered>, k: nat)
    requires k < |lines| && AllNumberedRight(lines) && ShowsLine(row, lines, k)
    ensures row.depth == ArrivedLevel(lines, k)
  {
  }

  lemma EverythingArrives(lines: seq<Numbered>, k: nat)
    requires k < |lines| && forall j :: 0 <= j < |lines| ==> Survives(PrintableRows(lines)[j])
    ensures PathArrives(lines, lines[k].stats.path)
  {
    hide Survives;
    forall j | 0 <= j < |lines| ensures Survives(Printable(lines[j])) {
      assert Survives(PrintableRows(lines)[j]);
    }
  }

  lemma LiveIdsArePositions(rows: seq<LiveSnapshots.Row>, k: nat)
    requires k < |rows| && LiveSnapshots.HangsRight(rows, 0, k, [], -1)
    ensures rows[k].id == k && rows[k].parentId < k
  {
  }

  /** The rows of a live snapshot are a forest too, whatever the client's filter keeps of them. */
  lemma LiveRowsAreAForest(h: LiveSnapshots.Heap, moment: nat, nodes: seq<TreeNode>, keep: Row -> bool)
    requires LiveSnapshots.Settled(h) && CarriesLive(nodes, LiveSnapshots.Snapshot(h, moment).rows)
    ensures ForestRows(Rows(nodes)) && ForestRows(Filtered(Rows(nodes), keep))
  {
    hide DepthFrom, Filtered, LiveSnapshots.HangsRight, LiveSnapshots.Snapshot, LiveSnapshots.Settled;
    var rows := LiveSnapshots.Snapshot(h, moment).rows;
    LiveSnapshots.SnapshotIsATree(h, moment);
    forall k | 0 <= k < |nodes|
      ensures nodes[k].id == k && nodes[k].parentId < k
    {
      LiveIdsArePositions(rows, k);
    }
    FilteredIsAForest(Rows(nodes), keep);
  }

  lemma LinesAreRight(m: map<Key, Stats>, events: seq<Event>, entries: seq<Stats>)
    requires Represents(m, events) && ListsEntries(m, entries) && |entries| <= 0x8000_0000
    ensures AllNumberedRight(NativeSnapshots.Lines(SortedRows(entries)))
    ensures PathsApart(NativeSnapshots.Lines(SortedRows(entries)))
  {
    LinesStayApart(entries);
    var lines := NativeSnapshots.Lines(SortedRows(entries));
    forall j | 0 <= j < |lines|
      ensures NumberedRight(lines, j) && lines[j].stats.path != []
    {
      SnapshotIsNumberedRight(m, events, entries, j);
      EntryIsOnEvents(m, events, entries, j);
    }
  }

  lemma LinesStayApart(entries: seq<Stats>)
    requires NoPathTwice(entries)
    ensures PathsApart(NativeSnapshots.Lines(SortedRows(entries)))
  {
    hide SortedRows, NativeSnapshots.Lines;
    var sorted := SortedRows(entries);
    SortingIsRight(entries);
    forall k | 0 <= k < |sorted| ensures NativeSnapshots.Lines(sorted)[k].stats == sorted[k] {
      LineAt(sorted, k);
    }
  }

  /** Each line's path is on some event. */
  lemma EntryIsOnEvents(m: map<Key, Stats>, events: seq<Event>, entries: seq<Stats>, k: nat)
    requires Represents(m, events) && ListsEntries(m, entries) && k < |entries|
    ensures EventsOn(events, NativeSnapshots.Lines(SortedRows(entries))[k].stats.path) > 0
    ensures NativeSnapshots.Lines(SortedRows(entries))[k].stats.path != []
  {
    var sorted := SortedRows(entries);
    LineAt(sorted, k);
    SortingIsRight(entries);
    var p := sorted[k].path;
    assert sorted[k] in entries;
    assert EntryIsRight(m, events, p);
    NothingOnEmpty(events);
  }

  lemma {:induction false} NothingOnEmpty(events: seq<Event>)
    ensures EventsOn(events, []) == 0
  {
    if events != [] {
      NothingOnEmpty(events[..|events| - 1]);
    }
  }
}
