/** The native agent's snapshot: entries sorted by path length, then numbered, each naming its parent's row. */
module NativeSnapshots {
  import opened NativeAllocations
  import opened Sequences
  import opened StableSorting

  /** Shorter paths first; among equal lengths, larger sizes first. */
  predicate InOrder(a: Stats, b: Stats) {
    |a.path| < |b.path| || (|a.path| == |b.path| && a.allocatedSize >= b.allocatedSize)
  }

  predicate OtherPath(a: Stats, b: Stats) {
    a.path != b.path
  }

  function SortedRows(rows: seq<Stats>): (r: seq<Stats>)
    ensures |r| == |rows|
  {
    Sorted(rows, InOrder)
  }

  predicate IsSorted(rows: seq<Stats>) {
    forall j, k :: 0 <= j < k < |rows| ==>
      || |rows[j].path| < |rows[k].path|
      || (|rows[j].path| == |rows[k].path| && rows[j].allocatedSize >= rows[k].allocatedSize)
  }

  predicate NoPathTwice(rows: seq<Stats>) {
    Pairwise(rows, OtherPath)
  }

  /** Sorting orders the rows and loses and invents none. */
  lemma SortingIsRight(rows: seq<Stats>)
    ensures IsSorted(SortedRows(rows)) && SameElements(SortedRows(rows), rows)
    ensures NoPathTwice(rows) ==> NoPathTwice(SortedRows(rows))
  {
    hide Sorted;
    SortingOrders(rows, InOrder);
    SortingKeepsElements(rows, InOrder);
    if NoPathTwice(rows) {
      SortingKeepsPairs(rows, InOrder, OtherPath);
    }
  }

  // ---- numbering

  /** A number as a 32-bit signed integer. */
  function ToInt32(n: nat): int {
    var low := n % 0x1_0000_0000;
    if low < 0x8000_0000 then low else low - 0x1_0000_0000
  }

  lemma Int32IsExact(n: nat)
    requires n < 0x1_0000_0000
    ensures ToInt32(n) == n <==> n < 0x8000_0000
  {
  }

  datatype Numbered = Numbered(id: int, parentId: int, stats: Stats)

  /** id_by_path after some rows. */
  function Ids(rows: seq<Stats>): map<Key, int> {
    if rows == [] then map[]
    else
      var n := |rows| - 1;
      Ids(rows[..n])[KeyOf(rows[n].path) := ToInt32(n)]
  }

  function ParentIn(ids: map<Key, int>, path: seq<nat>): int {
    if |path| <= 1 then -1
    else
      var key := KeyOf(path[..|path| - 1]);
      if key in ids then ids[key] else -1
  }

  function Lines(rows: seq<Stats>): (r: seq<Numbered>)
    ensures |r| == |rows|
  {
    if rows == [] then []
    else
      var n := |rows| - 1;
      Lines(rows[..n]) + [Numbered(ToInt32(n), ParentIn(Ids(rows[..n]), rows[n].path), rows[n])]
  }

  lemma {:induction false} LineAt(rows: seq<Stats>, k: nat)
    requires k < |rows|
    ensures Lines(rows)[k] == Numbered(ToInt32(k), ParentIn(Ids(rows[..k]), rows[k].path), rows[k])
  {
    if k < |rows| - 1 {
      LineAt(rows[..|rows| - 1], k);
      assert rows[..|rows| - 1][..k] == rows[..k];
    }
  }

  lemma {:induction false} IdOf(rows: seq<Stats>, j: nat)
    requires j < |rows| && NoPathTwice(rows)
    ensures KeyOf(rows[j].path) in Ids(rows) && Ids(rows)[KeyOf(rows[j].path)] == ToInt32(j)
  {
    var n := |rows| - 1;
    if j < n {
      IdOf(rows[..n], j);
      KeysDiffer(rows[j].path, rows[n].path);
    }
  }

  /** Every path longer than one has its one-shorter prefix among the rows. */
  ghost predicate PrefixClosed(rows: seq<Stats>) {
    forall k :: 0 <= k < |rows| && |rows[k].path| > 1 ==> HasPath(rows, rows[k].path[..|rows[k].path| - 1])
  }

  ghost predicate HasPath(rows: seq<Stats>, p: seq<nat>) {
    exists j :: 0 <= j < |rows| && rows[j].path == p
  }

  /** A row's parent is the earlier row of its one-shorter path; only paths of one step have none. */
  predicate NumberedRight(lines: seq<Numbered>, k: nat)
    requires k < |lines|
  {
    var path := lines[k].stats.path;
    && lines[k].id == k
    && (if |path| <= 1 then lines[k].parentId == -1
        else 0 <= lines[k].parentId < k && lines[lines[k].parentId].stats.path == path[..|path| - 1])
  }

  lemma LaterIsNotShorter(rows: seq<Stats>, k: nat, j: nat)
    requires IsSorted(rows) && k < j < |rows|
    ensures |rows[k].path| <= |rows[j].path|
  {
    assert InOrder(rows[k], rows[j]);
  }

  lemma ParentComesFirst(rows: seq<Stats>, k: nat) returns (j: nat)
    requires IsSorted(rows) && NoPathTwice(rows) && PrefixClosed(rows) && k < |rows| && |rows[k].path| > 1
    ensures j < k && rows[j].path == rows[k].path[..|rows[k].path| - 1]
  {
    var parent := rows[k].path[..|rows[k].path| - 1];
    assert HasPath(rows, parent);
    j :| 0 <= j < |rows| && rows[j].path == parent;
    hide IsSorted, NoPathTwice, PrefixClosed;
    if j > k {
      LaterIsNotShorter(rows, k, j);
    }
  }

  /** Row numbers are positions exactly as far as 32 bits reach. */
  lemma IdsArePositions(rows: seq<Stats>, k: nat)
    requires k < |rows| && k < 0x1_0000_0000
    ensures Lines(rows)[k].id == k <==> k < 0x8000_0000
  {
    hide ToInt32, Ids, Lines;
    Int32IsExact(k);
    LineAt(rows, k);
  }

  lemma LineIsRight(rows: seq<Stats>, k: nat)
    requires IsSorted(rows) && NoPathTwice(rows) && PrefixClosed(rows) && k < |rows| <= 0x8000_0000
    ensures NumberedRight(Lines(rows), k)
  {
    hide ToInt32, Ids, Lines, KeyOf, IsSorted, PrefixClosed;
    LineAt(rows, k);
    IdsArePositions(rows, k);
    if |rows[k].path| > 1 {
      var j := ParentComesFirst(rows, k);
      assert rows[..k][j] == rows[j];
      FirstRowsApart(rows, k);
      hide NoPathTwice;
      IdOf(rows[..k], j);
      Int32IsExact(j);
      LineAt(rows, j);
    }
  }

  lemma FirstRowsApart(rows: seq<Stats>, k: nat)
    requires NoPathTwice(rows) && k <= |rows|
    ensures NoPathTwice(rows[..k])
  {
  }

  /** Rows are listed as they came out of the map, in any order, each once. */
  ghost predicate ListsEntries(m: map<Key, Stats>, rows: seq<Stats>) {
    && (forall k :: 0 <= k < |rows| ==> KeyOf(rows[k].path) in m && m[KeyOf(rows[k].path)] == rows[k])
    && (forall key :: key in m ==> m[key] in rows)
    && NoPathTwice(rows)
  }

  lemma {:induction false} OnShorterPathToo(events: seq<Event>, p: seq<nat>)
    requires |p| > 1 && EventsOn(events, p) > 0
    ensures EventsOn(events, p[..|p| - 1]) > 0
  {
    var last := events[|events| - 1];
    if IsOn(last, p) {
      assert Methods(last.path)[..|p| - 1] == p[..|p| - 1];
    } else {
      OnShorterPathToo(events[..|events| - 1], p);
    }
  }

  lemma EntriesArePrefixClosed(m: map<Key, Stats>, events: seq<Event>, p: seq<nat>)
    requires Represents(m, events) && KeyOf(p) in m && |p| > 1
    ensures KeyOf(p[..|p| - 1]) in m && m[KeyOf(p[..|p| - 1])].path == p[..|p| - 1]
  {
    var parent := p[..|p| - 1];
    assert EntryIsRight(m, events, p) && EntryIsRight(m, events, parent);
    OnShorterPathToo(events, p);
  }

  lemma RowsArePrefixClosed(m: map<Key, Stats>, events: seq<Event>, rows: seq<Stats>, sorted: seq<Stats>)
    requires Represents(m, events) && ListsEntries(m, rows) && SameElements(sorted, rows)
    ensures PrefixClosed(sorted)
  {
    forall k | 0 <= k < |sorted| && |sorted[k].path| > 1
      ensures HasPath(sorted, sorted[k].path[..|sorted[k].path| - 1])
    {
      var p := sorted[k].path;
      assert sorted[k] in rows;
      EntriesArePrefixClosed(m, events, p);
      var parent := m[KeyOf(p[..|p| - 1])];
      assert parent in rows;
      assert parent in sorted;
    }
  }

  /** Whatever order the map lists its entries in, the snapshot numbers the tree of call paths correctly. */
  lemma SnapshotIsNumberedRight(m: map<Key, Stats>, events: seq<Event>, rows: seq<Stats>, k: nat)
    requires Represents(m, events) && ListsEntries(m, rows) && k < |rows| <= 0x8000_0000
    ensures NumberedRight(Lines(SortedRows(rows)), k)
  {
    var sorted := SortedRows(rows);
    SortingIsRight(rows);
    RowsArePrefixClosed(m, events, rows, sorted);
    LineIsRight(sorted, k);
  }

  predicate AllNumberedRight(lines: seq<Numbered>) {
    forall k {:trigger NumberedRight(lines, k)} ::
      0 <= k < |lines| ==> NumberedRight(lines, k) && lines[k].stats.path != []
  }

  /** The methods met on the way up from row k, outermost call last. */
  function Climbed(lines: seq<Numbered>, k: nat): seq<nat>
    requires k < |lines| && AllNumberedRight(lines)
    decreases k
  {
    assert NumberedRight(lines, k);
    var path := lines[k].stats.path;
    var own := [path[|path| - 1]];
    if lines[k].parentId == -1 then own else Climbed(lines, lines[k].parentId) + own
  }

  lemma SplitLast(path: seq<nat>)
    requires path != []
    ensures path == path[..|path| - 1] + [path[|path| - 1]]
    ensures |path| == 1 ==> path == [path[|path| - 1]]
  {
  }

  lemma {:induction false} ClimbingRebuildsThePath(lines: seq<Numbered>, k: nat)
    requires k < |lines| && AllNumberedRight(lines)
    ensures Climbed(lines, k) == lines[k].stats.path
    decreases k
  {
    var path := lines[k].stats.path;
    assert NumberedRight(lines, k) && path != [];
    hide AllNumberedRight;
    SplitLast(path);
    if |path| > 1 {
      ClimbingRebuildsThePath(lines, lines[k].parentId);
    }
  }

  /** An entry never reports less than one below it. */
  lemma {:induction false} PrefixHoldsMore(events: seq<Event>, p: seq<nat>, q: seq<nat>)
    requires p != [] && p <= q
    ensures BytesOn(events, q) <= BytesOn(events, p) && EventsOn(events, q) <= EventsOn(events, p)
  {
    if events != [] {
      var last := events[|events| - 1];
      PrefixHoldsMore(events[..|events| - 1], p, q);
      if IsOn(last, q) {
        assert Methods(last.path)[..|p|] == q[..|p|];
      }
    }
  }

  method HotSpotLines(rows: seq<Stats>) returns (lines: seq<Numbered>)
    ensures lines == Lines(SortedRows(rows))
  {
    hide ToInt32, SortedRows, KeyOf;
    var sorted := SortedRows(rows);
    var idByPath: map<Key, int> := map[];
    lines := [];
    for i := 0 to |sorted|
      invariant idByPath == Ids(sorted[..i])
      invariant lines == Lines(sorted[..i])
    {
      assert sorted[..i + 1][..i] == sorted[..i];
      var row := sorted[i];
      var key := KeyOf(row.path);
      var id := ToInt32(|lines|);
      var parentId := -1;
      if |row.path| > 1 {
        var parentKey := KeyOf(row.path[..|row.path| - 1]);
        if parentKey in idByPath {
          parentId := idByPath[parentKey];
        }
      }
      idByPath := idByPath[key := id];
      lines := lines + [Numbered(id, parentId, row)];
    }
    assert sorted[..|sorted|] == sorted;
  }
}
