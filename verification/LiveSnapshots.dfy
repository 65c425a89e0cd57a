/**
 * The snapshot of the allocation trie: a preorder walk that skips nodes with no live sample,
 * taken while the garbage collector clears references.
 */
module LiveSnapshots {
  import opened LiveAllocations

  /** alive(t, n): the n-th recorded object is still referenced at moment t; every look at one takes a moment. */
  type Liveness = (nat, nat) -> bool

  ghost predicate NothingComesBack(alive: Liveness) {
    forall t: nat, t': nat, n: nat | t <= t' && alive(t', n) :: alive(t, n)
  }

  datatype Measure = Instances | Bytes

  function Weigh(size: nat, m: Measure): nat {
    if m == Instances then 1 else size
  }

  /** What an instant photograph at moment t would report for a path. */
  function Live(events: seq<Event>, alive: Liveness, t: nat, p: Path, m: Measure): nat {
    if events == [] then 0
    else
      var n := |events| - 1;
      Live(events[..n], alive, t, p, m)
        + (if p <= events[n].path && alive(t, n) then Weigh(events[n].size, m) else 0)
  }

  /** What looking at the samples one after the other reports. */
  function LiveTotal(samples: seq<Sample>, alive: Liveness, t: nat, m: Measure): nat {
    if samples == [] then 0
    else
      var n := |samples| - 1;
      LiveTotal(samples[..n], alive, t, m)
        + (if alive(t + n, samples[n].obj) then Weigh(samples[n].size, m) else 0)
  }

  lemma {:induction false} LiveFades(events: seq<Event>, alive: Liveness, t: nat, t': nat, p: Path, m: Measure)
    requires NothingComesBack(alive) && t <= t'
    ensures Live(events, alive, t', p, m) <= Live(events, alive, t, p, m)
  {
    if events != [] {
      LiveFades(events[..|events| - 1], alive, t, t', p, m);
    }
  }

  /** The look at the samples reports no less than is alive after it and no more than is alive before it. */
  lemma {:induction false} LookIsBetween(events: seq<Event>, alive: Liveness, t: nat, end: nat, p: Path, m: Measure)
    requires NothingComesBack(alive) && t + |SamplesAt(events, p)| <= end
    ensures
      var seen := LiveTotal(SamplesAt(events, p), alive, t, m);
      Live(events, alive, end, p, m) <= seen <= Live(events, alive, t, p, m)
  {
    if events != [] {
      var n := |events| - 1;
      var before, now := SamplesAt(events[..n], p), SamplesAt(events, p);
      LookIsBetween(events[..n], alive, t, end, p, m);
      if p <= events[n].path {
        assert now[..|before|] == before;
        LiveTotalOfLast(before, Sample(n, events[n].size), alive, t, m);
        assert alive(end, n) ==> alive(t + |before|, n);
        assert alive(t + |before|, n) ==> alive(t, n);
      } else {
        assert now == before;
      }
    }
  }

  lemma LiveTotalOfLast(samples: seq<Sample>, last: Sample, alive: Liveness, t: nat, m: Measure)
    ensures LiveTotal(samples + [last], alive, t, m) ==
      LiveTotal(samples, alive, t, m) + (if alive(t + |samples|, last.obj) then Weigh(last.size, m) else 0)
  {
    assert (samples + [last])[..|samples|] == samples;
  }

  // ---- the parts of a node: its children never hold more than it does

  predicate AreChildren(list: seq<Path>, parent: Path) {
    && (forall k :: 0 <= k < |list| ==> list[k] != [] && list[k][..|list[k]| - 1] == parent)
    && forall j, k :: 0 <= j < k < |list| ==> list[j] != list[k]
  }

  function LiveUnder(events: seq<Event>, alive: Liveness, t: nat, list: seq<Path>, m: Measure): nat {
    if list == [] then 0
    else LiveUnder(events, alive, t, list[..|list| - 1], m) + Live(events, alive, t, list[|list| - 1], m)
  }

  predicate AnyLeadsTo(list: seq<Path>, path: Path) {
    list != [] && (AnyLeadsTo(list[..|list| - 1], path) || list[|list| - 1] <= path)
  }

  lemma {:induction false} ThatOneLeadsTo(list: seq<Path>, path: Path) returns (k: nat)
    requires AnyLeadsTo(list, path)
    ensures k < |list| && list[k] <= path
  {
    if list[|list| - 1] <= path {
      k := |list| - 1;
    } else {
      k := ThatOneLeadsTo(list[..|list| - 1], path);
    }
  }

  lemma OneStepDown(a: Path, b: Path, path: Path)
    requires a <= path && b <= path && |a| == |b|
    ensures a == b
  {
    assert path[..|a|] == a && path[..|a|] == b;
  }

  lemma ChildrenLeadApart(list: seq<Path>, parent: Path, path: Path)
    requires AreChildren(list, parent) && list != []
    ensures !(AnyLeadsTo(list[..|list| - 1], path) && list[|list| - 1] <= path)
    ensures AnyLeadsTo(list, path) ==> parent <= path
  {
    var n := |list| - 1;
    if AnyLeadsTo(list[..n], path) && list[n] <= path {
      var k := ThatOneLeadsTo(list[..n], path);
      OneStepDown(list[k], list[n], path);
    }
    if AnyLeadsTo(list, path) {
      var k := ThatOneLeadsTo(list, path);
      assert list[k] == path[..|parent| + 1];
      assert path[..|parent|] == parent;
    }
  }

  lemma {:induction false} LastEventUnder(events: seq<Event>, alive: Liveness, t: nat, list: seq<Path>, parent: Path, m: Measure)
    requires events != [] && AreChildren(list, parent)
    ensures
      var n := |events| - 1;
      LiveUnder(events, alive, t, list, m) == LiveUnder(events[..n], alive, t, list, m)
        + (if AnyLeadsTo(list, events[n].path) && alive(t, n) then Weigh(events[n].size, m) else 0)
  {
    if list != [] {
      LastEventUnder(events, alive, t, list[..|list| - 1], parent, m);
      ChildrenLeadApart(list, parent, events[|events| - 1].path);
    }
  }

  lemma {:induction false} ChildrenHoldNoMore(events: seq<Event>, alive: Liveness, t: nat, list: seq<Path>, parent: Path, m: Measure)
    requires AreChildren(list, parent)
    ensures LiveUnder(events, alive, t, list, m) <= Live(events, alive, t, parent, m)
  {
    if events == [] {
      NoEventsNoLive(alive, t, list, m);
    } else {
      ChildrenHoldNoMore(events[..|events| - 1], alive, t, list, parent, m);
      LastEventUnder(events, alive, t, list, parent, m);
      if list != [] {
        ChildrenLeadApart(list, parent, events[|events| - 1].path);
      }
    }
  }

  lemma {:induction false} NoEventsNoLive(alive: Liveness, t: nat, list: seq<Path>, m: Measure)
    ensures LiveUnder([], alive, t, list, m) == 0
  {
    if list != [] {
      NoEventsNoLive(alive, t, list[..|list| - 1], m);
    }
  }

  lemma {:induction false} LiveUnderFades(events: seq<Event>, alive: Liveness, t: nat, t': nat, list: seq<Path>, m: Measure)
    requires NothingComesBack(alive) && t <= t'
    ensures LiveUnder(events, alive, t', list, m) <= LiveUnder(events, alive, t, list, m)
  {
    if list != [] {
      LiveUnderFades(events, alive, t, t', list[..|list| - 1], m);
      LiveFades(events, alive, t, t', list[|list| - 1], m);
    }
  }

  // ---- the walk

  datatype Row = Row(id: int, parentId: int, path: Path, allocatedSize: nat, instanceCount: nat)

  function Of(r: Row, m: Measure): nat {
    if m == Instances then r.instanceCount else r.allocatedSize
  }

  /** What a walk works on: the trie, each node's children in some order, and the collector. */
  datatype Heap = Heap(events: seq<Event>, children: map<Path, seq<Path>>, alive: Liveness)

  function ChildrenOf(h: Heap, p: Path): seq<Path> {
    if p in h.children then h.children[p] else []
  }

  /** The lists hold exactly the nodes of the trie, each in its parent's list, once. */
  ghost predicate Grouped(events: seq<Event>, children: map<Path, seq<Path>>) {
    && (forall p :: p in children ==> AreChildren(children[p], p))
    && (forall p :: p in children ==> forall k :: 0 <= k < |children[p]| ==> Known(events, children[p][k]))
    && (forall p: Path :: Known(events, p) ==> p[..|p| - 1] in children && p in children[p[..|p| - 1]])
  }

  ghost predicate Settled(h: Heap) {
    Grouped(h.events, h.children) && NothingComesBack(h.alive)
  }

  function LongestPath(events: seq<Event>): nat {
    if events == [] then 0
    else
      var before := LongestPath(events[..|events| - 1]);
      if before < |events[|events| - 1].path| then |events[|events| - 1].path| else before
  }

  lemma {:induction false} KnownIsShort(events: seq<Event>, p: Path)
    requires SamplesAt(events, p) != []
    ensures |p| <= LongestPath(events)
  {
    if !(p <= events[|events| - 1].path) {
      KnownIsShort(events[..|events| - 1], p);
    }
  }

  /** A list a walk can be sent along: nodes of the trie below `parent`. */
  predicate Walkable(h: Heap, list: seq<Path>, parent: Path) {
    && AreChildren(list, parent)
    && |parent| <= LongestPath(h.events)
    && forall k :: 0 <= k < |list| ==> Known(h.events, list[k]) && |list[k]| <= LongestPath(h.events)
  }

  lemma ChildrenAreWalkable(h: Heap, p: Path)
    requires Settled(h) && (p == [] || Known(h.events, p))
    ensures Walkable(h, ChildrenOf(h, p), p) && |p| <= LongestPath(h.events)
  {
    if p != [] {
      KnownIsShort(h.events, p);
    }
    if p in h.children {
      forall k | 0 <= k < |h.children[p]|
        ensures |h.children[p][k]| <= LongestPath(h.events)
      {
        KnownIsShort(h.events, h.children[p][k]);
      }
    }
  }

  /** The rows made so far and the moment reached. */
  datatype Scan = Scan(rows: seq<Row>, moment: nat)

  ghost function AppendedAll(h: Heap, parent: Path, list: seq<Path>, parentId: int, s: Scan): Scan
    requires Settled(h) && Walkable(h, list, parent)
    decreases LongestPath(h.events) - |parent|, 0, |list|
  {
    if list == [] then s
    else
      hide Settled, Known, LongestPath;
      var n := |list| - 1;
      AppendedOne(h, list[n], parentId, AppendedAll(h, parent, list[..n], parentId, s))
  }

  ghost function RowFor(h: Heap, path: Path, parentId: int, s: Scan): Row {
    var samples := SamplesAt(h.events, path);
    Row(|s.rows|, parentId, path, LiveTotal(samples, h.alive, s.moment, Bytes),
        LiveTotal(samples, h.alive, s.moment, Instances))
  }

  ghost function AppendedOne(h: Heap, path: Path, parentId: int, s: Scan): Scan
    requires Settled(h) && Known(h.events, path) && |path| <= LongestPath(h.events)
    decreases LongestPath(h.events) - |path|, 1, 0
  {
    ChildrenAreWalkable(h, path);
    var row := RowFor(h, path, parentId, s);
    var next := s.moment + |SamplesAt(h.events, path)|;
    if row.instanceCount == 0 then Scan(s.rows, next)
    else AppendedAll(h, path, ChildrenOf(h, path), |s.rows|, Scan(s.rows + [row], next))
  }

  ghost function Snapshot(h: Heap, moment: nat): Scan
    requires Settled(h)
  {
    ChildrenAreWalkable(h, []);
    AppendedAll(h, [], ChildrenOf(h, []), -1, Scan([], moment))
  }

  // ---- numbering

  predicate Extends(s: Scan, r: Scan) {
    s.rows <= r.rows && s.moment <= r.moment
  }

  /** A row appended by a walk below `top`: it hangs under `parentId` or under another such row. */
  predicate HangsRight(rows: seq<Row>, from: nat, k: nat, top: Path, parentId: int)
    requires k < |rows|
  {
    var r := rows[k];
    && r.id == k && r.instanceCount > 0 && top < r.path
    && (if r.parentId == parentId then r.path[..|r.path| - 1] == top
        else from <= r.parentId < k && rows[r.parentId].path == r.path[..|r.path| - 1])
  }

  ghost predicate AllHangRight(rows: seq<Row>, from: nat, top: Path, parentId: int) {
    forall k :: from <= k < |rows| ==> HangsRight(rows, from, k, top, parentId)
  }

  lemma HangsStill(rows: seq<Row>, rows': seq<Row>, from: nat, from': nat, k: nat, top: Path, parentId: int)
    requires rows <= rows' && k < |rows| && from' <= from && HangsRight(rows, from, k, top, parentId)
    ensures HangsRight(rows', from', k, top, parentId)
  {
  }

  lemma {:induction false} AppendedAllHangs(h: Heap, parent: Path, list: seq<Path>, parentId: int, s: Scan)
    requires Settled(h) && Walkable(h, list, parent) && -1 <= parentId < |s.rows|
    ensures
      var r := AppendedAll(h, parent, list, parentId, s);
      Extends(s, r) && AllHangRight(r.rows, |s.rows|, parent, parentId)
    decreases LongestPath(h.events) - |parent|, 0, |list|
  {
    hide Settled, LongestPath, HangsRight, Known;
    if list != [] {
      var n := |list| - 1;
      var m := AppendedAll(h, parent, list[..n], parentId, s);
      AppendedAllHangs(h, parent, list[..n], parentId, s);
      AppendedOneHangs(h, parent, list[n], parentId, m);
      JoinHangs(s, m, AppendedOne(h, list[n], parentId, m), parent, parentId);
    }
  }

  lemma JoinHangs(s: Scan, m: Scan, r: Scan, parent: Path, parentId: int)
    requires Extends(s, m) && Extends(m, r)
    requires AllHangRight(m.rows, |s.rows|, parent, parentId) && AllHangRight(r.rows, |m.rows|, parent, parentId)
    ensures AllHangRight(r.rows, |s.rows|, parent, parentId)
  {
    forall k | |s.rows| <= k < |r.rows|
      ensures HangsRight(r.rows, |s.rows|, k, parent, parentId)
    {
      if k < |m.rows| {
        HangsStill(m.rows, r.rows, |s.rows|, |s.rows|, k, parent, parentId);
      } else {
        HangsStill(r.rows, r.rows, |m.rows|, |s.rows|, k, parent, parentId);
      }
    }
  }

  lemma {:induction false} AppendedOneHangs(h: Heap, parent: Path, path: Path, parentId: int, s: Scan)
    requires Settled(h) && Known(h.events, path) && |path| <= LongestPath(h.events)
    requires path[..|path| - 1] == parent && -1 <= parentId < |s.rows|
    ensures
      var r := AppendedOne(h, path, parentId, s);
      Extends(s, r) && AllHangRight(r.rows, |s.rows|, parent, parentId)
    decreases LongestPath(h.events) - |path|, 1, 0
  {
    hide Settled, HangsRight, SamplesAt, LiveTotal, LongestPath, Walkable;
    ChildrenAreWalkable(h, path);
    var row := RowFor(h, path, parentId, s);
    if row.instanceCount > 0 {
      var s1 := Scan(s.rows + [row], s.moment + |SamplesAt(h.events, path)|);
      AppendedAllHangs(h, path, ChildrenOf(h, path), |s.rows|, s1);
      UnderNewRow(s.rows, row, AppendedOne(h, path, parentId, s).rows, parent);
    }
  }

  lemma UnderNewRow(rows: seq<Row>, row: Row, rows': seq<Row>, parent: Path)
    requires rows + [row] <= rows' && row.id == |rows| && row.instanceCount > 0 && -1 <= row.parentId < |rows|
    requires row.path != [] && row.path[..|row.path| - 1] == parent
    requires AllHangRight(rows', |rows| + 1, row.path, |rows|)
    ensures AllHangRight(rows', |rows|, parent, row.parentId)
  {
    assert parent < row.path;
    forall k | |rows| <= k < |rows'|
      ensures HangsRight(rows', |rows|, k, parent, row.parentId)
    {
      if k > |rows| {
        assert HangsRight(rows', |rows| + 1, k, row.path, |rows|);
        assert rows'[k].path[..|parent|] == parent;
      } else {
        assert rows'[k] == row;
      }
    }
  }

  // ---- every path at most once

  predicate Distinct(rows: seq<Row>, from: nat) {
    forall j, k :: from <= j < k < |rows| ==> rows[j].path != rows[k].path
  }

  predicate AllLed(rows: seq<Row>, from: nat, list: seq<Path>) {
    forall k :: from <= k < |rows| ==> AnyLeadsTo(list, rows[k].path)
  }

  predicate AllBelow(rows: seq<Row>, from: nat, path: Path) {
    forall k :: from <= k < |rows| ==> path <= rows[k].path
  }

  lemma {:induction false} AppendedAllDistinct(h: Heap, parent: Path, list: seq<Path>, parentId: int, s: Scan)
    requires Settled(h) && Walkable(h, list, parent)
    ensures
      var r := AppendedAll(h, parent, list, parentId, s);
      s.rows <= r.rows && AllLed(r.rows, |s.rows|, list) && Distinct(r.rows, |s.rows|)
    decreases LongestPath(h.events) - |parent|, 0, |list|
  {
    hide Settled, Known, LongestPath;
    if list != [] {
      var n := |list| - 1;
      var m := AppendedAll(h, parent, list[..n], parentId, s);
      AppendedAllDistinct(h, parent, list[..n], parentId, s);
      AppendedOneDistinct(h, list[n], parentId, m);
      JoinDistinct(s.rows, m.rows, AppendedOne(h, list[n], parentId, m).rows, list, parent);
    }
  }

  lemma JoinDistinct(rows: seq<Row>, mid: seq<Row>, all: seq<Row>, list: seq<Path>, parent: Path)
    requires list != [] && AreChildren(list, parent) && rows <= mid <= all
    requires AllLed(mid, |rows|, list[..|list| - 1]) && Distinct(mid, |rows|)
    requires AllBelow(all, |mid|, list[|list| - 1]) && Distinct(all, |mid|)
    ensures rows <= all && AllLed(all, |rows|, list) && Distinct(all, |rows|)
  {
    forall k | |rows| <= k < |all|
      ensures AnyLeadsTo(list, all[k].path)
    {
      assert k < |mid| ==> all[k] == mid[k];
    }
    forall j, k | |rows| <= j < k < |all|
      ensures all[j].path != all[k].path
    {
      if j < |mid| {
        assert all[j] == mid[j];
        if k < |mid| {
          assert all[k] == mid[k];
        } else {
          ChildrenLeadApart(list, parent, all[k].path);
        }
      }
    }
  }

  lemma {:induction false} AppendedOneDistinct(h: Heap, path: Path, parentId: int, s: Scan)
    requires Settled(h) && Known(h.events, path) && |path| <= LongestPath(h.events)
    ensures
      var r := AppendedOne(h, path, parentId, s);
      s.rows <= r.rows && AllBelow(r.rows, |s.rows|, path) && Distinct(r.rows, |s.rows|)
    decreases LongestPath(h.events) - |path|, 1, 0
  {
    hide Settled, SamplesAt, LiveTotal, LongestPath;
    ChildrenAreWalkable(h, path);
    var row := RowFor(h, path, parentId, s);
    if row.instanceCount > 0 {
      var s1 := Scan(s.rows + [row], s.moment + |SamplesAt(h.events, path)|);
      AppendedAllDistinct(h, path, ChildrenOf(h, path), |s.rows|, s1);
      NewRowFirst(s.rows, row, AppendedOne(h, path, parentId, s).rows, ChildrenOf(h, path));
    }
  }

  lemma NewRowFirst(rows: seq<Row>, row: Row, all: seq<Row>, list: seq<Path>)
    requires AreChildren(list, row.path) && rows + [row] <= all
    requires AllLed(all, |rows| + 1, list) && Distinct(all, |rows| + 1)
    ensures rows <= all && AllBelow(all, |rows|, row.path) && Distinct(all, |rows|)
  {
    assert all[|rows|] == row;
    forall k | |rows| < k < |all|
      ensures row.path < all[k].path
    {
      var c := ThatOneLeadsTo(list, all[k].path);
      assert all[k].path[..|row.path|] == row.path;
    }
  }

  // ---- what a row reports was alive when the walk ended, and was alive when it began

  ghost predicate ReportsFairly(h: Heap, r: Row, begin: nat, end: nat) {
    && Known(h.events, r.path)
    && Within(h, r, begin, end, Instances)
    && Within(h, r, begin, end, Bytes)
  }

  predicate Within(h: Heap, r: Row, begin: nat, end: nat, m: Measure) {
    Live(h.events, h.alive, end, r.path, m) <= Of(r, m) <= Live(h.events, h.alive, begin, r.path, m)
  }

  ghost predicate AllFair(h: Heap, rows: seq<Row>, from: nat, begin: nat, end: nat) {
    forall k :: from <= k < |rows| ==> ReportsFairly(h, rows[k], begin, end)
  }

  lemma LongerSpanIsFair(h: Heap, r: Row, begin: nat, end: nat, begin': nat, end': nat)
    requires NothingComesBack(h.alive) && begin' <= begin && end <= end' && ReportsFairly(h, r, begin, end)
    ensures ReportsFairly(h, r, begin', end')
  {
    forall m: Measure
      ensures Within(h, r, begin, end, m) ==> Within(h, r, begin', end', m)
    {
      LiveFades(h.events, h.alive, begin', begin, r.path, m);
      LiveFades(h.events, h.alive, end, end', r.path, m);
    }
  }

  lemma JoinFair(h: Heap, s: Scan, m: Scan, r: Scan)
    requires NothingComesBack(h.alive) && Extends(s, m) && Extends(m, r)
    requires AllFair(h, m.rows, |s.rows|, s.moment, m.moment) && AllFair(h, r.rows, |m.rows|, m.moment, r.moment)
    ensures AllFair(h, r.rows, |s.rows|, s.moment, r.moment)
  {
    forall k | |s.rows| <= k < |r.rows|
      ensures ReportsFairly(h, r.rows[k], s.moment, r.moment)
    {
      if k < |m.rows| {
        assert r.rows[k] == m.rows[k];
        LongerSpanIsFair(h, r.rows[k], s.moment, m.moment, s.moment, r.moment);
      } else {
        LongerSpanIsFair(h, r.rows[k], m.moment, r.moment, s.moment, r.moment);
      }
    }
  }

  lemma RowForIsFair(h: Heap, path: Path, parentId: int, s: Scan)
    requires Settled(h) && Known(h.events, path)
    ensures ReportsFairly(h, RowFor(h, path, parentId, s), s.moment, s.moment + |SamplesAt(h.events, path)|)
  {
    hide Grouped, Known, SamplesAt, Live, LiveTotal;
    var end := s.moment + |SamplesAt(h.events, path)|;
    LookIsBetween(h.events, h.alive, s.moment, end, path, Instances);
    LookIsBetween(h.events, h.alive, s.moment, end, path, Bytes);
  }

  lemma {:induction false} AppendedAllFair(h: Heap, parent: Path, list: seq<Path>, parentId: int, s: Scan)
    requires Settled(h) && Walkable(h, list, parent)
    ensures
      var r := AppendedAll(h, parent, list, parentId, s);
      Extends(s, r) && AllFair(h, r.rows, |s.rows|, s.moment, r.moment)
    decreases LongestPath(h.events) - |parent|, 0, |list|
  {
    hide Grouped, Known, LongestPath, ReportsFairly;
    if list != [] {
      var n := |list| - 1;
      var m := AppendedAll(h, parent, list[..n], parentId, s);
      AppendedAllFair(h, parent, list[..n], parentId, s);
      AppendedOneFair(h, list[n], parentId, m);
      JoinFair(h, s, m, AppendedOne(h, list[n], parentId, m));
    }
  }

  lemma {:induction false} AppendedOneFair(h: Heap, path: Path, parentId: int, s: Scan)
    requires Settled(h) && Known(h.events, path) && |path| <= LongestPath(h.events)
    ensures
      var r := AppendedOne(h, path, parentId, s);
      Extends(s, r) && AllFair(h, r.rows, |s.rows|, s.moment, r.moment)
    decreases LongestPath(h.events) - |path|, 1, 0
  {
    hide Grouped, SamplesAt, LongestPath, ReportsFairly, RowFor;
    ChildrenAreWalkable(h, path);
    var row := RowFor(h, path, parentId, s);
    if row.instanceCount > 0 {
      var s1 := Scan(s.rows + [row], s.moment + |SamplesAt(h.events, path)|);
      AppendedAllFair(h, path, ChildrenOf(h, path), |s.rows|, s1);
      RowForIsFair(h, path, parentId, s);
      JoinFair(h, s, s1, AppendedOne(h, path, parentId, s));
    }
  }

  // ---- children never report more than their parent

  /** What the rows hanging under row `id` report together. */
  function UnderRow(rows: seq<Row>, id: int, m: Measure): nat {
    if rows == [] then 0
    else
      var last := rows[|rows| - 1];
      UnderRow(rows[..|rows| - 1], id, m) + (if last.parentId == id then Of(last, m) else 0)
  }

  predicate ParentsBefore(rows: seq<Row>) {
    forall k :: 0 <= k < |rows| ==> rows[k].parentId < k
  }

  lemma {:induction false} NothingUnderNewRow(rows: seq<Row>, id: int, m: Measure)
    requires ParentsBefore(rows) && |rows| - 1 <= id
    ensures UnderRow(rows, id, m) == 0
  {
    if rows != [] {
      NothingUnderNewRow(rows[..|rows| - 1], id, m);
    }
  }

  lemma RowAdded(rows: seq<Row>, r: Row, id: int, m: Measure)
    ensures UnderRow(rows + [r], id, m) == UnderRow(rows, id, m) + (if r.parentId == id then Of(r, m) else 0)
  {
    assert (rows + [r])[..|rows|] == rows;
  }

  predicate HoldsItsChildren(rows: seq<Row>, k: nat, m: Measure)
    requires k < |rows|
  {
    UnderRow(rows, k, m) <= Of(rows[k], m)
  }

  /**
   * What a walk did to the sums: rows there before keep theirs, except the one walked under, whose sum grew
   * by at most `added`; new rows hold their children.
   */
  ghost predicate Weighed(rows: seq<Row>, all: seq<Row>, parentId: int, added: nat, m: Measure) {
    && rows <= all && ParentsBefore(all)
    && (forall j :: -1 <= j < |rows| && j != parentId ==> UnderRow(all, j, m) == UnderRow(rows, j, m))
    && (forall j :: |rows| <= j < |all| ==> HoldsItsChildren(all, j, m))
    && UnderRow(all, parentId, m) <= UnderRow(rows, parentId, m) + added
  }

  lemma JoinWeighed(rows: seq<Row>, mid: seq<Row>, all: seq<Row>, parentId: int, a: nat, b: nat, c: nat, m: Measure)
    requires Weighed(rows, mid, parentId, a, m) && Weighed(mid, all, parentId, b, m) && parentId < |rows|
    requires a + b <= c
    ensures Weighed(rows, all, parentId, c, m)
  {
    hide UnderRow;
    forall j | |rows| <= j < |all|
      ensures HoldsItsChildren(all, j, m)
    {
      if j < |mid| {
        assert HoldsItsChildren(mid, j, m);
      }
    }
  }

  lemma {:induction false} AppendedAllWeighed(h: Heap, parent: Path, list: seq<Path>, parentId: int, s: Scan, m: Measure)
    requires Settled(h) && Walkable(h, list, parent) && -1 <= parentId < |s.rows| && ParentsBefore(s.rows)
    ensures Weighed(s.rows, AppendedAll(h, parent, list, parentId, s).rows, parentId,
                    LiveUnder(h.events, h.alive, s.moment, list, m), m)
    decreases LongestPath(h.events) - |parent|, 0, |list|
  {
    hide Grouped, Known, LongestPath, UnderRow, Weighed, Live, RowFor;
    if list == [] {
      NothingAdded(s.rows, parentId, m);
    } else {
      var n := |list| - 1;
      var mid := AppendedAll(h, parent, list[..n], parentId, s);
      AppendedAllWeighed(h, parent, list[..n], parentId, s, m);
      AppendedAllFair(h, parent, list[..n], parentId, s);
      WeighedKeepsOrder(s.rows, mid.rows, parentId, LiveUnder(h.events, h.alive, s.moment, list[..n], m), m);
      LiveFades(h.events, h.alive, s.moment, mid.moment, list[n], m);
      AppendedOneWeighed(h, list[n], parentId, mid, m);
      JoinWeighed(s.rows, mid.rows, AppendedOne(h, list[n], parentId, mid).rows, parentId,
                  LiveUnder(h.events, h.alive, s.moment, list[..n], m),
                  Live(h.events, h.alive, mid.moment, list[n], m),
                  LiveUnder(h.events, h.alive, s.moment, list, m), m);
    }
  }

  lemma NothingAdded(rows: seq<Row>, parentId: int, m: Measure)
    requires ParentsBefore(rows)
    ensures Weighed(rows, rows, parentId, 0, m)
  {
  }

  lemma AtMost(rows: seq<Row>, all: seq<Row>, parentId: int, a: nat, b: nat, m: Measure)
    requires Weighed(rows, all, parentId, a, m) && a <= b
    ensures Weighed(rows, all, parentId, b, m)
  {
  }

  lemma WeighedKeepsOrder(rows: seq<Row>, all: seq<Row>, parentId: int, a: nat, m: Measure)
    requires Weighed(rows, all, parentId, a, m)
    ensures rows <= all && ParentsBefore(all)
  {
  }

  lemma {:induction false} AppendedOneWeighed(h: Heap, path: Path, parentId: int, s: Scan, m: Measure)
    requires Settled(h) && Known(h.events, path) && |path| <= LongestPath(h.events)
    requires -1 <= parentId < |s.rows| && ParentsBefore(s.rows)
    ensures Weighed(s.rows, AppendedOne(h, path, parentId, s).rows, parentId,
                    Live(h.events, h.alive, s.moment, path, m), m)
    decreases LongestPath(h.events) - |path|, 1, 0
  {
    hide Grouped, SamplesAt, LongestPath, Live, LiveUnder, UnderRow, Weighed;
    ChildrenAreWalkable(h, path);
    var row := RowFor(h, path, parentId, s);
    var added := Live(h.events, h.alive, s.moment, path, m);
    if row.instanceCount == 0 {
      NothingAdded(s.rows, parentId, m);
      AtMost(s.rows, s.rows, parentId, 0, added, m);
    } else {
      var s1 := Scan(s.rows + [row], s.moment + |SamplesAt(h.events, path)|);
      var list := ChildrenOf(h, path);
      AppendedAllWeighed(h, path, list, |s.rows|, s1, m);
      ChildrenHoldNoMore(h.events, h.alive, s1.moment, list, path, m);
      RowForIsFair(h, path, parentId, s);
      var all := AppendedOne(h, path, parentId, s).rows;
      AtMost(s1.rows, all, |s.rows|, LiveUnder(h.events, h.alive, s1.moment, list, m), Of(row, m), m);
      NewRowWeighed(s.rows, row, all, m);
      AtMost(s.rows, all, parentId, Of(row, m), added, m);
    }
  }

  lemma NewRowWeighed(rows: seq<Row>, row: Row, all: seq<Row>, m: Measure)
    requires ParentsBefore(rows) && -1 <= row.parentId < |rows|
    requires Weighed(rows + [row], all, |rows|, Of(row, m), m)
    ensures Weighed(rows, all, row.parentId, Of(row, m), m)
  {
    hide UnderRow;
    var rows1 := rows + [row];
    NothingUnderNewRow(rows, |rows|, m);
    RowAdded(rows, row, |rows|, m);
    assert all[|rows|] == row;
    forall j | -1 <= j < |rows|
      ensures UnderRow(all, j, m) == UnderRow(rows, j, m) + (if row.parentId == j then Of(row, m) else 0)
    {
      RowAdded(rows, row, j, m);
    }
  }

  // ---- skipping a node without live samples hides nothing alive

  lemma {:induction false} LiveAbove(events: seq<Event>, alive: Liveness, t: nat, p: Path, q: Path)
    requires p <= q && Live(events, alive, t, q, Instances) > 0
    ensures Live(events, alive, t, p, Instances) > 0
  {
    var n := |events| - 1;
    if q <= events[n].path {
      assert events[n].path[..|p|] == p;
    }
    if Live(events[..n], alive, t, q, Instances) > 0 {
      LiveAbove(events[..n], alive, t, p, q);
    }
  }

  lemma {:induction false} LiveIsKnown(events: seq<Event>, alive: Liveness, t: nat, p: Path)
    requires p != [] && Live(events, alive, t, p, Instances) > 0
    ensures Known(events, p)
  {
    var n := |events| - 1;
    if !(p <= events[n].path) {
      LiveIsKnown(events[..n], alive, t, p);
    }
  }

  lemma {:induction false} LeadsThere(list: seq<Path>, k: nat, path: Path)
    requires k < |list| && list[k] <= path
    ensures AnyLeadsTo(list, path)
  {
    if k < |list| - 1 {
      LeadsThere(list[..|list| - 1], k, path);
    }
  }

  /** One of a live node's children leads to any live node further down. */
  lemma AChildLeads(h: Heap, t: nat, path: Path, q: Path)
    requires Settled(h) && path < q && Live(h.events, h.alive, t, q, Instances) > 0
    ensures AnyLeadsTo(ChildrenOf(h, path), q)
  {
    var child := q[..|path| + 1];
    assert child[..|path|] == path;
    LiveAbove(h.events, h.alive, t, child, q);
    LiveIsKnown(h.events, h.alive, t, child);
    var list := h.children[path];
    var k :| 0 <= k < |list| && list[k] == child;
    LeadsThere(list, k, q);
  }

  lemma {:induction false} AppendedAllFinds(h: Heap, parent: Path, list: seq<Path>, parentId: int, s: Scan, q: Path)
    returns (k: nat)
    requires Settled(h) && Walkable(h, list, parent) && AnyLeadsTo(list, q)
    requires Live(h.events, h.alive, AppendedAll(h, parent, list, parentId, s).moment, q, Instances) > 0
    ensures
      var r := AppendedAll(h, parent, list, parentId, s);
      |s.rows| <= k < |r.rows| && r.rows[k].path == q
    decreases LongestPath(h.events) - |parent|, 0, |list|
  {
    hide Grouped, Known, LongestPath;
    var n := |list| - 1;
    var m := AppendedAll(h, parent, list[..n], parentId, s);
    var r := AppendedOne(h, list[n], parentId, m);
    AppendedAllFair(h, parent, list[..n], parentId, s);
    AppendedOneFair(h, list[n], parentId, m);
    if list[n] <= q {
      k := AppendedOneFinds(h, list[n], parentId, m, q);
    } else {
      LiveFades(h.events, h.alive, m.moment, r.moment, q, Instances);
      k := AppendedAllFinds(h, parent, list[..n], parentId, s, q);
    }
  }

  lemma {:induction false} AppendedOneFinds(h: Heap, path: Path, parentId: int, s: Scan, q: Path) returns (k: nat)
    requires Settled(h) && Known(h.events, path) && |path| <= LongestPath(h.events) && path <= q
    requires Live(h.events, h.alive, AppendedOne(h, path, parentId, s).moment, q, Instances) > 0
    ensures
      var r := AppendedOne(h, path, parentId, s);
      |s.rows| <= k < |r.rows| && r.rows[k].path == q
    decreases LongestPath(h.events) - |path|, 1, 0
  {
    hide Grouped, SamplesAt, LongestPath, Live, LiveTotal;
    ChildrenAreWalkable(h, path);
    var r := AppendedOne(h, path, parentId, s);
    var row := RowFor(h, path, parentId, s);
    var s1 := Scan(s.rows + [row], s.moment + |SamplesAt(h.events, path)|);
    var list := ChildrenOf(h, path);
    if row.instanceCount > 0 {
      AppendedAllFair(h, path, list, |s.rows|, s1);
      if q == path {
        k := |s.rows|;
      } else {
        AChildLeads(h, r.moment, path, q);
        k := AppendedAllFinds(h, path, list, |s.rows|, s1, q);
      }
    } else {
      LiveAbove(h.events, h.alive, r.moment, path, q);
      RowForIsFair(h, path, parentId, s);
      assert false;
    }
  }

  // ---- the whole snapshot

  /** Rows are numbered by position and hang under the earlier row of their one-shorter path; no path twice. */
  lemma SnapshotIsATree(h: Heap, moment: nat)
    requires Settled(h)
    ensures
      var rows := Snapshot(h, moment).rows;
      && Distinct(rows, 0)
      && forall k :: 0 <= k < |rows| ==> HangsRight(rows, 0, k, [], -1)
  {
    hide Grouped, HangsRight;
    ChildrenAreWalkable(h, []);
    var list := ChildrenOf(h, []);
    AppendedAllHangs(h, [], list, -1, Scan([], moment));
    AppendedAllDistinct(h, [], list, -1, Scan([], moment));
  }

  /** Every row reports what was alive at some time during the walk, and at least what its children report together. */
  lemma SnapshotIsFair(h: Heap, moment: nat, k: nat, m: Measure)
    requires Settled(h) && k < |Snapshot(h, moment).rows|
    ensures
      var s := Snapshot(h, moment);
      && Live(h.events, h.alive, s.moment, s.rows[k].path, m) <= Of(s.rows[k], m)
      && Of(s.rows[k], m) <= Live(h.events, h.alive, moment, s.rows[k].path, m)
      && UnderRow(s.rows, k, m) <= Of(s.rows[k], m)
  {
    hide Grouped, Live, LiveUnder, UnderRow;
    ChildrenAreWalkable(h, []);
    var list := ChildrenOf(h, []);
    AppendedAllFair(h, [], list, -1, Scan([], moment));
    AppendedAllWeighed(h, [], list, -1, Scan([], moment), m);
    var s := Snapshot(h, moment);
    assert ReportsFairly(h, s.rows[k], moment, s.moment);
    assert HoldsItsChildren(s.rows, k, m);
  }

  /** A path that still holds a live object when the walk ends has its row. */
  lemma SnapshotHidesNothingAlive(h: Heap, moment: nat, q: Path) returns (k: nat)
    requires Settled(h) && q != []
    requires Live(h.events, h.alive, Snapshot(h, moment).moment, q, Instances) > 0
    ensures k < |Snapshot(h, moment).rows| && Snapshot(h, moment).rows[k].path == q
  {
    hide Grouped, Live;
    ChildrenAreWalkable(h, []);
    AChildLeads(h, Snapshot(h, moment).moment, [], q);
    k := AppendedAllFinds(h, [], ChildrenOf(h, []), -1, Scan([], moment), q);
  }

  /** Every sample of a node is a sample of each node above it. */
  lemma {:induction false} SamplesContainThoseBelow(events: seq<Event>, p: Path, q: Path, x: Sample)
    requires p <= q && x in SamplesAt(events, q)
    ensures x in SamplesAt(events, p)
  {
    var n := |events| - 1;
    if q <= events[n].path {
      assert events[n].path[..|p|] == p;
    }
    if x in SamplesAt(events[..n], q) {
      SamplesContainThoseBelow(events[..n], p, q, x);
    }
  }

  // ---- the code

  /** Children grouped under the path they were recorded with; the order of each list is left open, as a later sort sets it. */
  method GroupByParent(stats: map<Path, Stats>, ghost events: seq<Event>) returns (children: map<Path, seq<Path>>)
    requires Represents(stats, events)
    ensures Grouped(events, children)
  {
    children := map[];
    var left := stats.Keys;
    ghost var done: set<Path> := {};
    while left != {}
      invariant left + done == stats.Keys && left !! done
      invariant GroupedSoFar(done, children)
    {
      var path :| path in left;
      var parentPath := stats[path].parentPath;
      var siblings := if parentPath in children then children[parentPath] else [];
      GroupOneMore(done, children, path);
      children := children[parentPath := siblings + [path]];
      left, done := left - {path}, done + {path};
    }
  }

  predicate ListedIn(done: set<Path>, list: seq<Path>, parent: Path) {
    AreChildren(list, parent) && forall k :: 0 <= k < |list| ==> list[k] in done
  }

  predicate Listed(children: map<Path, seq<Path>>, p: Path)
    requires p != []
  {
    p[..|p| - 1] in children && p in children[p[..|p| - 1]]
  }

  ghost predicate GroupedSoFar(done: set<Path>, children: map<Path, seq<Path>>) {
    && (forall p :: p in children ==> ListedIn(done, children[p], p))
    && (forall p :: p in done && p != [] ==> Listed(children, p))
  }

  lemma ListOneMore(done: set<Path>, list: seq<Path>, path: Path)
    requires path !in done && path != [] && ListedIn(done, list, path[..|path| - 1])
    ensures ListedIn(done + {path}, list + [path], path[..|path| - 1])
  {
  }

  lemma GroupOneMore(done: set<Path>, children: map<Path, seq<Path>>, path: Path)
    requires GroupedSoFar(done, children) && path !in done && path != []
    ensures
      var parent := path[..|path| - 1];
      var siblings := if parent in children then children[parent] else [];
      GroupedSoFar(done + {path}, children[parent := siblings + [path]])
  {
    var parent := path[..|path| - 1];
    var siblings := if parent in children then children[parent] else [];
    var children' := children[parent := siblings + [path]];
    ListOneMore(done, siblings, path);
    forall p | p in children'
      ensures ListedIn(done + {path}, children'[p], p)
    {
      if p != parent {
        assert ListedIn(done, children[p], p);
      }
    }
    forall p | p in done + {path} && p != []
      ensures Listed(children', p)
    {
      assert p != path ==> Listed(children, p);
    }
    hide ListedIn, Listed;
  }

  lemma NoneAppended(h: Heap, parent: Path, parentId: int, s: Scan)
    requires Settled(h) && |parent| <= LongestPath(h.events)
    ensures Walkable(h, [], parent) && AppendedAll(h, parent, [], parentId, s) == s
  {
  }

  lemma OneMoreAppended(h: Heap, parent: Path, list: seq<Path>, i: nat, parentId: int, s: Scan)
    requires Settled(h) && Walkable(h, list, parent) && i < |list|
    ensures Walkable(h, list[..i], parent) && Walkable(h, list[..i + 1], parent)
    ensures Known(h.events, list[i]) && |list[i]| <= LongestPath(h.events) && |list[i]| == |parent| + 1
    ensures AppendedAll(h, parent, list[..i + 1], parentId, s) ==
      AppendedOne(h, list[i], parentId, AppendedAll(h, parent, list[..i], parentId, s))
  {
    hide Settled, Known, LongestPath, AppendedOne;
    assert list[..i + 1][..i] == list[..i];
  }

  class AllocationSnapshotter {
    var snapshots: seq<Row>
    var moment: nat

    constructor (moment: nat)
      ensures snapshots == [] && this.moment == moment
    {
      snapshots, this.moment := [], moment;
    }

    /** Looks at each sample once. */
    method LiveTotals(samples: seq<Sample>, alive: Liveness) returns (size: nat, count: nat)
      modifies this`moment
      ensures size == LiveTotal(samples, alive, old(moment), Bytes)
      ensures count == LiveTotal(samples, alive, old(moment), Instances)
      ensures moment == old(moment) + |samples|
    {
      size, count := 0, 0;
      for i := 0 to |samples|
        invariant size == LiveTotal(samples[..i], alive, old(moment), Bytes)
        invariant count == LiveTotal(samples[..i], alive, old(moment), Instances)
        invariant moment == old(moment) + i
      {
        assert samples[..i + 1][..i] == samples[..i];
        if alive(moment, samples[i].obj) {
          size := size + samples[i].size;
          count := count + 1;
        }
        moment := moment + 1;
      }
      assert samples[..|samples|] == samples;
    }

    method AppendAllocationSnapshots(stats: map<Path, Stats>, h: Heap, parentPath: Path, parentId: int)
      requires Settled(h) && Represents(stats, h.events) && (parentPath == [] || Known(h.events, parentPath))
      modifies this
      ensures
        Walkable(h, ChildrenOf(h, parentPath), parentPath) &&
        Scan(snapshots, moment) ==
          AppendedAll(h, parentPath, ChildrenOf(h, parentPath), parentId, old(Scan(snapshots, moment)))
      decreases LongestPath(h.events) - |parentPath|
    {
      hide Settled, Grouped, LiveTotal, SamplesAt, SizeAt, LongestPath, Represents, Walkable, AppendedAll;
      ChildrenAreWalkable(h, parentPath);
      NoneAppended(h, parentPath, parentId, Scan(snapshots, moment));
      if parentPath !in h.children {
        return;
      }
      var children := h.children[parentPath];
      ghost var start := Scan(snapshots, moment);
      for i := 0 to |children|
        invariant Walkable(h, children[..i], parentPath)
        invariant Scan(snapshots, moment) == AppendedAll(h, parentPath, children[..i], parentId, start)
      {
        var path := children[i];
        OneMoreAppended(h, parentPath, children, i, parentId, start);
        EntryOf(stats, h.events, path);
        var size, count := LiveTotals(stats[path].liveSamples, h.alive);
        if count == 0 {
          continue;
        }
        var id := |snapshots|;
        snapshots := snapshots + [Row(id, parentId, path, size, count)];
        AppendAllocationSnapshots(stats, h, path, id);
      }
      assert children[..|children|] == children;
    }
  }

  lemma EntryOf(stats: map<Path, Stats>, events: seq<Event>, path: Path)
    requires Represents(stats, events) && Known(events, path)
    ensures path in stats && stats[path].liveSamples == SamplesAt(events, path)
  {
  }
}
