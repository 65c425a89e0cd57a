/** The method table read off the call graph. */
module HotSpots {
  import opened CallTrees
  import opened CallTreeLaws
  import opened CallTreeSamples
  import opened CallTreeShape

  datatype Row = Row(className: string, methodName: string, descriptor: string,
                     totalSamples: nat, selfSamples: nat, totalMs: real, selfMs: real, invocations: nat)

  /** A float cast to an unsigned integer: truncated, and 0 below 0. */
  function Truncated(x: real): nat {
    if x < 0.0 then 0 else x.Floor
  }

  function RowOf(node: Node): Row {
    Row(node.className, node.methodName, node.descriptor,
        node.callCount, Truncated(node.selfMs / 10.0), node.totalMs, node.selfMs, node.callCount)
  }

  /** Nodes with a call, in order, the root left out. */
  function HotSpotsOf(nodes: seq<Node>): seq<Row> {
    if |nodes| <= 1 then []
    else
      var last := nodes[|nodes| - 1];
      HotSpotsOf(nodes[..|nodes| - 1]) + (if last.callCount > 0 then [RowOf(last)] else [])
  }

  lemma {:induction false} EveryNodeIsHit(nodes: seq<Node>)
    requires forall i :: 0 < i < |nodes| ==> nodes[i].callCount > 0
    ensures |HotSpotsOf(nodes)| == (if nodes == [] then 0 else |nodes| - 1)
    ensures forall i :: 0 < i < |nodes| ==> HotSpotsOf(nodes)[i - 1] == RowOf(nodes[i])
  {
    if |nodes| > 1 {
      EveryNodeIsHit(nodes[..|nodes| - 1]);
    }
  }

  lemma EveryBuiltNodeIsHit(events: seq<Event>, interval: real, i: nat)
    requires Chained(events) && 0 < i < |Built(events, interval).nodes|
    ensures Built(events, interval).nodes[i].callCount > 0
  {
    hide Built, Chained, Hits, LeafHits, Lasting;
    var g := Built(events, interval);
    assert g.nodeMap[g.keys[i]] == i && g.keys[0] == RootKey;
    NodeCountsAreExact(events, interval, g.keys[i]);
  }

  /** The row of a key. */
  function RowFor(g: Graph, key: Key): Row
    requires NodesIndexed(g) && key in g.nodeMap
  {
    RowOf(g.nodes[g.nodeMap[key]])
  }

  /** The table lists the rows of the nodes after the root, one each. */
  lemma TableListsEveryNode(events: seq<Event>, interval: real)
    requires Chained(events)
    ensures
      var nodes := Built(events, interval).nodes;
      && |HotSpotsOf(nodes)| == |nodes| - 1
      && forall i :: 0 < i < |nodes| ==> HotSpotsOf(nodes)[i - 1] == RowOf(nodes[i])
  {
    var nodes := Built(events, interval).nodes;
    forall i | 0 < i < |nodes| ensures nodes[i].callCount > 0 {
      EveryBuiltNodeIsHit(events, interval, i);
    }
    EveryNodeIsHit(nodes);
  }

  /** A key has a row if and only if it was seen, and the row carries the key's counts. */
  lemma RowsCarryCounts(events: seq<Event>, interval: real, key: Key)
    requires Chained(events) && key != RootKey
    ensures
      var g := Built(events, interval);
      && (Hits(events, key) > 0 <==> key in g.nodeMap)
      && (key in g.nodeMap ==>
        && RowFor(g, key).totalSamples == Hits(events, key)
        && RowFor(g, key).selfMs == LeafHits(events, key) as real * interval
        && RowFor(g, key).selfSamples == Truncated(LeafHits(events, key) as real * interval / 10.0))
  {
    hide Built, Chained, Hits, LeafHits, Lasting, Truncated;
    NodeCountsAreExact(events, interval, key);
    LastingIsProduct(LeafHits(events, key), interval);
  }

  /** At the interval the client runs with, every row shows the true number of self samples. */
  lemma SelfSamplesAtTenMs(threadFilter: string, samples: seq<Sample>, key: Key)
    requires key != RootKey
    ensures
      var g := CallTreeOf(threadFilter, samples, 10.0);
      var events := AllEvents(threadFilter, samples);
      && (key in g.nodeMap <==> Hits(events, key) > 0)
      && (key in g.nodeMap ==>
        && RowFor(g, key).selfSamples == LeafHits(events, key)
        && RowFor(g, key).totalSamples == Hits(events, key))
  {
    hide Built, Chained, Hits, LeafHits, AllEvents, RowFor;
    AllEventsChain(threadFilter, samples);
    RowsCarryCounts(AllEvents(threadFilter, samples), 10.0, key);
    SelfSamplesAreRight(LeafHits(AllEvents(threadFilter, samples), key), 10.0);
  }

  /**
   * The table divides by 10 ms whatever the interval is: at another interval it would show the true number of self
   * samples if and only if there are none or the interval is at least 10 ms and close enough to it.
   */
  lemma SelfSamplesAreRight(hits: nat, interval: real)
    requires interval >= 0.0
    ensures Truncated(hits as real * interval / 10.0) == hits <==>
      hits == 0 || (10.0 <= interval && hits as real * (interval - 10.0) < 10.0)
  {
    var h := hits as real;
    assert h * (interval - 10.0) == h * interval - 10.0 * h;
    if hits > 0 {
      if interval < 10.0 {
        assert h * (10.0 - interval) > 0.0;
      } else {
        assert h * (interval - 10.0) >= 0.0;
      }
    }
  }

  // ---- the table, told from the samples

  /** The row of a method, by the text of its name. */
  predicate IsRowOf(row: Row, text: string) {
    row.className + "::" + row.methodName + row.descriptor == text
  }

  /**
   * A method has a row exactly if it is on the stack of some counted sample, and then just one: with the number of
   * positions it is at as its samples, those where it is innermost as its self time, and each at the interval's length.
   */
  lemma TableCountsPositions(threadFilter: string, samples: seq<Sample>, interval: real, k: nat)
    requires k < |HotSpotsOf(CallTreeOf(threadFilter, samples, interval).nodes)|
    ensures
      var rows := HotSpotsOf(CallTreeOf(threadFilter, samples, interval).nodes);
      var text := rows[k].className + "::" + rows[k].methodName + rows[k].descriptor;
      var seen := FramesSeen(threadFilter, samples, |samples|, text);
      && seen > 0 && rows[k].totalSamples == seen && rows[k].invocations == seen
      && rows[k].totalMs == seen as real * interval
      && rows[k].selfMs == LeavesSeen(threadFilter, samples, |samples|, text) as real * interval
      && forall j :: 0 <= j < |rows| && j != k ==> !IsRowOf(rows[j], text)
  {
    hide FramesSeen, LeavesSeen, Built, AllEvents, Chained, HotSpotsOf, EdgesIndexed;
    var g := CallTreeOf(threadFilter, samples, interval);
    AllEventsChain(threadFilter, samples);
    TableListsEveryNode(AllEvents(threadFilter, samples), interval);
    RowSpellsItsKey(threadFilter, samples, interval, k);
    NodesCountPositions(threadFilter, samples, interval, g.keys[k + 1].text);
    forall j | 0 <= j < |HotSpotsOf(g.nodes)| && j != k
      ensures !IsRowOf(HotSpotsOf(g.nodes)[j], g.keys[k + 1].text)
    {
      RowSpellsItsKey(threadFilter, samples, interval, j);
      assert g.nodeMap[g.keys[j + 1]] == j + 1 && g.nodeMap[g.keys[k + 1]] == k + 1;
    }
  }

  lemma RowSpellsItsKey(threadFilter: string, samples: seq<Sample>, interval: real, k: nat)
    requires
      var g := CallTreeOf(threadFilter, samples, interval);
      && |HotSpotsOf(g.nodes)| == |g.nodes| - 1 && k < |HotSpotsOf(g.nodes)|
      && HotSpotsOf(g.nodes)[k] == RowOf(g.nodes[k + 1])
    ensures
      var g := CallTreeOf(threadFilter, samples, interval);
      k + 1 < |g.keys| && g.keys[k + 1].MethodKey? && IsRowOf(HotSpotsOf(g.nodes)[k], g.keys[k + 1].text)
      && g.nodeMap[g.keys[k + 1]] == k + 1
  {
    hide Built, AllEvents, Chained, HotSpotsOf, EdgesIndexed;
    var g := CallTreeOf(threadFilter, samples, interval);
    assert g.keys[0] == RootKey && g.nodeMap[g.keys[k + 1]] == k + 1 && g.nodeMap[RootKey] == 0;
    NodeSpellsItsKey(threadFilter, samples, interval, g.keys[k + 1]);
  }

  /** And every method on a counted stack has its row. */
  lemma TableMissesNoMethod(threadFilter: string, samples: seq<Sample>, interval: real, text: string)
    requires FramesSeen(threadFilter, samples, |samples|, text) > 0
    ensures
      var rows := HotSpotsOf(CallTreeOf(threadFilter, samples, interval).nodes);
      exists k :: 0 <= k < |rows| && IsRowOf(rows[k], text)
  {
    hide FramesSeen, LeavesSeen, Built, AllEvents, Chained, HotSpotsOf, EdgesIndexed;
    var g := CallTreeOf(threadFilter, samples, interval);
    AllEventsChain(threadFilter, samples);
    TableListsEveryNode(AllEvents(threadFilter, samples), interval);
    NodesCountPositions(threadFilter, samples, interval, text);
    var i := g.nodeMap[MethodKey(text)];
    assert g.keys[0] == RootKey && g.keys[i] == MethodKey(text);
    RowSpellsItsKey(threadFilter, samples, interval, i - 1);
  }
}
