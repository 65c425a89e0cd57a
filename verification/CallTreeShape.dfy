/** The call graph as a tree: its shape, where its nodes come from, and what drawing it shows. */
module CallTreeShape {
  import opened Options
  import opened Forests
  import opened Sequences
  import opened CallTrees
  import opened CallTreeLaws

  // ---- where a node's fields come from

  /** The first event with a key. */
  function FirstEvent(events: seq<Event>, key: Key): (ev: Event)
    requires Hits(events, key) > 0
    ensures ev.key == key && ev in events
  {
    var n := |events| - 1;
    if Hits(events[..n], key) > 0 then FirstEvent(events[..n], key) else events[n]
  }

  predicate ComesFrom(g: Graph, key: Key, first: Event)
    requires NodesIndexed(g)
  {
    && key in g.nodeMap && first.caller in g.nodeMap
    && var node := g.nodes[g.nodeMap[key]];
    && node.parentId == Some(g.nodeMap[first.caller])
    && node.className == first.frame.className && node.methodName == first.frame.methodName
    && node.descriptor == first.frame.descriptor
    && node.fileName == first.frame.fileName && node.lineNumber == first.frame.lineNumber
  }

  lemma NewNodeKeepsOrigin(g: Graph, g1: Graph, ev: Event, interval: real, key: Key, first: Event)
    requires Indexed(g) && Indexed(g1) && ev.caller in g.nodeMap && key != RootKey
    requires g1 == AfterNode(g, g.nodeMap[ev.caller], ev.key, ev.frame, ev.isLeaf, interval)
    requires if key in g.nodeMap then ComesFrom(g, key, first) else ev.key == key && first == ev
    ensures ComesFrom(g1, key, first)
  {
    hide EdgesIndexed;
    NodeIndexIsInjective(g, ev.caller, key);
  }

  lemma StepKeepsOrigin(g: Graph, ev: Event, interval: real, key: Key, first: Event)
    requires Indexed(g) && ev.caller in g.nodeMap && ev.key != RootKey && key != RootKey
    requires if key in g.nodeMap then ComesFrom(g, key, first) else ev.key == key && first == ev
    ensures ComesFrom(Step(g, ev, interval), key, first)
  {
    hide Step, AfterNode, AfterEdge, EdgesIndexed, Extends;
    var g1 := StepNodes(g, ev, interval);
    NewNodeKeepsOrigin(g, g1, ev, interval, key, first);
  }

  /** A node's parent is the caller in its key's first occurrence, and its fields are that frame's. */
  lemma {:induction false} NodeComesFromFirstEvent(events: seq<Event>, interval: real, key: Key)
    requires Chained(events) && key != RootKey && Hits(events, key) > 0
    ensures ComesFrom(Built(events, interval), key, FirstEvent(events, key))
  {
    var prefix, ev := events[..|events| - 1], events[|events| - 1];
    BuiltSplits(events, interval);
    NodeCountsAreExact(prefix, interval, key);
    if Hits(prefix, key) > 0 {
      NodeComesFromFirstEvent(prefix, interval, key);
    }
    StepKeepsOrigin(Built(prefix, interval), ev, interval, key, FirstEvent(events, key));
  }

  predicate KeyedByFrame(events: seq<Event>) {
    forall i :: 0 <= i < |events| ==> events[i].key == ElementKey(events[i].frame)
  }

  lemma {:induction false} TrailIsKeyedByFrame(frames: seq<Element>, n: nat)
    requires n <= |frames|
    ensures KeyedByFrame(Trail(frames, n))
  {
    if n > 0 {
      TrailIsKeyedByFrame(frames, n - 1);
    }
  }

  lemma {:induction false} AllEventsAreKeyedByFrame(threadFilter: string, samples: seq<Sample>)
    ensures KeyedByFrame(AllEvents(threadFilter, samples))
  {
    if samples != [] {
      AllEventsAreKeyedByFrame(threadFilter, samples[..|samples| - 1]);
      var frames := Retained(samples[|samples| - 1].stackTrace);
      TrailIsKeyedByFrame(frames, |frames|);
    }
  }

  /** A node's own names spell the key it is found under. */
  lemma NodeSpellsItsKey(threadFilter: string, samples: seq<Sample>, interval: real, key: Key)
    requires key != RootKey && key in CallTreeOf(threadFilter, samples, interval).nodeMap
    ensures
      var g := CallTreeOf(threadFilter, samples, interval);
      var node := g.nodes[g.nodeMap[key]];
      KeyText(key) == node.className + "::" + node.methodName + node.descriptor
  {
    var events := AllEvents(threadFilter, samples);
    AllEventsChain(threadFilter, samples);
    AllEventsAreKeyedByFrame(threadFilter, samples);
    NodeCountsAreExact(events, interval, key);
    NodeComesFromFirstEvent(events, interval, key);
  }

  // ---- the tree

  /** Node 0 is the root; every other node hangs under an earlier one and is in its child list once. */
  predicate TreeShaped(nodes: seq<Node>) {
    && 0 < |nodes| && nodes[0].parentId == None
    && (forall i :: 0 <= i < |nodes| ==> nodes[i].id == i)
    && (forall i :: 0 < i < |nodes| ==> nodes[i].parentId.Some? && nodes[i].parentId.value < i)
    && forall p :: 0 <= p < |nodes| ==> ChildrenListed(nodes, p)
  }

  predicate ChildrenListed(nodes: seq<Node>, p: nat)
    requires p < |nodes|
  {
    && NoRepeats(nodes[p].children)
    && (forall k :: 0 <= k < |nodes[p].children| ==>
      nodes[p].children[k] < |nodes| && nodes[nodes[p].children[k]].parentId == Some(p))
    && (forall i :: 0 <= i < |nodes| && nodes[i].parentId == Some(p) ==> i in nodes[p].children)
  }

  predicate SameShape(a: seq<Node>, b: seq<Node>) {
    |a| == |b| && forall i :: 0 <= i < |a| ==>
      a[i].id == b[i].id && a[i].parentId == b[i].parentId && a[i].children == b[i].children
  }

  lemma SameShapeSameTree(a: seq<Node>, b: seq<Node>)
    requires SameShape(a, b) && TreeShaped(a)
    ensures TreeShaped(b)
  {
    forall p | 0 <= p < |b| ensures ChildrenListed(b, p) {
      assert ChildrenListed(a, p);
    }
  }

  /** One child list once a new node hangs under a parent. */
  lemma ListedWithNewChild(nodes: seq<Node>, parent: nat, node: Node, p: nat)
    requires TreeShaped(nodes) && parent < |nodes| && p <= |nodes|
    requires node.id == |nodes| && node.parentId == Some(parent) && node.children == []
    ensures ChildrenListed((nodes + [node])[parent := WithChild(nodes[parent], |nodes|)], p)
  {
    var n := |nodes|;
    var r := (nodes + [node])[parent := WithChild(nodes[parent], n)];
    if p < n {
      assert ChildrenListed(nodes, p);
      if p == parent {
        assert n !in nodes[parent].children;
        assert r[p].children == nodes[p].children + [n];
      }
    } else {
      assert forall i :: 0 <= i < n ==> nodes[i].parentId != Some(n);
    }
  }

  /** Hanging a new node under a parent keeps the tree. */
  lemma NewChildKeepsTree(nodes: seq<Node>, parent: nat, node: Node)
    requires TreeShaped(nodes) && parent < |nodes|
    requires node.id == |nodes| && node.parentId == Some(parent) && node.children == []
    ensures TreeShaped((nodes + [node])[parent := WithChild(nodes[parent], |nodes|)])
  {
    hide ChildrenListed;
    var r := (nodes + [node])[parent := WithChild(nodes[parent], |nodes|)];
    forall p | 0 <= p < |r| ensures ChildrenListed(r, p) {
      ListedWithNewChild(nodes, parent, node, p);
    }
  }

  lemma {:induction false} BuiltIsATree(events: seq<Event>, interval: real)
    requires Chained(events)
    ensures TreeShaped(Built(events, interval).nodes)
  {
    if events != [] {
      var prefix, ev := events[..|events| - 1], events[|events| - 1];
      BuiltIsATree(prefix, interval);
      BuiltSplits(events, interval);
      StepKeepsTree(Built(prefix, interval), ev, interval);
    }
  }

  lemma StepKeepsTree(g: Graph, ev: Event, interval: real)
    requires Indexed(g) && ev.caller in g.nodeMap && ev.key != RootKey && TreeShaped(g.nodes)
    ensures TreeShaped(Step(g, ev, interval).nodes)
  {
    hide TreeShaped;
    var g1 := StepNodes(g, ev, interval);
    var parent := g.nodeMap[ev.caller];
    if ev.key in g.nodeMap {
      assert SameShape(g.nodes, g1.nodes);
      SameShapeSameTree(g.nodes, g1.nodes);
    } else {
      NewChildKeepsTree(g.nodes, parent, NewNode(|g.nodes|, parent, ev.frame, ev.isLeaf, interval));
    }
  }

  /** The whole graph of the samples is a rooted tree. */
  lemma CallTreeIsATree(threadFilter: string, samples: seq<Sample>, interval: real)
    ensures TreeShaped(CallTreeOf(threadFilter, samples, interval).nodes)
  {
    AllEventsChain(threadFilter, samples);
    BuiltIsATree(AllEvents(threadFilter, samples), interval);
  }

  // ---- drawing

  function PlaceOf(node: Node): Place {
    if node.parentId.None? then Top else Below(node.parentId.value)
  }

  function ForestOf(nodes: seq<Node>): Forest {
    Forest(seq(|nodes|, i requires 0 <= i < |nodes| => PlaceOf(nodes[i])),
           seq(|nodes|, i requires 0 <= i < |nodes| => nodes[i].children),
           [0])
  }

  lemma TreeIsAForest(nodes: seq<Node>)
    requires TreeShaped(nodes)
    ensures Consistent(ForestOf(nodes))
  {
    var f := ForestOf(nodes);
    forall p | 0 <= p < |f.kids| ensures ListsChildrenOf(f, f.kids[p], Below(p)) {
      assert ChildrenListed(nodes, p);
    }
  }

  function Everything(n: nat): (all: set<nat>)
    ensures forall i: nat :: i in all <==> i < n
  {
    if n == 0 then {} else Everything(n - 1) + {n - 1}
  }

  /** The nodes in the order they are drawn: the root's children, each with everything below it. */
  function Drawn(nodes: seq<Node>): seq<nat>
    requires TreeShaped(nodes)
  {
    TreeIsAForest(nodes);
    assert ChildrenListed(nodes, 0);
    WalkAll(ForestOf(nodes), Everything(|nodes|), nodes[0].children, 1)
  }

  lemma {:induction false} EverythingIsUnderTheRoot(nodes: seq<Node>, j: nat)
    requires TreeShaped(nodes) && ParentsFirst(ForestOf(nodes)) && j < |nodes|
    ensures Under(ForestOf(nodes), Everything(|nodes|), 0, j)
    decreases j
  {
    if j > 0 {
      assert ForestOf(nodes).place[j] == PlaceOf(nodes[j]);
      EverythingIsUnderTheRoot(nodes, nodes[j].parentId.value);
    }
  }

  /** Drawing shows every node but the root, each exactly once. */
  lemma DrawingShowsEachNodeOnce(nodes: seq<Node>, j: nat)
    requires TreeShaped(nodes)
    ensures Times(Drawn(nodes), j) == if 0 < j < |nodes| then 1 else 0
  {
    TreeIsAForest(nodes);
    var f, all := ForestOf(nodes), Everything(|nodes|);
    assert f.kids[0] == nodes[0].children;
    WalkAllCounts(f, all, f.kids[0], Below(0), 1, j);
    if j < |nodes| {
      EverythingIsUnderTheRoot(nodes, j);
      UnderIsSelfOrBelowAKid(f, all, 0, j);
    } else if UnderOneOf(f, all, f.kids[0], j) {
      var k := UnderWhich(f, all, f.kids[0], j);
    }
  }
}
