/** The merged call graph the client builds from stack samples. */
module CallTrees {
  import opened Options

  datatype Element = Element(
    className: string, methodName: string, descriptor: string, fileName: Option<string>, lineNumber: Option<nat>)

  datatype Sample = Sample(state: string, stackTrace: seq<Element>)

  datatype Node = Node(
    id: nat, parentId: Option<nat>, className: string, methodName: string, descriptor: string,
    fileName: Option<string>, lineNumber: Option<nat>,
    selfMs: real, totalMs: real, callCount: nat, children: seq<nat>)

  datatype Edge = Edge(fromId: nat, toId: nat, callCount: nat, totalMs: real)

  const ROOT := Node(0, None, "root", "all", "", None, None, 0.0, 0.0, 0, [])

  /** What the node map is keyed by: the root's own text, or the text made of a frame's method. */
  datatype Key = RootKey | MethodKey(text: string)

  function KeyText(k: Key): string {
    match k
    case RootKey => "root"
    case MethodKey(text) => text
  }

  function ElementKey(e: Element): Key {
    MethodKey(e.className + "::" + e.methodName + e.descriptor)
  }

  /** No frame's text is the root's, so keying by text and keying by Key are the same. */
  lemma FrameKeysAreNotTheRootKey(e: Element)
    ensures KeyText(ElementKey(e)) != KeyText(RootKey)
  {
    assert KeyText(ElementKey(e))[|e.className|] == ':';
  }

  /** One step of the walk over a sample: a frame with the key of its caller. */
  datatype Event = Event(caller: Key, key: Key, frame: Element, isLeaf: bool)

  /** The graph under construction: keys[i] is node i's key, the maps are the two indexes. */
  datatype Graph = Graph(
    nodes: seq<Node>, keys: seq<Key>, edges: seq<Edge>, nodeMap: map<Key, nat>, edgeMap: map<(nat, nat), nat>)

  const EMPTY_GRAPH := Graph([ROOT], [RootKey], [], map[RootKey := 0], map[])

  /** The node map and the node list are each other's inverse. */
  predicate NodesIndexed(g: Graph) {
    && 0 < |g.nodes| == |g.keys|
    && g.keys[0] == RootKey
    && (forall i :: 0 <= i < |g.keys| ==> g.keys[i] in g.nodeMap && g.nodeMap[g.keys[i]] == i)
    && (forall k :: k in g.nodeMap ==> g.nodeMap[k] < |g.keys| && g.keys[g.nodeMap[k]] == k)
  }

  /** So are the edge map and the edge list; edges join distinct nodes other than the root. */
  predicate EdgesIndexed(g: Graph) {
    && (forall i :: 0 <= i < |g.edges| ==>
      && var e := g.edges[i];
      && 0 < e.fromId < |g.nodes| && 0 < e.toId < |g.nodes| && e.fromId != e.toId
      && (e.fromId, e.toId) in g.edgeMap && g.edgeMap[(e.fromId, e.toId)] == i)
    && (forall p :: p in g.edgeMap ==>
      && g.edgeMap[p] < |g.edges|
      && g.edges[g.edgeMap[p]].fromId == p.0 && g.edges[g.edgeMap[p]].toId == p.1)
  }

  predicate Indexed(g: Graph) {
    NodesIndexed(g) && EdgesIndexed(g)
  }

  function WithHit(node: Node, isLeaf: bool, interval: real): Node {
    node.(totalMs := node.totalMs + interval,
          selfMs := if isLeaf then node.selfMs + interval else node.selfMs,
          callCount := node.callCount + 1)
  }

  function NewNode(idx: nat, parent: nat, frame: Element, isLeaf: bool, interval: real): Node {
    Node(idx, Some(parent), frame.className, frame.methodName, frame.descriptor, frame.fileName, frame.lineNumber,
         if isLeaf then interval else 0.0, interval, 1, [])
  }

  function WithChild(node: Node, child: nat): Node {
    if child in node.children then node else node.(children := node.children + [child])
  }

  function AfterNode(g: Graph, parent: nat, key: Key, frame: Element, isLeaf: bool, interval: real): (r: Graph)
    requires NodesIndexed(g) && parent < |g.nodes|
  {
    if key in g.nodeMap then
      var idx := g.nodeMap[key];
      g.(nodes := g.nodes[idx := WithHit(g.nodes[idx], isLeaf, interval)])
    else
      var idx := |g.nodes|;
      g.(nodes := (g.nodes + [NewNode(idx, parent, frame, isLeaf, interval)])[parent := WithChild(g.nodes[parent], idx)],
         keys := g.keys + [key],
         nodeMap := g.nodeMap[key := idx])
  }

  function AfterEdge(g: Graph, parent: nat, node: nat, interval: real): Graph
    requires EdgesIndexed(g)
  {
    if parent == 0 || parent == node then g
    else if (parent, node) in g.edgeMap then
      var i := g.edgeMap[(parent, node)];
      g.(edges := g.edges[i := g.edges[i].(callCount := g.edges[i].callCount + 1,
                                           totalMs := g.edges[i].totalMs + interval)])
    else
      g.(edges := g.edges + [Edge(parent, node, 1, interval)], edgeMap := g.edgeMap[(parent, node) := |g.edges|])
  }

  /** Nodes are only added, with new keys at the end. */
  predicate Extends(g: Graph, r: Graph) {
    && |g.nodes| <= |r.nodes|
    && (forall k :: k in g.nodeMap ==> k in r.nodeMap && r.nodeMap[k] == g.nodeMap[k])
    && (forall k :: k in r.nodeMap && k !in g.nodeMap ==> r.nodeMap[k] >= |g.nodes|)
  }

  lemma AfterNodeIsIndexed(g: Graph, parent: nat, key: Key, frame: Element, isLeaf: bool, interval: real)
    requires Indexed(g) && parent < |g.nodes| && key != RootKey
    ensures
      var r := AfterNode(g, parent, key, frame, isLeaf, interval);
      && Indexed(r) && Extends(g, r)
      && key in r.nodeMap && 0 < r.nodeMap[key]
  {
  }

  lemma AfterEdgeIsIndexed(g: Graph, parent: nat, node: nat, interval: real)
    requires Indexed(g) && parent < |g.nodes| && 0 < node < |g.nodes|
    ensures Indexed(AfterEdge(g, parent, node, interval))
  {
  }

  lemma AfterNodeKeepsEdges(g: Graph, parent: nat, key: Key, frame: Element, isLeaf: bool, interval: real)
    requires Indexed(g) && parent < |g.nodes|
    ensures
      var r := AfterNode(g, parent, key, frame, isLeaf, interval);
      r.edges == g.edges && r.edgeMap == g.edgeMap
  {
  }

  lemma AfterEdgeKeepsNodes(g: Graph, parent: nat, node: nat, interval: real)
    requires EdgesIndexed(g)
    ensures
      var r := AfterEdge(g, parent, node, interval);
      r.nodes == g.nodes && r.keys == g.keys && r.nodeMap == g.nodeMap
  {
  }

  /** Every event takes up where the one before left off: below its frame, or at the root after a leaf. */
  predicate Chained(events: seq<Event>) {
    events == [] || (
      var n := |events| - 1;
      && Chained(events[..n])
      && events[n].key != RootKey
      && events[n].caller ==
        if n == 0 || events[n - 1].isLeaf then RootKey else events[n - 1].key)
  }

  function Step(g: Graph, ev: Event, interval: real): (r: Graph)
    requires Indexed(g) && ev.caller in g.nodeMap && ev.key != RootKey
    ensures Indexed(r) && RootKey in r.nodeMap && ev.key in r.nodeMap
  {
    var parent, key := g.nodeMap[ev.caller], ev.key;
    AfterNodeIsIndexed(g, parent, key, ev.frame, ev.isLeaf, interval);
    var g1 := AfterNode(g, parent, key, ev.frame, ev.isLeaf, interval);
    AfterEdgeIsIndexed(g1, parent, g1.nodeMap[key], interval);
    AfterEdge(g1, parent, g1.nodeMap[key], interval)
  }

  lemma EmptyGraphIsIndexed()
    ensures Indexed(EMPTY_GRAPH)
  {
  }

  /** The graph of a whole sequence of events. */
  function Built(events: seq<Event>, interval: real): (g: Graph)
    requires Chained(events)
    ensures Indexed(g) && RootKey in g.nodeMap
    ensures events != [] ==> events[|events| - 1].key in g.nodeMap
  {
    if events == [] then EmptyGraphIsIndexed(); EMPTY_GRAPH
    else
      var n := |events| - 1;
      var g := Built(events[..n], interval);
      assert n > 0 ==> events[..n][n - 1] == events[n - 1];
      Step(g, events[n], interval)
  }

  // ---- what the graph shows of one key, or of a pair of keys

  function CallCount(g: Graph, key: Key): nat
    requires NodesIndexed(g)
  {
    if key in g.nodeMap then g.nodes[g.nodeMap[key]].callCount else 0
  }

  function TotalMs(g: Graph, key: Key): real
    requires NodesIndexed(g)
  {
    if key in g.nodeMap then g.nodes[g.nodeMap[key]].totalMs else 0.0
  }

  function SelfMs(g: Graph, key: Key): real
    requires NodesIndexed(g)
  {
    if key in g.nodeMap then g.nodes[g.nodeMap[key]].selfMs else 0.0
  }

  predicate HasEdge(g: Graph, a: Key, b: Key) {
    a in g.nodeMap && b in g.nodeMap && (g.nodeMap[a], g.nodeMap[b]) in g.edgeMap
  }

  function EdgeCount(g: Graph, a: Key, b: Key): nat
    requires Indexed(g)
  {
    if HasEdge(g, a, b) then g.edges[g.edgeMap[(g.nodeMap[a], g.nodeMap[b])]].callCount else 0
  }

  function EdgeMs(g: Graph, a: Key, b: Key): real
    requires Indexed(g)
  {
    if HasEdge(g, a, b) then g.edges[g.edgeMap[(g.nodeMap[a], g.nodeMap[b])]].totalMs else 0.0
  }

  // ---- the same counted from the events alone

  function Hits(events: seq<Event>, key: Key): nat {
    if events == [] then 0
    else Hits(events[..|events| - 1], key) + (if events[|events| - 1].key == key then 1 else 0)
  }

  function LeafHits(events: seq<Event>, key: Key): nat {
    if events == [] then 0
    else
      var ev := events[|events| - 1];
      LeafHits(events[..|events| - 1], key) + (if ev.key == key && ev.isLeaf then 1 else 0)
  }

  /** How often `a` calls `b` directly; with RootKey for `a`, how often `b` is outermost. */
  function Pairs(events: seq<Event>, a: Key, b: Key): nat {
    if events == [] then 0
    else
      var ev := events[|events| - 1];
      Pairs(events[..|events| - 1], a, b) + (if ev.caller == a && ev.key == b then 1 else 0)
  }

  /** The time n hits stand for. */
  function Lasting(n: nat, interval: real): real {
    if n == 0 then 0.0 else Lasting(n - 1, interval) + interval
  }

  lemma LastingNext(n: nat, interval: real)
    ensures Lasting(n + 1, interval) == Lasting(n, interval) + interval
  {
  }

  lemma {:induction false} LastingIsProduct(n: nat, interval: real)
    ensures Lasting(n, interval) == n as real * interval
  {
    if n > 0 {
      LastingIsProduct(n - 1, interval);
    }
  }

  /** From g to r one hit of hitKey is counted, and only there. */
  predicate HitCounted(g: Graph, r: Graph, hitKey: Key, isLeaf: bool, interval: real, key: Key)
    requires NodesIndexed(g) && NodesIndexed(r)
  {
    var hit := hitKey == key;
    && CallCount(r, key) == CallCount(g, key) + (if hit then 1 else 0)
    && TotalMs(r, key) == TotalMs(g, key) + (if hit then interval else 0.0)
    && SelfMs(r, key) == SelfMs(g, key) + (if hit && isLeaf then interval else 0.0)
    && (key in r.nodeMap <==> key in g.nodeMap || hit)
  }

  /** From g to r one call from caller to callee is counted, and only there. */
  predicate CallCounted(g: Graph, r: Graph, caller: Key, callee: Key, interval: real, a: Key, b: Key)
    requires Indexed(g) && Indexed(r)
  {
    var hit := caller == a && callee == b && a != RootKey && a != b;
    && EdgeCount(r, a, b) == EdgeCount(g, a, b) + (if hit then 1 else 0)
    && EdgeMs(r, a, b) == EdgeMs(g, a, b) + (if hit then interval else 0.0)
    && (HasEdge(r, a, b) <==> HasEdge(g, a, b) || hit)
  }

  lemma AfterNodeCountsHit(g: Graph, parent: nat, key: Key, frame: Element, isLeaf: bool, interval: real, k: Key)
    requires Indexed(g) && parent < |g.nodes| && key != RootKey
    ensures
      var r := AfterNode(g, parent, key, frame, isLeaf, interval);
      NodesIndexed(r) && HitCounted(g, r, key, isLeaf, interval, k)
  {
    AfterNodeIsIndexed(g, parent, key, frame, isLeaf, interval);
    if key in g.nodeMap {
      NodeIndexIsInjective(g, key, k);
    }
  }

  lemma StepCountsHit(g: Graph, ev: Event, interval: real, k: Key)
    requires Indexed(g) && ev.caller in g.nodeMap && ev.key != RootKey
    ensures HitCounted(g, Step(g, ev, interval), ev.key, ev.isLeaf, interval, k)
  {
    var g1 := StepNodes(g, ev, interval);
    AfterNodeCountsHit(g, g.nodeMap[ev.caller], ev.key, ev.frame, ev.isLeaf, interval, k);
    SameNodesSameHits(g, g1, Step(g, ev, interval), ev, interval, k);
  }

  lemma SameNodesSameHits(g: Graph, g1: Graph, r: Graph, ev: Event, interval: real, k: Key)
    requires NodesIndexed(g) && NodesIndexed(g1) && NodesIndexed(r)
    requires r.nodes == g1.nodes && r.nodeMap == g1.nodeMap
    requires HitCounted(g, g1, ev.key, ev.isLeaf, interval, k)
    ensures HitCounted(g, r, ev.key, ev.isLeaf, interval, k)
  {
  }

  /** A step's nodes are those of its first half, its edges those of its second. */
  lemma StepNodes(g: Graph, ev: Event, interval: real) returns (g1: Graph)
    requires Indexed(g) && ev.caller in g.nodeMap && ev.key != RootKey
    ensures g1 == AfterNode(g, g.nodeMap[ev.caller], ev.key, ev.frame, ev.isLeaf, interval)
    ensures Indexed(g1) && Extends(g, g1)
    ensures ev.key in g1.nodeMap && 0 < g1.nodeMap[ev.key]
    ensures g1.edges == g.edges && g1.edgeMap == g.edgeMap
    ensures
      var r := Step(g, ev, interval);
      && r == AfterEdge(g1, g.nodeMap[ev.caller], g1.nodeMap[ev.key], interval)
      && r.nodes == g1.nodes && r.keys == g1.keys && r.nodeMap == g1.nodeMap
  {
    hide AfterNode, AfterEdge, Extends, EdgesIndexed;
    AfterNodeIsIndexed(g, g.nodeMap[ev.caller], ev.key, ev.frame, ev.isLeaf, interval);
    AfterNodeKeepsEdges(g, g.nodeMap[ev.caller], ev.key, ev.frame, ev.isLeaf, interval);
    g1 := AfterNode(g, g.nodeMap[ev.caller], ev.key, ev.frame, ev.isLeaf, interval);
    AfterEdgeKeepsNodes(g1, g.nodeMap[ev.caller], g1.nodeMap[ev.key], interval);
  }

  /** From g to r one call between two nodes is drawn, and only there. */
  predicate EdgeDrawn(g: Graph, r: Graph, parent: nat, node: nat, interval: real, p: (nat, nat))
    requires EdgesIndexed(g) && EdgesIndexed(r)
  {
    var hit := p == (parent, node) && parent != 0 && parent != node;
    && (p in r.edgeMap <==> p in g.edgeMap || hit)
    && (p in r.edgeMap ==>
      var before := if p in g.edgeMap then g.edges[g.edgeMap[p]] else Edge(p.0, p.1, 0, 0.0);
      var after := r.edges[r.edgeMap[p]];
      && after.callCount == before.callCount + (if hit then 1 else 0)
      && after.totalMs == before.totalMs + (if hit then interval else 0.0))
  }

  lemma AfterEdgeDraws(g: Graph, parent: nat, node: nat, interval: real, p: (nat, nat))
    requires Indexed(g) && parent < |g.nodes| && 0 < node < |g.nodes|
    ensures Indexed(AfterEdge(g, parent, node, interval))
    ensures EdgeDrawn(g, AfterEdge(g, parent, node, interval), parent, node, interval, p)
  {
    hide NodesIndexed;
    AfterEdgeIsIndexed(g, parent, node, interval);
  }

  lemma AfterEdgeCounts(g: Graph, caller: Key, callee: Key, interval: real, a: Key, b: Key)
    requires Indexed(g) && caller in g.nodeMap && callee in g.nodeMap && 0 < g.nodeMap[callee]
    ensures
      var r := AfterEdge(g, g.nodeMap[caller], g.nodeMap[callee], interval);
      Indexed(r) && CallCounted(g, r, caller, callee, interval, a, b)
  {
    var parent, node := g.nodeMap[caller], g.nodeMap[callee];
    AfterEdgeIsIndexed(g, parent, node, interval);
    AfterEdgeKeepsNodes(g, parent, node, interval);
    CountsAtKeys(g, AfterEdge(g, parent, node, interval), caller, callee, interval, a, b);
  }

  lemma CountsAtKeys(g: Graph, r: Graph, caller: Key, callee: Key, interval: real, a: Key, b: Key)
    requires Indexed(g) && Indexed(r) && caller in g.nodeMap && callee in g.nodeMap && 0 < g.nodeMap[callee]
    requires r.nodeMap == g.nodeMap && r == AfterEdge(g, g.nodeMap[caller], g.nodeMap[callee], interval)
    ensures CallCounted(g, r, caller, callee, interval, a, b)
  {
    hide AfterEdge, EdgesIndexed;
    if a in g.nodeMap && b in g.nodeMap {
      AfterEdgeDraws(g, g.nodeMap[caller], g.nodeMap[callee], interval, (g.nodeMap[a], g.nodeMap[b]));
      NodeIndexIsInjective(g, caller, a);
      NodeIndexIsInjective(g, callee, b);
      NodeIndexIsInjective(g, caller, callee);
      NodeIndexIsInjective(g, caller, RootKey);
    }
  }

  lemma StepCountsEdge(g: Graph, ev: Event, interval: real, a: Key, b: Key)
    requires Indexed(g) && ev.caller in g.nodeMap && ev.key != RootKey
    ensures CallCounted(g, Step(g, ev, interval), ev.caller, ev.key, interval, a, b)
  {
    var g1 := StepNodes(g, ev, interval);
    AfterEdgeCounts(g1, ev.caller, ev.key, interval, a, b);
    NewNodesHaveNoEdges(g, g1, a, b);
  }

  lemma NodeIndexIsInjective(g: Graph, a: Key, b: Key)
    requires NodesIndexed(g)
    ensures a in g.nodeMap && b in g.nodeMap ==> (g.nodeMap[a] == g.nodeMap[b] <==> a == b)
  {
  }

  lemma NewNodesHaveNoEdges(g: Graph, g1: Graph, a: Key, b: Key)
    requires Indexed(g) && Indexed(g1) && g1.edges == g.edges && g1.edgeMap == g.edgeMap
    requires Extends(g, g1)
    ensures EdgeCount(g1, a, b) == EdgeCount(g, a, b) && EdgeMs(g1, a, b) == EdgeMs(g, a, b)
    ensures HasEdge(g1, a, b) == HasEdge(g, a, b)
  {
    if HasEdge(g1, a, b) {
      var i := g.edgeMap[(g1.nodeMap[a], g1.nodeMap[b])];
      assert g.edges[i].fromId < |g.nodes| && g.edges[i].toId < |g.nodes|;
    }
  }

  // ---- from samples to events

  const THREAD_STATE_CLASS := "java.lang.Thread.State"

  predicate Contains(s: string, part: string) {
    part <= s || (s != [] && Contains(s[1..], part))
  }

  predicate Admits(threadFilter: string, sample: Sample) {
    threadFilter == "" || threadFilter == "Runnable" || sample.state == "RUNNABLE"
  }

  /** The frames kept of a stack trace, in its order: innermost first. */
  function Retained(trace: seq<Element>): seq<Element> {
    if trace == [] then []
    else
      Retained(trace[..|trace| - 1])
      + (if Contains(trace[|trace| - 1].className, THREAD_STATE_CLASS) then [] else [trace[|trace| - 1]])
  }

  /** The n-th event of a sample's walk, outermost frame first; the trace is innermost first. */
  function TrailEvent(frames: seq<Element>, n: nat): Event
    requires 0 < n <= |frames|
  {
    Event(if n == 1 then RootKey else ElementKey(frames[|frames| - n + 1]),
          ElementKey(frames[|frames| - n]), frames[|frames| - n], n == |frames|)
  }

  function Trail(frames: seq<Element>, n: nat): (events: seq<Event>)
    requires n <= |frames|
    ensures |events| == n
  {
    if n == 0 then [] else Trail(frames, n - 1) + [TrailEvent(frames, n)]
  }

  function SampleEvents(threadFilter: string, sample: Sample): seq<Event> {
    if Admits(threadFilter, sample) then
      var frames := Retained(sample.stackTrace);
      Trail(frames, |frames|)
    else []
  }

  function AllEvents(threadFilter: string, samples: seq<Sample>): seq<Event> {
    if samples == [] then []
    else AllEvents(threadFilter, samples[..|samples| - 1]) + SampleEvents(threadFilter, samples[|samples| - 1])
  }

  /** The last sample is complete. */
  predicate Closed(events: seq<Event>) {
    events != [] ==> events[|events| - 1].isLeaf
  }

  lemma AppendedLast(events: seq<Event>, ev: Event)
    ensures (events + [ev])[..|events + [ev]| - 1] == events && (events + [ev])[|events + [ev]| - 1] == ev
  {
  }

  lemma AppendNothing(events: seq<Event>)
    ensures events + [] == events
  {
  }

  lemma AppendIsAssociative(a: seq<Event>, b: seq<Event>, c: seq<Event>)
    ensures a + (b + c) == (a + b) + c
  {
  }

  /** The walk has done n frames of this sample; before the first, the sample before it was complete. */
  predicate AtFrame(events: seq<Event>, frames: seq<Element>, n: nat)
    requires n <= |frames|
  {
    if n == 0 then Closed(events)
    else
      && events != []
      && events[|events| - 1].key == ElementKey(frames[|frames| - n])
      && events[|events| - 1].isLeaf == (n == |frames|)
  }

  lemma NextFrameContinues(events: seq<Event>, frames: seq<Element>, n: nat)
    requires Chained(events) && 0 < n <= |frames| && AtFrame(events, frames, n - 1)
    ensures Chained(events + [TrailEvent(frames, n)])
    ensures AtFrame(events + [TrailEvent(frames, n)], frames, n)
  {
    AppendedLast(events, TrailEvent(frames, n));
  }

  lemma {:induction false} TrailContinues(events: seq<Event>, frames: seq<Element>, n: nat)
    requires Chained(events) && Closed(events) && n <= |frames|
    ensures Chained(events + Trail(frames, n)) && AtFrame(events + Trail(frames, n), frames, n)
  {
    if n == 0 {
      AppendNothing(events);
    } else {
      TrailContinues(events, frames, n - 1);
      NextFrameContinues(events + Trail(frames, n - 1), frames, n);
      AppendIsAssociative(events, Trail(frames, n - 1), [TrailEvent(frames, n)]);
    }
  }

  lemma BuiltNext(events: seq<Event>, ev: Event, interval: real)
    requires Chained(events) && Chained(events + [ev])
    ensures ev.caller in Built(events, interval).nodeMap
    ensures ev.key != RootKey
    ensures Built(events + [ev], interval) == Step(Built(events, interval), ev, interval)
    ensures ev.key in Built(events + [ev], interval).nodeMap
  {
    AppendedLast(events, ev);
  }

  lemma {:induction false} AllEventsChain(threadFilter: string, samples: seq<Sample>)
    ensures Chained(AllEvents(threadFilter, samples)) && Closed(AllEvents(threadFilter, samples))
  {
    if samples != [] {
      var before, sample := AllEvents(threadFilter, samples[..|samples| - 1]), samples[|samples| - 1];
      AllEventsChain(threadFilter, samples[..|samples| - 1]);
      var frames := Retained(sample.stackTrace);
      TrailContinues(before, frames, |frames|);
      AppendNothing(before);
    }
  }

  /** The graph of a list of samples. */
  function CallTreeOf(threadFilter: string, samples: seq<Sample>, interval: real): (g: Graph)
    ensures Indexed(g)
  {
    AllEventsChain(threadFilter, samples);
    Built(AllEvents(threadFilter, samples), interval)
  }

  function IndexOf(g: Graph, key: Key): Option<nat> {
    if key in g.nodeMap then Some(g.nodeMap[key]) else None
  }

  /** The key the walk hangs its next frame under. */
  function CallerOf(frames: seq<Element>, n: nat): Key
    requires n <= |frames|
  {
    if n == 0 then RootKey else ElementKey(frames[|frames| - n])
  }

  method RetainedFrames(trace: seq<Element>) returns (frames: seq<Element>)
    ensures frames == Retained(trace)
  {
    frames := [];
    for i := 0 to |trace|
      invariant frames == Retained(trace[..i])
    {
      assert trace[..i + 1][..i] == trace[..i];
      if !Contains(trace[i].className, THREAD_STATE_CLASS) {
        frames := frames + [trace[i]];
      }
    }
    assert trace[..|trace|] == trace;
  }

  /** The node of one frame, found or made, and the edge to it. */
  method AddFrame(g: Graph, parentIdx: nat, key: Key, frame: Element, isLeaf: bool, interval: real,
                  ghost caller: Key)
    returns (r: Graph, nodeIdx: nat)
    requires Indexed(g) && IndexOf(g, caller) == Some(parentIdx) && key != RootKey
    ensures r == Step(g, Event(caller, key, frame, isLeaf), interval)
    ensures IndexOf(r, key) == Some(nodeIdx)
  {
    ghost var g1 := StepNodes(g, Event(caller, key, frame, isLeaf), interval);
    r := AfterNode(g, parentIdx, key, frame, isLeaf, interval);
    nodeIdx := r.nodeMap[key];
    r := AfterEdge(r, parentIdx, nodeIdx, interval);
  }

  /** The walk over one sample has done n frames and stands at parentIdx. */
  predicate WalkAt(events: seq<Event>, frames: seq<Element>, n: nat, g: Graph, parentIdx: nat, interval: real)
    requires n <= |frames|
  {
    var seen := events + Trail(frames, n);
    && Chained(seen) && AtFrame(seen, frames, n)
    && g == Built(seen, interval)
    && IndexOf(g, CallerOf(frames, n)) == Some(parentIdx)
  }

  lemma WalkStarts(events: seq<Event>, frames: seq<Element>, g: Graph, interval: real)
    requires Chained(events) && Closed(events) && g == Built(events, interval)
    ensures WalkAt(events, frames, 0, g, 0, interval)
  {
    AppendNothing(events);
  }

  lemma WalkIsIndexed(events: seq<Event>, frames: seq<Element>, n: nat, g: Graph, parentIdx: nat, interval: real)
    requires n <= |frames| && WalkAt(events, frames, n, g, parentIdx, interval)
    ensures Chained(events + Trail(frames, n)) && g == Built(events + Trail(frames, n), interval)
    ensures Indexed(g) && IndexOf(g, CallerOf(frames, n)) == Some(parentIdx)
  {
  }

  lemma WalkStep(events: seq<Event>, frames: seq<Element>, n: nat, g: Graph, parentIdx: nat,
                 r: Graph, nodeIdx: nat, interval: real)
    requires n < |frames| && WalkAt(events, frames, n, g, parentIdx, interval)
    requires r == Step(g, TrailEvent(frames, n + 1), interval)
    requires IndexOf(r, CallerOf(frames, n + 1)) == Some(nodeIdx)
    ensures WalkAt(events, frames, n + 1, r, nodeIdx, interval)
  {
    hide Step, Chained, Built;
    var seen, ev := events + Trail(frames, n), TrailEvent(frames, n + 1);
    NextFrameContinues(seen, frames, n + 1);
    BuiltNext(seen, ev, interval);
    AppendIsAssociative(events, Trail(frames, n), [ev]);
  }

  /** One sample: from the outermost frame in, each frame's node and the edge from its caller. */
  method AddSample(before: Graph, frames: seq<Element>, interval: real, ghost events: seq<Event>) returns (g: Graph)
    requires Chained(events) && Closed(events) && before == Built(events, interval)
    ensures Chained(events + Trail(frames, |frames|))
    ensures g == Built(events + Trail(frames, |frames|), interval)
  {
    hide WalkAt, Chained, Built, Step, Trail;
    g := before;
    var parentIdx, i := 0, 0;
    WalkStarts(events, frames, g, interval);
    while i < |frames|
      invariant 0 <= i <= |frames|
      invariant WalkAt(events, frames, i, g, parentIdx, interval)
    {
      ghost var g0, p0 := g, parentIdx;
      WalkIsIndexed(events, frames, i, g, parentIdx, interval);
      var frame := frames[|frames| - 1 - i];
      g, parentIdx := AddFrame(g, parentIdx, ElementKey(frame), frame, i == |frames| - 1, interval, CallerOf(frames, i));
      WalkStep(events, frames, i, g0, p0, g, parentIdx, interval);
      i := i + 1;
    }
    WalkIsIndexed(events, frames, |frames|, g, parentIdx, interval);
  }

  method BuildCallTree(samples: seq<Sample>, threadFilter: string, interval: real) returns (g: Graph)
    ensures g == CallTreeOf(threadFilter, samples, interval)
  {
    g := EMPTY_GRAPH;
    for s := 0 to |samples|
      invariant g == CallTreeOf(threadFilter, samples[..s], interval)
    {
      assert samples[..s + 1][..s] == samples[..s];
      AllEventsChain(threadFilter, samples[..s]);
      if threadFilter != "" && threadFilter != "Runnable" && samples[s].state != "RUNNABLE" {
        AppendNothing(AllEvents(threadFilter, samples[..s]));
        continue;
      }
      var frames := RetainedFrames(samples[s].stackTrace);
      g := AddSample(g, frames, interval, AllEvents(threadFilter, samples[..s]));
    }
    assert samples[..|samples|] == samples;
  }
}
