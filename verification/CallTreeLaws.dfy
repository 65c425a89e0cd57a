/** What the merged call graph says: exact counts, flow through every node, and the shape of the tree. */
module CallTreeLaws {
  import opened CallTrees

  /** What a node shows against what its key's events are. */
  predicate NodeIsExact(g: Graph, events: seq<Event>, interval: real, key: Key)
    requires NodesIndexed(g)
  {
    && CallCount(g, key) == Hits(events, key)
    && TotalMs(g, key) == Lasting(Hits(events, key), interval)
    && SelfMs(g, key) == Lasting(LeafHits(events, key), interval)
    && (key in g.nodeMap <==> key == RootKey || Hits(events, key) > 0)
  }

  predicate EdgeIsExact(g: Graph, events: seq<Event>, interval: real, a: Key, b: Key)
    requires Indexed(g)
  {
    && EdgeCount(g, a, b) == Pairs(events, a, b)
    && EdgeMs(g, a, b) == Lasting(Pairs(events, a, b), interval)
    && (HasEdge(g, a, b) <==> Pairs(events, a, b) > 0)
  }

  lemma NodeStepIsExact(g: Graph, r: Graph, before: seq<Event>, ev: Event, interval: real, key: Key)
    requires NodesIndexed(g) && NodesIndexed(r) && NodeIsExact(g, before, interval, key)
    requires HitCounted(g, r, ev.key, ev.isLeaf, interval, key)
    ensures NodeIsExact(r, before + [ev], interval, key)
  {
    assert (before + [ev])[..|before|] == before;
    LastingNext(Hits(before, key), interval);
    LastingNext(LeafHits(before, key), interval);
  }

  lemma EdgeStepIsExact(g: Graph, r: Graph, before: seq<Event>, ev: Event, interval: real, a: Key, b: Key)
    requires Indexed(g) && Indexed(r) && EdgeIsExact(g, before, interval, a, b)
    requires a != RootKey && a != b && CallCounted(g, r, ev.caller, ev.key, interval, a, b)
    ensures EdgeIsExact(r, before + [ev], interval, a, b)
  {
    assert (before + [ev])[..|before|] == before;
    LastingNext(Pairs(before, a, b), interval);
  }

  lemma BuiltSplits(events: seq<Event>, interval: real)
    requires Chained(events) && events != []
    ensures
      var prefix, ev := events[..|events| - 1], events[|events| - 1];
      && events == prefix + [ev]
      && Chained(prefix) && ev.caller in Built(prefix, interval).nodeMap && ev.key != RootKey
      && Built(events, interval) == Step(Built(prefix, interval), ev, interval)
  {
  }

  /** Every node carries exactly its key's occurrences. */
  lemma {:induction false} NodeCountsAreExact(events: seq<Event>, interval: real, key: Key)
    requires Chained(events)
    ensures NodeIsExact(Built(events, interval), events, interval, key)
  {
    if events != [] {
      var prefix, ev := events[..|events| - 1], events[|events| - 1];
      BuiltSplits(events, interval);
      NodeCountsAreExact(prefix, interval, key);
      StepCountsHit(Built(prefix, interval), ev, interval, key);
      NodeStepIsExact(Built(prefix, interval), Built(events, interval), prefix, ev, interval, key);
    }
  }

  /** Every edge carries exactly the direct calls between its two keys, and every such pair has one. */
  lemma {:induction false} EdgeCountsAreExact(events: seq<Event>, interval: real, a: Key, b: Key)
    requires Chained(events) && a != RootKey && a != b
    ensures EdgeIsExact(Built(events, interval), events, interval, a, b)
  {
    if events != [] {
      var prefix, ev := events[..|events| - 1], events[|events| - 1];
      BuiltSplits(events, interval);
      EdgeCountsAreExact(prefix, interval, a, b);
      StepCountsEdge(Built(prefix, interval), ev, interval, a, b);
      EdgeStepIsExact(Built(prefix, interval), Built(events, interval), prefix, ev, interval, a, b);
    }
  }

  // ---- flow

  /** The calls counted on the edges into a node. */
  function SumTo(edges: seq<Edge>, node: nat): nat {
    if edges == [] then 0
    else SumTo(edges[..|edges| - 1], node) + (if edges[|edges| - 1].toId == node then edges[|edges| - 1].callCount else 0)
  }

  /** The calls counted on the edges out of a node. */
  function SumFrom(edges: seq<Edge>, node: nat): nat {
    if edges == [] then 0
    else
      SumFrom(edges[..|edges| - 1], node)
      + (if edges[|edges| - 1].fromId == node then edges[|edges| - 1].callCount else 0)
  }

  lemma {:induction false} SumsAfterBump(edges: seq<Edge>, i: nat, interval: real, node: nat)
    requires i < |edges|
    ensures
      var bumped := edges[i := edges[i].(callCount := edges[i].callCount + 1, totalMs := edges[i].totalMs + interval)];
      && SumTo(bumped, node) == SumTo(edges, node) + (if edges[i].toId == node then 1 else 0)
      && SumFrom(bumped, node) == SumFrom(edges, node) + (if edges[i].fromId == node then 1 else 0)
  {
    var n := |edges| - 1;
    var e' := edges[i].(callCount := edges[i].callCount + 1, totalMs := edges[i].totalMs + interval);
    if i == n {
      assert edges[i := e'][..n] == edges[..n];
    } else {
      assert edges[i := e'][..n] == edges[..n][i := e'];
      SumsAfterBump(edges[..n], i, interval, node);
    }
  }

  lemma {:induction false} NoFlowBeyondTheNodes(edges: seq<Edge>, size: nat, node: nat)
    requires forall i :: 0 <= i < |edges| ==> edges[i].fromId < size && edges[i].toId < size
    requires size <= node
    ensures SumTo(edges, node) == 0 && SumFrom(edges, node) == 0
  {
    if edges != [] {
      NoFlowBeyondTheNodes(edges[..|edges| - 1], size, node);
    }
  }

  lemma SumsAfterAppend(edges: seq<Edge>, e: Edge, node: nat)
    ensures SumTo(edges + [e], node) == SumTo(edges, node) + (if e.toId == node then e.callCount else 0)
    ensures SumFrom(edges + [e], node) == SumFrom(edges, node) + (if e.fromId == node then e.callCount else 0)
  {
    assert (edges + [e])[..|edges|] == edges;
  }

  lemma AfterEdgeFlow(g: Graph, parent: nat, callee: nat, interval: real, node: nat)
    requires EdgesIndexed(g)
    ensures
      var r := AfterEdge(g, parent, callee, interval);
      var drawn := parent != 0 && parent != callee;
      && SumTo(r.edges, node) == SumTo(g.edges, node) + (if drawn && callee == node then 1 else 0)
      && SumFrom(r.edges, node) == SumFrom(g.edges, node) + (if drawn && parent == node then 1 else 0)
  {
    hide SumTo, SumFrom;
    if parent != 0 && parent != callee {
      if (parent, callee) in g.edgeMap {
        SumsAfterBump(g.edges, g.edgeMap[(parent, callee)], interval, node);
      } else {
        SumsAfterAppend(g.edges, Edge(parent, callee, 1, interval), node);
      }
    }
  }

  function InFlow(g: Graph, key: Key): nat {
    if key in g.nodeMap then SumTo(g.edges, g.nodeMap[key]) else 0
  }

  function OutFlow(g: Graph, key: Key): nat {
    if key in g.nodeMap then SumFrom(g.edges, g.nodeMap[key]) else 0
  }

  lemma NewKeysHaveNoFlow(g: Graph, g1: Graph, key: Key)
    requires Indexed(g) && Extends(g, g1) && g1.edges == g.edges
    ensures InFlow(g1, key) == InFlow(g, key) && OutFlow(g1, key) == OutFlow(g, key)
  {
    if key !in g.nodeMap && key in g1.nodeMap {
      NoFlowBeyondTheNodes(g.edges, |g.nodes|, g1.nodeMap[key]);
    }
  }

  /** From g to r one call from caller to callee flows, and only there. */
  predicate FlowCounted(g: Graph, r: Graph, caller: Key, callee: Key, key: Key) {
    var drawn := caller != RootKey && caller != callee;
    && InFlow(r, key) == InFlow(g, key) + (if drawn && callee == key then 1 else 0)
    && OutFlow(r, key) == OutFlow(g, key) + (if drawn && caller == key then 1 else 0)
  }

  lemma AfterEdgeCountsFlow(g: Graph, caller: Key, callee: Key, interval: real, key: Key)
    requires Indexed(g) && caller in g.nodeMap && callee in g.nodeMap
    ensures FlowCounted(g, AfterEdge(g, g.nodeMap[caller], g.nodeMap[callee], interval), caller, callee, key)
  {
    hide EdgesIndexed, SumTo, SumFrom;
    assert g.nodeMap[RootKey] == 0;
    hide NodesIndexed;
    NodeIndexIsInjective(g, caller, callee);
    NodeIndexIsInjective(g, caller, key);
    NodeIndexIsInjective(g, callee, key);
    NodeIndexIsInjective(g, caller, RootKey);
    if key in g.nodeMap {
      AfterEdgeFlow(g, g.nodeMap[caller], g.nodeMap[callee], interval, g.nodeMap[key]);
    }
  }

  lemma StepFlow(g: Graph, ev: Event, interval: real, key: Key)
    requires Indexed(g) && ev.caller in g.nodeMap && ev.key != RootKey
    ensures FlowCounted(g, Step(g, ev, interval), ev.caller, ev.key, key)
  {
    var g1 := StepNodes(g, ev, interval);
    AfterEdgeCountsFlow(g1, ev.caller, ev.key, interval, key);
    NewKeysHaveNoFlow(g, g1, key);
  }

  /** Flow in: a node is entered from the root, over an edge, or from itself, and in no other way. */
  lemma {:induction false} FlowIn(events: seq<Event>, interval: real, key: Key)
    requires Chained(events) && key != RootKey
    ensures
      var g := Built(events, interval);
      CallCount(g, key) == Pairs(events, RootKey, key) + InFlow(g, key) + Pairs(events, key, key)
  {
    if events != [] {
      var prefix, ev := events[..|events| - 1], events[|events| - 1];
      FlowIn(prefix, interval, key);
      StepCountsHit(Built(prefix, interval), ev, interval, key);
      StepFlow(Built(prefix, interval), ev, interval, key);
    }
  }

  /** The last event sits on this key and its sample goes on. */
  function Pending(events: seq<Event>, key: Key): nat {
    if events != [] && !events[|events| - 1].isLeaf && events[|events| - 1].key == key then 1 else 0
  }

  lemma StepFlowsOut(g: Graph, r: Graph, before: seq<Event>, ev: Event, interval: real, key: Key)
    requires NodesIndexed(g) && NodesIndexed(r) && key != RootKey
    requires Chained(before + [ev]) && Chained(before)
    requires HitCounted(g, r, ev.key, ev.isLeaf, interval, key) && FlowCounted(g, r, ev.caller, ev.key, key)
    requires CallCount(g, key) == LeafHits(before, key) + OutFlow(g, key) + Pairs(before, key, key) + Pending(before, key)
    ensures
      var after := before + [ev];
      CallCount(r, key) == LeafHits(after, key) + OutFlow(r, key) + Pairs(after, key, key) + Pending(after, key)
  {
    AppendedLast(before, ev);
  }

  lemma {:induction false} FlowOutSoFar(events: seq<Event>, interval: real, key: Key)
    requires Chained(events) && key != RootKey
    ensures
      var g := Built(events, interval);
      CallCount(g, key) == LeafHits(events, key) + OutFlow(g, key) + Pairs(events, key, key) + Pending(events, key)
  {
    if events != [] {
      var prefix, ev := events[..|events| - 1], events[|events| - 1];
      FlowOutSoFar(prefix, interval, key);
      BuiltSplits(events, interval);
      StepCountsHit(Built(prefix, interval), ev, interval, key);
      StepFlow(Built(prefix, interval), ev, interval, key);
      StepFlowsOut(Built(prefix, interval), Built(events, interval), prefix, ev, interval, key);
    }
  }

  /** Flow out: a node is a leaf, is left over an edge, or calls itself. */
  lemma FlowOut(events: seq<Event>, interval: real, key: Key)
    requires Chained(events) && Closed(events) && key != RootKey
    ensures
      var g := Built(events, interval);
      CallCount(g, key) == LeafHits(events, key) + OutFlow(g, key) + Pairs(events, key, key)
  {
    FlowOutSoFar(events, interval, key);
  }

  // ---- self time

  function SelfOfAll(nodes: seq<Node>): real {
    if nodes == [] then 0.0 else SelfOfAll(nodes[..|nodes| - 1]) + nodes[|nodes| - 1].selfMs
  }

  lemma {:induction false} SelfOfAllUpdated(nodes: seq<Node>, i: nat, node: Node)
    requires i < |nodes|
    ensures SelfOfAll(nodes[i := node]) == SelfOfAll(nodes) - nodes[i].selfMs + node.selfMs
  {
    var n := |nodes| - 1;
    if i == n {
      assert nodes[i := node][..n] == nodes[..n];
    } else {
      assert nodes[i := node][..n] == nodes[..n][i := node];
      SelfOfAllUpdated(nodes[..n], i, node);
    }
  }

  function LeafCount(events: seq<Event>): nat {
    if events == [] then 0 else LeafCount(events[..|events| - 1]) + (if events[|events| - 1].isLeaf then 1 else 0)
  }

  lemma StepAddsSelfTime(g: Graph, ev: Event, interval: real)
    requires Indexed(g) && ev.caller in g.nodeMap && ev.key != RootKey
    ensures SelfOfAll(Step(g, ev, interval).nodes) == SelfOfAll(g.nodes) + (if ev.isLeaf then interval else 0.0)
  {
    var g1 := StepNodes(g, ev, interval);
    var parent := g.nodeMap[ev.caller];
    if ev.key in g.nodeMap {
      var i := g.nodeMap[ev.key];
      SelfOfAllUpdated(g.nodes, i, WithHit(g.nodes[i], ev.isLeaf, interval));
    } else {
      var node := NewNode(|g.nodes|, parent, ev.frame, ev.isLeaf, interval);
      assert (g.nodes + [node])[..|g.nodes|] == g.nodes;
      SelfOfAllUpdated(g.nodes + [node], parent, WithChild(g.nodes[parent], |g.nodes|));
    }
  }

  /** The self times of all nodes add up to one interval per complete sample. */
  lemma {:induction false} SelfTimeIsOnePerLeaf(events: seq<Event>, interval: real)
    requires Chained(events)
    ensures SelfOfAll(Built(events, interval).nodes) == Lasting(LeafCount(events), interval)
  {
    if events == [] {
      RootHasNoSelfTime();
    } else {
      SelfTimeIsOnePerLeaf(events[..|events| - 1], interval);
      SelfTimeNext(events, interval);
    }
  }

  lemma SelfTimeNext(events: seq<Event>, interval: real)
    requires Chained(events) && events != [] && Chained(events[..|events| - 1])
    requires SelfOfAll(Built(events[..|events| - 1], interval).nodes) == Lasting(LeafCount(events[..|events| - 1]), interval)
    ensures SelfOfAll(Built(events, interval).nodes) == Lasting(LeafCount(events), interval)
  {
    hide Built, Step, Chained, Lasting, SelfOfAll;
    var prefix, ev := events[..|events| - 1], events[|events| - 1];
    BuiltSplits(events, interval);
    StepAddsSelfTime(Built(prefix, interval), ev, interval);
    LastingNext(LeafCount(prefix), interval);
  }

  lemma RootHasNoSelfTime()
    ensures SelfOfAll([ROOT]) == 0.0
  {
    assert [ROOT][..0] == [];
  }

  // ---- counts by sample

  /** A sum over samples, one number each. */
  function Tally(samples: seq<Sample>, f: Sample -> nat): nat {
    if samples == [] then 0 else Tally(samples[..|samples| - 1], f) + f(samples[|samples| - 1])
  }

  lemma {:induction false} TallyWithout(samples: seq<Sample>, i: nat, f: Sample -> nat)
    requires i < |samples|
    ensures Tally(samples, f) == Tally(samples[..i] + samples[i + 1..], f) + f(samples[i])
  {
    var n := |samples| - 1;
    if i == n {
      assert samples[..i] + samples[i + 1..] == samples[..n];
    } else {
      var rest := samples[..i] + samples[i + 1..];
      assert rest[..|rest| - 1] == samples[..n][..i] + samples[..n][i + 1..];
      TallyWithout(samples[..n], i, f);
    }
  }

  lemma RemovedFromMultiset(s: seq<Sample>, i: nat)
    requires i < |s|
    ensures multiset(s[..i] + s[i + 1..]) == multiset(s) - multiset{s[i]}
  {
    assert s == s[..i] + ([s[i]] + s[i + 1..]);
  }

  lemma {:induction false} TallyIgnoresOrder(a: seq<Sample>, b: seq<Sample>, f: Sample -> nat)
    requires multiset(a) == multiset(b)
    ensures Tally(a, f) == Tally(b, f)
    decreases |a|
  {
    if a == [] {
      assert |b| == |multiset(b)|;
    } else {
      var n := |a| - 1;
      assert a == a[..n] + [a[n]];
      assert a[n] in multiset(b);
      var i :| 0 <= i < |b| && b[i] == a[n];
      RemovedFromMultiset(b, i);
      RemovedFromMultiset(a, n);
      assert a[..n] + a[n + 1..] == a[..n];
      TallyIgnoresOrder(a[..n], b[..i] + b[i + 1..], f);
      TallyWithout(b, i, f);
    }
  }

  lemma {:induction false} CountsOfConcat(a: seq<Event>, b: seq<Event>, caller: Key, key: Key)
    ensures Hits(a + b, key) == Hits(a, key) + Hits(b, key)
    ensures LeafHits(a + b, key) == LeafHits(a, key) + LeafHits(b, key)
    ensures Pairs(a + b, caller, key) == Pairs(a, caller, key) + Pairs(b, caller, key)
    ensures LeafCount(a + b) == LeafCount(a) + LeafCount(b)
  {
    if b == [] {
      assert a + b == a;
    } else {
      assert (a + b)[..|a + b| - 1] == a + b[..|b| - 1];
      CountsOfConcat(a, b[..|b| - 1], caller, key);
    }
  }

  function HitsIn(threadFilter: string, key: Key): Sample -> nat {
    s => Hits(SampleEvents(threadFilter, s), key)
  }

  function LeafHitsIn(threadFilter: string, key: Key): Sample -> nat {
    s => LeafHits(SampleEvents(threadFilter, s), key)
  }

  function PairsIn(threadFilter: string, caller: Key, key: Key): Sample -> nat {
    s => Pairs(SampleEvents(threadFilter, s), caller, key)
  }

  function LeavesIn(threadFilter: string): Sample -> nat {
    s => LeafCount(SampleEvents(threadFilter, s))
  }

  /** Every count over the events is a sum of counts over the samples. */
  lemma {:induction false} CountsAreTallies(threadFilter: string, samples: seq<Sample>, caller: Key, key: Key)
    ensures
      var events := AllEvents(threadFilter, samples);
      && Hits(events, key) == Tally(samples, HitsIn(threadFilter, key))
      && LeafHits(events, key) == Tally(samples, LeafHitsIn(threadFilter, key))
      && Pairs(events, caller, key) == Tally(samples, PairsIn(threadFilter, caller, key))
      && LeafCount(events) == Tally(samples, LeavesIn(threadFilter))
  {
    if samples != [] {
      var n := |samples| - 1;
      CountsAreTallies(threadFilter, samples[..n], caller, key);
      CountsOfConcat(AllEvents(threadFilter, samples[..n]), SampleEvents(threadFilter, samples[n]), caller, key);
    }
  }

  lemma GraphIsTallied(threadFilter: string, samples: seq<Sample>, interval: real, caller: Key, key: Key)
    requires caller != RootKey && caller != key
    ensures
      var g := CallTreeOf(threadFilter, samples, interval);
      && CallCount(g, key) == Tally(samples, HitsIn(threadFilter, key))
      && TotalMs(g, key) == Lasting(Tally(samples, HitsIn(threadFilter, key)), interval)
      && SelfMs(g, key) == Lasting(Tally(samples, LeafHitsIn(threadFilter, key)), interval)
      && EdgeCount(g, caller, key) == Tally(samples, PairsIn(threadFilter, caller, key))
      && EdgeMs(g, caller, key) == Lasting(Tally(samples, PairsIn(threadFilter, caller, key)), interval)
  {
    var events := AllEvents(threadFilter, samples);
    hide Built, Chained, AllEvents, Hits, LeafHits, Pairs, Tally, Lasting;
    AllEventsChain(threadFilter, samples);
    CountsAreTallies(threadFilter, samples, caller, key);
    NodeCountsAreExact(events, interval, key);
    EdgeCountsAreExact(events, interval, caller, key);
  }

  /** Per key and per pair of keys, the graph is the same for any order of the samples. */
  lemma SampleOrderDoesNotMatter(
    threadFilter: string, a: seq<Sample>, b: seq<Sample>, interval: real, caller: Key, key: Key)
    requires multiset(a) == multiset(b) && caller != RootKey && caller != key
    ensures
      var ga, gb := CallTreeOf(threadFilter, a, interval), CallTreeOf(threadFilter, b, interval);
      && CallCount(ga, key) == CallCount(gb, key)
      && TotalMs(ga, key) == TotalMs(gb, key) && SelfMs(ga, key) == SelfMs(gb, key)
      && EdgeCount(ga, caller, key) == EdgeCount(gb, caller, key)
      && EdgeMs(ga, caller, key) == EdgeMs(gb, caller, key)
  {
    hide CallTreeOf, Tally, Lasting, CallCount, TotalMs, SelfMs, EdgeCount, EdgeMs;
    GraphIsTallied(threadFilter, a, interval, caller, key);
    GraphIsTallied(threadFilter, b, interval, caller, key);
    TallyIgnoresOrder(a, b, HitsIn(threadFilter, key));
    TallyIgnoresOrder(a, b, LeafHitsIn(threadFilter, key));
    TallyIgnoresOrder(a, b, PairsIn(threadFilter, caller, key));
  }

  predicate HasRetainedFrame(threadFilter: string, sample: Sample) {
    Admits(threadFilter, sample) && Retained(sample.stackTrace) != []
  }

  function RetainedSamples(threadFilter: string, samples: seq<Sample>): nat {
    if samples == [] then 0
    else
      RetainedSamples(threadFilter, samples[..|samples| - 1])
      + (if HasRetainedFrame(threadFilter, samples[|samples| - 1]) then 1 else 0)
  }

  lemma {:induction false} OneLeafPerTrail(frames: seq<Element>, n: nat)
    requires n <= |frames|
    ensures LeafCount(Trail(frames, n)) == if 0 < n == |frames| then 1 else 0
  {
    if n > 0 {
      OneLeafPerTrail(frames, n - 1);
      AppendedLast(Trail(frames, n - 1), TrailEvent(frames, n));
    }
  }

  lemma {:induction false} LeavesAreRetainedSamples(threadFilter: string, samples: seq<Sample>)
    ensures LeafCount(AllEvents(threadFilter, samples)) == RetainedSamples(threadFilter, samples)
  {
    if samples != [] {
      var n := |samples| - 1;
      LeavesAreRetainedSamples(threadFilter, samples[..n]);
      CountsOfConcat(AllEvents(threadFilter, samples[..n]), SampleEvents(threadFilter, samples[n]), RootKey, RootKey);
      var frames := Retained(samples[n].stackTrace);
      OneLeafPerTrail(frames, |frames|);
    }
  }

  /** Self time is conserved: all of it together is one interval per admitted sample with a retained frame. */
  lemma SelfTimeIsOnePerSample(threadFilter: string, samples: seq<Sample>, interval: real)
    ensures
      SelfOfAll(CallTreeOf(threadFilter, samples, interval).nodes)
      == RetainedSamples(threadFilter, samples) as real * interval
  {
    hide Built, Chained, AllEvents, LeafCount, RetainedSamples, SelfOfAll, Lasting;
    AllEventsChain(threadFilter, samples);
    SelfTimeIsOnePerLeaf(AllEvents(threadFilter, samples), interval);
    LeavesAreRetainedSamples(threadFilter, samples);
    LastingIsProduct(RetainedSamples(threadFilter, samples), interval);
  }

  // ---- flow, in terms of the samples

  predicate StartsWith(threadFilter: string, sample: Sample, key: Key) {
    && HasRetainedFrame(threadFilter, sample)
    && var frames := Retained(sample.stackTrace);
    ElementKey(frames[|frames| - 1]) == key
  }

  predicate SampleEndsIn(threadFilter: string, sample: Sample, key: Key) {
    HasRetainedFrame(threadFilter, sample) && ElementKey(Retained(sample.stackTrace)[0]) == key
  }

  /** Samples in which the key is the outermost frame, and samples in which it is the leaf. */
  function Outermost(threadFilter: string, samples: seq<Sample>, key: Key): nat {
    if samples == [] then 0
    else
      Outermost(threadFilter, samples[..|samples| - 1], key)
      + (if StartsWith(threadFilter, samples[|samples| - 1], key) then 1 else 0)
  }

  function Innermost(threadFilter: string, samples: seq<Sample>, key: Key): nat {
    if samples == [] then 0
    else
      Innermost(threadFilter, samples[..|samples| - 1], key)
      + (if SampleEndsIn(threadFilter, samples[|samples| - 1], key) then 1 else 0)
  }

  lemma {:induction false} TrailEnds(frames: seq<Element>, n: nat, key: Key)
    requires n <= |frames|
    ensures Pairs(Trail(frames, n), RootKey, key) ==
      if 0 < n && ElementKey(frames[|frames| - 1]) == key then 1 else 0
    ensures LeafHits(Trail(frames, n), key) ==
      if 0 < n == |frames| && ElementKey(frames[0]) == key then 1 else 0
  {
    if n > 0 {
      TrailEnds(frames, n - 1, key);
      AppendedLast(Trail(frames, n - 1), TrailEvent(frames, n));
    }
  }

  lemma {:induction false} EndsAreCounted(threadFilter: string, samples: seq<Sample>, key: Key)
    ensures Pairs(AllEvents(threadFilter, samples), RootKey, key) == Outermost(threadFilter, samples, key)
    ensures LeafHits(AllEvents(threadFilter, samples), key) == Innermost(threadFilter, samples, key)
  {
    if samples != [] {
      var n := |samples| - 1;
      EndsAreCounted(threadFilter, samples[..n], key);
      CountsOfConcat(AllEvents(threadFilter, samples[..n]), SampleEvents(threadFilter, samples[n]), RootKey, key);
      var frames := Retained(samples[n].stackTrace);
      TrailEnds(frames, |frames|, key);
    }
  }

  /**
   * The flow law at every node but the root: what comes in from samples that start there, from
   * edges and from direct recursion is what goes out to samples that end there, edges and recursion,
   * and both are the node's count.
   */
  lemma FlowLaw(threadFilter: string, samples: seq<Sample>, interval: real, key: Key)
    requires key != RootKey
    ensures
      var g := CallTreeOf(threadFilter, samples, interval);
      var recursive := Pairs(AllEvents(threadFilter, samples), key, key);
      && CallCount(g, key) == Outermost(threadFilter, samples, key) + InFlow(g, key) + recursive
      && CallCount(g, key) == Innermost(threadFilter, samples, key) + OutFlow(g, key) + recursive
  {
    hide Built, Chained, AllEvents, Pairs, LeafHits, Outermost, Innermost, CallCount, InFlow, OutFlow;
    AllEventsChain(threadFilter, samples);
    FlowIn(AllEvents(threadFilter, samples), interval, key);
    FlowOut(AllEvents(threadFilter, samples), interval, key);
    EndsAreCounted(threadFilter, samples, key);
  }
}
