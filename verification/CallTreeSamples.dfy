/** What the merged call graph shows, counted directly over positions in the samples' stack traces. */
module CallTreeSamples {
  import opened CallTrees
  import opened CallTreeLaws
  import opened CallTreeShape
  import opened Options

  // ---- which frames count

  /** A line that reports the thread's state: its class name holds this text somewhere. */
  ghost predicate IsStateLine(e: Element) {
    exists k :: StartsAt(e.className, "java.lang.Thread.State", k)
  }

  predicate StartsAt(s: string, part: string, k: int) {
    0 <= k <= |s| - |part| && s[k..k + |part|] == part
  }

  ghost predicate IsKept(trace: seq<Element>, i: int) {
    0 <= i < |trace| && !IsStateLine(trace[i])
  }

  predicate IsCountedSample(threadFilter: string, sample: Sample) {
    threadFilter == "" || threadFilter == "Runnable" || sample.state == "RUNNABLE"
  }

  /** What a frame is identified by. */
  predicate IsMethod(e: Element, text: string) {
    e.className + "::" + e.methodName + e.descriptor == text
  }

  // ---- what can be counted in one trace; a trace is innermost frame first

  ghost predicate IsFrameAt(trace: seq<Element>, i: int, text: string) {
    IsKept(trace, i) && IsMethod(trace[i], text)
  }

  /** The nearest kept frame further out than position i. */
  ghost predicate IsCallerOf(trace: seq<Element>, j: int, i: int) {
    i < j && IsKept(trace, j) && forall k :: i < k < j ==> !IsKept(trace, k)
  }

  /** At position i the callee was called directly by the caller. */
  ghost predicate IsCallAt(trace: seq<Element>, i: int, caller: string, callee: string) {
    IsFrameAt(trace, i, callee) && exists j :: IsCallerOf(trace, j, i) && IsMethod(trace[j], caller)
  }

  /** The innermost kept frame is at position i. */
  ghost predicate IsLeafAt(trace: seq<Element>, i: int, text: string) {
    IsFrameAt(trace, i, text) && forall k :: 0 <= k < i ==> !IsKept(trace, k)
  }

  function One(b: bool): nat { if b then 1 else 0 }

  /** Positions from `from` on at which the method is on the stack. */
  ghost function FramesIn(trace: seq<Element>, from: nat, text: string): nat
    decreases |trace| - from
  {
    if from >= |trace| then 0 else One(IsFrameAt(trace, from, text)) + FramesIn(trace, from + 1, text)
  }

  ghost function CallsIn(trace: seq<Element>, from: nat, caller: string, callee: string): nat
    decreases |trace| - from
  {
    if from >= |trace| then 0
    else One(IsCallAt(trace, from, caller, callee)) + CallsIn(trace, from + 1, caller, callee)
  }

  ghost function LeavesIn(trace: seq<Element>, from: nat, text: string): nat
    decreases |trace| - from
  {
    if from >= |trace| then 0 else One(IsLeafAt(trace, from, text)) + LeavesIn(trace, from + 1, text)
  }

  // ---- the same over the first n samples

  ghost function FramesSeen(threadFilter: string, samples: seq<Sample>, n: nat, text: string): nat
    requires n <= |samples|
  {
    if n == 0 then 0
    else
      FramesSeen(threadFilter, samples, n - 1, text)
      + (if IsCountedSample(threadFilter, samples[n - 1]) then FramesIn(samples[n - 1].stackTrace, 0, text) else 0)
  }

  ghost function LeavesSeen(threadFilter: string, samples: seq<Sample>, n: nat, text: string): nat
    requires n <= |samples|
  {
    if n == 0 then 0
    else
      LeavesSeen(threadFilter, samples, n - 1, text)
      + (if IsCountedSample(threadFilter, samples[n - 1]) then LeavesIn(samples[n - 1].stackTrace, 0, text) else 0)
  }

  ghost function CallsSeen(threadFilter: string, samples: seq<Sample>, n: nat, caller: string, callee: string): nat
    requires n <= |samples|
  {
    if n == 0 then 0
    else
      CallsSeen(threadFilter, samples, n - 1, caller, callee)
      + (if IsCountedSample(threadFilter, samples[n - 1]) then CallsIn(samples[n - 1].stackTrace, 0, caller, callee)
         else 0)
  }

  // ---- the kept frames

  lemma {:induction false} ContainsIsSomewhere(s: string, part: string)
    ensures Contains(s, part) <==> exists k :: StartsAt(s, part, k)
  {
    if part <= s {
      assert StartsAt(s, part, 0);
    } else if s != [] {
      ContainsIsSomewhere(s[1..], part);
      StartsFurtherOn(s, part);
    }
  }

  lemma StartsFurtherOn(s: string, part: string)
    requires s != [] && !(part <= s)
    ensures (exists k :: StartsAt(s, part, k)) <==> exists k :: StartsAt(s[1..], part, k)
  {
    if k :| StartsAt(s[1..], part, k) {
      assert StartsAt(s, part, k + 1);
    }
    if k :| StartsAt(s, part, k) {
      assert StartsAt(s[1..], part, k - 1);
    }
  }

  lemma StateLineIsFound(e: Element)
    ensures IsStateLine(e) <==> Contains(e.className, THREAD_STATE_CLASS)
  {
    ContainsIsSomewhere(e.className, THREAD_STATE_CLASS);
  }

  /** Which elements of a trace a list of frames is: their positions, strictly increasing. */
  ghost predicate AreAt(frames: seq<Element>, trace: seq<Element>, at: seq<nat>) {
    && |at| == |frames|
    && (forall k :: 0 <= k < |at| ==> at[k] < |trace| && frames[k] == trace[at[k]])
    && forall j, k :: 0 <= j < k < |at| ==> at[j] < at[k]
  }

  /** All the kept positions, in their order. */
  ghost predicate AreAllKept(frames: seq<Element>, trace: seq<Element>, at: seq<nat>) {
    AreAt(frames, trace, at) && forall i: nat :: i in at <==> IsKept(trace, i)
  }

  lemma OneMoreKept(frames: seq<Element>, trace: seq<Element>, at: seq<nat>, e: Element)
    requires AreAllKept(frames, trace, at)
    ensures IsStateLine(e) ==> AreAllKept(frames, trace + [e], at)
    ensures !IsStateLine(e) ==> AreAllKept(frames + [e], trace + [e], at + [|trace|])
  {
    hide IsStateLine;
    forall i: nat ensures IsKept(trace + [e], i) <==> i in at || (i == |trace| && !IsStateLine(e)) {
    }
  }

  /** The frames kept of a trace are its elements that are no state lines, all of them, in their order. */
  lemma {:induction false} RetainedAreKept(trace: seq<Element>) returns (at: seq<nat>)
    ensures AreAllKept(Retained(trace), trace, at)
  {
    if trace == [] {
      at := [];
    } else {
      hide AreAllKept, IsStateLine, Contains;
      var n := |trace| - 1;
      at := RetainedAreKept(trace[..n]);
      StateLineIsFound(trace[n]);
      OneMoreKept(Retained(trace[..n]), trace[..n], at, trace[n]);
      assert trace[..n] + [trace[n]] == trace;
      assert Retained(trace[..n]) + [] == Retained(trace[..n]);
      if !IsStateLine(trace[n]) {
        at := at + [n];
      }
    }
  }

  // ---- one trace

  function KeptOne(e: Element): seq<Element> {
    if Contains(e.className, THREAD_STATE_CLASS) then [] else [e]
  }

  lemma {:induction false} RetainedFromHead(trace: seq<Element>)
    requires trace != []
    ensures Retained(trace) == KeptOne(trace[0]) + Retained(trace[1..])
  {
    hide Contains;
    var n := |trace| - 1;
    if n > 0 {
      RetainedFromHead(trace[..n]);
      assert trace[..n][1..] == trace[1..][..n - 1];
      assert Retained(trace[1..]) == Retained(trace[1..][..n - 1]) + KeptOne(trace[n]);
      assert Retained(trace) == Retained(trace[..n]) + KeptOne(trace[n]);
    } else {
      assert trace[..0] == [] && trace[1..] == [];
    }
  }

  lemma RetainedHead(trace: seq<Element>)
    requires trace != []
    ensures Retained(trace) == (if IsStateLine(trace[0]) then [] else [trace[0]]) + Retained(trace[1..])
  {
    hide IsStateLine, Contains, Retained;
    StateLineIsFound(trace[0]);
    RetainedFromHead(trace);
  }

  /** The first frame kept from a position on is the nearest one. */
  lemma {:induction false} FirstKept(trace: seq<Element>, from: nat) returns (j: nat)
    requires from <= |trace|
    ensures from <= j <= |trace| && forall k :: from <= k < j ==> !IsKept(trace, k)
    ensures Retained(trace[from..]) == [] <==> j == |trace|
    ensures j < |trace| ==> IsKept(trace, j) && Retained(trace[from..])[0] == trace[j]
    decreases |trace| - from
  {
    if from == |trace| {
      j := from;
    } else {
      RetainedHead(trace[from..]);
      assert trace[from..][1..] == trace[from + 1..];
      if IsStateLine(trace[from]) {
        j := FirstKept(trace, from + 1);
      } else {
        j := from;
      }
    }
  }

  lemma OneMoreEvent(events: seq<Event>, ev: Event, caller: Key, key: Key)
    ensures Hits(events + [ev], key) == Hits(events, key) + One(ev.key == key)
    ensures Pairs(events + [ev], caller, key) == Pairs(events, caller, key) + One(ev.caller == caller && ev.key == key)
  {
    assert (events + [ev])[..|events|] == events;
  }

  lemma SameEventBelow(f: Element, frames: seq<Element>, n: nat)
    requires 0 < n <= |frames|
    ensures TrailEvent([f] + frames, n).caller == TrailEvent(frames, n).caller
    ensures TrailEvent([f] + frames, n).key == TrailEvent(frames, n).key
  {
  }

  /** Walks that differ in the innermost frame only agree as long as they have not reached it, but for the leaf mark. */
  lemma {:induction false} TrailBelow(f: Element, frames: seq<Element>, n: nat, caller: Key, key: Key)
    requires n <= |frames|
    ensures Hits(Trail([f] + frames, n), key) == Hits(Trail(frames, n), key)
    ensures Pairs(Trail([f] + frames, n), caller, key) == Pairs(Trail(frames, n), caller, key)
  {
    hide Hits, Pairs, TrailEvent;
    if n > 0 {
      TrailBelow(f, frames, n - 1, caller, key);
      SameEventBelow(f, frames, n);
      OneMoreEvent(Trail([f] + frames, n - 1), TrailEvent([f] + frames, n), caller, key);
      OneMoreEvent(Trail(frames, n - 1), TrailEvent(frames, n), caller, key);
    }
  }

  lemma TrailWithInnermost(f: Element, frames: seq<Element>, caller: Key, key: Key)
    ensures
      var longer := [f] + frames;
      && Hits(Trail(longer, |longer|), key) == Hits(Trail(frames, |frames|), key) + One(ElementKey(f) == key)
      && Pairs(Trail(longer, |longer|), caller, key) == Pairs(Trail(frames, |frames|), caller, key)
         + One(ElementKey(f) == key && caller == if frames == [] then RootKey else ElementKey(frames[0]))
  {
    var longer := [f] + frames;
    TrailBelow(f, frames, |frames|, caller, key);
    AppendedLast(Trail(longer, |frames|), TrailEvent(longer, |longer|));
  }

  lemma SameMethod(e: Element, text: string)
    ensures ElementKey(e) == MethodKey(text) <==> IsMethod(e, text)
  {
  }

  lemma {:induction false} FramesAreHits(trace: seq<Element>, from: nat, text: string)
    requires from <= |trace|
    ensures
      var frames := Retained(trace[from..]);
      Hits(Trail(frames, |frames|), MethodKey(text)) == FramesIn(trace, from, text)
    decreases |trace| - from
  {
    hide Retained, Trail, IsStateLine, IsMethod;
    if from == |trace| {
      NothingInNoFrames(MethodKey(text), MethodKey(text));
    } else {
      FramesAreHits(trace, from + 1, text);
      RetainedHead(trace[from..]);
      assert trace[from..][1..] == trace[from + 1..];
      SameMethod(trace[from], text);
      TrailWithInnermost(trace[from], Retained(trace[from + 1..]), RootKey, MethodKey(text));
      assert [] + Retained(trace[from + 1..]) == Retained(trace[from + 1..]);
    }
  }

  lemma NothingInNoFrames(caller: Key, key: Key)
    ensures Retained([]) == [] && Trail([], 0) == []
    ensures Hits([], key) == 0 && Pairs([], caller, key) == 0 && LeafHits([], key) == 0
  {
  }

  /** The call at one position, told from the frames kept further out. */
  lemma CallAtPosition(trace: seq<Element>, i: nat, caller: string, callee: string)
    requires i < |trace|
    ensures
      var outer := Retained(trace[i + 1..]);
      IsCallAt(trace, i, caller, callee) <==>
        !IsStateLine(trace[i]) && IsMethod(trace[i], callee) && outer != [] && IsMethod(outer[0], caller)
  {
    hide Retained, IsStateLine, IsMethod;
    var j := FirstKept(trace, i + 1);
    if j < |trace| {
      assert IsCallerOf(trace, j, i);
    }
  }

  lemma {:induction false} CallsArePairs(trace: seq<Element>, from: nat, caller: string, callee: string)
    requires from <= |trace|
    ensures
      var frames := Retained(trace[from..]);
      Pairs(Trail(frames, |frames|), MethodKey(caller), MethodKey(callee)) == CallsIn(trace, from, caller, callee)
    decreases |trace| - from
  {
    hide Retained, Trail, IsStateLine, IsMethod, IsCallAt;
    if from == |trace| {
      NothingInNoFrames(MethodKey(caller), MethodKey(callee));
    } else {
      var outer := Retained(trace[from + 1..]);
      CallsArePairs(trace, from + 1, caller, callee);
      RetainedHead(trace[from..]);
      assert trace[from..][1..] == trace[from + 1..];
      CallAtPosition(trace, from, caller, callee);
      SameMethod(trace[from], callee);
      if outer != [] {
        SameMethod(outer[0], caller);
      }
      TrailWithInnermost(trace[from], outer, MethodKey(caller), MethodKey(callee));
      assert [] + outer == outer;
    }
  }

  lemma {:induction false} NoLeaves(trace: seq<Element>, from: nat, text: string)
    requires forall i :: from <= i < |trace| ==> !IsLeafAt(trace, i, text)
    ensures LeavesIn(trace, from, text) == 0
    decreases |trace| - from
  {
    hide IsLeafAt;
    if from < |trace| {
      NoLeaves(trace, from + 1, text);
    }
  }

  lemma {:induction false} OneLeaf(trace: seq<Element>, from: nat, j: nat, text: string)
    requires from <= j < |trace| && forall i :: from <= i < |trace| && i != j ==> !IsLeafAt(trace, i, text)
    ensures LeavesIn(trace, from, text) == One(IsLeafAt(trace, j, text))
    decreases |trace| - from
  {
    hide IsLeafAt;
    if from < j {
      OneLeaf(trace, from + 1, j, text);
    } else {
      NoLeaves(trace, from + 1, text);
    }
  }

  lemma LeavesAreLeafHits(trace: seq<Element>, text: string)
    ensures
      var frames := Retained(trace);
      LeafHits(Trail(frames, |frames|), MethodKey(text)) == LeavesIn(trace, 0, text)
  {
    hide Retained, Trail, IsStateLine, IsMethod;
    var frames := Retained(trace);
    var j := FirstKept(trace, 0);
    assert trace[0..] == trace;
    TrailEnds(frames, |frames|, MethodKey(text));
    if j < |trace| {
      SameMethod(trace[j], text);
      OneLeaf(trace, 0, j, text);
    } else {
      NoLeaves(trace, 0, text);
    }
  }

  // ---- all samples

  lemma SampleCounts(threadFilter: string, sample: Sample, caller: string, text: string)
    ensures
      var events, counted := SampleEvents(threadFilter, sample), IsCountedSample(threadFilter, sample);
      && Hits(events, MethodKey(text)) == (if counted then FramesIn(sample.stackTrace, 0, text) else 0)
      && LeafHits(events, MethodKey(text)) == (if counted then LeavesIn(sample.stackTrace, 0, text) else 0)
      && Pairs(events, MethodKey(caller), MethodKey(text)) ==
        (if counted then CallsIn(sample.stackTrace, 0, caller, text) else 0)
  {
    hide Retained, Trail, FramesIn, LeavesIn, CallsIn;
    NothingInNoFrames(MethodKey(caller), MethodKey(text));
    assert sample.stackTrace[0..] == sample.stackTrace;
    FramesAreHits(sample.stackTrace, 0, text);
    LeavesAreLeafHits(sample.stackTrace, text);
    CallsArePairs(sample.stackTrace, 0, caller, text);
  }

  lemma {:induction false} EventsAreSeen(threadFilter: string, samples: seq<Sample>, n: nat, caller: string, text: string)
    requires n <= |samples|
    ensures
      var events := AllEvents(threadFilter, samples[..n]);
      && Hits(events, MethodKey(text)) == FramesSeen(threadFilter, samples, n, text)
      && LeafHits(events, MethodKey(text)) == LeavesSeen(threadFilter, samples, n, text)
      && Pairs(events, MethodKey(caller), MethodKey(text)) == CallsSeen(threadFilter, samples, n, caller, text)
  {
    hide SampleEvents, FramesIn, LeavesIn, CallsIn, IsCountedSample;
    if n > 0 {
      EventsAreSeen(threadFilter, samples, n - 1, caller, text);
      assert samples[..n][..n - 1] == samples[..n - 1];
      SampleCounts(threadFilter, samples[n - 1], caller, text);
      CountsOfConcat(AllEvents(threadFilter, samples[..n - 1]), SampleEvents(threadFilter, samples[n - 1]),
                     MethodKey(caller), MethodKey(text));
    } else {
      NothingInNoFrames(MethodKey(caller), MethodKey(text));
    }
  }

  /**
   * The graph, read off the samples: a method has a node exactly if it is on the stack at some kept position of a
   * counted sample; the node's count is the number of such positions, its times are that many intervals, and as many
   * as there are samples in which it is the innermost kept frame.
   */
  lemma NodesCountPositions(threadFilter: string, samples: seq<Sample>, interval: real, text: string)
    ensures
      var g := CallTreeOf(threadFilter, samples, interval);
      var seen, leaves := FramesSeen(threadFilter, samples, |samples|, text),
                          LeavesSeen(threadFilter, samples, |samples|, text);
      && (MethodKey(text) in g.nodeMap <==> seen > 0)
      && CallCount(g, MethodKey(text)) == seen
      && TotalMs(g, MethodKey(text)) == seen as real * interval
      && SelfMs(g, MethodKey(text)) == leaves as real * interval
  {
    hide Built, Chained, AllEvents, Hits, LeafHits, Lasting, FramesSeen, LeavesSeen, EdgesIndexed, CallCount, TotalMs,
      SelfMs;
    var events := AllEvents(threadFilter, samples);
    AllEventsChain(threadFilter, samples);
    assert samples[..|samples|] == samples;
    EventsAreSeen(threadFilter, samples, |samples|, text, text);
    NodeCountsAreExact(events, interval, MethodKey(text));
    LastingIsProduct(Hits(events, MethodKey(text)), interval);
    LastingIsProduct(LeafHits(events, MethodKey(text)), interval);
  }

  /** And the edge between two methods counts the positions at which one was called directly by the other. */
  lemma EdgesCountPositions(threadFilter: string, samples: seq<Sample>, interval: real, caller: string, callee: string)
    requires caller != callee
    ensures
      var g := CallTreeOf(threadFilter, samples, interval);
      var calls := CallsSeen(threadFilter, samples, |samples|, caller, callee);
      && (HasEdge(g, MethodKey(caller), MethodKey(callee)) <==> calls > 0)
      && EdgeCount(g, MethodKey(caller), MethodKey(callee)) == calls
      && EdgeMs(g, MethodKey(caller), MethodKey(callee)) == calls as real * interval
  {
    hide Built, Chained, AllEvents, Pairs, Lasting, CallsSeen, NodesIndexed, EdgesIndexed, EdgeCount, EdgeMs, HasEdge;
    var events := AllEvents(threadFilter, samples);
    AllEventsChain(threadFilter, samples);
    assert samples[..|samples|] == samples;
    EventsAreSeen(threadFilter, samples, |samples|, caller, callee);
    EdgeCountsAreExact(events, interval, MethodKey(caller), MethodKey(callee));
    LastingIsProduct(Pairs(events, MethodKey(caller), MethodKey(callee)), interval);
  }

  // ---- where a node's fields come from

  lemma {:induction false} RetainedSplit(trace: seq<Element>, i: nat)
    requires i <= |trace|
    ensures Retained(trace) == Retained(trace[..i]) + Retained(trace[i..])
  {
    hide Contains;
    if i == |trace| {
      assert trace[..i] == trace;
    } else {
      var n := |trace| - 1;
      RetainedSplit(trace[..n], i);
      assert trace[..n][..i] == trace[..i];
      assert trace[i..][..n - i] == trace[..n][i..];
      assert Retained(trace[i..]) == Retained(trace[i..][..n - i]) + KeptOne(trace[n]);
    }
  }

  lemma {:induction false} FirstOfConcat(a: seq<Event>, b: seq<Event>, key: Key)
    requires Hits(a + b, key) > 0
    ensures Hits(a, key) > 0 ==> FirstEvent(a + b, key) == FirstEvent(a, key)
    ensures Hits(a, key) == 0 ==> Hits(b, key) > 0 && FirstEvent(a + b, key) == FirstEvent(b, key)
  {
    if b == [] {
      assert a + b == a;
    } else {
      var front := b[..|b| - 1];
      assert (a + b)[..|a + b| - 1] == a + front;
      CountsOfConcat(a, front, RootKey, key);
      CountsOfConcat(a, b, RootKey, key);
      if Hits(a + front, key) > 0 {
        FirstOfConcat(a, front, key);
      }
    }
  }

  /** The walk up to and with one frame sees only that frame and those further out. */
  lemma {:induction false} TrailSeesOuter(inner: seq<Element>, outer: seq<Element>, n: nat, key: Key)
    requires n <= |outer|
    ensures Hits(Trail(inner + outer, n), key) == Hits(Trail(outer, n), key)
  {
    if n > 0 {
      TrailSeesOuter(inner, outer, n - 1, key);
      assert (inner + outer)[|inner + outer| - n] == outer[|outer| - n];
      hide ElementKey;
      AppendedLast(Trail(inner + outer, n - 1), TrailEvent(inner + outer, n));
      AppendedLast(Trail(outer, n - 1), TrailEvent(outer, n));
    }
  }

  lemma {:induction false} TrailGoesOn(frames: seq<Element>, n: nat, m: nat)
    requires n <= m <= |frames|
    ensures exists rest :: Trail(frames, m) == Trail(frames, n) + rest
  {
    if n == m {
      AppendNothing(Trail(frames, n));
    } else {
      TrailGoesOn(frames, n, m - 1);
      var rest :| Trail(frames, m - 1) == Trail(frames, n) + rest;
      AppendIsAssociative(Trail(frames, n), rest, [TrailEvent(frames, m)]);
    }
  }

  /** The first event of a method in a sample's walk is that of its outermost frame. */
  lemma FirstInTrail(inner: seq<Element>, f: Element, outer: seq<Element>)
    requires Hits(Trail(outer, |outer|), ElementKey(f)) == 0
    ensures
      var frames := inner + ([f] + outer);
      && Hits(Trail(frames, |frames|), ElementKey(f)) > 0
      && FirstEvent(Trail(frames, |frames|), ElementKey(f)) == TrailEvent(frames, |outer| + 1)
  {
    hide ElementKey;
    var frames, key, n := inner + ([f] + outer), ElementKey(f), |outer| + 1;
    assert frames == (inner + [f]) + outer;
    TrailSeesOuter(inner + [f], outer, |outer|, key);
    TrailGoesOn(frames, n, |frames|);
    var rest :| Trail(frames, |frames|) == Trail(frames, n) + rest;
    AppendedLast(Trail(frames, |outer|), TrailEvent(frames, n));
    assert TrailEvent(frames, n).key == key;
    CountsOfConcat(Trail(frames, n), rest, RootKey, key);
    FirstOfConcat(Trail(frames, n), rest, key);
  }

  /** The first counted position of a method: no earlier sample has it, and no frame further out is it. */
  ghost predicate IsFirstPosition(threadFilter: string, samples: seq<Sample>, s: nat, i: nat, text: string) {
    && s < |samples| && IsCountedSample(threadFilter, samples[s]) && IsFrameAt(samples[s].stackTrace, i, text)
    && FramesIn(samples[s].stackTrace, i + 1, text) == 0
    && FramesSeen(threadFilter, samples, s, text) == 0
  }

  /** The key of the nearest kept frame further out than position i; the root's if there is none. */
  ghost predicate IsCallerKey(trace: seq<Element>, i: nat, key: Key) {
    if key == RootKey then forall j :: i < j < |trace| ==> !IsKept(trace, j)
    else exists j :: IsCallerOf(trace, j, i) && IsMethod(trace[j], key.text)
  }

  lemma OuterKey(trace: seq<Element>, i: nat) returns (key: Key)
    requires i < |trace|
    ensures
      var outer := Retained(trace[i + 1..]);
      key == if outer == [] then RootKey else ElementKey(outer[0])
    ensures IsCallerKey(trace, i, key)
  {
    hide Retained, IsStateLine;
    var outer := Retained(trace[i + 1..]);
    var j := FirstKept(trace, i + 1);
    key := if outer == [] then RootKey else ElementKey(outer[0]);
    if j < |trace| {
      assert IsCallerOf(trace, j, i);
    }
  }

  lemma FirstEventAt(threadFilter: string, samples: seq<Sample>, s: nat, i: nat, text: string) returns (caller: Key)
    requires IsFirstPosition(threadFilter, samples, s, i, text)
    ensures s < |samples| && i < |samples[s].stackTrace|
    ensures Hits(AllEvents(threadFilter, samples[..s + 1]), MethodKey(text)) > 0
    ensures
      var first, frame := FirstEvent(AllEvents(threadFilter, samples[..s + 1]), MethodKey(text)), samples[s].stackTrace[i];
      first.frame == frame && first.caller == caller && IsCallerKey(samples[s].stackTrace, i, caller)
  {
    hide FramesIn, FramesSeen, IsStateLine, Contains, IsMethod, ElementKey, Trail, Retained, IsCallerKey;
    var trace := samples[s].stackTrace;
    var f, inner, outer := trace[i], Retained(trace[..i]), Retained(trace[i + 1..]);
    SameMethod(f, text);
    RetainedSplit(trace, i);
    RetainedHead(trace[i..]);
    assert trace[i..][1..] == trace[i + 1..];
    FramesAreHits(trace, i + 1, text);
    FirstInTrail(inner, f, outer);
    caller := OuterKey(trace, i);
    FirstCaller(inner, f, outer);
    var before := AllEvents(threadFilter, samples[..s]);
    EventsAreSeen(threadFilter, samples, s, text, text);
    assert samples[..s + 1][..s] == samples[..s];
    var now := SampleEvents(threadFilter, samples[s]);
    CountsOfConcat(before, now, RootKey, MethodKey(text));
    FirstOfConcat(before, now, MethodKey(text));
  }

  lemma FirstCaller(inner: seq<Element>, f: Element, outer: seq<Element>)
    ensures
      var frames := inner + ([f] + outer);
      var e := TrailEvent(frames, |outer| + 1);
      e.frame == f && e.caller == if outer == [] then RootKey else ElementKey(outer[0])
  {
  }

  lemma {:induction false} FirstStays(threadFilter: string, samples: seq<Sample>, n: nat, key: Key)
    requires n <= |samples| && Hits(AllEvents(threadFilter, samples[..n]), key) > 0
    ensures Hits(AllEvents(threadFilter, samples), key) > 0
    ensures FirstEvent(AllEvents(threadFilter, samples), key) == FirstEvent(AllEvents(threadFilter, samples[..n]), key)
  {
    hide SampleEvents, FirstEvent;
    if n == |samples| {
      assert samples[..n] == samples;
    } else {
      var front := samples[..|samples| - 1];
      assert front[..n] == samples[..n];
      FirstStays(threadFilter, front, n, key);
      var last := SampleEvents(threadFilter, samples[|samples| - 1]);
      CountsOfConcat(AllEvents(threadFilter, front), last, RootKey, key);
      FirstOfConcat(AllEvents(threadFilter, front), last, key);
    }
  }

  /**
   * A node's names, file and line are those of its method's first counted position: in the first counted sample that
   * has the method, the outermost of its frames. Its parent is the node of the caller there.
   */
  lemma NodeComesFromFirstPosition(threadFilter: string, samples: seq<Sample>, interval: real, s: nat, i: nat,
                                   text: string) returns (caller: Key)
    requires IsFirstPosition(threadFilter, samples, s, i, text)
    ensures IsCallerKey(samples[s].stackTrace, i, caller)
    ensures
      var g, frame := CallTreeOf(threadFilter, samples, interval), samples[s].stackTrace[i];
      && MethodKey(text) in g.nodeMap && caller in g.nodeMap
      && var node := g.nodes[g.nodeMap[MethodKey(text)]];
      && node.parentId == Some(g.nodeMap[caller])
      && node.className == frame.className && node.methodName == frame.methodName
      && node.descriptor == frame.descriptor && node.fileName == frame.fileName && node.lineNumber == frame.lineNumber
  {
    hide Built, Chained, AllEvents, Hits, FirstEvent, IsCallerKey, IsFirstPosition;
    caller := FirstEventAt(threadFilter, samples, s, i, text);
    FirstStays(threadFilter, samples, s + 1, MethodKey(text));
    AllEventsChain(threadFilter, samples);
    NodeComesFromFirstEvent(AllEvents(threadFilter, samples), interval, MethodKey(text));
  }
}
