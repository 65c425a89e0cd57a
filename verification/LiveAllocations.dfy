/** The agent's allocation trie: statistics per call path, kept by recording each object on every prefix. */
module LiveAllocations {
  import opened Sequences
  import opened MethodStacks

  type Path = seq<nat>

  /** An object recorded on a path; its position in the history identifies it. */
  datatype Event = Event(path: Path, size: nat)

  /** A weakly held object and its size. */
  datatype Sample = Sample(obj: nat, size: nat)

  datatype Stats = Stats(methodId: nat, parentPath: Path, allocatedSize: nat, instanceCount: nat, liveSamples: seq<Sample>)

  /** The samples a path should hold: the events recorded on an extension of it. */
  function SamplesAt(events: seq<Event>, p: Path): seq<Sample> {
    if events == [] then []
    else
      var n := |events| - 1;
      SamplesAt(events[..n], p) + (if p <= events[n].path then [Sample(n, events[n].size)] else [])
  }

  function SizeAt(events: seq<Event>, p: Path): nat {
    if events == [] then 0
    else
      var n := |events| - 1;
      SizeAt(events[..n], p) + (if p <= events[n].path then events[n].size else 0)
  }

  predicate Known(events: seq<Event>, p: Path) {
    p != [] && SamplesAt(events, p) != []
  }

  function StatsAt(events: seq<Event>, p: Path): Stats
    requires p != []
  {
    Stats(p[|p| - 1], p[..|p| - 1], SizeAt(events, p), |SamplesAt(events, p)|, SamplesAt(events, p))
  }

  /** The trie is exactly what the history says, path by path. */
  ghost predicate Represents(stats: map<Path, Stats>, events: seq<Event>) {
    && (forall p :: p in stats <==> Known(events, p))
    && (forall p :: p in stats ==> stats[p] == StatsAt(events, p))
  }

  lemma LastEvent(events: seq<Event>, e: Event, p: Path)
    ensures SamplesAt(events + [e], p) == SamplesAt(events, p) + (if p <= e.path then [Sample(|events|, e.size)] else [])
    ensures SizeAt(events + [e], p) == SizeAt(events, p) + (if p <= e.path then e.size else 0)
  {
    assert (events + [e])[..|events|] == events;
  }

  /** Recording an object one segment further touches that one path and no other. */
  lemma OneSegmentFurther(events: seq<Event>, parent: Path, m: nat, size: nat, p: Path)
    ensures
      var path := parent + [m];
      var before, after := events + [Event(parent, size)], events + [Event(path, size)];
      if p == path then
        && SamplesAt(after, p) == SamplesAt(before, p) + [Sample(|events|, size)]
        && SizeAt(after, p) == SizeAt(before, p) + size
      else
        SamplesAt(after, p) == SamplesAt(before, p) && SizeAt(after, p) == SizeAt(before, p)
  {
    var path := parent + [m];
    LastEvent(events, Event(parent, size), p);
    LastEvent(events, Event(path, size), p);
    if p <= path && p != path {
      assert path[..|p|] == parent[..|p|];
    }
    if p <= parent {
      assert path[..|p|] == parent[..|p|];
    }
  }

  /** An event on the empty path is on no node. */
  lemma EmptyPathIsNowhere(stats: map<Path, Stats>, events: seq<Event>, size: nat)
    requires Represents(stats, events)
    ensures Represents(stats, events + [Event([], size)])
  {
    forall p: Path | p != []
      ensures SamplesAt(events + [Event([], size)], p) == SamplesAt(events, p)
      ensures SizeAt(events + [Event([], size)], p) == SizeAt(events, p)
    {
      LastEvent(events, Event([], size), p);
    }
  }

  function WithSample(s: Stats, size: nat, obj: nat): Stats {
    s.(allocatedSize := s.allocatedSize + size, instanceCount := s.instanceCount + 1,
       liveSamples := s.liveSamples + [Sample(obj, size)])
  }

  lemma {:induction false} NothingRecorded(events: seq<Event>, p: Path)
    requires SamplesAt(events, p) == []
    ensures SizeAt(events, p) == 0
  {
    if events != [] {
      NothingRecorded(events[..|events| - 1], p);
    }
  }

  /** What one segment's update does to the entry of a path. */
  lemma SegmentUpdatesOneEntry(stats: map<Path, Stats>, events: seq<Event>, parent: Path, m: nat, size: nat, p: Path)
    requires Represents(stats, events + [Event(parent, size)]) && p != []
    ensures
      var path := parent + [m];
      var s := if path in stats then stats[path] else Stats(m, parent, 0, 0, []);
      var stats' := stats[path := WithSample(s, size, |events|)];
      var after := events + [Event(path, size)];
      (p in stats' <==> Known(after, p)) && (p in stats' ==> stats'[p] == StatsAt(after, p))
  {
    var path := parent + [m];
    var before := events + [Event(parent, size)];
    OneSegmentFurther(events, parent, m, size, p);
    assert p in stats <==> Known(before, p);
    assert path[..|path| - 1] == parent;
    if p == path && SamplesAt(before, p) == [] {
      NothingRecorded(before, p);
    }
    hide SamplesAt, SizeAt;
  }

  lemma SegmentKeepsRepresentation(stats: map<Path, Stats>, events: seq<Event>, parent: Path, m: nat, size: nat)
    requires Represents(stats, events + [Event(parent, size)])
    ensures
      var path := parent + [m];
      var s := if path in stats then stats[path] else Stats(m, parent, 0, 0, []);
      Represents(stats[path := WithSample(s, size, |events|)], events + [Event(path, size)])
  {
    var path := parent + [m];
    var s := if path in stats then stats[path] else Stats(m, parent, 0, 0, []);
    var stats' := stats[path := WithSample(s, size, |events|)];
    var after := events + [Event(path, size)];
    forall p: Path
      ensures p in stats' <==> Known(after, p)
      ensures p in stats' ==> stats'[p] == StatsAt(after, p)
    {
      if p != [] {
        SegmentUpdatesOneEntry(stats, events, parent, m, size, p);
      } else {
        assert [] !in stats;
      }
    }
    hide Known, StatsAt;
  }

  // ---- which path an allocation is recorded on

  datatype Meta = Meta(className: string, methodName: string)

  predicate IsInternalBackingArray(metas: map<int, Meta>, methodId: int, allocatedType: string) {
    if !EndsWith(allocatedType, "[]") || methodId !in metas then false
    else
      var meta := metas[methodId];
      && !("com.ejt." <= meta.className) && !("com.openprofiler." <= meta.className)
      && meta.methodName != "readLine" && meta.methodName != "split" && meta.methodName != "getBytes"
      && ("java." <= meta.className || "javax." <= meta.className || "sun." <= meta.className
          || "com.sun." <= meta.className || "jdk." <= meta.className)
  }

  predicate IsNoisyInternalRoot(metas: map<int, Meta>, methodId: int, allocatedType: string) {
    if methodId !in metas then false
    else
      var m := metas[methodId].className + "." + metas[methodId].methodName;
      || (m == "sun.net.www.protocol.http.Handler.openConnection"
          && allocatedType == "sun.net.www.protocol.http.HttpURLConnection")
      || "com.sun.net.httpserver.Headers." <= m || "sun.net.www.MessageHeader." <= m || "java.util.LinkedList." <= m
      || "sun.net.www.protocol.http.HttpURLConnection.<init>" <= m
      || "sun.net.httpserver.ServerImpl$Exchange." <= m || "sun.net.httpserver.ServerImpl$Dispatcher." <= m
  }

  predicate IsNoisyBoundaryRoot(metas: map<int, Meta>, methodId: int) {
    methodId in metas && "java.util.concurrent.ThreadPoolExecutor" <= metas[methodId].className
  }

  /** Frames are pushed with ids the registry gave out. */
  predicate RegisteredFrames(frames: seq<StackFrame>) {
    forall k :: 0 <= k < |frames| ==> frames[k].methodId >= 0
  }

  /** The ids of some frames, those of one method left out. */
  function IdsExcept(frames: seq<StackFrame>, skipped: int): Path
    requires RegisteredFrames(frames)
  {
    if frames == [] then []
    else
      var last := frames[|frames| - 1].methodId;
      IdsExcept(frames[..|frames| - 1], skipped) + (if last == skipped then [] else [last])
  }

  /** Position of the innermost boundary frame, -1 if there is none. */
  function RootIndex(frames: seq<StackFrame>): (r: int)
    ensures -1 <= r < |frames|
    ensures r >= 0 ==> frames[r].allocationBoundary && forall k :: 0 <= k < r ==> !frames[k].allocationBoundary
    ensures r < 0 ==> forall k :: 0 <= k < |frames| ==> !frames[k].allocationBoundary
  {
    if frames == [] then -1
    else
      var before := RootIndex(frames[..|frames| - 1]);
      if before >= 0 then before
      else if frames[|frames| - 1].allocationBoundary then |frames| - 1 else -1
  }

  /** Allocations under a boundary frame are recorded from that frame outwards. */
  function PathFromBoundary(frames: seq<StackFrame>, root: nat): Path
    requires RegisteredFrames(frames) && root < |frames|
  {
    [frames[root].methodId] + IdsExcept(frames[root + 1..], frames[root].methodId)
  }

  /** Other allocations are recorded from the allocating method outwards. */
  function PathFromMethod(frames: seq<StackFrame>, allocationMethodId: int): Path
    requires RegisteredFrames(frames)
  {
    (if allocationMethodId >= 0 then [allocationMethodId] else []) + IdsExcept(frames, allocationMethodId)
  }

  predicate IsFiltered(metas: map<int, Meta>, frames: seq<StackFrame>, allocationMethodId: int, allocatedType: string) {
    var root := RootIndex(frames);
    if root >= 0 then EndsWith(allocatedType, "[]") || IsNoisyBoundaryRoot(metas, frames[root].methodId)
    else
      || IsInternalBackingArray(metas, allocationMethodId, allocatedType)
      || IsNoisyInternalRoot(metas, allocationMethodId, allocatedType)
  }

  /** The path of an allocation, innermost method first; empty if it is not recorded. */
  function RecordedPath(metas: map<int, Meta>, frames: seq<StackFrame>, allocationMethodId: int, allocatedType: string):
    Path
    requires RegisteredFrames(frames)
  {
    var root := RootIndex(frames);
    if IsFiltered(metas, frames, allocationMethodId, allocatedType) then []
    else if root >= 0 then PathFromBoundary(frames, root)
    else PathFromMethod(frames, allocationMethodId)
  }

  lemma {:induction false} SkippedIsNotListed(frames: seq<StackFrame>, skipped: int, k: nat)
    requires RegisteredFrames(frames) && k < |IdsExcept(frames, skipped)|
    ensures IdsExcept(frames, skipped)[k] != skipped
  {
    var before := IdsExcept(frames[..|frames| - 1], skipped);
    if k < |before| {
      SkippedIsNotListed(frames[..|frames| - 1], skipped, k);
    }
  }

  lemma BoundaryStartsOnce(frames: seq<StackFrame>, root: nat, k: nat)
    requires RegisteredFrames(frames) && root < |frames| && 0 < k < |PathFromBoundary(frames, root)|
    ensures PathFromBoundary(frames, root)[k] != PathFromBoundary(frames, root)[0]
  {
    hide IdsExcept;
    SkippedIsNotListed(frames[root + 1..], frames[root].methodId, k - 1);
  }

  lemma MethodStartsOnce(frames: seq<StackFrame>, allocationMethodId: nat, k: nat)
    requires RegisteredFrames(frames) && 0 < k < |PathFromMethod(frames, allocationMethodId)|
    ensures PathFromMethod(frames, allocationMethodId)[k] != PathFromMethod(frames, allocationMethodId)[0]
  {
    hide IdsExcept;
    SkippedIsNotListed(frames, allocationMethodId, k - 1);
  }

  /** Recursion is folded: the method a path starts from is not on it again. */
  lemma StartIsOnItsPathOnce(
    metas: map<int, Meta>, frames: seq<StackFrame>, allocationMethodId: int, allocatedType: string, k: nat)
    requires RegisteredFrames(frames) && (RootIndex(frames) >= 0 || allocationMethodId >= 0)
    requires 0 < k < |RecordedPath(metas, frames, allocationMethodId, allocatedType)|
    ensures
      var path := RecordedPath(metas, frames, allocationMethodId, allocatedType);
      path[k] != path[0]
  {
    hide IsFiltered, PathFromBoundary, PathFromMethod, RegisteredFrames;
    var root := RootIndex(frames);
    if root >= 0 {
      BoundaryStartsOnce(frames, root, k);
    } else {
      MethodStartsOnce(frames, allocationMethodId, k);
    }
  }

  class AllocationTrie {
    var stats: map<Path, Stats>
    ghost var history: seq<Event>

    ghost predicate Valid()
      reads this
    {
      Represents(stats, history)
    }

    constructor ()
      ensures Valid() && history == []
    {
      stats, history := map[], [];
    }

    /** One prefix: the statistics are made if missing, and the object is added to them. */
    method AddAllocationPathSegment(parentPath: Path, methodId: nat, size: nat, ghost events: seq<Event>, obj: nat)
      returns (path: Path)
      requires Represents(stats, events + [Event(parentPath, size)]) && obj == |events|
      modifies this`stats
      ensures path == parentPath + [methodId]
      ensures Represents(stats, events + [Event(path, size)])
    {
      path := parentPath + [methodId];
      SegmentKeepsRepresentation(stats, events, parentPath, methodId, size);
      hide Represents, SamplesAt, SizeAt;
      var s := if path in stats then stats[path] else Stats(methodId, parentPath, 0, 0, []);
      stats := stats[path := WithSample(s, size, obj)];
    }

    /** Every frame's segment, those of one method left out. */
    method AddSegments(start: Path, frames: seq<StackFrame>, skipped: int, size: nat, ghost events: seq<Event>, obj: nat)
      returns (path: Path)
      requires Represents(stats, events + [Event(start, size)]) && obj == |events|
      requires RegisteredFrames(frames)
      modifies this`stats
      ensures path == start + IdsExcept(frames, skipped)
      ensures Represents(stats, events + [Event(path, size)])
    {
      path := start;
      for i := 0 to |frames|
        invariant path == start + IdsExcept(frames[..i], skipped)
        invariant Represents(stats, events + [Event(path, size)])
      {
        assert frames[..i + 1][..i] == frames[..i];
        if frames[i].methodId == skipped {
          continue;
        }
        path := AddAllocationPathSegment(path, frames[i].methodId, size, events, obj);
      }
      assert frames[..|frames|] == frames;
    }

    method RecordObjectAllocatedAt(metas: map<int, Meta>, frames: seq<StackFrame>, allocationMethodId: int,
                                   allocatedType: string, size: nat, obj: nat)
      requires Valid() && obj == |history|
      requires RegisteredFrames(frames)
      modifies this
      ensures Valid()
      ensures history ==
        old(history) + [Event(RecordedPath(metas, frames, allocationMethodId, allocatedType), size)]
    {
      hide EndsWith, IsInternalBackingArray, IsNoisyInternalRoot, IsNoisyBoundaryRoot, Represents;
      ghost var events := history;
      EmptyPathIsNowhere(stats, events, size);
      ghost var expected := RecordedPath(metas, frames, allocationMethodId, allocatedType);
      history := events + [Event([], size)];
      if frames == [] && allocationMethodId < 0 {
        return;
      }
      var rootIndex := FindRoot(frames);
      if rootIndex >= 0 {
        var rootMethodId := frames[rootIndex].methodId;
        if EndsWith(allocatedType, "[]") || IsNoisyBoundaryRoot(metas, rootMethodId) {
          return;
        }
        var path := AddAllocationPathSegment([], rootMethodId, size, events, obj);
        path := AddSegments(path, frames[rootIndex + 1..], rootMethodId, size, events, obj);
        assert path == expected;
        history := events + [Event(path, size)];
        return;
      }
      if IsInternalBackingArray(metas, allocationMethodId, allocatedType)
        || IsNoisyInternalRoot(metas, allocationMethodId, allocatedType) {
        return;
      }
      var path: Path := [];
      if allocationMethodId >= 0 {
        path := AddAllocationPathSegment(path, allocationMethodId, size, events, obj);
      }
      path := AddSegments(path, frames, allocationMethodId, size, events, obj);
      assert path == expected;
      history := events + [Event(path, size)];
    }

    method FindRoot(frames: seq<StackFrame>) returns (rootIndex: int)
      ensures rootIndex == RootIndex(frames)
    {
      for i := 0 to |frames|
        invariant RootIndex(frames[..i]) == -1
      {
        assert frames[..i + 1][..i] == frames[..i];
        if frames[i].allocationBoundary {
          RootIsStable(frames, i + 1);
          return i;
        }
      }
      assert frames[..|frames|] == frames;
      return -1;
    }
  }

  lemma {:induction false} RootIsStable(frames: seq<StackFrame>, n: nat)
    requires n <= |frames| && RootIndex(frames[..n]) >= 0
    ensures RootIndex(frames) == RootIndex(frames[..n])
  {
    if n < |frames| {
      var most := frames[..|frames| - 1];
      assert most[..n] == frames[..n];
      RootIsStable(most, n);
    } else {
      assert frames[..n] == frames;
    }
  }
}
