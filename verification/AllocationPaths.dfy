/** Which callers an allocation is recorded under, and in which order, told by positions on the stack. */
module AllocationPaths {
  import Sequences
  import opened MethodStacks
  import opened LiveAllocations

  /** The boundary frame nearest to the top. */
  predicate IsBoundaryRoot(frames: seq<StackFrame>, root: int) {
    && 0 <= root < |frames| && frames[root].allocationBoundary
    && forall k :: 0 <= k < root ==> !frames[k].allocationBoundary
  }

  predicate HasNoBoundary(frames: seq<StackFrame>) {
    forall k :: 0 <= k < |frames| ==> !frames[k].allocationBoundary
  }

  /**
   * The callers are the frames at these positions: in the order of the stack, from `from` outwards, each frame but
   * those of the method the path starts from.
   */
  ghost predicate AreCallers(callers: Path, frames: seq<StackFrame>, from: nat, start: int, at: seq<nat>) {
    && |at| == |callers|
    && (forall k :: 0 <= k < |at| ==> from <= at[k] < |frames| && callers[k] == frames[at[k]].methodId)
    && (forall j, k :: 0 <= j < k < |at| ==> at[j] < at[k])
    && forall p: nat :: p in at <==> from <= p < |frames| && frames[p].methodId != start
  }

  /** One frame more, further out than all the others. */
  lemma OneMoreCaller(callers: Path, frames: seq<StackFrame>, start: int, at: seq<nat>, last: StackFrame)
    requires AreCallers(callers, frames, 0, start, at) && last.methodId >= 0
    ensures last.methodId == start ==> AreCallers(callers, frames + [last], 0, start, at)
    ensures last.methodId != start ==>
      AreCallers(callers + [last.methodId as nat], frames + [last], 0, start, at + [|frames|])
  {
    var longer := frames + [last];
    forall p: nat
      ensures p < |longer| && longer[p].methodId != start <==>
        p in at || (p == |frames| && last.methodId != start)
    {
    }
  }

  lemma {:induction false} IdsAreAtPositions(frames: seq<StackFrame>, skipped: int) returns (at: seq<nat>)
    requires RegisteredFrames(frames)
    ensures AreCallers(IdsExcept(frames, skipped), frames, 0, skipped, at)
  {
    if frames == [] {
      at := [];
    } else {
      hide AreCallers;
      var n := |frames| - 1;
      at := IdsAreAtPositions(frames[..n], skipped);
      OneMoreCaller(IdsExcept(frames[..n], skipped), frames[..n], skipped, at, frames[n]);
      assert frames[..n] + [frames[n]] == frames;
      assert IdsExcept(frames[..n], skipped) + [] == IdsExcept(frames[..n], skipped);
      if frames[n].methodId != skipped {
        at := at + [n];
      }
    }
  }

  /** Positions counted from a frame further out. */
  lemma ShiftedPositions(callers: Path, frames: seq<StackFrame>, from: nat, start: int, at: seq<nat>)
    returns (shifted: seq<nat>)
    requires from <= |frames| && AreCallers(callers, frames[from..], 0, start, at)
    ensures AreCallers(callers, frames, from, start, shifted)
  {
    shifted := seq(|at|, k requires 0 <= k < |at| => at[k] + from);
    forall p: nat
      ensures p in shifted <==> from <= p < |frames| && frames[p].methodId != start
    {
      ShiftedMember(at, shifted, from, p);
      if p >= from {
        assert p < |frames| ==> frames[from..][p - from] == frames[p];
      }
    }
  }

  lemma ShiftedMember(at: seq<nat>, shifted: seq<nat>, from: nat, p: nat)
    requires |shifted| == |at| && forall k :: 0 <= k < |at| ==> shifted[k] == at[k] + from
    ensures p in shifted <==> p >= from && p - from in at
  {
    if p in shifted {
      var k :| 0 <= k < |shifted| && shifted[k] == p;
      assert at[k] == p - from;
    }
    if p >= from && p - from in at {
      var k :| 0 <= k < |at| && at[k] == p - from;
      assert shifted[k] == p;
    }
  }

  lemma RootIsIt(frames: seq<StackFrame>, root: int)
    requires IsBoundaryRoot(frames, root)
    ensures RootIndex(frames) == root
  {
  }

  lemma NoRoot(frames: seq<StackFrame>)
    requires HasNoBoundary(frames)
    ensures RootIndex(frames) == -1
  {
  }

  // ---- what is recorded

  predicate IsArrayType(allocatedType: string) {
    |allocatedType| >= 2 && allocatedType[|allocatedType| - 2] == '[' && allocatedType[|allocatedType| - 1] == ']'
  }

  lemma BoundaryCallers(frames: seq<StackFrame>, root: nat) returns (at: seq<nat>)
    requires RegisteredFrames(frames) && root < |frames|
    ensures
      var path, id := PathFromBoundary(frames, root), frames[root].methodId;
      path != [] && path[0] == id && AreCallers(path[1..], frames, root + 1, id, at)
  {
    hide IdsExcept, AreCallers;
    var id := frames[root].methodId;
    var ids := IdsExcept(frames[root + 1..], id);
    at := IdsAreAtPositions(frames[root + 1..], id);
    at := ShiftedPositions(ids, frames, root + 1, id, at);
    assert PathFromBoundary(frames, root)[1..] == ids;
  }

  /**
   * Under a boundary frame: recorded exactly if it is no array and the boundary is not the thread pool's; then the path
   * starts at the boundary and holds the callers further out.
   */
  lemma PathUnderBoundary(metas: map<int, Meta>, frames: seq<StackFrame>, allocationMethodId: int,
                          allocatedType: string, root: int) returns (at: seq<nat>)
    requires RegisteredFrames(frames) && IsBoundaryRoot(frames, root)
    ensures
      var path, id := RecordedPath(metas, frames, allocationMethodId, allocatedType), frames[root].methodId;
      var dropped := IsArrayType(allocatedType)
        || (id in metas && "java.util.concurrent.ThreadPoolExecutor" <= metas[id].className);
      if dropped then path == []
      else path != [] && path[0] == id && AreCallers(path[1..], frames, root + 1, id, at)
  {
    hide AreCallers, PathFromBoundary, PathFromMethod, IsArrayType, Sequences.EndsWith, RootIndex, IsInternalBackingArray,
      IsNoisyInternalRoot;
    RootIsIt(frames, root);
    EndsInBrackets(allocatedType);
    at := BoundaryCallers(frames, root);
  }

  lemma EndsInBrackets(allocatedType: string)
    ensures Sequences.EndsWith(allocatedType, "[]") <==> IsArrayType(allocatedType)
  {
    if |allocatedType| >= 2 {
      assert allocatedType[|allocatedType| - 2..] == [allocatedType[|allocatedType| - 2], allocatedType[|allocatedType| - 1]];
    }
  }

  /**
   * Without a boundary: the path starts at the allocating method, if that is known, and holds the callers from the top
   * of the stack outwards.
   */
  lemma PathFromAllocator(metas: map<int, Meta>, frames: seq<StackFrame>, allocationMethodId: int,
                          allocatedType: string) returns (at: seq<nat>)
    requires RegisteredFrames(frames) && HasNoBoundary(frames)
    requires !IsFiltered(metas, frames, allocationMethodId, allocatedType)
    ensures
      var path := RecordedPath(metas, frames, allocationMethodId, allocatedType);
      if allocationMethodId >= 0 then
        path != [] && path[0] == allocationMethodId && AreCallers(path[1..], frames, 0, allocationMethodId, at)
      else
        AreCallers(path, frames, 0, allocationMethodId, at) && |path| == |frames|
  {
    NoRoot(frames);
    hide IdsExcept, IsFiltered, RootIndex;
    at := IdsAreAtPositions(frames, allocationMethodId);
    var ids := IdsExcept(frames, allocationMethodId);
    if allocationMethodId >= 0 {
      assert ([allocationMethodId as nat] + ids)[1..] == ids;
    } else {
      assert [] + ids == ids;
      AllPositions(frames, 0, allocationMethodId, ids, at);
    }
  }

  /** If no frame is left out, the callers are the frames one by one. */
  lemma {:induction false} AllPositions(frames: seq<StackFrame>, from: nat, start: int, callers: Path, at: seq<nat>)
    requires AreCallers(callers, frames, from, start, at) && from <= |frames|
    requires forall p :: from <= p < |frames| ==> frames[p].methodId != start
    ensures |callers| == |frames| - from
    ensures forall k :: 0 <= k < |callers| ==> callers[k] == frames[from + k].methodId
  {
    EveryPosition(at, from, |frames|);
  }

  lemma LastIsLargest(at: seq<nat>, end: nat, k: nat)
    requires k < |at| && at[k] + 1 == end && at[|at| - 1] < end
    requires forall i, j :: 0 <= i < j < |at| ==> at[i] < at[j]
    ensures k == |at| - 1
  {
  }

  /** A strictly increasing list of all the numbers from `from` up to `end`. */
  ghost predicate IsRange(at: seq<nat>, from: nat, end: nat) {
    && (forall j, k :: 0 <= j < k < |at| ==> at[j] < at[k])
    && forall p: nat :: p in at <==> from <= p < end
  }

  /** Without its last number, the list holds all but the last. */
  lemma WithoutLast(at: seq<nat>, from: nat, end: nat)
    requires from < end && IsRange(at, from, end)
    ensures at != [] && at[|at| - 1] == end - 1 && IsRange(at[..|at| - 1], from, end - 1)
  {
    assert end - 1 in at;
    var k :| 0 <= k < |at| && at[k] == end - 1;
    assert at[|at| - 1] in at;
    LastIsLargest(at, end, k);
    assert at == at[..k] + [end - 1];
    forall p: nat ensures p in at[..k] <==> from <= p < end - 1 {
      assert p in at <==> p in at[..k] || p == end - 1;
    }
  }

  lemma {:induction false} EveryPosition(at: seq<nat>, from: nat, end: nat)
    requires from <= end && IsRange(at, from, end)
    ensures |at| == end - from
    ensures forall k :: 0 <= k < |at| ==> at[k] == from + k
    decreases end - from
  {
    assert at != [] ==> at[0] in at;
    if from < end {
      WithoutLast(at, from, end);
      var n := |at| - 1;
      EveryPosition(at[..n], from, end - 1);
      forall k | 0 <= k < n ensures at[k] == from + k {
        assert at[..n][k] == at[k];
      }
    }
  }

  /** So if the start method is nowhere else on the stack, the path is the stack as it stands behind its start. */
  lemma PathIsTheStack(metas: map<int, Meta>, frames: seq<StackFrame>, allocationMethodId: nat, allocatedType: string)
    requires RegisteredFrames(frames) && HasNoBoundary(frames)
    requires !IsFiltered(metas, frames, allocationMethodId, allocatedType)
    requires forall p :: 0 <= p < |frames| ==> frames[p].methodId != allocationMethodId
    ensures
      var path := RecordedPath(metas, frames, allocationMethodId, allocatedType);
      && |path| == |frames| + 1 && path[0] == allocationMethodId
      && forall k :: 0 <= k < |frames| ==> path[k + 1] == frames[k].methodId
  {
    hide RecordedPath, IsFiltered, AreCallers;
    var path := RecordedPath(metas, frames, allocationMethodId, allocatedType);
    var at := PathFromAllocator(metas, frames, allocationMethodId, allocatedType);
    AllPositions(frames, 0, allocationMethodId, path[1..], at);
    forall k | 0 <= k < |frames| ensures path[k + 1] == frames[k].methodId {
      assert path[1..][k] == path[k + 1];
    }
  }

  lemma BoundaryPathIsTheStack(metas: map<int, Meta>, frames: seq<StackFrame>, allocationMethodId: int,
                               allocatedType: string, root: int)
    requires RegisteredFrames(frames) && IsBoundaryRoot(frames, root)
    requires RecordedPath(metas, frames, allocationMethodId, allocatedType) != []
    requires forall p :: root < p < |frames| ==> frames[p].methodId != frames[root].methodId
    ensures
      var path := RecordedPath(metas, frames, allocationMethodId, allocatedType);
      && |path| == |frames| - root
      && forall k :: 0 <= k < |path| ==> path[k] == frames[root + k].methodId
  {
    hide RecordedPath, IsArrayType, AreCallers;
    var path := RecordedPath(metas, frames, allocationMethodId, allocatedType);
    var at := PathUnderBoundary(metas, frames, allocationMethodId, allocatedType, root);
    AllPositions(frames, root + 1, frames[root].methodId, path[1..], at);
    forall k | 0 < k < |path| ensures path[k] == frames[root + k].methodId {
      assert path[1..][k - 1] == path[k];
    }
  }

  // ---- what the filters drop

  predicate IsPlatformClass(className: string) {
    || "java." <= className || "javax." <= className || "sun." <= className || "com.sun." <= className
    || "jdk." <= className
  }

  const NOISY_ROOTS: seq<string> := [
    "com.sun.net.httpserver.Headers.", "sun.net.www.MessageHeader.", "java.util.LinkedList.",
    "sun.net.www.protocol.http.HttpURLConnection.<init>", "sun.net.httpserver.ServerImpl$Exchange.",
    "sun.net.httpserver.ServerImpl$Dispatcher."]

  /** A method of the platform's own bookkeeping, told by the text of its class and name. */
  predicate IsNoisy(name: string, allocatedType: string) {
    || (exists k :: 0 <= k < |NOISY_ROOTS| && NOISY_ROOTS[k] <= name)
    || (name == "sun.net.www.protocol.http.Handler.openConnection"
        && allocatedType == "sun.net.www.protocol.http.HttpURLConnection")
  }

  lemma NoisyIsListed(metas: map<int, Meta>, methodId: int, allocatedType: string)
    requires methodId in metas
    ensures
      IsNoisyInternalRoot(metas, methodId, allocatedType) <==>
      IsNoisy(metas[methodId].className + "." + metas[methodId].methodName, allocatedType)
  {
    assert |NOISY_ROOTS| == 6;
    var m := metas[methodId].className + "." + metas[methodId].methodName;
    assert (exists k :: 0 <= k < |NOISY_ROOTS| && NOISY_ROOTS[k] <= m) <==>
      NOISY_ROOTS[0] <= m || NOISY_ROOTS[1] <= m || NOISY_ROOTS[2] <= m || NOISY_ROOTS[3] <= m
      || NOISY_ROOTS[4] <= m || NOISY_ROOTS[5] <= m;
  }

  /** No platform class is one of a profiler's, so leaving those out changes nothing. */
  lemma PlatformIsNoProfiler(className: string)
    ensures IsPlatformClass(className) ==> !("com.ejt." <= className) && !("com.openprofiler." <= className)
  {
    if "com.ejt." <= className {
      assert className[0] == 'c' && className[4] == 'e';
    }
    if "com.openprofiler." <= className {
      assert className[0] == 'c' && className[4] == 'o';
    }
  }

  /**
   * Without a boundary an allocation is dropped exactly if a platform class makes an array outside three methods that
   * read and split text, or a method of the platform's bookkeeping allocates.
   */
  lemma DroppedWithoutBoundary(metas: map<int, Meta>, frames: seq<StackFrame>, allocationMethodId: nat,
                               allocatedType: string)
    requires RegisteredFrames(frames) && HasNoBoundary(frames)
    ensures
      RecordedPath(metas, frames, allocationMethodId, allocatedType) == [] <==>
      allocationMethodId in metas
      && var m := metas[allocationMethodId];
         (IsArrayType(allocatedType) && IsPlatformClass(m.className)
          && m.methodName !in ["readLine", "split", "getBytes"])
         || IsNoisy(m.className + "." + m.methodName, allocatedType)
  {
    NoRoot(frames);
    EndsInBrackets(allocatedType);
    if allocationMethodId in metas {
      NoisyIsListed(metas, allocationMethodId, allocatedType);
      PlatformIsNoProfiler(metas[allocationMethodId].className);
    }
    hide IdsExcept, RootIndex, IsNoisy, IsArrayType, Sequences.EndsWith;
  }
}
