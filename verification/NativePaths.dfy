/** Which frames make the path of a native allocation callback, told by positions on the stack. */
module NativePaths {
  import opened Options
  import opened NativeAllocations

  /** A frame among the twelve that are looked at, whose method can be looked up. */
  predicate IsKnown(frames: seq<Frame>, p: int) {
    0 <= p < |frames| && p < 12 && frames[p].meta.Some?
  }

  predicate NoneKnown(frames: seq<Frame>, end: int) {
    forall p :: 0 <= p < end ==> !IsKnown(frames, p)
  }

  predicate IsProfilers(className: string) {
    || "com.openprofiler.agent." <= className || "com.openprofiler.protocol." <= className
    || "com.google.protobuf." <= className || "org.objectweb.asm." <= className
  }

  /** The first known frame, and it belongs to the profiler or to a library it brings along. */
  predicate IsProfilersFirst(frames: seq<Frame>, p: int) {
    IsKnown(frames, p) && NoneKnown(frames, p) && IsProfilers(frames[p].meta.value.className)
  }

  predicate ProfilerAllocated(frames: seq<Frame>) {
    exists p :: 0 <= p < |frames| && IsProfilersFirst(frames, p)
  }

  /** The steps are the known frames, in the order of the stack, none left out. */
  ghost predicate AreKnownFrames(path: seq<Step>, frames: seq<Frame>, at: seq<nat>) {
    && |at| == |path|
    && (forall k :: 0 <= k < |at| ==>
      IsKnown(frames, at[k]) && path[k] == Step(frames[at[k]].methodKey, frames[at[k]].meta.value))
    && (forall j, k :: 0 <= j < k < |at| ==> at[j] < at[k])
    && forall p: nat :: p in at <==> IsKnown(frames, p)
  }

  // ---- one frame more, further out

  lemma KnownAfter(frames: seq<Frame>, last: Frame, p: int)
    requires |frames| < 12
    ensures IsKnown(frames + [last], p) <==> IsKnown(frames, p) || (p == |frames| && last.meta.Some?)
  {
  }

  lemma OneMoreFrame(path: seq<Step>, frames: seq<Frame>, at: seq<nat>, last: Frame)
    requires |frames| < 12 && AreKnownFrames(path, frames, at)
    ensures last.meta.None? ==> AreKnownFrames(path, frames + [last], at)
    ensures last.meta.Some? ==>
      AreKnownFrames(path + [Step(last.methodKey, last.meta.value)], frames + [last], at + [|frames|])
  {
    var longer := frames + [last];
    forall p: nat
      ensures IsKnown(longer, p) <==> p in at || (p == |frames| && last.meta.Some?)
    {
      KnownAfter(frames, last, p);
    }
    forall k | 0 <= k < |at| ensures longer[at[k]] == frames[at[k]] {
    }
  }

  lemma FirstAfter(frames: seq<Frame>, last: Frame, p: int)
    requires |frames| < 12 && 0 <= p <= |frames|
    ensures
      IsProfilersFirst(frames + [last], p) <==>
      IsProfilersFirst(frames, p)
      || (p == |frames| && NoneKnown(frames, p) && last.meta.Some? && IsProfilers(last.meta.value.className))
  {
    hide IsKnown, IsProfilers;
    var longer := frames + [last];
    forall j | 0 <= j <= p ensures IsKnown(longer, j) <==> IsKnown(frames, j) || (j == |frames| && last.meta.Some?) {
      KnownAfter(frames, last, j);
    }
    assert longer[p] == if p < |frames| then frames[p] else last;
    InRange(frames, p);
  }

  lemma InRange(frames: seq<Frame>, p: int)
    ensures IsKnown(frames, p) ==> 0 <= p < |frames| && frames[p].meta.Some?
  {
  }

  /** The last frame decides only if no frame before it is known. */
  lemma ProfilerAfter(frames: seq<Frame>, last: Frame)
    requires |frames| < 12
    ensures
      ProfilerAllocated(frames + [last]) <==>
      ProfilerAllocated(frames)
      || (NoneKnown(frames, |frames|) && last.meta.Some? && IsProfilers(last.meta.value.className))
  {
    hide IsProfilersFirst, IsProfilers, NoneKnown;
    var longer := frames + [last];
    forall p | 0 <= p <= |frames|
      ensures
        IsProfilersFirst(longer, p) <==>
        IsProfilersFirst(frames, p)
        || (p == |frames| && NoneKnown(frames, p) && last.meta.Some? && IsProfilers(last.meta.value.className))
    {
      FirstAfter(frames, last, p);
    }
    FirstIsThere(frames);
    assert IsProfilersFirst(longer, |frames|) ==> ProfilerAllocated(longer);
  }

  lemma FirstIsThere(frames: seq<Frame>)
    ensures !IsProfilersFirst(frames, |frames|)
  {
  }

  lemma SameClasses(className: string)
    ensures IsAgentClass(className) <==> IsProfilers(className)
  {
  }

  lemma NoStepsNoFrames(path: seq<Step>, frames: seq<Frame>, at: seq<nat>)
    requires AreKnownFrames(path, frames, at)
    ensures path == [] <==> NoneKnown(frames, |frames|)
  {
    if path != [] {
      assert IsKnown(frames, at[0]);
    } else {
      forall p: nat ensures !IsKnown(frames, p) {
        assert p !in at;
      }
    }
  }

  lemma {:induction false} StepsByPosition(frames: seq<Frame>) returns (at: seq<nat>)
    requires |frames| <= 12
    ensures KnownSteps(frames).None? <==> ProfilerAllocated(frames)
    ensures KnownSteps(frames).Some? ==> AreKnownFrames(KnownSteps(frames).value, frames, at)
  {
    hide AreKnownFrames, ProfilerAllocated, IsAgentClass, IsProfilers, NoneKnown;
    at := [];
    if frames == [] {
      NoFrames();
    } else {
      var n := |frames| - 1;
      var before, last := frames[..n], frames[n];
      assert before + [last] == frames;
      at := StepsByPosition(before);
      ProfilerAfter(before, last);
      if KnownSteps(before).Some? {
        var path := KnownSteps(before).value;
        OneMoreFrame(path, before, at, last);
        NoStepsNoFrames(path, before, at);
        if last.meta.Some? {
          SameClasses(last.meta.value.className);
          at := at + [n];
        }
      }
    }
  }

  lemma NoFrames()
    ensures !ProfilerAllocated([]) && AreKnownFrames([], [], [])
  {
  }

  // ---- the twelve that are looked at

  lemma TopmostFirst(frames: seq<Frame>, p: int)
    ensures IsKnown(Topmost(frames), p) <==> IsKnown(frames, p)
    ensures IsProfilersFirst(Topmost(frames), p) <==> IsProfilersFirst(frames, p)
  {
    forall j ensures IsKnown(Topmost(frames), j) <==> IsKnown(frames, j) {
    }
  }

  lemma TopmostDecides(frames: seq<Frame>)
    ensures ProfilerAllocated(Topmost(frames)) <==> ProfilerAllocated(frames)
  {
    hide IsProfilersFirst, Topmost;
    if ProfilerAllocated(frames) {
      var p :| 0 <= p < |frames| && IsProfilersFirst(frames, p);
      TopmostFirst(frames, p);
      FirstInRange(Topmost(frames), p);
    }
    if ProfilerAllocated(Topmost(frames)) {
      var p :| 0 <= p < |Topmost(frames)| && IsProfilersFirst(Topmost(frames), p);
      TopmostFirst(frames, p);
      FirstInRange(frames, p);
    }
  }

  lemma FirstInRange(frames: seq<Frame>, p: int)
    ensures IsProfilersFirst(frames, p) ==> 0 <= p < |frames|
  {
  }

  lemma TopmostFrames(path: seq<Step>, frames: seq<Frame>, at: seq<nat>)
    ensures AreKnownFrames(path, Topmost(frames), at) ==> AreKnownFrames(path, frames, at)
  {
    hide IsProfilersFirst;
    var top := Topmost(frames);
    forall p: nat ensures IsKnown(top, p) <==> IsKnown(frames, p) {
      TopmostFirst(frames, p);
    }
    assert forall p :: 0 <= p < |top| ==> top[p] == frames[p];
  }

  /**
   * The path of a callback holds the known frames among the first twelve, all of them and in the order of the stack,
   * unless the first of them is the profiler's own: then the callback records nothing.
   */
  lemma PathHoldsKnownFrames(frames: seq<Frame>) returns (at: seq<nat>)
    ensures
      var path := RecordedPath(Some(frames));
      if ProfilerAllocated(frames) then path == [] else AreKnownFrames(path, frames, at)
  {
    hide AreKnownFrames, ProfilerAllocated, KnownSteps, Topmost;
    TwelveAtMost(frames);
    at := StepsByPosition(Topmost(frames));
    TopmostDecides(frames);
    TopmostFrames(RecordedPath(Some(frames)), frames, at);
  }

  lemma TwelveAtMost(frames: seq<Frame>)
    ensures |Topmost(frames)| <= 12
  {
  }
}
