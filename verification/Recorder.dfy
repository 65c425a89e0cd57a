/** The recorder as it runs: a thread's stack and counters updated in place by each recording call. */
module Recorders {
  import opened Sequences
  import opened MethodStacks
  import opened RecorderModel

  class LocalCounters {
    var selfDuration: array<int>
    var totalDuration: array<int>
    var invocationCount: array<int>
    var sampleCounter: int
    var rateCount: int
    var rateWindowStartedAtMs: int
    var unsampledDepth: int
    var sampledDepth: int

    /** The same counters as a value. */
    ghost var value: Counters
    ghost var Repr: set<object>

    ghost predicate Valid()
      reads this, Repr
      ensures Valid() ==> this in Repr
    {
      && this in Repr && selfDuration in Repr && totalDuration in Repr && invocationCount in Repr
      && selfDuration != totalDuration && selfDuration != invocationCount && totalDuration != invocationCount
      && 0 < selfDuration.Length == totalDuration.Length == invocationCount.Length
      && value == Counters(selfDuration[..], totalDuration[..], invocationCount[..],
                           sampleCounter, rateCount, rateWindowStartedAtMs, unsampledDepth, sampledDepth)
    }

    constructor ()
      ensures Valid() && fresh(Repr)
      ensures value == Counters(seq(4096, _ => 0), seq(4096, _ => 0), seq(4096, _ => 0), 0, 0, 0, 0, 0)
    {
      selfDuration := new int[4096](_ => 0);
      totalDuration := new int[4096](_ => 0);
      invocationCount := new int[4096](_ => 0);
      sampleCounter, rateCount, rateWindowStartedAtMs, unsampledDepth, sampledDepth := 0, 0, 0, 0, 0;
      value := Counters(seq(4096, _ => 0), seq(4096, _ => 0), seq(4096, _ => 0), 0, 0, 0, 0, 0);
      new;
      Repr := {this, selfDuration, totalDuration, invocationCount};
      assert selfDuration[..] == seq(4096, _ => 0);
      assert totalDuration[..] == seq(4096, _ => 0);
      assert invocationCount[..] == seq(4096, _ => 0);
    }

    method EnsureCapacity(required: nat)
      requires Valid()
      modifies this
      ensures Valid() && fresh(Repr - old(Repr))
      ensures value == WithCapacity(old(value), required)
      ensures selfDuration.Length >= required
    {
      if required <= invocationCount.Length {
        return;
      }
      var newLength := NewLength(invocationCount.Length, required);
      var newSelf := Copied(selfDuration, newLength, 0);
      var newTotal := Copied(totalDuration, newLength, 0);
      var newInvocations := Copied(invocationCount, newLength, 0);
      value := WithCapacity(value, required);
      assert newSelf[..] == value.selfNanos;
      assert newTotal[..] == value.totalNanos;
      assert newInvocations[..] == value.invocations;
      selfDuration, totalDuration, invocationCount := newSelf, newTotal, newInvocations;
      Repr := Repr + {selfDuration, totalDuration, invocationCount};
    }

    method IncrementInvocationCount(methodId: nat)
      requires Valid()
      modifies Repr
      ensures Valid() && fresh(Repr - old(Repr))
      ensures value == CountInvocation(old(value), methodId)
    {
      EnsureCapacity(methodId + 1);
      invocationCount[methodId] := invocationCount[methodId] + 1;
      value := CountInvocation(old(value), methodId);
    }

    method AddDuration(methodId: nat, selfNano: int, totalNano: int)
      requires Valid()
      modifies Repr
      ensures Valid() && fresh(Repr - old(Repr))
      ensures value == AddDurations(old(value), methodId, selfNano, totalNano)
    {
      EnsureCapacity(methodId + 1);
      selfDuration[methodId] := selfDuration[methodId] + selfNano;
      totalDuration[methodId] := totalDuration[methodId] + totalNano;
      value := AddDurations(old(value), methodId, selfNano, totalNano);
    }

    method CountCall()
      requires Valid()
      modifies this`rateCount, this`value
      ensures Valid() && value == old(value).(rateCount := old(value).rateCount + 1)
    {
      rateCount := rateCount + 1;
      value := value.(rateCount := rateCount);
    }

    method StartRateWindow(count: int, nowMs: int)
      requires Valid()
      modifies this`rateCount, this`rateWindowStartedAtMs, this`value
      ensures Valid() && value == old(value).(rateCount := count, rateWindowStartedAtMs := nowMs)
    {
      rateCount, rateWindowStartedAtMs := count, nowMs;
      value := value.(rateCount := count, rateWindowStartedAtMs := nowMs);
    }

    method SetSampleCounter(count: int)
      requires Valid()
      modifies this`sampleCounter, this`value
      ensures Valid() && value == old(value).(sampleCounter := count)
    {
      sampleCounter := count;
      value := value.(sampleCounter := count);
    }

    method ClearRate()
      requires Valid()
      modifies this`sampleCounter, this`rateCount, this`rateWindowStartedAtMs, this`value
      ensures Valid() && value == RateCleared(old(value))
    {
      sampleCounter, rateCount, rateWindowStartedAtMs := 0, 0, 0;
      value := RateCleared(value);
    }

    method SetDepths(unsampled: int, sampled: int)
      requires Valid()
      modifies this`unsampledDepth, this`sampledDepth, this`value
      ensures Valid() && value == old(value).(unsampledDepth := unsampled, sampledDepth := sampled)
    {
      unsampledDepth, sampledDepth := unsampled, sampled;
      value := value.(unsampledDepth := unsampled, sampledDepth := sampled);
    }

    method Clear()
      requires Valid()
      modifies this`sampleCounter, this`rateCount, this`rateWindowStartedAtMs
      modifies this`unsampledDepth, this`sampledDepth, this`value
      ensures Valid() && value == CountersCleared(old(value))
    {
      ClearRate();
      SetDepths(0, 0);
    }
  }

  class Recorder {
    const samplingInterval: int
    var recording: bool
    var registered: set<int>
    var samplingMode: bool
    var edgeTrackingEnabled: bool
    var edgeStats: map<int, EdgeStats>
    const stack: MethodStack
    const counters: LocalCounters

    ghost predicate Valid()
      reads this, stack, stack.Repr, counters, counters.Repr
    {
      && stack.Valid() && counters.Valid()
      && this !in stack.Repr && this !in counters.Repr
      && stack.Repr !! counters.Repr
    }

    ghost function Value(): (s: State)
      reads this, stack, stack.Repr, counters, counters.Repr
      requires Valid()
      ensures WellFormed(s)
    {
      State(recording, registered, samplingInterval, samplingMode, edgeTrackingEnabled, edgeStats,
            stack.frames, counters.value)
    }

    constructor (samplingInterval: int, samplingMode: bool, registered: set<int>)
      ensures Valid() && fresh(stack.Repr) && fresh(counters.Repr)
      ensures Value().frames == [] && Value().registered == registered
      ensures Fresh(Value().(recording := true))
    {
      this.samplingInterval := samplingInterval;
      this.recording := false;
      this.registered := registered;
      this.samplingMode := samplingMode;
      this.edgeTrackingEnabled := false;
      this.edgeStats := map[];
      this.stack := new MethodStack();
      this.counters := new LocalCounters();
    }

    method UpdateCallRate(nowMs: int)
      requires Valid()
      modifies this`samplingMode, counters`rateCount, counters`rateWindowStartedAtMs, counters`value
      ensures Valid()
      ensures Value() == AfterCallRateUpdate(old(Value()), nowMs)
    {
      counters.CountCall();
      if counters.rateCount % RATE_CHECK_PERIOD != 0 {
        return;
      }
      if counters.rateWindowStartedAtMs == 0 {
        counters.StartRateWindow(counters.rateCount, nowMs);
      }
      var elapsed := nowMs - counters.rateWindowStartedAtMs;
      if elapsed >= RATE_WINDOW_MS {
        var callsPerSec := counters.rateCount * 1000 / elapsed;
        if callsPerSec >= CALL_RATE_THRESHOLD {
          samplingMode := true;
        }
        counters.StartRateWindow(0, nowMs);
      }
    }

    method ShouldTakeTimingSample(nowMs: int) returns (sample: bool)
      requires Valid()
      modifies this`samplingMode, counters`sampleCounter, counters`rateCount
      modifies counters`rateWindowStartedAtMs, counters`value
      ensures Valid()
      ensures sample == TakesTimingSample(old(Value()))
      ensures Value() == AfterSamplingDecision(old(Value()), nowMs)
    {
      if !samplingMode {
        UpdateCallRate(nowMs);
        return true;
      }
      counters.SetSampleCounter(counters.sampleCounter + 1);
      if counters.sampleCounter >= samplingInterval {
        counters.SetSampleCounter(0);
        return true;
      }
      return false;
    }

    /** The mode is shared; the counters are those of the thread that sets it. */
    method SetSamplingMode(enabled: bool)
      requires Valid()
      modifies this`samplingMode, counters`sampleCounter, counters`rateCount
      modifies counters`rateWindowStartedAtMs, counters`value
      ensures Valid()
      ensures Value() == AfterSetSamplingMode(old(Value()), enabled)
    {
      samplingMode := enabled;
      if !enabled {
        counters.ClearRate();
      }
    }

    method RecordMethodEnter(methodId: int, nowNano: int, nowMs: int)
      requires Valid()
      modifies this, stack.Repr, counters.Repr
      ensures Valid() && fresh(stack.Repr - old(stack.Repr)) && fresh(counters.Repr - old(counters.Repr))
      ensures Value() == AfterMethodEnter(old(Value()), methodId, nowNano, nowMs)
    {
      if !recording || methodId < 0 || methodId !in registered {
        return;
      }
      counters.IncrementInvocationCount(methodId);
      var shouldSample := ShouldTakeTimingSample(nowMs);
      FinishEnter(shouldSample, methodId, nowNano);
    }

    method FinishEnter(timed: bool, methodId: int, nowNano: int)
      requires Valid()
      modifies stack.Repr, counters`sampledDepth, counters`unsampledDepth, counters`value
      ensures Valid() && fresh(stack.Repr - old(stack.Repr))
      ensures Value() == AfterDecidedEnter(old(Value()), timed, methodId, nowNano)
    {
      if !timed {
        counters.SetDepths(counters.unsampledDepth + 1, counters.sampledDepth);
        return;
      }
      counters.SetDepths(counters.unsampledDepth, counters.sampledDepth + 1);
      stack.Push(methodId, nowNano, true, false, true);
    }

    method RecordMethodExit(methodId: int, nowNano: int)
      requires Valid()
      modifies this, stack.Repr, counters.Repr
      ensures Valid() && fresh(stack.Repr - old(stack.Repr)) && fresh(counters.Repr - old(counters.Repr))
      ensures Value() == AfterExit(old(Value()), methodId, nowNano)
    {
      if !recording || methodId < 0 || methodId !in registered {
        return;
      }
      RecordExit(methodId, nowNano);
    }

    method RecordExit(methodId: nat, nowNano: int)
      requires Valid()
      requires methodId in registered
      modifies this, stack.Repr, counters.Repr
      ensures Valid() && fresh(stack.Repr - old(stack.Repr)) && fresh(counters.Repr - old(counters.Repr))
      ensures Value() == AfterExit(old(Value()), methodId, nowNano)
    {
      hide AfterTimedExit;
      if !recording {
        return;
      }
      if counters.unsampledDepth > 0 && counters.sampledDepth == 0 {
        counters.SetDepths(counters.unsampledDepth - 1, counters.sampledDepth);
        return;
      }
      var entryIndex := stack.depth - 1;
      if entryIndex < 0 || stack.methodIds[entryIndex] != methodId {
        if counters.unsampledDepth > 0 {
          counters.SetDepths(counters.unsampledDepth - 1, counters.sampledDepth);
        }
        return;
      }
      assert !ExitIsUnsampled(Value(), methodId);
      if !stack.SampledAt(entryIndex) || stack.startNanos[entryIndex] == 0 {
        DropTop();
        return;
      }
      RecordDuration(methodId, nowNano);
    }

    /** Takes the top frame off the stack and lowers the sampled depth. */
    method DropTop()
      requires Valid() && stack.frames != []
      modifies stack`depth, stack`frames, counters`sampledDepth, counters`unsampledDepth, counters`value
      ensures Valid() && stack.Repr == old(stack.Repr)
      ensures Value() ==
        var s := old(Value());
        s.(frames := s.frames[..|s.frames| - 1],
           counters := s.counters.(sampledDepth := Decremented(s.counters.sampledDepth)))
    {
      stack.Truncate(stack.depth - 1);
      if counters.sampledDepth > 0 {
        counters.SetDepths(counters.unsampledDepth, counters.sampledDepth - 1);
      }
    }

    /** The rest of the exit, once the top frame is known to be a timed frame of the method. */
    method RecordDuration(methodId: nat, nowNano: int)
      requires Valid() && recording && methodId in registered
      requires stack.frames != []
      modifies this, stack.Repr, counters.Repr
      ensures Valid() && fresh(stack.Repr - old(stack.Repr)) && fresh(counters.Repr - old(counters.Repr))
      ensures Value() == AfterTimedExit(old(Value()), methodId, nowNano)
    {
      var entryIndex := stack.depth - 1;
      var transparentToParent := stack.TransparentToParentAt(entryIndex);
      var duration := nowNano - stack.startNanos[entryIndex] + stack.overrideDurationNanos[entryIndex];
      var selfDuration :=
        if stack.SubtractChildrenAt(entryIndex) then duration - stack.childDurationNanos[entryIndex] else duration;
      if selfDuration < 0 {
        selfDuration := 0;
      }
      ghost var f := stack.frames[entryIndex];
      assert selfDuration == ClampedSelf(f, nowNano) && duration == Duration(f, nowNano);
      PopAndAdd(methodId, selfDuration, duration);
      ChargeParent(methodId, duration, transparentToParent);
    }

    /** Books the two durations and takes the frame off the stack. */
    method PopAndAdd(methodId: nat, selfDuration: int, duration: int)
      requires Valid() && stack.frames != []
      modifies stack`depth, stack`frames, counters.Repr
      ensures Valid() && stack.Repr == old(stack.Repr) && fresh(counters.Repr - old(counters.Repr))
      ensures stack.frames == old(stack.frames)[..|old(stack.frames)| - 1]
      ensures counters.value ==
        var c := old(counters.value);
        AddDurations(c.(sampledDepth := Decremented(c.sampledDepth)), methodId, selfDuration, duration)
    {
      counters.AddDuration(methodId, selfDuration, duration);
      DropTop();
    }

    /** What the frame below learns of the exit, if there is one. */
    method ChargeParent(methodId: nat, duration: int, transparent: bool)
      requires Valid()
      modifies this`edgeStats, stack`frames, stack.childDurationNanos
      ensures Valid()
      ensures stack.frames == FramesBelow(old(stack.frames), duration, transparent)
      ensures edgeStats == EdgesBelow(old(edgeStats), edgeTrackingEnabled, old(stack.frames), methodId, duration)
    {
      if stack.depth == 0 {
        return;
      }
      var parentIndex := stack.depth - 1;
      var parentId := stack.methodIds[parentIndex];
      if !transparent {
        stack.AddChildDuration(parentIndex, duration);
      }
      if edgeTrackingEnabled {
        edgeStats := WithEdge(edgeStats, EdgeKey(parentId, methodId), duration);
      }
    }

    method RecordJdbcEnter(methodId: nat, nowNano: int)
      requires Valid()
      modifies this, stack.Repr, counters.Repr
      ensures Valid() && fresh(stack.Repr - old(stack.Repr)) && fresh(counters.Repr - old(counters.Repr))
      ensures Value() == AfterJdbcEnter(old(Value()), methodId, nowNano)
    {
      if !recording {
        return;
      }
      registered := registered + {methodId};
      counters.IncrementInvocationCount(methodId);
      stack.Push(methodId, nowNano, false, false, true);
    }

    method RecordAllocationTraceEnter(methodId: int, allocationBoundary: bool)
      requires Valid()
      modifies this, stack.Repr, counters.Repr
      ensures Valid() && fresh(stack.Repr - old(stack.Repr)) && fresh(counters.Repr - old(counters.Repr))
      ensures Value() == AfterTraceEnter(old(Value()), methodId, allocationBoundary)
    {
      if !recording || methodId < 0 || methodId !in registered {
        return;
      }
      stack.Push(methodId, 0, false, allocationBoundary, true);
    }

    method RecordAllocationTraceExit(methodId: int)
      requires Valid()
      modifies stack
      ensures Valid() && stack.Repr == old(stack.Repr) && counters.Repr == old(counters.Repr)
      ensures Value() == AfterTraceExit(old(Value()), methodId)
    {
      if !recording {
        return;
      }
      var popped, topMethodId := stack.PopMethodId();
      if !popped || topMethodId == methodId {
        return;
      }
      var found := stack.FindFromTop(methodId);
      if found >= 0 {
        stack.Truncate(found);
      }
    }
  }
}
