/** Exactly which time a sampled run records when no call is recursive. */
module RecorderTotals {
  import opened RecorderModel
  import opened RecorderDepth
  import opened RecorderTime

  /** For each open call of a run of method probes, whether it was timed when it was entered. */
  function OpenTimings(s: State, ops: seq<Op>): seq<bool>
    requires WellFormed(s)
  {
    if ops == [] then []
    else
      var before, op := OpenTimings(s, ops[..|ops| - 1]), ops[|ops| - 1];
      if op.EnterMethod? then before + [TakesTimingSample(Run(s, ops[..|ops| - 1]))]
      else if op.Exit? && before != [] then before[..|before| - 1]
      else before
  }

  /** The inclusive times of the closed calls of one method that were timed when they were entered. */
  function TimedNanos(s: State, ops: seq<Op>, methodId: nat): int
    requires WellFormed(s)
  {
    if ops == [] then 0
    else
      var prefix, op := ops[..|ops| - 1], ops[|ops| - 1];
      var open, timings := OpenCalls(prefix), OpenTimings(s, prefix);
      TimedNanos(s, prefix, methodId)
      + (if op.Exit? && op.methodId == methodId && open != [] && timings != [] && timings[|timings| - 1]
         then op.nowNano - open[|open| - 1].enteredAt else 0)
  }

  predicate NeverRecursive(ops: seq<Op>) {
    NoRecursion(OpenCalls(ops)) && (ops == [] || NeverRecursive(ops[..|ops| - 1]))
  }

  /** The retained calls are the timed ones. */
  ghost predicate RetainedAreTimed(timings: seq<bool>, open: seq<Call>, origin: seq<nat>) {
    && |timings| == |open|
    && forall p :: 0 <= p < |timings| ==> (timings[p] <==> p in origin)
  }

  lemma AsManyTimings(timings: seq<bool>, open: seq<Call>, origin: seq<nat>)
    requires RetainedAreTimed(timings, open, origin)
    ensures |timings| == |open|
  {
  }

  lemma EnterKeepsTimings(timings: seq<bool>, open: seq<Call>, origin: seq<nat>, call: Call, timed: bool)
    requires RetainedAreTimed(timings, open, origin) && forall k :: 0 <= k < |origin| ==> origin[k] < |open|
    ensures RetainedAreTimed(timings + [timed], open + [call], if timed then origin + [|open|] else origin)
  {
  }

  lemma ExitKeepsTimings(timings: seq<bool>, open: seq<Call>, origin: seq<nat>)
    requires RetainedAreTimed(timings, open, origin) && open != []
    requires forall k :: 0 <= k < |origin| ==> origin[k] < |open|
    requires forall j, k :: 0 <= j < k < |origin| ==> origin[j] < origin[k]
    ensures
      var n := |open| - 1;
      RetainedAreTimed(timings[..n], open[..n], if n in origin then origin[..|origin| - 1] else origin)
  {
    var n := |open| - 1;
    if n in origin {
      var k :| 0 <= k < |origin| && origin[k] == n;
      LastOriginIsLargest(origin, |open|, k);
      forall p | 0 <= p < n ensures p in origin <==> p in origin[..|origin| - 1] {
      }
    }
  }

  /** How the origins of a run change with its last event. */
  lemma OriginsStep(s: State, ops: seq<Op>)
    requires Fresh(s) && Nested(s.registered, {}, ops) && MethodProbesOnly(ops) && NeverRecursive(ops) && ops != []
    ensures
      var prefix, op := ops[..|ops| - 1], ops[|ops| - 1];
      var before, open, origin := Run(s, prefix), OpenCalls(prefix), Origins(s, prefix);
      Origins(s, ops) ==
        if op.EnterMethod? then (if TakesTimingSample(before) then origin + [|open|] else origin)
        else if op.Exit? then (if |open| - 1 in origin then origin[..|origin| - 1] else origin)
        else origin
  {
    hide Step, Run, Nested, DepthLaw, NeverRecursive, OpenCalls;
    var prefix, op := ops[..|ops| - 1], ops[|ops| - 1];
    assert op == ops[|ops| - 1];
    PrefixFacts(s, ops);
    StepEffect(Run(s, prefix), op);
    if op.Exit? {
      ExitTimesItsOwnCall(s, {}, prefix);
    }
    assert Origins(s, prefix)[..|Origins(s, prefix)|] == Origins(s, prefix);
  }

  lemma StepKeepsTimings(s: State, ops: seq<Op>)
    requires Fresh(s) && Nested(s.registered, {}, ops) && MethodProbesOnly(ops) && NeverRecursive(ops) && ops != []
    requires
      var prefix := ops[..|ops| - 1];
      RetainedAreTimed(OpenTimings(s, prefix), OpenCalls(prefix), Origins(s, prefix))
    ensures RetainedAreTimed(OpenTimings(s, ops), OpenCalls(ops), Origins(s, ops))
  {
    hide Step, Run, Nested, DepthLaw, RetainedAreTimed, NeverRecursive, Origins;
    var prefix, op := ops[..|ops| - 1], ops[|ops| - 1];
    var open, origin := OpenCalls(prefix), Origins(s, prefix);
    PrefixFacts(s, ops);
    OriginsStep(s, ops);
    AsManyTimings(OpenTimings(s, prefix), open, origin);
    if op.EnterMethod? {
      var call := Call(op.methodId, Plain, op.nowNano);
      EnterKeepsTimings(OpenTimings(s, prefix), open, origin, call, TakesTimingSample(Run(s, prefix)));
    } else if op.Exit? {
      ExitKeepsTimings(OpenTimings(s, prefix), open, origin);
    }
  }

  /** What is known before the last event of a run. */
  lemma PrefixFacts(s: State, ops: seq<Op>)
    requires Fresh(s) && Nested(s.registered, {}, ops) && MethodProbesOnly(ops) && NeverRecursive(ops) && ops != []
    ensures
      var prefix, op := ops[..|ops| - 1], ops[|ops| - 1];
      var before, open, origin := Run(s, prefix), OpenCalls(prefix), Origins(s, prefix);
      && Nested(s.registered, {}, prefix) && MethodProbesOnly(prefix) && NeverRecursive(prefix) && NoRecursion(open)
      && WithoutJdbc(prefix) && Admissible(s.registered, {}, open, op)
      && WellFormed(before) && before.recording && before.registered == s.registered
      && Run(s, ops) == Step(before, op) && |origin| == |before.frames|
      && (forall k :: 0 <= k < |origin| ==> origin[k] < |open|)
      && (forall j, k :: 0 <= j < k < |origin| ==> origin[j] < origin[k])
      && AllKnown(open, s.registered, {})
      && ((op.EnterMethod? || op.EnterTrace? || op.Exit?) ==> IsRegistered(before, op.methodId))
  {
    hide Step;
    var prefix, op := ops[..|ops| - 1], ops[|ops| - 1];
    RunKeepsDepths(s, {}, prefix);
    NestedRunsOpenKnownCalls(s.registered, {}, prefix);
    EmbeddedInIsEmbedded(Run(s, prefix).frames, OpenCalls(prefix), Origins(s, prefix));
    if op.Exit? {
      assert IsKnown(OpenCalls(prefix)[|OpenCalls(prefix)| - 1], s.registered, {});
    }
  }

  lemma {:induction false} TimingsAreKept(s: State, ops: seq<Op>)
    requires Fresh(s) && Nested(s.registered, {}, ops) && MethodProbesOnly(ops) && NeverRecursive(ops)
    ensures RetainedAreTimed(OpenTimings(s, ops), OpenCalls(ops), Origins(s, ops))
  {
    hide Run, Nested, RetainedAreTimed;
    if ops == [] {
      NothingIsTimed();
    } else {
      PrefixFacts(s, ops);
      TimingsAreKept(s, ops[..|ops| - 1]);
      StepKeepsTimings(s, ops);
    }
  }

  lemma NothingIsTimed()
    ensures RetainedAreTimed([], [], [])
  {
  }

  lemma StepRecordsTimed(s: State, ops: seq<Op>, start: int, methodId: nat)
    requires Fresh(s) && Nested(s.registered, {}, ops) && MethodProbesOnly(ops) && NeverRecursive(ops) && ops != []
    requires MonotoneClock(ops, start)
    ensures
      var before := Run(s, ops[..|ops| - 1]);
      Slot(Run(s, ops).counters.totalNanos, methodId) - Slot(before.counters.totalNanos, methodId)
      == TimedNanos(s, ops, methodId) - TimedNanos(s, ops[..|ops| - 1], methodId)
  {
    hide Step, Run, Nested, DepthLaw, NeverRecursive, Timely, OpenTimings, OpenCalls, Origins;
    var prefix, op := ops[..|ops| - 1], ops[|ops| - 1];
    assert op == ops[|ops| - 1];
    PrefixFacts(s, ops);
    var before := Run(s, prefix);
    if op.Exit? {
      FramesAtRest(s, prefix, start);
      TimingsAreKept(s, prefix);
      ExitTimesItsOwnCall(s, {}, prefix);
      if RecordsDuration(before, op) {
        StepAddsInclusiveTime(before, op, methodId);
      } else {
        UnrecordedExitKeepsTotals(before, op);
      }
    } else {
      StepAddsInclusiveTime(before, op, methodId);
    }
  }

  /**
   * Without recursion a sampled total is exact for what was sampled: a method's recorded total is the inclusive time
   * of those of its ended calls that were timed when they were entered, and of no other.
   */
  lemma {:induction false} SampledTotalsAreTheTimedCalls(s: State, ops: seq<Op>, start: int, methodId: nat)
    requires Fresh(s) && Nested(s.registered, {}, ops) && MethodProbesOnly(ops) && NeverRecursive(ops)
    requires MonotoneClock(ops, start)
    ensures Slot(Run(s, ops).counters.totalNanos, methodId) == TimedNanos(s, ops, methodId)
  {
    hide Step, Nested, NeverRecursive, TimedNanos;
    if ops == [] {
      NothingIsRecorded(s, methodId);
    } else {
      PrefixFacts(s, ops);
      SampledTotalsAreTheTimedCalls(s, ops[..|ops| - 1], start, methodId);
      StepRecordsTimed(s, ops, start, methodId);
    }
  }

  lemma NothingIsRecorded(s: State, methodId: nat)
    requires Fresh(s)
    ensures Slot(s.counters.totalNanos, methodId) == 0 && TimedNanos(s, [], methodId) == 0
  {
  }
}
