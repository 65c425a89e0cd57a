/** Which calls the recorder retains: the stack against the true call stack of the thread. */
module RecorderDepth {
  import opened Sequences
  import opened MethodStacks
  import opened RecorderModel

  datatype Kind = Plain | Traced | Jdbc

  datatype Call = Call(methodId: int, kind: Kind, enteredAt: int)

  function OpenAfter(open: seq<Call>, op: Op): seq<Call> {
    match op
    case EnterMethod(m, nowNano, _) => open + [Call(m, Plain, nowNano)]
    case EnterJdbc(m, nowNano) => open + [Call(m, Jdbc, nowNano)]
    case EnterTrace(m, _) => open + [Call(m, Traced, 0)]
    case Exit(_, _) => if open == [] then [] else open[..|open| - 1]
    case ExitTrace(_) => if open == [] then [] else open[..|open| - 1]
    case _ => open
  }

  /** The calls still open after a run; it looks at the run only, never at the recorder. */
  function OpenCalls(ops: seq<Op>): seq<Call> {
    if ops == [] then [] else OpenAfter(OpenCalls(ops[..|ops| - 1]), ops[|ops| - 1])
  }

  /** Methods with their own enter and exit probes, and methods that are only allocation boundaries, do not mix. */
  predicate Admissible(registered: set<int>, traced: set<int>, open: seq<Call>, op: Op) {
    match op
    case EnterMethod(m, _, _) => 0 <= m && m in registered && m !in traced
    case EnterJdbc(m, _) => m !in traced
    case EnterTrace(m, _) => 0 <= m && m in registered && m in traced
    case Exit(m, _) => open != [] && open[|open| - 1].methodId == m && !open[|open| - 1].kind.Traced?
    case ExitTrace(m) => open != [] && open[|open| - 1].methodId == m && open[|open| - 1].kind.Traced?
    case _ => true
  }

  /** Every exit leaves the innermost open call. */
  predicate Nested(registered: set<int>, traced: set<int>, ops: seq<Op>) {
    ops == [] || (
      && Nested(registered, traced, ops[..|ops| - 1])
      && Admissible(registered, traced, OpenCalls(ops[..|ops| - 1]), ops[|ops| - 1]))
  }

  predicate WithoutJdbc(ops: seq<Op>) { forall i :: 0 <= i < |ops| ==> !ops[i].EnterJdbc? }

  function OriginsAfter(origin: seq<nat>, depthBefore: nat, depthAfter: nat, open: seq<Call>): seq<nat> {
    if depthAfter > depthBefore then origin + [|open|]
    else if depthAfter <= |origin| then origin[..depthAfter]
    else origin
  }

  /** For each retained frame, the position of the open call that pushed it. */
  function Origins(s: State, ops: seq<Op>): (r: seq<nat>)
    requires WellFormed(s)
  {
    if ops == [] then []
    else
      var prefix := ops[..|ops| - 1];
      OriginsAfter(Origins(s, prefix), |Run(s, prefix).frames|, |Run(s, ops).frames|, OpenCalls(prefix))
  }

  function PlainFrames(frames: seq<Frame>, traced: set<int>): nat {
    if frames == [] then 0
    else
      PlainFrames(frames[..|frames| - 1], traced)
      + (if frames[|frames| - 1].methodId in traced then 0 else 1)
  }

  function PlainCalls(open: seq<Call>): nat {
    if open == [] then 0
    else PlainCalls(open[..|open| - 1]) + (if open[|open| - 1].kind.Traced? then 0 else 1)
  }

  /**
   * Frame by frame from the top: the top frame came from call origin[top], and the frames below it
   * came from calls below that one.
   */
  predicate EmbeddedIn(frames: seq<Frame>, open: seq<Call>, origin: seq<nat>) {
    && |origin| == |frames|
    && (frames == [] ||
        var n := |frames| - 1;
        var j := origin[n];
        && j < |open|
        && open[j].methodId == frames[n].methodId && open[j].enteredAt == frames[n].startNano
        && EmbeddedIn(frames[..n], open[..j], origin[..n]))
  }

  /** The same said for all positions at once. */
  ghost predicate Embedded(frames: seq<Frame>, open: seq<Call>, origin: seq<nat>) {
    && |origin| == |frames|
    && (forall k :: 0 <= k < |origin| ==>
      && origin[k] < |open|
      && open[origin[k]].methodId == frames[k].methodId
      && open[origin[k]].enteredAt == frames[k].startNano)
    && forall j, k :: 0 <= j < k < |origin| ==> origin[j] < origin[k]
  }

  lemma {:induction false} EmbeddedInIsEmbedded(frames: seq<Frame>, open: seq<Call>, origin: seq<nat>)
    requires EmbeddedIn(frames, open, origin)
    ensures Embedded(frames, open, origin)
  {
    if frames != [] {
      var n := |frames| - 1;
      EmbeddedInIsEmbedded(frames[..n], open[..origin[n]], origin[..n]);
      forall k | 0 <= k < n
        ensures origin[k] < origin[n] && open[origin[k]].methodId == frames[k].methodId
        ensures open[origin[k]].enteredAt == frames[k].startNano
      {
        assert origin[..n][k] == origin[k] && frames[..n][k] == frames[k];
        assert open[..origin[n]][origin[k]] == open[origin[k]];
      }
      forall j, k | 0 <= j < k < |origin| ensures origin[j] < origin[k] {
        if k < n {
          assert origin[..n][j] < origin[..n][k];
        }
      }
    }
  }

  lemma EmbeddedInMore(frames: seq<Frame>, open: seq<Call>, origin: seq<nat>, n: nat)
    requires n <= |open| && EmbeddedIn(frames, open[..n], origin)
    ensures EmbeddedIn(frames, open, origin)
  {
    if frames != [] {
      assert open[..n][..origin[|frames| - 1]] == open[..origin[|frames| - 1]];
    }
  }

  /**
   * The law, on what it is about: the stack, the two depths and the open calls. A call is either on
   * the stack or counted as unsampled, and sampledDepth counts the stack's plain frames.
   */
  predicate DepthLaw(frames: seq<Frame>, unsampled: int, sampled: int, traced: set<int>,
                     open: seq<Call>, origin: seq<nat>)
  {
    && EmbeddedIn(frames, open, origin)
    && unsampled >= 0
    && unsampled + |frames| == |open|
    && sampled == PlainFrames(frames, traced)
    && unsampled + sampled == PlainCalls(open)
  }

  /** Traced calls are those of traced methods. */
  ghost predicate KindsMatch(open: seq<Call>, traced: set<int>) {
    forall j :: 0 <= j < |open| ==> (open[j].kind.Traced? <==> open[j].methodId in traced)
  }

  /** What calls lie below position n bounds what frames can come from there, kind by kind. */
  lemma {:induction false} FramesWithin(frames: seq<Frame>, open: seq<Call>, origin: seq<nat>, traced: set<int>)
    requires EmbeddedIn(frames, open, origin) && KindsMatch(open, traced)
    ensures PlainFrames(frames, traced) <= PlainCalls(open)
    ensures |frames| - PlainFrames(frames, traced) <= |open| - PlainCalls(open)
  {
    if frames != [] {
      var n := |frames| - 1;
      var j := origin[n];
      FramesWithin(frames[..n], open[..j], origin[..n], traced);
      assert open[..j + 1][..j] == open[..j];
      CallsBelow(open, j + 1);
    } else {
      CallsBelow(open, 0);
    }
  }

  lemma {:induction false} CallsBelow(open: seq<Call>, n: nat)
    requires n <= |open|
    ensures 0 <= PlainCalls(open) - PlainCalls(open[..n]) <= |open| - n
  {
    if n < |open| {
      CallsBelow(open[..|open| - 1], n);
      assert open[..|open| - 1][..n] == open[..n];
    } else {
      assert open[..n] == open;
    }
  }

  lemma {:induction false} NoPlainFrames(frames: seq<Frame>, traced: set<int>)
    requires PlainFrames(frames, traced) == 0 && frames != []
    ensures frames[|frames| - 1].methodId in traced
  {
  }

  lemma RetainedEnter(frames: seq<Frame>, unsampled: int, sampled: int, traced: set<int>,
                      open: seq<Call>, origin: seq<nat>, f: Frame, call: Call)
    requires DepthLaw(frames, unsampled, sampled, traced, open, origin)
    requires call.kind.Traced? <==> call.methodId in traced
    requires f.methodId == call.methodId && f.startNano == call.enteredAt
    ensures DepthLaw(frames + [f], unsampled, sampled + (if call.kind.Traced? then 0 else 1), traced,
                     open + [call], origin + [|open|])
  {
    assert (frames + [f])[..|frames|] == frames;
    assert (open + [call])[..|open|] == open;
    assert (origin + [|open|])[..|frames|] == origin;
  }

  lemma UnsampledEnter(frames: seq<Frame>, unsampled: int, sampled: int, traced: set<int>,
                       open: seq<Call>, origin: seq<nat>, call: Call)
    requires DepthLaw(frames, unsampled, sampled, traced, open, origin)
    requires !call.kind.Traced?
    ensures DepthLaw(frames, unsampled + 1, sampled, traced, open + [call], origin)
  {
    assert (open + [call])[..|open|] == open;
    EmbeddedInMore(frames, open + [call], origin, |open|);
  }

  /** An exit of a plain call that was not retained: some unsampled depth is left to take. */
  lemma UnretainedExit(frames: seq<Frame>, unsampled: int, sampled: int, traced: set<int>,
                       open: seq<Call>, origin: seq<nat>)
    requires DepthLaw(frames, unsampled, sampled, traced, open, origin) && KindsMatch(open, traced)
    requires open != [] && !open[|open| - 1].kind.Traced?
    requires frames == [] || origin[|frames| - 1] != |open| - 1
    ensures unsampled > 0
    ensures DepthLaw(frames, unsampled - 1, sampled, traced, open[..|open| - 1], origin)
  {
    var n := |open| - 1;
    if frames != [] {
      assert open[..n][..origin[|frames| - 1]] == open[..origin[|frames| - 1]];
    }
    FramesWithin(frames, open[..n], origin, traced);
  }

  /** The exit of a retained call, or of one whose method happens to be on top of the stack. */
  lemma RetainedExit(frames: seq<Frame>, unsampled: int, sampled: int, traced: set<int>,
                     open: seq<Call>, origin: seq<nat>)
    requires DepthLaw(frames, unsampled, sampled, traced, open, origin) && KindsMatch(open, traced)
    requires open != [] && frames != []
    requires frames[|frames| - 1].methodId == open[|open| - 1].methodId
    ensures DepthLaw(frames[..|frames| - 1], unsampled, sampled - (if open[|open| - 1].kind.Traced? then 0 else 1),
                     traced, open[..|open| - 1], origin[..|origin| - 1])
  {
    var n, j := |open| - 1, origin[|frames| - 1];
    assert open[..n][..j] == open[..j];
    EmbeddedInMore(frames[..|frames| - 1], open[..n], origin[..|frames| - 1], j);
  }

  /** A traced call is never left out, so when it ends its frame is on top. */
  lemma TracedCallIsOnTop(frames: seq<Frame>, unsampled: int, sampled: int, traced: set<int>,
                          open: seq<Call>, origin: seq<nat>)
    requires DepthLaw(frames, unsampled, sampled, traced, open, origin) && KindsMatch(open, traced)
    requires open != [] && open[|open| - 1].kind.Traced?
    ensures frames != [] && frames[|frames| - 1].methodId == open[|open| - 1].methodId
  {
    var n := |open| - 1;
    if frames == [] || origin[|frames| - 1] != n {
      if frames != [] {
        assert open[..n][..origin[|frames| - 1]] == open[..origin[|frames| - 1]];
      }
      FramesWithin(frames, open[..n], origin, traced);
    }
  }

  /** The two stacks show the same calls, whatever child time they carry. */
  predicate SameExceptChildTime(a: seq<Frame>, b: seq<Frame>) {
    |a| == |b| && forall k :: 0 <= k < |a| ==> a[k].methodId == b[k].methodId && a[k].startNano == b[k].startNano
  }

  predicate Pushed(before: seq<Frame>, after: seq<Frame>, methodId: int, startNano: int) {
    && |after| == |before| + 1 && after[..|before|] == before
    && after[|before|].methodId == methodId && after[|before|].startNano == startNano
  }

  /** What a step does to the stack and the depths, without the counters. */
  predicate Effect(s: State, r: State, op: Op) {
    && r.recording && r.registered == s.registered
    && match op
       case EnterMethod(m, nowNano, _) =>
         if TakesTimingSample(s) then
           && Pushed(s.frames, r.frames, m, nowNano)
           && r.counters.sampledDepth == s.counters.sampledDepth + 1
           && r.counters.unsampledDepth == s.counters.unsampledDepth
         else
           && r.frames == s.frames
           && r.counters.sampledDepth == s.counters.sampledDepth
           && r.counters.unsampledDepth == s.counters.unsampledDepth + 1
       case Exit(m, _) =>
         if ExitIsUnsampled(s, m) then
           && r.frames == s.frames
           && r.counters.sampledDepth == s.counters.sampledDepth
           && r.counters.unsampledDepth == Decremented(s.counters.unsampledDepth)
         else
           && SameExceptChildTime(r.frames, s.frames[..|s.frames| - 1])
           && r.counters.sampledDepth == Decremented(s.counters.sampledDepth)
           && r.counters.unsampledDepth == s.counters.unsampledDepth
       case EnterTrace(m, boundary) =>
         r.counters == s.counters && Pushed(s.frames, r.frames, m, 0)
       case ExitTrace(m) =>
         r.counters == s.counters && (TopIs(s, m) ==> r.frames == s.frames[..|s.frames| - 1])
       case EnterJdbc(_, _) => true
       case _ =>
         && r.frames == s.frames
         && r.counters.sampledDepth == s.counters.sampledDepth
         && r.counters.unsampledDepth == s.counters.unsampledDepth
  }

  lemma StepEffect(s: State, op: Op)
    requires WellFormed(s) && s.recording
    requires (op.EnterMethod? || op.EnterTrace? || op.Exit?) ==> IsRegistered(s, op.methodId)
    requires !op.EnterJdbc?
    ensures Effect(s, Step(s, op), op)
  {
    hide Grown, GrownLength, EdgesBelow, WithEdge;
  }

  lemma {:induction false} ChildTimeIsIrrelevant(
    a: seq<Frame>, b: seq<Frame>, traced: set<int>, open: seq<Call>, origin: seq<nat>)
    requires SameExceptChildTime(b, a) && EmbeddedIn(a, open, origin)
    ensures PlainFrames(a, traced) == PlainFrames(b, traced)
    ensures EmbeddedIn(b, open, origin)
  {
    if a != [] {
      var n := |a| - 1;
      assert b[n].methodId == a[n].methodId && b[n].startNano == a[n].startNano;
      ChildTimeIsIrrelevant(a[..n], b[..n], traced, open[..origin[n]], origin[..n]);
    }
  }

  predicate DepthInvariant(s: State, registered: set<int>, traced: set<int>, open: seq<Call>, origin: seq<nat>) {
    && s.recording && s.registered == registered
    && DepthLaw(s.frames, s.counters.unsampledDepth, s.counters.sampledDepth, traced, open, origin)
  }

  /** The step case of the law for one event and any state it can lead to. */
  ghost predicate StepCase(s: State, r: State, registered: set<int>, traced: set<int>,
                           open: seq<Call>, origin: seq<nat>, op: Op) {
    && DepthInvariant(s, registered, traced, open, origin)
    && KindsMatch(open, traced)
    && Admissible(registered, traced, open, op)
    && Effect(s, r, op)
  }

  lemma EnterKeepsDepths(s: State, r: State, registered: set<int>, traced: set<int>,
                         open: seq<Call>, origin: seq<nat>, op: Op)
    requires op.EnterMethod? && StepCase(s, r, registered, traced, open, origin, op)
    ensures DepthInvariant(r, registered, traced, OpenAfter(open, op), OriginsAfter(origin, |s.frames|, |r.frames|, open))
  {
    var c, call := s.counters, Call(op.methodId, Plain, op.nowNano);
    if TakesTimingSample(s) {
      RetainedEnter(s.frames, c.unsampledDepth, c.sampledDepth, traced, open, origin, r.frames[|s.frames|], call);
      assert r.frames == s.frames + [r.frames[|s.frames|]];
    } else {
      UnsampledEnter(s.frames, c.unsampledDepth, c.sampledDepth, traced, open, origin, call);
      assert origin[..|origin|] == origin;
    }
  }

  lemma ExitKeepsDepths(s: State, r: State, registered: set<int>, traced: set<int>,
                        open: seq<Call>, origin: seq<nat>, op: Op)
    requires op.Exit? && StepCase(s, r, registered, traced, open, origin, op)
    ensures DepthInvariant(r, registered, traced, OpenAfter(open, op), OriginsAfter(origin, |s.frames|, |r.frames|, open))
  {
    var c := s.counters;
    if ExitIsUnsampled(s, op.methodId) {
      if c.sampledDepth == 0 && s.frames != [] {
        NoPlainFrames(s.frames, traced);
      }
      UnretainedExit(s.frames, c.unsampledDepth, c.sampledDepth, traced, open, origin);
      assert origin[..|origin|] == origin;
    } else {
      RetainedExit(s.frames, c.unsampledDepth, c.sampledDepth, traced, open, origin);
      ChildTimeIsIrrelevant(s.frames[..|s.frames| - 1], r.frames, traced, open[..|open| - 1], origin[..|origin| - 1]);
    }
  }

  lemma TraceEnterKeepsDepths(s: State, r: State, registered: set<int>, traced: set<int>,
                              open: seq<Call>, origin: seq<nat>, op: Op)
    requires op.EnterTrace? && StepCase(s, r, registered, traced, open, origin, op)
    ensures DepthInvariant(r, registered, traced, OpenAfter(open, op), OriginsAfter(origin, |s.frames|, |r.frames|, open))
  {
    RetainedEnter(s.frames, s.counters.unsampledDepth, s.counters.sampledDepth, traced, open, origin,
                  r.frames[|s.frames|], Call(op.methodId, Traced, 0));
    assert r.frames == s.frames + [r.frames[|s.frames|]];
  }

  lemma TraceExitKeepsDepths(s: State, r: State, registered: set<int>, traced: set<int>,
                             open: seq<Call>, origin: seq<nat>, op: Op)
    requires op.ExitTrace? && StepCase(s, r, registered, traced, open, origin, op)
    ensures DepthInvariant(r, registered, traced, OpenAfter(open, op), OriginsAfter(origin, |s.frames|, |r.frames|, open))
  {
    TracedCallIsOnTop(s.frames, s.counters.unsampledDepth, s.counters.sampledDepth, traced, open, origin);
    RetainedExit(s.frames, s.counters.unsampledDepth, s.counters.sampledDepth, traced, open, origin);
  }

  predicate IsKnown(call: Call, registered: set<int>, traced: set<int>) {
    && 0 <= call.methodId && call.methodId in registered && !call.kind.Jdbc?
    && (call.kind.Traced? <==> call.methodId in traced)
  }

  ghost predicate AllKnown(open: seq<Call>, registered: set<int>, traced: set<int>) {
    forall j :: 0 <= j < |open| ==> IsKnown(open[j], registered, traced)
  }

  lemma KnownKindsMatch(open: seq<Call>, registered: set<int>, traced: set<int>)
    requires AllKnown(open, registered, traced)
    ensures KindsMatch(open, traced)
  {
    forall j | 0 <= j < |open| ensures open[j].kind.Traced? <==> open[j].methodId in traced {
      assert IsKnown(open[j], registered, traced);
    }
  }

  lemma StepOpensKnownCalls(open: seq<Call>, registered: set<int>, traced: set<int>, op: Op)
    requires AllKnown(open, registered, traced) && Admissible(registered, traced, open, op) && !op.EnterJdbc?
    ensures AllKnown(OpenAfter(open, op), registered, traced)
  {
  }

  /** In a nested run the calls still open are registered ones, of the kind their method has. */
  lemma {:induction false} NestedRunsOpenKnownCalls(registered: set<int>, traced: set<int>, ops: seq<Op>)
    requires Nested(registered, traced, ops) && WithoutJdbc(ops)
    ensures AllKnown(OpenCalls(ops), registered, traced)
  {
    if ops != [] {
      var prefix, op := ops[..|ops| - 1], ops[|ops| - 1];
      NestedRunsOpenKnownCalls(registered, traced, prefix);
      assert !op.EnterJdbc?;
      StepOpensKnownCalls(OpenCalls(prefix), registered, traced, op);
    }
  }

  lemma {:induction false} RunKeepsDepths(s: State, traced: set<int>, ops: seq<Op>)
    requires Fresh(s) && Nested(s.registered, traced, ops) && WithoutJdbc(ops)
    ensures DepthInvariant(Run(s, ops), s.registered, traced, OpenCalls(ops), Origins(s, ops))
  {
    if ops != [] {
      var prefix, op := ops[..|ops| - 1], ops[|ops| - 1];
      RunKeepsDepths(s, traced, prefix);
      NestedRunsOpenKnownCalls(s.registered, traced, prefix);
      KnownKindsMatch(OpenCalls(prefix), s.registered, traced);
      var before, open, origin := Run(s, prefix), OpenCalls(prefix), Origins(s, prefix);
      assert !op.EnterJdbc?;
      StepEffect(before, op);
      var after := Run(s, ops);
      assert origin[..|origin|] == origin;
      match op
      case EnterMethod(_, _, _) => EnterKeepsDepths(before, after, s.registered, traced, open, origin, op);
      case Exit(_, _) => ExitKeepsDepths(before, after, s.registered, traced, open, origin, op);
      case EnterTrace(_, _) => TraceEnterKeepsDepths(before, after, s.registered, traced, open, origin, op);
      case ExitTrace(_) => TraceExitKeepsDepths(before, after, s.registered, traced, open, origin, op);
      case _ =>
    }
  }

  lemma {:induction false} AllPlain(frames: seq<Frame>, open: seq<Call>)
    ensures PlainFrames(frames, {}) == |frames|
    ensures (forall j :: 0 <= j < |open| ==> !open[j].kind.Traced?) ==> PlainCalls(open) == |open|
    decreases |frames| + |open|
  {
    if frames != [] {
      AllPlain(frames[..|frames| - 1], open);
    } else if open != [] {
      AllPlain(frames, open[..|open| - 1]);
    }
  }

  /** The retained frames are a subsequence of the open calls, each entered when its call was. */
  ghost predicate IsPartOf(frames: seq<Frame>, open: seq<Call>) {
    exists origin :: Embedded(frames, open, origin)
  }

  /** The law for runs that mix method probes and allocation-boundary probes. */
  lemma RetainedStackEmbedsInCalls(s: State, traced: set<int>, ops: seq<Op>)
    requires Fresh(s) && Nested(s.registered, traced, ops) && WithoutJdbc(ops)
    ensures
      var r, open := Run(s, ops), OpenCalls(ops);
      && IsPartOf(r.frames, open)
      && r.counters.sampledDepth == PlainFrames(r.frames, traced)
      && r.counters.unsampledDepth >= 0
      && r.counters.unsampledDepth + r.counters.sampledDepth == PlainCalls(open)
  {
    RunKeepsDepths(s, traced, ops);
    var r, open, origin := Run(s, ops), OpenCalls(ops), Origins(s, ops);
    EmbeddedInIsEmbedded(r.frames, open, origin);
  }

  lemma ClosedRunLeavesNothing(s: State, traced: set<int>, ops: seq<Op>)
    requires Fresh(s) && Nested(s.registered, traced, ops) && WithoutJdbc(ops)
    requires OpenCalls(ops) == []
    ensures
      var r := Run(s, ops);
      r.frames == [] && r.counters.sampledDepth == 0 && r.counters.unsampledDepth == 0
  {
    RetainedStackEmbedsInCalls(s, traced, ops);
    var r := Run(s, ops);
    var origin :| Embedded(r.frames, [], origin);
  }

  predicate MethodProbesOnly(ops: seq<Op>) {
    forall i :: 0 <= i < |ops| ==> !ops[i].EnterJdbc? && !ops[i].EnterTrace? && !ops[i].ExitTrace?
  }

  lemma {:induction false} MethodProbesOpenPlainCalls(ops: seq<Op>)
    requires MethodProbesOnly(ops)
    ensures forall j :: 0 <= j < |OpenCalls(ops)| ==> OpenCalls(ops)[j].kind.Plain?
  {
    if ops != [] {
      MethodProbesOpenPlainCalls(ops[..|ops| - 1]);
    }
  }

  /** The law for method probes alone: the two depths count the stack and the calls exactly. */
  lemma DepthsCountCalls(s: State, ops: seq<Op>)
    requires Fresh(s) && Nested(s.registered, {}, ops) && MethodProbesOnly(ops)
    ensures
      var r, open := Run(s, ops), OpenCalls(ops);
      && IsPartOf(r.frames, open)
      && r.counters.sampledDepth == |r.frames|
      && r.counters.unsampledDepth + r.counters.sampledDepth == |open|
  {
    RunKeepsDepths(s, {}, ops);
    MethodProbesOpenPlainCalls(ops);
    AllPlain(Run(s, ops).frames, OpenCalls(ops));
    RetainedStackEmbedsInCalls(s, {}, ops);
  }

  predicate NoRecursion(open: seq<Call>) {
    forall j, k :: 0 <= j < k < |open| ==> open[j].methodId != open[k].methodId
  }

  /** The exit of the innermost call pops a frame if and only if that call was retained, and then it pops its frame. */
  predicate ExitIsAttributed(r: State, open: seq<Call>, origin: seq<nat>)
    requires open != []
  {
    var last := open[|open| - 1];
    && (!ExitIsUnsampled(r, last.methodId) <==> |open| - 1 in origin)
    && (!ExitIsUnsampled(r, last.methodId) ==> r.frames[|r.frames| - 1].startNano == last.enteredAt)
  }

  /** The innermost retained call is one of this method. */
  predicate InnermostRetainedIs(open: seq<Call>, origin: seq<nat>, methodId: int) {
    origin != [] && origin[|origin| - 1] < |open| && open[origin[|origin| - 1]].methodId == methodId
  }

  /**
   * Whose time an exit records, in any nested run. The exit of the innermost call acts on that call's own frame or on
   * none, exactly unless the call was not retained and the innermost call that was is an outer one of the same method.
   */
  lemma ExitIsAttributedExactly(s: State, traced: set<int>, ops: seq<Op>)
    requires Fresh(s) && Nested(s.registered, traced, ops) && WithoutJdbc(ops)
    requires OpenCalls(ops) != [] && !OpenCalls(ops)[|OpenCalls(ops)| - 1].kind.Traced?
    ensures
      var open, origin := OpenCalls(ops), Origins(s, ops);
      ExitIsAttributed(Run(s, ops), open, origin) <==>
        |open| - 1 in origin || !InnermostRetainedIs(open, origin, open[|open| - 1].methodId)
  {
    RunKeepsDepths(s, traced, ops);
    NestedRunsOpenKnownCalls(s.registered, traced, ops);
    OwnExit(Run(s, ops), s.registered, traced, OpenCalls(ops), Origins(s, ops));
  }

  /** So without recursion every exit is attributed. */
  lemma ExitTimesItsOwnCall(s: State, traced: set<int>, ops: seq<Op>)
    requires Fresh(s) && Nested(s.registered, traced, ops) && WithoutJdbc(ops)
    requires NoRecursion(OpenCalls(ops))
    requires OpenCalls(ops) != [] && !OpenCalls(ops)[|OpenCalls(ops)| - 1].kind.Traced?
    ensures ExitIsAttributed(Run(s, ops), OpenCalls(ops), Origins(s, ops))
  {
    ExitIsAttributedExactly(s, traced, ops);
    var origin := Origins(s, ops);
    if origin != [] {
      assert origin[|origin| - 1] in origin;
    }
  }

  lemma OwnExit(r: State, registered: set<int>, traced: set<int>, open: seq<Call>, origin: seq<nat>)
    requires DepthInvariant(r, registered, traced, open, origin) && AllKnown(open, registered, traced)
    requires open != [] && !open[|open| - 1].kind.Traced?
    ensures ExitIsAttributed(r, open, origin) <==>
      |open| - 1 in origin || !InnermostRetainedIs(open, origin, open[|open| - 1].methodId)
  {
    var last := open[|open| - 1];
    assert IsKnown(last, registered, traced);
    TopFrameIsInnermostRetained(r.frames, open, origin);
    PlainFrameOnTopIsPopped(r, traced, last.methodId);
  }

  lemma PlainFrameOnTopIsPopped(s: State, traced: set<int>, methodId: int)
    requires s.counters.sampledDepth == PlainFrames(s.frames, traced) && methodId !in traced
    ensures ExitIsUnsampled(s, methodId) <==> !TopIs(s, methodId)
  {
    if TopIs(s, methodId) && s.counters.sampledDepth == 0 {
      NoPlainFrames(s.frames, traced);
    }
  }

  lemma LastOriginIsLargest(origin: seq<nat>, bound: nat, k: nat)
    requires k < |origin| && origin[k] + 1 == bound && origin[|origin| - 1] < bound
    requires forall i, j :: 0 <= i < j < |origin| ==> origin[i] < origin[j]
    ensures k == |origin| - 1
  {
  }

  lemma TopFrameIsInnermostRetained(frames: seq<Frame>, open: seq<Call>, origin: seq<nat>)
    requires EmbeddedIn(frames, open, origin) && open != []
    ensures
      var m := open[|open| - 1].methodId;
      && (InnermostRetainedIs(open, origin, m) <==> frames != [] && frames[|frames| - 1].methodId == m)
      && (|open| - 1 in origin ==>
        InnermostRetainedIs(open, origin, m) && frames[|frames| - 1].startNano == open[|open| - 1].enteredAt)
  {
    EmbeddedInIsEmbedded(frames, open, origin);
    if |open| - 1 in origin {
      var k :| 0 <= k < |origin| && origin[k] == |open| - 1;
      LastOriginIsLargest(origin, |open|, k);
    }
  }

  /**
   * The failing case comes up at every sampling interval: a call is timed, then calls itself. The exit of the
   * unsampled inner call pops the frame of the outer one, which is still running.
   */
  lemma RecursiveExitPopsOuterFrame(s: State, m: nat, t: int)
    requires Fresh(s) && m in s.registered
    requires s.samplingMode && s.samplingInterval >= 2 && s.counters.sampleCounter == s.samplingInterval - 1
    ensures
      var ops := [EnterMethod(m, t, 0), EnterMethod(m, t + 5, 0)];
      var r := Run(s, ops);
      && OpenCalls(ops) == [Call(m, Plain, t), Call(m, Plain, t + 5)]
      && !ExitIsAttributed(r, OpenCalls(ops), Origins(s, ops))
      && !ExitIsUnsampled(r, m)
      && r.frames[|r.frames| - 1].startNano == t
  {
    var e1, e2 := EnterMethod(m, t, 0), EnterMethod(m, t + 5, 0);
    assert [e1, e2][..1] == [e1] && [e1][..0] == [];
    var s1 := Step(s, e1);
    assert Run(s, [e1]) == s1;
    assert Run(s, [e1, e2]) == Step(s1, e2);
    assert OpenCalls([e1]) == [Call(m, Plain, t)];
    StepEffect(s, e1);
    assert s1.counters.sampleCounter == 0 && s1.samplingMode && s1.samplingInterval == s.samplingInterval;
    StepEffect(s1, e2);
    var r := Step(s1, e2);
    assert r.frames == s1.frames;
  }

  /** A reset keeps the law if and only if no plain call is open: it clears the depths and not the stack. */
  lemma ResetKeepsDepthsOnlyAtRest(s: State, traced: set<int>, ops: seq<Op>, mode: bool)
    requires Fresh(s) && Nested(s.registered, traced, ops) && WithoutJdbc(ops)
    ensures
      var r, open := AfterReset(Run(s, ops), mode), OpenCalls(ops);
      DepthLaw(r.frames, r.counters.unsampledDepth, r.counters.sampledDepth, traced, open, Origins(s, ops))
      <==> PlainCalls(open) == 0
  {
    RunKeepsDepths(s, traced, ops);
  }

  /** Every method enter of the run is timed, so nothing is ever unsampled. */
  predicate AlwaysTimed(s: State, ops: seq<Op>)
    requires WellFormed(s)
  {
    ops == [] || (
      && AlwaysTimed(s, ops[..|ops| - 1])
      && (ops[|ops| - 1].EnterMethod? ==> TakesTimingSample(Run(s, ops[..|ops| - 1]))))
  }

  predicate Mirrors(frames: seq<Frame>, open: seq<Call>) {
    && |frames| == |open|
    && forall k :: 0 <= k < |frames| ==>
      frames[k].methodId == open[k].methodId && frames[k].startNano == open[k].enteredAt
  }

  ghost predicate MirrorInvariant(s: State, registered: set<int>, open: seq<Call>) {
    && s.recording && registered <= s.registered
    && s.counters.unsampledDepth == 0
    && Mirrors(s.frames, open)
    && forall k :: 0 <= k < |open| ==> IsRegistered(s, open[k].methodId)
  }

  lemma JdbcEnterPushes(s: State, j: nat, entered: int)
    requires WellFormed(s) && s.recording
    ensures
      var r := AfterJdbcEnter(s, j, entered);
      && r.recording && r.registered == s.registered + {j} && Pushed(s.frames, r.frames, j, entered)
      && r.counters.unsampledDepth == s.counters.unsampledDepth && r.counters.sampledDepth == s.counters.sampledDepth
  {
    hide Grown, GrownLength;
  }

  lemma StepKeepsMirror(s: State, registered: set<int>, traced: set<int>, open: seq<Call>, op: Op)
    requires WellFormed(s) && MirrorInvariant(s, registered, open)
    requires Admissible(registered, traced, open, op)
    requires op.EnterMethod? ==> TakesTimingSample(s)
    ensures MirrorInvariant(Step(s, op), registered, OpenAfter(open, op))
  {
    hide AfterMethodEnter, AfterExit, AfterJdbcEnter, AfterTraceEnter, AfterTraceExit;
    if op.EnterJdbc? {
      JdbcEnterPushes(s, op.jdbcId, op.nowNano);
    } else {
      StepEffect(s, op);
    }
  }

  /** JDBC calls included: while nothing is unsampled the stack is the call stack, frame by frame. */
  lemma {:induction false} TimedRunMirrorsCalls(s: State, traced: set<int>, ops: seq<Op>)
    requires Fresh(s) && Nested(s.registered, traced, ops) && AlwaysTimed(s, ops)
    ensures MirrorInvariant(Run(s, ops), s.registered, OpenCalls(ops))
    ensures Mirrors(Run(s, ops).frames, OpenCalls(ops))
  {
    if ops != [] {
      var prefix := ops[..|ops| - 1];
      TimedRunMirrorsCalls(s, traced, prefix);
      StepKeepsMirror(Run(s, prefix), s.registered, traced, OpenCalls(prefix), ops[|ops| - 1]);
    }
  }
}
