/** What a JDBC call does to the stack and the depths it is made under, whatever it calls itself. */
module RecorderJdbc {
  import opened Sequences
  import opened MethodStacks
  import opened RecorderModel
  import opened RecorderDepth

  // ---- a nested run on top of a stack it never looks into

  /** Everything a decision to time a call depends on. */
  predicate SameCadence(r: State, s: State) {
    && r.recording && s.recording
    && r.samplingMode == s.samplingMode && r.samplingInterval == s.samplingInterval
    && r.counters.sampleCounter == s.counters.sampleCounter
    && r.counters.rateCount == s.counters.rateCount
    && r.counters.rateWindowStartedAtMs == s.counters.rateWindowStartedAtMs
  }

  /** The stack of r is `base` with the stack of s on top, child time aside. */
  predicate StackOver(base: seq<Frame>, r: seq<Frame>, s: seq<Frame>) {
    && |r| == |base| + |s|
    && SameExceptChildTime(r[..|base|], base)
    && SameExceptChildTime(r[|base|..], s)
  }

  /** State r is state s, run on top of a stack and of depths. */
  predicate Over(base: seq<Frame>, unsampled: nat, sampled: nat, r: State, s: State) {
    && WellFormed(r) && WellFormed(s) && SameCadence(r, s) && s.registered <= r.registered
    && r.counters.unsampledDepth == unsampled + s.counters.unsampledDepth
    && r.counters.sampledDepth == sampled + s.counters.sampledDepth
    && StackOver(base, r.frames, s.frames)
  }

  lemma DecisionCadenceFollows(r: State, s: State, nowMs: int)
    requires SameCadence(r, s)
    ensures SameCadence(AfterSamplingDecision(r, nowMs), AfterSamplingDecision(s, nowMs))
    ensures TakesTimingSample(r) == TakesTimingSample(s)
  {
  }

  lemma CountingKeepsCadence(s: State, m: nat)
    requires WellFormed(s) && s.recording
    ensures SameCadence(s.(counters := CountInvocation(s.counters, m)), s)
  {
    hide Grown, GrownLength;
  }

  lemma EnterCadenceFollows(r: State, s: State, m: int, nowNano: int, nowMs: int)
    requires WellFormed(r) && WellFormed(s) && SameCadence(r, s) && IsRegistered(r, m) && IsRegistered(s, m)
    ensures SameCadence(AfterMethodEnter(r, m, nowNano, nowMs), AfterMethodEnter(s, m, nowNano, nowMs))
  {
    hide CountInvocation, AfterSamplingDecision;
    CountingKeepsCadence(r, m);
    CountingKeepsCadence(s, m);
    DecisionCadenceFollows(r.(counters := CountInvocation(r.counters, m)),
                           s.(counters := CountInvocation(s.counters, m)), nowMs);
  }

  lemma ExitKeepsCadence(s: State, m: int, nowNano: int)
    requires WellFormed(s) && s.recording
    ensures SameCadence(AfterExit(s, m, nowNano), s)
  {
    hide Grown, GrownLength, EdgesBelow, FramesBelow;
  }

  lemma CadenceFollows(r: State, s: State, op: Op)
    requires WellFormed(r) && WellFormed(s) && SameCadence(r, s) && !op.EnterJdbc?
    requires op.EnterMethod? ==> IsRegistered(r, op.methodId) && IsRegistered(s, op.methodId)
    ensures SameCadence(Step(r, op), Step(s, op))
  {
    hide AfterMethodEnter, AfterExit, TopmostOf;
    match op
    case EnterMethod(m, nowNano, nowMs) => EnterCadenceFollows(r, s, m, nowNano, nowMs);
    case Exit(m, nowNano) =>
      ExitKeepsCadence(r, m, nowNano);
      ExitKeepsCadence(s, m, nowNano);
    case _ =>
  }

  lemma PushedOver(base: seq<Frame>, r: seq<Frame>, s: seq<Frame>, r': seq<Frame>, s': seq<Frame>, m: int, start: int)
    requires StackOver(base, r, s) && Pushed(r, r', m, start) && Pushed(s, s', m, start)
    ensures StackOver(base, r', s')
  {
    assert r'[..|base|] == r'[..|r|][..|base|];
    forall k | 0 <= k < |s'|
      ensures r'[|base|..][k].methodId == s'[k].methodId && r'[|base|..][k].startNano == s'[k].startNano
    {
      if k < |s| {
        assert r'[|base| + k] == r'[..|r|][|base| + k] && s'[k] == s'[..|s|][k];
        assert r[|base|..][k] == r[|base| + k];
      }
    }
  }

  lemma PoppedOver(base: seq<Frame>, r: seq<Frame>, s: seq<Frame>, r': seq<Frame>, s': seq<Frame>)
    requires StackOver(base, r, s) && s != []
    requires SameExceptChildTime(r', r[..|r| - 1]) && SameExceptChildTime(s', s[..|s| - 1])
    ensures StackOver(base, r', s')
  {
    forall k | 0 <= k < |s'|
      ensures r'[|base|..][k].methodId == s'[k].methodId && r'[|base|..][k].startNano == s'[k].startNano
    {
      assert r[|base|..][k] == r[|base| + k];
    }
    forall k | 0 <= k < |base|
      ensures r'[..|base|][k].methodId == base[k].methodId && r'[..|base|][k].startNano == base[k].startNano
    {
      assert r[..|base|][k] == r[k];
    }
  }

  /** The top of the whole stack is the top of the upper part, if that has one. */
  lemma TopOver(base: seq<Frame>, r: State, s: State, m: int)
    requires StackOver(base, r.frames, s.frames) && base != []
    ensures s.frames != [] ==> (TopIs(r, m) <==> TopIs(s, m))
    ensures s.frames == [] ==> (TopIs(r, m) <==> base[|base| - 1].methodId == m)
  {
    var n := |base|;
    if s.frames != [] {
      assert r.frames[n..][|s.frames| - 1] == r.frames[|r.frames| - 1];
    } else {
      assert r.frames[..n][n - 1] == r.frames[n - 1];
    }
  }

  /** No method probe of the run has this id. */
  predicate NoProbeOf(op: Op, j: int) {
    (op.EnterMethod? || op.Exit?) ==> op.methodId != j
  }

  lemma ExitFollows(base: seq<Frame>, unsampled: nat, sampled: nat, r: State, s: State, traced: set<int>, j: int,
                    open: seq<Call>, origin: seq<nat>, op: Op)
    requires Over(base, unsampled, sampled, r, s) && base != [] && base[|base| - 1].methodId == j
    requires DepthInvariant(s, s.registered, traced, open, origin) && AllKnown(open, s.registered, traced)
    requires Admissible(s.registered, traced, open, op) && op.Exit? && op.methodId != j
    ensures ExitIsUnsampled(s, op.methodId) <==> !TopIs(s, op.methodId)
    ensures ExitIsUnsampled(r, op.methodId) <==> ExitIsUnsampled(s, op.methodId)
    ensures TopIs(s, op.methodId) ==> s.counters.sampledDepth > 0
  {
    hide EmbeddedIn, PlainFrames, StackOver;
    var m := op.methodId;
    assert IsKnown(open[|open| - 1], s.registered, traced);
    PlainFrameOnTopIsPopped(s, traced, m);
    TopOver(base, r, s, m);
    if TopIs(s, m) {
      PlainTopIsCounted(s.frames, traced);
    }
  }

  lemma PlainTopIsCounted(frames: seq<Frame>, traced: set<int>)
    requires frames != [] && frames[|frames| - 1].methodId !in traced
    ensures PlainFrames(frames, traced) > 0
  {
  }

  lemma StepOver(base: seq<Frame>, unsampled: nat, sampled: nat, r: State, s: State, traced: set<int>, j: int,
                 open: seq<Call>, origin: seq<nat>, op: Op)
    requires Over(base, unsampled, sampled, r, s) && base != [] && base[|base| - 1].methodId == j
    requires DepthInvariant(s, s.registered, traced, open, origin) && AllKnown(open, s.registered, traced)
    requires Admissible(s.registered, traced, open, op) && !op.EnterJdbc? && NoProbeOf(op, j)
    ensures Over(base, unsampled, sampled, Step(r, op), Step(s, op))
    ensures Step(r, op).registered == r.registered
  {
    hide Step, EmbeddedIn, StackOver, PlainFrames;
    if op.Exit? {
      assert IsKnown(open[|open| - 1], s.registered, traced);
    }
    StepEffect(r, op);
    StepEffect(s, op);
    CadenceFollows(r, s, op);
    KnownKindsMatch(open, s.registered, traced);
    var r', s' := Step(r, op), Step(s, op);
    match op
    case EnterMethod(m, nowNano, _) =>
      if TakesTimingSample(s) {
        PushedOver(base, r.frames, s.frames, r'.frames, s'.frames, m, nowNano);
      }
    case Exit(m, _) =>
      ExitFollows(base, unsampled, sampled, r, s, traced, j, open, origin, op);
      ExitKeepsDepths(s, s', s.registered, traced, open, origin, op);
      if TopIs(s, m) {
        PoppedOver(base, r.frames, s.frames, r'.frames, s'.frames);
      }
    case EnterTrace(m, _) => PushedOver(base, r.frames, s.frames, r'.frames, s'.frames, m, 0);
    case ExitTrace(m) =>
      TracedCallIsOnTop(s.frames, s.counters.unsampledDepth, s.counters.sampledDepth, traced, open, origin);
      TopOver(base, r, s, m);
      PoppedOver(base, r.frames, s.frames, r'.frames, s'.frames);
    case _ =>
  }

  predicate NoProbesOf(ops: seq<Op>, j: int) {
    forall k :: 0 <= k < |ops| ==> NoProbeOf(ops[k], j)
  }

  lemma {:induction false} RunOver(base: seq<Frame>, unsampled: nat, sampled: nat, r: State, s: State, traced: set<int>,
                                   j: int, body: seq<Op>)
    requires Fresh(s) && Over(base, unsampled, sampled, r, s) && base != [] && base[|base| - 1].methodId == j
    requires Nested(s.registered, traced, body) && WithoutJdbc(body) && NoProbesOf(body, j)
    ensures Over(base, unsampled, sampled, Run(r, body), Run(s, body)) && Run(r, body).registered == r.registered
  {
    hide Step, DepthLaw, StackOver, SameCadence;
    if body != [] {
      var prefix, op := body[..|body| - 1], body[|body| - 1];
      RunOver(base, unsampled, sampled, r, s, traced, j, prefix);
      RunKeepsDepths(s, traced, prefix);
      NestedRunsOpenKnownCalls(s.registered, traced, prefix);
      assert op == body[|body| - 1];
      StepOver(base, unsampled, sampled, Run(r, prefix), Run(s, prefix), traced, j, OpenCalls(prefix),
               Origins(s, prefix), op);
    }
  }

  // ---- a JDBC call and what it calls

  /** What may happen inside a JDBC call: calls that all end, none of them a JDBC call or a probe of its own method. */
  predicate IsBody(s: State, traced: set<int>, j: int, body: seq<Op>) {
    && Nested(s.registered, traced, body) && WithoutJdbc(body) && NoProbesOf(body, j) && OpenCalls(body) == []
  }

  /** The thread as if it had just started. */
  function Blank(s: State): State {
    s.(frames := [],
       counters := s.counters.(selfNanos := [0], totalNanos := [0], invocations := [0], unsampledDepth := 0,
                               sampledDepth := 0))
  }

  /** A body gives back everything it took. */
  lemma BodyRestores(s: State, traced: set<int>, j: nat, entered: int, body: seq<Op>)
    requires WellFormed(s) && s.recording && s.counters.unsampledDepth >= 0 && s.counters.sampledDepth >= 0
    requires IsBody(s, traced, j, body)
    ensures
      var before := AfterJdbcEnter(s, j, entered);
      var after := Run(before, body);
      && after.recording && after.registered == before.registered
      && SameExceptChildTime(after.frames, before.frames)
      && after.counters.unsampledDepth == s.counters.unsampledDepth
      && after.counters.sampledDepth == s.counters.sampledDepth
  {
    var before, blank := AfterJdbcEnter(s, j, entered), Blank(s);
    JdbcEnterIsOver(s, j, entered);
    hide Run, OpenCalls, Nested, Origins;
    RunOver(before.frames, s.counters.unsampledDepth, s.counters.sampledDepth, before, blank, traced, j, body);
    ClosedRunLeavesNothing(blank, traced, body);
    assert Run(before, body).frames[..|before.frames|] == Run(before, body).frames;
  }

  lemma JdbcEnterIsOver(s: State, j: nat, entered: int)
    requires WellFormed(s) && s.recording && s.counters.unsampledDepth >= 0 && s.counters.sampledDepth >= 0
    ensures
      var before := AfterJdbcEnter(s, j, entered);
      && Fresh(Blank(s)) && before.frames != [] && before.frames[|before.frames| - 1].methodId == j
      && before.recording && before.registered == s.registered + {j}
      && before.frames[..|before.frames| - 1] == s.frames
      && Over(before.frames, s.counters.unsampledDepth, s.counters.sampledDepth, before, Blank(s))
  {
    hide Grown, GrownLength;
  }

  lemma {:induction false} RunConcat(s: State, a: seq<Op>, b: seq<Op>)
    requires WellFormed(s)
    ensures Run(s, a + b) == Run(Run(s, a), b)
  {
    hide Step, WellFormed;
    if b == [] {
      assert a + b == a;
    } else {
      assert (a + b)[..|a + b| - 1] == a + b[..|b| - 1];
      RunConcat(s, a, b[..|b| - 1]);
    }
  }

  function JdbcCall(j: nat, entered: int, body: seq<Op>, left: int): seq<Op> {
    [EnterJdbc(j, entered)] + body + [Exit(j, left)]
  }

  lemma CallIsItsParts(s: State, j: nat, entered: int, body: seq<Op>, left: int)
    requires WellFormed(s)
    ensures Run(s, JdbcCall(j, entered, body, left)) ==
      AfterExit(Run(AfterJdbcEnter(s, j, entered), body), j, left)
  {
    hide AfterJdbcEnter, AfterExit, WellFormed;
    var enter, exit := [EnterJdbc(j, entered)], [Exit(j, left)];
    RunConcat(s, enter + body, exit);
    RunConcat(s, enter, body);
    assert enter[..0] == [] && exit[..0] == [];
  }

  /** The exit itself: it pops unless it meets a positive unsampled depth and a sampled depth of 0. */
  lemma JdbcExitEffect(s: State, j: nat, left: int)
    requires WellFormed(s) && s.recording && IsRegistered(s, j) && TopIs(s, j)
    ensures
      var r := AfterExit(s, j, left);
      if s.counters.unsampledDepth > 0 && s.counters.sampledDepth == 0 then
        && r.frames == s.frames && r.counters.sampledDepth == 0
        && r.counters.unsampledDepth == s.counters.unsampledDepth - 1
      else
        && SameExceptChildTime(r.frames, s.frames[..|s.frames| - 1])
        && r.counters.sampledDepth == Decremented(s.counters.sampledDepth)
        && r.counters.unsampledDepth == s.counters.unsampledDepth
  {
    hide Grown, GrownLength, EdgesBelow;
  }

  /**
   * A JDBC call gives the stack back, whatever it calls meanwhile, if and only if it is not made at a positive
   * unsampled depth and a sampled depth of 0; otherwise its own frame stays.
   */
  lemma JdbcCallRestoresStack(s: State, traced: set<int>, j: nat, entered: int, body: seq<Op>, left: int)
    requires WellFormed(s) && s.recording && s.counters.unsampledDepth >= 0 && s.counters.sampledDepth >= 0
    requires IsBody(s, traced, j, body)
    ensures
      var r := Run(s, JdbcCall(j, entered, body, left));
      && (|r.frames| == |s.frames| <==> !(s.counters.unsampledDepth > 0 && s.counters.sampledDepth == 0))
      && (|r.frames| == |s.frames| ==> SameExceptChildTime(r.frames, s.frames))
      && (|r.frames| != |s.frames| ==> SameExceptChildTime(r.frames, AfterJdbcEnter(s, j, entered).frames))
  {
    hide AfterJdbcEnter, AfterExit, IsBody, Run;
    CallIsItsParts(s, j, entered, body, left);
    BodyRestores(s, traced, j, entered, body);
    JdbcEnterIsOver(s, j, entered);
    JdbcExitEffect(Run(AfterJdbcEnter(s, j, entered), body), j, left);
  }

  /** And it leaves both depths alone if and only if both are 0: it takes a depth it never gave. */
  lemma JdbcCallTakesADepth(s: State, traced: set<int>, j: nat, entered: int, body: seq<Op>, left: int)
    requires WellFormed(s) && s.recording && s.counters.unsampledDepth >= 0 && s.counters.sampledDepth >= 0
    requires IsBody(s, traced, j, body)
    ensures
      var r := Run(s, JdbcCall(j, entered, body, left));
      (r.counters.unsampledDepth == s.counters.unsampledDepth && r.counters.sampledDepth == s.counters.sampledDepth)
      <==> (s.counters.unsampledDepth == 0 && s.counters.sampledDepth == 0)
  {
    hide AfterJdbcEnter, AfterExit, IsBody, Run;
    CallIsItsParts(s, j, entered, body, left);
    BodyRestores(s, traced, j, entered, body);
    JdbcEnterIsOver(s, j, entered);
    JdbcExitEffect(Run(AfterJdbcEnter(s, j, entered), body), j, left);
  }

  // ---- many JDBC calls

  /** One JDBC call and what it calls. */
  datatype Made = Made(jdbcId: nat, entered: int, body: seq<Op>, left: int)

  function JdbcCalls(calls: seq<Made>): seq<Op> {
    if calls == [] then []
    else
      var last := calls[|calls| - 1];
      JdbcCalls(calls[..|calls| - 1]) + JdbcCall(last.jdbcId, last.entered, last.body, last.left)
  }

  predicate AreBodies(s: State, traced: set<int>, calls: seq<Made>) {
    forall k :: 0 <= k < |calls| ==> IsBody(s, traced, calls[k].jdbcId, calls[k].body)
  }

  /** How many of k calls in a row, made at these depths, leave their frame behind. */
  function Stranded(unsampled: nat, sampled: nat, k: nat): nat {
    Least(unsampled, Minus(k, sampled))
  }

  /** What k calls in a row lead to: the calls that found no sampled depth left, while there was an unsampled one. */
  ghost predicate RowLaw(s: State, r: State, calls: seq<Made>)
    requires s.counters.unsampledDepth >= 0 && s.counters.sampledDepth >= 0
  {
    var unsampled: nat, sampled: nat, n := s.counters.unsampledDepth, s.counters.sampledDepth, |s.frames|;
    var stranded := Stranded(unsampled, sampled, |calls|);
    && r.recording && s.registered <= r.registered
    && r.counters.unsampledDepth == unsampled - stranded
    && r.counters.sampledDepth == Minus(sampled, |calls|)
    && |r.frames| == n + stranded
    && SameExceptChildTime(r.frames[..n], s.frames)
    && forall i :: n <= i < |r.frames| ==> r.frames[i].methodId == calls[sampled + i - n].jdbcId
  }

  lemma {:induction false} MoreRegistered(registered: set<int>, more: set<int>, traced: set<int>, ops: seq<Op>)
    requires registered <= more && Nested(registered, traced, ops)
    ensures Nested(more, traced, ops)
  {
    if ops != [] {
      MoreRegistered(registered, more, traced, ops[..|ops| - 1]);
    }
  }

  /** One more call in the row. */
  lemma RowGrows(s: State, r: State, r': State, calls: seq<Made>, last: Made)
    requires s.counters.unsampledDepth >= 0 && s.counters.sampledDepth >= 0 && RowLaw(s, r, calls)
    requires r'.recording && r.registered <= r'.registered
    requires
      if r.counters.unsampledDepth > 0 && r.counters.sampledDepth == 0 then
        && |r'.frames| == |r.frames| + 1 && SameExceptChildTime(r'.frames[..|r.frames|], r.frames)
        && r'.frames[|r.frames|].methodId == last.jdbcId && r'.counters.sampledDepth == 0
        && r'.counters.unsampledDepth == r.counters.unsampledDepth - 1
      else
        && SameExceptChildTime(r'.frames, r.frames)
        && r'.counters.sampledDepth == Decremented(r.counters.sampledDepth)
        && r'.counters.unsampledDepth == r.counters.unsampledDepth
    ensures RowLaw(s, r', calls + [last])
  {
    var n, m := |s.frames|, |r.frames|;
    forall k | 0 <= k < n
      ensures r'.frames[..n][k].methodId == s.frames[k].methodId && r'.frames[..n][k].startNano == s.frames[k].startNano
    {
      assert r.frames[..n][k] == r.frames[k];
      if |r'.frames| > m {
        assert r'.frames[..m][k] == r'.frames[k];
      }
    }
    forall q | n <= q < m ensures r'.frames[q].methodId == r.frames[q].methodId {
      if |r'.frames| > m {
        assert r'.frames[..m][q] == r'.frames[q];
      }
    }
  }

  /** One call, in the words of the row. */
  lemma CallInRow(s: State, traced: set<int>, call: Made)
    requires WellFormed(s) && s.recording && s.counters.unsampledDepth >= 0 && s.counters.sampledDepth >= 0
    requires IsBody(s, traced, call.jdbcId, call.body)
    ensures
      var r := Run(s, JdbcCall(call.jdbcId, call.entered, call.body, call.left));
      && r.recording && s.registered <= r.registered
      && if s.counters.unsampledDepth > 0 && s.counters.sampledDepth == 0 then
        && |r.frames| == |s.frames| + 1 && SameExceptChildTime(r.frames[..|s.frames|], s.frames)
        && r.frames[|s.frames|].methodId == call.jdbcId && r.counters.sampledDepth == 0
        && r.counters.unsampledDepth == s.counters.unsampledDepth - 1
      else
        && SameExceptChildTime(r.frames, s.frames)
        && r.counters.sampledDepth == Decremented(s.counters.sampledDepth)
        && r.counters.unsampledDepth == s.counters.unsampledDepth
  {
    hide AfterJdbcEnter, AfterExit, IsBody, Run;
    CallIsItsParts(s, call.jdbcId, call.entered, call.body, call.left);
    BodyRestores(s, traced, call.jdbcId, call.entered, call.body);
    JdbcEnterIsOver(s, call.jdbcId, call.entered);
    var before := AfterJdbcEnter(s, call.jdbcId, call.entered);
    var inside := Run(before, call.body);
    JdbcExitEffect(inside, call.jdbcId, call.left);
    ExitKeepsRegistered(inside, call.jdbcId, call.left);
    var n := |s.frames|;
    forall k | 0 <= k < n
      ensures inside.frames[k].methodId == s.frames[k].methodId && inside.frames[k].startNano == s.frames[k].startNano
    {
      assert before.frames[..n][k] == before.frames[k];
    }
  }

  lemma ExitKeepsRegistered(s: State, m: int, nowNano: int)
    requires WellFormed(s)
    ensures
      var r := AfterExit(s, m, nowNano);
      r.registered == s.registered && r.recording == s.recording
  {
    hide Grown, GrownLength, EdgesBelow, FramesBelow;
  }

  /**
   * JDBC calls in a row, with whatever they call: made at depths U and S, k of them leave min(U, max(0, k - S)) frames
   * behind, those of the calls from the one numbered S on, lower the unsampled depth by as much and the sampled depth
   * by one each as long as it lasts.
   */
  lemma {:induction false} JdbcCallsInARow(s: State, traced: set<int>, calls: seq<Made>)
    requires WellFormed(s) && s.recording && s.counters.unsampledDepth >= 0 && s.counters.sampledDepth >= 0
    requires AreBodies(s, traced, calls)
    ensures RowLaw(s, Run(s, JdbcCalls(calls)), calls)
  {
    hide IsBody, Nested, JdbcCall;
    if calls != [] {
      var n := |calls| - 1;
      var last := calls[n];
      var r := Run(s, JdbcCalls(calls[..n]));
      JdbcCallsInARow(s, traced, calls[..n]);
      BodyStays(s, r, traced, last);
      CallInRow(r, traced, last);
      RunConcat(s, JdbcCalls(calls[..n]), JdbcCall(last.jdbcId, last.entered, last.body, last.left));
      RowGrows(s, r, Run(s, JdbcCalls(calls)), calls[..n], last);
      assert calls[..n] + [last] == calls;
    }
  }

  lemma BodyStays(s: State, r: State, traced: set<int>, call: Made)
    requires IsBody(s, traced, call.jdbcId, call.body) && s.registered <= r.registered
    ensures IsBody(r, traced, call.jdbcId, call.body)
  {
    MoreRegistered(s.registered, r.registered, traced, call.body);
  }

  // ---- JDBC calls inside JDBC calls

  predicate OnlyJdbc(ops: seq<Op>) {
    forall k :: 0 <= k < |ops| ==> ops[k].EnterJdbc? || ops[k].Exit?
  }

  function Exits(ops: seq<Op>): nat {
    if ops == [] then 0 else Exits(ops[..|ops| - 1]) + (if ops[|ops| - 1].Exit? then 1 else 0)
  }

  /** The stack before, child time aside, with a frame for each open call on top. */
  predicate FramesFor(before: seq<Frame>, after: seq<Frame>, open: seq<Call>) {
    && |after| == |before| + |open|
    && SameExceptChildTime(after[..|before|], before)
    && forall k :: |before| <= k < |after| ==> after[k].methodId == open[k - |before|].methodId
  }

  /** Every open call has its frame as long as no exit has met a spent sampled depth; after that frames only pile up. */
  ghost predicate TreeLaw(s: State, r: State, open: seq<Call>, exits: nat)
    requires s.counters.unsampledDepth >= 0 && s.counters.sampledDepth >= 0
  {
    && r.recording && (forall k :: 0 <= k < |open| ==> IsRegistered(r, open[k].methodId))
    && if s.counters.unsampledDepth == 0 || exits <= s.counters.sampledDepth then
         && FramesFor(s.frames, r.frames, open)
         && r.counters.unsampledDepth == s.counters.unsampledDepth
         && r.counters.sampledDepth == Minus(s.counters.sampledDepth, exits)
       else
         |r.frames| > |s.frames| + |open|
  }

  lemma ExitPopsAtMostOne(s: State, m: int, nowNano: int)
    requires WellFormed(s)
    ensures |AfterExit(s, m, nowNano).frames| >= |s.frames| - 1
  {
    hide Grown, GrownLength, EdgesBelow;
  }

  lemma EnterKeepsTree(s: State, r: State, open: seq<Call>, exits: nat, j: nat, entered: int)
    requires s.counters.unsampledDepth >= 0 && s.counters.sampledDepth >= 0 && WellFormed(r)
    requires TreeLaw(s, r, open, exits)
    ensures TreeLaw(s, AfterJdbcEnter(r, j, entered), open + [Call(j, Jdbc, entered)], exits)
  {
    hide AfterJdbcEnter;
    JdbcEnterPushes(r, j, entered);
    var r', n := AfterJdbcEnter(r, j, entered), |s.frames|;
    assert r'.frames[..|r.frames|] == r.frames;
    if |r.frames| >= n {
      assert r'.frames[..n] == r.frames[..n];
      forall k | n <= k < |r.frames| ensures r'.frames[k] == r.frames[k] {
        assert r'.frames[..|r.frames|][k] == r'.frames[k];
      }
    }
  }

  lemma ExitKeepsTree(s: State, r: State, open: seq<Call>, exits: nat, left: int)
    requires s.counters.unsampledDepth >= 0 && s.counters.sampledDepth >= 0 && WellFormed(r)
    requires TreeLaw(s, r, open, exits) && open != []
    ensures TreeLaw(s, AfterExit(r, open[|open| - 1].methodId, left), open[..|open| - 1], exits + 1)
  {
    hide AfterExit;
    var last := open[|open| - 1].methodId;
    var r', n := AfterExit(r, last, left), |s.frames|;
    ExitKeepsRegistered(r, last, left);
    ExitPopsAtMostOne(r, last, left);
    if s.counters.unsampledDepth == 0 || exits <= s.counters.sampledDepth {
      assert TopIs(r, last);
      JdbcExitEffect(r, last, left);
      if s.counters.unsampledDepth == 0 || exits < s.counters.sampledDepth {
        PoppedFrames(s.frames, r.frames, r'.frames, open);
      }
    }
  }

  lemma PoppedFrames(before: seq<Frame>, frames: seq<Frame>, after: seq<Frame>, open: seq<Call>)
    requires FramesFor(before, frames, open) && open != []
    requires SameExceptChildTime(after, frames[..|frames| - 1])
    ensures FramesFor(before, after, open[..|open| - 1])
  {
    var n := |before|;
    forall k | 0 <= k < n
      ensures after[..n][k].methodId == before[k].methodId && after[..n][k].startNano == before[k].startNano
    {
      assert frames[..n][k] == frames[k] == frames[..|frames| - 1][k];
    }
  }

  lemma {:induction false} JdbcTreeRun(s: State, ops: seq<Op>)
    requires WellFormed(s) && s.recording && s.counters.unsampledDepth >= 0 && s.counters.sampledDepth >= 0
    requires OnlyJdbc(ops) && Nested(s.registered, {}, ops)
    ensures TreeLaw(s, Run(s, ops), OpenCalls(ops), Exits(ops))
  {
    hide AfterJdbcEnter, AfterExit, TreeLaw;
    if ops == [] {
      TreeStarts(s);
    } else {
      var prefix, op := ops[..|ops| - 1], ops[|ops| - 1];
      assert op == ops[|ops| - 1];
      JdbcTreeRun(s, prefix);
      if op.EnterJdbc? {
        EnterKeepsTree(s, Run(s, prefix), OpenCalls(prefix), Exits(prefix), op.jdbcId, op.nowNano);
      } else {
        ExitKeepsTree(s, Run(s, prefix), OpenCalls(prefix), Exits(prefix), op.nowNano);
      }
    }
  }

  lemma TreeStarts(s: State)
    requires s.recording && s.counters.unsampledDepth >= 0 && s.counters.sampledDepth >= 0
    ensures TreeLaw(s, s, [], 0)
  {
    assert s.frames[..|s.frames|] == s.frames;
  }

  /**
   * JDBC calls that make JDBC calls, in any number and to any depth: together they give the stack back if and only if
   * they start at unsampled depth 0, or at a sampled depth no smaller than their number.
   */
  lemma JdbcTreeRestoresStack(s: State, ops: seq<Op>)
    requires WellFormed(s) && s.recording && s.counters.unsampledDepth >= 0 && s.counters.sampledDepth >= 0
    requires OnlyJdbc(ops) && Nested(s.registered, {}, ops) && OpenCalls(ops) == []
    ensures
      var r := Run(s, ops);
      && |r.frames| >= |s.frames|
      && (|r.frames| == |s.frames| <==>
        s.counters.unsampledDepth == 0 || Exits(ops) <= s.counters.sampledDepth)
      && (|r.frames| == |s.frames| ==>
        && SameExceptChildTime(r.frames, s.frames)
        && r.counters.unsampledDepth == s.counters.unsampledDepth
        && r.counters.sampledDepth == Minus(s.counters.sampledDepth, Exits(ops)))
  {
    hide Run, Nested, OnlyJdbc, Exits;
    JdbcTreeRun(s, ops);
    var r := Run(s, ops);
    if |r.frames| == |s.frames| {
      assert r.frames[..|s.frames|] == r.frames;
    }
  }

  // ---- how a thread gets there

  lemma StrandedRun(s: State, first: Op, call: seq<Op>, last: Op)
    requires WellFormed(s)
    ensures Run(s, [first] + call + [last]) == Step(Run(Step(s, first), call), last)
  {
    hide Step;
    RunConcat(s, [first] + call, [last]);
    RunConcat(s, [first], call);
    assert [first][..0] == [] && [last][..0] == [];
  }

  lemma UntimedEnter(s: State, m: nat, t: int)
    requires Fresh(s) && m in s.registered && !TakesTimingSample(s)
    ensures
      var r := AfterMethodEnter(s, m, t, 0);
      && WellFormed(r) && r.recording && r.registered == s.registered && r.frames == []
      && r.counters.unsampledDepth == 1 && r.counters.sampledDepth == 0
  {
    hide Grown, GrownLength;
  }

  lemma UntimedJdbcCall(s: State, j: nat, t: int)
    requires WellFormed(s) && s.recording && s.frames == []
    requires s.counters.unsampledDepth == 1 && s.counters.sampledDepth == 0
    ensures
      var r := Run(s, JdbcCall(j, t + 1, [], t + 2));
      && r.recording && r.registered == s.registered + {j} && |r.frames| == 1 && r.frames[0].methodId == j
      && r.counters.unsampledDepth == 0 && r.counters.sampledDepth == 0
  {
    hide AfterJdbcEnter, AfterExit;
    CallIsItsParts(s, j, t + 1, [], t + 2);
    JdbcEnterIsOver(s, j, t + 1);
    var entered := AfterJdbcEnter(s, j, t + 1);
    JdbcExitEffect(entered, j, t + 2);
    ExitKeepsRegistered(entered, j, t + 2);
  }

  lemma UntimedExit(s: State, m: nat, t: int)
    requires WellFormed(s) && s.recording && m in s.registered && !TopIs(s, m)
    requires s.counters.unsampledDepth == 0
    ensures AfterExit(s, m, t) == s
  {
  }

  lemma StrandedCallsClose(m: nat, j: nat, t: int)
    ensures OpenCalls([EnterMethod(m, t, 0), EnterJdbc(j, t + 1), Exit(j, t + 2), Exit(m, t + 3)]) == []
  {
    var ops := [EnterMethod(m, t, 0), EnterJdbc(j, t + 1), Exit(j, t + 2), Exit(m, t + 3)];
    OpenCallsAppend([], ops[0]);
    OpenCallsAppend([ops[0]], ops[1]);
    OpenCallsAppend([ops[0], ops[1]], ops[2]);
    OpenCallsAppend([ops[0], ops[1], ops[2]], ops[3]);
    assert [ops[0]] + [ops[1]] == [ops[0], ops[1]];
    assert [ops[0], ops[1]] + [ops[2]] == [ops[0], ops[1], ops[2]];
    assert [ops[0], ops[1], ops[2]] + [ops[3]] == ops;
  }

  lemma OpenCallsAppend(ops: seq<Op>, op: Op)
    ensures OpenCalls(ops + [op]) == OpenAfter(OpenCalls(ops), op)
  {
    assert (ops + [op])[..|ops|] == ops;
  }

  /**
   * A thread can get there from the start: its first call is not timed, makes one JDBC call and returns. Every call
   * has ended, and the JDBC frame is still on the stack.
   */
  lemma StrandedFrame(s: State, m: nat, j: nat, t: int)
    requires Fresh(s) && m in s.registered && m != j
    requires !TakesTimingSample(s)
    ensures
      var ops := [EnterMethod(m, t, 0)] + JdbcCall(j, t + 1, [], t + 2) + [Exit(m, t + 3)];
      var r := Run(s, ops);
      && OpenCalls(ops) == [] && |r.frames| == 1 && r.frames[0].methodId == j
      && r.counters.unsampledDepth == 0 && r.counters.sampledDepth == 0
  {
    hide AfterMethodEnter, AfterExit;
    var e1, e4 := EnterMethod(m, t, 0), Exit(m, t + 3);
    var call := JdbcCall(j, t + 1, [], t + 2);
    assert [e1] + call + [e4] == [e1, EnterJdbc(j, t + 1), Exit(j, t + 2), e4];
    StrandedRun(s, e1, call, e4);
    UntimedEnter(s, m, t);
    var s1 := AfterMethodEnter(s, m, t, 0);
    UntimedJdbcCall(s1, j, t);
    UntimedExit(Run(s1, call), m, t + 3);
    StrandedCallsClose(m, j, t);
  }

  lemma TimedThenUntimed(s: State, m: nat, u: nat, t: int)
    requires Fresh(s) && m in s.registered && u in s.registered
    requires s.samplingMode && s.samplingInterval >= 2 && s.counters.sampleCounter == s.samplingInterval - 1
    ensures
      var r := Run(s, [EnterMethod(m, t, 0), EnterMethod(u, t + 1, 0)]);
      && r.recording && |r.frames| == 1 && r.frames[0].methodId == m && r.frames[0].startNano == t
      && r.counters.unsampledDepth == 1 && r.counters.sampledDepth == 1
  {
    hide AfterMethodEnter;
    var e1, e2 := EnterMethod(m, t, 0), EnterMethod(u, t + 1, 0);
    var s1 := Step(s, e1);
    assert [e1, e2][..1] == [e1] && [e1][..0] == [];
    assert Run(s, [e1]) == s1 && Run(s, [e1, e2]) == Step(s1, e2);
    StepEffect(s, e1);
    TimedEnterStartsOver(s, m, t);
    StepEffect(s1, e2);
    assert s1.frames[..0] == s.frames == [];
  }

  lemma TimedEnterStartsOver(s: State, m: nat, t: int)
    requires WellFormed(s) && s.recording && m in s.registered && s.samplingMode && TakesTimingSample(s)
    ensures
      var r := AfterMethodEnter(s, m, t, 0);
      r.samplingMode && r.samplingInterval == s.samplingInterval && r.counters.sampleCounter == 0
  {
    hide Grown, GrownLength;
  }

  /**
   * A retained method frame is no help: the first of two JDBC calls leaves it on the stack and takes its depth, so the
   * second one, made with that frame still there, strands its own.
   */
  lemma SecondCallStrands(s: State, m: nat, u: nat, j: nat, t: int)
    requires Fresh(s) && m in s.registered && u in s.registered
    requires s.samplingMode && s.samplingInterval >= 2 && s.counters.sampleCounter == s.samplingInterval - 1
    ensures
      var enters, call := [EnterMethod(m, t, 0), EnterMethod(u, t + 1, 0)], Made(j, t + 2, [], t + 3);
      var once, twice := Run(s, enters + JdbcCalls([call])), Run(s, enters + JdbcCalls([call, call]));
      && |once.frames| == 1 && once.frames[0].methodId == m && once.frames[0].startNano == t
      && once.counters.unsampledDepth == 1 && once.counters.sampledDepth == 0
      && |twice.frames| == 2 && twice.frames[0].methodId == m && twice.frames[1].methodId == j
  {
    hide Run, JdbcCalls;
    var enters, call := [EnterMethod(m, t, 0), EnterMethod(u, t + 1, 0)], Made(j, t + 2, [], t + 3);
    var r := Run(s, enters);
    TimedThenUntimed(s, m, u, t);
    RunConcat(s, enters, JdbcCalls([call]));
    RunConcat(s, enters, JdbcCalls([call, call]));
    JdbcCallsInARow(r, {}, [call]);
    JdbcCallsInARow(r, {}, [call, call]);
    var once, twice := Run(r, JdbcCalls([call])), Run(r, JdbcCalls([call, call]));
    assert once.frames[..1][0] == once.frames[0] && twice.frames[..1][0] == twice.frames[0];
  }
}
