/** What each recording call of the agent does to one thread's state, as functions on values. */
module RecorderModel {
  import opened Sequences
  import opened MethodStacks

  const CALL_RATE_THRESHOLD := 10_000
  const RATE_WINDOW_MS := 500
  const RATE_CHECK_PERIOD := 4096

  /** A thread's accumulators; the three arrays always have the same length. */
  datatype Counters = Counters(
    selfNanos: seq<int>, totalNanos: seq<int>, invocations: seq<int>,
    sampleCounter: int, rateCount: int, rateWindowStartedAtMs: int,
    unsampledDepth: int, sampledDepth: int)

  datatype EdgeStats = EdgeStats(callCount: int, totalNanos: int)

  /** The shared switches a thread reads together with what it owns. */
  datatype State = State(
    recording: bool, registered: set<int>, samplingInterval: int,
    samplingMode: bool, edgeTracking: bool, edges: map<int, EdgeStats>,
    frames: seq<Frame>, counters: Counters)

  predicate WellFormed(s: State) {
    && 0 < |s.counters.selfNanos|
    && |s.counters.selfNanos| == |s.counters.totalNanos| == |s.counters.invocations|
  }

  predicate IsRegistered(s: State, methodId: int) {
    0 <= methodId && methodId in s.registered
  }

  function WithCapacity(c: Counters, required: int): (r: Counters)
    requires 0 < |c.selfNanos| == |c.totalNanos| == |c.invocations|
    ensures |r.selfNanos| == |r.totalNanos| == |r.invocations| >= required
    ensures |r.selfNanos| >= |c.selfNanos|
  {
    c.(selfNanos := Grown(c.selfNanos, required),
       totalNanos := Grown(c.totalNanos, required),
       invocations := Grown(c.invocations, required))
  }

  function CountInvocation(c: Counters, methodId: nat): (r: Counters)
    requires 0 < |c.selfNanos| == |c.totalNanos| == |c.invocations|
    ensures 0 < |r.selfNanos| == |r.totalNanos| == |r.invocations|
  {
    var g := WithCapacity(c, methodId + 1);
    g.(invocations := g.invocations[methodId := g.invocations[methodId] + 1])
  }

  function AddDurations(c: Counters, methodId: nat, selfNano: int, totalNano: int): (r: Counters)
    requires 0 < |c.selfNanos| == |c.totalNanos| == |c.invocations|
    ensures 0 < |r.selfNanos| == |r.totalNanos| == |r.invocations|
  {
    var g := WithCapacity(c, methodId + 1);
    g.(selfNanos := g.selfNanos[methodId := g.selfNanos[methodId] + selfNano],
       totalNanos := g.totalNanos[methodId := g.totalNanos[methodId] + totalNano])
  }

  function AfterCallRateUpdate(s: State, nowMs: int): State {
    var c := s.counters.(rateCount := s.counters.rateCount + 1);
    if c.rateCount % RATE_CHECK_PERIOD != 0 then s.(counters := c)
    else
      var c := if c.rateWindowStartedAtMs == 0 then c.(rateWindowStartedAtMs := nowMs) else c;
      var elapsed := nowMs - c.rateWindowStartedAtMs;
      if elapsed < RATE_WINDOW_MS then s.(counters := c)
      else
        s.(samplingMode := s.samplingMode || c.rateCount * 1000 / elapsed >= CALL_RATE_THRESHOLD,
           counters := c.(rateCount := 0, rateWindowStartedAtMs := nowMs))
  }

  /** Whether the next enter is timed. */
  predicate TakesTimingSample(s: State) {
    !s.samplingMode || s.counters.sampleCounter + 1 >= s.samplingInterval
  }

  function AfterSamplingDecision(s: State, nowMs: int): State {
    if !s.samplingMode then AfterCallRateUpdate(s, nowMs)
    else s.(counters := s.counters.(sampleCounter := if TakesTimingSample(s) then 0 else s.counters.sampleCounter + 1))
  }

  /** The enter once it is decided whether the call is timed. */
  function AfterDecidedEnter(s: State, timed: bool, methodId: int, nowNano: int): State {
    if !timed then
      s.(counters := s.counters.(unsampledDepth := s.counters.unsampledDepth + 1))
    else
      s.(counters := s.counters.(sampledDepth := s.counters.sampledDepth + 1),
         frames := s.frames + [NewFrame(methodId, nowNano, true, false, true)])
  }

  function AfterMethodEnter(s: State, methodId: int, nowNano: int, nowMs: int): State
    requires WellFormed(s)
  {
    if !s.recording || !IsRegistered(s, methodId) then s
    else
      var counted := s.(counters := CountInvocation(s.counters, methodId));
      AfterDecidedEnter(AfterSamplingDecision(counted, nowMs), TakesTimingSample(counted), methodId, nowNano)
  }

  /** Packs two 32-bit ids into one 64-bit key. */
  function EdgeKey(fromMethodId: int, toMethodId: int): int {
    fromMethodId * 0x1_0000_0000 + toMethodId % 0x1_0000_0000
  }

  function EdgeFrom(key: int): int { key / 0x1_0000_0000 }

  function EdgeTo(key: int): int {
    var low := key % 0x1_0000_0000;
    if low < 0x8000_0000 then low else low - 0x1_0000_0000
  }

  lemma EdgeKeyRoundTrip(fromMethodId: int, toMethodId: int)
    requires -0x8000_0000 <= fromMethodId < 0x8000_0000
    requires -0x8000_0000 <= toMethodId < 0x8000_0000
    ensures -0x8000_0000_0000_0000 <= EdgeKey(fromMethodId, toMethodId) < 0x8000_0000_0000_0000
    ensures EdgeFrom(EdgeKey(fromMethodId, toMethodId)) == fromMethodId
    ensures EdgeTo(EdgeKey(fromMethodId, toMethodId)) == toMethodId
  {
  }

  function WithEdge(edges: map<int, EdgeStats>, key: int, duration: int): map<int, EdgeStats> {
    var before := if key in edges then edges[key] else EdgeStats(0, 0);
    edges[key := EdgeStats(before.callCount + 1, before.totalNanos + duration)]
  }

  function Decremented(depth: int): int { if depth > 0 then depth - 1 else depth }

  /** The frame an exit would be matched against. */
  predicate TopIs(s: State, methodId: int) {
    s.frames != [] && s.frames[|s.frames| - 1].methodId == methodId
  }

  /** An exit that only lowers the unsampled depth, or does nothing. */
  predicate ExitIsUnsampled(s: State, methodId: int) {
    (s.counters.unsampledDepth > 0 && s.counters.sampledDepth == 0) || !TopIs(s, methodId)
  }

  predicate IsTimed(f: Frame) { f.sampled && f.startNano != 0 }

  function Duration(f: Frame, nowNano: int): int { nowNano - f.startNano + f.overrideNano }

  /** Before the clamp to 0. */
  function RawSelf(f: Frame, nowNano: int): int {
    if f.subtractsChildren then Duration(f, nowNano) - f.childNano else Duration(f, nowNano)
  }

  function ClampedSelf(f: Frame, nowNano: int): int {
    if RawSelf(f, nowNano) < 0 then 0 else RawSelf(f, nowNano)
  }

  function WithChildDuration(frames: seq<Frame>, duration: int): seq<Frame>
    requires frames != []
  {
    var top := |frames| - 1;
    frames[top := frames[top].(childNano := frames[top].childNano + duration)]
  }

  function FramesBelow(rest: seq<Frame>, duration: int, transparent: bool): seq<Frame> {
    if rest == [] || transparent then rest else WithChildDuration(rest, duration)
  }

  function EdgesBelow(edges: map<int, EdgeStats>, tracking: bool, rest: seq<Frame>, methodId: int, duration: int):
    map<int, EdgeStats>
  {
    if rest == [] || !tracking then edges
    else WithEdge(edges, EdgeKey(rest[|rest| - 1].methodId, methodId), duration)
  }

  /** The exit that records a duration for the top frame. */
  function AfterTimedExit(s: State, methodId: nat, nowNano: int): State
    requires WellFormed(s) && s.frames != []
  {
    var n := |s.frames| - 1;
    var f, rest := s.frames[n], s.frames[..n];
    var duration := Duration(f, nowNano);
    var c := s.counters.(sampledDepth := Decremented(s.counters.sampledDepth));
    s.(frames := FramesBelow(rest, duration, f.transparentToParent),
       edges := EdgesBelow(s.edges, s.edgeTracking, rest, methodId, duration),
       counters := AddDurations(c, methodId, ClampedSelf(f, nowNano), duration))
  }

  function AfterExit(s: State, methodId: int, nowNano: int): State
    requires WellFormed(s)
  {
    if !s.recording || !IsRegistered(s, methodId) then s
    else if ExitIsUnsampled(s, methodId) then
      s.(counters := s.counters.(unsampledDepth := Decremented(s.counters.unsampledDepth)))
    else
      if !IsTimed(s.frames[|s.frames| - 1]) then
        s.(frames := s.frames[..|s.frames| - 1],
           counters := s.counters.(sampledDepth := Decremented(s.counters.sampledDepth)))
      else AfterTimedExit(s, methodId, nowNano)
  }

  /** A call into a JDBC method: registered on the way, always pushed, never counted in a depth. */
  function AfterJdbcEnter(s: State, methodId: nat, nowNano: int): State
    requires WellFormed(s)
  {
    if !s.recording then s
    else
      s.(registered := s.registered + {methodId},
         counters := CountInvocation(s.counters, methodId),
         frames := s.frames + [NewFrame(methodId, nowNano, false, false, true)])
  }

  function AfterTraceEnter(s: State, methodId: int, allocationBoundary: bool): State {
    if !s.recording || !IsRegistered(s, methodId) then s
    else s.(frames := s.frames + [NewFrame(methodId, 0, false, allocationBoundary, true)])
  }

  function AfterTraceExit(s: State, methodId: int): State {
    if !s.recording || s.frames == [] then s
    else
      var n := |s.frames| - 1;
      var rest := s.frames[..n];
      if s.frames[n].methodId == methodId || TopmostOf(rest, methodId) < 0 then s.(frames := rest)
      else s.(frames := rest[..TopmostOf(rest, methodId)])
  }

  function RateCleared(c: Counters): Counters {
    c.(sampleCounter := 0, rateCount := 0, rateWindowStartedAtMs := 0)
  }

  function CountersCleared(c: Counters): Counters {
    RateCleared(c).(unsampledDepth := 0, sampledDepth := 0)
  }

  function AfterSetSamplingMode(s: State, enabled: bool): State {
    s.(samplingMode := enabled, counters := if enabled then s.counters else RateCleared(s.counters))
  }

  predicate HasArrays(c: Counters) {
    |c.selfNanos| == |c.totalNanos| == |c.invocations|
  }

  /** A flush empties the slots that have a new invocation and a stats object to go to, no others. */
  predicate IsFlushed(c: Counters, live: set<int>, i: nat) {
    i < |c.invocations| && c.invocations[i] != 0 && i in live
  }

  function Flushed(c: Counters, live: set<int>): (r: Counters)
    requires HasArrays(c)
    ensures HasArrays(r) && |r.invocations| == |c.invocations|
  {
    var n := |c.invocations|;
    c.(selfNanos := seq(n, i requires 0 <= i < n => if IsFlushed(c, live, i) then 0 else c.selfNanos[i]),
       totalNanos := seq(n, i requires 0 <= i < n => if IsFlushed(c, live, i) then 0 else c.totalNanos[i]),
       invocations := seq(n, i requires 0 <= i < n => if IsFlushed(c, live, i) then 0 else c.invocations[i]))
  }

  /** What a reset leaves of a thread's counters: the depths are cleared, time that was not flushed is not. */
  function AfterCountersReset(c: Counters, live: set<int>): (r: Counters)
    requires HasArrays(c)
    ensures HasArrays(r) && |r.invocations| == |c.invocations|
  {
    CountersCleared(Flushed(c, live))
  }

  /** What a reset leaves of a thread: the stack stays as it is. */
  function AfterReset(s: State, defaultSamplingMode: bool): (r: State)
    requires WellFormed(s)
    ensures WellFormed(r)
  {
    s.(samplingMode := defaultSamplingMode, edges := map[], counters := AfterCountersReset(s.counters, s.registered))
  }

  /** One event on the thread, or a switch flipped by another thread. */
  datatype Op =
    | EnterMethod(methodId: int, nowNano: int, nowMs: int)
    | Exit(methodId: int, nowNano: int)
    | EnterJdbc(jdbcId: nat, nowNano: int)
    | EnterTrace(methodId: int, boundary: bool)
    | ExitTrace(methodId: int)
    | SetSamplingMode(enabled: bool)
    | OtherThreadSetsMode(enabled: bool)
    | SetEdgeTracking(enabled: bool)

  function Step(s: State, op: Op): (r: State)
    requires WellFormed(s)
    ensures WellFormed(r)
  {
    match op
    case EnterMethod(m, nowNano, nowMs) => AfterMethodEnter(s, m, nowNano, nowMs)
    case Exit(m, nowNano) => AfterExit(s, m, nowNano)
    case EnterJdbc(m, nowNano) => AfterJdbcEnter(s, m, nowNano)
    case EnterTrace(m, boundary) => AfterTraceEnter(s, m, boundary)
    case ExitTrace(m) => AfterTraceExit(s, m)
    case SetSamplingMode(enabled) => AfterSetSamplingMode(s, enabled)
    case OtherThreadSetsMode(enabled) => s.(samplingMode := enabled)
    case SetEdgeTracking(enabled) => s.(edgeTracking := enabled)
  }

  /** The state after a whole run. */
  function Run(s: State, ops: seq<Op>): (r: State)
    requires WellFormed(s)
    ensures WellFormed(r)
  {
    if ops == [] then s else Step(Run(s, ops[..|ops| - 1]), ops[|ops| - 1])
  }

  /** A thread that has just got its stack and counters, while recording is on. */
  predicate Fresh(s: State) {
    && WellFormed(s)
    && s.recording
    && s.frames == []
    && s.counters.unsampledDepth == 0 && s.counters.sampledDepth == 0
    && forall i :: 0 <= i < |s.counters.selfNanos| ==>
      s.counters.selfNanos[i] == 0 && s.counters.totalNanos[i] == 0 && s.counters.invocations[i] == 0
  }
}
