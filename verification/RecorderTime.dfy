/** Where the recorded time goes: conservation over any run, nested or not, sampled or not. */
module RecorderTime {
  import opened Sequences
  import opened MethodStacks
  import opened RecorderModel
  import opened RecorderDepth

  /** The clock reading an event carries. */
  function NanoOf(op: Op, before: int): int {
    match op
    case EnterMethod(_, nowNano, _) => nowNano
    case Exit(_, nowNano) => nowNano
    case EnterJdbc(_, nowNano) => nowNano
    case _ => before
  }

  function LastNano(ops: seq<Op>, start: int): int {
    if ops == [] then start else NanoOf(ops[|ops| - 1], LastNano(ops[..|ops| - 1], start))
  }

  /** A clock that starts positive and never goes back. */
  predicate MonotoneClock(ops: seq<Op>, start: int) {
    if ops == [] then start > 0
    else
      && MonotoneClock(ops[..|ops| - 1], start)
      && LastNano(ops[..|ops| - 1], start) <= LastNano(ops, start)
  }

  function OpenChildNanos(frames: seq<Frame>): int {
    if frames == [] then 0 else OpenChildNanos(frames[..|frames| - 1]) + frames[|frames| - 1].childNano
  }

  /** The frame an exit would record a duration for. */
  predicate RecordsDuration(s: State, op: Op) {
    && op.Exit? && s.recording && IsRegistered(s, op.methodId)
    && !ExitIsUnsampled(s, op.methodId) && IsTimed(s.frames[|s.frames| - 1])
  }

  /** The duration of a bottom frame that this event closes. */
  function BottomAdded(s: State, op: Op): int {
    if RecordsDuration(s, op) && |s.frames| == 1 then Duration(s.frames[0], op.nowNano) else 0
  }

  /**
   * Child time that is not subtracted from anything when its frame leaves the stack: the frame was
   * untimed, or was a JDBC frame, which records its children's time a second time as its own.
   */
  function OverlapAdded(s: State, op: Op): int
    requires WellFormed(s)
  {
    var kept := |Step(s, op).frames|;
    if RecordsDuration(s, op) then
      var f := s.frames[|s.frames| - 1];
      if f.subtractsChildren then 0 else f.childNano
    else if kept < |s.frames| then OpenChildNanos(s.frames[kept..])
    else 0
  }

  /** Durations of the closed bottom frames: exits that empty the stack. */
  function BottomNanos(s: State, ops: seq<Op>): int
    requires WellFormed(s)
  {
    if ops == [] then 0
    else BottomNanos(s, ops[..|ops| - 1]) + BottomAdded(Run(s, ops[..|ops| - 1]), ops[|ops| - 1])
  }

  /** All the child time nothing was subtracted for. */
  function OverlapNanos(s: State, ops: seq<Op>): int
    requires WellFormed(s)
  {
    if ops == [] then 0
    else OverlapNanos(s, ops[..|ops| - 1]) + OverlapAdded(Run(s, ops[..|ops| - 1]), ops[|ops| - 1])
  }

  lemma {:induction false} OpenChildNanosSplit(frames: seq<Frame>, n: nat)
    requires n <= |frames|
    ensures OpenChildNanos(frames) == OpenChildNanos(frames[..n]) + OpenChildNanos(frames[n..])
  {
    if n == |frames| {
      assert frames[..n] == frames;
    } else {
      var most := frames[..|frames| - 1];
      OpenChildNanosSplit(most, n);
      assert most[..n] == frames[..n];
      assert most[n..] == frames[n..][..|frames[n..]| - 1];
    }
  }

  /** Start times go up the stack, and no frame holds more child time than it can have seen. */
  predicate Timely(frames: seq<Frame>, nowNano: int) {
    frames == [] || (
      var f, rest := frames[|frames| - 1], frames[..|frames| - 1];
      && f.methodId >= 0 && f.overrideNano == 0 && !f.transparentToParent && f.childNano >= 0
      && if IsTimed(f) then
        && 0 < f.startNano <= nowNano
        && f.childNano <= nowNano - f.startNano
        && Timely(rest, f.startNano)
      else
        Timely(rest, nowNano))
  }

  lemma {:induction false} TimelyLater(frames: seq<Frame>, earlier: int, later: int)
    requires Timely(frames, earlier) && earlier <= later
    ensures Timely(frames, later)
  {
    if frames != [] && !IsTimed(frames[|frames| - 1]) {
      TimelyLater(frames[..|frames| - 1], earlier, later);
    }
  }

  lemma {:induction false} TimelyPrefix(frames: seq<Frame>, nowNano: int, n: nat)
    requires Timely(frames, nowNano) && n <= |frames|
    ensures Timely(frames[..n], nowNano)
  {
    if n < |frames| {
      var f, rest := frames[|frames| - 1], frames[..|frames| - 1];
      if IsTimed(f) {
        TimelyLater(rest, f.startNano, nowNano);
      }
      TimelyPrefix(rest, nowNano, n);
      assert rest[..n] == frames[..n];
    } else {
      assert frames[..n] == frames;
    }
  }

  /** Giving the parent its child's duration is safe: the child ran inside the parent. */
  lemma ChildDurationFits(rest: seq<Frame>, startNano: int, nowNano: int)
    requires Timely(rest, startNano) && startNano <= nowNano && rest != []
    ensures Timely(WithChildDuration(rest, nowNano - startNano), nowNano)
    ensures OpenChildNanos(WithChildDuration(rest, nowNano - startNano)) == OpenChildNanos(rest) + nowNano - startNano
  {
    var n := |rest| - 1;
    assert WithChildDuration(rest, nowNano - startNano)[..n] == rest[..n];
    if !IsTimed(rest[n]) {
      TimelyLater(rest[..n], startNano, nowNano);
    }
  }

  ghost predicate SelfWithinTotal(c: Counters)
    requires |c.selfNanos| == |c.totalNanos|
  {
    forall i :: 0 <= i < |c.selfNanos| ==> 0 <= c.selfNanos[i] <= c.totalNanos[i]
  }

  ghost predicate TimeInvariant(s: State, nowNano: int, bottom: int, overlap: int) {
    && WellFormed(s)
    && Timely(s.frames, nowNano)
    && SelfWithinTotal(s.counters)
    && Sum(s.counters.selfNanos) == bottom + OpenChildNanos(s.frames) + overlap
  }

  lemma CountInvocationKeepsTimes(c: Counters, methodId: nat)
    requires 0 < |c.selfNanos| == |c.totalNanos| == |c.invocations|
    requires SelfWithinTotal(c)
    ensures SelfWithinTotal(CountInvocation(c, methodId))
    ensures Sum(CountInvocation(c, methodId).selfNanos) == Sum(c.selfNanos)
  {
    GrownKeepsSum(c.selfNanos, methodId + 1);
  }

  lemma AddDurationsAddsTimes(c: Counters, methodId: nat, selfNano: int, totalNano: int)
    requires 0 < |c.selfNanos| == |c.totalNanos| == |c.invocations|
    requires SelfWithinTotal(c) && 0 <= selfNano <= totalNano
    ensures SelfWithinTotal(AddDurations(c, methodId, selfNano, totalNano))
    ensures Sum(AddDurations(c, methodId, selfNano, totalNano).selfNanos) == Sum(c.selfNanos) + selfNano
  {
    hide Sum, GrownLength;
    GrownKeepsSum(c.selfNanos, methodId + 1);
    var g := WithCapacity(c, methodId + 1);
    SumUpdate(g.selfNanos, methodId, g.selfNanos[methodId] + selfNano);
  }

  lemma PushKeepsTime(frames: seq<Frame>, before: int, after: int, f: Frame)
    requires Timely(frames, before) && before <= after && 0 < after
    requires f.methodId >= 0 && f.overrideNano == 0 && !f.transparentToParent && f.childNano == 0
    requires f.startNano == after || f.startNano == 0
    ensures Timely(frames + [f], after)
    ensures OpenChildNanos(frames + [f]) == OpenChildNanos(frames)
  {
    assert (frames + [f])[..|frames|] == frames;
    TimelyLater(frames, before, after);
  }

  lemma DecisionKeepsTimes(s: State, nowMs: int)
    ensures AfterSamplingDecision(s, nowMs).frames == s.frames
    ensures AfterSamplingDecision(s, nowMs).counters.selfNanos == s.counters.selfNanos
    ensures AfterSamplingDecision(s, nowMs).counters.totalNanos == s.counters.totalNanos
    ensures AfterSamplingDecision(s, nowMs).counters.invocations == s.counters.invocations
  {
  }

  lemma MethodEnterKeepsTime(s: State, op: Op, before: int, bottom: int, overlap: int)
    requires TimeInvariant(s, before, bottom, overlap)
    requires op.EnterMethod? && before <= op.nowNano && 0 < before
    ensures TimeInvariant(Step(s, op), op.nowNano, bottom, overlap)
  {
    hide Timely, OpenChildNanos, CountInvocation, AfterSamplingDecision, Sum;
    TimelyLater(s.frames, before, op.nowNano);
    if s.recording && IsRegistered(s, op.methodId) {
      CountInvocationKeepsTimes(s.counters, op.methodId);
      DecisionKeepsTimes(s.(counters := CountInvocation(s.counters, op.methodId)), op.nowMs);
      PushKeepsTime(s.frames, before, op.nowNano, NewFrame(op.methodId, op.nowNano, true, false, true));
    }
  }

  lemma JdbcEnterKeepsTime(s: State, op: Op, before: int, bottom: int, overlap: int)
    requires TimeInvariant(s, before, bottom, overlap)
    requires op.EnterJdbc? && before <= op.nowNano && 0 < before
    ensures TimeInvariant(Step(s, op), op.nowNano, bottom, overlap)
  {
    hide Timely, OpenChildNanos, CountInvocation, Sum;
    TimelyLater(s.frames, before, op.nowNano);
    CountInvocationKeepsTimes(s.counters, op.jdbcId);
    PushKeepsTime(s.frames, before, op.nowNano, NewFrame(op.jdbcId, op.nowNano, false, false, true));
  }

  lemma TraceEnterKeepsTime(s: State, op: Op, before: int, bottom: int, overlap: int)
    requires TimeInvariant(s, before, bottom, overlap)
    requires op.EnterTrace? && 0 < before
    ensures TimeInvariant(Step(s, op), before, bottom, overlap)
  {
    if s.recording && IsRegistered(s, op.methodId) {
      PushKeepsTime(s.frames, before, before, NewFrame(op.methodId, 0, false, op.boundary, true));
    }
  }

  function EnteredFrame(op: Op): Frame
    requires op.EnterMethod? || op.EnterJdbc? || op.EnterTrace?
  {
    match op
    case EnterMethod(m, nowNano, _) => NewFrame(m, nowNano, true, false, true)
    case EnterJdbc(m, nowNano) => NewFrame(m, nowNano, false, false, true)
    case EnterTrace(m, boundary) => NewFrame(m, 0, false, boundary, true)
  }

  lemma EntersPushOrKeep(s: State, op: Op)
    requires WellFormed(s) && (op.EnterMethod? || op.EnterJdbc? || op.EnterTrace?)
    ensures Step(s, op).frames == s.frames || Step(s, op).frames == s.frames + [EnteredFrame(op)]
  {
    if op.EnterMethod? && IsRegistered(s, op.methodId) {
      DecisionKeepsTimes(s.(counters := CountInvocation(s.counters, op.methodId)), op.nowMs);
    }
  }

  lemma RecordingExitEffect(s: State, op: Op)
    requires WellFormed(s) && RecordsDuration(s, op)
    requires !s.frames[|s.frames| - 1].transparentToParent
    ensures
      var n := |s.frames| - 1;
      var f, rest, r := s.frames[n], s.frames[..n], Step(s, op);
      && r.frames == (if rest == [] then [] else WithChildDuration(rest, Duration(f, op.nowNano)))
      && r.counters == AddDurations(s.counters.(sampledDepth := Decremented(s.counters.sampledDepth)),
                                    op.methodId, ClampedSelf(f, op.nowNano), Duration(f, op.nowNano))
  {
  }

  /** A frame that leaves the top of a timely stack: its own time is not negative, its parent can take its duration. */
  lemma TopFrameFits(frames: seq<Frame>, before: int, nowNano: int)
    requires frames != [] && Timely(frames, before) && before <= nowNano
    requires IsTimed(frames[|frames| - 1])
    ensures
      var f, rest := frames[|frames| - 1], frames[..|frames| - 1];
      var duration := Duration(f, nowNano);
      && 0 <= RawSelf(f, nowNano) == ClampedSelf(f, nowNano) <= duration
      && (rest != [] ==>
        && Timely(WithChildDuration(rest, duration), nowNano)
        && OpenChildNanos(WithChildDuration(rest, duration)) == OpenChildNanos(rest) + duration)
      && OpenChildNanos(frames) == OpenChildNanos(rest) + f.childNano
  {
    var f, rest := frames[|frames| - 1], frames[..|frames| - 1];
    if rest != [] {
      ChildDurationFits(rest, f.startNano, nowNano);
    }
  }

  /** The exit that records: what it adds to the books. */
  lemma RecordingExitKeepsTime(s: State, r: State, op: Op, before: int, bottom: int, overlap: int)
    requires TimeInvariant(s, before, bottom, overlap)
    requires RecordsDuration(s, op) && before <= op.nowNano && r == Step(s, op)
    ensures
      TimeInvariant(r, op.nowNano,
                    bottom + BottomAdded(s, op), overlap + OverlapAdded(s, op))
  {
    var f := s.frames[|s.frames| - 1];
    TopFrameFits(s.frames, before, op.nowNano);
    RecordingExitEffect(s, op);
    AddDurationsAddsTimes(s.counters.(sampledDepth := Decremented(s.counters.sampledDepth)),
                          op.methodId, ClampedSelf(f, op.nowNano), Duration(f, op.nowNano));
  }

  /** Every other event only drops frames, if it does anything to the stack at all. */
  lemma OtherStepKeepsTime(s: State, op: Op, before: int, bottom: int, overlap: int)
    requires TimeInvariant(s, before, bottom, overlap)
    requires !op.EnterMethod? && !op.EnterJdbc? && !op.EnterTrace? && !RecordsDuration(s, op)
    requires before <= NanoOf(op, before)
    ensures TimeInvariant(Step(s, op), NanoOf(op, before), bottom + BottomAdded(s, op), overlap + OverlapAdded(s, op))
  {
    hide Timely, OpenChildNanos, Sum;
    var now, r := NanoOf(op, before), Step(s, op);
    TimelyLater(s.frames, before, now);
    assert |r.frames| <= |s.frames| && r.frames == s.frames[..|r.frames|];
    TimelyPrefix(s.frames, now, |r.frames|);
    OpenChildNanosSplit(s.frames, |r.frames|);
    if |r.frames| == |s.frames| {
      assert s.frames[..|r.frames|] == s.frames;
    }
  }

  lemma EntersOverlapNothing(s: State, op: Op)
    requires WellFormed(s) && (op.EnterMethod? || op.EnterJdbc? || op.EnterTrace?)
    ensures OverlapAdded(s, op) == 0 && BottomAdded(s, op) == 0
  {
    hide Step, OpenChildNanos;
    EntersPushOrKeep(s, op);
  }

  /** What leaves the stack with a frame is never negative. */
  lemma OverlapIsNotNegative(s: State, op: Op, nowNano: int)
    requires WellFormed(s) && Timely(s.frames, nowNano)
    ensures OverlapAdded(s, op) >= 0
  {
    hide Step, IsTimed;
    var kept := |Step(s, op).frames|;
    ChildTimesAreNotNegative(s.frames, nowNano);
    if kept < |s.frames| {
      OpenChildIsNotNegative(s.frames[kept..]);
    }
  }

  lemma {:induction false} ChildTimesAreNotNegative(frames: seq<Frame>, nowNano: int)
    requires Timely(frames, nowNano)
    ensures forall k :: 0 <= k < |frames| ==> frames[k].childNano >= 0
  {
    if frames != [] {
      var f, rest := frames[|frames| - 1], frames[..|frames| - 1];
      ChildTimesAreNotNegative(rest, if IsTimed(f) then f.startNano else nowNano);
      assert forall k :: 0 <= k < |rest| ==> frames[k] == rest[k];
    }
  }

  lemma {:induction false} OpenChildIsNotNegative(frames: seq<Frame>)
    requires forall k :: 0 <= k < |frames| ==> frames[k].childNano >= 0
    ensures OpenChildNanos(frames) >= 0
  {
    if frames != [] {
      OpenChildIsNotNegative(frames[..|frames| - 1]);
    }
  }

  lemma StepKeepsTime(s: State, op: Op, before: int, bottom: int, overlap: int)
    requires TimeInvariant(s, before, bottom, overlap)
    requires 0 < before <= NanoOf(op, before)
    ensures TimeInvariant(Step(s, op), NanoOf(op, before), bottom + BottomAdded(s, op), overlap + OverlapAdded(s, op))
  {
    if op.EnterMethod? {
      MethodEnterKeepsTime(s, op, before, bottom, overlap);
      EntersOverlapNothing(s, op);
    } else if op.EnterJdbc? {
      JdbcEnterKeepsTime(s, op, before, bottom, overlap);
      EntersOverlapNothing(s, op);
    } else if op.EnterTrace? {
      TraceEnterKeepsTime(s, op, before, bottom, overlap);
      EntersOverlapNothing(s, op);
    } else if RecordsDuration(s, op) {
      RecordingExitKeepsTime(s, Step(s, op), op, before, bottom, overlap);
    } else {
      OtherStepKeepsTime(s, op, before, bottom, overlap);
    }
  }

  lemma {:induction false} RunKeepsTime(s: State, ops: seq<Op>, start: int)
    requires Fresh(s) && MonotoneClock(ops, start)
    ensures TimeInvariant(Run(s, ops), LastNano(ops, start), BottomNanos(s, ops), OverlapNanos(s, ops))
    ensures LastNano(ops, start) > 0
  {
    if ops == [] {
      SumZeros(s.counters.selfNanos);
    } else {
      var prefix, op := ops[..|ops| - 1], ops[|ops| - 1];
      RunKeepsTime(s, prefix, start);
      StepKeepsTime(Run(s, prefix), op, LastNano(prefix, start), BottomNanos(s, prefix), OverlapNanos(s, prefix));
    }
  }

  /** The child time nothing was subtracted for only ever grows. */
  lemma {:induction false} OverlapOnlyGrows(s: State, ops: seq<Op>, start: int)
    requires Fresh(s) && MonotoneClock(ops, start)
    ensures OverlapNanos(s, ops) >= 0
    ensures ops != [] ==> OverlapNanos(s, ops) >= OverlapNanos(s, ops[..|ops| - 1])
  {
    if ops != [] {
      var prefix := ops[..|ops| - 1];
      OverlapOnlyGrows(s, prefix, start);
      RunKeepsTime(s, prefix, start);
      OverlapIsNotNegative(Run(s, prefix), ops[|ops| - 1], LastNano(prefix, start));
    }
  }

  /**
   * Conservation: in any run at all, the recorded self times add up to the durations of the closed
   * bottom frames, the child time held by open frames, and the child time nothing was subtracted for.
   */
  lemma TimeIsConserved(s: State, ops: seq<Op>, start: int)
    requires Fresh(s) && MonotoneClock(ops, start)
    ensures
      var r := Run(s, ops);
      Sum(r.counters.selfNanos) == BottomNanos(s, ops) + OpenChildNanos(r.frames) + OverlapNanos(s, ops)
    ensures OverlapNanos(s, ops) >= 0
  {
    RunKeepsTime(s, ops, start);
    OverlapOnlyGrows(s, ops, start);
  }

  lemma SelfNeverExceedsTotal(s: State, ops: seq<Op>, start: int)
    requires Fresh(s) && MonotoneClock(ops, start)
    ensures SelfWithinTotal(Run(s, ops).counters)
  {
    RunKeepsTime(s, ops, start);
  }

  lemma ClampNeverFires(s: State, ops: seq<Op>, start: int, exit: Op)
    requires Fresh(s) && MonotoneClock(ops + [exit], start)
    requires RecordsDuration(Run(s, ops), exit)
    ensures
      var r := Run(s, ops);
      var f := r.frames[|r.frames| - 1];
      0 <= RawSelf(f, exit.nowNano) == ClampedSelf(f, exit.nowNano)
  {
    assert (ops + [exit])[..|ops|] == ops;
    RunKeepsTime(s, ops, start);
    TopFrameFits(Run(s, ops).frames, LastNano(ops, start), exit.nowNano);
  }

  ghost predicate AllTimedMethodFrames(frames: seq<Frame>) {
    forall k :: 0 <= k < |frames| ==> frames[k].subtractsChildren && IsTimed(frames[k])
  }

  lemma MethodEnterStep(s: State, op: Op)
    requires WellFormed(s) && AllTimedMethodFrames(s.frames)
    requires op.EnterMethod? && op.nowNano > 0
    ensures
      var r := Step(s, op);
      && AllTimedMethodFrames(r.frames)
      && (r.frames == s.frames || Pushed(s.frames, r.frames, op.methodId, op.nowNano))
  {
    var f := NewFrame(op.methodId, op.nowNano, true, false, true);
    assert f.subtractsChildren && IsTimed(f);
    assert Step(s, op).frames == s.frames || Step(s, op).frames == s.frames + [f];
  }

  lemma MethodExitStep(s: State, op: Op)
    requires WellFormed(s) && AllTimedMethodFrames(s.frames) && op.Exit?
    ensures
      var r := Step(s, op);
      && AllTimedMethodFrames(r.frames)
      && if RecordsDuration(s, op) then
        |r.frames| == |s.frames| - 1 && (|r.frames| > 0 ==> r.frames[0].startNano == s.frames[0].startNano)
      else
        r.frames == s.frames
  {
  }

  function BottomStart(frames: seq<Frame>, nowNano: int): int {
    if frames == [] then nowNano else frames[0].startNano
  }

  lemma {:induction false} OpenChildTimeIsWithinTheStack(frames: seq<Frame>, nowNano: int)
    requires Timely(frames, nowNano) && AllTimedMethodFrames(frames)
    ensures OpenChildNanos(frames) <= nowNano - BottomStart(frames, nowNano)
  {
    if frames != [] {
      OpenChildTimeIsWithinTheStack(frames[..|frames| - 1], frames[|frames| - 1].startNano);
    }
  }

  lemma MethodRunStep(s: State, op: Op, before: int, bottom: int, start: int)
    requires WellFormed(s) && AllTimedMethodFrames(s.frames) && Timely(s.frames, before)
    requires !op.EnterJdbc? && !op.EnterTrace? && !op.ExitTrace?
    requires 0 < before <= NanoOf(op, before) && bottom <= BottomStart(s.frames, before) - start
    ensures AllTimedMethodFrames(Step(s, op).frames)
    ensures OverlapAdded(s, op) == 0
    ensures bottom + BottomAdded(s, op) <= BottomStart(Step(s, op).frames, NanoOf(op, before)) - start
  {
    if op.EnterMethod? {
      MethodEnterStep(s, op);
      EntersOverlapNothing(s, op);
    } else if op.Exit? {
      MethodExitStep(s, op);
    } else {
      assert Step(s, op).frames == s.frames;
    }
  }

  lemma {:induction false} MethodRun(s: State, ops: seq<Op>, start: int)
    requires Fresh(s) && MonotoneClock(ops, start) && MethodProbesOnly(ops)
    ensures AllTimedMethodFrames(Run(s, ops).frames)
    ensures OverlapNanos(s, ops) == 0
    ensures BottomNanos(s, ops) <= BottomStart(Run(s, ops).frames, LastNano(ops, start)) - start
  {
    if ops != [] {
      var prefix, op := ops[..|ops| - 1], ops[|ops| - 1];
      assert op == ops[|ops| - 1];
      MethodRun(s, prefix, start);
      RunKeepsTime(s, prefix, start);
      MethodRunStep(Run(s, prefix), op, LastNano(prefix, start), BottomNanos(s, prefix), start);
    }
  }

  /** With method probes alone nothing overlaps: the bottom durations and the open child time are all of it. */
  lemma MethodTimeIsConserved(s: State, ops: seq<Op>, start: int)
    requires Fresh(s) && MonotoneClock(ops, start) && MethodProbesOnly(ops)
    ensures
      var r := Run(s, ops);
      Sum(r.counters.selfNanos) == BottomNanos(s, ops) + OpenChildNanos(r.frames)
  {
    MethodRun(s, ops, start);
    TimeIsConserved(s, ops, start);
  }

  /** So a thread never reports more self time than its clock has advanced. */
  lemma SelfTimeFitsTheClock(s: State, ops: seq<Op>, start: int)
    requires Fresh(s) && MonotoneClock(ops, start) && MethodProbesOnly(ops)
    ensures 0 <= Sum(Run(s, ops).counters.selfNanos) <= LastNano(ops, start) - start
  {
    MethodRun(s, ops, start);
    RunKeepsTime(s, ops, start);
    OpenChildTimeIsWithinTheStack(Run(s, ops).frames, LastNano(ops, start));
    SumNonNegative(Run(s, ops).counters.selfNanos);
  }

  /** A counter slot; slots past the array have never been touched. */
  function Slot(s: seq<int>, i: nat): int { if i < |s| then s[i] else 0 }

  function EnterCount(ops: seq<Op>, methodId: nat): nat {
    if ops == [] then 0
    else
      EnterCount(ops[..|ops| - 1], methodId)
      + (match ops[|ops| - 1]
         case EnterMethod(m, _, _) => if m == methodId then 1 else 0
         case EnterJdbc(m, _) => if m == methodId then 1 else 0
         case _ => 0)
  }

  lemma StepCountsInvocations(s: State, op: Op, methodId: nat)
    requires WellFormed(s) && s.recording
    requires op.EnterMethod? ==> IsRegistered(s, op.methodId)
    ensures
      Slot(Step(s, op).counters.invocations, methodId)
      == Slot(s.counters.invocations, methodId)
         + (if op.EnterMethod? && op.methodId == methodId then 1
            else if op.EnterJdbc? && op.jdbcId == methodId then 1 else 0)
  {
    hide AfterSamplingDecision, GrownLength;
    if op.EnterMethod? {
      DecisionKeepsTimes(s.(counters := CountInvocation(s.counters, op.methodId)), op.nowMs);
    }
  }

  lemma StepKeepsRecording(s: State, op: Op)
    requires WellFormed(s)
    ensures Step(s, op).recording == s.recording && s.registered <= Step(s, op).registered
  {
    match op
    case EnterMethod(m, nowNano, nowMs) =>
    case Exit(m, nowNano) =>
    case EnterJdbc(m, nowNano) =>
    case EnterTrace(m, boundary) =>
    case ExitTrace(m) =>
    case SetSamplingMode(enabled) =>
    case OtherThreadSetsMode(enabled) =>
    case SetEdgeTracking(enabled) =>
  }

  /** Sampling drops timings, never invocations: each method's count is its number of enters. */
  lemma {:induction false} InvocationsAreExact(s: State, ops: seq<Op>, methodId: nat)
    requires Fresh(s)
    requires forall i :: 0 <= i < |ops| && ops[i].EnterMethod? ==> IsRegistered(s, ops[i].methodId)
    ensures Run(s, ops).recording && s.registered <= Run(s, ops).registered
    ensures Slot(Run(s, ops).counters.invocations, methodId) == EnterCount(ops, methodId)
  {
    if ops != [] {
      var prefix, op := ops[..|ops| - 1], ops[|ops| - 1];
      InvocationsAreExact(s, prefix, methodId);
      StepKeepsRecording(Run(s, prefix), op);
      StepCountsInvocations(Run(s, prefix), op, methodId);
    }
  }

  /** From the run alone: the inclusive times of the closed calls of one method. */
  function InclusiveNanos(ops: seq<Op>, methodId: nat): int {
    if ops == [] then 0
    else
      var open, op := OpenCalls(ops[..|ops| - 1]), ops[|ops| - 1];
      InclusiveNanos(ops[..|ops| - 1], methodId)
      + (if op.Exit? && op.methodId == methodId && open != [] then op.nowNano - open[|open| - 1].enteredAt else 0)
  }

  /** From the run alone: the inclusive times of the closed outermost calls. */
  function OutermostNanos(ops: seq<Op>): int {
    if ops == [] then 0
    else
      var open, op := OpenCalls(ops[..|ops| - 1]), ops[|ops| - 1];
      OutermostNanos(ops[..|ops| - 1])
      + (if op.Exit? && |open| == 1 then op.nowNano - open[0].enteredAt else 0)
  }

  ghost predicate TimedWhereProbed(frames: seq<Frame>, open: seq<Call>) {
    && |frames| == |open|
    && forall k :: 0 <= k < |frames| ==>
      frames[k].overrideNano == 0 && frames[k].sampled && (!open[k].kind.Traced? ==> open[k].enteredAt > 0)
  }

  lemma StepKeepsTimedFrames(s: State, registered: set<int>, traced: set<int>, open: seq<Call>, op: Op)
    requires WellFormed(s) && MirrorInvariant(s, registered, open)
    requires Admissible(registered, traced, open, op)
    requires op.EnterMethod? ==> TakesTimingSample(s)
    requires TimedWhereProbed(s.frames, open) && NanoOf(op, 1) > 0
    ensures TimedWhereProbed(Step(s, op).frames, OpenAfter(open, op))
    ensures op.Exit? ==>
      RecordsDuration(s, op)
      && Duration(s.frames[|s.frames| - 1], op.nowNano) == op.nowNano - open[|open| - 1].enteredAt
  {
    hide AddDurations, CountInvocation, EdgesBelow;
    StepKeepsMirror(s, registered, traced, open, op);
  }

  lemma StepAddsInclusiveTime(s: State, op: Op, methodId: nat)
    requires WellFormed(s) && s.recording
    requires op.Exit? ==> RecordsDuration(s, op)
    ensures
      Slot(Step(s, op).counters.totalNanos, methodId)
      == Slot(s.counters.totalNanos, methodId)
         + (if op.Exit? && op.methodId == methodId then Duration(s.frames[|s.frames| - 1], op.nowNano) else 0)
  {
    if op.EnterMethod? && IsRegistered(s, op.methodId) {
      DecisionKeepsTimes(s.(counters := CountInvocation(s.counters, op.methodId)), op.nowMs);
    }
  }

  /** When every call is timed, a method's total is the sum of the inclusive times of its closed calls. */
  lemma {:induction false} TotalsAreExactWhenTimed(s: State, traced: set<int>, ops: seq<Op>, start: int, methodId: nat)
    requires Fresh(s) && Nested(s.registered, traced, ops) && AlwaysTimed(s, ops) && MonotoneClock(ops, start)
    ensures TimedWhereProbed(Run(s, ops).frames, OpenCalls(ops)) && LastNano(ops, start) > 0
    ensures Slot(Run(s, ops).counters.totalNanos, methodId) == InclusiveNanos(ops, methodId)
    ensures BottomNanos(s, ops) == OutermostNanos(ops)
  {
    if ops != [] {
      var prefix, op := ops[..|ops| - 1], ops[|ops| - 1];
      TotalsAreExactWhenTimed(s, traced, prefix, start, methodId);
      TimedRunMirrorsCalls(s, traced, prefix);
      var before, open := Run(s, prefix), OpenCalls(prefix);
      StepKeepsTimedFrames(before, s.registered, traced, open, op);
      StepAddsInclusiveTime(before, op, methodId);
    }
  }

  /** And over a closed run of timed method calls, all the self time is the time of the outermost calls. */
  lemma ClosedRunSelfTime(s: State, ops: seq<Op>, start: int)
    requires Fresh(s) && Nested(s.registered, {}, ops) && AlwaysTimed(s, ops)
    requires MonotoneClock(ops, start) && MethodProbesOnly(ops) && OpenCalls(ops) == []
    ensures Sum(Run(s, ops).counters.selfNanos) == OutermostNanos(ops)
  {
    TotalsAreExactWhenTimed(s, {}, ops, start, 0);
    MethodTimeIsConserved(s, ops, start);
    ClosedRunLeavesNothing(s, {}, ops);
  }

  // ---- totals under sampling

  /** How long the open calls of a method have been running. */
  function OpenElapsed(open: seq<Call>, methodId: nat, nowNano: int): int {
    if open == [] then 0
    else
      var last := open[|open| - 1];
      OpenElapsed(open[..|open| - 1], methodId, nowNano) + (if last.methodId == methodId then nowNano - last.enteredAt else 0)
  }

  /** How long the retained frames of a method have been there. */
  function RetainedElapsed(frames: seq<Frame>, methodId: nat, nowNano: int): int {
    if frames == [] then 0
    else
      var top := frames[|frames| - 1];
      RetainedElapsed(frames[..|frames| - 1], methodId, nowNano) + (if top.methodId == methodId then nowNano - top.startNano else 0)
  }

  /** As the clock goes on, open calls gain at least what their retained frames gain. */
  lemma {:induction false} CallsAgeWithTheirFrames(
    frames: seq<Frame>, open: seq<Call>, origin: seq<nat>, methodId: nat, before: int, after: int)
    requires EmbeddedIn(frames, open, origin) && before <= after
    ensures RetainedElapsed(frames, methodId, after) - RetainedElapsed(frames, methodId, before)
      <= OpenElapsed(open, methodId, after) - OpenElapsed(open, methodId, before)
    decreases |open|
  {
    if open != [] {
      var n, k := |open| - 1, |frames| - 1;
      if frames != [] && origin[k] == n {
        CallsAgeWithTheirFrames(frames[..k], open[..n], origin[..k], methodId, before, after);
      } else {
        if frames != [] {
          assert open[..n][..origin[k]] == open[..origin[k]];
        }
        CallsAgeWithTheirFrames(frames, open[..n], origin, methodId, before, after);
      }
    }
  }

  lemma {:induction false} RetainedElapsedIsNotNegative(frames: seq<Frame>, methodId: nat, nowNano: int)
    requires Timely(frames, nowNano) && AllTimedMethodFrames(frames)
    ensures RetainedElapsed(frames, methodId, nowNano) >= 0
  {
    if frames != [] {
      var top, rest := frames[|frames| - 1], frames[..|frames| - 1];
      TimelyLater(rest, top.startNano, nowNano);
      RetainedElapsedIsNotNegative(rest, methodId, nowNano);
    }
  }

  lemma {:induction false} ChildTimeDoesNotAge(a: seq<Frame>, b: seq<Frame>, methodId: nat, nowNano: int)
    requires SameExceptChildTime(a, b)
    ensures RetainedElapsed(a, methodId, nowNano) == RetainedElapsed(b, methodId, nowNano)
  {
    if a != [] {
      ChildTimeDoesNotAge(a[..|a| - 1], b[..|b| - 1], methodId, nowNano);
    }
  }

  lemma UnrecordedExitKeepsTotals(s: State, op: Op)
    requires WellFormed(s) && op.Exit? && !RecordsDuration(s, op)
    ensures Step(s, op).counters.totalNanos == s.counters.totalNanos
  {
  }

  /** What has been recorded for a method, or would be if everything retained ended now. */
  function RecordedOrRetained(s: State, methodId: nat, nowNano: int): int
    requires WellFormed(s)
  {
    Slot(s.counters.totalNanos, methodId) + RetainedElapsed(s.frames, methodId, nowNano)
  }

  /** The inclusive time of a method's ended calls, and of its open calls so far. */
  function InclusiveSoFar(ops: seq<Op>, methodId: nat, nowNano: int): int {
    InclusiveNanos(ops, methodId) + OpenElapsed(OpenCalls(ops), methodId, nowNano)
  }

  lemma EnterAgesNothing(s: State, open: seq<Call>, op: Op, methodId: nat)
    requires WellFormed(s) && s.recording && op.EnterMethod?
    ensures RecordedOrRetained(Step(s, op), methodId, op.nowNano) == RecordedOrRetained(s, methodId, op.nowNano)
    ensures OpenElapsed(OpenAfter(open, op), methodId, op.nowNano) == OpenElapsed(open, methodId, op.nowNano)
  {
    hide Step;
    EntersPushOrKeep(s, op);
    StepAddsInclusiveTime(s, op, methodId);
    assert (s.frames + [EnteredFrame(op)])[..|s.frames|] == s.frames;
    assert OpenAfter(open, op)[..|open|] == open;
  }

  lemma ExitMovesElapsed(s: State, op: Op, methodId: nat)
    requires WellFormed(s) && s.recording && op.Exit? && IsRegistered(s, op.methodId)
    requires AllTimedMethodFrames(s.frames) && forall k :: 0 <= k < |s.frames| ==> s.frames[k].overrideNano == 0
    ensures RecordedOrRetained(Step(s, op), methodId, op.nowNano) == RecordedOrRetained(s, methodId, op.nowNano)
  {
    hide Step;
    StepEffect(s, op);
    if RecordsDuration(s, op) {
      StepAddsInclusiveTime(s, op, methodId);
      ChildTimeDoesNotAge(Step(s, op).frames, s.frames[..|s.frames| - 1], methodId, op.nowNano);
    } else {
      UnrecordedExitKeepsTotals(s, op);
    }
  }

  lemma {:induction false} TimelyHasNoOverride(frames: seq<Frame>, nowNano: int)
    requires Timely(frames, nowNano)
    ensures forall k :: 0 <= k < |frames| ==> frames[k].overrideNano == 0
  {
    if frames != [] {
      var f, rest := frames[|frames| - 1], frames[..|frames| - 1];
      TimelyHasNoOverride(rest, if IsTimed(f) then f.startNano else nowNano);
      assert forall k :: 0 <= k < |rest| ==> frames[k] == rest[k];
    }
  }

  lemma {:induction false} RecordedIsWithinInclusive(s: State, ops: seq<Op>, start: int, methodId: nat)
    requires Fresh(s) && Nested(s.registered, {}, ops) && MonotoneClock(ops, start) && MethodProbesOnly(ops)
    ensures RecordedOrRetained(Run(s, ops), methodId, LastNano(ops, start))
      <= InclusiveSoFar(ops, methodId, LastNano(ops, start))
  {
    hide Step, Timely, AllTimedMethodFrames, DepthInvariant;
    if ops == [] {
      NothingRecordedYet(s, methodId, start);
    } else {
      var prefix, op := ops[..|ops| - 1], ops[|ops| - 1];
      var before, open, now := Run(s, prefix), OpenCalls(prefix), LastNano(ops, start);
      assert op == ops[|ops| - 1];
      RecordedIsWithinInclusive(s, prefix, start, methodId);
      FramesAtRest(s, prefix, start);
      CallsAgeWithTheirFrames(before.frames, open, Origins(s, prefix), methodId, LastNano(prefix, start), now);
      if op.EnterMethod? {
        EnterAgesNothing(before, open, op, methodId);
      } else if op.Exit? {
        ExitMovesElapsed(before, op, methodId);
      } else {
        ModesKeepTimes(before, op);
      }
    }
  }

  lemma NothingRecordedYet(s: State, methodId: nat, nowNano: int)
    requires Fresh(s)
    ensures RecordedOrRetained(s, methodId, nowNano) == 0
  {
  }

  lemma ModesKeepTimes(s: State, op: Op)
    requires WellFormed(s) && (op.SetSamplingMode? || op.OtherThreadSetsMode? || op.SetEdgeTracking?)
    ensures Step(s, op).frames == s.frames && Step(s, op).counters.totalNanos == s.counters.totalNanos
  {
  }

  /** What the other laws say of a method-probe run between two events. */
  lemma FramesAtRest(s: State, ops: seq<Op>, start: int)
    requires Fresh(s) && Nested(s.registered, {}, ops) && MonotoneClock(ops, start) && MethodProbesOnly(ops)
    ensures
      var r := Run(s, ops);
      && r.recording && r.registered == s.registered
      && EmbeddedIn(r.frames, OpenCalls(ops), Origins(s, ops)) && AllTimedMethodFrames(r.frames)
      && Timely(r.frames, LastNano(ops, start))
      && (forall k :: 0 <= k < |r.frames| ==> r.frames[k].overrideNano == 0)
      && AllKnown(OpenCalls(ops), s.registered, {})
  {
    hide Run, OpenCalls, Origins, Timely, EmbeddedIn, AllTimedMethodFrames;
    RunKeepsDepths(s, {}, ops);
    NestedRunsOpenKnownCalls(s.registered, {}, ops);
    MethodRun(s, ops, start);
    RunKeepsTime(s, ops, start);
    TimelyHasNoOverride(Run(s, ops).frames, LastNano(ops, start));
  }

  /**
   * Whatever is sampled, a method is never given more time than its calls took: over a closed run its total is at
   * most the inclusive time of its calls, recursive ones counted each.
   */
  lemma SampledTotalsAreLowerBounds(s: State, ops: seq<Op>, start: int, methodId: nat)
    requires Fresh(s) && Nested(s.registered, {}, ops) && MonotoneClock(ops, start) && MethodProbesOnly(ops)
    ensures Slot(Run(s, ops).counters.totalNanos, methodId) <= InclusiveSoFar(ops, methodId, LastNano(ops, start))
    ensures OpenCalls(ops) == [] ==> Slot(Run(s, ops).counters.totalNanos, methodId) <= InclusiveNanos(ops, methodId)
  {
    hide Run, Timely, AllTimedMethodFrames;
    RecordedIsWithinInclusive(s, ops, start, methodId);
    FramesAtRest(s, ops, start);
    RetainedElapsedIsNotNegative(Run(s, ops).frames, methodId, LastNano(ops, start));
  }
}
