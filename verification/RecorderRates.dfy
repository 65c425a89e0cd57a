/** When a thread that is left to itself starts sampling, told from the times of its calls. */
module RecorderRates {
  import opened Sequences
  import opened MethodStacks
  import opened RecorderModel
  import opened RecorderTime
  import opened RecorderSampling

  /** The clock readings of the enters of a run. */
  function Times(ops: seq<Op>): seq<int> {
    if ops == [] then []
    else
      var last := ops[|ops| - 1];
      Times(ops[..|ops| - 1]) + (if last.EnterMethod? then [last.nowMs] else [])
  }

  // ---- windows, by the numbers of the calls

  /**
   * When the window that began after call q was started: at that call, or, for the first window, at the first call that
   * looks at the clock.
   */
  function WindowStart(times: seq<int>, q: nat): int
    requires q <= |times| && (q == 0 ==> |times| >= 4096)
  {
    if q == 0 then times[4095] else times[q - 1]
  }

  /** Call n, the last so far, ends the window that began after call q: a 4096th call, half a second or more later. */
  predicate Ends(times: seq<int>, q: nat, n: nat)
    requires q <= |times| && n <= |times|
  {
    q < n && (n - q) % 4096 == 0 && times[n - 1] - WindowStart(times, q) >= 500
  }

  /** After which call the window began that is open after call n. */
  function WindowBegin(times: seq<int>, n: nat): (q: nat)
    requires n <= |times|
    ensures q <= n
  {
    if n == 0 then 0
    else
      var q := WindowBegin(times, n - 1);
      if Ends(times, q, n) then n else q
  }

  /** Call n ends a window of 10000 calls a second or more, in whole calls. */
  predicate EndsFast(times: seq<int>, n: nat)
    requires 0 < n <= |times|
  {
    var q := WindowBegin(times, n - 1);
    Ends(times, q, n) && (n - q) * 1000 / (times[n - 1] - WindowStart(times, q)) >= 10000
  }

  /** Some call of a run ends a fast window. */
  predicate SomeFast(times: seq<int>) {
    exists n :: 0 < n <= |times| && EndsFast(times, n)
  }

  // ---- one more call

  lemma {:induction false} EarlierWindows(times: seq<int>, t: int, n: nat)
    requires n <= |times|
    ensures WindowBegin(times + [t], n) == WindowBegin(times, n)
    ensures n > 0 ==> (EndsFast(times + [t], n) <==> EndsFast(times, n))
  {
    if n > 0 {
      EarlierWindows(times, t, n - 1);
      var q := WindowBegin(times, n - 1);
      assert (times + [t])[n - 1] == times[n - 1];
      if q == 0 && n % 4096 == 0 {
        assert (times + [t])[4095] == times[4095];
      } else if q > 0 {
        assert (times + [t])[q - 1] == times[q - 1];
      }
    }
  }

  lemma FastSoFar(times: seq<int>, t: int)
    ensures SomeFast(times + [t]) <==> SomeFast(times) || EndsFast(times + [t], |times| + 1)
  {
    hide EndsFast;
    var longer := times + [t];
    forall n | 0 < n <= |times| ensures EndsFast(longer, n) <==> EndsFast(times, n) {
      EarlierWindows(times, t, n);
    }
    if SomeFast(longer) {
      var n :| 0 < n <= |longer| && EndsFast(longer, n);
      assert n <= |times| ==> EndsFast(times, n);
    }
    if EndsFast(longer, |times| + 1) {
      assert SomeFast(longer);
    }
    if SomeFast(times) {
      var n :| 0 < n <= |times| && EndsFast(times, n);
      assert EndsFast(longer, n);
    }
  }

  /** What the thread has counted after these calls, unless it samples already. */
  ghost predicate CountsAfter(mode: bool, rateCount: int, startedAt: int, times: seq<int>) {
    var n := |times|;
    var q := WindowBegin(times, n);
    && (mode <==> SomeFast(times))
    && (!mode ==>
      && rateCount == n - q
      && startedAt == if q == 0 && n < 4096 then 0 else WindowStart(times, q))
  }

  predicate AllPositive(times: seq<int>) {
    forall k :: 0 <= k < |times| ==> times[k] > 0
  }

  lemma RateUpdateCounts(s: State, times: seq<int>, t: int)
    requires !s.samplingMode && AllPositive(times) && t > 0
    requires CountsAfter(false, s.counters.rateCount, s.counters.rateWindowStartedAtMs, times)
    ensures
      var r := AfterCallRateUpdate(s, t);
      CountsAfter(r.samplingMode, r.counters.rateCount, r.counters.rateWindowStartedAtMs, times + [t])
  {
    hide SomeFast, WindowBegin;
    var longer, n := times + [t], |times|;
    var q := WindowBegin(times, n);
    EarlierWindows(times, t, n);
    FastSoFar(times, t);
    NextWindow(longer, n + 1);
    assert longer[n] == t && (q > 0 ==> longer[q - 1] == times[q - 1]);
    assert n >= 4096 ==> longer[4095] == times[4095];
    assert longer[..n] == times;
  }

  lemma NextWindow(times: seq<int>, n: nat)
    requires 0 < n <= |times|
    ensures
      var q := WindowBegin(times, n - 1);
      && WindowBegin(times, n) == (if Ends(times, q, n) then n else q)
      && (EndsFast(times, n) <==>
        Ends(times, q, n) && (n - q) * 1000 / (times[n - 1] - WindowStart(times, q)) >= 10000)
  {
  }

  // ---- whole runs

  ghost predicate StateCounts(s: State, times: seq<int>) {
    CountsAfter(s.samplingMode, s.counters.rateCount, s.counters.rateWindowStartedAtMs, times)
  }

  /** The same rate so far. */
  predicate SameRate(r: State, s: State) {
    && r.samplingMode == s.samplingMode && r.counters.rateCount == s.counters.rateCount
    && r.counters.rateWindowStartedAtMs == s.counters.rateWindowStartedAtMs
  }

  lemma CountedKeepsRate(s: State, m: nat)
    requires WellFormed(s)
    ensures SameRate(s.(counters := CountInvocation(s.counters, m)), s)
  {
    hide Grown, GrownLength;
  }

  lemma UpdateLooksAtRateOnly(r: State, s: State, nowMs: int)
    requires SameRate(r, s)
    ensures SameRate(AfterCallRateUpdate(r, nowMs), AfterCallRateUpdate(s, nowMs))
  {
    var count := s.counters.rateCount + 1;
    assert r.counters.rateCount + 1 == count;
    if count % RATE_CHECK_PERIOD == 0 {
      var started := if s.counters.rateWindowStartedAtMs == 0 then nowMs else s.counters.rateWindowStartedAtMs;
      if nowMs - started >= RATE_WINDOW_MS {
        var fast := count * 1000 / (nowMs - started) >= CALL_RATE_THRESHOLD;
        assert AfterCallRateUpdate(r, nowMs).samplingMode == (r.samplingMode || fast);
        assert AfterCallRateUpdate(s, nowMs).samplingMode == (s.samplingMode || fast);
      }
    }
  }

  /** An enter does to the rate what its decision does. */
  lemma EnterRate(s: State, m: int, nowNano: int, nowMs: int)
    requires WellFormed(s) && s.recording && IsRegistered(s, m)
    ensures
      var r := AfterMethodEnter(s, m, nowNano, nowMs);
      SameRate(r, if s.samplingMode then s else AfterCallRateUpdate(s, nowMs))
  {
    hide CountInvocation, AfterCallRateUpdate;
    CountedKeepsRate(s, m);
    UpdateLooksAtRateOnly(s.(counters := CountInvocation(s.counters, m)), s, nowMs);
  }

  lemma OtherStepKeepsRate(s: State, op: Op)
    requires WellFormed(s) && !op.EnterMethod? && !op.SetSamplingMode? && !op.OtherThreadSetsMode?
    ensures SameRate(Step(s, op), s)
  {
    hide Grown, GrownLength, EdgesBelow, FramesBelow, TopmostOf;
  }

  lemma {:induction false} RunCounts(s: State, ops: seq<Op>)
    requires WellFormed(s) && s.recording && NobodySetsTheMode(ops) && EntersRegistered(s, ops)
    requires !s.samplingMode && s.counters.rateCount == 0 && s.counters.rateWindowStartedAtMs == 0
    requires AllPositive(Times(ops))
    ensures StateCounts(Run(s, ops), Times(ops))
    ensures Run(s, ops).recording && s.registered <= Run(s, ops).registered
  {
    hide Step, CountsAfter;
    if ops == [] {
      NoCalls();
    } else {
      var prefix, op := ops[..|ops| - 1], ops[|ops| - 1];
      assert op == ops[|ops| - 1];
      assert AllPositive(Times(prefix)) by {
        forall k | 0 <= k < |Times(prefix)| ensures Times(prefix)[k] > 0 {
          assert Times(prefix)[k] == Times(ops)[k];
        }
      }
      RunCounts(s, prefix);
      StepKeepsRecording(Run(s, prefix), op);
      if op.EnterMethod? {
        assert Times(ops)[|Times(prefix)|] == op.nowMs;
      }
      StepCounts(Run(s, prefix), op, Times(prefix));
      assert Times(prefix) + [] == Times(prefix);
    }
  }

  lemma NoCalls()
    ensures CountsAfter(false, 0, 0, [])
  {
  }

  lemma StepCounts(s: State, op: Op, times: seq<int>)
    requires WellFormed(s) && s.recording && !op.SetSamplingMode? && !op.OtherThreadSetsMode?
    requires op.EnterMethod? ==> IsRegistered(s, op.methodId) && op.nowMs > 0
    requires AllPositive(times) && StateCounts(s, times)
    ensures StateCounts(Step(s, op), if op.EnterMethod? then times + [op.nowMs] else times)
  {
    hide AfterMethodEnter, AfterExit, AfterJdbcEnter, AfterTraceExit, SomeFast, WindowBegin, AfterCallRateUpdate;
    if op.EnterMethod? {
      EnterRate(s, op.methodId, op.nowNano, op.nowMs);
      FastSoFar(times, op.nowMs);
      if !s.samplingMode {
        RateUpdateCounts(s, times, op.nowMs);
      }
    } else {
      OtherStepKeepsRate(s, op);
    }
  }

  /**
   * A thread that starts counting from nothing, and whose mode nobody sets, samples after any run if and only if some
   * call of the run ended a window fast: a call whose number, counted from the call that ended the window before, is a
   * multiple of 4096, half a second or more after the window was started, at 10000 calls a second or more.
   */
  lemma SamplesExactlyWhenFast(s: State, ops: seq<Op>)
    requires WellFormed(s) && s.recording && NobodySetsTheMode(ops) && EntersRegistered(s, ops)
    requires !s.samplingMode && s.counters.rateCount == 0 && s.counters.rateWindowStartedAtMs == 0
    requires AllPositive(Times(ops))
    ensures Run(s, ops).samplingMode <==> SomeFast(Times(ops))
  {
    RunCounts(s, ops);
  }

  lemma {:induction false} NoWindowEndsBefore(times: seq<int>, n: nat)
    requires n < 8192 && n <= |times|
    ensures WindowBegin(times, n) == 0
    ensures n > 0 ==> !EndsFast(times, n)
  {
    if n > 0 {
      NoWindowEndsBefore(times, n - 1);
    }
  }

  lemma WholeRate(elapsed: int)
    requires elapsed >= 500
    ensures 8192 * 1000 / elapsed >= 10000 <==> elapsed <= 819
  {
    var rate := 8192 * 1000 / elapsed;
    assert rate * elapsed <= 8192 * 1000 < (rate + 1) * elapsed;
    if elapsed <= 819 {
      RateAtLeast(rate, elapsed);
    } else {
      RateBelow(rate, elapsed);
    }
  }

  lemma RateAtLeast(rate: int, elapsed: int)
    requires 0 < elapsed <= 819 && 8192 * 1000 < (rate + 1) * elapsed
    ensures rate >= 10000
  {
    if rate < 10000 {
      assert (rate + 1) * elapsed <= 10000 * elapsed;
    }
  }

  lemma RateScales(rate: int, elapsed: int)
    requires elapsed > 0
    ensures rate >= 10000 ==> rate * elapsed >= 10000 * elapsed
  {
    if rate >= 10000 {
      assert (rate - 10000) * elapsed >= 0;
    }
  }

  lemma RateBelow(rate: int, elapsed: int)
    requires elapsed >= 820 && rate * elapsed <= 8192 * 1000
    ensures rate < 10000
  {
    RateScales(rate, elapsed);
  }

  /**
   * The first chance: after exactly 8192 calls the thread samples if and only if the second 4096 of them took between
   * 500 and 819 milliseconds.
   */
  lemma FirstChance(s: State, ops: seq<Op>)
    requires WellFormed(s) && s.recording && NobodySetsTheMode(ops) && EntersRegistered(s, ops)
    requires !s.samplingMode && s.counters.rateCount == 0 && s.counters.rateWindowStartedAtMs == 0
    requires AllPositive(Times(ops)) && |Times(ops)| == 8192
    ensures Run(s, ops).samplingMode <==> 500 <= Times(ops)[8191] - Times(ops)[4095] <= 819
  {
    hide Run, Times, WindowBegin, EndsFast;
    var times := Times(ops);
    SamplesExactlyWhenFast(s, ops);
    forall n | 0 < n < 8192 ensures !EndsFast(times, n) {
      NoWindowEndsBefore(times, n);
    }
    NoWindowEndsBefore(times, 8191);
    NextWindow(times, 8192);
    if times[8191] - times[4095] >= 500 {
      WholeRate(times[8191] - times[4095]);
    }
    assert EndsFast(times, 8192) ==> SomeFast(times);
  }

  // ---- setting the mode

  /** What setting the mode leaves alone: the calls open on the thread and all that has been measured. */
  predicate SameMeasurements(r: State, s: State) {
    && r.frames == s.frames && r.edges == s.edges
    && r.counters.sampledDepth == s.counters.sampledDepth && r.counters.unsampledDepth == s.counters.unsampledDepth
    && r.counters.selfNanos == s.counters.selfNanos && r.counters.totalNanos == s.counters.totalNanos
    && r.counters.invocations == s.counters.invocations
  }

  /**
   * Switched off, the thread times every call and starts over: whatever it counted before, it samples again exactly
   * when a later call ends a window fast, the windows being counted from the switch.
   */
  lemma SwitchedOffStartsOver(s: State, ops: seq<Op>)
    requires WellFormed(s) && s.recording && NobodySetsTheMode(ops) && EntersRegistered(s, ops)
    requires AllPositive(Times(ops))
    ensures SameMeasurements(Step(s, SetSamplingMode(false)), s)
    ensures Run(Step(s, SetSamplingMode(false)), ops).samplingMode <==> SomeFast(Times(ops))
  {
    hide Run, SomeFast, Times;
    SamplesExactlyWhenFast(Step(s, SetSamplingMode(false)), ops);
  }

  /** Switched on, the thread samples until someone sets the mode, and takes up the count of samples where it stood. */
  lemma SwitchedOnSamples(s: State, ops: seq<Op>)
    requires WellFormed(s) && s.recording && NobodySetsTheMode(ops) && EntersRegistered(s, ops)
    requires 0 <= s.counters.sampleCounter < s.samplingInterval
    ensures SameMeasurements(Step(s, SetSamplingMode(true)), s)
    ensures
      var on := Step(s, SetSamplingMode(true));
      var r := Run(on, ops);
      && r.samplingMode
      && TimedEnters(on, ops) * s.samplingInterval + r.counters.sampleCounter == s.counters.sampleCounter + Enters(ops)
  {
    hide Run, TimedEnters, Enters;
    SamplingCadence(Step(s, SetSamplingMode(true)), ops);
    SamplingRun(Step(s, SetSamplingMode(true)), ops);
  }

  /** Switched off and on again, it begins a new count: the calls timed are those of whole intervals since then. */
  lemma SwitchedOffAndOn(s: State, ops: seq<Op>)
    requires WellFormed(s) && s.recording && NobodySetsTheMode(ops) && EntersRegistered(s, ops)
    requires s.samplingInterval > 0
    ensures
      var whole := TimedEnters(Step(Step(s, SetSamplingMode(false)), SetSamplingMode(true)), ops) * s.samplingInterval;
      whole <= Enters(ops) < whole + s.samplingInterval
  {
    hide Run, TimedEnters, Enters;
    SamplingCadence(Step(Step(s, SetSamplingMode(false)), SetSamplingMode(true)), ops);
  }

  // ---- after a reset

  predicate NoExits(ops: seq<Op>) {
    forall k :: 0 <= k < |ops| ==> !ops[k].Exit?
  }

  lemma OnlyExitsMakeEdges(s: State, op: Op)
    requires WellFormed(s) && !op.Exit?
    ensures Step(s, op).edges == s.edges
  {
    hide Grown, GrownLength, TopmostOf;
  }

  lemma {:induction false} NoEdgesYet(s: State, ops: seq<Op>)
    requires WellFormed(s) && NoExits(ops)
    ensures Run(s, ops).edges == s.edges
  {
    hide Step;
    if ops != [] {
      assert forall k :: 0 <= k < |ops| - 1 ==> ops[..|ops| - 1][k] == ops[k];
      NoEdgesYet(s, ops[..|ops| - 1]);
      assert !ops[|ops| - 1].Exit?;
      OnlyExitsMakeEdges(Run(s, ops[..|ops| - 1]), ops[|ops| - 1]);
    }
  }

  /**
   * A reset sets a thread back to the default mode and lets it count from nothing: sampling, it times whole intervals
   * of the calls since then; timing every call, it samples again exactly when a later call ends a window fast. No call
   * edge is older than the reset, and the stack stays as it is.
   */
  lemma ResetStartsOver(s: State, defaultSamplingMode: bool, ops: seq<Op>)
    requires WellFormed(s) && s.recording && NobodySetsTheMode(ops) && EntersRegistered(s, ops)
    requires s.samplingInterval > 0 && AllPositive(Times(ops))
    ensures AfterReset(s, defaultSamplingMode).frames == s.frames
    ensures defaultSamplingMode ==>
      var whole := TimedEnters(AfterReset(s, true), ops) * s.samplingInterval;
      whole <= Enters(ops) < whole + s.samplingInterval
    ensures !defaultSamplingMode ==> (Run(AfterReset(s, false), ops).samplingMode <==> SomeFast(Times(ops)))
    ensures NoExits(ops) ==> Run(AfterReset(s, defaultSamplingMode), ops).edges == map[]
  {
    hide Run, SomeFast, Times, TimedEnters, Enters, Flushed;
    if defaultSamplingMode {
      SamplingCadence(AfterReset(s, true), ops);
    } else {
      SamplesExactlyWhenFast(AfterReset(s, false), ops);
    }
    if NoExits(ops) {
      NoEdgesYet(AfterReset(s, defaultSamplingMode), ops);
    }
  }
}
