/** How often the sampling mode times a call. */
module RecorderSampling {
  import opened RecorderModel
  import opened Sequences

  function Enters(ops: seq<Op>): nat {
    if ops == [] then 0 else Enters(ops[..|ops| - 1]) + (if ops[|ops| - 1].EnterMethod? then 1 else 0)
  }

  predicate NobodySetsTheMode(ops: seq<Op>) {
    forall k :: 0 <= k < |ops| ==> !ops[k].SetSamplingMode? && !ops[k].OtherThreadSetsMode?
  }

  /** Every method that is entered has been registered. */
  predicate EntersRegistered(s: State, ops: seq<Op>) {
    forall k :: 0 <= k < |ops| && ops[k].EnterMethod? ==> IsRegistered(s, ops[k].methodId)
  }

  /** The enters of a run that are timed. */
  function TimedEnters(s: State, ops: seq<Op>): nat
    requires WellFormed(s)
  {
    if ops == [] then 0
    else
      var prefix := ops[..|ops| - 1];
      TimedEnters(s, prefix) + (if ops[|ops| - 1].EnterMethod? && TakesTimingSample(Run(s, prefix)) then 1 else 0)
  }

  function Multiple(k: nat, interval: int): int {
    if k == 0 then 0 else Multiple(k - 1, interval) + interval
  }

  lemma {:induction false} MultipleIsProduct(k: nat, interval: int)
    ensures Multiple(k, interval) == k * interval
  {
    if k > 0 {
      MultipleIsProduct(k - 1, interval);
    }
  }

  predicate SameSwitches(s: State, r: State) {
    && r.recording == s.recording && r.registered == s.registered
    && r.samplingMode == s.samplingMode && r.samplingInterval == s.samplingInterval
  }

  lemma SamplingStep(s: State, op: Op)
    requires WellFormed(s) && s.recording && s.samplingMode && op.EnterMethod? && IsRegistered(s, op.methodId)
    ensures
      var r := Step(s, op);
      && SameSwitches(s, r)
      && if s.counters.sampleCounter + 1 >= s.samplingInterval then
        && r.counters.sampleCounter == 0 && |r.frames| == |s.frames| + 1
        && r.counters.sampledDepth == s.counters.sampledDepth + 1
        && r.counters.unsampledDepth == s.counters.unsampledDepth
      else
        && r.counters.sampleCounter == s.counters.sampleCounter + 1 && |r.frames| == |s.frames|
        && r.counters.sampledDepth == s.counters.sampledDepth
        && r.counters.unsampledDepth == s.counters.unsampledDepth + 1
  {
  }

  /** Every other event leaves the switches and the sample counter alone. */
  lemma OtherStepKeepsCadence(s: State, op: Op)
    requires WellFormed(s) && s.recording && s.samplingMode
    requires !op.EnterMethod? && !op.SetSamplingMode? && !op.OtherThreadSetsMode?
    ensures
      var r := Step(s, op);
      && r.recording && s.registered <= r.registered && r.samplingMode && r.samplingInterval == s.samplingInterval
      && r.counters.sampleCounter == s.counters.sampleCounter
  {
    hide Grown, GrownLength, EdgesBelow, FramesBelow;
  }

  ghost predicate Cadence(s: State, r: State, timed: nat, enters: nat) {
    && r.recording && s.registered <= r.registered && r.samplingMode && r.samplingInterval == s.samplingInterval
    && 0 <= r.counters.sampleCounter < s.samplingInterval
    && Multiple(timed, s.samplingInterval) + r.counters.sampleCounter == s.counters.sampleCounter + enters
  }

  lemma {:induction false} SamplingRun(s: State, ops: seq<Op>)
    requires WellFormed(s) && s.recording && s.samplingMode && NobodySetsTheMode(ops) && EntersRegistered(s, ops)
    requires 0 <= s.counters.sampleCounter < s.samplingInterval
    ensures Cadence(s, Run(s, ops), TimedEnters(s, ops), Enters(ops))
  {
    hide Step;
    if ops != [] {
      var prefix, op := ops[..|ops| - 1], ops[|ops| - 1];
      SamplingRun(s, prefix);
      if op.EnterMethod? {
        SamplingStep(Run(s, prefix), op);
      } else {
        assert op == ops[|ops| - 1];
        OtherStepKeepsCadence(Run(s, prefix), op);
      }
    }
  }

  /**
   * In sampling mode exactly every samplingInterval-th enter is timed, whatever happens between the enters and
   * wherever the counter stood: timed enters and counter are the quotient and the remainder of the enters seen.
   */
  lemma SamplingCadence(s: State, ops: seq<Op>)
    requires WellFormed(s) && s.recording && s.samplingMode && NobodySetsTheMode(ops) && EntersRegistered(s, ops)
    requires 0 <= s.counters.sampleCounter < s.samplingInterval
    ensures
      var r := Run(s, ops);
      && TimedEnters(s, ops) * s.samplingInterval + r.counters.sampleCounter == s.counters.sampleCounter + Enters(ops)
      && 0 <= r.counters.sampleCounter < s.samplingInterval
  {
    hide Run, TimedEnters, Multiple, Enters;
    SamplingRun(s, ops);
    MultipleIsProduct(TimedEnters(s, ops), s.samplingInterval);
  }

  // ---- the switch to sampling mode

  /** The rate is looked at every 4096 calls, and 4096 calls in half a second are too few. */
  lemma RateUpdateNeedsCalls(s: State, nowMs: int)
    requires !s.samplingMode && 0 <= s.counters.rateCount
    ensures
      var r := AfterCallRateUpdate(s, nowMs);
      && 0 <= r.counters.rateCount <= s.counters.rateCount + 1
      && (r.samplingMode ==> s.counters.rateCount + 1 >= 2 * RATE_CHECK_PERIOD)
  {
    var count := s.counters.rateCount + 1;
    if count % RATE_CHECK_PERIOD == 0 && count < 2 * RATE_CHECK_PERIOD {
      assert count == RATE_CHECK_PERIOD;
      RateIsTooLow(nowMs - (if s.counters.rateWindowStartedAtMs == 0 then nowMs else s.counters.rateWindowStartedAtMs));
    }
  }

  lemma ProductIsLarge(rate: int, elapsed: int)
    requires rate >= CALL_RATE_THRESHOLD && elapsed >= RATE_WINDOW_MS
    ensures rate * elapsed >= CALL_RATE_THRESHOLD * RATE_WINDOW_MS
  {
  }

  lemma RateIsTooLow(elapsed: int)
    ensures elapsed >= RATE_WINDOW_MS ==> RATE_CHECK_PERIOD * 1000 / elapsed < CALL_RATE_THRESHOLD
  {
    if elapsed >= RATE_WINDOW_MS {
      var rate := RATE_CHECK_PERIOD * 1000 / elapsed;
      assert rate * elapsed <= RATE_CHECK_PERIOD * 1000;
      if rate >= CALL_RATE_THRESHOLD {
        ProductIsLarge(rate, elapsed);
      }
    }
  }

  lemma StepNeedsCalls(s: State, op: Op)
    requires WellFormed(s) && !s.samplingMode && 0 <= s.counters.rateCount
    requires !op.SetSamplingMode? && !op.OtherThreadSetsMode?
    ensures
      var r := Step(s, op);
      var enters := if op.EnterMethod? then 1 else 0;
      && 0 <= r.counters.rateCount <= s.counters.rateCount + enters
      && (r.samplingMode ==> s.counters.rateCount + enters >= 2 * RATE_CHECK_PERIOD)
  {
    hide AfterCallRateUpdate, EdgesBelow, FramesBelow;
    if op.EnterMethod? {
      RateUpdateNeedsCalls(s.(counters := CountInvocation(s.counters, if op.methodId >= 0 then op.methodId else 0)),
                           op.nowMs);
    }
  }

  /** On its own a thread never switches to sampling mode in its first 8191 calls, however fast they come. */
  lemma {:induction false} NoEarlySampling(s: State, ops: seq<Op>)
    requires WellFormed(s) && !s.samplingMode && 0 <= s.counters.rateCount && NobodySetsTheMode(ops)
    requires s.counters.rateCount + Enters(ops) < 2 * RATE_CHECK_PERIOD
    ensures !Run(s, ops).samplingMode
    ensures 0 <= Run(s, ops).counters.rateCount <= s.counters.rateCount + Enters(ops)
  {
    hide Step;
    if ops != [] {
      var prefix := ops[..|ops| - 1];
      NoEarlySampling(s, prefix);
      StepNeedsCalls(Run(s, prefix), ops[|ops| - 1]);
    }
  }
}
