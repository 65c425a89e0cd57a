/** Whole runs of many threads with flushes anywhere between their events. */
module FlushedRuns {
  import opened Sequences
  import opened MethodStacks
  import opened RecorderModel
  import opened RecorderTime
  import opened Flushing

  /** Every thread's recorder, and the shared table. */
  datatype World = World(threads: seq<State>, shared: seq<Slot>)

  datatype Event =
    | Recorded(thread: nat, op: Op)
    | FlushOf(thread: nat)
    /** Some thread has registered a method, so the method has a stats object from now on. */
    | NewObject(methodId: nat)

  ghost predicate AllWellFormed(threads: seq<State>) {
    forall t :: 0 <= t < |threads| ==> WellFormed(threads[t])
  }

  function WithObject(shared: seq<Slot>, methodId: nat): (r: seq<Slot>)
    ensures methodId < |r|
  {
    var longer := shared + seq(Minus(methodId + 1, |shared|), _ => Absent);
    if longer[methodId].Absent? then longer[methodId := Present(NOTHING)] else longer
  }

  ghost function After(w: World, e: Event): (r: World)
    requires AllWellFormed(w.threads)
    ensures AllWellFormed(r.threads) && |r.threads| == |w.threads|
  {
    match e
    case Recorded(t, op) =>
      if t < |w.threads| then w.(threads := w.threads[t := Step(w.threads[t], op)]) else w
    case FlushOf(t) =>
      if t < |w.threads| then
        var s := w.threads[t];
        World(w.threads[t := s.(counters := LocalAfter(w.shared, s.counters))], SharedAfter(w.shared, s.counters))
      else w
    case NewObject(m) => w.(shared := WithObject(w.shared, m))
  }

  ghost function RunOf(w: World, events: seq<Event>): (r: World)
    requires AllWellFormed(w.threads)
    ensures AllWellFormed(r.threads) && |r.threads| == |w.threads|
  {
    if events == [] then w else After(RunOf(w, events[..|events| - 1]), events[|events| - 1])
  }

  /** What one thread did, the flushes left out. */
  function OpsOf(events: seq<Event>, t: nat): seq<Op> {
    if events == [] then []
    else
      var last := events[|events| - 1];
      OpsOf(events[..|events| - 1], t) + (if last.Recorded? && last.thread == t then [last.op] else [])
  }

  /** The threads as they would be if nothing had been flushed. */
  ghost function Unflushed(threads: seq<State>, events: seq<Event>): (r: seq<State>)
    requires AllWellFormed(threads)
    ensures AllWellFormed(r) && |r| == |threads|
  {
    seq(|threads|, t requires 0 <= t < |threads| => Run(threads[t], OpsOf(events, t)))
  }

  ghost function CountersOf(threads: seq<State>): (r: seq<Counters>)
    requires AllWellFormed(threads)
    ensures |r| == |threads| && AllHaveArrays(r)
  {
    seq(|threads|, t requires 0 <= t < |threads| => threads[t].counters)
  }

  // ---- a flush changes totals and nothing else

  /** The same thread but for the three totals of each method. */
  predicate SameButTotals(r: State, s: State) {
    && WellFormed(r) && WellFormed(s) && |r.counters.invocations| == |s.counters.invocations|
    && r == s.(counters := s.counters.(selfNanos := r.counters.selfNanos, totalNanos := r.counters.totalNanos,
                                       invocations := r.counters.invocations))
  }

  function Difference(a: Totals, b: Totals): Totals {
    Totals(a.selfNanos - b.selfNanos, a.totalNanos - b.totalNanos, a.invocations - b.invocations)
  }

  /** What an event adds to a method's totals. */
  function AddedBy(s: State, op: Op, i: nat): Totals
    requires WellFormed(s)
  {
    Difference(LocalAt(Step(s, op).counters, i), LocalAt(s.counters, i))
  }

  lemma CountingAddsTheSame(r: Counters, s: Counters, m: nat, i: nat)
    requires 0 < |r.selfNanos| == |r.totalNanos| == |r.invocations|
    requires 0 < |s.selfNanos| == |s.totalNanos| == |s.invocations| == |r.invocations|
    ensures |CountInvocation(r, m).invocations| == |CountInvocation(s, m).invocations|
    ensures Difference(LocalAt(CountInvocation(r, m), i), LocalAt(r, i))
         == Difference(LocalAt(CountInvocation(s, m), i), LocalAt(s, i))
  {
    hide GrownLength;
  }

  lemma AddingAddsTheSame(r: Counters, s: Counters, m: nat, selfNano: int, totalNano: int, i: nat)
    requires 0 < |r.selfNanos| == |r.totalNanos| == |r.invocations|
    requires 0 < |s.selfNanos| == |s.totalNanos| == |s.invocations| == |r.invocations|
    ensures |AddDurations(r, m, selfNano, totalNano).invocations|
         == |AddDurations(s, m, selfNano, totalNano).invocations|
    ensures Difference(LocalAt(AddDurations(r, m, selfNano, totalNano), i), LocalAt(r, i))
         == Difference(LocalAt(AddDurations(s, m, selfNano, totalNano), i), LocalAt(s, i))
  {
    hide GrownLength;
  }

  predicate SameArrays(c: Counters, d: Counters) {
    c.selfNanos == d.selfNanos && c.totalNanos == d.totalNanos && c.invocations == d.invocations
  }

  lemma RateUpdateIsBlind(r: State, s: State, nowMs: int)
    requires SameButTotals(r, s)
    ensures
      var r', s' := AfterCallRateUpdate(r, nowMs), AfterCallRateUpdate(s, nowMs);
      && SameButTotals(r', s') && SameArrays(r'.counters, r.counters) && SameArrays(s'.counters, s.counters)
  {
    RateUpdateKeepsTotals(r, nowMs);
    RateUpdateKeepsTotals(s, nowMs);
    var rateCount := s.counters.rateCount + 1;
    assert r.counters.rateCount + 1 == rateCount;
    if rateCount % RATE_CHECK_PERIOD == 0 {
      var started := if s.counters.rateWindowStartedAtMs == 0 then nowMs else s.counters.rateWindowStartedAtMs;
      assert r.counters.rateWindowStartedAtMs == s.counters.rateWindowStartedAtMs;
      if nowMs - started >= RATE_WINDOW_MS {
        var fast := rateCount * 1000 / (nowMs - started) >= CALL_RATE_THRESHOLD;
        assert AfterCallRateUpdate(r, nowMs).samplingMode == (r.samplingMode || fast);
        assert AfterCallRateUpdate(s, nowMs).samplingMode == (s.samplingMode || fast);
      }
    }
  }

  lemma RateUpdateKeepsTotals(s: State, nowMs: int)
    ensures SameArrays(AfterCallRateUpdate(s, nowMs).counters, s.counters)
  {
  }

  /** The decision and the enter that follows it look at no totals and leave them alone. */
  lemma DecidedEnterIsBlind(r: State, s: State, timed: bool, m: int, nowNano: int, nowMs: int)
    requires SameButTotals(r, s)
    ensures
      var r', s' := AfterDecidedEnter(AfterSamplingDecision(r, nowMs), timed, m, nowNano),
                    AfterDecidedEnter(AfterSamplingDecision(s, nowMs), timed, m, nowNano);
      && SameButTotals(r', s') && SameArrays(r'.counters, r.counters) && SameArrays(s'.counters, s.counters)
  {
    hide AfterCallRateUpdate;
    RateUpdateIsBlind(r, s, nowMs);
  }

  lemma EnterAddsTheSame(r: State, s: State, m: int, nowNano: int, nowMs: int, i: nat)
    requires SameButTotals(r, s)
    ensures
      var op := EnterMethod(m, nowNano, nowMs);
      SameButTotals(Step(r, op), Step(s, op)) && AddedBy(r, op, i) == AddedBy(s, op, i)
  {
    hide CountInvocation, AfterSamplingDecision, AfterDecidedEnter;
    if r.recording && IsRegistered(r, m) {
      CountingAddsTheSame(r.counters, s.counters, m, i);
      var r1, s1 := r.(counters := CountInvocation(r.counters, m)), s.(counters := CountInvocation(s.counters, m));
      CountingKeepsTheRest(r.counters, m);
      CountingKeepsTheRest(s.counters, m);
      DecidedEnterIsBlind(r1, s1, TakesTimingSample(r1), m, nowNano, nowMs);
    }
  }

  lemma CountingKeepsTheRest(c: Counters, m: nat)
    requires 0 < |c.selfNanos| == |c.totalNanos| == |c.invocations|
    ensures
      var d := CountInvocation(c, m);
      d == c.(selfNanos := d.selfNanos, totalNanos := d.totalNanos, invocations := d.invocations)
  {
    hide Grown;
  }

  lemma AddingKeepsTheRest(c: Counters, m: nat, selfNano: int, totalNano: int)
    requires 0 < |c.selfNanos| == |c.totalNanos| == |c.invocations|
    ensures
      var d := AddDurations(c, m, selfNano, totalNano);
      d == c.(selfNanos := d.selfNanos, totalNanos := d.totalNanos, invocations := d.invocations)
  {
    hide Grown;
  }

  lemma TimedExitAddsTheSame(r: State, s: State, m: nat, nowNano: int, i: nat)
    requires SameButTotals(r, s) && s.frames != []
    ensures
      var r', s' := AfterTimedExit(r, m, nowNano), AfterTimedExit(s, m, nowNano);
      && SameButTotals(r', s')
      && Difference(LocalAt(r'.counters, i), LocalAt(r.counters, i))
         == Difference(LocalAt(s'.counters, i), LocalAt(s.counters, i))
  {
    hide AddDurations, FramesBelow, EdgesBelow, ClampedSelf, Duration;
    var f := s.frames[|s.frames| - 1];
    var c := r.counters.(sampledDepth := Decremented(r.counters.sampledDepth));
    var d := s.counters.(sampledDepth := Decremented(s.counters.sampledDepth));
    AddingAddsTheSame(c, d, m, ClampedSelf(f, nowNano), Duration(f, nowNano), i);
    AddingKeepsTheRest(c, m, ClampedSelf(f, nowNano), Duration(f, nowNano));
    AddingKeepsTheRest(d, m, ClampedSelf(f, nowNano), Duration(f, nowNano));
  }

  lemma ExitAddsTheSame(r: State, s: State, m: int, nowNano: int, i: nat)
    requires SameButTotals(r, s)
    ensures SameButTotals(AfterExit(r, m, nowNano), AfterExit(s, m, nowNano))
    ensures AddedBy(r, Exit(m, nowNano), i) == AddedBy(s, Exit(m, nowNano), i)
  {
    hide AfterTimedExit;
    if r.recording && IsRegistered(r, m) && !ExitIsUnsampled(r, m) {
      TimedExitAddsTheSame(r, s, m, nowNano, i);
    }
  }

  lemma JdbcEnterAddsTheSame(r: State, s: State, j: nat, nowNano: int, i: nat)
    requires SameButTotals(r, s)
    ensures SameButTotals(AfterJdbcEnter(r, j, nowNano), AfterJdbcEnter(s, j, nowNano))
    ensures AddedBy(r, EnterJdbc(j, nowNano), i) == AddedBy(s, EnterJdbc(j, nowNano), i)
  {
    hide CountInvocation;
    if r.recording {
      CountingAddsTheSame(r.counters, s.counters, j, i);
      CountingKeepsTheRest(r.counters, j);
      CountingKeepsTheRest(s.counters, j);
    }
  }

  lemma TraceExitAddsNothing(r: State, s: State, m: int)
    requires SameButTotals(r, s)
    ensures
      var r', s' := AfterTraceExit(r, m), AfterTraceExit(s, m);
      SameButTotals(r', s') && r'.counters == r.counters && s'.counters == s.counters
  {
    hide TopmostOf;
  }

  /** Whatever happens, a thread that was flushed adds to its totals what it would have added without. */
  lemma StepAddsTheSame(r: State, s: State, op: Op, i: nat)
    requires SameButTotals(r, s)
    ensures SameButTotals(Step(r, op), Step(s, op)) && AddedBy(r, op, i) == AddedBy(s, op, i)
  {
    hide AfterMethodEnter, AfterExit, AfterJdbcEnter, AfterTraceExit;
    match op
    case EnterMethod(m, nowNano, nowMs) => EnterAddsTheSame(r, s, m, nowNano, nowMs, i);
    case Exit(m, nowNano) => ExitAddsTheSame(r, s, m, nowNano, i);
    case EnterJdbc(j, nowNano) => JdbcEnterAddsTheSame(r, s, j, nowNano, i);
    case ExitTrace(m) => TraceExitAddsNothing(r, s, m);
    case _ =>
  }

  // ---- conservation over whole runs

  lemma {:induction false} TotalWithOneChanged(threads: seq<Counters>, t: nat, c: Counters, i: nat)
    requires AllHaveArrays(threads) && t < |threads| && HasArrays(c)
    ensures ThreadsTotal(threads[t := c], i).Plus(LocalAt(threads[t], i))
         == ThreadsTotal(threads, i).Plus(LocalAt(c, i))
  {
    var n := |threads| - 1;
    if t == n {
      assert threads[t := c][..n] == threads[..n];
    } else {
      assert threads[t := c][..n] == threads[..n][t := c];
      TotalWithOneChanged(threads[..n], t, c, i);
    }
  }

  ghost predicate AllSameButTotals(threads: seq<State>, unflushed: seq<State>)
    requires AllWellFormed(threads) && AllWellFormed(unflushed)
  {
    && |threads| == |unflushed|
    && forall t :: 0 <= t < |threads| ==> SameButTotals(threads[t], unflushed[t])
  }

  /** Everything of a method, in the table and in the threads. */
  ghost function InAll(w: World, i: nat): Totals
    requires AllWellFormed(w.threads)
  {
    SharedAt(w.shared, i).Plus(ThreadsTotal(CountersOf(w.threads), i))
  }

  ghost predicate Conserved(w: World, start: seq<Slot>, unflushed: seq<State>, i: nat)
    requires AllWellFormed(w.threads) && AllWellFormed(unflushed)
  {
    && AllSameButTotals(w.threads, unflushed)
    && InAll(w, i) == InAll(World(unflushed, start), i)
  }

  lemma CountersWithOneChanged(threads: seq<State>, t: nat, s: State)
    requires AllWellFormed(threads) && t < |threads| && WellFormed(s)
    ensures AllWellFormed(threads[t := s])
    ensures CountersOf(threads[t := s]) == CountersOf(threads)[t := s.counters]
  {
  }

  lemma RecordedIsConserved(w: World, start: seq<Slot>, unflushed: seq<State>, t: nat, op: Op, i: nat)
    requires AllWellFormed(w.threads) && AllWellFormed(unflushed) && t < |w.threads|
    requires Conserved(w, start, unflushed, i)
    ensures Conserved(After(w, Recorded(t, op)), start, unflushed[t := Step(unflushed[t], op)], i)
  {
    hide Step, ThreadsTotal;
    var r, s := w.threads[t], unflushed[t];
    StepAddsTheSame(r, s, op, i);
    CountersWithOneChanged(w.threads, t, Step(r, op));
    CountersWithOneChanged(unflushed, t, Step(s, op));
    TotalWithOneChanged(CountersOf(w.threads), t, Step(r, op).counters, i);
    TotalWithOneChanged(CountersOf(unflushed), t, Step(s, op).counters, i);
  }

  lemma FlushIsConserved(w: World, start: seq<Slot>, unflushed: seq<State>, t: nat, i: nat)
    requires AllWellFormed(w.threads) && AllWellFormed(unflushed) && t < |w.threads|
    requires Conserved(w, start, unflushed, i)
    ensures Conserved(After(w, FlushOf(t)), start, unflushed, i)
  {
    hide ThreadsTotal, SharedAfter;
    var c := w.threads[t].counters;
    var flushed := w.threads[t].(counters := LocalAfter(w.shared, c));
    CountersWithOneChanged(w.threads, t, flushed);
    TotalWithOneChanged(CountersOf(w.threads), t, flushed.counters, i);
    FlushMovesTotals(w.shared, c, i);
  }

  lemma NewObjectIsConserved(w: World, start: seq<Slot>, unflushed: seq<State>, m: nat, i: nat)
    requires AllWellFormed(w.threads) && AllWellFormed(unflushed) && Conserved(w, start, unflushed, i)
    ensures Conserved(After(w, NewObject(m)), start, unflushed, i)
  {
    assert SharedAt(WithObject(w.shared, m), i) == SharedAt(w.shared, i);
  }

  lemma UnflushedGrows(threads: seq<State>, events: seq<Event>, e: Event)
    requires AllWellFormed(threads)
    ensures
      var before, after := Unflushed(threads, events), Unflushed(threads, events + [e]);
      after == if e.Recorded? && e.thread < |threads| then before[e.thread := Step(before[e.thread], e.op)] else before
  {
    hide Step;
    assert (events + [e])[..|events|] == events;
    forall t | 0 <= t < |threads|
      ensures Run(threads[t], OpsOf(events + [e], t)) ==
        if e.Recorded? && e.thread == t then Step(Run(threads[t], OpsOf(events, t)), e.op)
        else Run(threads[t], OpsOf(events, t))
    {
      var ops := OpsOf(events, t);
      if e.Recorded? && e.thread == t {
        assert (ops + [e.op])[..|ops|] == ops;
      } else {
        assert ops + [] == ops;
      }
    }
  }

  /**
   * Flushes anywhere, of any thread at a time, lose nothing and invent nothing: after any run, a method's totals in
   * the table and in all threads together are what they would be if nothing had ever been flushed; and apart from
   * these totals each thread is as it would be.
   */
  lemma {:induction false} FlushesLoseNothing(w: World, events: seq<Event>, i: nat)
    requires AllWellFormed(w.threads)
    ensures Conserved(RunOf(w, events), w.shared, Unflushed(w.threads, events), i)
  {
    hide Conserved, After;
    if events == [] {
      NothingFlushed(w, i);
    } else {
      var prefix, e := events[..|events| - 1], events[|events| - 1];
      FlushesLoseNothing(w, prefix, i);
      UnflushedGrows(w.threads, prefix, e);
      assert prefix + [e] == events;
      EventIsConserved(RunOf(w, prefix), w.shared, Unflushed(w.threads, prefix), e, i);
    }
  }

  lemma NothingFlushed(w: World, i: nat)
    requires AllWellFormed(w.threads)
    ensures Conserved(w, w.shared, Unflushed(w.threads, []), i)
  {
    assert Unflushed(w.threads, []) == w.threads;
  }

  lemma EventIsConserved(w: World, start: seq<Slot>, unflushed: seq<State>, e: Event, i: nat)
    requires AllWellFormed(w.threads) && AllWellFormed(unflushed) && |unflushed| == |w.threads|
    requires Conserved(w, start, unflushed, i)
    ensures
      var after := if e.Recorded? && e.thread < |unflushed| then unflushed[e.thread := Step(unflushed[e.thread], e.op)]
                   else unflushed;
      AllWellFormed(after) && Conserved(After(w, e), start, after, i)
  {
    hide Conserved, Step;
    match e
    case Recorded(t, op) =>
      if t < |w.threads| {
        RecordedIsConserved(w, start, unflushed, t, op, i);
      }
    case FlushOf(t) =>
      if t < |w.threads| {
        FlushIsConserved(w, start, unflushed, t, i);
      }
    case NewObject(m) => NewObjectIsConserved(w, start, unflushed, m, i);
  }

  /** The enters of a method in all threads. */
  function AllEnters(n: nat, events: seq<Event>, i: nat): nat {
    if n == 0 then 0 else AllEnters(n - 1, events, i) + EnterCount(OpsOf(events, n - 1), i)
  }

  ghost predicate StartsFresh(threads: seq<State>, events: seq<Event>) {
    forall t :: 0 <= t < |threads| ==>
      && Fresh(threads[t])
      && forall k :: 0 <= k < |OpsOf(events, t)| && OpsOf(events, t)[k].EnterMethod? ==>
        IsRegistered(threads[t], OpsOf(events, t)[k].methodId)
  }

  lemma {:induction false} UnflushedCountsEnters(threads: seq<State>, events: seq<Event>, n: nat, i: nat)
    requires n <= |threads| && AllWellFormed(threads) && StartsFresh(threads, events)
    ensures ThreadsTotal(CountersOf(Unflushed(threads, events))[..n], i).invocations == AllEnters(n, events, i)
  {
    hide Run, EnterCount, Fresh, WellFormed;
    var all := CountersOf(Unflushed(threads, events));
    if n > 0 {
      UnflushedCountsEnters(threads, events, n - 1, i);
      InvocationsAreExact(threads[n - 1], OpsOf(events, n - 1), i);
      assert all[..n][..n - 1] == all[..n - 1];
    }
  }

  /**
   * So what a snapshot has reported of a method and what is still pending in the threads are together exactly the
   * calls made of it, however the snapshots fell between the calls.
   */
  lemma EveryCallIsCounted(threads: seq<State>, events: seq<Event>, i: nat)
    requires AllWellFormed(threads) && StartsFresh(threads, events)
    ensures
      var w := RunOf(World(threads, []), events);
      SharedAt(w.shared, i).invocations + ThreadsTotal(CountersOf(w.threads), i).invocations
      == AllEnters(|threads|, events, i)
  {
    hide ThreadsTotal, AllEnters, StartsFresh;
    var unflushed := CountersOf(Unflushed(threads, events));
    FlushesLoseNothing(World(threads, []), events, i);
    UnflushedCountsEnters(threads, events, |threads|, i);
    assert unflushed[..|threads|] == unflushed;
  }
}
