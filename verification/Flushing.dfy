/** Moving what threads have accumulated into the shared statistics. */
module Flushing {
  import opened Sequences
  import opened MethodStacks
  import opened RecorderModel
  import opened Recorders

  datatype Totals = Totals(selfNanos: int, totalNanos: int, invocations: int) {
    function Plus(t: Totals): Totals {
      Totals(selfNanos + t.selfNanos, totalNanos + t.totalNanos, invocations + t.invocations)
    }
  }

  const NOTHING := Totals(0, 0, 0)

  /** A slot of the shared table: no stats object yet, or one with its totals. */
  datatype Slot = Absent | Present(totals: Totals)

  function LocalAt(c: Counters, i: nat): Totals
    requires HasArrays(c)
  {
    if i < |c.invocations| then Totals(c.selfNanos[i], c.totalNanos[i], c.invocations[i]) else NOTHING
  }

  function SharedAt(shared: seq<Slot>, i: nat): Totals {
    if i < |shared| && shared[i].Present? then shared[i].totals else NOTHING
  }

  /** The methods that have a stats object. */
  function LiveSlots(shared: seq<Slot>): set<int> {
    set i | 0 <= i < |shared| && shared[i].Present?
  }

  /** A thread's slot moves only if it counted a new invocation and there is an object to move it to. */
  predicate Moves(shared: seq<Slot>, c: Counters, i: nat) {
    IsFlushed(c, LiveSlots(shared), i)
  }

  function SharedAfter(shared: seq<Slot>, c: Counters): (r: seq<Slot>)
    requires HasArrays(c)
    ensures |r| == |shared|
  {
    seq(|shared|, i requires 0 <= i < |shared| =>
      if Moves(shared, c, i) then Present(shared[i].totals.Plus(LocalAt(c, i))) else shared[i])
  }

  function LocalAfter(shared: seq<Slot>, c: Counters): (r: Counters)
    requires HasArrays(c)
    ensures HasArrays(r) && |r.invocations| == |c.invocations|
  {
    Flushed(c, LiveSlots(shared))
  }

  ghost predicate AllHaveArrays(threads: seq<Counters>) {
    forall t :: 0 <= t < |threads| ==> HasArrays(threads[t])
  }

  /** The shared table after flushing threads in order. */
  ghost function AllSharedAfter(shared: seq<Slot>, threads: seq<Counters>): (r: seq<Slot>)
    requires AllHaveArrays(threads)
    ensures |r| == |shared| && forall i :: 0 <= i < |r| ==> r[i].Present? == shared[i].Present?
  {
    if threads == [] then shared
    else SharedAfter(AllSharedAfter(shared, threads[..|threads| - 1]), threads[|threads| - 1])
  }

  /** Which slots move does not depend on the totals, so each thread's part can be said on its own. */
  ghost function AllLocalAfter(shared: seq<Slot>, threads: seq<Counters>): (r: seq<Counters>)
    requires AllHaveArrays(threads)
    ensures |r| == |threads| && AllHaveArrays(r)
  {
    seq(|threads|, t requires 0 <= t < |threads| => LocalAfter(shared, threads[t]))
  }

  ghost function ThreadsTotal(threads: seq<Counters>, i: nat): Totals
    requires AllHaveArrays(threads)
  {
    if threads == [] then NOTHING
    else ThreadsTotal(threads[..|threads| - 1], i).Plus(LocalAt(threads[|threads| - 1], i))
  }

  lemma LocalSlotAfter(shared: seq<Slot>, c: Counters, i: nat)
    requires HasArrays(c)
    ensures LocalAt(LocalAfter(shared, c), i) == if Moves(shared, c, i) then NOTHING else LocalAt(c, i)
  {
    var r := LocalAfter(shared, c);
    if i < |c.invocations| {
      assert r.selfNanos[i] == if Moves(shared, c, i) then 0 else c.selfNanos[i];
      assert r.totalNanos[i] == if Moves(shared, c, i) then 0 else c.totalNanos[i];
      assert r.invocations[i] == if Moves(shared, c, i) then 0 else c.invocations[i];
    }
  }

  lemma SharedSlotAfter(shared: seq<Slot>, c: Counters, i: nat)
    requires HasArrays(c)
    ensures i < |shared| ==>
      SharedAfter(shared, c)[i] ==
        (if Moves(shared, c, i) then Present(shared[i].totals.Plus(LocalAt(c, i))) else shared[i])
  {
  }

  /** Counters are their slots. */
  lemma SlotsMakeCounters(shared: seq<Slot>, c: Counters, selfs: seq<int>, totals: seq<int>, invocations: seq<int>)
    requires HasArrays(c) && |selfs| == |totals| == |invocations| == |c.invocations|
    requires forall k :: 0 <= k < |invocations| ==>
      Totals(selfs[k], totals[k], invocations[k]) == LocalAt(LocalAfter(shared, c), k)
    ensures LocalAfter(shared, c) == c.(selfNanos := selfs, totalNanos := totals, invocations := invocations)
  {
    var r := LocalAfter(shared, c);
    forall k | 0 <= k < |invocations|
      ensures r.selfNanos[k] == selfs[k] && r.totalNanos[k] == totals[k] && r.invocations[k] == invocations[k]
    {
      assert LocalAt(r, k) == Totals(selfs[k], totals[k], invocations[k]);
    }
  }

  /** One thread: what leaves its slot arrives in the shared slot. */
  lemma FlushMovesTotals(shared: seq<Slot>, c: Counters, i: nat)
    requires HasArrays(c)
    ensures SharedAt(SharedAfter(shared, c), i).Plus(LocalAt(LocalAfter(shared, c), i))
         == SharedAt(shared, i).Plus(LocalAt(c, i))
  {
    LocalSlotAfter(shared, c, i);
    if Moves(shared, c, i) {
      assert SharedAfter(shared, c)[i] == Present(shared[i].totals.Plus(LocalAt(c, i)));
    } else if i < |shared| {
      assert SharedAfter(shared, c)[i] == shared[i];
    }
  }

  lemma SameObjectsSameMoves(a: seq<Slot>, b: seq<Slot>, c: Counters)
    requires HasArrays(c) && |a| == |b| && forall i :: 0 <= i < |a| ==> a[i].Present? == b[i].Present?
    ensures LocalAfter(a, c) == LocalAfter(b, c)
  {
    forall i: nat ensures Moves(a, c, i) == Moves(b, c, i) {
    }
  }

  /** Conservation: flushing changes no method's totals summed over the shared table and all threads. */
  lemma {:induction false} FlushConservesTotals(shared: seq<Slot>, threads: seq<Counters>, i: nat)
    requires AllHaveArrays(threads)
    ensures SharedAt(AllSharedAfter(shared, threads), i).Plus(ThreadsTotal(AllLocalAfter(shared, threads), i))
         == SharedAt(shared, i).Plus(ThreadsTotal(threads, i))
  {
    if threads != [] {
      var n := |threads| - 1;
      var before := AllSharedAfter(shared, threads[..n]);
      FlushConservesTotals(shared, threads[..n], i);
      FlushMovesTotals(before, threads[n], i);
      SameObjectsSameMoves(before, shared, threads[n]);
      assert AllLocalAfter(shared, threads)[..n] == AllLocalAfter(shared, threads[..n]);
    }
  }

  /** No method with a stats object keeps an unflushed invocation; time without one stays where it was. */
  lemma FlushLeavesNoInvocation(shared: seq<Slot>, threads: seq<Counters>, t: nat, i: nat)
    requires AllHaveArrays(threads) && t < |threads|
    requires i < |shared| && shared[i].Present?
    ensures LocalAt(AllLocalAfter(shared, threads)[t], i).invocations == 0
    ensures LocalAt(threads[t], i).invocations == 0 ==>
      LocalAt(AllLocalAfter(shared, threads)[t], i) == LocalAt(threads[t], i)
    ensures LocalAt(threads[t], i).invocations != 0 ==>
      LocalAt(AllLocalAfter(shared, threads)[t], i) == NOTHING
  {
    LocalSlotAfter(shared, threads[t], i);
  }

  lemma NothingMoves(shared: seq<Slot>, c: Counters)
    requires HasArrays(c) && forall i: nat :: !Moves(shared, c, i)
    ensures LocalAfter(shared, c) == c && SharedAfter(shared, c) == shared
  {
    forall k | 0 <= k < |c.invocations|
      ensures Totals(c.selfNanos[k], c.totalNanos[k], c.invocations[k]) == LocalAt(LocalAfter(shared, c), k)
    {
      LocalSlotAfter(shared, c, k);
    }
    SlotsMakeCounters(shared, c, c.selfNanos, c.totalNanos, c.invocations);
  }

  lemma {:induction false} NothingMovesTwice(shared: seq<Slot>, threads: seq<Counters>)
    requires AllHaveArrays(threads)
    requires forall t, i: nat :: 0 <= t < |threads| ==> !Moves(shared, threads[t], i)
    ensures AllSharedAfter(shared, threads) == shared
    ensures AllLocalAfter(shared, threads) == threads
  {
    hide Moves, LocalAfter, SharedAfter;
    forall t | 0 <= t < |threads| ensures LocalAfter(shared, threads[t]) == threads[t] {
      NothingMoves(shared, threads[t]);
    }
    if threads != [] {
      var n := |threads| - 1;
      NothingMovesTwice(shared, threads[..n]);
      NothingMoves(shared, threads[n]);
    }
  }

  /** Flushing again with nothing recorded in between changes nothing. */
  lemma FlushIsIdempotent(shared: seq<Slot>, threads: seq<Counters>)
    requires AllHaveArrays(threads)
    ensures
      var shared', threads' := AllSharedAfter(shared, threads), AllLocalAfter(shared, threads);
      AllSharedAfter(shared', threads') == shared' && AllLocalAfter(shared', threads') == threads'
  {
    var shared', threads' := AllSharedAfter(shared, threads), AllLocalAfter(shared, threads);
    forall t, i: nat | 0 <= t < |threads'| ensures !Moves(shared', threads'[t], i) {
      LocalSlotAfter(shared, threads[t], i);
    }
    NothingMovesTwice(shared', threads');
  }

  /** So a snapshot taken from a table that starts empty reports every invocation of every thread. */
  lemma SnapshotReportsEveryInvocation(shared: seq<Slot>, threads: seq<Counters>, i: nat)
    requires AllHaveArrays(threads)
    requires i < |shared| && shared[i] == Present(NOTHING)
    ensures SharedAt(AllSharedAfter(shared, threads), i).invocations == ThreadsTotal(threads, i).invocations
  {
    FlushConservesTotals(shared, threads, i);
    forall t | 0 <= t < |threads| ensures LocalAt(AllLocalAfter(shared, threads)[t], i).invocations == 0 {
      FlushLeavesNoInvocation(shared, threads, t, i);
    }
    NoInvocationsAnywhere(AllLocalAfter(shared, threads), i);
  }

  lemma {:induction false} NoInvocationsAnywhere(threads: seq<Counters>, i: nat)
    requires AllHaveArrays(threads)
    requires forall t :: 0 <= t < |threads| ==> LocalAt(threads[t], i).invocations == 0
    ensures ThreadsTotal(threads, i).invocations == 0
  {
    if threads != [] {
      NoInvocationsAnywhere(threads[..|threads| - 1], i);
    }
  }

  class MethodStats {
    var selfDurationNano: int
    var totalDurationNano: int
    var invocationCount: int

    constructor ()
      ensures Value() == NOTHING
    {
      selfDurationNano, totalDurationNano, invocationCount := 0, 0, 0;
    }

    function Value(): Totals
      reads this
    {
      Totals(selfDurationNano, totalDurationNano, invocationCount)
    }

    method Add(selfNano: int, totalNano: int, invocations: int)
      modifies this
      ensures Value() == old(Value()).Plus(Totals(selfNano, totalNano, invocations))
    {
      selfDurationNano := selfDurationNano + selfNano;
      totalDurationNano := totalDurationNano + totalNano;
      invocationCount := invocationCount + invocations;
    }

    method Clear()
      modifies this
      ensures Value() == NOTHING
    {
      selfDurationNano, totalDurationNano, invocationCount := 0, 0, 0;
    }
  }

  ghost function Objects(stats: array<MethodStats?>): set<MethodStats>
    reads stats
  {
    set i | 0 <= i < stats.Length && stats[i] != null :: stats[i]
  }

  ghost function SlotValue(stats: array<MethodStats?>, i: nat): Slot
    requires i < stats.Length
    reads stats, stats[i]
  {
    if stats[i] == null then Absent else Present(stats[i].Value())
  }

  /** The table as a value. */
  ghost function TableValue(stats: array<MethodStats?>): (r: seq<Slot>)
    reads stats, Objects(stats)
    ensures |r| == stats.Length
    ensures forall i :: 0 <= i < |r| ==> r[i] == SlotValue(stats, i)
  {
    seq(stats.Length, i requires 0 <= i < stats.Length reads stats, Objects(stats) => SlotValue(stats, i))
  }

  /** Every method has its own stats object. */
  ghost predicate ObjectsAreDistinct(stats: array<MethodStats?>)
    reads stats
  {
    forall i, j :: 0 <= i < j < stats.Length && stats[i] != null ==> stats[i] != stats[j]
  }

  /** Nothing of the table belongs to a thread's counters. */
  ghost predicate TableIsApart(stats: array<MethodStats?>, counters: LocalCounters)
    reads stats, counters
  {
    && ObjectsAreDistinct(stats) && stats !in counters.Repr
    && forall o :: o in Objects(stats) ==> o !in counters.Repr
  }

  method FlushLocalCounters(counters: LocalCounters, currentStats: array<MethodStats?>)
    requires counters.Valid() && TableIsApart(currentStats, counters)
    modifies Objects(currentStats), counters.selfDuration, counters.totalDuration, counters.invocationCount
    modifies counters`value
    ensures counters.Valid()
    ensures TableValue(currentStats) == SharedAfter(old(TableValue(currentStats)), old(counters.value))
    ensures counters.value == LocalAfter(old(TableValue(currentStats)), old(counters.value))
  {
    hide SharedAfter, LocalAfter;
    var tlSelf, tlTotal, tlInv := counters.selfDuration, counters.totalDuration, counters.invocationCount;
    ghost var table, c := TableValue(currentStats), counters.value;
    var i := 0;
    while i < tlInv.Length
      invariant 0 <= i <= tlInv.Length
      invariant forall k :: 0 <= k < i ==> Totals(tlSelf[k], tlTotal[k], tlInv[k]) == LocalAt(LocalAfter(table, c), k)
      invariant forall k :: i <= k < tlInv.Length ==> Totals(tlSelf[k], tlTotal[k], tlInv[k]) == LocalAt(c, k)
      invariant forall k :: 0 <= k < currentStats.Length ==>
        SlotValue(currentStats, k) == if k < i then SharedAfter(table, c)[k] else table[k]
    {
      if tlInv[i] != 0 && i < currentStats.Length && currentStats[i] != null {
        currentStats[i].Add(tlSelf[i], tlTotal[i], tlInv[i]);
        tlSelf[i], tlTotal[i], tlInv[i] := 0, 0, 0;
      }
      LocalSlotAfter(table, c, i);
      SharedSlotAfter(table, c, i);
      i := i + 1;
    }
    SlotsMakeCounters(table, c, tlSelf[..], tlTotal[..], tlInv[..]);
    forall k | tlInv.Length <= k < |table|
      ensures SharedAfter(table, c)[k] == table[k]
    {
      SharedSlotAfter(table, c, k);
    }
    assert TableValue(currentStats) == SharedAfter(table, c);
    counters.value := LocalAfter(table, c);
  }

  // ---- every thread

  ghost function Footprint(threads: seq<LocalCounters>): set<object>
    reads threads
  {
    set t, o | 0 <= t < |threads| && o in threads[t].Repr :: o
  }

  ghost predicate AreValid(threads: seq<LocalCounters>)
    reads threads, Footprint(threads)
  {
    forall t :: 0 <= t < |threads| ==> threads[t].Valid()
  }

  /** Every thread has its own counters, and the table is nobody's. */
  ghost predicate AreApart(threads: seq<LocalCounters>, stats: array<MethodStats?>)
    reads threads, stats
  {
    && ObjectsAreDistinct(stats) && (forall t :: 0 <= t < |threads| ==> TableIsApart(stats, threads[t]))
    && (forall t, u :: 0 <= t < u < |threads| ==> threads[t].Repr !! threads[u].Repr)
  }

  ghost function Values(threads: seq<LocalCounters>): (r: seq<Counters>)
    reads threads, Footprint(threads)
    requires AreValid(threads)
    ensures |r| == |threads| && AllHaveArrays(r)
    ensures forall t :: 0 <= t < |r| ==> r[t] == threads[t].value
  {
    var r := seq(|threads|, t requires 0 <= t < |threads| reads threads => threads[t].value);
    assert forall t :: 0 <= t < |threads| ==> threads[t].Valid() && r[t] == threads[t].value;
    r
  }

  method FlushThread(threads: seq<LocalCounters>, t: nat, currentStats: array<MethodStats?>)
    requires t < |threads| && AreValid(threads) && AreApart(threads, currentStats)
    modifies Objects(currentStats), Footprint(threads)
    ensures AreValid(threads) && AreApart(threads, currentStats)
    ensures Footprint(threads) == old(Footprint(threads)) && Objects(currentStats) == old(Objects(currentStats))
    ensures TableValue(currentStats) == SharedAfter(old(TableValue(currentStats)), old(Values(threads))[t])
    ensures Values(threads) ==
      old(Values(threads))[t := LocalAfter(old(TableValue(currentStats)), old(Values(threads))[t])]
  {
    hide SharedAfter, LocalAfter;
    FlushLocalCounters(threads[t], currentStats);
  }

  method FlushThreadLocalBuffers(threads: seq<LocalCounters>, currentStats: array<MethodStats?>)
    requires AreValid(threads) && AreApart(threads, currentStats)
    modifies Objects(currentStats), Footprint(threads)
    ensures AreValid(threads) && AreApart(threads, currentStats)
    ensures Footprint(threads) == old(Footprint(threads)) && Objects(currentStats) == old(Objects(currentStats))
    ensures TableValue(currentStats) == AllSharedAfter(old(TableValue(currentStats)), old(Values(threads)))
    ensures Values(threads) == AllLocalAfter(old(TableValue(currentStats)), old(Values(threads)))
  {
    hide AreValid, AreApart, Footprint, Objects, LocalAfter, SharedAfter;
    ghost var table, before := TableValue(currentStats), Values(threads);
    for t := 0 to |threads|
      invariant AreValid(threads) && AreApart(threads, currentStats)
      invariant Footprint(threads) == old(Footprint(threads)) && Objects(currentStats) == old(Objects(currentStats))
      invariant TableValue(currentStats) == AllSharedAfter(table, before[..t])
      invariant forall u :: 0 <= u < |threads| ==>
        Values(threads)[u] == if u < t then LocalAfter(table, before[u]) else before[u]
    {
      SameObjectsSameMoves(TableValue(currentStats), table, before[t]);
      FlushThread(threads, t, currentStats);
      assert before[..t + 1][..t] == before[..t];
    }
    assert before[..|before|] == before;
  }

  // ---- a reset

  /** The table once the methods that have an id are set back. */
  function TableCleared(shared: seq<Slot>, nextMethodId: nat): (r: seq<Slot>)
    ensures |r| == |shared|
  {
    seq(|shared|, i requires 0 <= i < |shared| =>
      if i < nextMethodId && shared[i].Present? then Present(NOTHING) else shared[i])
  }

  ghost function SharedAfterReset(shared: seq<Slot>, threads: seq<Counters>, nextMethodId: nat): seq<Slot>
    requires AllHaveArrays(threads)
  {
    TableCleared(AllSharedAfter(shared, threads), nextMethodId)
  }

  function LocalAfterReset(shared: seq<Slot>, c: Counters): (r: Counters)
    requires HasArrays(c)
    ensures HasArrays(r)
  {
    AfterCountersReset(c, LiveSlots(shared))
  }

  ghost function AllLocalAfterReset(shared: seq<Slot>, threads: seq<Counters>): (r: seq<Counters>)
    requires AllHaveArrays(threads)
    ensures |r| == |threads| && AllHaveArrays(r)
  {
    seq(|threads|, t requires 0 <= t < |threads| => LocalAfterReset(shared, threads[t]))
  }

  /**
   * After a reset the table holds nothing of a method, and a thread holds no call of it. It holds no time of it
   * either, exactly if it had counted a call since the last flush or had no time: time recorded after a flush, with
   * no new call, outlives the reset.
   */
  lemma ResetForgets(shared: seq<Slot>, threads: seq<Counters>, nextMethodId: nat, t: nat, i: nat)
    requires AllHaveArrays(threads) && t < |threads|
    requires i < |shared| && shared[i].Present? && i < nextMethodId
    ensures SharedAt(SharedAfterReset(shared, threads, nextMethodId), i) == NOTHING
    ensures
      var before, after := LocalAt(threads[t], i), LocalAt(AllLocalAfterReset(shared, threads)[t], i);
      && after.invocations == 0
      && (after == NOTHING <==> before.invocations != 0 || before == NOTHING)
      && (after != NOTHING ==> after == before)
  {
    hide Flushed;
    LocalSlotAfter(shared, threads[t], i);
    var c := Flushed(threads[t], LiveSlots(shared));
    assert LocalAt(CountersCleared(c), i) == LocalAt(c, i);
  }

  lemma SlotFlushed(c: Counters, live: set<int>, i: nat)
    requires HasArrays(c) && i < |c.invocations|
    ensures LocalAt(Flushed(c, live), i) == if IsFlushed(c, live, i) then NOTHING else LocalAt(c, i)
  {
  }

  /** A thread inside one timed call of m that began at `entered`, with these totals of m. */
  predicate InsideCall(s: State, m: nat, entered: int, totals: Totals) {
    && WellFormed(s) && s.recording && m in s.registered && m < |s.counters.invocations|
    && s.frames == [NewFrame(m, entered, true, false, true)]
    && s.counters.unsampledDepth == 0 && s.counters.sampledDepth == 1
    && LocalAt(s.counters, m) == totals
  }

  lemma CallEntered(s: State, m: nat, entered: int)
    requires Fresh(s) && TakesTimingSample(s) && m in s.registered
    ensures InsideCall(AfterMethodEnter(s, m, entered, 0), m, entered, Totals(0, 0, 1))
    ensures AfterMethodEnter(s, m, entered, 0).registered == s.registered
  {
    hide GrownLength;
    var counted := s.(counters := CountInvocation(s.counters, m));
    assert LocalAt(counted.counters, m) == Totals(0, 0, 1);
  }

  lemma CallLeft(s: State, m: nat, entered: int, left: int)
    requires InsideCall(s, m, entered, NOTHING) && 0 < entered <= left
    ensures
      var r := AfterExit(s, m, left);
      && WellFormed(r) && r.frames == [] && m < |r.counters.invocations|
      && LocalAt(r.counters, m) == Totals(left - entered, left - entered, 0)
  {
    hide Grown, GrownLength, EdgesBelow;
    assert !ExitIsUnsampled(s, m);
    assert s.frames[..0] == [];
  }

  /** A call that a client's poll falls into: its time is still there after the reset that starts the next session. */
  lemma TimeOutlivesReset(s: State, m: nat, entered: int, left: int, mode: bool)
    requires Fresh(s) && TakesTimingSample(s) && m in s.registered && 0 < entered <= left
    ensures
      var inCall := AfterMethodEnter(s, m, entered, 0);
      var polled := inCall.(counters := Flushed(inCall.counters, s.registered));
      var r := AfterReset(AfterExit(polled, m, left), mode);
      r.frames == [] && LocalAt(r.counters, m) == Totals(left - entered, left - entered, 0)
  {
    hide AfterMethodEnter, AfterExit;
    CallEntered(s, m, entered);
    var inCall := AfterMethodEnter(s, m, entered, 0);
    SlotFlushed(inCall.counters, s.registered, m);
    var polled := inCall.(counters := Flushed(inCall.counters, s.registered));
    CallLeft(polled, m, entered, left);
    var done := AfterExit(polled, m, left);
    SlotFlushed(done.counters, done.registered, m);
  }

  method ClearTable(currentStats: array<MethodStats?>, nextMethodId: nat)
    requires ObjectsAreDistinct(currentStats)
    modifies Objects(currentStats)
    ensures TableValue(currentStats) == TableCleared(old(TableValue(currentStats)), nextMethodId)
  {
    ghost var table := TableValue(currentStats);
    var max := if nextMethodId < currentStats.Length then nextMethodId else currentStats.Length;
    for i := 0 to max
      invariant forall k :: 0 <= k < currentStats.Length ==>
        SlotValue(currentStats, k) == if k < i then TableCleared(table, nextMethodId)[k] else table[k]
    {
      if currentStats[i] != null {
        currentStats[i].Clear();
      }
    }
    assert TableValue(currentStats) == TableCleared(table, nextMethodId);
  }

  method ClearCounters(threads: seq<LocalCounters>, t: nat, currentStats: array<MethodStats?>)
    requires t < |threads| && AreValid(threads) && AreApart(threads, currentStats)
    modifies Footprint(threads)
    ensures AreValid(threads) && AreApart(threads, currentStats) && Footprint(threads) == old(Footprint(threads))
    ensures Values(threads) == old(Values(threads))[t := CountersCleared(old(Values(threads))[t])]
  {
    threads[t].Clear();
  }

  method ClearAllCounters(threads: seq<LocalCounters>, currentStats: array<MethodStats?>)
    requires AreValid(threads) && AreApart(threads, currentStats)
    modifies Footprint(threads)
    ensures AreValid(threads) && AreApart(threads, currentStats) && Footprint(threads) == old(Footprint(threads))
    ensures forall t :: 0 <= t < |threads| ==> Values(threads)[t] == CountersCleared(old(Values(threads))[t])
  {
    hide AreValid, AreApart, Footprint;
    ghost var before := Values(threads);
    for t := 0 to |threads|
      invariant AreValid(threads) && AreApart(threads, currentStats) && Footprint(threads) == old(Footprint(threads))
      invariant forall u :: 0 <= u < |threads| ==>
        Values(threads)[u] == if u < t then CountersCleared(before[u]) else before[u]
    {
      ClearCounters(threads, t, currentStats);
    }
  }

  /** What a reset does to the table and to every thread's counters. */
  method ResetCounters(threads: seq<LocalCounters>, currentStats: array<MethodStats?>, nextMethodId: nat)
    requires AreValid(threads) && AreApart(threads, currentStats)
    modifies Objects(currentStats), Footprint(threads)
    ensures AreValid(threads) && AreApart(threads, currentStats)
    ensures Footprint(threads) == old(Footprint(threads))
    ensures TableValue(currentStats) ==
      SharedAfterReset(old(TableValue(currentStats)), old(Values(threads)), nextMethodId)
    ensures Values(threads) == AllLocalAfterReset(old(TableValue(currentStats)), old(Values(threads)))
  {
    hide AllSharedAfter, Flushed, TableCleared, LiveSlots, RateCleared;
    ghost var table, before := TableValue(currentStats), Values(threads);
    FlushThreadLocalBuffers(threads, currentStats);
    ClearFlushed(threads, currentStats, nextMethodId);
    assert Values(threads) == AllLocalAfterReset(table, before);
  }

  method ClearFlushed(threads: seq<LocalCounters>, currentStats: array<MethodStats?>, nextMethodId: nat)
    requires AreValid(threads) && AreApart(threads, currentStats)
    modifies Objects(currentStats), Footprint(threads)
    ensures AreValid(threads) && AreApart(threads, currentStats) && Footprint(threads) == old(Footprint(threads))
    ensures TableValue(currentStats) == TableCleared(old(TableValue(currentStats)), nextMethodId)
    ensures forall t :: 0 <= t < |threads| ==> Values(threads)[t] == CountersCleared(old(Values(threads))[t])
  {
    ClearTable(currentStats, nextMethodId);
    ClearAllCounters(threads, currentStats);
  }

  /** The recorder of one of the threads; its stack is no part of what a reset touches. */
  ghost predicate IsRecorderOf(recorder: Recorder, threads: seq<LocalCounters>, stats: array<MethodStats?>)
    reads recorder, recorder.stack, threads, stats
  {
    && recorder.counters in threads && recorder !in Footprint(threads)
    && recorder.stack.Repr !! Footprint(threads)
    && forall o :: o in Objects(stats) ==> o !in recorder.stack.Repr
  }

  method ResetSwitches(recorder: Recorder, threads: seq<LocalCounters>, currentStats: array<MethodStats?>,
                       defaultSamplingMode: bool)
    requires recorder.Valid() && AreValid(threads) && AreApart(threads, currentStats)
    requires recorder !in Footprint(threads)
    modifies recorder`samplingMode, recorder`edgeStats
    ensures AreValid(threads) && AreApart(threads, currentStats)
    ensures TableValue(currentStats) == old(TableValue(currentStats)) && Values(threads) == old(Values(threads))
    ensures recorder.Valid()
    ensures recorder.Value() == old(recorder.Value()).(samplingMode := defaultSamplingMode, edges := map[])
  {
    recorder.samplingMode := defaultSamplingMode;
    recorder.edgeStats := map[];
    assert forall t :: 0 <= t < |threads| ==> threads[t].Valid() && threads[t].value == old(threads[t].value);
  }

  lemma InFootprint(threads: seq<LocalCounters>, t: nat)
    requires t < |threads|
    ensures threads[t].Repr <= Footprint(threads)
  {
    forall o | o in threads[t].Repr ensures o in Footprint(threads) {
    }
  }

  /** The same reset, as the recorder of one of the threads sees it. */
  method ResetThreads(recorder: Recorder, threads: seq<LocalCounters>, currentStats: array<MethodStats?>,
                      nextMethodId: nat)
    requires recorder.Valid() && AreValid(threads) && AreApart(threads, currentStats)
    requires IsRecorderOf(recorder, threads, currentStats)
    requires recorder.registered == LiveSlots(TableValue(currentStats))
    modifies Objects(currentStats), Footprint(threads)
    ensures AreValid(threads) && AreApart(threads, currentStats) && Footprint(threads) == old(Footprint(threads))
    ensures TableValue(currentStats) ==
      SharedAfterReset(old(TableValue(currentStats)), old(Values(threads)), nextMethodId)
    ensures Values(threads) == AllLocalAfterReset(old(TableValue(currentStats)), old(Values(threads)))
    ensures recorder.Valid()
    ensures recorder.Value() ==
      var s := old(recorder.Value());
      s.(counters := AfterCountersReset(s.counters, s.registered))
  {
    hide AllSharedAfter, AfterCountersReset, LiveSlots, SharedAfterReset, AreApart, Footprint, Objects, TableValue;
    ghost var t := ThreadOf(recorder, threads);
    ResetCounters(threads, currentStats, nextMethodId);
    InFootprint(threads, t);
    assert recorder.counters.value == Values(threads)[t];
  }

  method Reset(recorder: Recorder, threads: seq<LocalCounters>, currentStats: array<MethodStats?>, nextMethodId: nat,
               defaultSamplingMode: bool)
    requires recorder.Valid() && AreValid(threads) && AreApart(threads, currentStats)
    requires IsRecorderOf(recorder, threads, currentStats)
    requires recorder.registered == LiveSlots(TableValue(currentStats))
    modifies recorder`samplingMode, recorder`edgeStats, Objects(currentStats), Footprint(threads)
    ensures AreValid(threads) && AreApart(threads, currentStats)
    ensures TableValue(currentStats) ==
      SharedAfterReset(old(TableValue(currentStats)), old(Values(threads)), nextMethodId)
    ensures Values(threads) == AllLocalAfterReset(old(TableValue(currentStats)), old(Values(threads)))
    ensures recorder.Valid() && recorder.Value() == AfterReset(old(recorder.Value()), defaultSamplingMode)
  {
    hide AreValid, AreApart, Footprint, Objects, SharedAfterReset, AllLocalAfterReset, AfterCountersReset, LiveSlots;
    ResetThreads(recorder, threads, currentStats, nextMethodId);
    ResetSwitches(recorder, threads, currentStats, defaultSamplingMode);
  }

  ghost function ThreadOf(recorder: Recorder, threads: seq<LocalCounters>): (t: nat)
    reads recorder
    requires recorder.counters in threads
    ensures t < |threads| && threads[t] == recorder.counters
  {
    var t :| 0 <= t < |threads| && threads[t] == recorder.counters;
    t
  }
}
