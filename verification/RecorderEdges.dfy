/** What the call edges count when they are tracked. */
module RecorderEdges {
  import opened RecorderModel
  import opened RecorderDepth
  import opened RecorderTime

  predicate IsInt32(id: int) {
    -0x8000_0000 <= id < 0x8000_0000
  }

  /** Ids are 32-bit numbers, and nobody touches the tracking switch. */
  predicate TracksThroughout(ops: seq<Op>) {
    forall k :: 0 <= k < |ops| ==> !ops[k].SetEdgeTracking? && IsInt32(IdOf(ops[k]))
  }

  function IdOf(op: Op): int {
    match op
    case EnterMethod(m, _, _) => m
    case Exit(m, _) => m
    case EnterJdbc(m, _) => m
    case EnterTrace(m, _) => m
    case ExitTrace(m) => m
    case _ => 0
  }

  /** An exit of a call of b made directly from a call of a. */
  predicate EndsDirectCall(open: seq<Call>, op: Op, a: int, b: int) {
    op.Exit? && op.methodId == b && |open| >= 2 && open[|open| - 2].methodId == a
  }

  /** From the run alone: how many calls of b made directly from a have ended, and how long they took. */
  function DirectCalls(ops: seq<Op>, a: int, b: int): EdgeStats {
    if ops == [] then EdgeStats(0, 0)
    else
      var open, op := OpenCalls(ops[..|ops| - 1]), ops[|ops| - 1];
      var before := DirectCalls(ops[..|ops| - 1], a, b);
      if EndsDirectCall(open, op, a, b) then
        EdgeStats(before.callCount + 1, before.totalNanos + op.nowNano - open[|open| - 1].enteredAt)
      else before
  }

  function EdgeAt(edges: map<int, EdgeStats>, key: int): EdgeStats {
    if key in edges then edges[key] else EdgeStats(0, 0)
  }

  lemma KeysOfPairs(a: int, b: int, c: int, d: int)
    requires IsInt32(a) && IsInt32(b) && IsInt32(c) && IsInt32(d) && EdgeKey(a, b) == EdgeKey(c, d)
    ensures a == c && b == d
  {
    hide EdgeKey, EdgeFrom, EdgeTo;
    EdgeKeyRoundTrip(a, b);
    EdgeKeyRoundTrip(c, d);
  }

  predicate OpenIds32(open: seq<Call>) {
    forall k :: 0 <= k < |open| ==> IsInt32(open[k].methodId)
  }

  lemma {:induction false} OpenCallsHaveIds32(ops: seq<Op>)
    requires TracksThroughout(ops)
    ensures OpenIds32(OpenCalls(ops))
  {
    if ops != [] {
      OpenCallsHaveIds32(ops[..|ops| - 1]);
      assert IsInt32(IdOf(ops[|ops| - 1]));
    }
  }

  lemma OnlyExitsTouchEdges(s: State, op: Op)
    requires WellFormed(s) && !op.SetEdgeTracking?
    ensures Step(s, op).edgeTracking == s.edgeTracking
    ensures !op.Exit? ==> Step(s, op).edges == s.edges
  {
    hide CountInvocation, AddDurations;
  }

  lemma RecordedExitAddsEdge(s: State, op: Op)
    requires WellFormed(s) && RecordsDuration(s, op)
    ensures
      var n := |s.frames| - 1;
      Step(s, op).edges == EdgesBelow(s.edges, s.edgeTracking, s.frames[..n], op.methodId, Duration(s.frames[n], op.nowNano))
  {
    hide AddDurations, EdgesBelow;
  }

  lemma ExitCountsEdge(s: State, open: seq<Call>, op: Op, a: int, b: int)
    requires WellFormed(s) && s.edgeTracking && RecordsDuration(s, op) && Mirrors(s.frames, open)
    requires Duration(s.frames[|s.frames| - 1], op.nowNano) == op.nowNano - open[|open| - 1].enteredAt
    requires OpenIds32(open) && IsInt32(op.methodId) && IsInt32(a) && IsInt32(b)
    ensures
      var before, after := EdgeAt(s.edges, EdgeKey(a, b)), EdgeAt(Step(s, op).edges, EdgeKey(a, b));
      after == if EndsDirectCall(open, op, a, b)
               then EdgeStats(before.callCount + 1, before.totalNanos + op.nowNano - open[|open| - 1].enteredAt)
               else before
  {
    hide Step, EdgeKey, Duration;
    RecordedExitAddsEdge(s, op);
    if |open| >= 2 {
      var caller := open[|open| - 2].methodId;
      assert s.frames[|open| - 2].methodId == caller;
      if EdgeKey(caller, op.methodId) == EdgeKey(a, b) {
        KeysOfPairs(caller, op.methodId, a, b);
      }
    }
  }

  /**
   * While edges are tracked and every enter is timed, the edge from a to b carries exactly the ended calls of b made
   * directly from a, with their inclusive times.
   */
  lemma {:induction false} EdgesAreExactWhenTimed(s: State, traced: set<int>, ops: seq<Op>, start: int, a: int, b: int)
    requires Fresh(s) && s.edgeTracking && s.edges == map[] && IsInt32(a) && IsInt32(b)
    requires Nested(s.registered, traced, ops) && AlwaysTimed(s, ops) && MonotoneClock(ops, start) && TracksThroughout(ops)
    ensures Run(s, ops).edgeTracking
    ensures EdgeAt(Run(s, ops).edges, EdgeKey(a, b)) == DirectCalls(ops, a, b)
  {
    hide Step, EdgeKey, MirrorInvariant, TimedWhereProbed, Admissible, EdgeAt, Mirrors, RecordsDuration, Duration;
    if ops == [] {
      NoEdgesYet(a, b);
    } else {
      var prefix, op := ops[..|ops| - 1], ops[|ops| - 1];
      var before, open := Run(s, prefix), OpenCalls(prefix);
      EdgesAreExactWhenTimed(s, traced, prefix, start, a, b);
      OpenCallsHaveIds32(prefix);
      OnlyExitsTouchEdges(before, op);
      TotalsAreExactWhenTimed(s, traced, prefix, start, 0);
      TimedRunMirrorsCalls(s, traced, prefix);
      StepKeepsTimedFrames(before, s.registered, traced, open, op);
      assert IsInt32(IdOf(op));
      if op.Exit? {
        ExitCountsEdge(before, open, op, a, b);
      }
    }
  }

  lemma NoEdgesYet(a: int, b: int)
    ensures EdgeAt(map[], EdgeKey(a, b)) == EdgeStats(0, 0)
  {
  }
}
