/** How an allocation boundary is found again when it is left, whatever lies on top of it. */
module RecorderTraces {
  import opened MethodStacks
  import opened RecorderModel
  import opened RecorderDepth
  import opened RecorderJdbc

  /** The frame of the method that is nearest to the top. */
  predicate IsInnermost(frames: seq<Frame>, methodId: int, k: int) {
    && 0 <= k < |frames| && frames[k].methodId == methodId
    && forall j :: k < j < |frames| ==> frames[j].methodId != methodId
  }

  predicate HasFrame(frames: seq<Frame>, methodId: int) {
    exists k :: 0 <= k < |frames| && frames[k].methodId == methodId
  }

  /**
   * Leaving a boundary takes its innermost frame off and everything on top of that; if it has no frame, the top frame
   * goes all the same. Nothing else changes.
   */
  lemma TraceExitFindsItsFrame(s: State, methodId: int)
    requires WellFormed(s) && s.recording
    ensures
      var r := Step(s, ExitTrace(methodId));
      && r == s.(frames := r.frames)
      && (forall k :: IsInnermost(s.frames, methodId, k) ==> r.frames == s.frames[..k])
      && (!HasFrame(s.frames, methodId) ==> r.frames == if s.frames == [] then [] else s.frames[..|s.frames| - 1])
  {
    if s.frames != [] {
      var n := |s.frames| - 1;
      var rest := s.frames[..n];
      forall k | IsInnermost(s.frames, methodId, k) ensures Step(s, ExitTrace(methodId)).frames == s.frames[..k] {
        if k < n {
          assert rest[k].methodId == methodId;
          assert forall j :: k < j < n ==> rest[j].methodId != methodId;
          assert rest[..k] == s.frames[..k];
        }
      }
      if !HasFrame(s.frames, methodId) {
        assert forall k :: 0 <= k < n ==> rest[k].methodId == s.frames[k].methodId;
      }
    }
  }

  lemma TraceEnterMarks(s: State, methodId: int, boundary: bool)
    requires WellFormed(s) && s.recording && IsRegistered(s, methodId)
    ensures
      var r := Step(s, EnterTrace(methodId, boundary));
      && |r.frames| == |s.frames| + 1 && r.frames[..|s.frames|] == s.frames && r == s.(frames := r.frames)
      && r.frames[|s.frames|].methodId == methodId && r.frames[|s.frames|].allocationBoundary == boundary
  {
  }

  predicate NotAmong(calls: seq<Made>, methodId: int) {
    forall k :: 0 <= k < |calls| ==> calls[k].jdbcId != methodId
  }

  /** On top of the boundary's frame lie only frames that JDBC calls left behind. */
  lemma BoundaryIsInnermost(s: State, r: State, calls: seq<Made>, methodId: int, n: nat)
    requires s.counters.unsampledDepth >= 0 && s.counters.sampledDepth >= 0
    requires |s.frames| == n + 1 && s.frames[n].methodId == methodId && NotAmong(calls, methodId)
    requires RowLaw(s, r, calls)
    ensures IsInnermost(r.frames, methodId, n) && SameExceptChildTime(r.frames[..n], s.frames[..n])
  {
    forall k | 0 <= k <= n
      ensures r.frames[k].methodId == s.frames[k].methodId && r.frames[k].startNano == s.frames[k].startNano
    {
      assert r.frames[..n + 1][k] == r.frames[k];
    }
  }

  /**
   * A boundary method that makes JDBC calls in a row gives the stack back when it is left, also where those calls
   * strand frames: the boundary's exit takes them off together with its own.
   */
  lemma BoundaryCleansUp(s: State, traced: set<int>, methodId: int, boundary: bool, calls: seq<Made>)
    requires WellFormed(s) && s.recording && IsRegistered(s, methodId)
    requires s.counters.unsampledDepth >= 0 && s.counters.sampledDepth >= 0
    requires AreBodies(s, traced, calls) && NotAmong(calls, methodId)
    ensures
      var r := Run(s, [EnterTrace(methodId, boundary)] + JdbcCalls(calls) + [ExitTrace(methodId)]);
      SameExceptChildTime(r.frames, s.frames)
  {
    hide Step, Run, IsBody, JdbcCalls, RowLaw, IsInnermost, NotAmong;
    var enter, leave := EnterTrace(methodId, boundary), ExitTrace(methodId);
    var e := Step(s, enter);
    TraceEnterMarks(s, methodId, boundary);
    SameBodies(s, e, traced, calls);
    JdbcCallsInARow(e, traced, calls);
    var inside := Run(e, JdbcCalls(calls));
    BoundaryIsInnermost(e, inside, calls, methodId, |s.frames|);
    RowRecords(e, inside, calls);
    TraceExitFindsItsFrame(inside, methodId);
    RunParts(s, enter, JdbcCalls(calls), leave);
  }

  lemma SameBodies(s: State, e: State, traced: set<int>, calls: seq<Made>)
    requires AreBodies(s, traced, calls) && e.registered == s.registered
    ensures AreBodies(e, traced, calls)
  {
  }

  lemma RowRecords(s: State, r: State, calls: seq<Made>)
    requires s.counters.unsampledDepth >= 0 && s.counters.sampledDepth >= 0 && RowLaw(s, r, calls)
    ensures r.recording
  {
  }

  lemma RunParts(s: State, first: Op, middle: seq<Op>, last: Op)
    requires WellFormed(s)
    ensures Run(s, [first] + middle + [last]) == Step(Run(Step(s, first), middle), last)
  {
    RunConcat(s, [first] + middle, [last]);
    RunConcat(s, [first], middle);
    RunOfOne(s, first);
    RunOfOne(Run(s, [first] + middle), last);
  }

  lemma RunOfOne(s: State, op: Op)
    requires WellFormed(s)
    ensures Run(s, [op]) == Step(s, op)
  {
    hide Step;
    assert [op][..0] == [];
  }
}
