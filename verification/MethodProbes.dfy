/** Exactly which probes a rewritten method makes, told from the run of the original one. */
module MethodProbes {
  import Sequences
  import opened Options
  import opened Bytecode
  import opened Instrumentation
  import opened InstrumentationProofs

  // ---- what each instruction is to report

  predicate StartsWithOneOf(s: string, prefixes: seq<string>) {
    exists k :: 0 <= k < |prefixes| && prefixes[k] <= s
  }

  /** The database API and the drivers. */
  predicate IsDatabaseClass(owner: string) {
    StartsWithOneOf(owner, ["java/sql/", "javax/sql/", "org/hsqldb/", "org/postgresql/", "com/mysql/",
                            "com/microsoft/sqlserver/", "oracle/jdbc/", "org/mariadb/jdbc/", "com/ibm/db2/"])
  }

  /** Runs an SQL text it is given. */
  predicate RunsText(i: Instr) {
    && i.Invoke? && IsDatabaseClass(i.owner) && "(Ljava/lang/String;" <= i.descriptor
    && i.name in ["execute", "executeQuery", "executeUpdate", "executeLargeUpdate", "addBatch"]
  }

  /** Makes a statement of an SQL text. */
  predicate PreparesText(i: Instr) {
    && i.Invoke? && IsDatabaseClass(i.owner) && "(Ljava/lang/String;" <= i.descriptor
    && i.descriptor[|i.descriptor| - 1] == ';' && i.name in ["prepareStatement", "prepareCall"]
  }

  /** Runs a statement that was prepared. */
  predicate RunsPrepared(i: Instr) {
    && i.Invoke? && IsDatabaseClass(i.owner) && "()" <= i.descriptor
    && i.name in ["execute", "executeQuery", "executeUpdate", "executeLargeUpdate", "executeBatch", "executeLargeBatch"]
  }

  /** Any other call of an interface whose calls are timed. */
  predicate IsTimedApi(i: Instr) {
    i.Invoke? && StartsWithOneOf(i.owner, ["java/sql/", "javax/sql/", "javax/persistence/", "javax/naming/"])
  }

  /** A class name with its slashes as dots. */
  function Dotted(s: string): string {
    if s == "" then "" else Dotted(s[..|s| - 1]) + (if s[|s| - 1] == '/' then "." else [s[|s| - 1]])
  }

  function TopOf(st: State): Value {
    if st.stack == [] then Null else st.stack[|st.stack| - 1]
  }

  /** The probes of one instruction of the original body, from the states before and after it. */
  function Expected(cfg: Config, st: State, i: Instr, after: State, waiting: seq<nat>): seq<ProbeCall> {
    if i.Invoke? && i.opcode.InvokeSpecial? && i.name == "<init>" && waiting != [] then
      var newest := waiting[|waiting| - 1];
      if newest < |st.heap| then [ProbeCall(ObjectAllocatedAt, [Obj(newest), Text(st.heap[newest]), Num(cfg.methodId)])]
      else []
    else if i.ANewArray? then
      [ProbeCall(ObjectAllocatedAt, [Obj(|st.heap|), Text("[L" + i.elementType + ";"), Num(cfg.methodId)])]
    else if i.NewArray? || i.MultiANewArray? then
      if |st.heap| < |after.heap| then
        [ProbeCall(ObjectAllocatedAt, [Obj(|st.heap|), Text(after.heap[|st.heap|]), Num(cfg.methodId)])]
      else []
    else if RunsText(i) then
      [ProbeCall(RecordSqlEnter, [TopOf(st)]), ProbeCall(RecordSqlExit, [TopOf(st)])]
    else if PreparesText(i) then
      [ProbeCall(RecordSqlEnter, [TopOf(st)]), ProbeCall(AssociatePreparedStatement, [TopOf(after), TopOf(st)]),
       ProbeCall(RecordSqlExit, [TopOf(st)])]
    else if RunsPrepared(i) then
      [ProbeCall(EnterPrepared, [TopOf(st)]), ProbeCall(ExitPrepared, [])]
    else if cfg.jdbcProbeEnabled && IsTimedApi(i) then
      var named := [Text(Dotted(i.owner)), Text(i.name), Text(i.descriptor)];
      [ProbeCall(RecordJdbcEnter, named), ProbeCall(RecordJdbcExit, named)]
    else []
  }

  /** The probes of a whole body: those of its instructions, one after the other. */
  function ExpectedOfRun(cfg: Config, st: State, code: seq<Instr>, waiting: seq<nat>, w: World): seq<ProbeCall>
    decreases code
  {
    if code == [] || Step(st, code[0], w).None? then []
    else
      var next := Step(st, code[0], w).value;
      Expected(cfg, st, code[0], next, waiting)
      + ExpectedOfRun(cfg, next, code[1..], WaitingAfter(st, code[0], waiting), w)
  }

  // ---- the same recognition

  lemma SameDatabase(owner: string)
    ensures IsDatabaseClass(owner) <==> IsJdbcOwner(owner)
  {
    var prefixes := ["java/sql/", "javax/sql/", "org/hsqldb/", "org/postgresql/", "com/mysql/",
                     "com/microsoft/sqlserver/", "oracle/jdbc/", "org/mariadb/jdbc/", "com/ibm/db2/"];
    if IsJdbcOwner(owner) {
      assert exists k :: 0 <= k < |prefixes| && prefixes[k] <= owner by {
        assert prefixes[0] <= owner || prefixes[1] <= owner || prefixes[2] <= owner || prefixes[3] <= owner
          || prefixes[4] <= owner || prefixes[5] <= owner || prefixes[6] <= owner || prefixes[7] <= owner
          || prefixes[8] <= owner;
      }
    }
  }

  lemma SameApi(owner: string)
    ensures StartsWithOneOf(owner, ["java/sql/", "javax/sql/", "javax/persistence/", "javax/naming/"])
      <==> IsApiHotSpot(owner)
  {
    var prefixes := ["java/sql/", "javax/sql/", "javax/persistence/", "javax/naming/"];
    if IsApiHotSpot(owner) {
      assert prefixes[0] <= owner || prefixes[1] <= owner || prefixes[2] <= owner || prefixes[3] <= owner;
    }
  }

  lemma SameCalls(i: Instr)
    requires i.Invoke?
    ensures RunsText(i) <==> IsJdbcOwner(i.owner) && IsDirectSqlCall(i.name, i.descriptor)
    ensures PreparesText(i) <==> IsJdbcOwner(i.owner) && IsPrepareSqlCall(i.name, i.descriptor)
    ensures RunsPrepared(i) <==> IsJdbcOwner(i.owner) && IsPreparedSqlExecution(i.name, i.descriptor)
    ensures IsTimedApi(i) <==> IsApiHotSpot(i.owner)
  {
    hide IsDatabaseClass, IsJdbcOwner, IsApiHotSpot, StartsWithOneOf;
    SameDatabase(i.owner);
    SameApi(i.owner);
    LastIsSemicolon(i.descriptor);
    assert "(" + STRING_TYPE == "(Ljava/lang/String;";
  }

  lemma LastIsSemicolon(s: string)
    ensures Sequences.EndsWith(s, ";") <==> s != "" && s[|s| - 1] == ';'
  {
    if s != "" {
      assert s[|s| - 1..] == [s[|s| - 1]];
    }
  }

  lemma {:induction false} DottedIsDotName(s: string)
    ensures Dotted(s) == DotName(s)
  {
    if s != "" {
      DottedIsDotName(s[..|s| - 1]);
      assert DotName(s) == DotName(s[..|s| - 1]) + [DotName(s)[|s| - 1]];
    }
  }

  // ---- one instruction

  /** What the rewriting of one instruction is to add to the probes. */
  ghost predicate Adds(cfg: Config, a: State, a': State, b: State, i: Instr, pass: Pass, waiting: seq<nat>, w: World) {
    var out := Exec(b, RewriteInstr(cfg, i, pass).code, w);
    out.Some? && out.value.probes == b.probes + Expected(cfg, a, i, a', waiting)
  }

  lemma ArrayAdds(cfg: Config, a: State, a': State, b: State, i: Instr, pass: Pass, waiting: seq<nat>, base: nat,
                  w: World)
    requires Before(a, a', b, i, pass, waiting, base, w)
    requires i.ANewArray? || i.NewArray? || i.MultiANewArray?
    ensures Adds(cfg, a, a', b, i, pass, waiting, w)
  {
    OriginalStepAgrees(a, a', b, i, base, w);
    var b1 := Step(b, i, w).value;
    var reported := match i
      case ANewArray(e) => "[L" + e + ";"
      case NewArray(o) => PrimitiveArrayType(o)
      case MultiANewArray(t, _) => t
      case _ => "";
    assert b1.stack[|b1.stack| - 1] == Obj(|b.heap|);
    ArrayType(a, a', i, w);
    ExecOne(b, i, w);
    RecordAllocationRuns(b1, cfg, reported, w);
    ExecThen(b, [i], b1, RecordAllocation(cfg, reported), w);
  }

  lemma ArrayType(a: State, a': State, i: Instr, w: World)
    requires Step(a, i, w) == Some(a')
    ensures i.NewArray? ==> |a.heap| < |a'.heap| && a'.heap[|a.heap|] == PrimitiveArrayType(i.operand)
    ensures i.MultiANewArray? ==> |a.heap| < |a'.heap| && a'.heap[|a.heap|] == i.arrayType
  {
  }

  lemma ConstructorAdds(cfg: Config, a: State, a': State, b: State, i: Instr, pass: Pass, waiting: seq<nat>, base: nat,
                        w: World)
    requires Before(a, a', b, i, pass, waiting, base, w)
    requires IsConstructorCall(i) && waiting != []
    ensures Adds(cfg, a, a', b, i, pass, waiting, w)
  {
    OriginalStepAgrees(a, a', b, i, base, w);
    var b1, newest := Step(b, i, w).value, waiting[|waiting| - 1];
    var allocatedType := pass.pending[|pass.pending| - 1];
    assert a.heap[newest] == allocatedType;
    ConstructorLeavesTheObject(b, i, newest, w);
    ExecOne(b, i, w);
    RecordAllocationRuns(b1, cfg, allocatedType, w);
    ExecThen(b, [i], b1, RecordAllocation(cfg, allocatedType), w);
  }

  lemma CopiedAdds(cfg: Config, a: State, a': State, b: State, i: Instr, pass: Pass, waiting: seq<nat>, base: nat,
                   w: World)
    requires Before(a, a', b, i, pass, waiting, base, w)
    requires RewriteInstr(cfg, i, pass).code == [i] && Expected(cfg, a, i, a', waiting) == []
    ensures Adds(cfg, a, a', b, i, pass, waiting, w)
  {
    hide RewriteInstr, Expected, Step, PendingMatches, ShapedStep;
    OriginalStepAgrees(a, a', b, i, base, w);
    ExecOne(b, i, w);
  }

  /** The call, made in the rewritten run. */
  lemma CallAgrees(a: State, a': State, b: State, i: Instr, base: nat, w: World)
    requires Agree(a, b, base) && IsOriginal(i, base) && Step(a, i, w) == Some(a') && i.Invoke?
    ensures Step(b, i, w).Some? && Agree(a', Step(b, i, w).value, base) && b.stack == a.stack
  {
    OriginalStepAgrees(a, a', b, i, base, w);
  }

  lemma SqlAdds(cfg: Config, a: State, a': State, b: State, i: Instr, pass: Pass, waiting: seq<nat>, base: nat, w: World)
    requires Before(a, a', b, i, pass, waiting, base, w) && i.Invoke? && !(IsConstructorCall(i) && waiting != [])
    requires RunsText(i)
    ensures Adds(cfg, a, a', b, i, pass, waiting, w)
  {
    hide Exec, Step, Parse, IsJdbcOwner, DirectSql, RunsText, PreparesText, RunsPrepared, IsTimedApi;
    SameCalls(i);
    CallAgrees(a, a', b, i, base, w);
    DirectSqlRuns(b, i, pass.next, w);
  }

  lemma PrepareAdds(cfg: Config, a: State, a': State, b: State, i: Instr, pass: Pass, waiting: seq<nat>, base: nat,
                    w: World)
    requires Before(a, a', b, i, pass, waiting, base, w) && i.Invoke? && !(IsConstructorCall(i) && waiting != [])
    requires !RunsText(i) && PreparesText(i)
    ensures Adds(cfg, a, a', b, i, pass, waiting, w)
  {
    hide Exec, Step, Parse, IsJdbcOwner, PrepareSql, RunsText, PreparesText, RunsPrepared, IsTimedApi;
    SameCalls(i);
    CallAgrees(a, a', b, i, base, w);
    PrepareSqlRuns(b, i, pass.next, w);
    var v, statement := TopOf(a), TopOf(a');
    assert [ProbeCall(RecordSqlEnter, [v])]
        + [ProbeCall(AssociatePreparedStatement, [statement, v]), ProbeCall(RecordSqlExit, [v])]
        == [ProbeCall(RecordSqlEnter, [v]), ProbeCall(AssociatePreparedStatement, [statement, v]),
            ProbeCall(RecordSqlExit, [v])];
  }

  lemma ExecutionAdds(cfg: Config, a: State, a': State, b: State, i: Instr, pass: Pass, waiting: seq<nat>, base: nat,
                      w: World)
    requires Before(a, a', b, i, pass, waiting, base, w) && i.Invoke? && !(IsConstructorCall(i) && waiting != [])
    requires !RunsText(i) && !PreparesText(i) && RunsPrepared(i)
    ensures Adds(cfg, a, a', b, i, pass, waiting, w)
  {
    hide Exec, Step, Parse, IsJdbcOwner, PreparedExecution, RunsText, PreparesText, RunsPrepared, IsTimedApi;
    SameCalls(i);
    CallAgrees(a, a', b, i, base, w);
    PreparedExecutionRuns(b, i, pass.next, w);
  }

  lemma ApiAdds(cfg: Config, a: State, a': State, b: State, i: Instr, pass: Pass, waiting: seq<nat>, base: nat, w: World)
    requires Before(a, a', b, i, pass, waiting, base, w) && i.Invoke? && !(IsConstructorCall(i) && waiting != [])
    requires !RunsText(i) && !PreparesText(i) && !RunsPrepared(i) && cfg.jdbcProbeEnabled && IsTimedApi(i)
    ensures Adds(cfg, a, a', b, i, pass, waiting, w)
  {
    hide Exec, Step, Parse, IsJdbcOwner, IsApiHotSpot, JdbcCall, RunsText, PreparesText, RunsPrepared, IsTimedApi, Dotted,
      DotName;
    SameCalls(i);
    DottedIsDotName(i.owner);
    CallAgrees(a, a', b, i, base, w);
    JdbcCallRuns(b, i, w);
  }

  lemma PlainCallAdds(cfg: Config, a: State, a': State, b: State, i: Instr, pass: Pass, waiting: seq<nat>, base: nat,
                      w: World)
    requires Before(a, a', b, i, pass, waiting, base, w) && i.Invoke? && !(IsConstructorCall(i) && waiting != [])
    requires !RunsText(i) && !PreparesText(i) && !RunsPrepared(i) && !(cfg.jdbcProbeEnabled && IsTimedApi(i))
    ensures Adds(cfg, a, a', b, i, pass, waiting, w)
  {
    hide Exec, Step, Parse, IsJdbcOwner, IsApiHotSpot, JdbcProbeId, RunsText, PreparesText, RunsPrepared, IsTimedApi,
      IsDirectSqlCall, IsPrepareSqlCall, IsPreparedSqlExecution, PendingMatches, ShapedStep, Agree, Adds;
    SameCalls(i);
    ProbeIdsAreApiHotSpots(i.owner, i.name, i.descriptor);
    if IsConstructorCall(i) {
      NothingPending(a, pass, waiting);
    }
    CopiedAdds(cfg, a, a', b, i, pass, waiting, base, w);
  }

  lemma NothingPending(a: State, pass: Pass, waiting: seq<nat>)
    requires PendingMatches(a.heap, pass.pending, waiting)
    ensures pass.pending == [] <==> waiting == []
  {
  }

  lemma CallAdds(cfg: Config, a: State, a': State, b: State, i: Instr, pass: Pass, waiting: seq<nat>, base: nat, w: World)
    requires Before(a, a', b, i, pass, waiting, base, w) && i.Invoke? && !(IsConstructorCall(i) && waiting != [])
    ensures Adds(cfg, a, a', b, i, pass, waiting, w)
  {
    hide Before, Adds, RunsText, PreparesText, RunsPrepared, IsTimedApi;
    if RunsText(i) {
      SqlAdds(cfg, a, a', b, i, pass, waiting, base, w);
    } else if PreparesText(i) {
      PrepareAdds(cfg, a, a', b, i, pass, waiting, base, w);
    } else if RunsPrepared(i) {
      ExecutionAdds(cfg, a, a', b, i, pass, waiting, base, w);
    } else if cfg.jdbcProbeEnabled && IsTimedApi(i) {
      ApiAdds(cfg, a, a', b, i, pass, waiting, base, w);
    } else {
      PlainCallAdds(cfg, a, a', b, i, pass, waiting, base, w);
    }
  }

  lemma InstrAdds(cfg: Config, a: State, a': State, b: State, i: Instr, pass: Pass, waiting: seq<nat>, base: nat, w: World)
    requires Before(a, a', b, i, pass, waiting, base, w)
    ensures Adds(cfg, a, a', b, i, pass, waiting, w)
  {
    if IsConstructorCall(i) && waiting != [] {
      ConstructorAdds(cfg, a, a', b, i, pass, waiting, base, w);
    } else if i.Invoke? {
      CallAdds(cfg, a, a', b, i, pass, waiting, base, w);
    } else if i.ANewArray? || i.NewArray? || i.MultiANewArray? {
      ArrayAdds(cfg, a, a', b, i, pass, waiting, base, w);
    } else {
      hide Adds, Agree, PendingMatches, Step;
      CopiedAdds(cfg, a, a', b, i, pass, waiting, base, w);
    }
  }

  // ---- whole bodies and methods

  /** The first instruction of a body, and what holds before the rest. */
  lemma FirstAdds(cfg: Config, a: State, end: State, b: State, code: seq<Instr>, pass: Pass, waiting: seq<nat>, base: nat,
                  w: World)
    requires Agree(a, b, base) && AllOriginal(code, base) && base <= pass.next && code != []
    requires PendingMatches(a.heap, pass.pending, waiting)
    requires Exec(a, code, w) == Some(end) && ShapedRun(a, code, waiting, w)
    ensures
      var i, rest := code[0], code[1..];
      && Step(a, i, w).Some?
      && var a1, first, waiting1 := Step(a, i, w).value, RewriteInstr(cfg, i, pass), WaitingAfter(a, i, waiting);
      && Exec(a1, rest, w) == Some(end) && ShapedRun(a1, rest, waiting1, w) && AllOriginal(rest, base)
      && Exec(b, first.code, w).Some?
      && var b1 := Exec(b, first.code, w).value;
      && b1.probes == b.probes + Expected(cfg, a, i, a1, waiting)
      && Agree(a1, b1, base) && PendingMatches(a1.heap, first.pass.pending, waiting1) && base <= first.pass.next
  {
    hide Step, Agree, PendingMatches, ShapedStep, RewriteInstr, Expected, IsOriginal, WaitingAfter, ReportsKept;
    var i := code[0];
    assert IsOriginal(i, base);
    InstrIsKept(cfg, a, Step(a, i, w).value, b, i, pass, waiting, base, w);
    InstrAdds(cfg, a, Step(a, i, w).value, b, i, pass, waiting, base, w);
    RestIsOriginal(code, base);
  }

  lemma RewriteSplits(cfg: Config, code: seq<Instr>, pass: Pass)
    requires code != []
    ensures
      var first := RewriteInstr(cfg, code[0], pass);
      Rewrite(cfg, code, pass).code == first.code + Rewrite(cfg, code[1..], first.pass).code
  {
    hide RewriteInstr;
  }

  lemma ExpectedSplits(cfg: Config, a: State, code: seq<Instr>, waiting: seq<nat>, w: World)
    requires code != [] && Step(a, code[0], w).Some?
    ensures
      var next := Step(a, code[0], w).value;
      ExpectedOfRun(cfg, a, code, waiting, w) ==
        Expected(cfg, a, code[0], next, waiting)
        + ExpectedOfRun(cfg, next, code[1..], WaitingAfter(a, code[0], waiting), w)
  {
    hide Step, Expected, WaitingAfter;
  }

  /** A rewritten body makes exactly the probes its instructions are to make, in their order, and no other. */
  lemma {:induction false} BodyReportsExactly(
    cfg: Config, a: State, end: State, b: State, code: seq<Instr>, pass: Pass, waiting: seq<nat>, base: nat, w: World)
    requires Agree(a, b, base) && AllOriginal(code, base) && base <= pass.next
    requires PendingMatches(a.heap, pass.pending, waiting)
    requires Exec(a, code, w) == Some(end) && ShapedRun(a, code, waiting, w)
    ensures
      var out := Exec(b, Rewrite(cfg, code, pass).code, w);
      out.Some? && out.value.probes == b.probes + ExpectedOfRun(cfg, a, code, waiting, w)
    decreases code
  {
    if code == [] {
      assert b.probes + [] == b.probes;
    } else {
      RestReportsExactly(cfg, a, end, b, code, pass, waiting, base, w);
    }
  }

  lemma {:induction false} RestReportsExactly(
    cfg: Config, a: State, end: State, b: State, code: seq<Instr>, pass: Pass, waiting: seq<nat>, base: nat, w: World)
    requires Agree(a, b, base) && AllOriginal(code, base) && base <= pass.next && code != []
    requires PendingMatches(a.heap, pass.pending, waiting)
    requires Exec(a, code, w) == Some(end) && ShapedRun(a, code, waiting, w)
    ensures
      var out := Exec(b, Rewrite(cfg, code, pass).code, w);
      out.Some? && out.value.probes == b.probes + ExpectedOfRun(cfg, a, code, waiting, w)
    decreases code, 0
  {
    hide Step, Exec, ShapedRun, Agree, PendingMatches, RewriteInstr, Rewrite, Expected, ExpectedOfRun, WaitingAfter,
      AllOriginal;
    FirstAdds(cfg, a, end, b, code, pass, waiting, base, w);
    var i, rest := code[0], code[1..];
    var a1, first, waiting1 := Step(a, i, w).value, RewriteInstr(cfg, i, pass), WaitingAfter(a, i, waiting);
    var b1 := Exec(b, first.code, w).value;
    BodyReportsExactly(cfg, a1, end, b1, rest, first.pass, waiting1, base, w);
    RewriteSplits(cfg, code, pass);
    ExpectedSplits(cfg, a, code, waiting, w);
    ExecThen(b, first.code, b1, Rewrite(cfg, rest, first.pass).code, w);
    var now, later := Expected(cfg, a, i, a1, waiting), ExpectedOfRun(cfg, a1, rest, waiting1, w);
    assert (b.probes + now) + later == b.probes + (now + later);
  }

  lemma RestIsOriginal(code: seq<Instr>, base: nat)
    requires AllOriginal(code, base) && code != []
    ensures AllOriginal(code[1..], base)
  {
    forall k | 0 <= k < |code[1..]| ensures IsOriginal(code[1..][k], base) {
      assert code[1..][k] == code[k + 1];
    }
  }

  /** A probe that tells the recorder where a method begins or ends. */
  predicate IsMarker(p: Probe) {
    p.RecordMethodEnter? || p.RecordMethodExit? || p.RecordTraceEnter? || p.RecordTraceExit?
  }

  predicate HasNoMarker(probes: seq<ProbeCall>) {
    forall k :: 0 <= k < |probes| ==> !IsMarker(probes[k].probe)
  }

  lemma ExpectedHasNoMarker(cfg: Config, st: State, i: Instr, after: State, waiting: seq<nat>)
    ensures HasNoMarker(Expected(cfg, st, i, after, waiting))
  {
    hide RunsText, PreparesText, RunsPrepared, IsTimedApi, Dotted;
  }

  lemma {:induction false} BodiesHaveNoMarker(cfg: Config, st: State, code: seq<Instr>, waiting: seq<nat>, w: World)
    ensures HasNoMarker(ExpectedOfRun(cfg, st, code, waiting, w))
    decreases code
  {
    hide Step, WaitingAfter, Expected, IsMarker;
    if code != [] && Step(st, code[0], w).Some? {
      ExpectedHasNoMarker(cfg, st, code[0], Step(st, code[0], w).value, waiting);
      BodiesHaveNoMarker(cfg, Step(st, code[0], w).value, code[1..], WaitingAfter(st, code[0], waiting), w);
    }
  }

  lemma GuardedProbeRuns(st: State, operands: seq<Value>, probe: Probe, w: World)
    requires AllFit(operands, ProbeParams(probe))
    ensures
      var out := Exec(st, [WhenRecording(operands, probe)], w);
      out == Some(st.(probes := st.probes + if w.recording then [ProbeCall(probe, operands)] else []))
  {
    ExecOne(st, WhenRecording(operands, probe), w);
    ProbeTakesItsOperands(st, operands, probe, w);
    assert st.probes + [] == st.probes;
  }

  /** The marks of a method's beginning and end, by its role; none while nothing is recorded. */
  function EnterMarks(cfg: Config, role: Role, recording: bool): seq<ProbeCall> {
    if !recording || role.Unmarked? then []
    else if role.Recorded? then [ProbeCall(RecordMethodEnter, [Num(cfg.methodId)])]
    else [ProbeCall(RecordTraceEnter, [Num(cfg.methodId), Num(1)])]
  }

  function ExitMarks(cfg: Config, role: Role, recording: bool): seq<ProbeCall> {
    if !recording || role.Unmarked? then []
    else if role.Recorded? then [ProbeCall(RecordMethodExit, [Num(cfg.methodId)])]
    else [ProbeCall(RecordTraceExit, [Num(cfg.methodId)])]
  }

  lemma EndsRun(st: State, cfg: Config, role: Role, w: World)
    ensures Exec(st, EntryCode(cfg, role), w) == Some(st.(probes := st.probes + EnterMarks(cfg, role, w.recording)))
    ensures Exec(st, ExitCode(cfg, role), w) == Some(st.(probes := st.probes + ExitMarks(cfg, role, w.recording)))
  {
    hide Step;
    var id := Num(cfg.methodId);
    GuardedProbeRuns(st, [id], RecordMethodEnter, w);
    GuardedProbeRuns(st, [id], RecordMethodExit, w);
    GuardedProbeRuns(st, [id, Num(1)], RecordTraceEnter, w);
    GuardedProbeRuns(st, [id], RecordTraceExit, w);
    assert st.probes + [] == st.probes;
  }

  /** Exactly the probes of a rewritten method: its marks around those of its body, in which there is no mark. */
  lemma MethodReportsExactly(cfg: Config, role: Role, a: State, end: State, code: seq<Instr>, base: nat, w: World)
    requires AllOriginal(code, base) && a.probes == []
    requires Exec(a, code, w) == Some(end) && ShapedRun(a, code, [], w)
    ensures HasNoMarker(ExpectedOfRun(cfg, a, code, [], w))
    ensures
      var out := Exec(a, RewriteMethod(cfg, role, code, base), w);
      var body, id := ExpectedOfRun(cfg, a, code, [], w), Num(cfg.methodId);
      && out.Some?
      && (w.recording && role.Recorded? ==>
        out.value.probes == [ProbeCall(RecordMethodEnter, [id])] + body + [ProbeCall(RecordMethodExit, [id])])
      && (w.recording && role.Boundary? ==>
        out.value.probes == [ProbeCall(RecordTraceEnter, [id, Num(1)])] + body + [ProbeCall(RecordTraceExit, [id])])
      && (!w.recording || role.Unmarked? ==> out.value.probes == body)
  {
    hide Exec, EntryCode, ExitCode, Rewrite, ExpectedOfRun, AllOriginal, ShapedRun, HasNoMarker;
    var rewritten := Rewrite(cfg, code, Pass([], base)).code;
    BodiesHaveNoMarker(cfg, a, code, [], w);
    EndsRun(a, cfg, role, w);
    var a0 := a.(probes := EnterMarks(cfg, role, w.recording));
    assert a.probes + EnterMarks(cfg, role, w.recording) == EnterMarks(cfg, role, w.recording);
    BodyReportsExactly(cfg, a, end, a0, code, Pass([], base), [], base, w);
    var mid := Exec(a0, rewritten, w).value;
    EndsRun(mid, cfg, role, w);
    ExecThen(a, EntryCode(cfg, role), a0, rewritten, w);
    ExecThen(a, EntryCode(cfg, role) + rewritten, mid, ExitCode(cfg, role), w);
    var body := ExpectedOfRun(cfg, a, code, [], w);
    assert [] + body == body && body + [] == body;
  }
}
