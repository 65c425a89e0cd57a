/** Rewritten bodies do what the original bodies do. */
module InstrumentationProofs {
  import opened Options
  import opened Bytecode
  import opened Instrumentation

  /** The same up to probes and to locals the original body does not have. */
  ghost predicate Agree(a: State, b: State, base: nat) {
    && a.stack == b.stack && a.heap == b.heap && a.calls == b.calls
    && forall l: nat :: l < base ==> (l in a.locals <==> l in b.locals) && (l in a.locals ==> a.locals[l] == b.locals[l])
  }

  /** An instruction of an original body: locals below base, no probes. */
  predicate IsOriginal(i: Instr, base: nat) {
    match i
    case Load(l) => l < base
    case Store(l, _) => l < base
    case CallProbe(_) => false
    case WhenRecording(_, _) => false
    case _ => true
  }

  ghost predicate AllOriginal(code: seq<Instr>, base: nat) {
    forall k :: 0 <= k < |code| ==> IsOriginal(code[k], base)
  }

  /** Locals from base on, which only inserted code uses. */
  ghost predicate SameSpare(b: State, b': State, base: nat) {
    forall l: nat :: base <= l ==> (l in b.locals <==> l in b'.locals) && (l in b.locals ==> b.locals[l] == b'.locals[l])
  }

  lemma OriginalStepAgrees(a: State, a': State, b: State, i: Instr, base: nat, w: World)
    requires Agree(a, b, base) && IsOriginal(i, base) && Step(a, i, w) == Some(a')
    ensures
      var b' := Step(b, i, w);
      b'.Some? && Agree(a', b'.value, base) && b'.value.probes == b.probes && SameSpare(b, b'.value, base)
  {
  }

  // ---- inserted pieces leave everything but probes and spare locals alone

  lemma ExecCons(st: State, i: Instr, rest: seq<Instr>, w: World)
    requires Step(st, i, w).Some?
    ensures Exec(st, [i] + rest, w) == Exec(Step(st, i, w).value, rest, w)
  {
    assert ([i] + rest)[1..] == rest;
  }

  lemma ExecThen(st: State, a: seq<Instr>, mid: State, b: seq<Instr>, w: World)
    requires Exec(st, a, w) == Some(mid)
    ensures Exec(st, a + b, w) == Exec(mid, b, w)
  {
    ExecConcat(st, a, b, w);
  }

  function WithProbe(st: State, probe: Probe, operands: seq<Value>): State {
    st.(probes := st.probes + [ProbeCall(probe, operands)])
  }

  /** A probe call straight after its operands were pushed gives the stack back. */
  lemma ProbeTakesItsOperands(st: State, operands: seq<Value>, probe: Probe, w: World)
    requires AllFit(operands, ProbeParams(probe))
    ensures Step(st.(stack := st.stack + operands), CallProbe(probe), w) == Some(WithProbe(st, probe, operands))
  {
    var s := st.stack + operands;
    assert Top(s, |operands|) == operands && Without(s, |operands|) == st.stack;
  }

  lemma ReportRuns(st: State, local: nat, probe: Probe, w: World)
    requires local in st.locals && AllFit([st.locals[local]], ProbeParams(probe))
    ensures Exec(st, Report(local, probe), w) == Some(WithProbe(st, probe, [st.locals[local]]))
  {
    ExecCons(st, Load(local), [CallProbe(probe)], w);
    ProbeTakesItsOperands(st, [st.locals[local]], probe, w);
    ExecOne(st.(stack := st.stack + [st.locals[local]]), CallProbe(probe), w);
    assert Report(local, probe) == [Load(local)] + [CallProbe(probe)];
  }

  lemma RecordAllocationRuns(st: State, cfg: Config, allocatedType: string, w: World)
    requires st.stack != [] && !st.stack[|st.stack| - 1].Num?
    ensures Exec(st, RecordAllocation(cfg, allocatedType), w) ==
      Some(WithProbe(st, ObjectAllocatedAt, [st.stack[|st.stack| - 1], Text(allocatedType), Num(cfg.methodId)]))
  {
    var v := st.stack[|st.stack| - 1];
    var s1 := st.(stack := st.stack + [v]);
    var s2 := s1.(stack := s1.stack + [Text(allocatedType)]);
    var s3 := s2.(stack := s2.stack + [Num(cfg.methodId)]);
    var p1, p2, p3 := Push(Text(allocatedType)), Push(Num(cfg.methodId)), CallProbe(ObjectAllocatedAt);
    ExecCons(st, Dup, [p1] + ([p2] + [p3]), w);
    ExecCons(s1, p1, [p2] + [p3], w);
    ExecCons(s2, p2, [p3], w);
    assert s3 == st.(stack := st.stack + [v, Text(allocatedType), Num(cfg.methodId)]);
    ProbeTakesItsOperands(st, [v, Text(allocatedType), Num(cfg.methodId)], ObjectAllocatedAt, w);
    ExecOne(s3, p3, w);
    assert RecordAllocation(cfg, allocatedType) == [Dup] + ([p1] + ([p2] + [p3]));
  }

  lemma NamedProbeRuns(st: State, call: Instr, probe: Probe, w: World)
    requires call.Invoke? && (probe.RecordJdbcEnter? || probe.RecordJdbcExit?)
    ensures Exec(st, NamedProbe(call, probe), w) ==
      Some(WithProbe(st, probe, [Text(DotName(call.owner)), Text(call.name), Text(call.descriptor)]))
  {
    var t1, t2, t3 := Text(DotName(call.owner)), Text(call.name), Text(call.descriptor);
    var s1 := st.(stack := st.stack + [t1]);
    var s2 := s1.(stack := s1.stack + [t2]);
    var s3 := s2.(stack := s2.stack + [t3]);
    ExecCons(st, Push(t1), [Push(t2)] + ([Push(t3)] + [CallProbe(probe)]), w);
    ExecCons(s1, Push(t2), [Push(t3)] + [CallProbe(probe)], w);
    ExecCons(s2, Push(t3), [CallProbe(probe)], w);
    assert s3 == st.(stack := st.stack + [t1, t2, t3]);
    ProbeTakesItsOperands(st, [t1, t2, t3], probe, w);
    ExecOne(s3, CallProbe(probe), w);
    assert NamedProbe(call, probe) == [Push(t1)] + ([Push(t2)] + ([Push(t3)] + [CallProbe(probe)]));
  }

  /** The same state but for probes made and for locals from `next` on. */
  ghost predicate SameBut(c: State, out: State, next: nat) {
    && out.stack == c.stack && out.heap == c.heap && out.calls == c.calls
    && forall l: nat :: l < next ==> (l in c.locals <==> l in out.locals) && (l in c.locals ==> c.locals[l] == out.locals[l])
  }

  function With(st: State, locals: map<nat, Value>, probes: seq<ProbeCall>): State {
    st.(locals := locals, probes := probes)
  }

  /** A call neither sees nor changes locals and probes. */
  lemma CallIgnoresLocals(st: State, call: Instr, locals: map<nat, Value>, probes: seq<ProbeCall>, w: World)
    requires call.Invoke? && Step(st, call, w).Some?
    ensures Step(With(st, locals, probes), call, w) == Some(With(Step(st, call, w).value, locals, probes))
    ensures Step(st, call, w).value.locals == st.locals && Step(st, call, w).value.probes == st.probes
    ensures Step(st, call, w).value.heap == st.heap
  {
  }

  /** Saving a string from the top of the stack, reporting it and loading it back. */
  lemma SavedAndReported(st: State, next: nat, w: World)
    requires st.stack != [] && IsString(st.stack[|st.stack| - 1])
    ensures
      var v := st.stack[|st.stack| - 1];
      var code := [Store(next, RefKind)] + (Report(next, RecordSqlEnter) + [Load(next)]);
      Exec(st, code, w) ==
        Some(With(st, st.locals[next := v], st.probes + [ProbeCall(RecordSqlEnter, [v])]))
  {
    var v := st.stack[|st.stack| - 1];
    var s1 := st.(stack := Without(st.stack, 1), locals := st.locals[next := v]);
    ExecCons(st, Store(next, RefKind), Report(next, RecordSqlEnter) + [Load(next)], w);
    ReportRuns(s1, next, RecordSqlEnter, w);
    var s2 := WithProbe(s1, RecordSqlEnter, [v]);
    ExecThen(s1, Report(next, RecordSqlEnter), s2, [Load(next)], w);
    ExecOne(s2, Load(next), w);
    assert s2.stack + [v] == st.stack;
  }

  /** The tail of an intercepted call: whatever the call returned is on the stack again afterwards. */
  lemma SavingReturnRuns(c: State, descriptor: string, local: nat, probeCode: seq<Instr>, probe: Probe,
                         operands: seq<Value>, w: World)
    requires Parse(descriptor).Some?
    requires Parse(descriptor).value.result.ValueReturn? ==>
      && c.stack != [] && HasKind(c.stack[|c.stack| - 1], Parse(descriptor).value.result.kind)
      && var mid := c.(stack := Without(c.stack, 1), locals := c.locals[local := c.stack[|c.stack| - 1]]);
      Exec(mid, probeCode, w) == Some(WithProbe(mid, probe, operands))
    requires Parse(descriptor).value.result.VoidReturn? ==>
      Exec(c, probeCode, w) == Some(WithProbe(c, probe, operands))
    ensures
      var out := Exec(c, SavingReturn(descriptor, local, probeCode), w);
      && out.Some? && SameBut(c, out.value, local)
      && out.value.probes == c.probes + [ProbeCall(probe, operands)]
  {
    hide Parse;
    var result := Parse(descriptor).value.result;
    if result.ValueReturn? {
      var v := c.stack[|c.stack| - 1];
      var mid := c.(stack := Without(c.stack, 1), locals := c.locals[local := v]);
      var after := WithProbe(mid, probe, operands);
      ExecCons(c, Store(local, result.kind), probeCode + [Load(local)], w);
      ExecThen(mid, probeCode, after, [Load(local)], w);
      ExecOne(after, Load(local), w);
      assert after.stack + [v] == c.stack;
      assert SavingReturn(descriptor, local, probeCode)
          == [Store(local, result.kind)] + (probeCode + [Load(local)]);
    }
  }

  lemma CallLeavesItsResult(st: State, call: Instr, w: World)
    requires call.Invoke? && Step(st, call, w).Some?
    ensures Parse(call.descriptor).Some?
    ensures
      var result, c := Parse(call.descriptor).value.result, Step(st, call, w).value;
      result.ValueReturn? ==> c.stack != [] && HasKind(c.stack[|c.stack| - 1], result.kind)
  {
  }

  lemma DirectSqlRuns(b: State, call: Instr, next: nat, w: World)
    requires call.Invoke? && Step(b, call, w).Some?
    requires b.stack != [] && IsString(b.stack[|b.stack| - 1])
    ensures
      var v, out := b.stack[|b.stack| - 1], Exec(b, DirectSql(call, next), w);
      && out.Some? && SameBut(Step(b, call, w).value, out.value, next)
      && out.value.probes == b.probes + [ProbeCall(RecordSqlEnter, [v]), ProbeCall(RecordSqlExit, [v])]
  {
    hide Exec, Step, Parse;
    var v := b.stack[|b.stack| - 1];
    var locals, probes := b.locals[next := v], b.probes + [ProbeCall(RecordSqlEnter, [v])];
    var head := [Store(next, RefKind)] + (Report(next, RecordSqlEnter) + [Load(next)]);
    var tail := SavingReturn(call.descriptor, next + 1, Report(next, RecordSqlExit));
    SavedAndReported(b, next, w);
    CallIgnoresLocals(b, call, locals, probes, w);
    CallLeavesItsResult(b, call, w);
    var c := With(Step(b, call, w).value, locals, probes);
    assert DirectSql(call, next) == head + ([call] + tail);
    ExecThen(b, head, With(b, locals, probes), [call] + tail, w);
    ExecCons(With(b, locals, probes), call, tail, w);
    if Parse(call.descriptor).value.result.ValueReturn? {
      var mid := c.(stack := Without(c.stack, 1), locals := c.locals[next + 1 := c.stack[|c.stack| - 1]]);
      ReportRuns(mid, next, RecordSqlExit, w);
    } else {
      ReportRuns(c, next, RecordSqlExit, w);
    }
    SavingReturnRuns(c, call.descriptor, next + 1, Report(next, RecordSqlExit), RecordSqlExit, [v], w);
    var out := Exec(c, tail, w).value;
    assert out.probes == b.probes + [ProbeCall(RecordSqlEnter, [v]), ProbeCall(RecordSqlExit, [v])];
  }

  /** Loading the two operands and tying them together. */
  lemma AssociationIsReported(s1: State, sqlLocal: nat, statementLocal: nat, w: World)
    requires sqlLocal in s1.locals && IsString(s1.locals[sqlLocal])
    requires statementLocal in s1.locals && !s1.locals[statementLocal].Num?
    ensures
      Exec(s1, [Load(statementLocal)] + ([Load(sqlLocal)] + [CallProbe(AssociatePreparedStatement)]), w)
      == Some(WithProbe(s1, AssociatePreparedStatement, [s1.locals[statementLocal], s1.locals[sqlLocal]]))
  {
    var v, sql := s1.locals[statementLocal], s1.locals[sqlLocal];
    var i2, i3 := Load(sqlLocal), CallProbe(AssociatePreparedStatement);
    var s2 := s1.(stack := s1.stack + [v]);
    var s3 := s2.(stack := s2.stack + [sql]);
    ExecCons(s1, Load(statementLocal), [i2] + [i3], w);
    ExecCons(s2, i2, [i3], w);
    assert s3 == s1.(stack := s1.stack + [v, sql]);
    ProbeTakesItsOperands(s1, [v, sql], AssociatePreparedStatement, w);
    ExecOne(s3, i3, w);
  }

  lemma AssociationRuns(c: State, sqlLocal: nat, statementLocal: nat, w: World)
    requires sqlLocal < statementLocal && sqlLocal in c.locals && IsString(c.locals[sqlLocal])
    requires c.stack != [] && !c.stack[|c.stack| - 1].Num?
    ensures
      var v, sql, out := c.stack[|c.stack| - 1], c.locals[sqlLocal], Exec(c, Association(sqlLocal, statementLocal), w);
      && out.Some? && SameBut(c, out.value, statementLocal)
      && out.value.probes ==
        c.probes + [ProbeCall(AssociatePreparedStatement, [v, sql]), ProbeCall(RecordSqlExit, [sql])]
  {
    var v, sql := c.stack[|c.stack| - 1], c.locals[sqlLocal];
    var tie := [Load(statementLocal)] + ([Load(sqlLocal)] + [CallProbe(AssociatePreparedStatement)]);
    var rest := Report(sqlLocal, RecordSqlExit) + [Load(statementLocal)];
    var s1 := c.(stack := Without(c.stack, 1), locals := c.locals[statementLocal := v]);
    var s4 := WithProbe(s1, AssociatePreparedStatement, [v, sql]);
    var s5 := WithProbe(s4, RecordSqlExit, [sql]);
    assert Step(c, Store(statementLocal, RefKind), w) == Some(s1);
    assert s5.stack + [v] == c.stack;
    assert Step(s5, Load(statementLocal), w) == Some(s5.(stack := c.stack));
    hide Exec, Step;
    ExecCons(c, Store(statementLocal, RefKind), tie + rest, w);
    AssociationIsReported(s1, sqlLocal, statementLocal, w);
    ExecThen(s1, tie, s4, rest, w);
    ReportRuns(s4, sqlLocal, RecordSqlExit, w);
    ExecThen(s4, Report(sqlLocal, RecordSqlExit), s5, [Load(statementLocal)], w);
    ExecOne(s5, Load(statementLocal), w);
    assert Association(sqlLocal, statementLocal) == [Store(statementLocal, RefKind)] + (tie + rest);
  }

  lemma PrepareSqlRuns(b: State, call: Instr, next: nat, w: World)
    requires call.Invoke? && IsPrepareSqlCall(call.name, call.descriptor) && Step(b, call, w).Some?
    requires b.stack != [] && IsString(b.stack[|b.stack| - 1])
    ensures
      var v, c, out := b.stack[|b.stack| - 1], Step(b, call, w).value, Exec(b, PrepareSql(call, next), w);
      && out.Some? && SameBut(c, out.value, next) && c.stack != []
      && out.value.probes == b.probes + [ProbeCall(RecordSqlEnter, [v])]
        + [ProbeCall(AssociatePreparedStatement, [c.stack[|c.stack| - 1], v]), ProbeCall(RecordSqlExit, [v])]
  {
    hide Exec, Step, Parse, Association;
    var v := b.stack[|b.stack| - 1];
    var locals, probes := b.locals[next := v], b.probes + [ProbeCall(RecordSqlEnter, [v])];
    var head := [Store(next, RefKind)] + (Report(next, RecordSqlEnter) + [Load(next)]);
    var tail := Association(next, next + 1);
    SavedAndReported(b, next, w);
    CallIgnoresLocals(b, call, locals, probes, w);
    CallLeavesItsResult(b, call, w);
    ReturnsAReference(call.descriptor);
    var c := With(Step(b, call, w).value, locals, probes);
    assert PrepareSql(call, next) == head + ([call] + tail);
    ExecThen(b, head, With(b, locals, probes), [call] + tail, w);
    ExecCons(With(b, locals, probes), call, tail, w);
    AssociationRuns(c, next, next + 1, w);
  }

  /** Reporting a copy of the receiver on top of the stack. */
  lemma ReceiverReported(st: State, next: nat, w: World)
    requires st.stack != [] && !st.stack[|st.stack| - 1].Num?
    ensures
      var v := st.stack[|st.stack| - 1];
      Exec(st, [Dup] + ([Store(next, RefKind)] + Report(next, EnterPrepared)), w) ==
        Some(With(st, st.locals[next := v], st.probes + [ProbeCall(EnterPrepared, [v])]))
  {
    var v := st.stack[|st.stack| - 1];
    var s1 := st.(stack := st.stack + [v]);
    var s2 := st.(locals := st.locals[next := v]);
    ExecCons(st, Dup, [Store(next, RefKind)] + Report(next, EnterPrepared), w);
    assert Without(s1.stack, 1) == st.stack;
    ExecCons(s1, Store(next, RefKind), Report(next, EnterPrepared), w);
    ReportRuns(s2, next, EnterPrepared, w);
  }

  lemma PreparedExecutionRuns(b: State, call: Instr, next: nat, w: World)
    requires call.Invoke? && Step(b, call, w).Some?
    requires b.stack != [] && !b.stack[|b.stack| - 1].Num?
    ensures
      var v, out := b.stack[|b.stack| - 1], Exec(b, PreparedExecution(call, next), w);
      && out.Some? && SameBut(Step(b, call, w).value, out.value, next)
      && out.value.probes == b.probes + [ProbeCall(EnterPrepared, [v]), ProbeCall(ExitPrepared, [])]
  {
    hide Exec, Step, Parse;
    var v := b.stack[|b.stack| - 1];
    var locals, probes := b.locals[next := v], b.probes + [ProbeCall(EnterPrepared, [v])];
    var head := [Dup] + ([Store(next, RefKind)] + Report(next, EnterPrepared));
    var tail := SavingReturn(call.descriptor, next + 1, [CallProbe(ExitPrepared)]);
    ReceiverReported(b, next, w);
    CallIgnoresLocals(b, call, locals, probes, w);
    CallLeavesItsResult(b, call, w);
    var c := With(Step(b, call, w).value, locals, probes);
    assert PreparedExecution(call, next) == head + ([call] + tail);
    ExecThen(b, head, With(b, locals, probes), [call] + tail, w);
    ExecCons(With(b, locals, probes), call, tail, w);
    ExitRuns(c, next + 1, w);
    SavingReturnRuns(c, call.descriptor, next + 1, [CallProbe(ExitPrepared)], ExitPrepared, [], w);
    var out := Exec(c, tail, w).value;
    assert out.probes == b.probes + [ProbeCall(EnterPrepared, [v]), ProbeCall(ExitPrepared, [])];
  }

  lemma ExitRuns(c: State, local: nat, w: World)
    ensures Exec(c, [CallProbe(ExitPrepared)], w) == Some(WithProbe(c, ExitPrepared, []))
    ensures c.stack != [] ==>
      var mid := c.(stack := Without(c.stack, 1), locals := c.locals[local := c.stack[|c.stack| - 1]]);
      Exec(mid, [CallProbe(ExitPrepared)], w) == Some(WithProbe(mid, ExitPrepared, []))
  {
    ExitRunsHere(c, w);
    if c.stack != [] {
      ExitRunsHere(c.(stack := Without(c.stack, 1), locals := c.locals[local := c.stack[|c.stack| - 1]]), w);
    }
  }

  lemma ExitRunsHere(c: State, w: World)
    ensures Exec(c, [CallProbe(ExitPrepared)], w) == Some(WithProbe(c, ExitPrepared, []))
  {
    ExecOne(c, CallProbe(ExitPrepared), w);
    assert c.stack + [] == c.stack;
    ProbeTakesItsOperands(c, [], ExitPrepared, w);
  }

  lemma JdbcCallRuns(b: State, call: Instr, w: World)
    requires call.Invoke? && Step(b, call, w).Some?
    ensures
      var out := Exec(b, JdbcCall(call), w);
      && out.Some? && out.value.locals == b.locals
      && out.value.stack == Step(b, call, w).value.stack
      && out.value.heap == b.heap && out.value.calls == Step(b, call, w).value.calls
      && var named := [Text(DotName(call.owner)), Text(call.name), Text(call.descriptor)];
      out.value.probes == b.probes + [ProbeCall(RecordJdbcEnter, named), ProbeCall(RecordJdbcExit, named)]
  {
    hide Exec, Step, Parse, NamedProbe;
    NamedProbeRuns(b, call, RecordJdbcEnter, w);
    var named := [Text(DotName(call.owner)), Text(call.name), Text(call.descriptor)];
    var s1 := WithProbe(b, RecordJdbcEnter, named);
    assert s1 == With(b, b.locals, s1.probes);
    CallIgnoresLocals(b, call, b.locals, s1.probes, w);
    var s2 := With(Step(b, call, w).value, b.locals, s1.probes);
    NamedProbeRuns(s2, call, RecordJdbcExit, w);
    ExecThen(b, NamedProbe(call, RecordJdbcEnter), s1, [call] + NamedProbe(call, RecordJdbcExit), w);
    ExecCons(s1, call, NamedProbe(call, RecordJdbcExit), w);
    assert JdbcCall(call) == NamedProbe(call, RecordJdbcEnter) + ([call] + NamedProbe(call, RecordJdbcExit));
  }

  // ---- whole bodies

  /** The objects made by NEW whose constructor has not been called yet, newest last. */
  function WaitingAfter(st: State, i: Instr, waiting: seq<nat>): seq<nat> {
    if i.New? then waiting + [|st.heap|]
    else if IsConstructorCall(i) && waiting != [] then waiting[..|waiting| - 1]
    else waiting
  }

  predicate IsInterceptedSql(i: Instr) {
    && i.Invoke? && IsJdbcOwner(i.owner)
    && (IsDirectSqlCall(i.name, i.descriptor) || IsPrepareSqlCall(i.name, i.descriptor))
  }

  predicate IsInterceptedExecution(i: Instr) {
    i.Invoke? && IsJdbcOwner(i.owner) && IsPreparedSqlExecution(i.name, i.descriptor) && !IsInterceptedSql(i)
  }

  /**
   * What the rewriting counts on at one instruction. NEW, DUP and the constructor call nest: the
   * call is for the newest waiting object, and a second reference to it lies just below. An
   * intercepted SQL call has its text on top; an intercepted execution has its statement there.
   */
  predicate ShapedStep(st: State, i: Instr, waiting: seq<nat>) {
    if IsConstructorCall(i) && waiting != [] then
      var parsed, newest := Parse(i.descriptor), waiting[|waiting| - 1];
      && parsed.Some?
      && var n := OperandCount(i.opcode, parsed.value);
      && n < |st.stack|
      && st.stack[|st.stack| - n] == Obj(newest) && st.stack[|st.stack| - n - 1] == Obj(newest)
      && newest < |st.heap| && i.owner == st.heap[newest]
      && parsed.value.result.VoidReturn?
    else
      && (IsInterceptedSql(i) ==> st.stack != [] && IsString(st.stack[|st.stack| - 1]))
      && (IsInterceptedExecution(i) ==> st.stack != [] && !st.stack[|st.stack| - 1].Num?)
  }

  predicate ShapedRun(st: State, code: seq<Instr>, waiting: seq<nat>, w: World)
    decreases code
  {
    code == [] || (
      && ShapedStep(st, code[0], waiting)
      && var next := Step(st, code[0], w);
      (next.Some? ==> ShapedRun(next.value, code[1..], WaitingAfter(st, code[0], waiting), w)))
  }

  function WaitingAtEnd(st: State, code: seq<Instr>, waiting: seq<nat>, w: World): seq<nat>
    decreases code
  {
    if code == [] then waiting
    else
      var next := Step(st, code[0], w);
      if next.None? then waiting else WaitingAtEnd(next.value, code[1..], WaitingAfter(st, code[0], waiting), w)
  }

  /** The visitor's pending types are the types of the waiting objects. */
  predicate PendingMatches(heap: seq<string>, pending: seq<string>, waiting: seq<nat>) {
    |pending| == |waiting| && forall k :: 0 <= k < |pending| ==> waiting[k] < |heap| && heap[waiting[k]] == pending[k]
  }

  /** An allocation report names the type its object has on the heap. */
  predicate ReportIsRight(p: ProbeCall, heap: seq<string>) {
    p.probe.ObjectAllocatedAt? ==>
      && |p.operands| == 3 && p.operands[0].Obj? && p.operands[0].id < |heap|
      && p.operands[1] == Text(heap[p.operands[0].id])
  }

  predicate ReportsAreRight(probes: seq<ProbeCall>, heap: seq<string>) {
    forall k :: 0 <= k < |probes| ==> ReportIsRight(probes[k], heap)
  }

  function ReportCount(probes: seq<ProbeCall>): nat {
    if probes == [] then 0
    else ReportCount(probes[..|probes| - 1]) + (if probes[|probes| - 1].probe.ObjectAllocatedAt? then 1 else 0)
  }

  lemma {:induction false} ReportCountConcat(a: seq<ProbeCall>, b: seq<ProbeCall>)
    ensures ReportCount(a + b) == ReportCount(a) + ReportCount(b)
  {
    if b == [] {
      assert a + b == a;
    } else {
      assert (a + b)[..|a + b| - 1] == a + b[..|b| - 1];
      ReportCountConcat(a, b[..|b| - 1]);
    }
  }

  predicate NoAllocationReport(probes: seq<ProbeCall>) {
    forall k :: 0 <= k < |probes| ==> !probes[k].probe.ObjectAllocatedAt?
  }

  lemma {:induction false} NothingToCount(probes: seq<ProbeCall>)
    requires NoAllocationReport(probes)
    ensures ReportCount(probes) == 0
  {
    if probes != [] {
      NothingToCount(probes[..|probes| - 1]);
    }
  }

  /** ANEWARRAY of arrays is the one instruction whose report is wrong. */
  predicate MakesArrayOfArrays(i: Instr) {
    i.ANewArray? && "[" <= i.elementType
  }

  /** One original instruction against its rewriting, as far as allocation reports go. */
  ghost predicate ReportsKept(b: State, b': State, i: Instr, waiting: seq<nat>, waiting': seq<nat>) {
    && (ReportsAreRight(b.probes, b.heap) && !MakesArrayOfArrays(i) ==> ReportsAreRight(b'.probes, b'.heap))
    && ReportCount(b'.probes) + |waiting'| + |b.heap| == ReportCount(b.probes) + |waiting| + |b'.heap|
  }

  lemma OtherProbesKeepReports(b: State, b': State, added: seq<ProbeCall>, i: Instr, waiting: seq<nat>)
    requires b'.probes == b.probes + added && NoAllocationReport(added) && b'.heap == b.heap
    ensures ReportsKept(b, b', i, waiting, waiting)
  {
    ReportCountConcat(b.probes, added);
    NothingToCount(added);
  }

  lemma OneReportKept(b: State, b': State, id: nat, reported: string, methodId: int, i: Instr,
                      waiting: seq<nat>, waiting': seq<nat>)
    requires b'.probes == b.probes + [ProbeCall(ObjectAllocatedAt, [Obj(id), Text(reported), Num(methodId)])]
    requires b.heap <= b'.heap && id < |b'.heap|
    requires !MakesArrayOfArrays(i) ==> reported == b'.heap[id]
    requires 1 + |waiting'| + |b.heap| == |waiting| + |b'.heap|
    ensures ReportsKept(b, b', i, waiting, waiting')
  {
    var report := ProbeCall(ObjectAllocatedAt, [Obj(id), Text(reported), Num(methodId)]);
    assert b'.probes[..|b.probes|] == b.probes;
    if ReportsAreRight(b.probes, b.heap) && !MakesArrayOfArrays(i) {
      forall k | 0 <= k < |b'.probes| ensures ReportIsRight(b'.probes[k], b'.heap) {
        if k < |b.probes| {
          assert b'.probes[k] == b.probes[k];
          assert ReportIsRight(b.probes[k], b.heap);
        }
      }
    }
  }

  ghost predicate Kept(a': State, b: State, r: Rewritten, i: Instr, waiting: seq<nat>, waiting': seq<nat>,
                       base: nat, w: World) {
    var out := Exec(b, r.code, w);
    && out.Some? && Agree(a', out.value, base)
    && ReportsKept(b, out.value, i, waiting, waiting')
    && PendingMatches(a'.heap, r.pass.pending, waiting')
    && base <= r.pass.next
  }

  /** The situation before one instruction: both machines agree, the visitor knows what is waiting. */
  ghost predicate Before(a: State, a': State, b: State, i: Instr, pass: Pass, waiting: seq<nat>, base: nat, w: World) {
    && Agree(a, b, base) && IsOriginal(i, base) && Step(a, i, w) == Some(a')
    && base <= pass.next && PendingMatches(a.heap, pass.pending, waiting)
    && ShapedStep(a, i, waiting)
  }

  lemma ArrayIsReported(cfg: Config, a: State, a': State, b: State, i: Instr, pass: Pass, waiting: seq<nat>,
                        base: nat, w: World)
    requires Before(a, a', b, i, pass, waiting, base, w)
    requires i.ANewArray? || i.NewArray? || i.MultiANewArray?
    ensures Kept(a', b, RewriteInstr(cfg, i, pass), i, waiting, WaitingAfter(a, i, waiting), base, w)
  {
    OriginalStepAgrees(a, a', b, i, base, w);
    var b1 := Step(b, i, w).value;
    var reported := match i
      case ANewArray(e) => "[L" + e + ";"
      case NewArray(o) => PrimitiveArrayType(o)
      case MultiANewArray(t, _) => t
      case _ => "";
    assert b1.stack[|b1.stack| - 1] == Obj(|b.heap|);
    ExecOne(b, i, w);
    RecordAllocationRuns(b1, cfg, reported, w);
    ExecThen(b, [i], b1, RecordAllocation(cfg, reported), w);
    var b2 := Exec(b, [i] + RecordAllocation(cfg, reported), w).value;
    OneReportKept(b, b2, |b.heap|, reported, cfg.methodId, i, waiting, waiting);
  }

  lemma ConstructedIsReported(cfg: Config, a: State, a': State, b: State, i: Instr, pass: Pass, waiting: seq<nat>,
                              base: nat, w: World)
    requires Before(a, a', b, i, pass, waiting, base, w)
    requires IsConstructorCall(i) && waiting != []
    ensures Kept(a', b, RewriteInstr(cfg, i, pass), i, waiting, WaitingAfter(a, i, waiting), base, w)
  {
    OriginalStepAgrees(a, a', b, i, base, w);
    var b1, newest := Step(b, i, w).value, waiting[|waiting| - 1];
    var allocatedType := pass.pending[|pass.pending| - 1];
    assert a.heap[newest] == allocatedType;
    ConstructorLeavesTheObject(b, i, newest, w);
    ExecOne(b, i, w);
    RecordAllocationRuns(b1, cfg, allocatedType, w);
    ExecThen(b, [i], b1, RecordAllocation(cfg, allocatedType), w);
    var b2 := Exec(b, [i] + RecordAllocation(cfg, allocatedType), w).value;
    OneReportKept(b, b2, newest, allocatedType, cfg.methodId, i, waiting, WaitingAfter(a, i, waiting));
  }

  lemma ConstructorLeavesTheObject(st: State, i: Instr, newest: nat, w: World)
    requires IsConstructorCall(i) && Step(st, i, w).Some? && Parse(i.descriptor).Some?
    requires Parse(i.descriptor).value.result.VoidReturn?
    requires
      var n := OperandCount(i.opcode, Parse(i.descriptor).value);
      n < |st.stack| && st.stack[|st.stack| - n - 1] == Obj(newest)
    ensures
      var r := Step(st, i, w).value;
      && r.stack != [] && r.stack[|r.stack| - 1] == Obj(newest) && r.heap == st.heap && r.probes == st.probes
  {
  }

  lemma SameButAgrees(a': State, c: State, out: State, base: nat, next: nat)
    requires Agree(a', c, base) && SameBut(c, out, next) && base <= next
    ensures Agree(a', out, base)
  {
  }

  /** The original call has been made on the rewritten side; what is left is the code around it. */
  ghost predicate CallMade(a': State, b: State, c: State, i: Instr, pass: Pass, waiting: seq<nat>, base: nat, w: World) {
    && i.Invoke? && Step(b, i, w) == Some(c) && Agree(a', c, base) && c.heap == b.heap
    && base <= pass.next && PendingMatches(a'.heap, pass.pending, waiting)
  }

  lemma DirectSqlIsKept(a': State, b: State, c: State, i: Instr, pass: Pass, next': nat, waiting: seq<nat>,
                        base: nat, w: World)
    requires CallMade(a', b, c, i, pass, waiting, base, w)
    requires b.stack != [] && IsString(b.stack[|b.stack| - 1]) && base <= next'
    ensures Kept(a', b, Rewritten(DirectSql(i, pass.next), pass.(next := next')), i, waiting, waiting, base, w)
  {
    hide Exec, Step, Agree, SameBut, ReportsKept, PendingMatches, DirectSql;
    var v := b.stack[|b.stack| - 1];
    DirectSqlRuns(b, i, pass.next, w);
    SqlOutcome(a', b, c, Exec(b, DirectSql(i, pass.next), w).value,
               [ProbeCall(RecordSqlEnter, [v]), ProbeCall(RecordSqlExit, [v])], i, waiting, base, pass.next);
  }

  lemma PrepareSqlIsKept(a': State, b: State, c: State, i: Instr, pass: Pass, next': nat, waiting: seq<nat>,
                         base: nat, w: World)
    requires CallMade(a', b, c, i, pass, waiting, base, w) && IsPrepareSqlCall(i.name, i.descriptor)
    requires b.stack != [] && IsString(b.stack[|b.stack| - 1]) && base <= next'
    ensures Kept(a', b, Rewritten(PrepareSql(i, pass.next), pass.(next := next')), i, waiting, waiting, base, w)
  {
    hide Exec, Step, Agree, SameBut, ReportsKept, PendingMatches, PrepareSql;
    var v := b.stack[|b.stack| - 1];
    PrepareSqlRuns(b, i, pass.next, w);
    var added := [ProbeCall(RecordSqlEnter, [v])]
      + [ProbeCall(AssociatePreparedStatement, [c.stack[|c.stack| - 1], v]), ProbeCall(RecordSqlExit, [v])];
    var out := Exec(b, PrepareSql(i, pass.next), w).value;
    assert out.probes == b.probes + added;
    SqlOutcome(a', b, c, out, added, i, waiting, base, pass.next);
  }

  lemma ExecutionIsKept(a': State, b: State, c: State, i: Instr, pass: Pass, next': nat, waiting: seq<nat>,
                        base: nat, w: World)
    requires CallMade(a', b, c, i, pass, waiting, base, w)
    requires b.stack != [] && !b.stack[|b.stack| - 1].Num? && base <= next'
    ensures Kept(a', b, Rewritten(PreparedExecution(i, pass.next), pass.(next := next')), i, waiting, waiting, base, w)
  {
    hide Exec, Step, Agree, SameBut, ReportsKept, PendingMatches, PreparedExecution;
    var v := b.stack[|b.stack| - 1];
    PreparedExecutionRuns(b, i, pass.next, w);
    SqlOutcome(a', b, c, Exec(b, PreparedExecution(i, pass.next), w).value,
               [ProbeCall(EnterPrepared, [v]), ProbeCall(ExitPrepared, [])], i, waiting, base, pass.next);
  }

  lemma JdbcIsKept(a': State, b: State, c: State, i: Instr, pass: Pass, waiting: seq<nat>, base: nat, w: World)
    requires CallMade(a', b, c, i, pass, waiting, base, w) && c.locals == b.locals
    ensures Kept(a', b, Rewritten(JdbcCall(i), pass), i, waiting, waiting, base, w)
  {
    hide Exec, Step, ReportsKept, PendingMatches, JdbcCall;
    JdbcCallRuns(b, i, w);
    var out := Exec(b, JdbcCall(i), w).value;
    var added := out.probes[|b.probes|..];
    assert out.probes == b.probes + added;
    OtherProbesKeepReports(b, out, added, i, waiting);
  }

  lemma SqlOutcome(a': State, b: State, c: State, out: State, added: seq<ProbeCall>, i: Instr, waiting: seq<nat>,
                   base: nat, next: nat)
    requires Agree(a', c, base) && SameBut(c, out, next) && base <= next && c.heap == b.heap
    requires out.probes == b.probes + added && NoAllocationReport(added)
    ensures Agree(a', out, base) && ReportsKept(b, out, i, waiting, waiting)
  {
    SameButAgrees(a', c, out, base, next);
    OtherProbesKeepReports(b, out, added, i, waiting);
  }

  /** An instruction that is emitted as it came. */
  lemma CopiedIsKept(a: State, a': State, b: State, i: Instr, pass: Pass, next': seq<string>, waiting: seq<nat>,
                     waiting': seq<nat>, base: nat, w: World)
    requires Before(a, a', b, i, pass, waiting, base, w)
    requires |waiting'| - |waiting| == |a'.heap| - |a.heap| && PendingMatches(a'.heap, next', waiting')
    requires a.heap <= a'.heap
    ensures Kept(a', b, Rewritten([i], pass.(pending := next')), i, waiting, waiting', base, w)
  {
    OriginalStepAgrees(a, a', b, i, base, w);
    ExecOne(b, i, w);
    var b' := Step(b, i, w).value;
    forall k | 0 <= k < |b'.probes| && ReportsAreRight(b.probes, b.heap) ensures ReportIsRight(b'.probes[k], b'.heap) {
      assert ReportIsRight(b.probes[k], b.heap);
    }
  }

  lemma NewIsKept(cfg: Config, a: State, a': State, b: State, i: Instr, pass: Pass, waiting: seq<nat>,
                  base: nat, w: World)
    requires Before(a, a', b, i, pass, waiting, base, w) && i.New?
    ensures Kept(a', b, RewriteInstr(cfg, i, pass), i, waiting, WaitingAfter(a, i, waiting), base, w)
  {
    CopiedIsKept(a, a', b, i, pass, pass.pending + [i.className], waiting, waiting + [|a.heap|], base, w);
  }

  lemma InvokeIsKept(cfg: Config, a: State, a': State, b: State, i: Instr, pass: Pass, waiting: seq<nat>,
                     base: nat, w: World)
    requires Before(a, a', b, i, pass, waiting, base, w) && i.Invoke?
    requires !(IsConstructorCall(i) && waiting != [])
    ensures Kept(a', b, RewriteInstr(cfg, i, pass), i, waiting, WaitingAfter(a, i, waiting), base, w)
  {
    var next := pass.next;
    OriginalStepAgrees(a, a', b, i, base, w);
    CallIgnoresLocals(b, i, b.locals, b.probes, w);
    CallIgnoresLocals(a, i, a.locals, a.probes, w);
    var c := Step(b, i, w).value;
    ProbeIdsAreApiHotSpots(i.owner, i.name, i.descriptor);
    hide Exec, Step, Parse, IsJdbcOwner, IsApiHotSpot, JdbcProbeId, DirectSql, PrepareSql, PreparedExecution, JdbcCall;
    hide Agree, Kept, ReportsKept;
    if IsJdbcOwner(i.owner) && IsDirectSqlCall(i.name, i.descriptor) {
      DirectSqlIsKept(a', b, c, i, pass, next + 1 + LocalsForReturn(i.descriptor), waiting, base, w);
    } else if IsJdbcOwner(i.owner) && IsPrepareSqlCall(i.name, i.descriptor) {
      PrepareSqlIsKept(a', b, c, i, pass, next + 2, waiting, base, w);
    } else if IsJdbcOwner(i.owner) && IsPreparedSqlExecution(i.name, i.descriptor) {
      ExecutionIsKept(a', b, c, i, pass, next + 1 + LocalsForReturn(i.descriptor), waiting, base, w);
    } else if cfg.jdbcProbeEnabled && IsApiHotSpot(i.owner) {
      JdbcIsKept(a', b, c, i, pass, waiting, base, w);
    } else {
      CopiedIsKept(a, a', b, i, pass, pass.pending, waiting, waiting, base, w);
    }
  }

  lemma OtherIsKept(cfg: Config, a: State, a': State, b: State, i: Instr, pass: Pass, waiting: seq<nat>,
                    base: nat, w: World)
    requires Before(a, a', b, i, pass, waiting, base, w)
    requires i.Push? || i.Pop? || i.Dup? || i.Load? || i.Store?
    ensures Kept(a', b, RewriteInstr(cfg, i, pass), i, waiting, WaitingAfter(a, i, waiting), base, w)
  {
    CopiedIsKept(a, a', b, i, pass, pass.pending, waiting, waiting, base, w);
  }

  lemma InstrIsKept(cfg: Config, a: State, a': State, b: State, i: Instr, pass: Pass, waiting: seq<nat>,
                    base: nat, w: World)
    requires Before(a, a', b, i, pass, waiting, base, w)
    ensures Kept(a', b, RewriteInstr(cfg, i, pass), i, waiting, WaitingAfter(a, i, waiting), base, w)
  {
    match i
    case New(_) => NewIsKept(cfg, a, a', b, i, pass, waiting, base, w);
    case ANewArray(_) => ArrayIsReported(cfg, a, a', b, i, pass, waiting, base, w);
    case NewArray(_) => ArrayIsReported(cfg, a, a', b, i, pass, waiting, base, w);
    case MultiANewArray(_, _) => ArrayIsReported(cfg, a, a', b, i, pass, waiting, base, w);
    case Invoke(_, _, _, _) =>
      if IsConstructorCall(i) && waiting != [] {
        ConstructedIsReported(cfg, a, a', b, i, pass, waiting, base, w);
      } else {
        InvokeIsKept(cfg, a, a', b, i, pass, waiting, base, w);
      }
    case Push(_) => OtherIsKept(cfg, a, a', b, i, pass, waiting, base, w);
    case Pop => OtherIsKept(cfg, a, a', b, i, pass, waiting, base, w);
    case Dup => OtherIsKept(cfg, a, a', b, i, pass, waiting, base, w);
    case Load(_) => OtherIsKept(cfg, a, a', b, i, pass, waiting, base, w);
    case Store(_, _) => OtherIsKept(cfg, a, a', b, i, pass, waiting, base, w);
    case CallProbe(_) =>
    case WhenRecording(_, _) =>
  }

  predicate MakesNoArrayOfArrays(code: seq<Instr>) {
    forall k :: 0 <= k < |code| ==> !MakesArrayOfArrays(code[k])
  }

  /** What holds between the end of the original run and the end of the rewritten one. */
  ghost predicate BodyKept(end: State, b: State, out: State, code: seq<Instr>, waiting: seq<nat>, waiting': seq<nat>,
                           base: nat) {
    && Agree(end, out, base)
    && (ReportsAreRight(b.probes, b.heap) && MakesNoArrayOfArrays(code) ==> ReportsAreRight(out.probes, out.heap))
    && ReportCount(out.probes) + |waiting'| + |b.heap| == ReportCount(b.probes) + |waiting| + |out.heap|
  }

  /**
   * The rewritten body runs whenever the original does, to the same stack, heap, calls and locals;
   * every object that is finished is reported once, and under its own type.
   */
  lemma {:induction false} RewritingPreservesMeaning(
    cfg: Config, a: State, end: State, b: State, code: seq<Instr>, pass: Pass, waiting: seq<nat>, base: nat, w: World)
    requires Agree(a, b, base) && AllOriginal(code, base) && base <= pass.next
    requires PendingMatches(a.heap, pass.pending, waiting)
    requires Exec(a, code, w) == Some(end) && ShapedRun(a, code, waiting, w)
    ensures
      var out := Exec(b, Rewrite(cfg, code, pass).code, w);
      out.Some? && BodyKept(end, b, out.value, code, waiting, WaitingAtEnd(a, code, waiting, w), base)
    decreases code
  {
    if code != [] {
      var i, rest := code[0], code[1..];
      var a1, first := Step(a, i, w).value, RewriteInstr(cfg, i, pass);
      var waiting1 := WaitingAfter(a, i, waiting);
      assert IsOriginal(i, base);
      InstrIsKept(cfg, a, a1, b, i, pass, waiting, base, w);
      var b1 := Exec(b, first.code, w).value;
      assert AllOriginal(rest, base) by {
        forall k | 0 <= k < |rest| ensures IsOriginal(rest[k], base) {
          assert rest[k] == code[k + 1];
        }
      }
      RewritingPreservesMeaning(cfg, a1, end, b1, rest, first.pass, waiting1, base, w);
      ExecThen(b, first.code, b1, Rewrite(cfg, rest, first.pass).code, w);
      BodyStep(a1, end, b, b1, Exec(b1, Rewrite(cfg, rest, first.pass).code, w).value, code,
               waiting, waiting1, WaitingAtEnd(a1, rest, waiting1, w), base);
    }
  }

  lemma BodyStep(a1: State, end: State, b: State, b1: State, out: State, code: seq<Instr>, waiting: seq<nat>,
                 waiting1: seq<nat>, waiting': seq<nat>, base: nat)
    requires code != [] && Agree(a1, b1, base)
    requires ReportsKept(b, b1, code[0], waiting, waiting1)
    requires BodyKept(end, b1, out, code[1..], waiting1, waiting', base)
    ensures BodyKept(end, b, out, code, waiting, waiting', base)
  {
    if MakesNoArrayOfArrays(code) {
      assert !MakesArrayOfArrays(code[0]);
      forall k | 0 <= k < |code[1..]| ensures !MakesArrayOfArrays(code[1..][k]) {
        assert code[1..][k] == code[k + 1];
      }
    }
  }

  lemma EntryCodeKeepsState(st: State, cfg: Config, role: Role, w: World)
    ensures
      var inn, out := Exec(st, EntryCode(cfg, role), w), Exec(st, ExitCode(cfg, role), w);
      && inn.Some? && inn.value == With(st, st.locals, inn.value.probes)
      && out.Some? && out.value == With(st, st.locals, out.value.probes)
      && ReportCount(inn.value.probes) == ReportCount(st.probes)
      && ReportCount(out.value.probes) == ReportCount(st.probes)
      && (ReportsAreRight(st.probes, st.heap) ==>
        ReportsAreRight(inn.value.probes, st.heap) && ReportsAreRight(out.value.probes, st.heap))
  {
    GuardedProbeKeepsState(st, [Num(cfg.methodId)], RecordMethodEnter, w);
    GuardedProbeKeepsState(st, [Num(cfg.methodId)], RecordMethodExit, w);
    GuardedProbeKeepsState(st, [Num(cfg.methodId), Num(1)], RecordTraceEnter, w);
    GuardedProbeKeepsState(st, [Num(cfg.methodId)], RecordTraceExit, w);
  }

  lemma GuardedProbeKeepsState(st: State, operands: seq<Value>, probe: Probe, w: World)
    requires AllFit(operands, ProbeParams(probe)) && !probe.ObjectAllocatedAt?
    ensures
      var out := Exec(st, [WhenRecording(operands, probe)], w);
      && out.Some? && out.value == With(st, st.locals, out.value.probes)
      && ReportCount(out.value.probes) == ReportCount(st.probes)
      && (ReportsAreRight(st.probes, st.heap) ==> ReportsAreRight(out.value.probes, st.heap))
  {
    ExecOne(st, WhenRecording(operands, probe), w);
    ProbeTakesItsOperands(st, operands, probe, w);
    assert (st.probes + [ProbeCall(probe, operands)])[..|st.probes|] == st.probes;
  }

  /** A whole method, entry and exit code included, recording or not. */
  lemma MethodKeepsMeaning(cfg: Config, role: Role, a: State, end: State, code: seq<Instr>, base: nat, w: World)
    requires AllOriginal(code, base) && a.probes == []
    requires Exec(a, code, w) == Some(end) && ShapedRun(a, code, [], w)
    ensures
      var out := Exec(a, RewriteMethod(cfg, role, code, base), w);
      && out.Some? && Agree(end, out.value, base)
      && ReportCount(out.value.probes) + |WaitingAtEnd(a, code, [], w)| == |out.value.heap| - |a.heap|
      && (MakesNoArrayOfArrays(code) ==> ReportsAreRight(out.value.probes, out.value.heap))
  {
    var body := Rewrite(cfg, code, Pass([], base)).code;
    EntryCodeKeepsState(a, cfg, role, w);
    var a0 := Exec(a, EntryCode(cfg, role), w).value;
    RewritingPreservesMeaning(cfg, a, end, a0, code, Pass([], base), [], base, w);
    var mid := Exec(a0, body, w).value;
    EntryCodeKeepsState(mid, cfg, role, w);
    ExecThen(a, EntryCode(cfg, role), a0, body, w);
    ExecThen(a, EntryCode(cfg, role) + body, mid, ExitCode(cfg, role), w);
  }

  // ---- exactly when the counted-on shapes are there

  /** The reported type of an ANEWARRAY is the array's type if and only if its elements are not arrays. */
  lemma ArrayReportIsRight(elementType: string)
    ensures "[L" + elementType + ";" == ArrayTypeOf(elementType) <==> !("[" <= elementType)
  {
    if "[" <= elementType {
      assert ("[" + elementType)[1] == '[' && ("[L" + elementType + ";")[1] == 'L';
    }
  }

  lemma StuckStays(st: State, a: seq<Instr>, b: seq<Instr>, w: World)
    requires Exec(st, a, w).None?
    ensures Exec(st, a + b, w).None?
  {
    ExecConcat(st, a, b, w);
  }

  lemma TextProbeNeedsText(st: State, w: World)
    requires st.stack != [] && !IsString(st.stack[|st.stack| - 1])
    ensures Step(st, CallProbe(RecordSqlEnter), w).None?
  {
    var operands := Top(st.stack, 1);
    assert !Fits(operands[0], StringParam);
    assert !AllFit(operands, [StringParam]);
  }

  lemma SqlHeadNeedsText(st: State, next: nat, w: World)
    requires st.stack != [] && !IsString(st.stack[|st.stack| - 1])
    ensures Exec(st, [Store(next, RefKind)] + Report(next, RecordSqlEnter), w).None?
  {
    hide AllFit, Fits, StepProbe;
    var v := st.stack[|st.stack| - 1];
    if !v.Num? {
      var s1 := st.(stack := Without(st.stack, 1), locals := st.locals[next := v]);
      var s2 := s1.(stack := s1.stack + [v]);
      ExecCons(st, Store(next, RefKind), Report(next, RecordSqlEnter), w);
      assert Report(next, RecordSqlEnter) == [Load(next)] + [CallProbe(RecordSqlEnter)];
      ExecCons(s1, Load(next), [CallProbe(RecordSqlEnter)], w);
      ExecOne(s2, CallProbe(RecordSqlEnter), w);
      TextProbeNeedsText(s2, w);
    }
  }

  lemma InterceptedSqlHasAnOperand(st: State, i: Instr, w: World)
    requires IsInterceptedSql(i) && Step(st, i, w).Some?
    ensures Parse(i.descriptor).Some? && |Parse(i.descriptor).value.params| > 0 && st.stack != []
    ensures
      var params := Parse(i.descriptor).value.params;
      Fits(st.stack[|st.stack| - 1], params[|params| - 1])
  {
    FirstParamIsString(i.descriptor);
  }

  /** The code around a direct SQL call runs, where the call itself does, if and only if a string is on top. */
  lemma DirectSqlNeedsTextOnTop(st: State, i: Instr, next: nat, w: World)
    requires IsInterceptedSql(i) && Step(st, i, w).Some? && st.stack != []
    ensures Exec(st, DirectSql(i, next), w).Some? <==> IsString(st.stack[|st.stack| - 1])
  {
    if IsString(st.stack[|st.stack| - 1]) {
      DirectSqlRuns(st, i, next, w);
    } else {
      var tail := [Load(next), i] + SavingReturn(i.descriptor, next + 1, Report(next, RecordSqlExit));
      SqlHeadNeedsText(st, next, w);
      StuckStays(st, [Store(next, RefKind)] + Report(next, RecordSqlEnter), tail, w);
      assert DirectSql(i, next) == ([Store(next, RefKind)] + Report(next, RecordSqlEnter)) + tail;
    }
  }

  /** So it never runs around a call whose last parameter is a number. */
  lemma NumberLastNeverRuns(st: State, i: Instr, next: nat, w: World)
    requires IsInterceptedSql(i) && Step(st, i, w).Some? && Parse(i.descriptor).Some?
    requires
      var params := Parse(i.descriptor).value.params;
      params != [] && params[|params| - 1] == PrimParam
    ensures Exec(st, DirectSql(i, next), w).None?
  {
    InterceptedSqlHasAnOperand(st, i, w);
    DirectSqlNeedsTextOnTop(st, i, next, w);
  }

  /** An update that is told whether to return generated keys is such a call. */
  lemma UpdateWithKeysNeverRuns(st: State, opcode: Opcode, owner: string, next: nat, w: World)
    requires IsJdbcOwner(owner)
    requires Step(st, Invoke(opcode, owner, "executeUpdate", "(" + STRING_TYPE + "I)I"), w).Some?
    ensures
      var i := Invoke(opcode, owner, "executeUpdate", "(" + STRING_TYPE + "I)I");
      IsInterceptedSql(i) && Exec(st, DirectSql(i, next), w).None?
  {
    hide Parse, ParseParams, Step, Exec, IsJdbcOwner, STRING_TYPE;
    var i := Invoke(opcode, owner, "executeUpdate", "(" + STRING_TYPE + "I)I");
    NumberReturned();
    StringThenNumber(")I");
    assert i.descriptor == "(" + (STRING_TYPE + ("I" + ")I"));
    NumberLastNeverRuns(st, i, next, w);
  }

  lemma {:induction false} SemicolonAt(s: string, k: nat)
    requires k < |s| && s[k] == ';' && forall j :: 0 <= j < k ==> s[j] != ';'
    ensures AfterSemicolon(s) == Some(s[k + 1..])
  {
    if k > 0 {
      SemicolonAt(s[1..], k - 1);
    }
  }

  lemma ParamComesOff(s: string, rest: string, params: seq<Param>, result: Return)
    requires AfterType(s) == Some(rest)
    requires ParseParams(rest) == Some(Signature(params, result))
    ensures ParseParams(s) == Some(Signature([ParamOf(s)] + params, result))
  {
  }

  lemma StringComesOff(rest: string)
    ensures AfterType(STRING_TYPE + rest) == Some(rest) && ParamOf(STRING_TYPE + rest) == StringParam
  {
    var s := STRING_TYPE + rest;
    assert s[0] == 'L' && s[1..][17..] == rest;
    SemicolonAt(s[1..], 16);
  }

  lemma NumberComesOff(rest: string)
    ensures AfterType("I" + rest) == Some(rest) && ParamOf("I" + rest) == PrimParam
  {
    assert ("I" + rest)[1..] == rest;
  }

  lemma NumberReturned()
    ensures ParseParams(")I") == Some(Signature([], ValueReturn(PrimKind)))
  {
    NumberComesOff("");
    assert "I" + "" == "I" && ")I"[1..] == "I";
  }

  lemma StringThenNumber(end: string)
    requires ParseParams(end) == Some(Signature([], ValueReturn(PrimKind)))
    ensures Parse("(" + (STRING_TYPE + ("I" + end))) == Some(Signature([StringParam, PrimParam], ValueReturn(PrimKind)))
  {
    hide AfterType, ParseParams, ParamOf, STRING_TYPE;
    var number, text := "I" + end, STRING_TYPE + ("I" + end);
    NumberComesOff(end);
    ParamComesOff(number, end, [], ValueReturn(PrimKind));
    assert [PrimParam] + [] == [PrimParam];
    StringComesOff(number);
    ParamComesOff(text, number, [PrimParam], ValueReturn(PrimKind));
    assert ("(" + text)[1..] == text;
    assert [StringParam] + [PrimParam] == [StringParam, PrimParam];
  }

  lemma PrepareSqlNeedsTextOnTop(st: State, i: Instr, next: nat, w: World)
    requires IsInterceptedSql(i) && IsPrepareSqlCall(i.name, i.descriptor) && Step(st, i, w).Some? && st.stack != []
    ensures Exec(st, PrepareSql(i, next), w).Some? <==> IsString(st.stack[|st.stack| - 1])
  {
    if IsString(st.stack[|st.stack| - 1]) {
      PrepareSqlRuns(st, i, next, w);
    } else {
      var tail := [Load(next), i] + Association(next, next + 1);
      SqlHeadNeedsText(st, next, w);
      StuckStays(st, [Store(next, RefKind)] + Report(next, RecordSqlEnter), tail, w);
      assert PrepareSql(i, next) == ([Store(next, RefKind)] + Report(next, RecordSqlEnter)) + tail;
    }
  }

  /** So an intercepted call whose last parameter is a String is always shaped as the rewriting needs. */
  lemma StringLastIsShaped(st: State, i: Instr, w: World)
    requires IsInterceptedSql(i) && Step(st, i, w).Some? && Parse(i.descriptor).Some?
    requires
      var params := Parse(i.descriptor).value.params;
      params != [] && params[|params| - 1] == StringParam
    ensures st.stack != [] && IsString(st.stack[|st.stack| - 1])
  {
    InterceptedSqlHasAnOperand(st, i, w);
  }

  /** A zero-argument execution of an instance method has its statement on top. */
  lemma InstanceExecutionIsShaped(st: State, i: Instr, w: World)
    requires IsInterceptedExecution(i) && !i.opcode.InvokeStatic? && Step(st, i, w).Some?
    ensures st.stack != [] && !st.stack[|st.stack| - 1].Num?
  {
    NoParams(i.descriptor);
  }

  // ---- nesting

  lemma ShapedRunStep(st: State, i: Instr, rest: seq<Instr>, next: State, waiting: seq<nat>, w: World)
    requires Step(st, i, w) == Some(next) && ShapedStep(st, i, waiting)
    requires ShapedRun(next, rest, WaitingAfter(st, i, waiting), w)
    ensures ShapedRun(st, [i] + rest, waiting, w)
    ensures WaitingAtEnd(st, [i] + rest, waiting, w) == WaitingAtEnd(next, rest, WaitingAfter(st, i, waiting), w)
  {
    hide Step, ShapedStep, WaitingAfter;
    assert ([i] + rest)[1..] == rest;
  }

  lemma {:induction false} ShapedRunConcat(st: State, a: seq<Instr>, mid: State, b: seq<Instr>, waiting: seq<nat>, w: World)
    requires Exec(st, a, w) == Some(mid) && ShapedRun(st, a, waiting, w)
    requires ShapedRun(mid, b, WaitingAtEnd(st, a, waiting, w), w)
    ensures ShapedRun(st, a + b, waiting, w)
    ensures WaitingAtEnd(st, a + b, waiting, w) == WaitingAtEnd(mid, b, WaitingAtEnd(st, a, waiting, w), w)
    decreases a
  {
    hide Step, ShapedStep, WaitingAfter;
    if a == [] {
      assert a + b == b;
    } else {
      var next := Step(st, a[0], w).value;
      assert a + b == [a[0]] + (a[1..] + b);
      ShapedRunConcat(next, a[1..], mid, b, WaitingAfter(st, a[0], waiting), w);
      ShapedRunStep(st, a[0], a[1..] + b, next, waiting, w);
    }
  }

  lemma ConstructorCallIsShaped(mid: State, call: Instr, end: State, id: nat, waiting: seq<nat>, w: World)
    requires IsConstructorCall(call) && Parse(call.descriptor).Some?
    requires Parse(call.descriptor).value.result.VoidReturn? && Step(mid, call, w) == Some(end)
    requires id < |mid.heap| && mid.heap[id] == call.owner
    requires
      var n := OperandCount(call.opcode, Parse(call.descriptor).value);
      n < |mid.stack| && mid.stack[|mid.stack| - n] == Obj(id) && mid.stack[|mid.stack| - n - 1] == Obj(id)
    ensures ShapedRun(mid, [call], waiting + [id], w) && WaitingAtEnd(mid, [call], waiting + [id], w) == waiting
  {
    hide Parse, Step;
    assert (waiting + [id])[..|waiting|] == waiting && [call] + [] == [call];
    assert ShapedRun(end, [], waiting, w);
    ShapedRunStep(mid, call, [], end, waiting + [id], w);
  }

  /** NEW and DUP in front of shaped code. */
  lemma NewAndDupAreShaped(st: State, className: string, rest: seq<Instr>, waiting: seq<nat>, w: World)
    requires
      var id := |st.heap|;
      var s2 := st.(stack := st.stack + [Obj(id), Obj(id)], heap := st.heap + [className]);
      ShapedRun(s2, rest, waiting + [id], w)
    ensures ShapedRun(st, [New(className)] + ([Dup] + rest), waiting, w)
    ensures
      var id := |st.heap|;
      var s2 := st.(stack := st.stack + [Obj(id), Obj(id)], heap := st.heap + [className]);
      WaitingAtEnd(st, [New(className)] + ([Dup] + rest), waiting, w) == WaitingAtEnd(s2, rest, waiting + [id], w)
  {
    hide ShapedRun, WaitingAtEnd, StepInvoke, StepProbe;
    var id := |st.heap|;
    var s1 := st.(stack := st.stack + [Obj(id)], heap := st.heap + [className]);
    var s2 := st.(stack := st.stack + [Obj(id), Obj(id)], heap := st.heap + [className]);
    assert Without(st.stack, 0) == st.stack && s1.stack + [Obj(id)] == s2.stack;
    ShapedRunStep(s1, Dup, rest, s2, waiting + [id], w);
    ShapedRunStep(st, New(className), [Dup] + rest, s1, waiting, w);
  }

  /**
   * NEW, DUP, argument code, constructor call: if the argument code is shaped itself, leaves the two
   * references where they were and ends with nothing more waiting than the new object, the whole is
   * shaped and leaves waiting what was waiting before.
   */
  lemma NestedConstructionIsShaped(st: State, className: string, args: seq<Instr>, mid: State, values: seq<Value>,
                                   call: Instr, end: State, waiting: seq<nat>, w: World)
    requires IsConstructorCall(call) && call.owner == className && Parse(call.descriptor).Some?
    requires Parse(call.descriptor).value.result.VoidReturn?
    requires |values| == |Parse(call.descriptor).value.params|
    requires
      var id := |st.heap|;
      var s2 := st.(stack := st.stack + [Obj(id), Obj(id)], heap := st.heap + [className]);
      && Exec(s2, args, w) == Some(mid)
      && ShapedRun(s2, args, waiting + [id], w)
      && WaitingAtEnd(s2, args, waiting + [id], w) == waiting + [id]
      && mid.stack == s2.stack + values && s2.heap <= mid.heap
    requires Step(mid, call, w) == Some(end)
    ensures ShapedRun(st, [New(className)] + ([Dup] + (args + [call])), waiting, w)
    ensures WaitingAtEnd(st, [New(className)] + ([Dup] + (args + [call])), waiting, w) == waiting
  {
    hide Exec, ShapedRun, WaitingAtEnd, Step;
    var id := |st.heap|;
    var s2 := st.(stack := st.stack + [Obj(id), Obj(id)], heap := st.heap + [className]);
    ConstructorCallIsShaped(mid, call, end, id, waiting, w);
    ShapedRunConcat(s2, args, mid, [call], waiting + [id], w);
    NewAndDupAreShaped(st, className, args + [call], waiting, w);
  }
}
