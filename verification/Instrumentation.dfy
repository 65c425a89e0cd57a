/** The rewriting of method bodies: probe calls put in around allocations, SQL calls and JDBC calls. */
module Instrumentation {
  import opened Sequences
  import opened Bytecode

  datatype Config = Config(methodId: int, jdbcProbeEnabled: bool, probeMode: string, nativeTiming: bool)

  // ---- what is recognised

  predicate IsApiHotSpot(owner: string) {
    "java/sql/" <= owner || "javax/sql/" <= owner || "javax/persistence/" <= owner || "javax/naming/" <= owner
  }

  predicate IsJdbcOwner(owner: string) {
    || "java/sql/" <= owner || "javax/sql/" <= owner || "org/hsqldb/" <= owner || "org/postgresql/" <= owner
    || "com/mysql/" <= owner || "com/microsoft/sqlserver/" <= owner || "oracle/jdbc/" <= owner
    || "org/mariadb/jdbc/" <= owner || "com/ibm/db2/" <= owner
  }

  predicate IsDirectSqlCall(name: string, descriptor: string) {
    && "(" + STRING_TYPE <= descriptor
    && (name == "execute" || name == "executeQuery" || name == "executeUpdate"
        || name == "executeLargeUpdate" || name == "addBatch")
  }

  predicate IsPrepareSqlCall(name: string, descriptor: string) {
    && (name == "prepareStatement" || name == "prepareCall")
    && "(" + STRING_TYPE <= descriptor && EndsWith(descriptor, ";")
  }

  predicate IsPreparedSqlExecution(name: string, descriptor: string) {
    && "()" <= descriptor
    && (name == "execute" || name == "executeQuery" || name == "executeUpdate"
        || name == "executeLargeUpdate" || name == "executeBatch" || name == "executeLargeBatch")
  }

  function JdbcProbeId(owner: string, name: string, descriptor: string): int {
    if owner == "java/sql/Statement" then
      if name == "executeQuery" && descriptor == "(Ljava/lang/String;)Ljava/sql/ResultSet;" then 0
      else if name == "close" && descriptor == "()V" then 1
      else -1
    else if owner == "java/sql/PreparedStatement" then
      if name == "executeQuery" && descriptor == "()Ljava/sql/ResultSet;" then 2
      else if name == "execute" && descriptor == "()Z" then 3
      else if name == "executeBatch" && descriptor == "()[I" then 4
      else if name == "executeUpdate" && descriptor == "()I" then 5
      else if name == "setString" && descriptor == "(ILjava/lang/String;)V" then 6
      else if name == "addBatch" && descriptor == "()V" then 7
      else -1
    else if owner == "java/sql/Connection" then
      if name == "prepareStatement" && descriptor == "(Ljava/lang/String;)Ljava/sql/PreparedStatement;" then 8
      else if name == "createStatement" && descriptor == "()Ljava/sql/Statement;" then 9
      else if name == "close" && descriptor == "()V" then 10
      else -1
    else if owner == "javax/sql/DataSource" then
      if name == "getConnection" && descriptor == "()Ljava/sql/Connection;" then 11 else -1
    else -1
  }

  /** Every call that has a probe id is an API hot spot, so the branch for probe ids never comes up. */
  lemma ProbeIdsAreApiHotSpots(owner: string, name: string, descriptor: string)
    ensures JdbcProbeId(owner, name, descriptor) >= 0 ==> IsApiHotSpot(owner)
  {
    assert "java/sql/" <= "java/sql/Statement" && "java/sql/" <= "java/sql/PreparedStatement";
    assert "java/sql/" <= "java/sql/Connection" && "javax/sql/" <= "javax/sql/DataSource";
  }

  function DotName(owner: string): (r: string)
    ensures |r| == |owner|
  {
    seq(|owner|, i requires 0 <= i < |owner| => if owner[i] == '/' then '.' else owner[i])
  }

  // ---- what is emitted

  function RecordAllocation(cfg: Config, allocatedType: string): seq<Instr> {
    [Dup, Push(Text(allocatedType)), Push(Num(cfg.methodId)), CallProbe(ObjectAllocatedAt)]
  }

  /** Hands a saved value to a probe. */
  function Report(local: nat, probe: Probe): seq<Instr> {
    [Load(local), CallProbe(probe)]
  }

  /** Puts the call's value aside while a probe runs. */
  function SavingReturn(descriptor: string, local: nat, probeCode: seq<Instr>): seq<Instr> {
    var parsed := Parse(descriptor);
    if parsed.Some? && parsed.value.result.ValueReturn? then
      [Store(local, parsed.value.result.kind)] + probeCode + [Load(local)]
    else probeCode
  }

  function LocalsForReturn(descriptor: string): nat {
    var parsed := Parse(descriptor);
    if parsed.Some? && parsed.value.result.ValueReturn? then 1 else 0
  }

  function DirectSql(call: Instr, next: nat): seq<Instr>
    requires call.Invoke?
  {
    [Store(next, RefKind)] + Report(next, RecordSqlEnter) + [Load(next), call]
    + SavingReturn(call.descriptor, next + 1, Report(next, RecordSqlExit))
  }

  function Association(sqlLocal: nat, statementLocal: nat): seq<Instr> {
    [Store(statementLocal, RefKind)] + [Load(statementLocal)] + [Load(sqlLocal)] + [CallProbe(AssociatePreparedStatement)]
    + Report(sqlLocal, RecordSqlExit) + [Load(statementLocal)]
  }

  function PrepareSql(call: Instr, next: nat): seq<Instr>
    requires call.Invoke?
  {
    [Store(next, RefKind)] + Report(next, RecordSqlEnter) + [Load(next), call]
    + Association(next, next + 1)
  }

  function PreparedExecution(call: Instr, next: nat): seq<Instr>
    requires call.Invoke?
  {
    [Dup, Store(next, RefKind)] + Report(next, EnterPrepared) + [call]
    + SavingReturn(call.descriptor, next + 1, [CallProbe(ExitPrepared)])
  }

  function NamedProbe(call: Instr, probe: Probe): seq<Instr>
    requires call.Invoke?
  {
    [Push(Text(DotName(call.owner))), Push(Text(call.name)), Push(Text(call.descriptor)), CallProbe(probe)]
  }

  function JdbcCall(call: Instr): seq<Instr>
    requires call.Invoke?
  {
    NamedProbe(call, RecordJdbcEnter) + [call] + NamedProbe(call, RecordJdbcExit)
  }

  function ProbeIdCall(cfg: Config, call: Instr, probeId: int): seq<Instr>
    requires call.Invoke?
  {
    if cfg.probeMode == "native" && cfg.nativeTiming then
      [Push(Num(probeId)), CallProbe(NativeProbeEnter), call, Push(Num(probeId)), CallProbe(NativeProbeExit)]
    else if cfg.probeMode == "id" then
      [Push(Num(probeId)), CallProbe(IdProbeEnter), call, Push(Num(probeId)), CallProbe(IdProbeExit)]
    else JdbcCall(call)
  }

  /** The visitor between two instructions: types of the NEWs still waiting for their constructor, next free local. */
  datatype Pass = Pass(pending: seq<string>, next: nat)

  datatype Rewritten = Rewritten(code: seq<Instr>, pass: Pass)

  predicate IsConstructorCall(i: Instr) {
    i.Invoke? && i.opcode.InvokeSpecial? && i.name == "<init>"
  }

  function RewriteInvoke(cfg: Config, i: Instr, pass: Pass): Rewritten
    requires i.Invoke?
  {
    if IsConstructorCall(i) && pass.pending != [] then
      var allocatedType := pass.pending[|pass.pending| - 1];
      Rewritten([i] + (if i.owner == allocatedType then RecordAllocation(cfg, allocatedType) else []),
                pass.(pending := pass.pending[..|pass.pending| - 1]))
    else if IsJdbcOwner(i.owner) && IsDirectSqlCall(i.name, i.descriptor) then
      Rewritten(DirectSql(i, pass.next), pass.(next := pass.next + 1 + LocalsForReturn(i.descriptor)))
    else if IsJdbcOwner(i.owner) && IsPrepareSqlCall(i.name, i.descriptor) then
      Rewritten(PrepareSql(i, pass.next), pass.(next := pass.next + 2))
    else if IsJdbcOwner(i.owner) && IsPreparedSqlExecution(i.name, i.descriptor) then
      Rewritten(PreparedExecution(i, pass.next), pass.(next := pass.next + 1 + LocalsForReturn(i.descriptor)))
    else if cfg.jdbcProbeEnabled && IsApiHotSpot(i.owner) then
      Rewritten(JdbcCall(i), pass)
    else if cfg.jdbcProbeEnabled && JdbcProbeId(i.owner, i.name, i.descriptor) >= 0 then
      Rewritten(ProbeIdCall(cfg, i, JdbcProbeId(i.owner, i.name, i.descriptor)), pass)
    else
      Rewritten([i], pass)
  }

  function RewriteInstr(cfg: Config, i: Instr, pass: Pass): Rewritten {
    match i
    case New(className) => Rewritten([i], pass.(pending := pass.pending + [className]))
    case ANewArray(elementType) => Rewritten([i] + RecordAllocation(cfg, "[L" + elementType + ";"), pass)
    case NewArray(operand) => Rewritten([i] + RecordAllocation(cfg, PrimitiveArrayType(operand)), pass)
    case MultiANewArray(arrayType, _) => Rewritten([i] + RecordAllocation(cfg, arrayType), pass)
    case Invoke(_, _, _, _) => RewriteInvoke(cfg, i, pass)
    case _ => Rewritten([i], pass)
  }

  function Rewrite(cfg: Config, code: seq<Instr>, pass: Pass): Rewritten
    decreases code
  {
    if code == [] then Rewritten([], pass)
    else
      var first := RewriteInstr(cfg, code[0], pass);
      var rest := Rewrite(cfg, code[1..], first.pass);
      Rewritten(first.code + rest.code, rest.pass)
  }

  /** Entry and exit code of a recorded method, and of a method that is only an allocation boundary. */
  datatype Role = Recorded | Boundary | Unmarked

  function EntryCode(cfg: Config, role: Role): seq<Instr> {
    match role
    case Recorded => [WhenRecording([Num(cfg.methodId)], RecordMethodEnter)]
    case Boundary => [WhenRecording([Num(cfg.methodId), Num(1)], RecordTraceEnter)]
    case Unmarked => []
  }

  function ExitCode(cfg: Config, role: Role): seq<Instr> {
    match role
    case Recorded => [WhenRecording([Num(cfg.methodId)], RecordMethodExit)]
    case Boundary => [WhenRecording([Num(cfg.methodId)], RecordTraceExit)]
    case Unmarked => []
  }

  /** A method body up to its return, with its entry and exit code. */
  function RewriteMethod(cfg: Config, role: Role, code: seq<Instr>, firstFreeLocal: nat): seq<Instr> {
    EntryCode(cfg, role) + Rewrite(cfg, code, Pass([], firstFreeLocal)).code + ExitCode(cfg, role)
  }

  /** The visitor itself: it emits as it is called, instruction by instruction. */
  class ProfilingMethodVisitor {
    const cfg: Config
    var pendingNewTypes: seq<string>
    var nextLocal: nat
    var emitted: seq<Instr>

    constructor (cfg: Config, firstFreeLocal: nat)
      ensures this.cfg == cfg && emitted == []
      ensures Pending() == Pass([], firstFreeLocal)
    {
      this.cfg := cfg;
      pendingNewTypes, nextLocal, emitted := [], firstFreeLocal, [];
    }

    function Pending(): Pass
      reads this
    {
      Pass(pendingNewTypes, nextLocal)
    }

    twostate predicate Emitted(i: Instr)
      reads this
    {
      var r := RewriteInstr(cfg, i, old(Pending()));
      emitted == old(emitted) + r.code && Pending() == r.pass
    }

    method Emit(i: Instr)
      modifies this`emitted
      ensures emitted == old(emitted) + [i]
    {
      emitted := emitted + [i];
    }

    method EmitAllocation(allocatedType: string)
      modifies this`emitted
      ensures emitted == old(emitted) + RecordAllocation(cfg, allocatedType)
    {
      Emit(Dup);
      Emit(Push(Text(allocatedType)));
      Emit(Push(Num(cfg.methodId)));
      Emit(CallProbe(ObjectAllocatedAt));
    }

    method VisitTypeInsn(i: Instr)
      requires i.New? || i.ANewArray?
      modifies this
      ensures Emitted(i)
    {
      if i.New? {
        pendingNewTypes := pendingNewTypes + [i.className];
      }
      Emit(i);
      if i.ANewArray? {
        EmitAllocation("[L" + i.elementType + ";");
      }
    }

    method VisitIntInsn(i: Instr)
      requires i.NewArray?
      modifies this
      ensures Emitted(i)
    {
      Emit(i);
      EmitAllocation(PrimitiveArrayType(i.operand));
    }

    method VisitMultiANewArrayInsn(i: Instr)
      requires i.MultiANewArray?
      modifies this
      ensures Emitted(i)
    {
      Emit(i);
      EmitAllocation(i.arrayType);
    }

    method NewLocal() returns (local: nat)
      modifies this`nextLocal
      ensures local == old(nextLocal) && nextLocal == local + 1
    {
      local := nextLocal;
      nextLocal := nextLocal + 1;
    }

    method EmitReport(local: nat, probe: Probe)
      modifies this`emitted
      ensures emitted == old(emitted) + Report(local, probe)
    {
      Emit(Load(local));
      Emit(CallProbe(probe));
    }

    method VisitConstructorCall(i: Instr)
      requires IsConstructorCall(i) && pendingNewTypes != []
      modifies this
      ensures Emitted(i)
    {
      Emit(i);
      var allocatedType := pendingNewTypes[|pendingNewTypes| - 1];
      pendingNewTypes := pendingNewTypes[..|pendingNewTypes| - 1];
      if i.owner == allocatedType {
        EmitAllocation(allocatedType);
      }
    }

    /** Everything up to and with the call, for a call that takes the SQL text. */
    method EmitSqlCall(i: Instr) returns (sqlLocal: nat)
      requires i.Invoke?
      modifies this`emitted, this`nextLocal
      ensures sqlLocal == old(nextLocal) && nextLocal == sqlLocal + 1
      ensures emitted == old(emitted)
        + ([Store(sqlLocal, RefKind)] + Report(sqlLocal, RecordSqlEnter) + [Load(sqlLocal), i])
    {
      sqlLocal := NewLocal();
      Emit(Store(sqlLocal, RefKind));
      EmitReport(sqlLocal, RecordSqlEnter);
      Emit(Load(sqlLocal));
      Emit(i);
    }

    /** The exit probe, with the call's value put aside if it has one. */
    method EmitExitPreservingReturn(descriptor: string, probeCode: seq<Instr>)
      modifies this`emitted, this`nextLocal
      ensures emitted == old(emitted) + SavingReturn(descriptor, old(nextLocal), probeCode)
      ensures nextLocal == old(nextLocal) + LocalsForReturn(descriptor)
    {
      var parsed := Parse(descriptor);
      if parsed.None? || parsed.value.result.VoidReturn? {
        emitted := emitted + probeCode;
        return;
      }
      var returnLocal := NewLocal();
      Emit(Store(returnLocal, parsed.value.result.kind));
      emitted := emitted + probeCode;
      Emit(Load(returnLocal));
    }

    method VisitSqlCall(i: Instr)
      requires i.Invoke? && !(IsConstructorCall(i) && pendingNewTypes != [])
      requires IsJdbcOwner(i.owner)
      requires IsDirectSqlCall(i.name, i.descriptor) || IsPrepareSqlCall(i.name, i.descriptor)
      modifies this
      ensures Emitted(i)
    {
      hide IsJdbcOwner, Parse;
      var sqlLocal := EmitSqlCall(i);
      if IsDirectSqlCall(i.name, i.descriptor) {
        EmitExitPreservingReturn(i.descriptor, Report(sqlLocal, RecordSqlExit));
        return;
      }
      EmitAssociation(sqlLocal);
    }

    /** After a prepare call: the statement is tied to its text, the exit probe runs, the statement comes back. */
    method EmitAssociation(sqlLocal: nat)
      modifies this`emitted, this`nextLocal
      ensures emitted == old(emitted) + Association(sqlLocal, old(nextLocal))
      ensures nextLocal == old(nextLocal) + 1
    {
      var statementLocal := NewLocal();
      Emit(Store(statementLocal, RefKind));
      Emit(Load(statementLocal));
      Emit(Load(sqlLocal));
      Emit(CallProbe(AssociatePreparedStatement));
      EmitReport(sqlLocal, RecordSqlExit);
      Emit(Load(statementLocal));
    }

    method VisitMethodInsn(i: Instr)
      requires i.Invoke?
      modifies this
      ensures Emitted(i)
    {
      hide DirectSql, PrepareSql, JdbcCall, ProbeIdCall, IsJdbcOwner, IsApiHotSpot, JdbcProbeId, Parse;
      if IsConstructorCall(i) && pendingNewTypes != [] {
        VisitConstructorCall(i);
        return;
      }
      if IsJdbcOwner(i.owner) && (IsDirectSqlCall(i.name, i.descriptor) || IsPrepareSqlCall(i.name, i.descriptor)) {
        VisitSqlCall(i);
        return;
      }
      if IsJdbcOwner(i.owner) && IsPreparedSqlExecution(i.name, i.descriptor) {
        Emit(Dup);
        var statementLocal := NewLocal();
        Emit(Store(statementLocal, RefKind));
        EmitReport(statementLocal, EnterPrepared);
        Emit(i);
        EmitExitPreservingReturn(i.descriptor, [CallProbe(ExitPrepared)]);
        return;
      }
      if cfg.jdbcProbeEnabled && IsApiHotSpot(i.owner) {
        emitted := emitted + JdbcCall(i);
        return;
      }
      var probeId := if cfg.jdbcProbeEnabled then JdbcProbeId(i.owner, i.name, i.descriptor) else -1;
      if probeId >= 0 {
        emitted := emitted + ProbeIdCall(cfg, i, probeId);
        return;
      }
      Emit(i);
    }
  }
}
