/**
 * A machine for straight-line method bodies: an operand stack, local variables, a heap of typed
 * objects, and the calls made so far. It follows section 6.5 of the Java Virtual Machine
 * Specification, Java SE 11, for the instructions it has; a step that the verifier would not let
 * through, or that would throw, has no result.
 */
module Bytecode {

  import opened Options

  /** Object ids index the heap; a string constant is a value of its own. */
  datatype Value = Num(n: int) | Text(s: string) | Obj(id: nat) | Null

  datatype Kind = PrimKind | RefKind

  predicate HasKind(v: Value, kind: Kind) {
    v.Num? <==> kind.PrimKind?
  }

  predicate IsString(v: Value) { v.Text? || v.Null? }

  // ---- method descriptors

  datatype Param = PrimParam | StringParam | RefParam

  datatype Return = VoidReturn | ValueReturn(kind: Kind)

  datatype Signature = Signature(params: seq<Param>, result: Return)

  const STRING_TYPE := "Ljava/lang/String;"

  /** What follows the first ';'. */
  function AfterSemicolon(s: string): (r: Option<string>)
    ensures r.Some? ==> IsSuffix(r.value, s) && |r.value| < |s|
  {
    if s == "" then None
    else if s[0] == ';' then SuffixTail(s, s[1..]); Some(s[1..])
    else
      var r := AfterSemicolon(s[1..]);
      if r.Some? then SuffixTail(s, r.value); r else r
  }

  predicate IsSuffix(t: string, s: string) {
    |t| <= |s| && s[|s| - |t|..] == t
  }

  lemma SuffixTail(s: string, t: string)
    requires s != "" && IsSuffix(t, s[1..])
    ensures IsSuffix(t, s)
  {
    assert s[1..][|s| - 1 - |t|..] == s[|s| - |t|..];
  }

  /** What follows a field type. */
  function AfterType(s: string): (r: Option<string>)
    ensures r.Some? ==> IsSuffix(r.value, s) && |r.value| < |s|
  {
    if s == "" then None
    else if s[0] == '[' then
      var r := AfterType(s[1..]);
      if r.Some? then SuffixTail(s, r.value); r else r
    else if s[0] == 'L' then
      var r := AfterSemicolon(s[1..]);
      if r.Some? then SuffixTail(s, r.value); r else r
    else if s[0] in "BCDFIJSZ" then SuffixTail(s, s[1..]); Some(s[1..])
    else None
  }

  function ParamOf(s: string): Param {
    if STRING_TYPE <= s then StringParam
    else if s != "" && (s[0] == 'L' || s[0] == '[') then RefParam
    else PrimParam
  }

  function ParseReturn(s: string): Option<Return> {
    if s == "V" then Some(VoidReturn)
    else if AfterType(s) != Some("") then None
    else Some(ValueReturn(if s[0] == 'L' || s[0] == '[' then RefKind else PrimKind))
  }

  /** Parameters up to the closing parenthesis, then the return type. */
  function ParseParams(s: string): Option<Signature> {
    if s == "" then None
    else if s[0] == ')' then
      var r := ParseReturn(s[1..]);
      if r.None? then None else Some(Signature([], r.value))
    else
      var rest := AfterType(s);
      if rest.None? then None
      else
        var tail := ParseParams(rest.value);
        if tail.None? then None
        else Some(Signature([ParamOf(s)] + tail.value.params, tail.value.result))
  }

  function Parse(descriptor: string): Option<Signature> {
    if "(" <= descriptor then ParseParams(descriptor[1..]) else None
  }

  // ---- instructions

  datatype Opcode = InvokeStatic | InvokeVirtual | InvokeInterface | InvokeSpecial

  datatype Probe =
    | ObjectAllocatedAt
    | RecordSqlEnter | RecordSqlExit | AssociatePreparedStatement | EnterPrepared | ExitPrepared
    | RecordJdbcEnter | RecordJdbcExit
    | NativeProbeEnter | NativeProbeExit | IdProbeEnter | IdProbeExit
    | RecordMethodEnter | RecordMethodExit | RecordTraceEnter | RecordTraceExit

  datatype Instr =
    | Push(v: Value)
    | Pop
    | Dup
    | Load(local: nat)
    | Store(local: nat, kind: Kind)
    | New(className: string)
    | ANewArray(elementType: string)
    | NewArray(operand: int)
    | MultiANewArray(arrayType: string, dims: nat)
    | Invoke(opcode: Opcode, owner: string, name: string, descriptor: string)
    | CallProbe(probe: Probe)
    | WhenRecording(args: seq<Value>, guarded: Probe)

  datatype Call = Call(opcode: Opcode, owner: string, name: string, descriptor: string, operands: seq<Value>)

  datatype ProbeCall = ProbeCall(probe: Probe, operands: seq<Value>)

  datatype State = State(
    stack: seq<Value>, locals: map<nat, Value>, heap: seq<string>, calls: seq<Call>, probes: seq<ProbeCall>)

  /** What the outside does: the value a call returns, and whether recording is on. */
  datatype World = World(answer: (seq<Call>, Call) -> Value, recording: bool)

  function Answer(w: World, calls: seq<Call>, call: Call, kind: Kind): Value {
    var v := w.answer(calls, call);
    if HasKind(v, kind) then v else if kind.PrimKind? then Num(0) else Null
  }

  predicate Fits(v: Value, p: Param) {
    match p
    case PrimParam => v.Num?
    case StringParam => IsString(v)
    case RefParam => !v.Num?
  }

  predicate AllFit(vs: seq<Value>, ps: seq<Param>) {
    |vs| == |ps| && forall i :: 0 <= i < |vs| ==> Fits(vs[i], ps[i])
  }

  function ProbeParams(p: Probe): seq<Param> {
    match p
    case ObjectAllocatedAt => [RefParam, StringParam, PrimParam]
    case RecordSqlEnter => [StringParam]
    case RecordSqlExit => [StringParam]
    case AssociatePreparedStatement => [RefParam, StringParam]
    case EnterPrepared => [RefParam]
    case ExitPrepared => []
    case RecordJdbcEnter => [StringParam, StringParam, StringParam]
    case RecordJdbcExit => [StringParam, StringParam, StringParam]
    case RecordTraceEnter => [PrimParam, PrimParam]
    case _ => [PrimParam]
  }

  function Top(s: seq<Value>, n: nat): seq<Value>
    requires n <= |s|
  {
    s[|s| - n..]
  }

  function Without(s: seq<Value>, n: nat): seq<Value>
    requires n <= |s|
  {
    s[..|s| - n]
  }

  /** How many operands a call takes off the stack. */
  function OperandCount(opcode: Opcode, sig: Signature): nat {
    |sig.params| + (if opcode.InvokeStatic? then 0 else 1)
  }

  predicate OperandsFit(opcode: Opcode, sig: Signature, operands: seq<Value>)
    requires |operands| == OperandCount(opcode, sig)
  {
    if opcode.InvokeStatic? then AllFit(operands, sig.params)
    else (operands[0].Obj? || operands[0].Text?) && AllFit(operands[1..], sig.params)
  }

  function StepInvoke(st: State, i: Instr, w: World): Option<State>
    requires i.Invoke?
  {
    var parsed := Parse(i.descriptor);
    if parsed.None? then None
    else
      var sig := parsed.value;
      var n := OperandCount(i.opcode, sig);
      if n > |st.stack| || !OperandsFit(i.opcode, sig, Top(st.stack, n)) then None
      else
        var call := Call(i.opcode, i.owner, i.name, i.descriptor, Top(st.stack, n));
        var result := match sig.result
          case VoidReturn => []
          case ValueReturn(kind) => [Answer(w, st.calls, call, kind)];
        Some(st.(stack := Without(st.stack, n) + result, calls := st.calls + [call]))
  }

  function StepProbe(st: State, probe: Probe): Option<State> {
    var n := |ProbeParams(probe)|;
    if n > |st.stack| || !AllFit(Top(st.stack, n), ProbeParams(probe)) then None
    else Some(st.(stack := Without(st.stack, n), probes := st.probes + [ProbeCall(probe, Top(st.stack, n))]))
  }

  function Allocate(st: State, consumed: nat, heapType: string): Option<State> {
    if consumed > |st.stack| then None
    else if exists k :: 0 <= k < consumed && !Top(st.stack, consumed)[k].Num? then None
    else Some(st.(stack := Without(st.stack, consumed) + [Obj(|st.heap|)], heap := st.heap + [heapType]))
  }

  /** The descriptor of an array of a component given as a class name or as an array descriptor. */
  function ArrayTypeOf(elementType: string): string {
    if "[" <= elementType then "[" + elementType else "[L" + elementType + ";"
  }

  function PrimitiveArrayType(operand: int): string {
    match operand
    case 4 => "[Z"
    case 5 => "[C"
    case 6 => "[F"
    case 7 => "[D"
    case 8 => "[B"
    case 9 => "[S"
    case 10 => "[I"
    case 11 => "[J"
    case _ => "[?"
  }

  function Step(st: State, i: Instr, w: World): Option<State> {
    var n := |st.stack|;
    match i
    case Push(v) => Some(st.(stack := st.stack + [v]))
    case Pop => if n == 0 then None else Some(st.(stack := Without(st.stack, 1)))
    case Dup => if n == 0 then None else Some(st.(stack := st.stack + [st.stack[n - 1]]))
    case Load(local) => if local in st.locals then Some(st.(stack := st.stack + [st.locals[local]])) else None
    case Store(local, kind) =>
      if n == 0 || !HasKind(st.stack[n - 1], kind) then None
      else Some(st.(stack := Without(st.stack, 1), locals := st.locals[local := st.stack[n - 1]]))
    case New(className) => Allocate(st, 0, className)
    case ANewArray(elementType) => Allocate(st, 1, ArrayTypeOf(elementType))
    case NewArray(operand) => Allocate(st, 1, PrimitiveArrayType(operand))
    case MultiANewArray(arrayType, dims) => Allocate(st, dims, arrayType)
    case Invoke(_, _, _, _) => StepInvoke(st, i, w)
    case CallProbe(probe) => StepProbe(st, probe)
    case WhenRecording(args, guarded) =>
      if w.recording then StepProbe(st.(stack := st.stack + args), guarded) else Some(st)
  }

  function Exec(st: State, code: seq<Instr>, w: World): Option<State>
    decreases code
  {
    if code == [] then Some(st)
    else
      var next := Step(st, code[0], w);
      if next.None? then None else Exec(next.value, code[1..], w)
  }

  lemma {:induction false} ExecConcat(st: State, a: seq<Instr>, b: seq<Instr>, w: World)
    ensures
      var mid := Exec(st, a, w);
      Exec(st, a + b, w) == if mid.None? then None else Exec(mid.value, b, w)
    decreases a
  {
    if a == [] {
      assert a + b == b;
    } else {
      assert (a + b)[1..] == a[1..] + b;
      var next := Step(st, a[0], w);
      if next.Some? {
        ExecConcat(next.value, a[1..], b, w);
      }
    }
  }

  lemma ExecOne(st: State, i: Instr, w: World)
    ensures Exec(st, [i], w) == Step(st, i, w)
  {
    var next := Step(st, i, w);
    if next.Some? {
      assert [i][1..] == [];
      assert Exec(next.value, [], w) == next;
    }
  }

  /** A parsed descriptor that starts with a string parameter has one. */
  lemma FirstParamIsString(descriptor: string)
    requires "(" + STRING_TYPE <= descriptor && Parse(descriptor).Some?
    ensures |Parse(descriptor).value.params| > 0 && Parse(descriptor).value.params[0] == StringParam
  {
    assert descriptor[1] == 'L';
    assert STRING_TYPE <= descriptor[1..];
  }

  lemma NoParams(descriptor: string)
    requires "()" <= descriptor && Parse(descriptor).Some?
    ensures Parse(descriptor).value.params == []
  {
    assert descriptor[1] == ')';
  }

  /** A descriptor that ends in ';' returns a reference. */
  lemma {:induction false} ParamsEndInSemicolon(s: string)
    requires s != "" && s[|s| - 1] == ';' && ParseParams(s).Some?
    ensures ParseParams(s).value.result == ValueReturn(RefKind)
  {
    if s[0] == ')' {
      var r := s[1..];
      assert r != "" && r[|r| - 1] == ';';
    } else {
      var rest := AfterType(s).value;
      assert rest != "";
      assert rest[|rest| - 1] == s[|s| - |rest|..][|rest| - 1] == s[|s| - 1];
      ParamsEndInSemicolon(rest);
    }
  }

  lemma ReturnsAReference(descriptor: string)
    requires "(" <= descriptor && |descriptor| > 1 && descriptor[|descriptor| - 1] == ';' && Parse(descriptor).Some?
    ensures Parse(descriptor).value.result == ValueReturn(RefKind)
  {
    ParamsEndInSemicolon(descriptor[1..]);
  }
}
