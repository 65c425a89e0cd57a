/** What compilers emit for expressions and statements; the rewriting keeps its meaning without any assumption. */
module CompiledCode {
  import opened Options
  import opened Bytecode
  import opened Instrumentation
  import opened InstrumentationProofs

  /** Expressions; the operands of a call of an instance method start with its receiver. */
  datatype Expr =
    | Constant(value: Value)
    | Local(index: nat)
    | NewObject(className: string, descriptor: string, args: seq<Expr>)
    | CallResult(call: Instr, operands: seq<Expr>)
    | NewPrimitives(elementCode: int, length: Expr)
    | NewReferences(elementType: string, length: Expr)
    | NewMatrix(arrayType: string, lengths: seq<Expr>)

  /** A constructor hands on to another one by performing its call. */
  datatype Stmt =
    | Discard(e: Expr)
    | Assign(local: nat, kind: Kind, e: Expr)
    | Perform(call: Instr, operands: seq<Expr>)

  function Compile(e: Expr): seq<Instr> {
    match e
    case Constant(v) => [Push(v)]
    case Local(l) => [Load(l)]
    case NewObject(c, d, args) => [New(c)] + ([Dup] + (CompileAll(args) + [Invoke(InvokeSpecial, c, "<init>", d)]))
    case CallResult(call, operands) => CompileAll(operands) + [call]
    case NewPrimitives(code, length) => Compile(length) + [NewArray(code)]
    case NewReferences(t, length) => Compile(length) + [ANewArray(t)]
    case NewMatrix(t, lengths) => CompileAll(lengths) + [MultiANewArray(t, |lengths|)]
  }

  /** Operands are evaluated from left to right. */
  function CompileAll(es: seq<Expr>): seq<Instr> {
    if es == [] then [] else CompileAll(es[..|es| - 1]) + Compile(es[|es| - 1])
  }

  function CompileStmt(s: Stmt): seq<Instr> {
    match s
    case Discard(e) => Compile(e) + [Pop]
    case Assign(l, kind, e) => Compile(e) + [Store(l, kind)]
    case Perform(call, operands) => CompileAll(operands) + [call]
  }

  function CompileBody(body: seq<Stmt>): seq<Instr> {
    if body == [] then [] else CompileBody(body[..|body| - 1]) + CompileStmt(body[|body| - 1])
  }

  // ---- what a compiler guarantees

  /** An intercepted call is one the rewriting can take: its text is last, and an execution has a statement. */
  predicate IsCovered(call: Instr)
    requires call.Invoke? && Parse(call.descriptor).Some?
  {
    var params := Parse(call.descriptor).value.params;
    && (IsInterceptedSql(call) ==> params != [] && params[|params| - 1] == StringParam)
    && (IsInterceptedExecution(call) ==> !call.opcode.InvokeStatic?)
  }

  /** A call with as many operands as it takes. */
  predicate IsCallOf(call: Instr, operands: nat) {
    && call.Invoke? && Parse(call.descriptor).Some?
    && operands == OperandCount(call.opcode, Parse(call.descriptor).value)
    && IsCovered(call)
  }

  predicate IsExpr(e: Expr, base: nat) {
    match e
    case Constant(_) => true
    case Local(l) => l < base
    case NewObject(_, d, args) =>
      && Parse(d).Some? && Parse(d).value.result.VoidReturn? && |args| == |Parse(d).value.params|
      && AreExprs(args, base)
    case CallResult(call, operands) =>
      && IsCallOf(call, |operands|) && !IsConstructorCall(call) && Parse(call.descriptor).value.result.ValueReturn?
      && AreExprs(operands, base)
    case NewPrimitives(_, length) => IsExpr(length, base)
    case NewReferences(_, length) => IsExpr(length, base)
    case NewMatrix(_, lengths) => AreExprs(lengths, base)
  }

  predicate AreExprs(es: seq<Expr>, base: nat) {
    es == [] || (AreExprs(es[..|es| - 1], base) && IsExpr(es[|es| - 1], base))
  }

  predicate IsStmt(s: Stmt, base: nat) {
    match s
    case Discard(e) => IsExpr(e, base)
    case Assign(l, _, e) => l < base && IsExpr(e, base)
    case Perform(call, operands) =>
      && IsCallOf(call, |operands|) && Parse(call.descriptor).value.result.VoidReturn?
      && AreExprs(operands, base)
  }

  predicate IsBody(body: seq<Stmt>, base: nat) {
    body == [] || (IsBody(body[..|body| - 1], base) && IsStmt(body[|body| - 1], base))
  }

  // ---- compiled code has the shape the rewriting counts on

  /** The code runs, adds n values to the stack, loses no object, and is shaped, with nothing more waiting. */
  ghost predicate Runs(st: State, code: seq<Instr>, n: nat, waiting: seq<nat>, w: World) {
    var out := Exec(st, code, w);
    && out.Some?
    && |out.value.stack| == |st.stack| + n && st.stack <= out.value.stack && st.heap <= out.value.heap
    && ShapedRun(st, code, waiting, w) && WaitingAtEnd(st, code, waiting, w) == waiting
  }

  lemma RunsThen(st: State, a: seq<Instr>, n: nat, b: seq<Instr>, m: nat, waiting: seq<nat>, w: World)
    requires Runs(st, a, n, waiting, w) && Runs(Exec(st, a, w).value, b, m, waiting, w)
    ensures Runs(st, a + b, n + m, waiting, w)
  {
    hide Exec, ShapedRun, WaitingAtEnd;
    ExecConcat(st, a, b, w);
    ShapedRunConcat(st, a, Exec(st, a, w).value, b, waiting, w);
  }

  /** Code that takes n values off again and leaves m. */
  lemma RunsThenTakes(st: State, a: seq<Instr>, n: nat, last: Instr, end: State, m: nat, waiting: seq<nat>, w: World)
    requires Runs(st, a, n, waiting, w)
    requires
      var mid := Exec(st, a, w).value;
      && Step(mid, last, w) == Some(end)
      && ShapedStep(mid, last, waiting) && WaitingAfter(mid, last, waiting) == waiting
      && |end.stack| == |st.stack| + m && st.stack <= end.stack && mid.heap <= end.heap
    ensures Runs(st, a + [last], m, waiting, w)
  {
    hide Exec, Step, ShapedStep, WaitingAfter;
    var mid := Exec(st, a, w).value;
    ExecConcat(st, a, [last], w);
    ExecOne(mid, last, w);
    assert [last] + [] == [last] && ShapedRun(end, [], waiting, w) && WaitingAtEnd(end, [], waiting, w) == waiting;
    ShapedRunStep(mid, last, [], end, waiting, w);
    ShapedRunConcat(st, a, mid, [last], waiting, w);
  }

  lemma PrefixRuns(st: State, a: seq<Instr>, b: seq<Instr>, w: World)
    requires Exec(st, a + b, w).Some?
    ensures Exec(st, a, w).Some? && Exec(Exec(st, a, w).value, b, w) == Exec(st, a + b, w)
  {
    ExecConcat(st, a, b, w);
  }

  lemma CallTakes(st: State, mid: State, call: Instr, n: nat, end: State, waiting: seq<nat>, w: World)
    requires IsCallOf(call, n) && (IsConstructorCall(call) ==> waiting == []) && Step(mid, call, w) == Some(end)
    requires |mid.stack| == |st.stack| + n && st.stack <= mid.stack
    ensures ShapedStep(mid, call, waiting) && WaitingAfter(mid, call, waiting) == waiting && end.heap == mid.heap
    ensures
      var m := if Parse(call.descriptor).value.result.VoidReturn? then 0 else 1;
      |end.stack| == |st.stack| + m && st.stack <= end.stack
  {
    hide OperandsFit, Answer;
    assert Without(mid.stack, n) == st.stack;
    CallIsShaped(mid, call, n, waiting, w);
  }

  lemma CallIsShaped(mid: State, call: Instr, n: nat, waiting: seq<nat>, w: World)
    requires IsCallOf(call, n) && (IsConstructorCall(call) ==> waiting == []) && Step(mid, call, w).Some?
    ensures ShapedStep(mid, call, waiting)
  {
    hide Parse, Step, IsInterceptedSql;
    if IsInterceptedSql(call) {
      StringLastIsShaped(mid, call, w);
    }
    if IsInterceptedExecution(call) {
      InstanceExecutionIsShaped(mid, call, w);
    }
  }

  lemma ArrayTakes(st: State, mid: State, i: Instr, n: nat, end: State, waiting: seq<nat>, w: World)
    requires Step(mid, i, w) == Some(end) && |mid.stack| == |st.stack| + n && st.stack <= mid.stack
    requires (n == 1 && (i.NewArray? || i.ANewArray?)) || (i.MultiANewArray? && i.dims == n)
    ensures ShapedStep(mid, i, waiting) && WaitingAfter(mid, i, waiting) == waiting
    ensures |end.stack| == |st.stack| + 1 && st.stack <= end.stack && mid.heap <= end.heap
  {
    assert Without(mid.stack, n) == st.stack;
  }

  lemma SimpleRuns(st: State, i: Instr, waiting: seq<nat>, w: World)
    requires (i.Push? || i.Load?) && Exec(st, [i], w).Some?
    ensures Runs(st, [i], 1, waiting, w)
  {
    ExecOne(st, i, w);
    assert [i] + [] == [i];
    ShapedRunStep(st, i, [], Step(st, i, w).value, waiting, w);
  }

  lemma {:induction false} ExprRuns(e: Expr, base: nat, st: State, waiting: seq<nat>, w: World)
    requires IsExpr(e, base) && Exec(st, Compile(e), w).Some?
    ensures Runs(st, Compile(e), 1, waiting, w)
    decreases e
  {
    hide Exec, Step, Runs, ShapedStep, IsCallOf, Parse;
    match e
    case Constant(v) => SimpleRuns(st, Push(v), waiting, w);
    case Local(l) => SimpleRuns(st, Load(l), waiting, w);
    case NewObject(c, d, args) => ObjectRuns(c, d, args, base, st, waiting, w);
    case CallResult(call, operands) => CallRuns(call, operands, base, st, waiting, w);
    case NewPrimitives(code, length) =>
      PrefixRuns(st, Compile(length), [NewArray(code)], w);
      ExprRuns(length, base, st, waiting, w);
      ArrayRuns(st, Compile(length), 1, NewArray(code), waiting, w);
    case NewReferences(t, length) =>
      PrefixRuns(st, Compile(length), [ANewArray(t)], w);
      ExprRuns(length, base, st, waiting, w);
      ArrayRuns(st, Compile(length), 1, ANewArray(t), waiting, w);
    case NewMatrix(t, lengths) =>
      PrefixRuns(st, CompileAll(lengths), [MultiANewArray(t, |lengths|)], w);
      ExprsRun(lengths, base, st, waiting, w);
      ArrayRuns(st, CompileAll(lengths), |lengths|, MultiANewArray(t, |lengths|), waiting, w);
  }

  lemma ArrayRuns(st: State, code: seq<Instr>, n: nat, i: Instr, waiting: seq<nat>, w: World)
    requires Runs(st, code, n, waiting, w) && Exec(st, code + [i], w).Some?
    requires (n == 1 && (i.NewArray? || i.ANewArray?)) || (i.MultiANewArray? && i.dims == n)
    ensures Runs(st, code + [i], 1, waiting, w)
  {
    hide Exec, Step, ShapedRun, WaitingAtEnd, ShapedStep, WaitingAfter;
    var mid := Exec(st, code, w).value;
    PrefixRuns(st, code, [i], w);
    ExecOne(mid, i, w);
    var end := Step(mid, i, w).value;
    ArrayTakes(st, mid, i, n, end, waiting, w);
    RunsThenTakes(st, code, n, i, end, 1, waiting, w);
  }

  lemma CallRuns(call: Instr, operands: seq<Expr>, base: nat, st: State, waiting: seq<nat>, w: World)
    requires IsCallOf(call, |operands|) && (IsConstructorCall(call) ==> waiting == []) && AreExprs(operands, base)
    requires Exec(st, CompileAll(operands) + [call], w).Some?
    ensures
      var m := if Parse(call.descriptor).value.result.VoidReturn? then 0 else 1;
      Runs(st, CompileAll(operands) + [call], m, waiting, w)
    decreases operands, 1
  {
    hide Exec, Step, ShapedRun, WaitingAtEnd, ShapedStep, WaitingAfter, Parse, IsCovered, Compile;
    var code, n := CompileAll(operands), |operands|;
    PrefixRuns(st, code, [call], w);
    ExprsRun(operands, base, st, waiting, w);
    var mid := Exec(st, code, w).value;
    ExecOne(mid, call, w);
    var end := Step(mid, call, w).value;
    CallTakes(st, mid, call, n, end, waiting, w);
    RunsThenTakes(st, code, n, call, end, if Parse(call.descriptor).value.result.VoidReturn? then 0 else 1, waiting, w);
  }

  lemma {:induction false} ExprsRun(es: seq<Expr>, base: nat, st: State, waiting: seq<nat>, w: World)
    requires AreExprs(es, base) && Exec(st, CompileAll(es), w).Some?
    ensures Runs(st, CompileAll(es), |es|, waiting, w)
    decreases es, 0
  {
    if es != [] {
      var front, last := es[..|es| - 1], es[|es| - 1];
      PrefixRuns(st, CompileAll(front), Compile(last), w);
      ExprsRun(front, base, st, waiting, w);
      ExprRuns(last, base, Exec(st, CompileAll(front), w).value, waiting, w);
      RunsThen(st, CompileAll(front), |front|, Compile(last), 1, waiting, w);
    }
  }

  lemma ObjectRuns(className: string, descriptor: string, args: seq<Expr>, base: nat, st: State, waiting: seq<nat>,
                   w: World)
    requires Parse(descriptor).Some? && Parse(descriptor).value.result.VoidReturn?
    requires |args| == |Parse(descriptor).value.params| && AreExprs(args, base)
    requires Exec(st, Compile(NewObject(className, descriptor, args)), w).Some?
    ensures Runs(st, Compile(NewObject(className, descriptor, args)), 1, waiting, w)
    decreases args, 1
  {
    hide Parse, Step, ShapedRun, WaitingAtEnd;
    var id, call := |st.heap|, Invoke(InvokeSpecial, className, "<init>", descriptor);
    var s2 := st.(stack := st.stack + [Obj(id), Obj(id)], heap := st.heap + [className]);
    var code := CompileAll(args);
    NewAndDupRun(st, className, code + [call], w);
    PrefixRuns(s2, code, [call], w);
    ExprsRun(args, base, s2, waiting + [id], w);
    var mid := Exec(s2, code, w).value;
    ExecOne(mid, call, w);
    var end := Step(mid, call, w).value;
    var values := mid.stack[|s2.stack|..];
    NestedConstructionIsShaped(st, className, code, mid, values, call, end, waiting, w);
    ConstructorLeavesOne(st, mid, call, end, w);
  }

  lemma NewAndDupRun(st: State, className: string, rest: seq<Instr>, w: World)
    ensures
      var id := |st.heap|;
      var s2 := st.(stack := st.stack + [Obj(id), Obj(id)], heap := st.heap + [className]);
      Exec(st, [New(className)] + ([Dup] + rest), w) == Exec(s2, rest, w)
  {
    hide Exec, StepInvoke, StepProbe;
    var id := |st.heap|;
    var s1 := st.(stack := st.stack + [Obj(id)], heap := st.heap + [className]);
    assert Without(st.stack, 0) == st.stack;
    assert s1.stack + [Obj(id)] == st.stack + [Obj(id), Obj(id)];
    ExecCons(st, New(className), [Dup] + rest, w);
    ExecCons(s1, Dup, rest, w);
  }

  lemma ConstructorLeavesOne(st: State, mid: State, call: Instr, end: State, w: World)
    requires IsConstructorCall(call) && Parse(call.descriptor).Some? && Parse(call.descriptor).value.result.VoidReturn?
    requires Step(mid, call, w) == Some(end)
    requires |mid.stack| == |st.stack| + 1 + OperandCount(call.opcode, Parse(call.descriptor).value)
    requires st.stack <= mid.stack
    ensures |end.stack| == |st.stack| + 1 && st.stack <= end.stack && end.heap == mid.heap
  {
    hide Parse, OperandsFit;
  }

  lemma {:induction false} BodyRuns(body: seq<Stmt>, base: nat, st: State, w: World)
    requires IsBody(body, base) && Exec(st, CompileBody(body), w).Some?
    ensures Runs(st, CompileBody(body), 0, [], w)
  {
    hide CompileStmt, IsStmt;
    if body != [] {
      var front, last := body[..|body| - 1], body[|body| - 1];
      PrefixRuns(st, CompileBody(front), CompileStmt(last), w);
      BodyRuns(front, base, st, w);
      StmtRuns(last, base, Exec(st, CompileBody(front), w).value, w);
      RunsThen(st, CompileBody(front), 0, CompileStmt(last), 0, [], w);
    }
  }

  lemma StmtRuns(s: Stmt, base: nat, st: State, w: World)
    requires IsStmt(s, base) && Exec(st, CompileStmt(s), w).Some?
    ensures Runs(st, CompileStmt(s), 0, [], w)
  {
    hide Exec, Runs, Compile, IsCallOf, Parse, IsExpr;
    match s
    case Discard(e) =>
      PrefixRuns(st, Compile(e), [Pop], w);
      ExprRuns(e, base, st, [], w);
      ValueIsTaken(st, Compile(e), Pop, w);
    case Assign(l, kind, e) =>
      PrefixRuns(st, Compile(e), [Store(l, kind)], w);
      ExprRuns(e, base, st, [], w);
      ValueIsTaken(st, Compile(e), Store(l, kind), w);
    case Perform(call, operands) => CallRuns(call, operands, base, st, [], w);
  }

  lemma ValueIsTaken(st: State, code: seq<Instr>, i: Instr, w: World)
    requires Runs(st, code, 1, [], w) && (i.Pop? || i.Store?) && Exec(st, code + [i], w).Some?
    ensures Runs(st, code + [i], 0, [], w)
  {
    hide Exec, ShapedRun, WaitingAtEnd;
    var mid := Exec(st, code, w).value;
    PrefixRuns(st, code, [i], w);
    ExecOne(mid, i, w);
    var end := Step(mid, i, w).value;
    assert Without(mid.stack, 1) == st.stack;
    RunsThenTakes(st, code, 1, i, end, 0, [], w);
  }

  // ---- compiled code uses only its own locals

  lemma OriginalConcat(a: seq<Instr>, b: seq<Instr>, base: nat)
    requires AllOriginal(a, base) && AllOriginal(b, base)
    ensures AllOriginal(a + b, base)
  {
  }

  lemma {:induction false} ExprIsOriginal(e: Expr, base: nat)
    requires IsExpr(e, base)
    ensures AllOriginal(Compile(e), base)
    decreases e
  {
    hide AllOriginal, Parse, IsCovered;
    match e
    case Constant(v) => OneOriginal(Push(v), base);
    case Local(l) => OneOriginal(Load(l), base);
    case NewObject(c, d, args) =>
      var call := Invoke(InvokeSpecial, c, "<init>", d);
      ExprsAreOriginal(args, base);
      OneOriginal(call, base);
      OneOriginal(Dup, base);
      OneOriginal(New(c), base);
      OriginalConcat(CompileAll(args), [call], base);
      OriginalConcat([Dup], CompileAll(args) + [call], base);
      OriginalConcat([New(c)], [Dup] + (CompileAll(args) + [call]), base);
    case CallResult(call, operands) =>
      ExprsAreOriginal(operands, base);
      OneOriginal(call, base);
      OriginalConcat(CompileAll(operands), [call], base);
    case NewPrimitives(code, length) =>
      ExprIsOriginal(length, base);
      OneOriginal(NewArray(code), base);
      OriginalConcat(Compile(length), [NewArray(code)], base);
    case NewReferences(t, length) =>
      ExprIsOriginal(length, base);
      OneOriginal(ANewArray(t), base);
      OriginalConcat(Compile(length), [ANewArray(t)], base);
    case NewMatrix(t, lengths) =>
      ExprsAreOriginal(lengths, base);
      OneOriginal(MultiANewArray(t, |lengths|), base);
      OriginalConcat(CompileAll(lengths), [MultiANewArray(t, |lengths|)], base);
  }

  lemma OneOriginal(i: Instr, base: nat)
    requires IsOriginal(i, base)
    ensures AllOriginal([i], base)
  {
  }

  lemma {:induction false} ExprsAreOriginal(es: seq<Expr>, base: nat)
    requires AreExprs(es, base)
    ensures AllOriginal(CompileAll(es), base)
    decreases es
  {
    hide AllOriginal, Compile, IsExpr;
    if es == [] {
      NoCodeIsOriginal(base);
    } else {
      ExprsAreOriginal(es[..|es| - 1], base);
      ExprIsOriginal(es[|es| - 1], base);
      OriginalConcat(CompileAll(es[..|es| - 1]), Compile(es[|es| - 1]), base);
    }
  }

  lemma NoCodeIsOriginal(base: nat)
    ensures AllOriginal([], base)
  {
  }

  lemma {:induction false} BodyIsOriginal(body: seq<Stmt>, base: nat)
    requires IsBody(body, base)
    ensures AllOriginal(CompileBody(body), base)
  {
    hide AllOriginal, CompileStmt, IsStmt;
    if body == [] {
      NoCodeIsOriginal(base);
    } else {
      BodyIsOriginal(body[..|body| - 1], base);
      StmtIsOriginal(body[|body| - 1], base);
      OriginalConcat(CompileBody(body[..|body| - 1]), CompileStmt(body[|body| - 1]), base);
    }
  }

  lemma StmtIsOriginal(s: Stmt, base: nat)
    requires IsStmt(s, base)
    ensures AllOriginal(CompileStmt(s), base)
  {
    hide AllOriginal, Compile, IsExpr, AreExprs, Parse, IsCovered;
    match s
    case Discard(e) =>
      ExprIsOriginal(e, base);
      OneOriginal(Pop, base);
      OriginalConcat(Compile(e), [Pop], base);
    case Assign(l, kind, e) =>
      ExprIsOriginal(e, base);
      OneOriginal(Store(l, kind), base);
      OriginalConcat(Compile(e), [Store(l, kind)], base);
    case Perform(call, operands) =>
      ExprsAreOriginal(operands, base);
      OneOriginal(call, base);
      OriginalConcat(CompileAll(operands), [call], base);
  }

  /**
   * Every body a compiler makes of these statements, with constructions nested in any way: wherever it runs, the
   * rewritten method runs to the same stack, heap, calls and locals, and reports exactly the objects it makes, each
   * under its own type unless it makes arrays of arrays.
   */
  lemma CompiledCodeKeepsMeaning(cfg: Config, role: Role, a: State, end: State, body: seq<Stmt>, base: nat, w: World)
    requires IsBody(body, base) && a.probes == [] && Exec(a, CompileBody(body), w) == Some(end)
    ensures
      var code := CompileBody(body);
      var out := Exec(a, RewriteMethod(cfg, role, code, base), w);
      && out.Some? && Agree(end, out.value, base)
      && ReportCount(out.value.probes) == |out.value.heap| - |a.heap|
      && (MakesNoArrayOfArrays(code) ==> ReportsAreRight(out.value.probes, out.value.heap))
  {
    hide Exec, CompileBody, IsBody, Rewrite;
    BodyRuns(body, base, a, w);
    BodyIsOriginal(body, base);
    MethodKeepsMeaning(cfg, role, a, end, CompileBody(body), base, w);
  }
}
