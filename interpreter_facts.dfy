// What the evaluator of src/lib/interpreter.ts promises, proved about the functions of
// module Interpreter: integer division, operator coverage, short-circuiting, the order
// of steps and state changes, scoping, loops, allocation, calls and `run`.

module InterpreterFacts {
  import opened Common
  import opened Dialects
  import opened Ast
  import opened Values
  import opened Environments
  import opened Interpreter
  import Console

  function Last(trace: seq<Step>): Step
    requires |trace| > 0
  {
    trace[|trace| - 1]
  }

  // ---------------------------------------------------------------------------
  // Operators

  /** Integer `/` rounds toward zero, as in section 15.17.2 of the Java Language
      Specification: what it leaves over is smaller than the divisor and has the
      dividend's sign. The operation records one step. */
  lemma IntegerDivisionRoundsTowardZero(st: State, a: int, b: int, line: nat)
    requires Valid(st) && |st.trace| <= MaxSteps && b != 0 && IsExactInteger(a) && IsExactInteger(b)
    ensures var r := ApplyBinary(st, "/", IntV(a), IntV(b), line);
      && r.Ok? && r.value.value.IntV? && |r.value.st.trace| == |st.trace| + 1
      && var rem := a - b * r.value.value.i;
         Abs(rem) < Abs(b) && (rem == 0 || (rem < 0 <==> a < 0))
  {
    TruncDivRoundsTowardZero(a, b);
  }

  /** Operators outside the switch, `%` among them, give `undefined`. */
  lemma UnlistedOperatorsAreUndefined(op: string, l: Value, r: Value)
    requires op != "+" && op != "-" && op != "*" && op != "/"
    requires op != ">" && op != "<" && op != ">=" && op != "<=" && op != "==" && op != "!="
    ensures BinaryOp(op, l, r) == Ok(UndefinedV)
    ensures BinaryOp("%", IntV(7), IntV(2)) == Ok(UndefinedV)
  {
  }

  /** `==` and `!=` are strict: operands of different kinds are never equal. */
  lemma EqualityIsStrict(l: Value, r: Value)
    requires !(l.DoubleV? && r.DoubleV?)
    ensures BinaryOp("==", l, r) == Ok(BoolV(l == r))
    ensures BinaryOp("!=", l, r) == Ok(BoolV(l != r))
    ensures BinaryOp("==", IntV(1), StrV("1")) == Ok(BoolV(false))
  {
  }

  /** `&&` with a falsy left operand is false without evaluating the right operand:
      the result does not depend on it, and only the left operand's steps and the
      operator's own step are recorded. */
  lemma AndShortCircuits(d: Dialect, st: State, left: Expr, right1: Expr, right2: Expr, line: nat, fuel: nat)
    requires Valid(st)
    requires EvalExpr(d, st, left, fuel).Ok? && !Truthy(EvalExpr(d, st, left, fuel).value.value)
    ensures EvalLogical(d, st, "&&", left, right1, line, fuel) == EvalLogical(d, st, "&&", left, right2, line, fuel)
    ensures var r := EvalLogical(d, st, "&&", left, right1, line, fuel);
      r.Ok? ==> (r.value.value == BoolV(false)
                 && |r.value.st.trace| == |EvalExpr(d, st, left, fuel).value.st.trace| + 1)
  {
  }

  /** `||` with a truthy left operand is true without evaluating the right operand. */
  lemma OrShortCircuits(d: Dialect, st: State, left: Expr, right1: Expr, right2: Expr, line: nat, fuel: nat)
    requires Valid(st)
    requires EvalExpr(d, st, left, fuel).Ok? && Truthy(EvalExpr(d, st, left, fuel).value.value)
    ensures EvalLogical(d, st, "||", left, right1, line, fuel) == EvalLogical(d, st, "||", left, right2, line, fuel)
    ensures var r := EvalLogical(d, st, "||", left, right1, line, fuel);
      r.Ok? ==> (r.value.value == BoolV(true)
                 && |r.value.st.trace| == |EvalExpr(d, st, left, fuel).value.st.trace| + 1)
  {
  }

  // ---------------------------------------------------------------------------
  // Steps and state changes

  /** A declaration's step is recorded before the binding exists: the step's copy of
      the current environment lacks the name, which afterwards looks up to the
      declared value. */
  lemma DeclarationRecordedBeforeBinding(d: Dialect, st: State, t: string, name: string, init: Option<Expr>, line: nat, fuel: nat)
    requires Valid(st)
    requires EvalVarDecl(d, st, t, name, init, line, fuel).Ok?
    ensures var r := EvalVarDecl(d, st, t, name, init, line, fuel).value;
      && |r.st.trace| > 0 && name !in Names(Last(r.st.trace).variables)
      && Lookup(r.st.envs, st.current, name) == Ok(r.value)
  {
    var vo := EvalOptional(d, st, init, DefaultValue(t), fuel).value;
    var st2 := AddTrace(vo.st, line, None).value;
    LookupAfterDeclare(st2.envs, st2.current, name, vo.value);
  }

  /** An assignment's step is recorded before the store: the step holds the current
      environment as it was once the value was computed, and afterwards the variable
      looks up to the assigned value, which is also the expression's value. */
  lemma AssignmentRecordedBeforeStore(d: Dialect, st: State, x: string, xline: nat, rhs: Expr, line: nat, fuel: nat)
    requires Valid(st)
    requires EvalExpr(d, st, rhs, fuel).Ok?
    requires EvalAssignment(d, st, Identifier(x, xline), rhs, line, fuel).Ok?
    ensures var vo := EvalExpr(d, st, rhs, fuel).value;
      var r := EvalAssignment(d, st, Identifier(x, xline), rhs, line, fuel).value;
      && |r.st.trace| > 0 && Last(r.st.trace).variables == vo.st.envs[st.current].variables
      && r.value == vo.value
      && Lookup(r.st.envs, st.current, x) == Ok(vo.value)
  {
    var vo := EvalExpr(d, st, rhs, fuel).value;
    var st2 := AddTrace(vo.st, line, None).value;
    AssignThenLookup(st2.envs, st2.current, x, vo.value, st2.current, x);
  }

  /** `x++` on an integer gives the old value; the variable then holds the next
      integer, and the step, recorded after the update, already shows it when the
      variable belongs to the current environment. */
  lemma PostfixGivesOldValue(st: State, name: string, n: int, line: nat)
    requires Valid(st) && |st.trace| <= MaxSteps
    requires Lookup(st.envs, st.current, name) == Ok(IntV(n)) && IsExactInteger(n) && IsExactInteger(n + 1)
    ensures var r := EvalPostfix(st, "++", name, line);
      && r.Ok? && r.value.value == IntV(n)
      && Lookup(r.value.st.envs, st.current, name) == Ok(IntV(n + 1))
      && (name in Names(st.envs[st.current].variables) ==>
            name in Names(Last(r.value.st.trace).variables) && Get(Last(r.value.st.trace).variables, name) == IntV(n + 1))
  {
    assert JsAdd(IntV(n), IntV(1)) == Ok(IntV(n + 1));
    AssignThenLookup(st.envs, st.current, name, IntV(n + 1), st.current, name);
  }

  // ---------------------------------------------------------------------------
  // Blocks and loops

  /** A block stops at the first break, continue or return result and gives it:
      the statements after it make no difference. */
  lemma BlockStopsAtSentinel(d: Dialect, st: State, s: Stmt, rest1: seq<Stmt>, rest2: seq<Stmt>, last: Value, fuel: nat)
    requires Valid(st)
    requires EvalStmt(d, st, s, fuel).Ok? && StopsBlock(EvalStmt(d, st, s, fuel).value.value)
    ensures EvalStmts(d, st, [s] + rest1, last, fuel) == EvalStmt(d, st, s, fuel)
    ensures EvalStmts(d, st, [s] + rest2, last, fuel) == EvalStmt(d, st, s, fuel)
  {
    assert ([s] + rest1)[0] == s;
    assert ([s] + rest2)[0] == s;
  }

  /** A block runs its statements in sequence: running `first + rest` is running
      `first`, then, unless that stopped the block, `rest` from the state it left. */
  lemma {:induction false} BlockRunsInSequence(d: Dialect, st: State, first: seq<Stmt>, rest: seq<Stmt>, last: Value, fuel: nat)
    requires Valid(st) && !StopsBlock(last)
    ensures EvalStmts(d, st, first + rest, last, fuel) ==
              (var o :- EvalStmts(d, st, first, last, fuel);
               if StopsBlock(o.value) then Ok(o) else EvalStmts(d, o.st, rest, o.value, fuel))
    decreases |first|
  {
    if first == [] {
      assert first + rest == rest;
    } else {
      assert (first + rest)[0] == first[0];
      assert (first + rest)[1..] == first[1..] + rest;
      var o := EvalStmt(d, st, first[0], fuel);
      if o.Ok? && !StopsBlock(o.value.value) {
        BlockRunsInSequence(d, o.value.st, first[1..], rest, o.value.value, fuel);
      }
    }
  }

  /** Names declared inside a block disappear with it: afterwards every environment
      that existed before binds the same names, so every name resolves from the
      current environment as it did before the block. */
  lemma BlockScopeIsDiscarded(d: Dialect, st: State, stmts: seq<Stmt>, fuel: nat, name: string)
    requires Valid(st)
    requires EvalBlock(d, st, stmts, fuel).Ok?
    ensures var after := EvalBlock(d, st, stmts, fuel).value.st;
      after.current == st.current && Resolve(after.envs, st.current, name) == Resolve(st.envs, st.current, name)
  {
    var after := EvalBlock(d, st, stmts, fuel).value.st;
    ResolveSameShape(st.envs, after.envs, st.current, name);
  }

  /** Every loop gives `undefined`, whatever its body gives. */
  lemma LoopsGiveUndefined(d: Dialect, st: State, s: Stmt, fuel: nat)
    requires Valid(st) && (s.ForStatement? || s.WhileStatement? || s.DoWhileStatement?)
    requires EvalStmt(d, st, s, fuel).Ok?
    ensures EvalStmt(d, st, s, fuel).value.value == UndefinedV
  {
  }

  /** A break or return result ends a `while` loop at once; a returned value is not
      passed on. */
  lemma WhileStopsOnBreakOrReturn(d: Dialect, st: State, test: Expr, body: Stmt, fuel: nat)
    requires Valid(st)
    requires EvalExpr(d, st, test, fuel).Ok? && Truthy(EvalExpr(d, st, test, fuel).value.value)
    requires var to := EvalExpr(d, st, test, fuel).value;
      EvalStmt(d, to.st, body, fuel).Ok? && StopsLoop(EvalStmt(d, to.st, body, fuel).value.value)
    ensures var to := EvalExpr(d, st, test, fuel).value;
      EvalWhile(d, st, test, body, fuel) == Ok(Outcome(UndefinedV, EvalStmt(d, to.st, body, fuel).value.st))
  {
  }

  /** A continue result in a `for` body runs the update before the next test. */
  lemma ContinueRunsUpdate(d: Dialect, st: State, test: Option<Expr>, u: Expr, body: Stmt, fuel: nat)
    requires Valid(st) && fuel > 0
    requires EvalStmt(d, st, body, fuel).Ok? && EvalStmt(d, st, body, fuel).value.value == ContinueV
    ensures var bo := EvalStmt(d, st, body, fuel).value;
      ForBody(d, st, test, Some(u), body, fuel) ==
        (var uo :- EvalExpr(d, bo.st, u, fuel); ForLoop(d, uo.st, test, Some(u), body, fuel - 1))
  {
  }

  /** A continue result in a `do`/`while` body goes on to the test. */
  lemma DoWhileContinueTests(d: Dialect, st: State, test: Expr, body: Stmt, fuel: nat)
    requires Valid(st)
    requires EvalStmt(d, st, body, fuel).Ok? && EvalStmt(d, st, body, fuel).value.value == ContinueV
    requires EvalExpr(d, EvalStmt(d, st, body, fuel).value.st, test, fuel).Ok?
    requires !Truthy(EvalExpr(d, EvalStmt(d, st, body, fuel).value.st, test, fuel).value.value)
    ensures EvalDoWhile(d, st, test, body, fuel) ==
              Ok(Outcome(UndefinedV, EvalExpr(d, EvalStmt(d, st, body, fuel).value.st, test, fuel).value.st))
  {
  }

  // ---------------------------------------------------------------------------
  // Allocation

  /** `new C()` takes the counter's id, which no heap entry has yet, stores an empty
      object of class C under it, advances the counter and records an allocation
      step; no other entry changes. */
  lemma NewAllocatesFreshObject(st: State, c: string, line: nat)
    requires Valid(st) && |st.trace| <= MaxSteps
    ensures var r := EvalNew(st, c, line);
      && r.Ok? && r.value.value == RefV(st.nextHeapId) && st.nextHeapId !in Ids(st.heap)
      && Find(r.value.st.heap, st.nextHeapId) == Some(ObjectV(c, map[]))
      && r.value.st.nextHeapId == st.nextHeapId + 1
      && Last(r.value.st.trace).event == Some(Allocation)
      && forall id :: id != st.nextHeapId ==> Find(r.value.st.heap, id) == Find(st.heap, id)
  {
  }

  /** `new T[n]` for a literal length takes a fresh id and fills the array with the
      element type's default (false, 0 or null). */
  lemma NewArrayHasDefaults(d: Dialect, st: State, t: string, n: nat, nline: nat, line: nat, fuel: nat)
    requires Valid(st) && |st.trace| <= MaxSteps && fuel > 0 && n <= ArrayIndexLimit
    ensures var r := EvalArrayCreation(d, st, t, Some(NumericLiteral(n, nline)), None, line, fuel);
      && r.Ok? && r.value.value == RefV(st.nextHeapId) && st.nextHeapId !in Ids(st.heap)
      && Find(r.value.st.heap, st.nextHeapId) == Some(ArrayV(t, seq(n, _ => DefaultValue(t))))
      && Last(r.value.st.trace).event == Some(Allocation)
  {
    var st1 := st.(nextHeapId := st.nextHeapId + 1);
    assert EvalExpr(d, st1, NumericLiteral(n, nline), fuel) == Ok(Outcome(IntV(n), st1));
  }

  // ---------------------------------------------------------------------------
  // Calls

  /** A method body runs in a new activation record whose parent is the global
      environment, not the caller's, with the frame pushed. */
  lemma ActivationRecordIsChildOfGlobal(st: State, m: MethodDef, args: seq<Value>)
    requires Valid(st)
    requires Activate(st, m, args).Ok?
    ensures var inside := Activate(st, m, args).value;
      && inside.envs[inside.current].parent == Some(Global)
      && inside.callStack == st.callStack + [Frame(m.name, m.line, st.current)]
  {
  }

  /** A returned value is unwrapped; the frame is popped and the caller's environment
      is current again. */
  lemma ReturnedValueIsUnwrapped(d: Dialect, st: State, m: MethodDef, args: seq<Value>, fuel: nat, v: Value)
    requires Valid(st) && Activate(st, m, args).Ok?
    requires var inside := Activate(st, m, args).value;
      var bo := EvalStmt(d, inside, BlockStatement(m.body, m.line), fuel);
      bo.Ok? && bo.value.value == ReturnV(v)
    ensures var r := Invoke(d, st, m, args, fuel);
      r.Ok? && r.value.value == v && r.value.st.current == st.current && r.value.st.callStack == st.callStack
  {
  }

  /** Calling a method on an array, or (in the modern copy) on anything that is not
      a heap reference, throws "Cannot call method on non-object."; the older copy
      fails with a TypeError on the latter. */
  lemma CallOnNonObjectThrows(d: Dialect, st: State, x: Value, key: string)
    requires Valid(st)
    ensures x.RefV? && Find(st.heap, x.id).Some? && Find(st.heap, x.id).value.ArrayV? ==>
              MethodTarget(d, st, x, key) == Err(RuntimeError("Cannot call method on non-object."))
    ensures x.IntV? ==> MethodTarget(Modern, st, x, key) == Err(RuntimeError("Cannot call method on non-object."))
    ensures x.IntV? ==> MethodTarget(Legacy, st, x, key) == Err(HostError("TypeError"))
    ensures x.NullV? ==> MethodTarget(d, st, x, key) == Err(HostError("TypeError"))
  {
  }

  // ---------------------------------------------------------------------------
  // The two copies on the heap

  /** Reading `x[i]` on a value that is not a reference gives `undefined` in the
      modern copy, which uses `?.`, and a TypeError in the older one. */
  lemma MissingEntryDialects(h: Heap, n: int, index: Value)
    ensures ReadElement(Modern, h, IntV(n), index) == Ok(UndefinedV)
    ensures ReadElement(Legacy, h, IntV(n), index) == Err(HostError("TypeError"))
    ensures ArrayLength(Modern, h, StrV("s")) == Ok(UndefinedV)
    ensures ArrayLength(Legacy, h, StrV("s")) == Err(HostError("TypeError"))
  {
  }

  // ---------------------------------------------------------------------------
  // The step limit

  /** Once the trace holds more than 25000 steps, any statement that records a step
      throws. */
  lemma StepLimitStopsBreak(d: Dialect, st: State, line: nat, fuel: nat)
    requires Valid(st) && |st.trace| > MaxSteps && fuel > 0
    ensures EvalStmt(d, st, BreakStatement(line), fuel) == Err(RuntimeError("Execution step limit reached (25000)."))
  {
  }

  function SystemOutCallee(methodName: string, l: nat): Expr
  {
    MemberExpr(MemberExpr(Identifier("System", l), Identifier("out", l), false, l), Identifier(methodName, l), false, l)
  }

  /** A console step is pushed without the limit check: `System.out.println("...")`
      still prints past 25000 steps. Its step carries the escaped text and a newline,
      and the call gives `undefined`. */
  lemma ConsoleStepIgnoresLimit(d: Dialect, st: State, s: string, l: nat, line: nat, fuel: nat)
    requires Valid(st) && fuel > 0
    ensures EvalCall(d, st, SystemOutCallee("println", l), [StringLiteral(s, l)], line, fuel)
         == Ok(Outcome(UndefinedV, st.(trace := st.trace + [MakeStep(st, line, None, Some(Console.InterpretEscapes(d, s) + "\n"))])))
  {
    var args := [StringLiteral(s, l)];
    assert EvalExpr(d, st, args[0], fuel) == Ok(Outcome(StrV(s), st));
    assert args[1..] == [];
    assert EvalArgs(d, st, args[1..], fuel) == Ok(Outcomes([], st));
    assert [StrV(s)] + [] == [StrV(s)];
    assert EvalArgs(d, st, args, fuel) == Ok(Outcomes([StrV(s)], st));
    assert IsSystemOut(SystemOutCallee("println", l));
  }

  // ---------------------------------------------------------------------------
  // run

  /** A later method of the same name replaces an earlier one in a class's table. */
  lemma {:induction false} MethodTableLastWins(members: seq<Stmt>, m: Stmt, acc: map<string, MethodDef>)
    requires m.MethodDeclaration?
    ensures MethodTable(members + [m], acc) == MethodTable(members, acc)[m.methodName := MethodDef(m.methodName, m.params, m.body, m.line)]
    decreases |members|
  {
    if members == [] {
      assert [m][1..] == [];
    } else {
      assert (members + [m])[0] == members[0];
      assert (members + [m])[1..] == members[1..] + [m];
      var x := members[0];
      var acc' := if x.MethodDeclaration? then acc[x.methodName := MethodDef(x.methodName, x.params, x.body, x.line)] else acc;
      MethodTableLastWins(members[1..], m, acc');
    }
  }

  /** Without a class named Main the run fails at the lookup of Main. */
  lemma RunNeedsMainClass(d: Dialect, fuel: nat, l: nat)
    ensures Run(d, Program([], l), fuel) == Err(RuntimeError("Variable \"Main\" not found."))
  {
  }

  /** A class Main without a method main is rejected with "Main.main method not
      found.". */
  lemma RunNeedsMainMethod(d: Dialect, fuel: nat, l: nat, members: seq<Stmt>)
    requires forall k :: 0 <= k < |members| ==> !members[k].MethodDeclaration?
    ensures Run(d, Program([ClassDeclaration("Main", members, l)], l), fuel) == Err(RuntimeError("Main.main method not found."))
  {
    MethodTableSkipsOthers(members, map[]);
    var body := [ClassDeclaration("Main", members, l)];
    var a0 := [Scope(None, [])];
    assert Names(a0[0].variables) == [];
    var a1 := Declare(a0, Global, "Main", ClassV("Main", map[])).value;
    assert body[1..] == [];
    assert DeclareClasses(body, a0) == Ok(a1);
    LookupAfterDeclare(a0, Global, "Main", ClassV("Main", map[]));
    assert MainMethod(a1) == Err(RuntimeError("Main.main method not found."));
  }

  lemma {:induction false} MethodTableSkipsOthers(members: seq<Stmt>, acc: map<string, MethodDef>)
    requires forall k :: 0 <= k < |members| ==> !members[k].MethodDeclaration?
    ensures MethodTable(members, acc) == acc
    decreases |members|
  {
    if members != [] {
      MethodTableSkipsOthers(members[1..], acc);
    }
  }
}
