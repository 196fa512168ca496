// The tree-walking evaluator of src/lib/interpreter.ts (class Interpreter) and of its
// older copy in services/javaInterpreter.ts, as functions from an interpreter state to
// the value an evaluation produces and the state it leaves.
//
// The state holds the fields of the class: the trace, the heap, the allocation counter,
// the environments (an arena, the global one at index 0), the current environment and
// the call stack. A thrown error ends the whole run, so an evaluation that fails
// returns only the error. Every call of `evaluate` consumes one unit of fuel, and so
// does every loop iteration; running out of fuel is the OutOfFuel error.

module Interpreter {
  import opened Common
  import opened Dialects
  import opened Ast
  import opened Values
  import opened Environments
  import Console

  /** MAX_STEPS. */
  const MaxSteps: nat := 25000

  /** The index of the global environment in the arena. */
  const Global: nat := 0

  datatype Event = Allocation | ReturnEvent

  /** A call stack entry as a trace step records it. */
  datatype FrameInfo = FrameInfo(methodName: string, line: nat)

  /** A call stack entry: the method, its line, and the caller's environment. */
  datatype Frame = Frame(methodName: string, line: nat, env: nat)

  /** An ExecutionStep: the line, a copy of the current environment's own bindings,
      a JSON copy of the heap, the call stack, and an event or console output. */
  datatype Step = Step(lineNumber: nat, variables: seq<Binding>, heap: Heap,
                       callStack: seq<FrameInfo>, event: Option<Event>, consoleOutput: Option<string>)

  datatype State = State(trace: seq<Step>, heap: Heap, nextHeapId: nat, envs: Arena,
                         current: nat, callStack: seq<Frame>)

  /** The value an evaluation produces and the state it leaves. */
  datatype Outcome = Outcome(value: Value, st: State)

  /** The values of a list of expressions evaluated left to right. */
  datatype Outcomes = Outcomes(values: seq<Value>, st: State)

  /** What every reachable state satisfies: the arena is well formed and holds the
      global and the current environment, and every heap id was taken from the
      counter before. */
  predicate Valid(st: State)
  {
    && WellFormed(st.envs) && 0 < |st.envs| && st.current < |st.envs|
    && (forall id :: id in Ids(st.heap) ==> id < st.nextHeapId)
  }

  /** What an evaluation that returns normally preserves: the current environment and
      the call stack are back as they were, environments are only added (and keep
      their parents), names are declared only in the current environment, the trace
      only grows and the counter never goes back. */
  predicate Follows(a: State, b: State)
  {
    && b.current == a.current && b.callStack == a.callStack
    && |a.envs| <= |b.envs|
    && (forall i :: 0 <= i < |a.envs| ==> b.envs[i].parent == a.envs[i].parent)
    && (forall i :: 0 <= i < |a.envs| && i != a.current ==> Names(b.envs[i].variables) == Names(a.envs[i].variables))
    && a.trace <= b.trace
    && a.nextHeapId <= b.nextHeapId
  }

  predicate Good(st: State, r: Result<Outcome>)
  {
    r.Ok? ==> Valid(r.value.st) && Follows(st, r.value.st)
  }

  predicate GoodAll(st: State, r: Result<Outcomes>)
  {
    r.Ok? ==> Valid(r.value.st) && Follows(st, r.value.st)
  }

  predicate GoodState(st: State, r: Result<State>)
  {
    r.Ok? ==> Valid(r.value) && Follows(st, r.value)
  }

  function Unsupported(kind: string): Error
  {
    RuntimeError("Unsupported language feature: " + kind)
  }

  function FrameInfos(cs: seq<Frame>): (r: seq<FrameInfo>)
    ensures |r| == |cs|
  {
    seq(|cs|, i requires 0 <= i < |cs| => FrameInfo(cs[i].methodName, cs[i].line))
  }

  /** The step recorded in state `st`. */
  function MakeStep(st: State, line: nat, event: Option<Event>, output: Option<string>): Step
    requires st.current < |st.envs|
  {
    Step(line, Snapshot(st.envs, st.current), JsonCopyHeap(st.heap), FrameInfos(st.callStack), event, output)
  }

  /** `addTrace`: refuses once the trace holds more than MaxSteps steps. */
  function AddTrace(st: State, line: nat, event: Option<Event>): (r: Result<State>)
    requires Valid(st)
    ensures r.Err? <==> |st.trace| > MaxSteps
    ensures r.Err? ==> r.error == RuntimeError("Execution step limit reached (25000).")
    ensures r.Ok? ==> r.value.trace == st.trace + [MakeStep(st, line, event, None)]
    ensures GoodState(st, r)
    ensures r.Ok? ==> r.value.envs == st.envs && r.value.heap == st.heap && r.value.nextHeapId == st.nextHeapId
  {
    if |st.trace| > MaxSteps then Err(RuntimeError("Execution step limit reached (25000)."))
    else Ok(st.(trace := st.trace + [MakeStep(st, line, event, None)]))
  }

  /** A fresh environment whose parent is `parent`, made current. */
  function Enter(st: State, parent: nat): (r: State)
    requires Valid(st) && parent < |st.envs|
    ensures Valid(r) && r.current == |st.envs| && r.envs == st.envs + [Scope(Some(parent), [])]
    ensures r.trace == st.trace && r.heap == st.heap && r.nextHeapId == st.nextHeapId && r.callStack == st.callStack
  {
    var (envs, e) := NewScope(st.envs, parent);
    st.(envs := envs, current := e)
  }

  /** `currentEnv = currentEnv.parent!`. */
  function Leave(st: State): (r: State)
    requires Valid(st) && st.envs[st.current].parent.Some?
    ensures Valid(r) && r.current == st.envs[st.current].parent.value
    ensures r == st.(current := r.current)
  {
    st.(current := st.envs[st.current].parent.value)
  }

  // ---------------------------------------------------------------------------
  // Operators

  /** The operator switch of a BinaryExpr; an operator without a case (such as `%`)
      gives `undefined`. */
  function BinaryOp(op: string, l: Value, r: Value): (v: Result<Value>)
  {
    if op == "+" then JsAdd(l, r)
    else if op == "-" then JsSub(l, r)
    else if op == "*" then JsMul(l, r)
    else if op == "/" then JsDiv(l, r)
    else if op == ">" || op == "<" || op == ">=" || op == "<=" then JsCompare(op, l, r)
    else if op == "==" then var eq :- StrictEquals(l, r); Ok(BoolV(eq))
    else if op == "!=" then var eq :- StrictEquals(l, r); Ok(BoolV(!eq))
    else Ok(UndefinedV)
  }

  function UnaryOp(op: string, v: Value): Result<Value>
  {
    if op == "!" then Ok(BoolV(!Truthy(v)))
    else if op == "-" then JsNegate(v)
    else Ok(UndefinedV)
  }

  // ---------------------------------------------------------------------------
  // The heap

  /** `heap[x.__ref__]`, then a property read on the entry: the modern copy reads it
      with `?.`, so a missing entry is skipped; the older copy reads it with `.`, so a
      missing entry is a TypeError. */
  function EntryOf(d: Dialect, h: Heap, x: Value): (r: Result<Option<HeapValue>>)
    ensures r.Ok? && r.value.Some? ==> x.RefV? && Find(h, x.id) == r.value
    ensures r.Ok? && r.value.None? ==> d == Modern
    ensures x.RefV? && Find(h, x.id).Some? ==> r == Ok(Find(h, x.id))
  {
    var found :- HeapAt(h, x);
    if found.None? && d.Legacy? then Err(HostError("TypeError")) else Ok(found)
  }

  /** `arr[i]`: an element of an array; anything else reads as `undefined`. */
  function ReadElement(d: Dialect, h: Heap, x: Value, index: Value): Result<Value>
  {
    var entry :- EntryOf(d, h, x);
    if entry.Some? && entry.value.ArrayV? then ReadIndex(entry.value.values, index)
    else Ok(UndefinedV)
  }

  /** `obj.length`: the length of an array; anything else reads as `undefined`. */
  function ArrayLength(d: Dialect, h: Heap, x: Value): Result<Value>
  {
    var entry :- EntryOf(d, h, x);
    if entry.Some? && entry.value.ArrayV? then Ok(IntV(|entry.value.values|))
    else Ok(UndefinedV)
  }

  /** `arr[i] = v`: writes into an array; on anything else the write is skipped. */
  function WriteElement(d: Dialect, h: Heap, x: Value, index: Value, v: Value): (r: Result<Heap>)
    ensures r.Ok? ==> Ids(r.value) == Ids(h)
  {
    var entry :- EntryOf(d, h, x);
    if entry.Some? && entry.value.ArrayV? then
      var values :- WriteIndex(entry.value.values, index, v);
      Ok(Store(h, x.id, ArrayV(entry.value.elementType, values)))
    else Ok(h)
  }

  /** `new C(...)`: a fresh object under the next id, then an allocation step. The
      constructor arguments are never evaluated. */
  function EvalNew(st: State, className: string, line: nat): (r: Result<Outcome>)
    requires Valid(st)
    ensures Good(st, r)
    ensures r.Ok? ==> r.value.value == RefV(st.nextHeapId) && r.value.st.nextHeapId == st.nextHeapId + 1
  {
    var id := st.nextHeapId;
    var st1 := st.(nextHeapId := id + 1, heap := Store(st.heap, id, ObjectV(className, map[])));
    var st2 :- AddTrace(st1, line, Some(Allocation));
    Ok(Outcome(RefV(id), st2))
  }

  /** `x++` and `x--`: reads, updates, records the step, and gives the old value. */
  function EvalPostfix(st: State, op: string, name: string, line: nat): (r: Result<Outcome>)
    requires Valid(st)
    ensures Good(st, r)
  {
    var old_ :- Lookup(st.envs, st.current, name);
    var envs :- Bump(st.envs, st.current, op, name, old_);
    var st2 :- AddTrace(st.(envs := envs), line, None);
    Ok(Outcome(old_, st2))
  }

  /** The update of a postfix expression: `x + 1` for `++`, `x - 1` otherwise. */
  function Bump(envs: Arena, e: nat, op: string, name: string, x: Value): (r: Result<Arena>)
    requires WellFormed(envs) && e < |envs|
    ensures r.Ok? ==> |r.value| == |envs| && WellFormed(r.value)
    ensures r.Ok? ==> forall i :: 0 <= i < |envs| ==> r.value[i].parent == envs[i].parent
  {
    var next :- if op == "++" then JsAdd(x, IntV(1)) else JsSub(x, IntV(1));
    Assign(envs, e, name, next)
  }

  // ---------------------------------------------------------------------------
  // Calls

  /** The `System.out.<m>` shape of a callee. */
  predicate IsSystemOut(callee: Expr)
  {
    && callee.MemberExpr? && callee.obj.MemberExpr?
    && callee.obj.obj.Identifier? && callee.obj.obj.symbol == "System"
    && callee.obj.property.Identifier? && callee.obj.property.symbol == "out"
    && callee.property.Identifier?
  }

  /** The console text of a `System.out` call, or None when the call is not one the
      interpreter prints (it then goes on as an ordinary method call). */
  function ConsoleText(d: Dialect, callee: Expr, args: seq<Value>): Result<Option<string>>
  {
    if IsSystemOut(callee) then Console.InterpreterOutput(d, callee.property.symbol, args)
    else Ok(None)
  }

  /** The key a method is looked up under: the property's symbol, which is
      `undefined` when the property is not an Identifier. */
  function MethodKey(property: Expr): string
  {
    if property.Identifier? then property.symbol else "undefined"
  }

  /** The class name of the instance a method is called on. */
  function InstanceClass(d: Dialect, entry: Option<HeapValue>): (r: Result<string>)
    ensures r.Ok? <==> entry.Some? && entry.value.ObjectV?
  {
    match entry
    case Some(ObjectV(c, _)) => Ok(c)
    case Some(ArrayV(_, _)) => Err(RuntimeError("Cannot call method on non-object."))
    case None =>
      if d == Legacy then Err(HostError("TypeError"))
      else Err(RuntimeError("Cannot call method on non-object."))
  }

  /** The method a call reaches: the instance's class is looked up in the global
      environment and the method in its table. */
  function MethodTarget(d: Dialect, st: State, x: Value, key: string): (r: Result<MethodDef>)
    requires Valid(st)
  {
    var entry :- HeapAt(st.heap, x);
    var className :- InstanceClass(d, entry);
    var classDef :- Lookup(st.envs, Global, className);
    if classDef.ClassV? && key in classDef.methods then Ok(classDef.methods[key])
    else Err(HostError("TypeError"))
  }

  /** The activation record's parameters, declared in order; a missing argument is
      `undefined`. */
  function DeclareParams(envs: Arena, e: nat, params: seq<Param>, args: seq<Value>, i: nat): (r: Result<Arena>)
    requires WellFormed(envs) && e < |envs| && i <= |params|
    ensures r.Ok? ==> |r.value| == |envs| && WellFormed(r.value)
    ensures r.Ok? ==> r.value[e].parent == envs[e].parent
    ensures r.Ok? ==> forall k :: 0 <= k < |envs| && k != e ==> r.value[k] == envs[k]
    decreases |params| - i
  {
    if i == |params| then Ok(envs)
    else
      var envs' :- Declare(envs, e, params[i].name, if i < |args| then args[i] else UndefinedV);
      DeclareParams(envs', e, params, args, i + 1)
  }

  function Pop(cs: seq<Frame>): seq<Frame>
  {
    if cs == [] then [] else cs[..|cs| - 1]
  }

  // ---------------------------------------------------------------------------
  // Evaluation. Each function decreases (fuel, rank, size): the two dispatchers
  // consume fuel, a function calls only functions of lower rank with the same fuel,
  // and loops call themselves with less fuel.

  /** `evaluate` on an expression. */
  function EvalExpr(d: Dialect, st: State, e: Expr, fuel: nat): (r: Result<Outcome>)
    requires Valid(st)
    ensures Good(st, r)
    decreases fuel, 1, 0
  {
    if fuel == 0 then Err(OutOfFuel)
    else
      var f := fuel - 1;
      match e
      case BinaryExpr(op, left, right, line) => EvalBinary(d, st, op, left, right, line, f)
      case LogicalExpr(op, left, right, line) => EvalLogical(d, st, op, left, right, line, f)
      case UnaryExpr(op, argument, line) => EvalUnary(d, st, op, argument, line, f)
      case Identifier(symbol, _) =>
        var v :- Lookup(st.envs, st.current, symbol);
        Ok(Outcome(v, st))
      case NumericLiteral(n, _) => Ok(Outcome(IntV(n), st))
      case DoubleLiteral(text, _) =>
        var v :- DoubleLiteralValue(text);
        Ok(Outcome(v, st))
      case BooleanLiteral(b, _) => Ok(Outcome(BoolV(b), st))
      case StringLiteral(s, _) => Ok(Outcome(StrV(s), st))
      case AssignmentExpr(assignee, rhs, line) => EvalAssignment(d, st, assignee, rhs, line, f)
      case NullLiteral(_) => Err(Unsupported("NullLiteral"))
      case MemberExpr(obj, property, computed, _) => EvalMember(d, st, obj, property, computed, f)
      case CallExpr(callee, args, line) => EvalCall(d, st, callee, args, line, f)
      case NewExpr(callee, _, line) => EvalNew(st, callee.symbol, line)
      case ArrayCreationExpr(t, size, values, line) => EvalArrayCreation(d, st, t, size, values, line, f)
      case PostfixExpr(op, operand, line) => EvalPostfix(st, op, operand.symbol, line)
      case CompoundAssignmentExpr(_, _, _, _) => Err(Unsupported("CompoundAssignmentExpr"))
  }

  /** Left operand, right operand, the step, then the operator. */
  function EvalBinary(d: Dialect, st: State, op: string, left: Expr, right: Expr, line: nat, fuel: nat): (r: Result<Outcome>)
    requires Valid(st)
    ensures Good(st, r)
    decreases fuel, 3, 0
  {
    var lo :- EvalExpr(d, st, left, fuel);
    var ro :- EvalExpr(d, lo.st, right, fuel);
    ApplyBinary(ro.st, op, lo.value, ro.value, line)
  }

  function ApplyBinary(st: State, op: string, l: Value, r: Value, line: nat): (res: Result<Outcome>)
    requires Valid(st)
    ensures Good(st, res)
  {
    var st2 :- AddTrace(st, line, None);
    var v :- BinaryOp(op, l, r);
    Ok(Outcome(v, st2))
  }

  /** The left operand and the step; the right operand only when the left one does
      not decide the result. */
  function EvalLogical(d: Dialect, st: State, op: string, left: Expr, right: Expr, line: nat, fuel: nat): (r: Result<Outcome>)
    requires Valid(st)
    ensures Good(st, r)
    decreases fuel, 3, 0
  {
    var lo :- EvalExpr(d, st, left, fuel);
    var st2 :- AddTrace(lo.st, line, None);
    if op == "&&" && !Truthy(lo.value) then Ok(Outcome(BoolV(false), st2))
    else if op == "||" && Truthy(lo.value) then Ok(Outcome(BoolV(true), st2))
    else EvalExpr(d, st2, right, fuel)
  }

  function EvalUnary(d: Dialect, st: State, op: string, argument: Expr, line: nat, fuel: nat): (r: Result<Outcome>)
    requires Valid(st)
    ensures Good(st, r)
    decreases fuel, 3, 0
  {
    var ao :- EvalExpr(d, st, argument, fuel);
    var st2 :- AddTrace(ao.st, line, None);
    var v :- UnaryOp(op, ao.value);
    Ok(Outcome(v, st2))
  }

  /** The value, the step, then the store: a variable, an array element, or (for
      any other target) nothing, giving `undefined`. */
  function EvalAssignment(d: Dialect, st: State, assignee: Expr, rhs: Expr, line: nat, fuel: nat): (r: Result<Outcome>)
    requires Valid(st)
    ensures Good(st, r)
    decreases fuel, 3, 0
  {
    var vo :- EvalExpr(d, st, rhs, fuel);
    var st2 :- AddTrace(vo.st, line, None);
    AssignTo(d, st2, assignee, vo.value, fuel)
  }

  function AssignTo(d: Dialect, st: State, assignee: Expr, v: Value, fuel: nat): (r: Result<Outcome>)
    requires Valid(st)
    ensures Good(st, r)
    decreases fuel, 2, 0
  {
    if assignee.Identifier? then
      var envs :- Assign(st.envs, st.current, assignee.symbol, v);
      Ok(Outcome(v, st.(envs := envs)))
    else if assignee.MemberExpr? && assignee.computed then
      var oo :- EvalExpr(d, st, assignee.obj, fuel);
      var io :- EvalExpr(d, oo.st, assignee.property, fuel);
      var h :- WriteElement(d, io.st.heap, oo.value, io.value, v);
      Ok(Outcome(v, io.st.(heap := h)))
    else Ok(Outcome(UndefinedV, st))
  }

  /** `arr[i]` evaluates the array and the index; `x.length` only the object; any
      other property reads as `undefined`. */
  function EvalMember(d: Dialect, st: State, obj: Expr, property: Expr, computed: bool, fuel: nat): (r: Result<Outcome>)
    requires Valid(st)
    ensures Good(st, r)
    decreases fuel, 3, 0
  {
    var oo :- EvalExpr(d, st, obj, fuel);
    if computed then
      var io :- EvalExpr(d, oo.st, property, fuel);
      var v :- ReadElement(d, io.st.heap, oo.value, io.value);
      Ok(Outcome(v, io.st))
    else if property.Identifier? && property.symbol == "length" then
      var v :- ArrayLength(d, oo.st.heap, oo.value);
      Ok(Outcome(v, oo.st))
    else Ok(Outcome(UndefinedV, oo.st))
  }

  /** `expr.args.map(arg => this.evaluate(arg))`. */
  function EvalArgs(d: Dialect, st: State, args: seq<Expr>, fuel: nat): (r: Result<Outcomes>)
    requires Valid(st)
    ensures GoodAll(st, r)
    ensures r.Ok? ==> |r.value.values| == |args|
    decreases fuel, 2, |args|
  {
    if args == [] then Ok(Outcomes([], st))
    else
      var o :- EvalExpr(d, st, args[0], fuel);
      var rest :- EvalArgs(d, o.st, args[1..], fuel);
      Ok(Outcomes([o.value] + rest.values, rest.st))
  }

  /** The arguments first; a `System.out` call with output pushes a console step
      (without the step limit) and gives `undefined`; any other call is a method
      call. */
  function EvalCall(d: Dialect, st: State, callee: Expr, args: seq<Expr>, line: nat, fuel: nat): (r: Result<Outcome>)
    requires Valid(st)
    ensures Good(st, r)
    decreases fuel, 4, 0
  {
    var ao :- EvalArgs(d, st, args, fuel);
    var output :- ConsoleText(d, callee, ao.values);
    if output.Some? then
      Ok(Outcome(UndefinedV, ao.st.(trace := ao.st.trace + [MakeStep(ao.st, line, None, output)])))
    else CallMethod(d, ao.st, callee, ao.values, fuel)
  }

  /** Evaluates the receiver and finds the method in its class. */
  function CallMethod(d: Dialect, st: State, callee: Expr, args: seq<Value>, fuel: nat): (r: Result<Outcome>)
    requires Valid(st)
    ensures Good(st, r)
    decreases fuel, 3, 0
  {
    if !callee.MemberExpr? then Err(HostError("TypeError"))
    else
      var ro :- EvalExpr(d, st, callee.obj, fuel);
      var m :- MethodTarget(d, ro.st, ro.value, MethodKey(callee.property));
      Invoke(d, ro.st, m, args, fuel)
  }

  /** A fresh activation record whose parent is the global environment, the frame
      pushed, the body run as a block, the frame popped and the caller's environment
      restored; a returned value is unwrapped, any other result passes through. */
  function Invoke(d: Dialect, st: State, m: MethodDef, args: seq<Value>, fuel: nat): (r: Result<Outcome>)
    requires Valid(st)
    ensures Good(st, r)
    decreases fuel, 2, 0
  {
    var inside :- Activate(st, m, args);
    var bo :- EvalStmt(d, inside, BlockStatement(m.body, m.line), fuel);
    var back := bo.st.(callStack := Pop(bo.st.callStack), current := st.current);
    Ok(Outcome(if bo.value.ReturnV? then bo.value.result else bo.value, back))
  }

  /** The state in which a method body starts: the activation record (a child of the
      global environment, holding the parameters) is current and the frame, which
      remembers the caller's environment, is pushed. */
  function Activate(st: State, m: MethodDef, args: seq<Value>): (r: Result<State>)
    requires Valid(st)
    ensures r.Ok? ==> Valid(r.value) && r.value.current == |st.envs| && |r.value.envs| == |st.envs| + 1
    ensures r.Ok? ==> r.value.envs[|st.envs|].parent == Some(Global)
    ensures r.Ok? ==> forall i :: 0 <= i < |st.envs| ==> r.value.envs[i] == st.envs[i]
    ensures r.Ok? ==> r.value.callStack == st.callStack + [Frame(m.name, m.line, st.current)]
    ensures r.Ok? ==> r.value.trace == st.trace && r.value.nextHeapId == st.nextHeapId
  {
    var (envs1, act) := NewScope(st.envs, Global);
    var envs2 :- DeclareParams(envs1, act, m.params, args, 0);
    Ok(st.(envs := envs2, current := act, callStack := st.callStack + [Frame(m.name, m.line, st.current)]))
  }

  /** The id is taken before the elements (or the size) are evaluated; the array is
      stored and the allocation step recorded afterwards. */
  function EvalArrayCreation(d: Dialect, st: State, t: string, size: Option<Expr>, values: Option<seq<Expr>>, line: nat, fuel: nat): (r: Result<Outcome>)
    requires Valid(st)
    ensures Good(st, r)
    ensures r.Ok? ==> r.value.value == RefV(st.nextHeapId)
    decreases fuel, 4, 0
  {
    var id := st.nextHeapId;
    var eo :- ArrayElements(d, st.(nextHeapId := id + 1), t, size, values, fuel);
    var st2 := eo.st.(heap := Store(eo.st.heap, id, ArrayV(t, eo.values)));
    var st3 :- AddTrace(st2, line, Some(Allocation));
    Ok(Outcome(RefV(id), st3))
  }

  /** The listed elements, or `size` copies of the element type's default. */
  function ArrayElements(d: Dialect, st: State, t: string, size: Option<Expr>, values: Option<seq<Expr>>, fuel: nat): (r: Result<Outcomes>)
    requires Valid(st)
    ensures GoodAll(st, r)
    decreases fuel, 3, 0
  {
    match values
    case Some(vs) => EvalArgs(d, st, vs, fuel)
    case None =>
      match size
      case None => Err(HostError("TypeError"))
      case Some(n) =>
        var no :- EvalExpr(d, st, n, fuel);
        var elements :- FilledArray(no.value, DefaultValue(t));
        Ok(Outcomes(elements, no.st))
  }

  /** `evaluate` on a statement. */
  function EvalStmt(d: Dialect, st: State, s: Stmt, fuel: nat): (r: Result<Outcome>)
    requires Valid(st)
    ensures Good(st, r)
    decreases fuel, 1, 0
  {
    if fuel == 0 then Err(OutOfFuel)
    else
      var f := fuel - 1;
      match s
      case BlockStatement(stmts, _) => EvalBlock(d, st, stmts, f)
      case VariableDeclaration(t, name, init, line) => EvalVarDecl(d, st, t, name, init, line, f)
      case ExpressionStatement(e, _) => EvalExpr(d, st, e, f)
      case ReturnStatement(argument, line) => EvalReturn(d, st, argument, line, f)
      case BreakStatement(line) =>
        var st2 :- AddTrace(st, line, None);
        Ok(Outcome(BreakV, st2))
      case ContinueStatement(line) =>
        var st2 :- AddTrace(st, line, None);
        Ok(Outcome(ContinueV, st2))
      case ForStatement(init, test, update, body, _) => EvalFor(d, st, init, test, update, body, f)
      case WhileStatement(test, body, _) => EvalWhile(d, st, test, body, f)
      case DoWhileStatement(test, body, _) => EvalDoWhile(d, st, test, body, f)
      case IfStatement(test, consequent, alternate, _) => EvalIf(d, st, test, consequent, alternate, f)
      case ClassDeclaration(_, _, _) => Err(Unsupported("ClassDeclaration"))
      case MethodDeclaration(_, _, _, _, _) => Err(Unsupported("MethodDeclaration"))
  }

  /** A child environment for the statements, which run until one gives a break,
      continue or return result; the parent environment is then restored. */
  function EvalBlock(d: Dialect, st: State, stmts: seq<Stmt>, fuel: nat): (r: Result<Outcome>)
    requires Valid(st)
    ensures Good(st, r)
    ensures r.Ok? ==> forall i :: 0 <= i < |st.envs| ==> Names(r.value.st.envs[i].variables) == Names(st.envs[i].variables)
    decreases fuel, 3, 0
  {
    var inner := Enter(st, st.current);
    var ro :- EvalStmts(d, inner, stmts, UndefinedV, fuel);
    Ok(Outcome(ro.value, Leave(ro.st)))
  }

  /** The statement loop of a block; `last` is the result so far. */
  function EvalStmts(d: Dialect, st: State, stmts: seq<Stmt>, last: Value, fuel: nat): (r: Result<Outcome>)
    requires Valid(st)
    ensures Good(st, r)
    decreases fuel, 2, |stmts|
  {
    if stmts == [] then Ok(Outcome(last, st))
    else
      var o :- EvalStmt(d, st, stmts[0], fuel);
      if StopsBlock(o.value) then Ok(o)
      else EvalStmts(d, o.st, stmts[1..], o.value, fuel)
  }

  /** An optional expression, or `dflt` when it is absent. */
  function EvalOptional(d: Dialect, st: State, e: Option<Expr>, dflt: Value, fuel: nat): (r: Result<Outcome>)
    requires Valid(st)
    ensures Good(st, r)
    ensures e.None? ==> r == Ok(Outcome(dflt, st))
    decreases fuel, 2, 0
  {
    match e
    case Some(x) => EvalExpr(d, st, x, fuel)
    case None => Ok(Outcome(dflt, st))
  }

  /** The initial value, the step, then the binding; the declaration gives the
      value. */
  function EvalVarDecl(d: Dialect, st: State, t: string, name: string, init: Option<Expr>, line: nat, fuel: nat): (r: Result<Outcome>)
    requires Valid(st)
    ensures Good(st, r)
    decreases fuel, 3, 0
  {
    var vo :- EvalOptional(d, st, init, DefaultValue(t), fuel);
    var st2 :- AddTrace(vo.st, line, None);
    var envs :- Declare(st2.envs, st2.current, name, vo.value);
    Ok(Outcome(vo.value, st2.(envs := envs)))
  }

  /** The value (or `undefined`), a 'return' step, then the return sentinel. */
  function EvalReturn(d: Dialect, st: State, argument: Option<Expr>, line: nat, fuel: nat): (r: Result<Outcome>)
    requires Valid(st)
    ensures Good(st, r)
    decreases fuel, 3, 0
  {
    var vo :- EvalOptional(d, st, argument, UndefinedV, fuel);
    var st2 :- AddTrace(vo.st, line, Some(ReturnEvent));
    Ok(Outcome(ReturnV(vo.value), st2))
  }

  function EvalIf(d: Dialect, st: State, test: Expr, consequent: Stmt, alternate: Option<Stmt>, fuel: nat): (r: Result<Outcome>)
    requires Valid(st)
    ensures Good(st, r)
    decreases fuel, 3, 0
  {
    var to :- EvalExpr(d, st, test, fuel);
    if Truthy(to.value) then EvalStmt(d, to.st, consequent, fuel)
    else if alternate.Some? then EvalStmt(d, to.st, alternate.value, fuel)
    else Ok(Outcome(UndefinedV, to.st))
  }

  /** A `for` loop runs in an environment of its own, shared by the initializer, the
      test, the body and the update; it always gives `undefined`. */
  function EvalFor(d: Dialect, st: State, init: Option<Stmt>, test: Option<Expr>, update: Option<Expr>, body: Stmt, fuel: nat): (r: Result<Outcome>)
    requires Valid(st)
    ensures Good(st, r)
    decreases fuel, 5, 0
  {
    var inner := Enter(st, st.current);
    var st1 :- EvalInit(d, inner, init, fuel);
    var st2 :- ForLoop(d, st1, test, update, body, fuel);
    Ok(Outcome(UndefinedV, Leave(st2)))
  }

  function EvalInit(d: Dialect, st: State, init: Option<Stmt>, fuel: nat): (r: Result<State>)
    requires Valid(st)
    ensures GoodState(st, r)
    decreases fuel, 2, 0
  {
    match init
    case Some(s) =>
      var o :- EvalStmt(d, st, s, fuel);
      Ok(o.st)
    case None => Ok(st)
  }

  /** One test of the `for` loop (a missing test is true), then the body. */
  function ForLoop(d: Dialect, st: State, test: Option<Expr>, update: Option<Expr>, body: Stmt, fuel: nat): (r: Result<State>)
    requires Valid(st)
    ensures GoodState(st, r)
    decreases fuel, 4, 0
  {
    var to :- EvalOptional(d, st, test, BoolV(true), fuel);
    if !Truthy(to.value) then Ok(to.st)
    else ForBody(d, to.st, test, update, body, fuel)
  }

  /** The body; a break or return result ends the loop, and otherwise (a continue
      result included) the update runs before the next test. */
  function ForBody(d: Dialect, st: State, test: Option<Expr>, update: Option<Expr>, body: Stmt, fuel: nat): (r: Result<State>)
    requires Valid(st)
    ensures GoodState(st, r)
    decreases fuel, 3, 0
  {
    var bo :- EvalStmt(d, st, body, fuel);
    if StopsLoop(bo.value) then Ok(bo.st)
    else
      var uo :- EvalOptional(d, bo.st, update, UndefinedV, fuel);
      if fuel == 0 then Err(OutOfFuel)
      else ForLoop(d, uo.st, test, update, body, fuel - 1)
  }

  /** The test before every iteration; a break or return result ends the loop, which
      gives `undefined`. */
  function EvalWhile(d: Dialect, st: State, test: Expr, body: Stmt, fuel: nat): (r: Result<Outcome>)
    requires Valid(st)
    ensures Good(st, r)
    ensures r.Ok? ==> r.value.value == UndefinedV
    decreases fuel, 3, 0
  {
    var to :- EvalExpr(d, st, test, fuel);
    if !Truthy(to.value) then Ok(Outcome(UndefinedV, to.st))
    else
      var bo :- EvalStmt(d, to.st, body, fuel);
      if StopsLoop(bo.value) then Ok(Outcome(UndefinedV, bo.st))
      else if fuel == 0 then Err(OutOfFuel)
      else EvalWhile(d, bo.st, test, body, fuel - 1)
  }

  /** The body before every test; a continue result goes on to the test. */
  function EvalDoWhile(d: Dialect, st: State, test: Expr, body: Stmt, fuel: nat): (r: Result<Outcome>)
    requires Valid(st)
    ensures Good(st, r)
    ensures r.Ok? ==> r.value.value == UndefinedV
    decreases fuel, 3, 0
  {
    var bo :- EvalStmt(d, st, body, fuel);
    if StopsLoop(bo.value) then Ok(Outcome(UndefinedV, bo.st))
    else
      var to :- EvalExpr(d, bo.st, test, fuel);
      if !Truthy(to.value) then Ok(Outcome(UndefinedV, to.st))
      else if fuel == 0 then Err(OutOfFuel)
      else EvalDoWhile(d, to.st, test, body, fuel - 1)
  }

  // ---------------------------------------------------------------------------
  // run

  /** The method table of a class: `methods[member.name] = member` for each method
      in order, so a later method of the same name replaces an earlier one. */
  function MethodTable(members: seq<Stmt>, acc: map<string, MethodDef>): (r: map<string, MethodDef>)
    decreases |members|
  {
    if members == [] then acc
    else
      var m := members[0];
      var acc' := if m.MethodDeclaration? then acc[m.methodName := MethodDef(m.methodName, m.params, m.body, m.line)] else acc;
      MethodTable(members[1..], acc')
  }

  /** Every class declaration is declared in the global environment in order. */
  function DeclareClasses(body: seq<Stmt>, envs: Arena): (r: Result<Arena>)
    requires WellFormed(envs) && 0 < |envs|
    ensures r.Ok? ==> WellFormed(r.value) && |r.value| == |envs|
    decreases |body|
  {
    if body == [] then Ok(envs)
    else if body[0].ClassDeclaration? then
      var c := body[0];
      var envs' :- Declare(envs, Global, c.className, ClassV(c.className, MethodTable(c.members, map[])));
      DeclareClasses(body[1..], envs')
    else DeclareClasses(body[1..], envs)
  }

  /** `Main.main`, which must exist. */
  function MainMethod(envs: Arena): (r: Result<MethodDef>)
    requires WellFormed(envs) && 0 < |envs|
  {
    var mainClass :- Lookup(envs, Global, "Main");
    if mainClass.ClassV? && "main" in mainClass.methods then Ok(mainClass.methods["main"])
    else Err(RuntimeError("Main.main method not found."))
  }

  /** The state a run starts from, once classes are declared. */
  function Initial(envs: Arena, main: MethodDef): (st: State)
    requires WellFormed(envs) && 0 < |envs|
    ensures Valid(st)
  {
    State([], [], 0, envs, Global, [Frame("main", main.line, Global)])
  }

  /** `run`: the classes, then `Main.main`'s body as a block inside the `main` frame;
      the result is the trace. */
  function Run(d: Dialect, program: Program, fuel: nat): Result<seq<Step>>
  {
    var envs :- DeclareClasses(program.body, [Scope(None, [])]);
    var main :- MainMethod(envs);
    var o :- EvalStmt(d, Initial(envs, main), BlockStatement(main.body, main.line), fuel);
    Ok(o.st.trace)
  }
}
