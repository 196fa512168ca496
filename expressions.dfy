// src/lib/expressions.ts: binary expressions and `System.out` calls evaluated through
// the same `ctx.evaluate` callback as the statements of module Statements.

module Expressions {
  import opened Common
  import opened Ast
  import opened Values
  import opened Environments
  import opened Statements
  import Console
  import Interpreter
  import Dialects

  /** The operator switch of `evalBinaryExpr`. Unlike the evaluator of
      src/lib/interpreter.ts it has a case for `%`, and an operator without a case
      throws. */
  function ExprBinaryOp(op: string, l: Value, r: Value): (v: Result<Value>)
    ensures v == Err(RuntimeError("Unknown operator: " + op)) <==>
              !(op == "+" || op == "-" || op == "*" || op == "/" || op == "%" || op == "<" || op == ">"
                || op == "<=" || op == ">=" || op == "==" || op == "!=")
  {
    if op == "+" then JsAdd(l, r)
    else if op == "-" then JsSub(l, r)
    else if op == "*" then JsMul(l, r)
    else if op == "/" then JsDiv(l, r)
    else if op == "%" then JsRem(l, r)
    else if op == "<" || op == ">" || op == "<=" || op == ">=" then JsCompare(op, l, r)
    else if op == "==" then Equality(l, r, true)
    else if op == "!=" then Equality(l, r, false)
    else Err(RuntimeError("Unknown operator: " + op))
  }

  /** `===` (`same`) or `!==`. */
  function Equality(l: Value, r: Value, same: bool): Result<Value>
  {
    var eq :- StrictEquals(l, r);
    Ok(BoolV(eq == same))
  }

  /** `evalBinaryExpr`: both operands, left first, then the operator. */
  function EvalBinaryExpr(ev: Evaluate, a: Arena, env: nat, op: string, left: Expr, right: Expr): Result<Done>
  {
    var l :- ev(a, env, E(left));
    var r :- ev(l.envs, env, E(right));
    var v :- ExprBinaryOp(op, l.value, r.value);
    Ok(Done(v, r.envs))
  }

  /** The callee shape `evalCallExpr` treats as `System.out.<method>`; the method
      need not be an Identifier. */
  predicate IsSystemOutCallee(callee: Expr)
  {
    && callee.MemberExpr? && callee.obj.MemberExpr?
    && callee.obj.obj.Identifier? && callee.obj.obj.symbol == "System"
    && callee.obj.property.Identifier? && callee.obj.property.symbol == "out"
  }

  /** The method name of a `System.out` call, `""` when it is not an Identifier. */
  function ConsoleMethod(callee: Expr): string
    requires IsSystemOutCallee(callee)
  {
    if callee.property.Identifier? then callee.property.symbol else ""
  }

  /** `args.map(arg => ctx.evaluate(arg, env, ctx))`, left to right. */
  function EvalArgs(ev: Evaluate, a: Arena, env: nat, args: seq<Expr>): (r: Result<(seq<Value>, Arena)>)
    ensures r.Ok? ==> |r.value.0| == |args|
    decreases |args|
  {
    if args == [] then Ok(([], a))
    else
      var o :- ev(a, env, E(args[0]));
      var rest :- EvalArgs(ev, o.envs, env, args[1..]);
      Ok(([o.value] + rest.0, rest.1))
  }

  /** `evalCallExpr`: a `System.out` call gives the text `systemOut` computes, or
      `null`; any other call gives `undefined` without evaluating anything. */
  function EvalCallExpr(ev: Evaluate, a: Arena, env: nat, callee: Expr, args: seq<Expr>): Result<Done>
  {
    if IsSystemOutCallee(callee) then
      var vs :- EvalArgs(ev, a, env, args);
      var out :- Console.SystemOut(ConsoleMethod(callee), vs.0);
      Ok(Done(if out.Some? then StrV(out.value) else NullV, vs.1))
    else Ok(Done(UndefinedV, a))
  }

  // ---------------------------------------------------------------------------
  // Properties

  /** On every operator both evaluators know, `evalBinaryExpr` computes what the
      evaluator of src/lib/interpreter.ts computes. */
  lemma SharedOperatorsAgree(op: string, l: Value, r: Value)
    requires op == "+" || op == "-" || op == "*" || op == "/" || op == "<" || op == ">"
          || op == "<=" || op == ">=" || op == "==" || op == "!="
    ensures ExprBinaryOp(op, l, r) == Interpreter.BinaryOp(op, l, r)
  {
  }

  /** `%` is the remainder with the dividend's sign here, where the evaluator of
      src/lib/interpreter.ts gives `undefined`. */
  lemma RemainderDiffers(a: int, b: int)
    requires b != 0 && IsExactInteger(a) && IsExactInteger(b)
    ensures ExprBinaryOp("%", IntV(a), IntV(b)) == Ok(IntV(TruncRem(a, b)))
    ensures Interpreter.BinaryOp("%", IntV(a), IntV(b)) == Ok(UndefinedV)
    ensures ExprBinaryOp("%", IntV(-7), IntV(2)) == Ok(IntV(-1))
  {
  }

  /** An unknown operator throws only after both operands were evaluated. */
  lemma UnknownOperatorAfterOperands(ev: Evaluate, a: Arena, env: nat, op: string, left: Expr, right: Expr)
    requires !(op == "+" || op == "-" || op == "*" || op == "/" || op == "%" || op == "<" || op == ">"
               || op == "<=" || op == ">=" || op == "==" || op == "!=")
    requires ev(a, env, E(left)).Ok? && ev(ev(a, env, E(left)).value.envs, env, E(right)).Ok?
    ensures EvalBinaryExpr(ev, a, env, op, left, right) == Err(RuntimeError("Unknown operator: " + op))
  {
  }

  /** A call that is not `System.out.<m>(...)` neither evaluates its arguments nor
      changes any scope, and gives `undefined`. */
  lemma OtherCallsDoNothing(ev: Evaluate, a: Arena, env: nat, callee: Expr, args: seq<Expr>)
    requires !IsSystemOutCallee(callee)
    ensures EvalCallExpr(ev, a, env, callee, args) == Ok(Done(UndefinedV, a))
  {
  }

  /** `System.out.println(x)` gives the escaped text of its first argument followed by
      a newline, once the arguments are evaluated; a method other than println, print
      and printf, or one whose name is not an Identifier, gives `null`. */
  lemma PrintlnGivesLine(ev: Evaluate, a: Arena, env: nat, callee: Expr, args: seq<Expr>)
    requires IsSystemOutCallee(callee) && EvalArgs(ev, a, env, args).Ok?
    ensures var vs := EvalArgs(ev, a, env, args).value;
      ConsoleMethod(callee) == "println" && args != [] && ToJsString(vs.0[0]).Ok? ==>
        EvalCallExpr(ev, a, env, callee, args) ==
          Ok(Done(StrV(Console.InterpretEscapes(Dialects.Modern, ToJsString(vs.0[0]).value) + "\n"), vs.1))
    ensures var vs := EvalArgs(ev, a, env, args).value;
      !callee.property.Identifier? ==> EvalCallExpr(ev, a, env, callee, args) == Ok(Done(NullV, vs.1))
  {
  }

  /** Arguments are evaluated left to right, each in the scopes the previous one
      left: evaluating `first + rest` is evaluating `first`, then `rest`. */
  lemma {:induction false} ArgsInOrder(ev: Evaluate, a: Arena, env: nat, first: seq<Expr>, rest: seq<Expr>)
    ensures EvalArgs(ev, a, env, first + rest) ==
              (var f :- EvalArgs(ev, a, env, first);
               var g :- EvalArgs(ev, f.1, env, rest);
               Ok((f.0 + g.0, g.1)))
    decreases |first|
  {
    if first == [] {
      assert first + rest == rest;
      var g := EvalArgs(ev, a, env, rest);
      if g.Ok? {
        assert [] + g.value.0 == g.value.0;
      }
    } else {
      assert (first + rest)[0] == first[0];
      assert (first + rest)[1..] == first[1..] + rest;
      var o := ev(a, env, E(first[0]));
      if o.Ok? {
        ArgsInOrder(ev, o.value.envs, env, first[1..], rest);
        var f := EvalArgs(ev, o.value.envs, env, first[1..]);
        if f.Ok? {
          var g := EvalArgs(ev, f.value.1, env, rest);
          if g.Ok? {
            assert [o.value.value] + (f.value.0 + g.value.0) == ([o.value.value] + f.value.0) + g.value.0;
          }
        }
      }
    }
  }
}
