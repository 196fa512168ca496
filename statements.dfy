// src/lib/statements.ts: block, if, for and while statements evaluated through a
// callback `ctx.evaluate(node, env, ctx)` that the caller supplies. Environments are
// indices into an arena of scopes; the callback gets the arena and the environment and
// gives the node's value and the arena it leaves. A loop that the source runs without
// bound is run here on `fuel`.

module Statements {
  import opened Common
  import opened Ast
  import opened Values
  import opened Environments

  /** A node handed to the callback. */
  datatype Node = S(stmt: Stmt) | E(expr: Expr)

  /** What the callback gives: the node's value and the scopes it leaves behind. */
  datatype Done = Done(value: Value, envs: Arena)

  /** `ctx.evaluate`. */
  type Evaluate = (Arena, nat, Node) -> Result<Done>

  // ---------------------------------------------------------------------------
  // Blocks

  /** The statements of a block from a given point on, with the result so far: each
      statement's value becomes the result, and a break, continue or return result
      ends the block. */
  function RunStmts(ev: Evaluate, a: Arena, local: nat, stmts: seq<Stmt>, result: Value): (r: Result<Done>)
    decreases |stmts|
  {
    if stmts == [] then Ok(Done(result, a))
    else
      var o :- ev(a, local, S(stmts[0]));
      if StopsBlock(o.value) then Ok(o)
      else RunStmts(ev, o.envs, local, stmts[1..], o.value)
  }

  /** `evalBlockStatement`: the statements run in a new environment whose parent is
      `env`, starting from the result `undefined`. */
  function Block(ev: Evaluate, a: Arena, env: nat, body: seq<Stmt>): Result<Done>
    requires env < |a|
  {
    var (a0, local) := NewScope(a, env);
    RunStmts(ev, a0, local, body, UndefinedV)
  }

  /** `evalBlockStatement`, statement by statement. */
  method EvalBlockStatement(ev: Evaluate, a: Arena, env: nat, body: seq<Stmt>) returns (r: Result<Done>)
    requires env < |a|
    ensures r == Block(ev, a, env, body)
  {
    var (a0, local) := NewScope(a, env);
    var arena := a0;
    var result := UndefinedV;
    var i := 0;
    while i < |body|
      invariant 0 <= i <= |body|
      invariant !StopsBlock(result)
      invariant RunStmts(ev, a0, local, body, UndefinedV) == RunStmts(ev, arena, local, body[i..], result)
      decreases |body| - i
    {
      assert body[i..][0] == body[i] && body[i..][1..] == body[i + 1..];
      var o := ev(arena, local, S(body[i]));
      if o.Err? {
        return o;
      }
      if StopsBlock(o.value.value) {
        return o;
      }
      arena, result := o.value.envs, o.value.value;
      i := i + 1;
    }
    assert body[i..] == [];
    r := Ok(Done(result, arena));
  }

  // ---------------------------------------------------------------------------
  // if

  /** `evalIfStatement`: the test, then the consequent when it is truthy, else the
      alternate when there is one, else `undefined`. */
  function EvalIf(ev: Evaluate, a: Arena, env: nat, test: Expr, consequent: Stmt, alternate: Option<Stmt>): Result<Done>
  {
    var t :- ev(a, env, E(test));
    if Truthy(t.value) then ev(t.envs, env, S(consequent))
    else if alternate.Some? then ev(t.envs, env, S(alternate.value))
    else Ok(Done(UndefinedV, t.envs))
  }

  // ---------------------------------------------------------------------------
  // while

  /** `evalWhileStatement` on `fuel` iterations: the test, then the body while the
      test is truthy; a break or return result ends the loop, a continue result goes
      on to the test. The loop itself gives `undefined`. */
  function While(ev: Evaluate, a: Arena, env: nat, test: Expr, body: Stmt, fuel: nat): (r: Result<Done>)
    ensures r.Ok? ==> r.value.value == UndefinedV
    decreases fuel
  {
    if fuel == 0 then Err(OutOfFuel)
    else
      var t :- ev(a, env, E(test));
      if !Truthy(t.value) then Ok(Done(UndefinedV, t.envs))
      else
        var b :- ev(t.envs, env, S(body));
        if StopsLoop(b.value) then Ok(Done(UndefinedV, b.envs))
        else While(ev, b.envs, env, test, body, fuel - 1)
  }

  /** `evalWhileStatement`, iteration by iteration. */
  method EvalWhileStatement(ev: Evaluate, a: Arena, env: nat, test: Expr, body: Stmt, fuel: nat) returns (r: Result<Done>)
    ensures r == While(ev, a, env, test, body, fuel)
  {
    var arena := a;
    var f := fuel;
    while f > 0
      invariant While(ev, a, env, test, body, fuel) == While(ev, arena, env, test, body, f)
      decreases f
    {
      var t := ev(arena, env, E(test));
      if t.Err? {
        return Err(t.error);
      }
      if !Truthy(t.value.value) {
        return Ok(Done(UndefinedV, t.value.envs));
      }
      var b := ev(t.value.envs, env, S(body));
      if b.Err? {
        return Err(b.error);
      }
      if StopsLoop(b.value.value) {
        return Ok(Done(UndefinedV, b.value.envs));
      }
      arena := b.value.envs;
      f := f - 1;
    }
    r := Err(OutOfFuel);
  }

  // ---------------------------------------------------------------------------
  // for

  /** An optional expression's evaluation, or `dflt` without a call. */
  function Optional(ev: Evaluate, a: Arena, env: nat, x: Option<Expr>, dflt: Value): (r: Result<Done>)
    ensures x.None? ==> r == Ok(Done(dflt, a))
  {
    if x.Some? then ev(a, env, E(x.value)) else Ok(Done(dflt, a))
  }

  /** The loop of `evalForStatement` on `fuel` iterations: the test (true when there
      is none), the body, then the update, which also runs after a continue result. */
  function ForLoop(ev: Evaluate, a: Arena, local: nat, test: Option<Expr>, update: Option<Expr>, body: Stmt, fuel: nat): (r: Result<Done>)
    ensures r.Ok? ==> r.value.value == UndefinedV
    decreases fuel
  {
    if fuel == 0 then Err(OutOfFuel)
    else
      var t :- Optional(ev, a, local, test, BoolV(true));
      if !Truthy(t.value) then Ok(Done(UndefinedV, t.envs))
      else
        var b :- ev(t.envs, local, S(body));
        if StopsLoop(b.value) then Ok(Done(UndefinedV, b.envs))
        else
          var u :- Optional(ev, b.envs, local, update, UndefinedV);
          ForLoop(ev, u.envs, local, test, update, body, fuel - 1)
  }

  /** `evalForStatement`: a new environment whose parent is `env`, the initialiser in
      it, then the loop. */
  function For(ev: Evaluate, a: Arena, env: nat, init: Option<Stmt>, test: Option<Expr>, update: Option<Expr>, body: Stmt, fuel: nat): (r: Result<Done>)
    requires env < |a|
    ensures r.Ok? ==> r.value.value == UndefinedV
  {
    var (a0, local) := NewScope(a, env);
    var a1 :- if init.Some? then ev(a0, local, S(init.value)) else Ok(Done(UndefinedV, a0));
    ForLoop(ev, a1.envs, local, test, update, body, fuel)
  }

  /** `evalForStatement`, iteration by iteration. */
  method EvalForStatement(ev: Evaluate, a: Arena, env: nat, init: Option<Stmt>, test: Option<Expr>, update: Option<Expr>, body: Stmt, fuel: nat)
    returns (r: Result<Done>)
    requires env < |a|
    ensures r == For(ev, a, env, init, test, update, body, fuel)
  {
    var (a0, local) := NewScope(a, env);
    var arena := a0;
    if init.Some? {
      var i := ev(a0, local, S(init.value));
      if i.Err? {
        return Err(i.error);
      }
      arena := i.value.envs;
    }
    r := ForIterations(ev, arena, local, test, update, body, fuel);
  }

  /** The `while` of `evalForStatement`. */
  method ForIterations(ev: Evaluate, a: Arena, local: nat, test: Option<Expr>, update: Option<Expr>, body: Stmt, fuel: nat)
    returns (r: Result<Done>)
    ensures r == ForLoop(ev, a, local, test, update, body, fuel)
  {
    var arena := a;
    var f := fuel;
    while f > 0
      invariant ForLoop(ev, a, local, test, update, body, fuel) == ForLoop(ev, arena, local, test, update, body, f)
      decreases f
    {
      var t := if test.Some? then ev(arena, local, E(test.value)) else Ok(Done(BoolV(true), arena));
      if t.Err? {
        return Err(t.error);
      }
      if !Truthy(t.value.value) {
        return Ok(Done(UndefinedV, t.value.envs));
      }
      var b := ev(t.value.envs, local, S(body));
      if b.Err? {
        return Err(b.error);
      }
      if StopsLoop(b.value.value) {
        return Ok(Done(UndefinedV, b.value.envs));
      }
      arena := b.value.envs;
      if update.Some? {
        var u := ev(arena, local, E(update.value));
        if u.Err? {
          return Err(u.error);
        }
        arena := u.value.envs;
      }
      f := f - 1;
    }
    r := Err(OutOfFuel);
  }

  // ---------------------------------------------------------------------------
  // Properties

  /** A block ends at the first statement that gives break, continue or a return
      result, and gives that result: later statements are never handed to the
      callback. */
  lemma BlockStopsAtSentinel(ev: Evaluate, a: Arena, local: nat, s: Stmt, rest1: seq<Stmt>, rest2: seq<Stmt>, result: Value)
    requires ev(a, local, S(s)).Ok? && StopsBlock(ev(a, local, S(s)).value.value)
    ensures RunStmts(ev, a, local, [s] + rest1, result) == ev(a, local, S(s))
    ensures RunStmts(ev, a, local, [s] + rest1, result) == RunStmts(ev, a, local, [s] + rest2, result)
  {
    assert ([s] + rest1)[0] == s;
    assert ([s] + rest2)[0] == s;
  }

  /** Running `first + rest` is running `first`, then, unless that stopped the block,
      `rest` from where it left off. */
  lemma {:induction false} BlockRunsInSequence(ev: Evaluate, a: Arena, local: nat, first: seq<Stmt>, rest: seq<Stmt>, result: Value)
    requires !StopsBlock(result)
    ensures RunStmts(ev, a, local, first + rest, result) ==
              (var o :- RunStmts(ev, a, local, first, result);
               if StopsBlock(o.value) then Ok(o) else RunStmts(ev, o.envs, local, rest, o.value))
    decreases |first|
  {
    if first == [] {
      assert first + rest == rest;
    } else {
      assert (first + rest)[0] == first[0];
      assert (first + rest)[1..] == first[1..] + rest;
      var o := ev(a, local, S(first[0]));
      if o.Ok? && !StopsBlock(o.value.value) {
        BlockRunsInSequence(ev, o.value.envs, local, first[1..], rest, o.value.value);
      }
    }
  }

  /** Every statement of a block is evaluated in the block's own environment, a new
      child of `env` appended to the arena; an empty block gives `undefined`. */
  lemma BlockUsesFreshChild(ev: Evaluate, a: Arena, env: nat, s: Stmt, rest: seq<Stmt>)
    requires env < |a|
    ensures Block(ev, a, env, []) == Ok(Done(UndefinedV, a + [Scope(Some(env), [])]))
    ensures var o := ev(a + [Scope(Some(env), [])], |a|, S(s));
      o.Ok? && StopsBlock(o.value.value) ==> Block(ev, a, env, [s] + rest) == o
  {
    var a0 := a + [Scope(Some(env), [])];
    var o := ev(a0, |a|, S(s));
    if o.Ok? && StopsBlock(o.value.value) {
      BlockStopsAtSentinel(ev, a0, |a|, s, rest, [], UndefinedV);
    }
  }

  /** Exactly one branch of an `if` is evaluated: the other one makes no difference. */
  lemma IfTakesOneBranch(ev: Evaluate, a: Arena, env: nat, test: Expr, c1: Stmt, c2: Stmt, alt1: Option<Stmt>, alt2: Option<Stmt>)
    ensures var t := ev(a, env, E(test));
      t.Ok? && Truthy(t.value.value) ==> EvalIf(ev, a, env, test, c1, alt1) == EvalIf(ev, a, env, test, c1, alt2)
    ensures var t := ev(a, env, E(test));
      t.Ok? && !Truthy(t.value.value) ==> EvalIf(ev, a, env, test, c1, alt1) == EvalIf(ev, a, env, test, c2, alt1)
    ensures var t := ev(a, env, E(test));
      t.Ok? && !Truthy(t.value.value) ==> EvalIf(ev, a, env, test, c1, None) == Ok(Done(UndefinedV, t.value.envs))
  {
  }

  /** More fuel does not change a `while` loop that finished. */
  lemma {:induction false} WhileFuelSuffices(ev: Evaluate, a: Arena, env: nat, test: Expr, body: Stmt, fuel: nat, more: nat)
    requires While(ev, a, env, test, body, fuel) != Err(OutOfFuel)
    requires fuel <= more
    ensures While(ev, a, env, test, body, more) == While(ev, a, env, test, body, fuel)
    decreases fuel
  {
    var t := ev(a, env, E(test));
    if t.Ok? && Truthy(t.value.value) {
      var b := ev(t.value.envs, env, S(body));
      if b.Ok? && !StopsLoop(b.value.value) {
        WhileFuelSuffices(ev, b.value.envs, env, test, body, fuel - 1, more - 1);
      }
    }
  }

  /** More fuel does not change a `for` loop that finished. */
  lemma {:induction false} ForFuelSuffices(ev: Evaluate, a: Arena, local: nat, test: Option<Expr>, update: Option<Expr>, body: Stmt, fuel: nat, more: nat)
    requires ForLoop(ev, a, local, test, update, body, fuel) != Err(OutOfFuel)
    requires fuel <= more
    ensures ForLoop(ev, a, local, test, update, body, more) == ForLoop(ev, a, local, test, update, body, fuel)
    decreases fuel
  {
    var t := Optional(ev, a, local, test, BoolV(true));
    if t.Ok? && Truthy(t.value.value) {
      var b := ev(t.value.envs, local, S(body));
      if b.Ok? && !StopsLoop(b.value.value) {
        var u := Optional(ev, b.value.envs, local, update, UndefinedV);
        if u.Ok? {
          ForFuelSuffices(ev, u.value.envs, local, test, update, body, fuel - 1, more - 1);
        }
      }
    }
  }

  /** A `while` body that gives break, or a return result, ends the loop with
      `undefined`: the returned value is not passed on. */
  lemma WhileStopsOnBreakOrReturn(ev: Evaluate, a: Arena, env: nat, test: Expr, body: Stmt, fuel: nat)
    requires fuel > 0
    requires ev(a, env, E(test)).Ok? && Truthy(ev(a, env, E(test)).value.value)
    requires var t := ev(a, env, E(test)).value;
      ev(t.envs, env, S(body)).Ok? && StopsLoop(ev(t.envs, env, S(body)).value.value)
    ensures var t := ev(a, env, E(test)).value;
      While(ev, a, env, test, body, fuel) == Ok(Done(UndefinedV, ev(t.envs, env, S(body)).value.envs))
  {
  }

  /** In a `while` loop a continue result goes straight back to the test, like any
      other result that does not end the loop. */
  lemma WhileContinueRetests(ev: Evaluate, a: Arena, env: nat, test: Expr, body: Stmt, fuel: nat)
    requires fuel > 0
    requires ev(a, env, E(test)).Ok? && Truthy(ev(a, env, E(test)).value.value)
    requires var t := ev(a, env, E(test)).value;
      ev(t.envs, env, S(body)).Ok? && ev(t.envs, env, S(body)).value.value == ContinueV
    ensures var t := ev(a, env, E(test)).value;
      While(ev, a, env, test, body, fuel) == While(ev, ev(t.envs, env, S(body)).value.envs, env, test, body, fuel - 1)
  {
  }

  /** In a `for` loop a continue result still runs the update before the test. */
  lemma ForContinueRunsUpdate(ev: Evaluate, a: Arena, local: nat, test: Option<Expr>, u: Expr, body: Stmt, fuel: nat)
    requires fuel > 0
    requires Optional(ev, a, local, test, BoolV(true)).Ok? && Truthy(Optional(ev, a, local, test, BoolV(true)).value.value)
    requires var t := Optional(ev, a, local, test, BoolV(true)).value;
      ev(t.envs, local, S(body)).Ok? && ev(t.envs, local, S(body)).value.value == ContinueV
    ensures var t := Optional(ev, a, local, test, BoolV(true)).value;
      var b := ev(t.envs, local, S(body)).value;
      ForLoop(ev, a, local, test, Some(u), body, fuel) ==
        (var uo :- ev(b.envs, local, E(u)); ForLoop(ev, uo.envs, local, test, Some(u), body, fuel - 1))
  {
  }

  /** A `for` loop without a test runs until its body breaks or returns: its test
      counts as true. */
  lemma ForWithoutTestNeverStopsOnItsOwn(ev: Evaluate, a: Arena, local: nat, update: Option<Expr>, body: Stmt, fuel: nat)
    requires fuel > 0
    ensures ForLoop(ev, a, local, None, update, body, fuel) ==
              (var b :- ev(a, local, S(body));
               if StopsLoop(b.value) then Ok(Done(UndefinedV, b.envs))
               else
                 var u :- Optional(ev, b.envs, local, update, UndefinedV);
                 ForLoop(ev, u.envs, local, None, update, body, fuel - 1))
  {
  }
}
