// The recursive-descent parser (src/lib/parser.ts, and the Parser class of
// services/javaInterpreter.ts) as functions over the token sequence and a cursor
// position. Each function returns the node it built and the position after it, or the
// error the parser throws. A read of a token past the end of the sequence through a
// non-null assertion is the host's TypeError.

module Parsing {
  import opened Common
  import opened Dialects
  import opened Lexer
  import opened Ast

  datatype Parsed<T> = Parsed(node: T, next: nat)

  const TypeError := HostError("TypeError")

  /** `this.at()?.type === k`: false past the end. */
  predicate Is(ts: seq<Token>, pos: nat, k: TokenType)
  {
    pos < |ts| && ts[pos].kind == k
  }

  /** `expect(type, err)`: consumes the current token, which must have kind `k`; a
      mismatch is a ParseError at the current token's line. */
  function Expect(ts: seq<Token>, pos: nat, k: TokenType, err: string): (r: Result<Parsed<Token>>)
    ensures r.Ok? <==> Is(ts, pos, k)
    ensures r.Ok? ==> r.value == Parsed(ts[pos], pos + 1)
    ensures r.Ok? ==> EndsAt(ts, r.value.next, k)
    ensures r.Err? && pos < |ts| ==> r.error == ParseError(err, ts[pos].line)
    ensures r.Err? && pos >= |ts| ==> r.error == TypeError
  {
    if pos >= |ts| then Err(TypeError)
    else if ts[pos].kind != k then Err(ParseError(err, ts[pos].line))
    else Ok(Parsed(ts[pos], pos + 1))
  }

  /** The last token a successful parse consumed (the one before `next`) has kind `k`. */
  predicate EndsAt(ts: seq<Token>, next: nat, k: TokenType)
  {
    0 < next <= |ts| && ts[next - 1].kind == k
  }

  /** `isTypeToken`: the kinds that may start a declaration. */
  predicate IsTypeKind(k: TokenType)
  {
    k == TokenType.Int || k == TokenType.Void || k == TokenType.Boolean || k == TokenType.Double
    || k == TokenType.String || k == TokenType.Identifier
  }

  datatype DeclForm = MethodForm | VariableForm | ExpressionForm

  /** The lookahead of the `default` case of `parseStmt`: a type-like token followed by
      an identifier, or by `[ ]` and an identifier, starts a declaration, which is a
      method when `(` follows the name. */
  function Classify(ts: seq<Token>, pos: nat): (f: DeclForm)
    requires pos < |ts|
    ensures f == MethodForm <==>
              IsTypeKind(ts[pos].kind)
              && ((Is(ts, pos + 1, TokenType.Identifier) && Is(ts, pos + 2, TokenType.OpenParen))
                  || (Is(ts, pos + 1, TokenType.OpenBracket) && Is(ts, pos + 2, TokenType.CloseBracket)
                      && Is(ts, pos + 3, TokenType.Identifier) && Is(ts, pos + 4, TokenType.OpenParen)))
    ensures f == VariableForm <==>
              IsTypeKind(ts[pos].kind)
              && ((Is(ts, pos + 1, TokenType.Identifier) && !Is(ts, pos + 2, TokenType.OpenParen))
                  || (Is(ts, pos + 1, TokenType.OpenBracket) && Is(ts, pos + 2, TokenType.CloseBracket)
                      && Is(ts, pos + 3, TokenType.Identifier) && !Is(ts, pos + 4, TokenType.OpenParen)))
  {
    var isVar := Is(ts, pos + 1, TokenType.Identifier);
    var isArray := Is(ts, pos + 1, TokenType.OpenBracket) && Is(ts, pos + 2, TokenType.CloseBracket)
                   && Is(ts, pos + 3, TokenType.Identifier);
    if IsTypeKind(ts[pos].kind) && (isVar || isArray) then
      if Is(ts, pos + (if isArray then 4 else 2), TokenType.OpenParen) then MethodForm else VariableForm
    else ExpressionForm
  }

  /** `parse`: statements up to the EOF token; the program node has line 1. */
  function Parse(d: Dialect, ts: seq<Token>): (r: Result<Program>)
    ensures r.Ok? ==> r.value.line == 1
  {
    ParseProgramFrom(d, ts, 0, [])
  }

  function ParseProgramFrom(d: Dialect, ts: seq<Token>, pos: nat, acc: seq<Stmt>): (r: Result<Program>)
    requires pos <= |ts|
    ensures r.Ok? ==> r.value.line == 1
    decreases |ts| - pos
  {
    if Is(ts, pos, TokenType.EOF) then Ok(Program(acc, 1))
    else
      var s :- ParseStmt(d, ts, pos);
      ParseProgramFrom(d, ts, s.next, acc + [s.node])
  }

  // ---- statements ----

  function ParseStmt(d: Dialect, ts: seq<Token>, pos: nat): (r: Result<Parsed<Stmt>>)
    requires pos <= |ts|
    ensures r.Ok? ==> pos < r.value.next <= |ts|
    decreases |ts| - pos, 40
  {
    if pos >= |ts| then Err(TypeError)
    else
      var k := ts[pos].kind;
      if k == TokenType.Class then ParseClass(d, ts, pos)
      else if k == TokenType.Return then ParseReturn(d, ts, pos)
      else if k == TokenType.For then ParseFor(d, ts, pos)
      else if k == TokenType.While then ParseWhile(d, ts, pos)
      else if k == TokenType.Do then ParseDoWhile(d, ts, pos)
      else if k == TokenType.If then ParseIf(d, ts, pos)
      else if k == TokenType.OpenBrace then ParseBlock(d, ts, pos)
      else if k == TokenType.Break then ParseBreak(ts, pos)
      else if k == TokenType.Continue then ParseContinue(ts, pos)
      else ParseDeclaration(d, ts, pos)
  }

  function ParseBreak(ts: seq<Token>, pos: nat): (r: Result<Parsed<Stmt>>)
    requires pos < |ts|
    ensures r.Ok? ==> r == Ok(Parsed(BreakStatement(ts[pos].line), pos + 2))
  {
    var semi :- Expect(ts, pos + 1, TokenType.Semicolon, "Expected ';' after break statement.");
    Ok(Parsed(BreakStatement(ts[pos].line), semi.next))
  }

  function ParseContinue(ts: seq<Token>, pos: nat): (r: Result<Parsed<Stmt>>)
    requires pos < |ts|
    ensures r.Ok? ==> r == Ok(Parsed(ContinueStatement(ts[pos].line), pos + 2))
  {
    var semi :- Expect(ts, pos + 1, TokenType.Semicolon, "Expected ';' after continue statement.");
    Ok(Parsed(ContinueStatement(ts[pos].line), semi.next))
  }

  /** A statement that starts with no keyword of its own: a method declaration, a
      variable declaration or an expression statement, as the lookahead decides. */
  function ParseDeclaration(d: Dialect, ts: seq<Token>, pos: nat): (r: Result<Parsed<Stmt>>)
    requires pos < |ts|
    ensures r.Ok? ==> pos < r.value.next <= |ts|
    ensures r.Ok? && Classify(ts, pos) == MethodForm ==> r.value.node.MethodDeclaration?
    ensures r.Ok? && Classify(ts, pos) == VariableForm ==> r.value.node.VariableDeclaration?
    ensures r.Ok? && Classify(ts, pos) == ExpressionForm ==> r.value.node.ExpressionStatement?
    decreases |ts| - pos, 35
  {
    match Classify(ts, pos)
    case MethodForm => ParseMethod(d, ts, pos)
    case VariableForm => ParseVarDecl(d, ts, pos)
    case ExpressionForm => ParseExprStmt(d, ts, pos)
  }

  function ParseClass(d: Dialect, ts: seq<Token>, pos: nat): (r: Result<Parsed<Stmt>>)
    requires pos < |ts|
    ensures r.Ok? ==> pos < r.value.next <= |ts|
    ensures r.Ok? ==> r.value.node.ClassDeclaration? && r.value.node.line == ts[pos].line
    ensures r.Ok? ==> EndsAt(ts, r.value.next, TokenType.CloseBrace)
    decreases |ts| - pos, 30
  {
    var name :- Expect(ts, pos + 1, TokenType.Identifier, "Expected class name.");
    var open :- Expect(ts, name.next, TokenType.OpenBrace, "Expected '{' after class name.");
    var body :- ParseClassBody(d, ts, open.next, []);
    var close :- Expect(ts, body.next, TokenType.CloseBrace, "Expected '}' to close class body.");
    Ok(Parsed(ClassDeclaration(name.node.value, body.node, ts[pos].line), close.next))
  }

  /** The `public`/`static` modifiers before a class member. */
  function SkipModifiers(ts: seq<Token>, pos: nat): (r: Result<nat>)
    requires pos <= |ts|
    ensures r.Ok? ==> pos <= r.value < |ts|
    ensures r.Ok? ==> ts[r.value].kind != TokenType.Public && ts[r.value].kind != TokenType.Static
    decreases |ts| - pos
  {
    if pos >= |ts| then Err(TypeError)
    else if ts[pos].kind == TokenType.Public || ts[pos].kind == TokenType.Static then SkipModifiers(ts, pos + 1)
    else Ok(pos)
  }

  function ParseClassBody(d: Dialect, ts: seq<Token>, pos: nat, acc: seq<Stmt>): (r: Result<Parsed<seq<Stmt>>>)
    requires pos <= |ts|
    ensures r.Ok? ==> pos <= r.value.next <= |ts|
    decreases |ts| - pos, 41
  {
    if pos >= |ts| then Err(TypeError)
    else if ts[pos].kind == TokenType.CloseBrace || ts[pos].kind == TokenType.EOF then Ok(Parsed(acc, pos))
    else
      var p :- SkipModifiers(ts, pos);
      var s :- ParseStmt(d, ts, p);
      ParseClassBody(d, ts, s.next, acc + [s.node])
  }

  /** An optional `[ ]` after a type name, which appends "[]" to it. */
  function ArraySuffix(ts: seq<Token>, pos: nat, typeName: string, err: string): (r: Result<Parsed<string>>)
    requires pos <= |ts|
    ensures r.Ok? ==> pos <= r.value.next <= |ts|
  {
    if Is(ts, pos, TokenType.OpenBracket) then
      var close :- Expect(ts, pos + 1, TokenType.CloseBracket, err);
      Ok(Parsed(typeName + "[]", close.next))
    else Ok(Parsed(typeName, pos))
  }

  function ParseMethod(d: Dialect, ts: seq<Token>, pos: nat): (r: Result<Parsed<Stmt>>)
    requires pos < |ts|
    ensures r.Ok? ==> pos < r.value.next <= |ts|
    ensures r.Ok? ==> r.value.node.MethodDeclaration? && r.value.node.line == ts[pos].line
    ensures r.Ok? ==> EndsAt(ts, r.value.next, TokenType.CloseBrace)
    decreases |ts| - pos, 30
  {
    var ret :- ArraySuffix(ts, pos + 1, ts[pos].value, "Expected ']' for array return type");
    var name :- Expect(ts, ret.next, TokenType.Identifier, "Expected method name.");
    MethodTail(d, ts, ret.node, name.node.value, name.next, ts[pos].line)
  }

  /** The part of a method declaration after its name: the parameter list in
      parentheses and the body block. */
  function MethodTail(d: Dialect, ts: seq<Token>, ret: string, name: string, pos: nat, line: nat): (r: Result<Parsed<Stmt>>)
    requires pos <= |ts|
    ensures r.Ok? ==> pos < r.value.next <= |ts| && EndsAt(ts, r.value.next, TokenType.CloseBrace)
    ensures r.Ok? ==> r.value.node.MethodDeclaration? && r.value.node.line == line
    ensures r.Ok? ==> r.value.node.returnType == ret && r.value.node.methodName == name
    decreases |ts| - pos, 30
  {
    var open :- Expect(ts, pos, TokenType.OpenParen, "Expected '(' after method name.");
    var params :- ParseParamList(ts, open.next);
    var close :- Expect(ts, params.next, TokenType.CloseParen, "Expected ')' to close parameter list.");
    var body :- ParseBlock(d, ts, close.next);
    Ok(Parsed(MethodDeclaration(ret, name, params.node, body.node.stmts, line), body.next))
  }

  /** The parameters between the parentheses: none when `)` follows at once. */
  function ParseParamList(ts: seq<Token>, pos: nat): (r: Result<Parsed<seq<Param>>>)
    requires pos <= |ts|
    ensures r.Ok? ==> pos <= r.value.next <= |ts|
    ensures Is(ts, pos, TokenType.CloseParen) ==> r == Ok(Parsed([], pos))
  {
    if Is(ts, pos, TokenType.CloseParen) then Ok(Parsed([], pos))
    else ParseParams(ts, pos, [])
  }

  /** One parameter, after the comma that separates it from the one before. It takes
      the line of the token after its name. */
  function ParseParam(ts: seq<Token>, pos: nat): (r: Result<Parsed<Param>>)
    requires pos <= |ts|
    ensures r.Ok? ==> pos < r.value.next < |ts|
  {
    if Is(ts, pos, TokenType.Comma) then ParseParamAt(ts, pos + 1) else ParseParamAt(ts, pos)
  }

  /** A parameter's type and name, from the type token at `pos`. */
  function ParseParamAt(ts: seq<Token>, pos: nat): (r: Result<Parsed<Param>>)
    requires pos <= |ts|
    ensures r.Ok? ==> pos < r.value.next < |ts| && EndsAt(ts, r.value.next, TokenType.Identifier)
    ensures r.Ok? ==> r.value.node.line == ts[r.value.next].line
  {
    if pos >= |ts| then Err(TypeError)
    else
      var ty :- ArraySuffix(ts, pos + 1, ts[pos].value, "Expected ']'");
      var name :- Expect(ts, ty.next, TokenType.Identifier, "Expected param name");
      if name.next >= |ts| then Err(TypeError)
      else Ok(Parsed(Param(ty.node, name.node.value, ts[name.next].line), name.next))
  }

  /** The `do ... while (at is ',')` loop over parameters. */
  function ParseParams(ts: seq<Token>, pos: nat, acc: seq<Param>): (r: Result<Parsed<seq<Param>>>)
    requires pos <= |ts|
    ensures r.Ok? ==> pos < r.value.next <= |ts|
    ensures r.Ok? ==> |acc| < |r.value.node| && r.value.node[..|acc|] == acc
    decreases |ts| - pos
  {
    var p :- ParseParam(ts, pos);
    var acc' := acc + [p.node];
    if Is(ts, p.next, TokenType.Comma) then
      var r := ParseParams(ts, p.next, acc');
      if r.Ok? then PrefixOfPrefix(r.value.node, acc, acc'); r else r
    else Ok(Parsed(acc', p.next))
  }

  /** A sequence that starts with `b` starts with every prefix `a` of `b`. */
  lemma PrefixOfPrefix<T>(s: seq<T>, a: seq<T>, b: seq<T>)
    requires |a| <= |b| && b[..|a|] == a
    ensures |b| <= |s| && s[..|b|] == b ==> s[..|a|] == a
  {
    if |b| <= |s| && s[..|b|] == b {
      assert s[..|a|] == s[..|b|][..|a|];
    }
  }

  function ParseBlock(d: Dialect, ts: seq<Token>, pos: nat): (r: Result<Parsed<Stmt>>)
    requires pos <= |ts|
    ensures r.Ok? ==> pos < r.value.next <= |ts| && r.value.node.BlockStatement?
    ensures r.Ok? ==> Is(ts, pos, TokenType.OpenBrace) && r.value.node.line == ts[pos].line
    ensures r.Ok? ==> EndsAt(ts, r.value.next, TokenType.CloseBrace)
    decreases |ts| - pos, 30
  {
    var open :- Expect(ts, pos, TokenType.OpenBrace, "Expected '{' to start a block.");
    var body :- ParseBlockBody(d, ts, open.next, []);
    var close :- Expect(ts, body.next, TokenType.CloseBrace, "Expected '}' to close a block.");
    Ok(Parsed(BlockStatement(body.node, open.node.line), close.next))
  }

  function ParseBlockBody(d: Dialect, ts: seq<Token>, pos: nat, acc: seq<Stmt>): (r: Result<Parsed<seq<Stmt>>>)
    requires pos <= |ts|
    ensures r.Ok? ==> pos <= r.value.next <= |ts|
    decreases |ts| - pos, 41
  {
    if pos >= |ts| then Err(TypeError)
    else if ts[pos].kind == TokenType.CloseBrace || ts[pos].kind == TokenType.EOF then Ok(Parsed(acc, pos))
    else
      var s :- ParseStmt(d, ts, pos);
      ParseBlockBody(d, ts, s.next, acc + [s.node])
  }

  function ParseVarDecl(d: Dialect, ts: seq<Token>, pos: nat): (r: Result<Parsed<Stmt>>)
    requires pos <= |ts|
    ensures r.Ok? ==> pos < r.value.next <= |ts|
    ensures r.Ok? ==> r.value.node.VariableDeclaration? && r.value.node.line == ts[pos].line
    ensures r.Ok? ==> EndsAt(ts, r.value.next, TokenType.Semicolon)
    decreases |ts| - pos, 30
  {
    if pos >= |ts| then Err(TypeError)
    else
      var ty :- ArraySuffix(ts, pos + 1, ts[pos].value, "Expected ']' in array type.");
      var name :- Expect(ts, ty.next, TokenType.Identifier, "Expected variable name.");
      VarDeclTail(d, ts, ty.node, name.node.value, name.next, ts[pos].line)
  }

  /** The part of a variable declaration after its name: an optional initializer and
      the semicolon. */
  function VarDeclTail(d: Dialect, ts: seq<Token>, ty: string, name: string, pos: nat, line: nat): (r: Result<Parsed<Stmt>>)
    requires pos <= |ts|
    ensures r.Ok? ==> pos < r.value.next <= |ts| && EndsAt(ts, r.value.next, TokenType.Semicolon)
    ensures r.Ok? ==> r.value.node.VariableDeclaration? && r.value.node.line == line
    ensures r.Ok? ==> r.value.node.varType == ty && r.value.node.varName == name
    ensures r.Ok? ==> (r.value.node.init.Some? <==> Is(ts, pos, TokenType.Equals))
    decreases |ts| - pos, 30
  {
    var init :- ParseInitializer(d, ts, pos);
    var semi :- Expect(ts, init.next, TokenType.Semicolon, "Expected ';' after variable declaration.");
    Ok(Parsed(VariableDeclaration(ty, name, init.node, line), semi.next))
  }

  /** `= expr`, when the next token is `=`; nothing otherwise. */
  function ParseInitializer(d: Dialect, ts: seq<Token>, pos: nat): (r: Result<Parsed<Option<Expr>>>)
    requires pos <= |ts|
    ensures r.Ok? ==> pos <= r.value.next <= |ts|
    ensures !Is(ts, pos, TokenType.Equals) ==> r == Ok(Parsed(None, pos))
    ensures r.Ok? ==> (r.value.node.Some? <==> Is(ts, pos, TokenType.Equals))
    decreases |ts| - pos, 26
  {
    if Is(ts, pos, TokenType.Equals) then
      var e :- ParseExpr(d, ts, pos + 1);
      Ok(Parsed(Some(e.node), e.next))
    else Ok(Parsed(None, pos))
  }

  /** A `for` always parses its first clause as a variable declaration and requires
      both the test and the update. */
  function ParseFor(d: Dialect, ts: seq<Token>, pos: nat): (r: Result<Parsed<Stmt>>)
    requires pos < |ts|
    ensures r.Ok? ==> pos < r.value.next <= |ts|
    ensures r.Ok? ==> r.value.node.ForStatement? && r.value.node.line == ts[pos].line
    ensures r.Ok? ==> r.value.node.forInit.Some? && r.value.node.forTest.Some? && r.value.node.update.Some?
    decreases |ts| - pos, 30
  {
    var open :- Expect(ts, pos + 1, TokenType.OpenParen, "Expected '(' after 'for'.");
    var init :- ParseVarDecl(d, ts, open.next);
    var test :- ParseExpr(d, ts, init.next);
    var semi :- Expect(ts, test.next, TokenType.Semicolon, "Expected ';' after for loop condition.");
    var update :- ParseExpr(d, ts, semi.next);
    var close :- Expect(ts, update.next, TokenType.CloseParen, "Expected ')' after for loop clauses.");
    var body :- ParseStmt(d, ts, close.next);
    Ok(Parsed(ForStatement(Some(init.node), Some(test.node), Some(update.node), body.node, ts[pos].line), body.next))
  }

  /** The parenthesised condition of `while`, `do ... while` and `if`. */
  function ParseCondition(d: Dialect, ts: seq<Token>, pos: nat, openErr: string, closeErr: string): (r: Result<Parsed<Expr>>)
    requires pos <= |ts|
    ensures r.Ok? ==> pos < r.value.next <= |ts| && EndsAt(ts, r.value.next, TokenType.CloseParen)
    decreases |ts| - pos, 25
  {
    var open :- Expect(ts, pos, TokenType.OpenParen, openErr);
    var test :- ParseExpr(d, ts, open.next);
    var close :- Expect(ts, test.next, TokenType.CloseParen, closeErr);
    Ok(Parsed(test.node, close.next))
  }

  function ParseWhile(d: Dialect, ts: seq<Token>, pos: nat): (r: Result<Parsed<Stmt>>)
    requires pos < |ts|
    ensures r.Ok? ==> pos < r.value.next <= |ts|
    ensures r.Ok? ==> r.value.node.WhileStatement? && r.value.node.line == ts[pos].line
    decreases |ts| - pos, 30
  {
    var test :- ParseCondition(d, ts, pos + 1, "Expected '(' after 'while'.", "Expected ')' after while condition.");
    var body :- ParseStmt(d, ts, test.next);
    Ok(Parsed(WhileStatement(test.node, body.node, ts[pos].line), body.next))
  }

  function ParseDoWhile(d: Dialect, ts: seq<Token>, pos: nat): (r: Result<Parsed<Stmt>>)
    requires pos < |ts|
    ensures r.Ok? ==> pos < r.value.next <= |ts|
    ensures r.Ok? ==> r.value.node.DoWhileStatement? && r.value.node.line == ts[pos].line
    ensures r.Ok? ==> EndsAt(ts, r.value.next, TokenType.Semicolon)
    decreases |ts| - pos, 30
  {
    var body :- ParseStmt(d, ts, pos + 1);
    DoWhileTail(d, ts, body.node, body.next, ts[pos].line)
  }

  /** The part of a do-while statement after its body. */
  function DoWhileTail(d: Dialect, ts: seq<Token>, body: Stmt, pos: nat, line: nat): (r: Result<Parsed<Stmt>>)
    requires pos <= |ts|
    ensures r.Ok? ==> r.value.node.DoWhileStatement? && r.value.node.line == line
    ensures r.Ok? ==> pos < r.value.next && EndsAt(ts, r.value.next, TokenType.Semicolon)
    decreases |ts| - pos, 30
  {
    var kw :- Expect(ts, pos, TokenType.While, "Expected 'while' after 'do' block.");
    var test :- ParseCondition(d, ts, kw.next, "Expected '(' after 'while'.", "Expected ')' after while condition.");
    var semi :- Expect(ts, test.next, TokenType.Semicolon, "Expected ';' after do-while statement.");
    Ok(Parsed(DoWhileStatement(test.node, body, line), semi.next))
  }

  function ParseIf(d: Dialect, ts: seq<Token>, pos: nat): (r: Result<Parsed<Stmt>>)
    requires pos < |ts|
    ensures r.Ok? ==> pos < r.value.next <= |ts|
    ensures r.Ok? ==> r.value.node.IfStatement? && r.value.node.line == ts[pos].line
    decreases |ts| - pos, 30
  {
    var test :- ParseCondition(d, ts, pos + 1, "Expected '(' after 'if'.", "Expected ')' after if condition.");
    var cons :- ParseStmt(d, ts, test.next);
    var alt :- ParseElse(d, ts, cons.next);
    Ok(Parsed(IfStatement(test.node, cons.node, alt.node, ts[pos].line), alt.next))
  }

  /** `else statement`, when the next token is `else`; nothing otherwise. */
  function ParseElse(d: Dialect, ts: seq<Token>, pos: nat): (r: Result<Parsed<Option<Stmt>>>)
    requires pos <= |ts|
    ensures r.Ok? ==> pos <= r.value.next <= |ts|
    ensures !Is(ts, pos, TokenType.Else) ==> r == Ok(Parsed(None, pos))
    decreases |ts| - pos, 31
  {
    if Is(ts, pos, TokenType.Else) then ParseElseBranch(d, ts, pos)
    else Ok(Parsed(None, pos))
  }

  function ParseElseBranch(d: Dialect, ts: seq<Token>, pos: nat): (r: Result<Parsed<Option<Stmt>>>)
    requires pos < |ts|
    ensures r.Ok? ==> pos < r.value.next <= |ts|
    decreases |ts| - pos, 30
  {
    var alt :- ParseStmt(d, ts, pos + 1);
    Ok(Parsed(Some(alt.node), alt.next))
  }

  function ParseReturn(d: Dialect, ts: seq<Token>, pos: nat): (r: Result<Parsed<Stmt>>)
    requires pos < |ts|
    ensures r.Ok? ==> pos < r.value.next <= |ts|
    ensures r.Ok? ==> r.value.node.ReturnStatement? && r.value.node.line == ts[pos].line
    ensures r.Ok? ==> EndsAt(ts, r.value.next, TokenType.Semicolon)
    decreases |ts| - pos, 30
  {
    var arg :- ParseReturnArgument(d, ts, pos + 1);
    var semi :- Expect(ts, arg.next, TokenType.Semicolon, "Expected ';' after return statement.");
    Ok(Parsed(ReturnStatement(arg.node, ts[pos].line), semi.next))
  }

  /** An expression statement takes the line of the token after the expression. */
  function ParseExprStmt(d: Dialect, ts: seq<Token>, pos: nat): (r: Result<Parsed<Stmt>>)
    requires pos <= |ts|
    ensures r.Ok? ==> pos < r.value.next <= |ts|
    ensures r.Ok? ==> r.value.node.ExpressionStatement? && EndsAt(ts, r.value.next, TokenType.Semicolon)
    ensures r.Ok? ==> r.value.node.line == ts[r.value.next - 1].line
    decreases |ts| - pos, 30
  {
    var e :- ParseExpr(d, ts, pos);
    if e.next >= |ts| then Err(TypeError)
    else
      var semi :- Expect(ts, e.next, TokenType.Semicolon, "Expected ';' after expression.");
      Ok(Parsed(ExpressionStatement(e.node, ts[e.next].line), semi.next))
  }

  // ---- expressions ----

  /** The binary precedence levels, loosest first. */
  datatype Level = OrLevel | AndLevel | ComparisonLevel | AdditiveLevel | MultiplicativeLevel

  function LevelRank(l: Level): nat
  {
    match l
    case OrLevel => 5
    case AndLevel => 4
    case ComparisonLevel => 3
    case AdditiveLevel => 2
    case MultiplicativeLevel => 1
  }

  function Tighter(l: Level): (t: Level)
    requires l != MultiplicativeLevel
    ensures LevelRank(t) + 1 == LevelRank(l)
  {
    match l
    case OrLevel => AndLevel
    case AndLevel => ComparisonLevel
    case ComparisonLevel => AdditiveLevel
    case AdditiveLevel => MultiplicativeLevel
  }

  /** The operator tokens each level's loop accepts; `%` joins `*` and `/` only in the
      modern parser. */
  predicate IsLevelOp(d: Dialect, l: Level, k: TokenType)
  {
    match l
    case OrLevel => k == TokenType.OrOr
    case AndLevel => k == TokenType.AndAnd
    case ComparisonLevel =>
      k == TokenType.GreaterThan || k == TokenType.LessThan || k == TokenType.GreaterEquals
      || k == TokenType.LessEquals || k == TokenType.EqualsEquals || k == TokenType.NotEquals
    case AdditiveLevel => k == TokenType.Plus || k == TokenType.Minus
    case MultiplicativeLevel => k == TokenType.Star || k == TokenType.Slash || (d == Modern && k == TokenType.Percent)
  }

  /** The node a level builds: `&&` and `||` make LogicalExpr, the others BinaryExpr;
      it takes the line of its left operand. */
  function Combine(l: Level, op: string, left: Expr, right: Expr): Expr
  {
    if l == OrLevel || l == AndLevel then LogicalExpr(op, left, right, left.line)
    else BinaryExpr(op, left, right, left.line)
  }

  function ParseExpr(d: Dialect, ts: seq<Token>, pos: nat): (r: Result<Parsed<Expr>>)
    requires pos <= |ts|
    ensures r.Ok? ==> pos < r.value.next <= |ts|
    decreases |ts| - pos, 21
  {
    ParseAssignment(d, ts, pos)
  }

  /** Assignment is the loosest level and groups to the right. */
  function ParseAssignment(d: Dialect, ts: seq<Token>, pos: nat): (r: Result<Parsed<Expr>>)
    requires pos <= |ts|
    ensures r.Ok? ==> pos < r.value.next <= |ts|
    decreases |ts| - pos, 20
  {
    var left :- ParseBinary(d, OrLevel, ts, pos);
    if Is(ts, left.next, TokenType.Equals) then
      var value :- ParseAssignment(d, ts, left.next + 1);
      Ok(Parsed(AssignmentExpr(left.node, value.node, left.node.line), value.next))
    else Ok(left)
  }

  function ParseBinary(d: Dialect, l: Level, ts: seq<Token>, pos: nat): (r: Result<Parsed<Expr>>)
    requires pos <= |ts|
    ensures r.Ok? ==> pos < r.value.next <= |ts|
    decreases |ts| - pos, 2 * LevelRank(l) + 4
  {
    var first :- ParseOperand(d, l, ts, pos);
    ParseBinaryLoop(d, l, ts, first.node, first.next)
  }

  /** The operand of a level: the next tighter level, or a unary expression. */
  function ParseOperand(d: Dialect, l: Level, ts: seq<Token>, pos: nat): (r: Result<Parsed<Expr>>)
    requires pos <= |ts|
    ensures r.Ok? ==> pos < r.value.next <= |ts|
    decreases |ts| - pos, 2 * LevelRank(l) + 3
  {
    if l == MultiplicativeLevel then ParseUnary(d, ts, pos) else ParseBinary(d, Tighter(l), ts, pos)
  }

  /** The `while` loop of a level: each operator and operand folds into the tree built
      so far, so the level groups to the left. The comparison level reads the current
      token with a non-null assertion. */
  function ParseBinaryLoop(d: Dialect, l: Level, ts: seq<Token>, left: Expr, pos: nat): (r: Result<Parsed<Expr>>)
    requires pos <= |ts|
    ensures r.Ok? ==> pos <= r.value.next <= |ts|
    decreases |ts| - pos, 0
  {
    if l == ComparisonLevel && pos >= |ts| then Err(TypeError)
    else if pos < |ts| && IsLevelOp(d, l, ts[pos].kind) then
      var right :- ParseOperand(d, l, ts, pos + 1);
      ParseBinaryLoop(d, l, ts, Combine(l, ts[pos].value, left, right.node), right.next)
    else Ok(Parsed(left, pos))
  }

  function ParseUnary(d: Dialect, ts: seq<Token>, pos: nat): (r: Result<Parsed<Expr>>)
    requires pos <= |ts|
    ensures r.Ok? ==> pos < r.value.next <= |ts|
    ensures r.Ok? && (Is(ts, pos, TokenType.Bang) || Is(ts, pos, TokenType.Minus)) ==>
              r.value.node.UnaryExpr? && r.value.node.op == ts[pos].value && r.value.node.line == ts[pos].line
    decreases |ts| - pos, 4
  {
    if Is(ts, pos, TokenType.Bang) || Is(ts, pos, TokenType.Minus) then
      var arg :- ParseUnary(d, ts, pos + 1);
      Ok(Parsed(UnaryExpr(ts[pos].value, arg.node, ts[pos].line), arg.next))
    else ParseCallMember(d, ts, pos)
  }

  function ParseCallMember(d: Dialect, ts: seq<Token>, pos: nat): (r: Result<Parsed<Expr>>)
    requires pos <= |ts|
    ensures r.Ok? ==> pos < r.value.next <= |ts|
    decreases |ts| - pos, 3
  {
    var p :- ParsePrimary(d, ts, pos);
    ParseCallMemberLoop(d, ts, p.node, p.next)
  }

  /** The suffix loop: calls, `.` members and `[ ]` members, in any order. */
  function ParseCallMemberLoop(d: Dialect, ts: seq<Token>, member: Expr, pos: nat): (r: Result<Parsed<Expr>>)
    requires pos <= |ts|
    ensures r.Ok? ==> pos <= r.value.next <= |ts|
    decreases |ts| - pos, 2
  {
    if pos >= |ts| then Err(TypeError)
    else if ts[pos].kind == TokenType.OpenParen then
      var c :- ParseCall(d, ts, member, pos);
      ParseCallMemberLoop(d, ts, c.node, c.next)
    else if ts[pos].kind == TokenType.Dot || ts[pos].kind == TokenType.OpenBracket then
      var m :- ParseMember(d, ts, member, pos, ts[pos].kind == TokenType.OpenBracket);
      ParseCallMemberLoop(d, ts, m.node, m.next)
    else Ok(Parsed(member, pos))
  }

  /** A call's arguments: none when `)` follows at once. */
  function ParseArguments(d: Dialect, ts: seq<Token>, pos: nat): (r: Result<Parsed<seq<Expr>>>)
    requires pos < |ts|
    ensures r.Ok? ==> pos <= r.value.next <= |ts|
    ensures ts[pos].kind == TokenType.CloseParen ==> r == Ok(Parsed([], pos))
    decreases |ts| - pos, 23
  {
    if ts[pos].kind == TokenType.CloseParen then Ok(Parsed([], pos))
    else ParseExprList(d, ts, pos, [])
  }

  function ParseCall(d: Dialect, ts: seq<Token>, callee: Expr, pos: nat): (r: Result<Parsed<Expr>>)
    requires pos < |ts|
    ensures r.Ok? ==> pos < r.value.next <= |ts|
    ensures r.Ok? ==> r.value.node.CallExpr? && r.value.node.callee == callee && r.value.node.line == callee.line
    ensures r.Ok? ==> EndsAt(ts, r.value.next, TokenType.CloseParen)
    decreases |ts| - pos, 1
  {
    if pos + 1 >= |ts| then Err(TypeError)
    else
      var args :- ParseArguments(d, ts, pos + 1);
      var close :- Expect(ts, args.next, TokenType.CloseParen, "Expected ')' to close arguments.");
      Ok(Parsed(CallExpr(callee, args.node, callee.line), close.next))
  }

  /** The `do ... while (at is ',')` loop shared by call arguments and array literals. */
  function ParseExprList(d: Dialect, ts: seq<Token>, pos: nat, acc: seq<Expr>): (r: Result<Parsed<seq<Expr>>>)
    requires pos <= |ts|
    ensures r.Ok? ==> pos < r.value.next <= |ts|
    ensures r.Ok? ==> |acc| < |r.value.node| && r.value.node[..|acc|] == acc
    decreases |ts| - pos, 22
  {
    var p := if Is(ts, pos, TokenType.Comma) then pos + 1 else pos;
    var e :- ParseExpr(d, ts, p);
    if Is(ts, e.next, TokenType.Comma) then ParseExprList(d, ts, e.next, acc + [e.node])
    else Ok(Parsed(acc + [e.node], e.next))
  }

  /** `.name` takes a primary expression as the property; `[e]` takes a full
      expression and a closing bracket. */
  function ParseMember(d: Dialect, ts: seq<Token>, obj: Expr, pos: nat, computed: bool): (r: Result<Parsed<Expr>>)
    requires pos < |ts|
    ensures r.Ok? ==> pos < r.value.next <= |ts|
    ensures r.Ok? ==> r.value.node.MemberExpr? && r.value.node.obj == obj
                      && r.value.node.computed == computed && r.value.node.line == obj.line
    decreases |ts| - pos, 1
  {
    if computed then
      var prop :- ParseExpr(d, ts, pos + 1);
      var close :- Expect(ts, prop.next, TokenType.CloseBracket, "Expected ']' for computed property.");
      Ok(Parsed(MemberExpr(obj, prop.node, true, obj.line), close.next))
    else
      var prop :- ParsePrimary(d, ts, pos + 1);
      Ok(Parsed(MemberExpr(obj, prop.node, false, obj.line), prop.next))
  }

  /** `parseInt` of the text of an IntegerLiteral token. A literal beyond the integers a
      double holds exactly comes out rounded, which is not modelled. */
  function IntegerValue(s: string): (r: Result<int>)
    ensures r.Ok? <==> |s| > 0 && (forall i :: 0 <= i < |s| ==> '0' <= s[i] <= '9')
                       && IsExactInteger(Text.DigitsValue(s))
    ensures r.Ok? ==> r.value == Text.DigitsValue(s) && IsExactInteger(r.value)
  {
    if |s| > 0 && forall i :: 0 <= i < |s| ==> '0' <= s[i] <= '9' then
      if IsExactInteger(Text.DigitsValue(s)) then Ok(Text.DigitsValue(s))
      else Err(Unmodelled("parseInt of a literal beyond 2^53, which a double rounds"))
    else Err(Unmodelled("parseInt of a text that is not a run of digits"))
  }

  function ParsePrimary(d: Dialect, ts: seq<Token>, pos: nat): (r: Result<Parsed<Expr>>)
    requires pos <= |ts|
    ensures r.Ok? ==> pos < r.value.next <= |ts|
    decreases |ts| - pos, 1
  {
    if pos >= |ts| then Err(TypeError)
    else
      var t := ts[pos];
      match t.kind
      case System => ParseName(ts, pos)
      case Identifier => ParseName(ts, pos)
      case IntegerLiteral =>
        var n :- IntegerValue(t.value);
        Ok(Parsed(NumericLiteral(n, t.line), pos + 1))
      case DoubleLiteral => Ok(Parsed(Expr.DoubleLiteral(t.value, t.line), pos + 1))
      case StringLiteral => Ok(Parsed(Expr.StringLiteral(t.value, t.line), pos + 1))
      case True => Ok(Parsed(BooleanLiteral(true, t.line), pos + 1))
      case False => Ok(Parsed(BooleanLiteral(false, t.line), pos + 1))
      case New => ParseNew(d, ts, pos)
      case OpenBrace => ParseArrayLiteral(d, ts, pos)
      case OpenParen =>
        var e :- ParseExpr(d, ts, pos + 1);
        var close :- Expect(ts, e.next, TokenType.CloseParen, "Expected ')' to close grouped expression.");
        Ok(Parsed(e.node, close.next))
      case _ => Err(ParseError("Unexpected token: " + Text.JsonQuote(t.value), t.line))
  }

  /** A name, or a postfix `++`/`--` applied to it when one follows directly. */
  function ParseName(ts: seq<Token>, pos: nat): (r: Result<Parsed<Expr>>)
    requires pos < |ts|
    ensures r.Ok? ==> pos < r.value.next <= |ts|
    ensures r.Ok? ==> pos + 1 < |ts|
    ensures r.Ok? && r.value.node.PostfixExpr? ==>
              r.value.node.operand == Name(ts[pos].value, ts[pos].line) && r.value.next == pos + 2
    ensures r.Ok? && !r.value.node.PostfixExpr? ==>
              r.value.node == Expr.Identifier(ts[pos].value, ts[pos].line) && r.value.next == pos + 1
  {
    var t := ts[pos];
    if pos + 1 >= |ts| then Err(TypeError)
    else if ts[pos + 1].kind == TokenType.PlusPlus || ts[pos + 1].kind == TokenType.MinusMinus then
      Ok(Parsed(PostfixExpr(ts[pos + 1].value, Name(t.value, t.line), t.line), pos + 2))
    else Ok(Parsed(Expr.Identifier(t.value, t.line), pos + 1))
  }

  /** The value of a return statement: an expression unless the token at `pos` is
      the semicolon. */
  function ParseReturnArgument(d: Dialect, ts: seq<Token>, pos: nat): (r: Result<Parsed<Option<Expr>>>)
    requires pos <= |ts|
    ensures r.Ok? ==> pos <= r.value.next <= |ts|
    ensures Is(ts, pos, TokenType.Semicolon) ==> r == Ok(Parsed(None, pos))
    decreases |ts| - pos, 26
  {
    if pos >= |ts| then Err(TypeError)
    else if ts[pos].kind != TokenType.Semicolon then
      var e :- ParseExpr(d, ts, pos);
      Ok(Parsed(Some(e.node), e.next))
    else Ok(Parsed(None, pos))
  }

  /** `new C()` (no arguments) or `new C[size]`; anything else after the class name is
      an error at the line of `new`. */
  function ParseNew(d: Dialect, ts: seq<Token>, pos: nat): (r: Result<Parsed<Expr>>)
    requires pos < |ts|
    ensures r.Ok? ==> pos < r.value.next <= |ts|
    ensures r.Ok? ==> Is(ts, pos + 1, TokenType.Identifier) && r.value.node.line == ts[pos].line
    ensures r.Ok? ==> (r.value.node.NewExpr? && r.value.node.newArgs == [] && EndsAt(ts, r.value.next, TokenType.CloseParen))
                      || (r.value.node.ArrayCreationExpr? && r.value.node.size.Some? && r.value.node.values.None?
                          && EndsAt(ts, r.value.next, TokenType.CloseBracket))
    ensures pos + 1 < |ts| && ts[pos + 1].kind != TokenType.Identifier ==>
              r == Err(ParseError("Expected class or type name after 'new'.", ts[pos + 1].line))
    decreases |ts| - pos, 0
  {
    var callee :- Expect(ts, pos + 1, TokenType.Identifier, "Expected class or type name after 'new'.");
    NewRest(d, ts, ts[pos], callee.node, callee.next)
  }

  /** What follows `new C`: `()` or `[size]`. */
  function NewRest(d: Dialect, ts: seq<Token>, start: Token, c: Token, pos: nat): (r: Result<Parsed<Expr>>)
    requires pos <= |ts|
    ensures r.Ok? ==> pos < r.value.next <= |ts| && r.value.node.line == start.line
    ensures r.Ok? ==> (r.value.node.NewExpr? && r.value.node.newArgs == [] && EndsAt(ts, r.value.next, TokenType.CloseParen))
                      || (r.value.node.ArrayCreationExpr? && r.value.node.size.Some? && r.value.node.values.None?
                          && EndsAt(ts, r.value.next, TokenType.CloseBracket))
    decreases |ts| - pos, 0
  {
    if Is(ts, pos, TokenType.OpenParen) then
      var close :- Expect(ts, pos + 1, TokenType.CloseParen, "Expected ')' after new expression.");
      Ok(Parsed(NewExpr(Name(c.value, c.line), [], start.line), close.next))
    else if Is(ts, pos, TokenType.OpenBracket) then
      var size :- ParseExpr(d, ts, pos + 1);
      var close :- Expect(ts, size.next, TokenType.CloseBracket, "Expected ']' after array size.");
      Ok(Parsed(ArrayCreationExpr(c.value, Some(size.node), None, start.line), close.next))
    else Err(ParseError("Invalid 'new' expression.", start.line))
  }

  /** `{e, ...}` is an int array whatever its elements. */
  function ParseArrayLiteral(d: Dialect, ts: seq<Token>, pos: nat): (r: Result<Parsed<Expr>>)
    requires pos < |ts|
    ensures r.Ok? ==> pos < r.value.next <= |ts|
    ensures r.Ok? ==> r.value.node.ArrayCreationExpr? && r.value.node.elementType == "int"
                      && r.value.node.size.None? && r.value.node.values.Some? && r.value.node.line == ts[pos].line
    ensures r.Ok? ==> EndsAt(ts, r.value.next, TokenType.CloseBrace)
    decreases |ts| - pos, 0
  {
    if pos + 1 >= |ts| then Err(TypeError)
    else
      var values :-
        if ts[pos + 1].kind == TokenType.CloseBrace then Ok(Parsed([], pos + 1))
        else ParseExprList(d, ts, pos + 1, []);
      var close :- Expect(ts, values.next, TokenType.CloseBrace, "Expected '}' to close array literal.");
      Ok(Parsed(ArrayCreationExpr("int", None, Some(values.node), ts[pos].line), close.next))
  }
}
