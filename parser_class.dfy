// The Parser class of src/lib/parser.ts as the source writes it: an object holding the
// token list and a cursor that its methods advance. Each method is proved to compute
// what the function of the same name in module Parsing says, from the cursor position
// it started at: the same node and the same final cursor, or the same error.

module CursorParser {
  import opened Common
  import opened Dialects
  import opened Lexer
  import opened Ast
  import Parsing

  /** A method's result together with the cursor it left behind, in the form the
      parsing functions return. */
  function Outcome<T>(r: Result<T>, cursor: nat): Result<Parsing.Parsed<T>>
  {
    match r
    case Ok(v) => Ok(Parsing.Parsed(v, cursor))
    case Err(e) => Err(e)
  }

  /** `new Parser(tokenize(code)).parse()`. */
  method ParseTokens(d: Dialect, ts: seq<Token>) returns (r: Result<Program>)
    ensures r == Parsing.Parse(d, ts)
  {
    var p := new Parser(d, ts);
    r := p.ParseProgram();
  }

  class Parser {
    const tokens: seq<Token>
    const dialect: Dialect
    var cursor: nat

    constructor(d: Dialect, ts: seq<Token>)
      ensures tokens == ts && dialect == d && cursor == 0
    {
      tokens := ts;
      dialect := d;
      cursor := 0;
    }

    /** `expect`: consumes the current token, which must have kind `k`. */
    method Expect(k: TokenType, err: string) returns (r: Result<Token>)
      requires cursor <= |tokens|
      modifies this
      ensures Outcome(r, cursor) == Parsing.Expect(tokens, old(cursor), k, err)
    {
      if cursor >= |tokens| {
        return Err(Parsing.TypeError);
      }
      var current := tokens[cursor];
      cursor := cursor + 1;
      if current.kind != k {
        return Err(ParseError(err, current.line));
      }
      return Ok(current);
    }

    /** `parse`. */
    method ParseProgram() returns (r: Result<Program>)
      requires cursor <= |tokens|
      modifies this
      ensures r == Parsing.ParseProgramFrom(dialect, tokens, old(cursor), [])
    {
      var body: seq<Stmt> := [];
      while !Parsing.Is(tokens, cursor, TokenType.EOF)
        invariant cursor <= |tokens|
        invariant Parsing.ParseProgramFrom(dialect, tokens, old(cursor), [])
                  == Parsing.ParseProgramFrom(dialect, tokens, cursor, body)
        decreases |tokens| - cursor
      {
        var s :- ParseStmt();
        body := body + [s];
      }
      return Ok(Program(body, 1));
    }

    method ParseStmt() returns (r: Result<Stmt>)
      requires cursor <= |tokens|
      modifies this
      ensures Outcome(r, cursor) == Parsing.ParseStmt(dialect, tokens, old(cursor))
      decreases |tokens| - cursor, 40
    {
      if cursor >= |tokens| {
        return Err(Parsing.TypeError);
      }
      var start := tokens[cursor];
      var k := start.kind;
      if k == TokenType.Class {
        r := ParseClass();
      } else if k == TokenType.Return {
        r := ParseReturn();
      } else if k == TokenType.For {
        r := ParseFor();
      } else if k == TokenType.While {
        r := ParseWhile();
      } else if k == TokenType.Do {
        r := ParseDoWhile();
      } else if k == TokenType.If {
        r := ParseIf();
      } else if k == TokenType.OpenBrace {
        r := ParseBlock();
      } else if k == TokenType.Break {
        r := ParseBreak();
      } else if k == TokenType.Continue {
        r := ParseContinue();
      } else {
        r := ParseDeclaration();
      }
    }

    method ParseBreak() returns (r: Result<Stmt>)
      requires cursor < |tokens|
      modifies this
      ensures Outcome(r, cursor) == Parsing.ParseBreak(tokens, old(cursor))
    {
      var start := tokens[cursor];
      cursor := cursor + 1;
      var semi :- Expect(TokenType.Semicolon, "Expected ';' after break statement.");
      return Ok(BreakStatement(start.line));
    }

    method ParseContinue() returns (r: Result<Stmt>)
      requires cursor < |tokens|
      modifies this
      ensures Outcome(r, cursor) == Parsing.ParseContinue(tokens, old(cursor))
    {
      var start := tokens[cursor];
      cursor := cursor + 1;
      var semi :- Expect(TokenType.Semicolon, "Expected ';' after continue statement.");
      return Ok(ContinueStatement(start.line));
    }

    method ParseDeclaration() returns (r: Result<Stmt>)
      requires cursor < |tokens|
      modifies this
      ensures Outcome(r, cursor) == Parsing.ParseDeclaration(dialect, tokens, old(cursor))
      decreases |tokens| - cursor, 35
    {
      var form := Parsing.Classify(tokens, cursor);
      if form == Parsing.MethodForm {
        r := ParseMethod();
      } else if form == Parsing.VariableForm {
        r := ParseVarDecl();
      } else {
        r := ParseExprStmt();
      }
    }

    method ParseClass() returns (r: Result<Stmt>)
      requires cursor < |tokens|
      modifies this
      ensures Outcome(r, cursor) == Parsing.ParseClass(dialect, tokens, old(cursor))
      decreases |tokens| - cursor, 30
    {
      var start := tokens[cursor];
      cursor := cursor + 1;
      var name :- Expect(TokenType.Identifier, "Expected class name.");
      var open :- Expect(TokenType.OpenBrace, "Expected '{' after class name.");
      var body :- ParseClassBody();
      var close :- Expect(TokenType.CloseBrace, "Expected '}' to close class body.");
      return Ok(ClassDeclaration(name.value, body, start.line));
    }

    /** The member loop of `parseClassDeclaration`, with its inner loop over the
        `public` and `static` modifiers. */
    method ParseClassBody() returns (r: Result<seq<Stmt>>)
      requires cursor <= |tokens|
      modifies this
      ensures Outcome(r, cursor) == Parsing.ParseClassBody(dialect, tokens, old(cursor), [])
      decreases |tokens| - cursor, 41
    {
      var body: seq<Stmt> := [];
      while cursor < |tokens| && tokens[cursor].kind != TokenType.CloseBrace && tokens[cursor].kind != TokenType.EOF
        invariant old(cursor) <= cursor <= |tokens|
        invariant Parsing.ParseClassBody(dialect, tokens, old(cursor), [])
                  == Parsing.ParseClassBody(dialect, tokens, cursor, body)
        decreases |tokens| - cursor
      {
        var _ :- SkipModifiers();
        var s :- ParseStmt();
        body := body + [s];
      }
      if cursor >= |tokens| {
        return Err(Parsing.TypeError);
      }
      return Ok(body);
    }

    /** Steps over `public` and `static` in front of a class member. */
    method SkipModifiers() returns (r: Result<nat>)
      requires cursor <= |tokens|
      modifies this
      ensures r == Parsing.SkipModifiers(tokens, old(cursor))
      ensures r.Ok? ==> cursor == r.value
    {
      while cursor < |tokens| && (tokens[cursor].kind == TokenType.Public || tokens[cursor].kind == TokenType.Static)
        invariant old(cursor) <= cursor <= |tokens|
        invariant Parsing.SkipModifiers(tokens, old(cursor)) == Parsing.SkipModifiers(tokens, cursor)
        decreases |tokens| - cursor
      {
        cursor := cursor + 1;
      }
      if cursor >= |tokens| {
        return Err(Parsing.TypeError);
      }
      return Ok(cursor);
    }

    /** An optional `[ ]` after a type name. */
    method ArraySuffix(typeName: string, err: string) returns (r: Result<string>)
      requires cursor <= |tokens|
      modifies this
      ensures Outcome(r, cursor) == Parsing.ArraySuffix(tokens, old(cursor), typeName, err)
    {
      if Parsing.Is(tokens, cursor, TokenType.OpenBracket) {
        cursor := cursor + 1;
        var close :- Expect(TokenType.CloseBracket, err);
        return Ok(typeName + "[]");
      }
      return Ok(typeName);
    }

    method ParseMethod() returns (r: Result<Stmt>)
      requires cursor < |tokens|
      modifies this
      ensures Outcome(r, cursor) == Parsing.ParseMethod(dialect, tokens, old(cursor))
      decreases |tokens| - cursor, 30
    {
      var start := tokens[cursor];
      cursor := cursor + 1;
      var returnType :- ArraySuffix(start.value, "Expected ']' for array return type");
      var name :- Expect(TokenType.Identifier, "Expected method name.");
      r := MethodTail(returnType, name.value, start.line);
    }

    method MethodTail(returnType: string, name: string, line: nat) returns (r: Result<Stmt>)
      requires cursor <= |tokens|
      modifies this
      ensures Outcome(r, cursor) == Parsing.MethodTail(dialect, tokens, returnType, name, old(cursor), line)
      decreases |tokens| - cursor, 30
    {
      var open :- Expect(TokenType.OpenParen, "Expected '(' after method name.");
      var params :- ParseParamList();
      var close :- Expect(TokenType.CloseParen, "Expected ')' to close parameter list.");
      var body :- ParseBlock();
      return Ok(MethodDeclaration(returnType, name, params, body.stmts, line));
    }

    method ParseParamList() returns (r: Result<seq<Param>>)
      requires cursor <= |tokens|
      modifies this
      ensures Outcome(r, cursor) == Parsing.ParseParamList(tokens, old(cursor))
    {
      if Parsing.Is(tokens, cursor, TokenType.CloseParen) {
        return Ok([]);
      }
      r := ParseParams();
    }

    method ParseParam() returns (r: Result<Param>)
      requires cursor <= |tokens|
      modifies this
      ensures Outcome(r, cursor) == Parsing.ParseParam(tokens, old(cursor))
    {
      if Parsing.Is(tokens, cursor, TokenType.Comma) {
        cursor := cursor + 1;
      }
      r := ParseParamAt();
    }

    method ParseParamAt() returns (r: Result<Param>)
      requires cursor <= |tokens|
      modifies this
      ensures Outcome(r, cursor) == Parsing.ParseParamAt(tokens, old(cursor))
    {
      if cursor >= |tokens| {
        return Err(Parsing.TypeError);
      }
      var typeToken := tokens[cursor];
      cursor := cursor + 1;
      var paramType :- ArraySuffix(typeToken.value, "Expected ']'");
      var name :- Expect(TokenType.Identifier, "Expected param name");
      if cursor >= |tokens| {
        return Err(Parsing.TypeError);
      }
      return Ok(Param(paramType, name.value, tokens[cursor].line));
    }

    /** The `do ... while` loop over the parameter list. */
    method ParseParams() returns (r: Result<seq<Param>>)
      requires cursor <= |tokens|
      modifies this
      ensures Outcome(r, cursor) == Parsing.ParseParams(tokens, old(cursor), [])
    {
      var params: seq<Param> := [];
      var more := true;
      while more
        invariant cursor <= |tokens|
        invariant more ==> Parsing.ParseParams(tokens, old(cursor), []) == Parsing.ParseParams(tokens, cursor, params)
        invariant !more ==> Parsing.ParseParams(tokens, old(cursor), []) == Ok(Parsing.Parsed(params, cursor))
        decreases |tokens| - cursor + (if more then 1 else 0)
      {
        var param :- ParseParam();
        params := params + [param];
        more := Parsing.Is(tokens, cursor, TokenType.Comma);
      }
      return Ok(params);
    }

    method ParseBlock() returns (r: Result<Stmt>)
      requires cursor <= |tokens|
      modifies this
      ensures Outcome(r, cursor) == Parsing.ParseBlock(dialect, tokens, old(cursor))
      decreases |tokens| - cursor, 30
    {
      var open :- Expect(TokenType.OpenBrace, "Expected '{' to start a block.");
      var body: seq<Stmt> := [];
      ghost var bodyStart := cursor;
      while cursor < |tokens| && tokens[cursor].kind != TokenType.CloseBrace && tokens[cursor].kind != TokenType.EOF
        invariant bodyStart <= cursor <= |tokens|
        invariant Parsing.ParseBlockBody(dialect, tokens, bodyStart, [])
                  == Parsing.ParseBlockBody(dialect, tokens, cursor, body)
        decreases |tokens| - cursor
      {
        var s :- ParseStmt();
        body := body + [s];
      }
      if cursor >= |tokens| {
        return Err(Parsing.TypeError);
      }
      var close :- Expect(TokenType.CloseBrace, "Expected '}' to close a block.");
      return Ok(BlockStatement(body, open.line));
    }

    method ParseVarDecl() returns (r: Result<Stmt>)
      requires cursor <= |tokens|
      modifies this
      ensures Outcome(r, cursor) == Parsing.ParseVarDecl(dialect, tokens, old(cursor))
      decreases |tokens| - cursor, 30
    {
      if cursor >= |tokens| {
        return Err(Parsing.TypeError);
      }
      var start := tokens[cursor];
      cursor := cursor + 1;
      var varType :- ArraySuffix(start.value, "Expected ']' in array type.");
      var name :- Expect(TokenType.Identifier, "Expected variable name.");
      r := VarDeclTail(varType, name.value, start.line);
    }

    method VarDeclTail(varType: string, name: string, line: nat) returns (r: Result<Stmt>)
      requires cursor <= |tokens|
      modifies this
      ensures Outcome(r, cursor) == Parsing.VarDeclTail(dialect, tokens, varType, name, old(cursor), line)
      decreases |tokens| - cursor, 30
    {
      var init :- ParseInitializer();
      var semi :- Expect(TokenType.Semicolon, "Expected ';' after variable declaration.");
      return Ok(VariableDeclaration(varType, name, init, line));
    }

    method ParseInitializer() returns (r: Result<Option<Expr>>)
      requires cursor <= |tokens|
      modifies this
      ensures Outcome(r, cursor) == Parsing.ParseInitializer(dialect, tokens, old(cursor))
      decreases |tokens| - cursor, 26
    {
      if !Parsing.Is(tokens, cursor, TokenType.Equals) {
        return Ok(None);
      }
      cursor := cursor + 1;
      var e :- ParseExpr();
      return Ok(Some(e));
    }

    method ParseFor() returns (r: Result<Stmt>)
      requires cursor < |tokens|
      modifies this
      ensures Outcome(r, cursor) == Parsing.ParseFor(dialect, tokens, old(cursor))
      decreases |tokens| - cursor, 30
    {
      var start := tokens[cursor];
      cursor := cursor + 1;
      var open :- Expect(TokenType.OpenParen, "Expected '(' after 'for'.");
      var init :- ParseVarDecl();
      var test :- ParseExpr();
      var semi :- Expect(TokenType.Semicolon, "Expected ';' after for loop condition.");
      var update :- ParseExpr();
      var close :- Expect(TokenType.CloseParen, "Expected ')' after for loop clauses.");
      var body :- ParseStmt();
      return Ok(ForStatement(Some(init), Some(test), Some(update), body, start.line));
    }

    method ParseCondition(openErr: string, closeErr: string) returns (r: Result<Expr>)
      requires cursor <= |tokens|
      modifies this
      ensures Outcome(r, cursor) == Parsing.ParseCondition(dialect, tokens, old(cursor), openErr, closeErr)
      decreases |tokens| - cursor, 25
    {
      var open :- Expect(TokenType.OpenParen, openErr);
      var test :- ParseExpr();
      var close :- Expect(TokenType.CloseParen, closeErr);
      return Ok(test);
    }

    method ParseWhile() returns (r: Result<Stmt>)
      requires cursor < |tokens|
      modifies this
      ensures Outcome(r, cursor) == Parsing.ParseWhile(dialect, tokens, old(cursor))
      decreases |tokens| - cursor, 30
    {
      var start := tokens[cursor];
      cursor := cursor + 1;
      var test :- ParseCondition("Expected '(' after 'while'.", "Expected ')' after while condition.");
      var body :- ParseStmt();
      return Ok(WhileStatement(test, body, start.line));
    }

    method ParseDoWhile() returns (r: Result<Stmt>)
      requires cursor < |tokens|
      modifies this
      ensures Outcome(r, cursor) == Parsing.ParseDoWhile(dialect, tokens, old(cursor))
      decreases |tokens| - cursor, 30
    {
      var start := tokens[cursor];
      cursor := cursor + 1;
      var body :- ParseStmt();
      r := DoWhileTail(body, start.line);
    }

    /** The part of a do-while statement after its body: `while (test);`. */
    method DoWhileTail(body: Stmt, line: nat) returns (r: Result<Stmt>)
      requires cursor <= |tokens|
      modifies this
      ensures Outcome(r, cursor) == Parsing.DoWhileTail(dialect, tokens, body, old(cursor), line)
      decreases |tokens| - cursor, 30
    {
      var kw :- Expect(TokenType.While, "Expected 'while' after 'do' block.");
      var test :- ParseCondition("Expected '(' after 'while'.", "Expected ')' after while condition.");
      var semi :- Expect(TokenType.Semicolon, "Expected ';' after do-while statement.");
      return Ok(DoWhileStatement(test, body, line));
    }

    method ParseIf() returns (r: Result<Stmt>)
      requires cursor < |tokens|
      modifies this
      ensures Outcome(r, cursor) == Parsing.ParseIf(dialect, tokens, old(cursor))
      decreases |tokens| - cursor, 30
    {
      var start := tokens[cursor];
      cursor := cursor + 1;
      var test :- ParseCondition("Expected '(' after 'if'.", "Expected ')' after if condition.");
      var consequent :- ParseStmt();
      var alternate :- ParseElse();
      return Ok(IfStatement(test, consequent, alternate, start.line));
    }

    method ParseElse() returns (r: Result<Option<Stmt>>)
      requires cursor <= |tokens|
      modifies this
      ensures Outcome(r, cursor) == Parsing.ParseElse(dialect, tokens, old(cursor))
      decreases |tokens| - cursor, 31
    {
      if Parsing.Is(tokens, cursor, TokenType.Else) {
        r := ParseElseBranch();
      } else {
        r := Ok(None);
      }
    }

    method ParseElseBranch() returns (r: Result<Option<Stmt>>)
      requires cursor < |tokens|
      modifies this
      ensures Outcome(r, cursor) == Parsing.ParseElseBranch(dialect, tokens, old(cursor))
      decreases |tokens| - cursor, 30
    {
      cursor := cursor + 1;
      var alternate :- ParseStmt();
      return Ok(Some(alternate));
    }

    method ParseReturn() returns (r: Result<Stmt>)
      requires cursor < |tokens|
      modifies this
      ensures Outcome(r, cursor) == Parsing.ParseReturn(dialect, tokens, old(cursor))
      decreases |tokens| - cursor, 30
    {
      var start := tokens[cursor];
      cursor := cursor + 1;
      var argument :- ParseReturnArgument();
      var semi :- Expect(TokenType.Semicolon, "Expected ';' after return statement.");
      return Ok(ReturnStatement(argument, start.line));
    }

    method ParseReturnArgument() returns (r: Result<Option<Expr>>)
      requires cursor <= |tokens|
      modifies this
      ensures Outcome(r, cursor) == Parsing.ParseReturnArgument(dialect, tokens, old(cursor))
      decreases |tokens| - cursor, 26
    {
      if cursor >= |tokens| {
        return Err(Parsing.TypeError);
      }
      if tokens[cursor].kind == TokenType.Semicolon {
        return Ok(None);
      }
      var e :- ParseExpr();
      return Ok(Some(e));
    }

    method ParseExprStmt() returns (r: Result<Stmt>)
      requires cursor <= |tokens|
      modifies this
      ensures Outcome(r, cursor) == Parsing.ParseExprStmt(dialect, tokens, old(cursor))
      decreases |tokens| - cursor, 30
    {
      var e :- ParseExpr();
      if cursor >= |tokens| {
        return Err(Parsing.TypeError);
      }
      var line := tokens[cursor].line;
      var semi :- Expect(TokenType.Semicolon, "Expected ';' after expression.");
      return Ok(ExpressionStatement(e, line));
    }

    method ParseExpr() returns (r: Result<Expr>)
      requires cursor <= |tokens|
      modifies this
      ensures Outcome(r, cursor) == Parsing.ParseExpr(dialect, tokens, old(cursor))
      decreases |tokens| - cursor, 21
    {
      r := ParseAssignment();
    }

    method ParseAssignment() returns (r: Result<Expr>)
      requires cursor <= |tokens|
      modifies this
      ensures Outcome(r, cursor) == Parsing.ParseAssignment(dialect, tokens, old(cursor))
      decreases |tokens| - cursor, 20
    {
      var left :- ParseBinary(Parsing.OrLevel);
      if Parsing.Is(tokens, cursor, TokenType.Equals) {
        cursor := cursor + 1;
        var value :- ParseAssignment();
        return Ok(AssignmentExpr(left, value, left.line));
      }
      return Ok(left);
    }

    /** One precedence level: an operand, then a loop that folds each further operator
        and operand into the tree. */
    method ParseBinary(l: Parsing.Level) returns (r: Result<Expr>)
      requires cursor <= |tokens|
      modifies this
      ensures Outcome(r, cursor) == Parsing.ParseBinary(dialect, l, tokens, old(cursor))
      decreases |tokens| - cursor, 2 * Parsing.LevelRank(l) + 4
    {
      var left :- ParseOperand(l);
      while cursor < |tokens| && Parsing.IsLevelOp(dialect, l, tokens[cursor].kind)
        invariant old(cursor) < cursor <= |tokens|
        invariant Parsing.ParseBinary(dialect, l, tokens, old(cursor))
                  == Parsing.ParseBinaryLoop(dialect, l, tokens, left, cursor)
        decreases |tokens| - cursor
      {
        var op := tokens[cursor].value;
        cursor := cursor + 1;
        var right :- ParseOperand(l);
        left := Parsing.Combine(l, op, left, right);
      }
      if l == Parsing.ComparisonLevel && cursor >= |tokens| {
        return Err(Parsing.TypeError);
      }
      return Ok(left);
    }

    method ParseOperand(l: Parsing.Level) returns (r: Result<Expr>)
      requires cursor <= |tokens|
      modifies this
      ensures Outcome(r, cursor) == Parsing.ParseOperand(dialect, l, tokens, old(cursor))
      decreases |tokens| - cursor, 2 * Parsing.LevelRank(l) + 3
    {
      if l == Parsing.MultiplicativeLevel {
        r := ParseUnary();
      } else {
        r := ParseBinary(Parsing.Tighter(l));
      }
    }

    method ParseUnary() returns (r: Result<Expr>)
      requires cursor <= |tokens|
      modifies this
      ensures Outcome(r, cursor) == Parsing.ParseUnary(dialect, tokens, old(cursor))
      decreases |tokens| - cursor, 4
    {
      if Parsing.Is(tokens, cursor, TokenType.Bang) || Parsing.Is(tokens, cursor, TokenType.Minus) {
        var token := tokens[cursor];
        cursor := cursor + 1;
        var argument :- ParseUnary();
        return Ok(UnaryExpr(token.value, argument, token.line));
      }
      r := ParseCallMember();
    }

    /** A primary expression and the loop over its call and member suffixes. */
    method ParseCallMember() returns (r: Result<Expr>)
      requires cursor <= |tokens|
      modifies this
      ensures Outcome(r, cursor) == Parsing.ParseCallMember(dialect, tokens, old(cursor))
      decreases |tokens| - cursor, 3
    {
      var member :- ParsePrimary();
      while cursor < |tokens|
              && (tokens[cursor].kind == TokenType.Dot || tokens[cursor].kind == TokenType.OpenParen
                  || tokens[cursor].kind == TokenType.OpenBracket)
        invariant old(cursor) < cursor <= |tokens|
        invariant Parsing.ParseCallMember(dialect, tokens, old(cursor))
                  == Parsing.ParseCallMemberLoop(dialect, tokens, member, cursor)
        decreases |tokens| - cursor
      {
        if tokens[cursor].kind == TokenType.OpenParen {
          member :- ParseCall(member);
        } else {
          member :- ParseMember(member, tokens[cursor].kind == TokenType.OpenBracket);
        }
      }
      if cursor >= |tokens| {
        return Err(Parsing.TypeError);
      }
      return Ok(member);
    }

    method ParseCall(callee: Expr) returns (r: Result<Expr>)
      requires cursor < |tokens|
      modifies this
      ensures Outcome(r, cursor) == Parsing.ParseCall(dialect, tokens, callee, old(cursor))
      decreases |tokens| - cursor, 1
    {
      if cursor + 1 >= |tokens| {
        return Err(Parsing.TypeError);
      }
      cursor := cursor + 1;
      var args :- ParseArguments();
      var close :- Expect(TokenType.CloseParen, "Expected ')' to close arguments.");
      return Ok(CallExpr(callee, args, callee.line));
    }

    method ParseArguments() returns (r: Result<seq<Expr>>)
      requires cursor < |tokens|
      modifies this
      ensures Outcome(r, cursor) == Parsing.ParseArguments(dialect, tokens, old(cursor))
      decreases |tokens| - cursor, 23
    {
      if tokens[cursor].kind == TokenType.CloseParen {
        return Ok([]);
      }
      r := ParseExprList();
    }

    /** The `do ... while` loop over comma-separated expressions. */
    method ParseExprList() returns (r: Result<seq<Expr>>)
      requires cursor <= |tokens|
      modifies this
      ensures Outcome(r, cursor) == Parsing.ParseExprList(dialect, tokens, old(cursor), [])
      decreases |tokens| - cursor, 22
    {
      var items: seq<Expr> := [];
      var more := true;
      while more
        invariant old(cursor) <= cursor <= |tokens|
        invariant more ==> Parsing.ParseExprList(dialect, tokens, old(cursor), [])
                           == Parsing.ParseExprList(dialect, tokens, cursor, items)
        invariant !more ==> Parsing.ParseExprList(dialect, tokens, old(cursor), []) == Ok(Parsing.Parsed(items, cursor))
        decreases |tokens| - cursor + (if more then 1 else 0)
      {
        if Parsing.Is(tokens, cursor, TokenType.Comma) {
          cursor := cursor + 1;
        }
        var e :- ParseExpr();
        items := items + [e];
        more := Parsing.Is(tokens, cursor, TokenType.Comma);
      }
      return Ok(items);
    }

    method ParseMember(obj: Expr, computed: bool) returns (r: Result<Expr>)
      requires cursor < |tokens|
      modifies this
      ensures Outcome(r, cursor) == Parsing.ParseMember(dialect, tokens, obj, old(cursor), computed)
      decreases |tokens| - cursor, 1
    {
      cursor := cursor + 1;
      if computed {
        var property :- ParseExpr();
        var close :- Expect(TokenType.CloseBracket, "Expected ']' for computed property.");
        return Ok(MemberExpr(obj, property, true, obj.line));
      }
      var property :- ParsePrimary();
      return Ok(MemberExpr(obj, property, false, obj.line));
    }

    method ParsePrimary() returns (r: Result<Expr>)
      requires cursor <= |tokens|
      modifies this
      ensures Outcome(r, cursor) == Parsing.ParsePrimary(dialect, tokens, old(cursor))
      decreases |tokens| - cursor, 1
    {
      if cursor >= |tokens| {
        return Err(Parsing.TypeError);
      }
      var token := tokens[cursor];
      match token.kind {
        case System => r := ParseName();
        case Identifier => r := ParseName();
        case IntegerLiteral =>
          var n :- Parsing.IntegerValue(token.value);
          cursor := cursor + 1;
          r := Ok(NumericLiteral(n, token.line));
        case DoubleLiteral =>
          cursor := cursor + 1;
          r := Ok(Expr.DoubleLiteral(token.value, token.line));
        case StringLiteral =>
          cursor := cursor + 1;
          r := Ok(Expr.StringLiteral(token.value, token.line));
        case True =>
          cursor := cursor + 1;
          r := Ok(BooleanLiteral(true, token.line));
        case False =>
          cursor := cursor + 1;
          r := Ok(BooleanLiteral(false, token.line));
        case New => r := ParseNew();
        case OpenBrace => r := ParseArrayLiteral();
        case OpenParen =>
          cursor := cursor + 1;
          var value :- ParseExpr();
          var close :- Expect(TokenType.CloseParen, "Expected ')' to close grouped expression.");
          r := Ok(value);
        case _ =>
          r := Err(ParseError("Unexpected token: " + Text.JsonQuote(token.value), token.line));
      }
    }

    method ParseName() returns (r: Result<Expr>)
      requires cursor < |tokens|
      modifies this
      ensures Outcome(r, cursor) == Parsing.ParseName(tokens, old(cursor))
    {
      var token := tokens[cursor];
      if cursor + 1 >= |tokens| {
        return Err(Parsing.TypeError);
      }
      var next := tokens[cursor + 1];
      if next.kind == TokenType.PlusPlus || next.kind == TokenType.MinusMinus {
        cursor := cursor + 2;
        return Ok(PostfixExpr(next.value, Name(token.value, token.line), token.line));
      }
      cursor := cursor + 1;
      return Ok(Expr.Identifier(token.value, token.line));
    }

    method ParseNew() returns (r: Result<Expr>)
      requires cursor < |tokens|
      modifies this
      ensures Outcome(r, cursor) == Parsing.ParseNew(dialect, tokens, old(cursor))
      decreases |tokens| - cursor, 0
    {
      var start := tokens[cursor];
      cursor := cursor + 1;
      var callee :- Expect(TokenType.Identifier, "Expected class or type name after 'new'.");
      r := NewRest(start, callee);
    }

    method NewRest(start: Token, callee: Token) returns (r: Result<Expr>)
      requires cursor <= |tokens|
      modifies this
      ensures Outcome(r, cursor) == Parsing.NewRest(dialect, tokens, start, callee, old(cursor))
      decreases |tokens| - cursor, 0
    {
      if Parsing.Is(tokens, cursor, TokenType.OpenParen) {
        cursor := cursor + 1;
        var close :- Expect(TokenType.CloseParen, "Expected ')' after new expression.");
        return Ok(NewExpr(Name(callee.value, callee.line), [], start.line));
      } else if Parsing.Is(tokens, cursor, TokenType.OpenBracket) {
        cursor := cursor + 1;
        var size :- ParseExpr();
        var close :- Expect(TokenType.CloseBracket, "Expected ']' after array size.");
        return Ok(ArrayCreationExpr(callee.value, Some(size), None, start.line));
      }
      return Err(ParseError("Invalid 'new' expression.", start.line));
    }

    method ParseArrayLiteral() returns (r: Result<Expr>)
      requires cursor < |tokens|
      modifies this
      ensures Outcome(r, cursor) == Parsing.ParseArrayLiteral(dialect, tokens, old(cursor))
      decreases |tokens| - cursor, 0
    {
      var start := tokens[cursor];
      if cursor + 1 >= |tokens| {
        return Err(Parsing.TypeError);
      }
      cursor := cursor + 1;
      var values: seq<Expr> := [];
      if tokens[cursor].kind != TokenType.CloseBrace {
        values :- ParseExprList();
      }
      var close :- Expect(TokenType.CloseBrace, "Expected '}' to close array literal.");
      return Ok(ArrayCreationExpr("int", None, Some(values), start.line));
    }
  }
}
