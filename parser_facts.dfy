// Properties of the parser functions: how the precedence levels group, where an
// expression ends, the dialect difference at `%`, and the statements the parser
// refuses.

module ParserFacts {
  import opened Common
  import opened Dialects
  import opened Lexer
  import opened Ast
  import opened Parsing
  import LexerFacts

  /** The token at `p` continues no binary level and is not `=`, so an expression in
      front of it is complete. */
  predicate EndsExpression(d: Dialect, ts: seq<Token>, p: nat)
  {
    p < |ts| && ts[p].kind != TokenType.Equals
    && !IsLevelOp(d, OrLevel, ts[p].kind) && !IsLevelOp(d, AndLevel, ts[p].kind)
    && !IsLevelOp(d, ComparisonLevel, ts[p].kind) && !IsLevelOp(d, AdditiveLevel, ts[p].kind)
    && !IsLevelOp(d, MultiplicativeLevel, ts[p].kind)
  }

  /** A unary expression followed by a token that ends the expression is the whole
      multiplicative expression. */
  lemma UnaryIsMultiplicative(d: Dialect, ts: seq<Token>, pos: nat, e: Expr, p: nat)
    requires pos <= |ts| && ParseUnary(d, ts, pos) == Ok(Parsed(e, p)) && EndsExpression(d, ts, p)
    ensures ParseBinary(d, MultiplicativeLevel, ts, pos) == Ok(Parsed(e, p))
  {
    assert ParseBinaryLoop(d, MultiplicativeLevel, ts, e, p) == Ok(Parsed(e, p));
  }

  /** What one level parses up to a token that ends the expression, every looser level
      parses too. */
  lemma {:induction false} LiftLevel(d: Dialect, l: Level, l': Level, ts: seq<Token>, pos: nat, e: Expr, p: nat)
    requires pos <= |ts| && LevelRank(l) <= LevelRank(l')
    requires ParseBinary(d, l, ts, pos) == Ok(Parsed(e, p)) && EndsExpression(d, ts, p)
    ensures ParseBinary(d, l', ts, pos) == Ok(Parsed(e, p))
    decreases LevelRank(l') - LevelRank(l)
  {
    if l' != l {
      var t := Tighter(l');
      LiftLevel(d, l, t, ts, pos, e, p);
      assert ParseOperand(d, l', ts, pos) == Ok(Parsed(e, p));
      assert ParseBinaryLoop(d, l', ts, e, p) == Ok(Parsed(e, p));
    }
  }

  /** ... and so does the whole expression parser. */
  lemma LiftToExpr(d: Dialect, l: Level, ts: seq<Token>, pos: nat, e: Expr, p: nat)
    requires pos <= |ts| && ParseBinary(d, l, ts, pos) == Ok(Parsed(e, p)) && EndsExpression(d, ts, p)
    ensures ParseExpr(d, ts, pos) == Ok(Parsed(e, p))
  {
    LiftLevel(d, l, OrLevel, ts, pos, e, p);
  }

  /** Within one level, `a op b op c` groups as `(a op b) op c`. */
  lemma BinaryGroupsLeft(d: Dialect, l: Level, ts: seq<Token>, pos: nat,
                         a: Expr, p1: nat, b: Expr, p2: nat, c: Expr, p3: nat)
    requires pos <= |ts| && ParseOperand(d, l, ts, pos) == Ok(Parsed(a, p1))
    requires p1 < |ts| && IsLevelOp(d, l, ts[p1].kind)
    requires ParseOperand(d, l, ts, p1 + 1) == Ok(Parsed(b, p2))
    requires p2 < |ts| && IsLevelOp(d, l, ts[p2].kind)
    requires ParseOperand(d, l, ts, p2 + 1) == Ok(Parsed(c, p3))
    requires p3 < |ts| && !IsLevelOp(d, l, ts[p3].kind)
    ensures ParseBinary(d, l, ts, pos)
            == Ok(Parsed(Combine(l, ts[p2].value, Combine(l, ts[p1].value, a, b), c), p3))
  {
    var ab := Combine(l, ts[p1].value, a, b);
    var abc := Combine(l, ts[p2].value, ab, c);
    BinaryStart(d, l, ts, pos, a, p1);
    LoopStep(d, l, ts, a, p1, b, p2);
    LoopStep(d, l, ts, ab, p2, c, p3);
    LoopStops(d, l, ts, abc, p3);
  }

  /** `a = b = c` groups as `a = (b = c)`; each assignment node takes the line of its
      target. */
  lemma AssignmentGroupsRight(d: Dialect, ts: seq<Token>, pos: nat,
                              a: Expr, p1: nat, b: Expr, p2: nat, c: Expr, p3: nat)
    requires pos <= |ts| && ParseBinary(d, OrLevel, ts, pos) == Ok(Parsed(a, p1))
    requires Is(ts, p1, TokenType.Equals) && ParseBinary(d, OrLevel, ts, p1 + 1) == Ok(Parsed(b, p2))
    requires Is(ts, p2, TokenType.Equals) && ParseBinary(d, OrLevel, ts, p2 + 1) == Ok(Parsed(c, p3))
    requires !Is(ts, p3, TokenType.Equals)
    ensures ParseExpr(d, ts, pos) == Ok(Parsed(AssignmentExpr(a, AssignmentExpr(b, c, b.line), a.line), p3))
  {
    AssignStops(d, ts, p2 + 1, c, p3);
    AssignStep(d, ts, p1 + 1, b, p2, c, p3);
    AssignStep(d, ts, pos, a, p1, AssignmentExpr(b, c, b.line), p3);
  }

  /** In `a + b * c` the multiplication is an operand of the addition. */
  lemma MultiplicationBindsTighter(d: Dialect, ts: seq<Token>, pos: nat,
                                   a: Expr, p1: nat, b: Expr, p2: nat, c: Expr, p3: nat)
    requires pos <= |ts| && ParseUnary(d, ts, pos) == Ok(Parsed(a, p1))
    requires Is(ts, p1, TokenType.Plus) && ParseUnary(d, ts, p1 + 1) == Ok(Parsed(b, p2))
    requires Is(ts, p2, TokenType.Star) && ParseUnary(d, ts, p2 + 1) == Ok(Parsed(c, p3))
    requires EndsExpression(d, ts, p3)
    ensures ParseExpr(d, ts, pos)
            == Ok(Parsed(BinaryExpr(ts[p1].value, a, BinaryExpr(ts[p2].value, b, c, b.line), a.line), p3))
  {
    var bc := BinaryExpr(ts[p2].value, b, c, b.line);
    assert IsLevelOp(d, AdditiveLevel, ts[p1].kind) && !IsLevelOp(d, MultiplicativeLevel, ts[p1].kind);
    assert ParseBinary(d, MultiplicativeLevel, ts, p1 + 1) == Ok(Parsed(bc, p3)) by {
      Product(d, ts, p1 + 1, b, p2, c, p3);
    }
    assert ParseBinary(d, MultiplicativeLevel, ts, pos) == Ok(Parsed(a, p1)) by {
      SingleFactor(d, ts, pos, a, p1);
    }
    Sum(d, ts, pos, a, p1, bc, p3);
  }

  /** Two products joined by one additive operator make the whole expression. */
  lemma Sum(d: Dialect, ts: seq<Token>, pos: nat, a: Expr, p1: nat, rhs: Expr, p3: nat)
    requires pos <= |ts| && ParseBinary(d, MultiplicativeLevel, ts, pos) == Ok(Parsed(a, p1))
    requires p1 < |ts| && IsLevelOp(d, AdditiveLevel, ts[p1].kind)
    requires ParseBinary(d, MultiplicativeLevel, ts, p1 + 1) == Ok(Parsed(rhs, p3))
    requires EndsExpression(d, ts, p3)
    ensures ParseExpr(d, ts, pos) == Ok(Parsed(BinaryExpr(ts[p1].value, a, rhs, a.line), p3))
  {
    var sum := BinaryExpr(ts[p1].value, a, rhs, a.line);
    BinaryStart(d, AdditiveLevel, ts, pos, a, p1);
    LoopStep(d, AdditiveLevel, ts, a, p1, rhs, p3);
    LoopStops(d, AdditiveLevel, ts, sum, p3);
    LiftToExpr(d, AdditiveLevel, ts, pos, sum, p3);
  }

  /** `b * c` followed by no multiplicative operator is one product. */
  lemma Product(d: Dialect, ts: seq<Token>, pos: nat, b: Expr, p2: nat, c: Expr, p3: nat)
    requires pos <= |ts| && ParseUnary(d, ts, pos) == Ok(Parsed(b, p2))
    requires Is(ts, p2, TokenType.Star) && ParseUnary(d, ts, p2 + 1) == Ok(Parsed(c, p3))
    requires p3 < |ts| && !IsLevelOp(d, MultiplicativeLevel, ts[p3].kind)
    ensures ParseBinary(d, MultiplicativeLevel, ts, pos) == Ok(Parsed(BinaryExpr(ts[p2].value, b, c, b.line), p3))
  {
    BinaryStart(d, MultiplicativeLevel, ts, pos, b, p2);
    LoopStep(d, MultiplicativeLevel, ts, b, p2, c, p3);
    LoopStops(d, MultiplicativeLevel, ts, BinaryExpr(ts[p2].value, b, c, b.line), p3);
  }

  /** A unary expression followed by no multiplicative operator is a product of one factor. */
  lemma SingleFactor(d: Dialect, ts: seq<Token>, pos: nat, a: Expr, p1: nat)
    requires pos <= |ts| && ParseUnary(d, ts, pos) == Ok(Parsed(a, p1))
    requires p1 < |ts| && !IsLevelOp(d, MultiplicativeLevel, ts[p1].kind)
    ensures ParseBinary(d, MultiplicativeLevel, ts, pos) == Ok(Parsed(a, p1))
  {
    BinaryStart(d, MultiplicativeLevel, ts, pos, a, p1);
    LoopStops(d, MultiplicativeLevel, ts, a, p1);
  }

  /** A level starts with one operand and hands it to its loop. */
  lemma BinaryStart(d: Dialect, l: Level, ts: seq<Token>, pos: nat, first: Expr, p: nat)
    requires pos <= |ts| && ParseOperand(d, l, ts, pos) == Ok(Parsed(first, p))
    ensures ParseBinary(d, l, ts, pos) == ParseBinaryLoop(d, l, ts, first, p)
  {
  }

  /** An `=` after the left side makes an assignment whose value is the assignment
      parsed after it ... */
  lemma AssignStep(d: Dialect, ts: seq<Token>, pos: nat, left: Expr, p: nat, value: Expr, q: nat)
    requires pos <= |ts| && ParseBinary(d, OrLevel, ts, pos) == Ok(Parsed(left, p)) && Is(ts, p, TokenType.Equals)
    requires ParseAssignment(d, ts, p + 1) == Ok(Parsed(value, q))
    ensures ParseAssignment(d, ts, pos) == Ok(Parsed(AssignmentExpr(left, value, left.line), q))
  {
  }

  /** ... and without one the left side is the whole expression. */
  lemma AssignStops(d: Dialect, ts: seq<Token>, pos: nat, left: Expr, p: nat)
    requires pos <= |ts| && ParseBinary(d, OrLevel, ts, pos) == Ok(Parsed(left, p)) && !Is(ts, p, TokenType.Equals)
    ensures ParseAssignment(d, ts, pos) == Ok(Parsed(left, p))
  {
  }

  /** One turn of a level's loop: the operator at `p` and the operand after it join the
      tree built so far. */
  lemma LoopStep(d: Dialect, l: Level, ts: seq<Token>, left: Expr, p: nat, right: Expr, q: nat)
    requires p < |ts| && IsLevelOp(d, l, ts[p].kind) && ParseOperand(d, l, ts, p + 1) == Ok(Parsed(right, q))
    ensures ParseBinaryLoop(d, l, ts, left, p) == ParseBinaryLoop(d, l, ts, Combine(l, ts[p].value, left, right), q)
  {
  }

  /** A level's loop ends at a token that is not one of its operators. */
  lemma LoopStops(d: Dialect, l: Level, ts: seq<Token>, left: Expr, p: nat)
    requires p < |ts| && !IsLevelOp(d, l, ts[p].kind)
    ensures ParseBinaryLoop(d, l, ts, left, p) == Ok(Parsed(left, p))
  {
  }

  /** Where no operator of the level follows, its loop returns the tree built so far;
      only the comparison level reads a token past the end of the list, and fails. */
  lemma LoopEnds(d: Dialect, l: Level, ts: seq<Token>, left: Expr, p: nat)
    requires p <= |ts| && !(p < |ts| && IsLevelOp(d, l, ts[p].kind))
    ensures ParseBinaryLoop(d, l, ts, left, p)
            == if l == ComparisonLevel && p == |ts| then Err(TypeError) else Ok(Parsed(left, p))
  {
  }

  /** The modern parser reads `a % b` as a multiplicative expression. */
  lemma ModernRemainder(ts: seq<Token>, pos: nat, a: Expr, p1: nat, b: Expr, p2: nat)
    requires pos <= |ts| && ParseUnary(Modern, ts, pos) == Ok(Parsed(a, p1))
    requires Is(ts, p1, TokenType.Percent) && ParseUnary(Modern, ts, p1 + 1) == Ok(Parsed(b, p2))
    requires EndsExpression(Modern, ts, p2)
    ensures ParseExpr(Modern, ts, pos) == Ok(Parsed(BinaryExpr(ts[p1].value, a, b, a.line), p2))
  {
    var ab := BinaryExpr(ts[p1].value, a, b, a.line);
    assert ParseBinaryLoop(Modern, MultiplicativeLevel, ts, ab, p2) == Ok(Parsed(ab, p2));
    assert ParseBinaryLoop(Modern, MultiplicativeLevel, ts, a, p1) == Ok(Parsed(ab, p2));
    LiftToExpr(Modern, MultiplicativeLevel, ts, pos, ab, p2);
  }

  /** The legacy parser has no `%` operator: the expression statement `a % b;` stops
      before the `%` and fails for want of a semicolon there. */
  lemma LegacyRejectsRemainder(ts: seq<Token>, pos: nat, a: Expr, p: nat)
    requires pos <= |ts| && ParseUnary(Legacy, ts, pos) == Ok(Parsed(a, p)) && Is(ts, p, TokenType.Percent)
    ensures ParseExprStmt(Legacy, ts, pos) == Err(ParseError("Expected ';' after expression.", ts[p].line))
  {
    UnaryIsMultiplicative(Legacy, ts, pos, a, p);
    LiftToExpr(Legacy, MultiplicativeLevel, ts, pos, a, p);
  }

  /** A token stream holding only the end marker is the empty program. */
  lemma EmptyProgram(d: Dialect, t: Token)
    requires t.kind == TokenType.EOF
    ensures Parse(d, [t]) == Ok(Program([], 1))
  {
  }

  /** `new int[n]` is refused: `int` is a keyword token, and `new` accepts only an
      identifier after it. */
  lemma NewPrimitiveArrayRejected(d: Dialect, ts: seq<Token>, pos: nat)
    requires pos + 1 < |ts| && ts[pos].kind == TokenType.New
    requires ts[pos + 1] == Token(WordTypeAsWritten(d, "int"), "int", ts[pos + 1].line)
    ensures ParsePrimary(d, ts, pos) == Err(ParseError("Expected class or type name after 'new'.", ts[pos + 1].line))
  {
    IntIsKeyword(d);
    assert ParsePrimary(d, ts, pos) == ParseNew(d, ts, pos);
  }

  /** A failure at the first primary of an expression is the failure of every binary
      level above it. */
  lemma {:induction false} PrimaryFailureRises(d: Dialect, l: Level, ts: seq<Token>, pos: nat)
    requires pos < |ts| && !Is(ts, pos, TokenType.Bang) && !Is(ts, pos, TokenType.Minus)
    requires ParsePrimary(d, ts, pos).Err?
    ensures ParseBinary(d, l, ts, pos).Err? && ParseBinary(d, l, ts, pos).error == ParsePrimary(d, ts, pos).error
    decreases LevelRank(l)
  {
    if l == MultiplicativeLevel {
      assert ParseUnary(d, ts, pos) == ParseCallMember(d, ts, pos);
    } else {
      PrimaryFailureRises(d, Tighter(l), ts, pos);
    }
  }

  /** A type keyword followed by the name of an inherited Object.prototype member, as in
      `int constructor = 1;` or `String toString() {`, is no declaration: the lookahead
      finds no Identifier after the type, the statement is read as an expression, and
      the type keyword is an unexpected primary. */
  lemma InheritedNameDeclarationRejected(d: Dialect, ts: seq<Token>, pos: nat, ty: string, w: string)
    requires pos + 1 < |ts|
    requires ty == "int" || ty == "void" || ty == "boolean" || ty == "double" || ty == "String"
    requires ts[pos] == Token(WordTypeAsWritten(d, ty), ty, ts[pos].line)
    requires w in InheritedNames && ts[pos + 1] == Token(WordTypeAsWritten(d, w), w, ts[pos + 1].line)
    ensures ParseStmt(d, ts, pos) == Err(ParseError("Unexpected token: " + Text.JsonQuote(ty), ts[pos].line))
  {
    TypeKeywordKind(d, ty);
    LexerFacts.InheritedNamesAreNotIdentifiers(d, w);
    TypeKeywordStatement(d, ts, pos);
  }

  /** The five type keywords scan to their own token kinds. */
  lemma TypeKeywordKind(d: Dialect, ty: string)
    requires ty == "int" || ty == "void" || ty == "boolean" || ty == "double" || ty == "String"
    ensures var k := WordTypeAsWritten(d, ty);
            k == TokenType.Int || k == TokenType.Void || k == TokenType.Boolean
            || k == TokenType.Double || k == TokenType.String
  {
  }

  /** A statement opened by a type keyword that no identifier, `[` or `(` follows fails
      at that keyword. */
  lemma TypeKeywordStatement(d: Dialect, ts: seq<Token>, pos: nat)
    requires pos + 1 < |ts| && ts[pos + 1].kind == TokenType.Inherited
    requires var k := ts[pos].kind;
             k == TokenType.Int || k == TokenType.Void || k == TokenType.Boolean
             || k == TokenType.Double || k == TokenType.String
    ensures ParseStmt(d, ts, pos) == Err(ParseError("Unexpected token: " + Text.JsonQuote(ts[pos].value), ts[pos].line))
  {
    TypeKeywordIsExpression(d, ts, pos);
    TypeKeywordPrimary(d, ts, pos);
    PrimaryFailureRises(d, OrLevel, ts, pos);
    assert ParseExpr(d, ts, pos) == ParseAssignment(d, ts, pos);
  }

  lemma TypeKeywordIsExpression(d: Dialect, ts: seq<Token>, pos: nat)
    requires pos + 1 < |ts| && ts[pos + 1].kind == TokenType.Inherited
    requires var k := ts[pos].kind;
             k == TokenType.Int || k == TokenType.Void || k == TokenType.Boolean
             || k == TokenType.Double || k == TokenType.String
    ensures ParseStmt(d, ts, pos) == ParseExprStmt(d, ts, pos)
  {
    assert Classify(ts, pos) == ExpressionForm;
  }

  lemma TypeKeywordPrimary(d: Dialect, ts: seq<Token>, pos: nat)
    requires pos < |ts|
    requires var k := ts[pos].kind;
             k == TokenType.Int || k == TokenType.Void || k == TokenType.Boolean
             || k == TokenType.Double || k == TokenType.String
    ensures ParsePrimary(d, ts, pos) == Err(ParseError("Unexpected token: " + Text.JsonQuote(ts[pos].value), ts[pos].line))
  {
  }

  lemma IntIsKeyword(d: Dialect)
    ensures WordTypeAsWritten(d, "int") == TokenType.Int
  {
    assert KeywordType(d, "int") == Some(TokenType.Int);
  }

  /** The optional parts of a statement are present exactly when their leading token
      is: the value of a return, the `else` branch (for `= expr` in a declaration see
      `Parsing.VarDeclTail`). */
  lemma ReturnValuePresent(d: Dialect, ts: seq<Token>, pos: nat)
    requires pos < |ts| && ParseReturn(d, ts, pos).Ok?
    ensures ParseReturn(d, ts, pos).value.node.argument.None? <==> Is(ts, pos + 1, TokenType.Semicolon)
  {
    assert ParseReturnArgument(d, ts, pos + 1).Ok?;
  }

  lemma ElsePresent(d: Dialect, ts: seq<Token>, pos: nat)
    requires pos <= |ts| && ParseElse(d, ts, pos).Ok?
    ensures ParseElse(d, ts, pos).value.node.Some? <==> Is(ts, pos, TokenType.Else)
  {
  }

  /** An empty parameter or argument list is exactly `()`: a list that does not close
      at once holds at least one element. */
  lemma ParamListEmpty(ts: seq<Token>, pos: nat)
    requires pos <= |ts| && ParseParamList(ts, pos).Ok?
    ensures ParseParamList(ts, pos).value.node == [] <==> Is(ts, pos, TokenType.CloseParen)
  {
  }

  lemma ArgumentsEmpty(d: Dialect, ts: seq<Token>, pos: nat)
    requires pos < |ts| && ParseArguments(d, ts, pos).Ok?
    ensures ParseArguments(d, ts, pos).value.node == [] <==> ts[pos].kind == TokenType.CloseParen
  {
  }

  /** `break` and `continue` succeed exactly when a semicolon follows them. */
  lemma JumpNeedsSemicolon(ts: seq<Token>, pos: nat)
    requires pos < |ts|
    ensures ParseBreak(ts, pos).Ok? <==> Is(ts, pos + 1, TokenType.Semicolon)
    ensures ParseContinue(ts, pos).Ok? <==> Is(ts, pos + 1, TokenType.Semicolon)
  {
  }

  /** A name becomes a postfix expression exactly when `++` or `--` follows it. */
  lemma PostfixWhenIncrementFollows(ts: seq<Token>, pos: nat)
    requires pos < |ts| && ParseName(ts, pos).Ok?
    ensures ParseName(ts, pos).value.node.PostfixExpr?
            <==> ts[pos + 1].kind in {TokenType.PlusPlus, TokenType.MinusMinus}
  {
  }

  /** An integer literal token becomes a numeric literal holding the value of its digits
      when a double holds that value exactly; a longer literal is outside the model. */
  lemma IntegerLiteralParsed(d: Dialect, ts: seq<Token>, pos: nat)
    requires pos < |ts| && ts[pos].kind == TokenType.IntegerLiteral
    requires |ts[pos].value| > 0 && forall i :: 0 <= i < |ts[pos].value| ==> '0' <= ts[pos].value[i] <= '9'
    ensures IsExactInteger(Text.DigitsValue(ts[pos].value)) ==>
              ParsePrimary(d, ts, pos) == Ok(Parsed(NumericLiteral(Text.DigitsValue(ts[pos].value), ts[pos].line), pos + 1))
    ensures !IsExactInteger(Text.DigitsValue(ts[pos].value)) ==>
              ParsePrimary(d, ts, pos).Err? && ParsePrimary(d, ts, pos).error.Unmodelled?
  {
  }
}
