// The syntax tree the parser builds and the interpreter walks (src/lib/ast.ts). Every
// node carries its source line. Fields the source marks optional are Options; a field
// the source types as an Identifier node is a Name.

module Ast {
  import opened Common

  /** An Identifier node used where the source requires one: the callee of `new` and
      the operand of a postfix or prefix increment. */
  datatype Name = Name(symbol: string, line: nat)

  /** The operators a CompoundAssignmentExpr may carry. */
  datatype CompoundOp = AddAssign | SubAssign | MulAssign | DivAssign

  /** The sixteen members of the `Expr` union. */
  datatype Expr =
    | BinaryExpr(op: string, left: Expr, right: Expr, line: nat)
    | LogicalExpr(op: string, left: Expr, right: Expr, line: nat)
    | UnaryExpr(op: string, argument: Expr, line: nat)
    | Identifier(symbol: string, line: nat)
    | NumericLiteral(number: int, line: nat)
    | DoubleLiteral(text: string, line: nat)
    | BooleanLiteral(bvalue: bool, line: nat)
    | StringLiteral(svalue: string, line: nat)
    | AssignmentExpr(assignee: Expr, rhs: Expr, line: nat)
    | NullLiteral(line: nat)
    | MemberExpr(obj: Expr, property: Expr, computed: bool, line: nat)
    | CallExpr(callee: Expr, args: seq<Expr>, line: nat)
    | NewExpr(newCallee: Name, newArgs: seq<Expr>, line: nat)
    | ArrayCreationExpr(elementType: string, size: Option<Expr>, values: Option<seq<Expr>>, line: nat)
    | PostfixExpr(postOp: string, operand: Name, line: nat)
    | CompoundAssignmentExpr(target: Expr, compoundOp: CompoundOp, operand2: Expr, line: nat)

  datatype Param = Param(paramType: string, name: string, line: nat)

  /** The twelve members of the `Stmt` union. */
  datatype Stmt =
    | ClassDeclaration(className: string, members: seq<Stmt>, line: nat)
    | MethodDeclaration(returnType: string, methodName: string, params: seq<Param>, body: seq<Stmt>, line: nat)
    | VariableDeclaration(varType: string, varName: string, init: Option<Expr>, line: nat)
    | ExpressionStatement(expression: Expr, line: nat)
    | BlockStatement(stmts: seq<Stmt>, line: nat)
    | ForStatement(forInit: Option<Stmt>, forTest: Option<Expr>, update: Option<Expr>, forBody: Stmt, line: nat)
    | WhileStatement(test: Expr, loopBody: Stmt, line: nat)
    | DoWhileStatement(doTest: Expr, doBody: Stmt, line: nat)
    | IfStatement(ifTest: Expr, consequent: Stmt, alternate: Option<Stmt>, line: nat)
    | ReturnStatement(argument: Option<Expr>, line: nat)
    | BreakStatement(line: nat)
    | ContinueStatement(line: nat)

  datatype Program = Program(body: seq<Stmt>, line: nat)

  /** Node kinds declared next to the unions but not members of `Expr`: nothing
      builds them and the interpreter has no case for them. */
  datatype DetachedExpr =
    | PreIncrementExpr(preOp: string, preOperand: Name, line: nat)
    | ConditionalExpr(condTest: Expr, whenTrue: Expr, whenFalse: Expr, line: nat)
    | InstanceofExpr(expression: Expr, typeName: string, line: nat)

  /** The `kind` tag of an expression node. */
  function ExprKind(e: Expr): (k: string)
    ensures |k| > 0
  {
    match e
    case BinaryExpr(_, _, _, _) => "BinaryExpr"
    case LogicalExpr(_, _, _, _) => "LogicalExpr"
    case UnaryExpr(_, _, _) => "UnaryExpr"
    case Identifier(_, _) => "Identifier"
    case NumericLiteral(_, _) => "NumericLiteral"
    case DoubleLiteral(_, _) => "DoubleLiteral"
    case BooleanLiteral(_, _) => "BooleanLiteral"
    case StringLiteral(_, _) => "StringLiteral"
    case AssignmentExpr(_, _, _) => "AssignmentExpr"
    case NullLiteral(_) => "NullLiteral"
    case MemberExpr(_, _, _, _) => "MemberExpr"
    case CallExpr(_, _, _) => "CallExpr"
    case NewExpr(_, _, _) => "NewExpr"
    case ArrayCreationExpr(_, _, _, _) => "ArrayCreationExpr"
    case PostfixExpr(_, _, _) => "PostfixExpr"
    case CompoundAssignmentExpr(_, _, _, _) => "CompoundAssignmentExpr"
  }

  /** The `kind` tag of a statement node. */
  function StmtKind(s: Stmt): (k: string)
    ensures |k| > 0
  {
    match s
    case ClassDeclaration(_, _, _) => "ClassDeclaration"
    case MethodDeclaration(_, _, _, _, _) => "MethodDeclaration"
    case VariableDeclaration(_, _, _, _) => "VariableDeclaration"
    case ExpressionStatement(_, _) => "ExpressionStatement"
    case BlockStatement(_, _) => "BlockStatement"
    case ForStatement(_, _, _, _, _) => "ForStatement"
    case WhileStatement(_, _, _) => "WhileStatement"
    case DoWhileStatement(_, _, _) => "DoWhileStatement"
    case IfStatement(_, _, _, _) => "IfStatement"
    case ReturnStatement(_, _) => "ReturnStatement"
    case BreakStatement(_) => "BreakStatement"
    case ContinueStatement(_) => "ContinueStatement"
  }
}
