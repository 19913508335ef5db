/** The syntax tree the parser builds and the evaluator walks. */
module Ast {
  import opened Tokens

  datatype Node =
    | Num(value: int)
    | Var(name: string)
    | UnaryOp(operand: Node)                        // the only unary operator built is MINUS
    | BinOp(left: Node, op: Kind, right: Node)
    | Assign(name: string, rhs: Node)
    | IfThen(condition: Node, trueStmt: Node)
    | IfThenElse(condition: Node, trueStmt: Node, falseStmt: Node)
    | While(condition: Node, body: seq<Node>)

  /** An expression: what `expr`, `term` and `factor` build. */
  predicate IsExpr(n: Node) {
    match n
    case Num(_) => true
    case Var(_) => true
    case UnaryOp(x) => IsExpr(x)
    case BinOp(l, op, r) => IsBinaryOperator(op) && IsExpr(l) && IsExpr(r)
    case _ => false
  }

  /** A statement: expressions stand in every expression position. */
  predicate WellFormed(n: Node) {
    match n
    case Assign(_, rhs) => IsExpr(rhs)
    case IfThen(c, t) => IsExpr(c) && WellFormed(t)
    case IfThenElse(c, t, f) => IsExpr(c) && WellFormed(t) && WellFormed(f)
    case While(c, body) => IsExpr(c) && forall i | 0 <= i < |body| :: WellFormed(body[i])
    case _ => IsExpr(n)
  }

  predicate AllWellFormed(ss: seq<Node>) {
    forall i | 0 <= i < |ss| :: WellFormed(ss[i])
  }

  /** A statement whose last part is an `if` still waiting for an `else`. */
  predicate OpenIf(n: Node) {
    match n
    case IfThen(_, _) => true
    case IfThenElse(_, _, f) => OpenIf(f)
    case _ => false
  }

  /** Every `else` in the tree belongs to the innermost `if` before it. */
  predicate ElseInnermost(n: Node) {
    match n
    case IfThen(_, t) => ElseInnermost(t)
    case IfThenElse(_, t, f) => !OpenIf(t) && ElseInnermost(t) && ElseInnermost(f)
    case While(_, body) => forall i | 0 <= i < |body| :: ElseInnermost(body[i])
    case _ => true
  }
}
