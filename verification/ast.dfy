/** The syntax tree the parser builds, and the shape every successful parse has. */
module Ast {
  import opened Tokens

  /** One node kind per AST class of the source. Every node keeps the token(s)
      it was built from; structural tokens (parentheses, commas, colons, the
      end of input) leave no node behind. */
  datatype Expr =
    | Identifier(token: Token)
    | ObjectField(receiver: Expr, field: Token)
    | FunctionName(receiver: Expr, name: Token)
    | FunctionCall(paren: Token, callee: Expr, args: seq<Expr>)
    | NumberConstant(token: Token)
    | StringLiteral(token: Token)
    | SpecialIdentifier(token: Token)
    | XmlValue(token: Token, key: Token)
    | UnaryOperator(op: Token, operand: Expr)
    | BinaryOperator(op: Token, left: Expr, right: Expr)
    | TernaryOperator(question: Token, cond: Expr, ifTrue: Expr, ifFalse: Expr)

  /** A complete expression as the parser can produce it: each leaf carries a
      token of the category its node stands for (tested in the parser's order,
      so a category that also counts as a number constant becomes a number),
      each operator carries an operator token, and a `FunctionName` occurs only
      as the callee of a `FunctionCall`. */
  predicate Wf(g: Grammar, e: Expr)
    decreases e, 0
  {
    match e
    case Identifier(t) => t.kind == Ident && !g.isNumber(Ident)
    case NumberConstant(t) => t.kind != OpenParen && g.isNumber(t.kind)
    case SpecialIdentifier(t) => t.kind == SpecialIdent && !g.isNumber(SpecialIdent)
    case XmlValue(t, k) => t.kind == XmlVal && !g.isNumber(XmlVal) && k.kind == XmlValKey
    case StringLiteral(t) => t.kind == Str && !g.isNumber(Str)
    case ObjectField(r, f) => f.kind == Ident && Wf(g, r)
    case FunctionName(_, _) => false
    case FunctionCall(p, c, args) =>
      && p.kind == OpenParen
      && WfCallee(g, c)
      && forall a <- args :: Wf(g, a)
    case UnaryOperator(op, x) => g.isUnary(op.script) && Wf(g, x)
    case BinaryOperator(op, l, r) => op.kind == BinaryOp && Wf(g, l) && Wf(g, r)
    case TernaryOperator(q, c, t, f) =>
      q.kind == TernaryQuestion && Wf(g, c) && Wf(g, t) && Wf(g, f)
  }

  /** What may stand before a call's argument list: a complete expression or a
      method name `receiver.name`. */
  predicate WfCallee(g: Grammar, e: Expr)
    decreases e, 1
  {
    match e
    case FunctionName(r, n) => n.kind == Ident && Wf(g, r)
    case _ => Wf(g, e)
  }

  /** Node count, used as a termination measure for proofs over trees. */
  function Size(e: Expr): (n: nat)
    ensures n >= 1
    decreases e
  {
    match e
    case Identifier(_) => 1
    case NumberConstant(_) => 1
    case StringLiteral(_) => 1
    case SpecialIdentifier(_) => 1
    case XmlValue(_, _) => 1
    case ObjectField(r, _) => 1 + Size(r)
    case FunctionName(r, _) => 1 + Size(r)
    case FunctionCall(_, c, args) => 1 + Size(c) + SizeArgs(args)
    case UnaryOperator(_, x) => 1 + Size(x)
    case BinaryOperator(_, l, r) => 1 + Size(l) + Size(r)
    case TernaryOperator(_, c, t, f) => 1 + Size(c) + Size(t) + Size(f)
  }

  function SizeArgs(args: seq<Expr>): nat
    decreases args
  {
    if |args| == 0 then 0 else Size(args[0]) + SizeArgs(args[1..])
  }
}
