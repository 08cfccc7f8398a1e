/** The recursive-descent / precedence-climbing expression parser.

    Every parse level is a pure function of the token list `ts` and a cursor
    `i`, returning the node it built with the cursor after it, or the token it
    failed on. The source's `while` loops become the tail-recursive helpers
    `BinaryLoop`, `PostfixLoop` and `ParamLoop`, whose extra argument is the
    loop's accumulated left-hand side.

    Termination: every level either consumes a token or hands the same cursor
    to a level of lower rank, and `ParseValue` consumes or fails; so the pair
    (tokens remaining, rank) decreases on every call. */
module Parser {
  import opened Tokens
  import opened Ast
  import opened Cursor

  /** The token `t` lets a precedence-climbing loop with minimum `min` go on:
      a ternary `?` or a binary operator of precedence at least `min`. */
  predicate Continues(g: Grammar, t: Token, min: int) {
    || (t.kind == TernaryQuestion && g.ternaryPrecedence >= min)
    || (t.kind == BinaryOp && g.precedence(t.script) >= min)
  }

  /** A binary or ternary expression whose operators outside parentheses have
      precedence at least `min`. On success it consumed at least one token, built a
      well-formed tree, and stopped at a token that cannot continue it. */
  function ParseBinary(g: Grammar, ts: seq<Token>, i: nat, min: int): (r: Result<(Expr, nat)>)
    requires g.Valid() && ValidInput(g, ts) && i <= |ts|
    ensures r.Ok? ==> i < r.value.1 <= |ts|
    ensures r.Ok? ==> Wf(g, r.value.0)
    ensures r.Ok? ==> !Continues(g, Peek(ts, r.value.1, 0), min)
    decreases |ts| - i, 5
  {
    var u :- ParseUnary(g, ts, i);
    BinaryLoop(g, ts, u.1, min, u.0)
  }

  /** The precedence-climbing loop over the left-hand side `lhs` parsed so far.
      A `?` is fused into the loop: the left-hand side becomes the condition,
      both branches are parsed one level above the ternary precedence, and a
      `:` must separate them. A binary operator parses its right operand one
      level above its own precedence, which makes equal precedences associate
      to the left. An operator below `min` ends the loop unconsumed. */
  function BinaryLoop(g: Grammar, ts: seq<Token>, i: nat, min: int, lhs: Expr): (r: Result<(Expr, nat)>)
    requires g.Valid() && ValidInput(g, ts) && 0 < i <= |ts| && Wf(g, lhs)
    ensures r.Ok? ==> i <= r.value.1 <= |ts|
    ensures r.Ok? ==> Wf(g, r.value.0)
    ensures r.Ok? ==> !Continues(g, Peek(ts, r.value.1, 0), min)
    decreases |ts| - i, 6
  {
    var op := Peek(ts, i, 0);
    if op.kind == TernaryQuestion then
      if g.ternaryPrecedence >= min then
        var branches :- ParseTernaryBranches(g, ts, i);
        BinaryLoop(g, ts, branches.2, min, TernaryOperator(op, lhs, branches.0, branches.1))
      else
        Ok((lhs, i))
    else if op.kind == BinaryOp then
      var prec := g.precedence(op.script);
      if prec >= min then
        var rhs :- ParseBinary(g, ts, Advance(ts, i).1, prec + 1);
        BinaryLoop(g, ts, rhs.1, min, BinaryOperator(op, lhs, rhs.0))
      else
        Ok((lhs, i))
    else
      Ok((lhs, i))
  }

  /** The part of a ternary after its condition: `?`, the branch taken when
      the condition holds, a required `:`, and the other branch. Both branches
      are parsed one level above the ternary precedence. */
  function ParseTernaryBranches(g: Grammar, ts: seq<Token>, i: nat): (r: Result<(Expr, Expr, nat)>)
    requires g.Valid() && ValidInput(g, ts) && i <= |ts|
    ensures r.Ok? ==> i < r.value.2 <= |ts|
    ensures r.Ok? ==> Wf(g, r.value.0) && Wf(g, r.value.1)
    decreases |ts| - i, 0
  {
    var q :- Require(ts, i, TernaryQuestion);
    var ifTrue :- ParseBinary(g, ts, q.1, g.ternaryPrecedence + 1);
    var colon :- Require(ts, ifTrue.1, TernaryColon);
    var ifFalse :- ParseBinary(g, ts, colon.1, g.ternaryPrecedence + 1);
    Ok((ifTrue.0, ifFalse.0, ifFalse.1))
  }

  /** A chain of prefix unary operators applied to a postfix expression; the
      operators nest to the right and their operand never extends over a
      binary operator. On success the parse stops at a token that is not a
      postfix operator, and a unary operator at the cursor becomes the root. */
  function ParseUnary(g: Grammar, ts: seq<Token>, i: nat): (r: Result<(Expr, nat)>)
    requires g.Valid() && ValidInput(g, ts) && i <= |ts|
    ensures r.Ok? ==> i < r.value.1 <= |ts|
    ensures r.Ok? ==> Wf(g, r.value.0)
    ensures r.Ok? ==> !g.isPostfix(Peek(ts, r.value.1, 0).kind)
    ensures r.Ok? && g.isUnary(Peek(ts, i, 0).script) ==>
              r.value.0.UnaryOperator? && r.value.0.op == Peek(ts, i, 0)
    decreases |ts| - i, 4
  {
    var next := Peek(ts, i, 0);
    if g.isUnary(next.script) then
      var a := Advance(ts, i);
      var operand :- ParseUnary(g, ts, a.1);
      Ok((UnaryOperator(next, operand.0), operand.1))
    else
      ParsePostfix(g, ts, i)
  }

  /** A primary value followed by any number of calls `(...)` and member
      accesses `.name`. */
  function ParsePostfix(g: Grammar, ts: seq<Token>, i: nat): (r: Result<(Expr, nat)>)
    requires g.Valid() && ValidInput(g, ts) && i <= |ts|
    ensures r.Ok? ==> i < r.value.1 <= |ts|
    ensures r.Ok? ==> Wf(g, r.value.0)
    ensures r.Ok? ==> !g.isPostfix(Peek(ts, r.value.1, 0).kind)
    decreases |ts| - i, 3
  {
    var v :- ParseValue(g, ts, i);
    PostfixLoop(g, ts, v.1, v.0)
  }

  /** The postfix loop over the left-hand side `lhs` built so far. A `(` turns
      `lhs` into the callee of a call; a `.` must be followed by an identifier,
      and becomes a method name when the token after that identifier is `(`
      and a field access otherwise; any other postfix operator fails. A method
      name is only ever left in `lhs` in front of a `(`. */
  function PostfixLoop(g: Grammar, ts: seq<Token>, i: nat, lhs: Expr): (r: Result<(Expr, nat)>)
    requires g.Valid() && ValidInput(g, ts) && 0 < i <= |ts|
    requires WfCallee(g, lhs) && (lhs.FunctionName? ==> Peek(ts, i, 0).kind == OpenParen)
    ensures r.Ok? ==> i <= r.value.1 <= |ts|
    ensures r.Ok? ==> Wf(g, r.value.0)
    ensures r.Ok? ==> !g.isPostfix(Peek(ts, r.value.1, 0).kind)
    decreases |ts| - i, 1
  {
    var next := Peek(ts, i, 0);
    if !g.isPostfix(next.kind) then
      Ok((lhs, i))
    else if next.kind == OpenParen then
      var params :- ParseParameterList(g, ts, i);
      PostfixLoop(g, ts, params.1, FunctionCall(next, lhs, params.0))
    else if next.kind == Period then
      var dot := Advance(ts, i);
      var lookahead := Peek(ts, dot.1, 1);
      var name :- Require(ts, dot.1, Ident);
      var node := if lookahead.kind == OpenParen then FunctionName(lhs, name.0) else ObjectField(lhs, name.0);
      PostfixLoop(g, ts, name.1, node)
    else
      Fail(next)
  }

  /** A parenthesised, comma-separated argument list. On success the list
      began with `(` at the cursor and its last consumed token is `)`. */
  function ParseParameterList(g: Grammar, ts: seq<Token>, i: nat): (r: Result<(seq<Expr>, nat)>)
    requires g.Valid() && ValidInput(g, ts) && i <= |ts|
    ensures r.Ok? ==> i < r.value.1 <= |ts|
    ensures r.Ok? ==> Peek(ts, i, 0).kind == OpenParen && ts[r.value.1 - 1].kind == CloseParen
    ensures r.Ok? ==> forall a <- r.value.0 :: Wf(g, a)
    decreases |ts| - i, 0
  {
    var open :- Require(ts, i, OpenParen);
    ParamLoop(g, ts, open.1, [])
  }

  /** The argument loop: stop at `)`, otherwise parse one argument and require
      it to be followed by `,` (consumed) or `)` (left for the next round).
      Arguments are appended to `acc` in source order. */
  function ParamLoop(g: Grammar, ts: seq<Token>, i: nat, acc: seq<Expr>): (r: Result<(seq<Expr>, nat)>)
    requires g.Valid() && ValidInput(g, ts) && i <= |ts|
    requires forall a <- acc :: Wf(g, a)
    ensures r.Ok? ==> i < r.value.1 <= |ts| && ts[r.value.1 - 1].kind == CloseParen
    ensures r.Ok? ==> |acc| <= |r.value.0| && r.value.0[..|acc|] == acc
    ensures r.Ok? ==> forall a <- r.value.0 :: Wf(g, a)
    decreases |ts| - i, 7
  {
    var close := Optional(ts, i, CloseParen);
    if close.0 then
      Ok((acc, close.1))
    else
      var arg :- ParseBinary(g, ts, i, 0);
      var comma := Optional(ts, arg.1, Comma);
      if !comma.0 && Peek(ts, arg.1, 0).kind != CloseParen then
        Fail(Peek(ts, arg.1, 0))
      else
        ParamLoop(g, ts, comma.1, acc + [arg.0])
  }

  /** A primary value: a parenthesised expression, a number constant, a
      special identifier, an XML value with its key, an identifier or a string.
      Anything else fails with the token at the cursor. */
  function ParseValue(g: Grammar, ts: seq<Token>, i: nat): (r: Result<(Expr, nat)>)
    requires g.Valid() && ValidInput(g, ts) && i <= |ts|
    ensures r.Ok? ==> i < r.value.1 <= |ts|
    ensures r.Ok? ==> Wf(g, r.value.0)
    ensures !IsPrimaryStart(g, Peek(ts, i, 0).kind) ==> r == Fail(Peek(ts, i, 0))
    decreases |ts| - i, 2
  {
    var next := Peek(ts, i, 0);
    if next.kind == OpenParen then
      ParseParenthesis(g, ts, i)
    else if g.isNumber(next.kind) then
      var a := Advance(ts, i);
      Ok((NumberConstant(a.0), a.1))
    else if next.kind == SpecialIdent then
      var a := Advance(ts, i);
      Ok((SpecialIdentifier(a.0), a.1))
    else if next.kind == XmlVal then
      var a := Advance(ts, i);
      var key :- Require(ts, a.1, XmlValKey);
      Ok((XmlValue(a.0, key.0), key.1))
    else if next.kind == Ident then
      var a := Advance(ts, i);
      Ok((Identifier(a.0), a.1))
    else if next.kind == Str then
      var a := Advance(ts, i);
      Ok((StringLiteral(a.0), a.1))
    else
      Fail(next)
  }

  /** The categories a primary value can start with. */
  predicate IsPrimaryStart(g: Grammar, k: Kind) {
    k == OpenParen || g.isNumber(k) || k == SpecialIdent || k == XmlVal || k == Ident || k == Str
  }

  /** `( expression )`: the inner expression itself, with no node for the
      parentheses; the closing `)` is required. */
  function ParseParenthesis(g: Grammar, ts: seq<Token>, i: nat): (r: Result<(Expr, nat)>)
    requires g.Valid() && ValidInput(g, ts) && i <= |ts|
    ensures r.Ok? ==> i < r.value.1 <= |ts|
    ensures r.Ok? ==> Peek(ts, i, 0).kind == OpenParen && ts[r.value.1 - 1].kind == CloseParen
    ensures r.Ok? ==> ParseBinary(g, ts, i + 1, 0) == Ok((r.value.0, r.value.1 - 1))
    decreases |ts| - i, 1
  {
    var open :- Require(ts, i, OpenParen);
    var inner :- ParseBinary(g, ts, open.1, 0);
    var close :- Require(ts, inner.1, CloseParen);
    Ok((inner.0, close.1))
  }

  /** The entry point: one expression from the start of the input. Tokens
      after that expression are not examined. */
  function Parse(g: Grammar, ts: seq<Token>): (r: Result<Expr>)
    requires g.Valid() && ValidInput(g, ts)
    ensures r.Ok? <==> ParseBinary(g, ts, 0, 0).Ok?
    ensures r.Ok? ==> Wf(g, r.value) && r.value == ParseBinary(g, ts, 0, 0).value.0
    ensures r.Fail? ==> r.token == ParseBinary(g, ts, 0, 0).token
  {
    var e :- ParseBinary(g, ts, 0, 0);
    Ok(e.0)
  }

  /** The non-failing entry point: absent exactly when `Parse` fails, and the
      same tree otherwise. */
  function TryParse(g: Grammar, ts: seq<Token>): (r: Option<Expr>)
    requires g.Valid() && ValidInput(g, ts)
    ensures r.None? <==> Parse(g, ts).Fail?
    ensures r.Some? ==> r.value == Parse(g, ts).value
  {
    match Parse(g, ts)
    case Ok(e) => Some(e)
    case Fail(_) => None
  }
}
