/** One step of each parse level, stated on its own so that proofs about
    whole parses can be assembled from small pieces. */
module Steps {
  import opened Tokens
  import opened Ast
  import opened Cursor
  import opened Parser

  lemma BinaryStart(g: Grammar, ts: seq<Token>, i: nat, min: int, e: Expr, j: nat)
    requires g.Valid() && ValidInput(g, ts) && i <= |ts|
    requires ParseUnary(g, ts, i) == Ok((e, j))
    ensures 0 < j <= |ts| && Wf(g, e)
    ensures ParseBinary(g, ts, i, min) == BinaryLoop(g, ts, j, min, e)
  {
  }

  lemma BinaryStop(g: Grammar, ts: seq<Token>, i: nat, min: int, lhs: Expr)
    requires g.Valid() && ValidInput(g, ts) && 0 < i <= |ts| && Wf(g, lhs)
    requires !Continues(g, Peek(ts, i, 0), min)
    ensures BinaryLoop(g, ts, i, min, lhs) == Ok((lhs, i))
  {
  }

  lemma BinaryOperatorStep(g: Grammar, ts: seq<Token>, i: nat, min: int, lhs: Expr, rhs: Expr, j: nat)
    requires g.Valid() && ValidInput(g, ts) && 0 < i <= |ts| && Wf(g, lhs)
    requires Peek(ts, i, 0).kind == BinaryOp && g.precedence(Peek(ts, i, 0).script) >= min
    requires i < |ts| && ParseBinary(g, ts, i + 1, g.precedence(Peek(ts, i, 0).script) + 1) == Ok((rhs, j))
    ensures i < j <= |ts| && Wf(g, BinaryOperator(ts[i], lhs, rhs))
    ensures BinaryLoop(g, ts, i, min, lhs) == BinaryLoop(g, ts, j, min, BinaryOperator(ts[i], lhs, rhs))
  {
    hide ParseBinary, ParseTernaryBranches, ParseUnary, ParsePostfix, PostfixLoop, ParseParameterList, ParamLoop, ParseValue, ParseParenthesis;
  }

  lemma TernaryBranchesStep(g: Grammar, ts: seq<Token>, i: nat, ifTrue: Expr, m: nat, ifFalse: Expr, j: nat)
    requires g.Valid() && ValidInput(g, ts) && i <= |ts|
    requires Peek(ts, i, 0).kind == TernaryQuestion
    requires i < |ts| && ParseBinary(g, ts, i + 1, g.ternaryPrecedence + 1) == Ok((ifTrue, m))
    requires Peek(ts, m, 0).kind == TernaryColon
    requires m < |ts| && ParseBinary(g, ts, m + 1, g.ternaryPrecedence + 1) == Ok((ifFalse, j))
    ensures ParseTernaryBranches(g, ts, i) == Ok((ifTrue, ifFalse, j))
  {
    hide ParseBinary, BinaryLoop, ParseUnary, ParsePostfix, PostfixLoop, ParseParameterList, ParamLoop, ParseValue, ParseParenthesis;
    assert Require(ts, i, TernaryQuestion) == Ok((ts[i], i + 1));
    assert Require(ts, m, TernaryColon) == Ok((ts[m], m + 1));
  }

  lemma TernaryStep(g: Grammar, ts: seq<Token>, i: nat, min: int, lhs: Expr,
                    ifTrue: Expr, m: nat, ifFalse: Expr, j: nat)
    requires g.Valid() && ValidInput(g, ts) && 0 < i <= |ts| && Wf(g, lhs)
    requires Peek(ts, i, 0).kind == TernaryQuestion && g.ternaryPrecedence >= min
    requires i < |ts| && ParseBinary(g, ts, i + 1, g.ternaryPrecedence + 1) == Ok((ifTrue, m))
    requires Peek(ts, m, 0).kind == TernaryColon
    requires m < |ts| && ParseBinary(g, ts, m + 1, g.ternaryPrecedence + 1) == Ok((ifFalse, j))
    ensures i < j <= |ts| && Wf(g, TernaryOperator(ts[i], lhs, ifTrue, ifFalse))
    ensures BinaryLoop(g, ts, i, min, lhs) == BinaryLoop(g, ts, j, min, TernaryOperator(ts[i], lhs, ifTrue, ifFalse))
  {
    hide ParseBinary, ParseTernaryBranches, ParseUnary, ParsePostfix, PostfixLoop, ParseParameterList, ParamLoop, ParseValue, ParseParenthesis;
    TernaryBranchesStep(g, ts, i, ifTrue, m, ifFalse, j);
  }

  /** A `?` at or above the minimum, with its branches parsed, makes the
      loop's left-hand side the condition of a ternary and goes on. */
  lemma TernaryLoopStep(g: Grammar, ts: seq<Token>, i: nat, min: int, lhs: Expr,
                        ifTrue: Expr, ifFalse: Expr, j: nat)
    requires g.Valid() && ValidInput(g, ts) && 0 < i <= |ts| && Wf(g, lhs)
    requires Peek(ts, i, 0).kind == TernaryQuestion && g.ternaryPrecedence >= min
    requires ParseTernaryBranches(g, ts, i) == Ok((ifTrue, ifFalse, j))
    ensures i < |ts| && i < j <= |ts| && Wf(g, TernaryOperator(ts[i], lhs, ifTrue, ifFalse))
    ensures BinaryLoop(g, ts, i, min, lhs) == BinaryLoop(g, ts, j, min, TernaryOperator(ts[i], lhs, ifTrue, ifFalse))
  {
    hide ParseBinary, ParseTernaryBranches, ParseUnary, ParsePostfix, PostfixLoop, ParseParameterList, ParamLoop, ParseValue, ParseParenthesis;
  }

  lemma UnaryOperatorStep(g: Grammar, ts: seq<Token>, i: nat, x: Expr, j: nat)
    requires g.Valid() && ValidInput(g, ts) && i <= |ts|
    requires g.isUnary(Peek(ts, i, 0).script)
    requires i < |ts| && ParseUnary(g, ts, i + 1) == Ok((x, j))
    ensures ParseUnary(g, ts, i) == Ok((UnaryOperator(ts[i], x), j))
  {
  }

  lemma UnaryToPostfix(g: Grammar, ts: seq<Token>, i: nat)
    requires g.Valid() && ValidInput(g, ts) && i <= |ts|
    requires !g.isUnary(Peek(ts, i, 0).script)
    ensures ParseUnary(g, ts, i) == ParsePostfix(g, ts, i)
  {
  }

  lemma PostfixStart(g: Grammar, ts: seq<Token>, i: nat, v: Expr, j: nat)
    requires g.Valid() && ValidInput(g, ts) && i <= |ts|
    requires ParseValue(g, ts, i) == Ok((v, j))
    ensures 0 < j <= |ts| && Wf(g, v)
    ensures ParsePostfix(g, ts, i) == PostfixLoop(g, ts, j, v)
  {
  }

  lemma PostfixStop(g: Grammar, ts: seq<Token>, i: nat, lhs: Expr)
    requires g.Valid() && ValidInput(g, ts) && 0 < i <= |ts|
    requires WfCallee(g, lhs) && (lhs.FunctionName? ==> Peek(ts, i, 0).kind == OpenParen)
    requires !g.isPostfix(Peek(ts, i, 0).kind)
    ensures PostfixLoop(g, ts, i, lhs) == Ok((lhs, i))
  {
  }

  lemma PostfixCallStep(g: Grammar, ts: seq<Token>, i: nat, lhs: Expr, args: seq<Expr>, j: nat)
    requires g.Valid() && ValidInput(g, ts) && 0 < i <= |ts|
    requires WfCallee(g, lhs) && Peek(ts, i, 0).kind == OpenParen
    requires ParseParameterList(g, ts, i) == Ok((args, j))
    ensures i < |ts| && i < j <= |ts|
    ensures WfCallee(g, FunctionCall(ts[i], lhs, args))
    ensures PostfixLoop(g, ts, i, lhs) == PostfixLoop(g, ts, j, FunctionCall(ts[i], lhs, args))
  {
  }

  lemma PostfixDotStep(g: Grammar, ts: seq<Token>, i: nat, lhs: Expr)
    requires g.Valid() && ValidInput(g, ts) && 0 < i <= |ts| && Wf(g, lhs)
    requires Peek(ts, i, 0).kind == Period && Peek(ts, i + 1, 0).kind == Ident
    ensures i + 2 < |ts|
    ensures PostfixLoop(g, ts, i, lhs) ==
      PostfixLoop(g, ts, i + 2,
        if ts[i + 2].kind == OpenParen then FunctionName(lhs, ts[i + 1]) else ObjectField(lhs, ts[i + 1]))
  {
    assert Peek(ts, i + 1, 1) == Peek(ts, i + 2, 0);
  }

  lemma ValueParenthesis(g: Grammar, ts: seq<Token>, i: nat, e: Expr, j: nat)
    requires g.Valid() && ValidInput(g, ts) && i < |ts|
    requires ts[i].kind == OpenParen
    requires ParseBinary(g, ts, i + 1, 0) == Ok((e, j)) && Peek(ts, j, 0).kind == CloseParen
    ensures j < |ts| && ParseValue(g, ts, i) == Ok((e, j + 1))
  {
  }

  lemma ParameterListStart(g: Grammar, ts: seq<Token>, i: nat)
    requires g.Valid() && ValidInput(g, ts) && i < |ts|
    requires ts[i].kind == OpenParen
    ensures ParseParameterList(g, ts, i) == ParamLoop(g, ts, i + 1, [])
  {
  }

  lemma ParamClose(g: Grammar, ts: seq<Token>, i: nat, acc: seq<Expr>)
    requires g.Valid() && ValidInput(g, ts) && i < |ts|
    requires forall a <- acc :: Wf(g, a)
    requires ts[i].kind == CloseParen
    ensures ParamLoop(g, ts, i, acc) == Ok((acc, i + 1))
  {
  }

  lemma ParamArgument(g: Grammar, ts: seq<Token>, i: nat, acc: seq<Expr>, a: Expr, j: nat)
    requires g.Valid() && ValidInput(g, ts) && i <= |ts|
    requires forall x <- acc :: Wf(g, x)
    requires Peek(ts, i, 0).kind != CloseParen
    requires ParseBinary(g, ts, i, 0) == Ok((a, j))
    ensures Wf(g, a) && j <= |ts|
    ensures Peek(ts, j, 0).kind == Comma ==> j < |ts| && ParamLoop(g, ts, i, acc) == ParamLoop(g, ts, j + 1, acc + [a])
    ensures Peek(ts, j, 0).kind == CloseParen ==> ParamLoop(g, ts, i, acc) == ParamLoop(g, ts, j, acc + [a])
    ensures Peek(ts, j, 0).kind != Comma && Peek(ts, j, 0).kind != CloseParen ==>
              ParamLoop(g, ts, i, acc) == Fail(Peek(ts, j, 0))
  {
  }

  /** A unary operator at the cursor followed by its operand, then a token
      that ends the expression, is a whole binary-level expression. */
  lemma UnaryNode(g: Grammar, ts: seq<Token>, i: nat, x: Expr, d: nat)
    requires g.Valid() && ValidInput(g, ts) && i < |ts| && g.isUnary(ts[i].script)
    requires ParseUnary(g, ts, i + 1) == Ok((x, d))
    requires !Continues(g, Peek(ts, d, 0), 0)
    ensures ParseBinary(g, ts, i, 0) == Ok((UnaryOperator(ts[i], x), d))
  {
    hide *;
    UnaryOperatorStep(g, ts, i, x, d);
    BinaryStart(g, ts, i, 0, UnaryOperator(ts[i], x), d);
    BinaryStop(g, ts, d, 0, UnaryOperator(ts[i], x));
  }

  /** A unary-level operand, a binary operator, and a right operand parsed
      one level above that operator's precedence, then a token that ends the
      expression, make one binary node. */
  lemma BinaryNode(g: Grammar, ts: seq<Token>, i: nat, l: Expr, b: nat, r: Expr, d: nat)
    requires g.Valid() && ValidInput(g, ts) && i <= |ts|
    requires ParseUnary(g, ts, i) == Ok((l, b))
    requires b < |ts| && ts[b].kind == BinaryOp && g.precedence(ts[b].script) >= 0
    requires ParseBinary(g, ts, b + 1, g.precedence(ts[b].script) + 1) == Ok((r, d))
    requires !Continues(g, Peek(ts, d, 0), 0)
    ensures ParseBinary(g, ts, i, 0) == Ok((BinaryOperator(ts[b], l, r), d))
  {
    hide *;
    BinaryStart(g, ts, i, 0, l, b);
    BinaryOperatorStep(g, ts, b, 0, l, r, d);
    BinaryStop(g, ts, d, 0, BinaryOperator(ts[b], l, r));
  }

  /** A unary-level condition, `?`, a branch, `:` and a branch, then a token
      that ends the expression, make one ternary node. */
  lemma TernaryNode(g: Grammar, ts: seq<Token>, i: nat, c: Expr, b: nat,
                    t: Expr, m: nat, f: Expr, d: nat)
    requires g.Valid() && ValidInput(g, ts) && i <= |ts|
    requires ParseUnary(g, ts, i) == Ok((c, b))
    requires b < |ts| && ts[b].kind == TernaryQuestion && g.ternaryPrecedence >= 0
    requires ParseBinary(g, ts, b + 1, g.ternaryPrecedence + 1) == Ok((t, m))
    requires m < |ts| && ts[m].kind == TernaryColon
    requires ParseBinary(g, ts, m + 1, g.ternaryPrecedence + 1) == Ok((f, d))
    requires !Continues(g, Peek(ts, d, 0), 0)
    ensures ParseBinary(g, ts, i, 0) == Ok((TernaryOperator(ts[b], c, t, f), d))
  {
    hide *;
    BinaryStart(g, ts, i, 0, c, b);
    TernaryStep(g, ts, b, 0, c, t, m, f, d);
    BinaryStop(g, ts, d, 0, TernaryOperator(ts[b], c, t, f));
  }

  /** A postfix chain that has reached `(` followed by an argument list
      becomes a call of what the chain built so far. */
  lemma CallNode(g: Grammar, ts: seq<Token>, i: nat, c: Expr, k: nat, args: seq<Expr>, j: nat)
    requires g.Valid() && ValidInput(g, ts) && i <= |ts|
    requires 0 < k < |ts| && ts[k].kind == OpenParen && WfCallee(g, c)
    requires ParsePostfix(g, ts, i) == PostfixLoop(g, ts, k, c)
    requires ParamLoop(g, ts, k + 1, []) == Ok((args, j))
    ensures k < j <= |ts| && WfCallee(g, FunctionCall(ts[k], c, args))
    ensures ParsePostfix(g, ts, i) == PostfixLoop(g, ts, j, FunctionCall(ts[k], c, args))
  {
    hide *;
    ParameterListStart(g, ts, k);
    PostfixCallStep(g, ts, k, c, args, j);
  }
}
