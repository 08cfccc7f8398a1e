/** The shapes of tree the parser builds from small, typical inputs: how
    operators associate, how ternaries chain, how the postfix chain and the
    argument lists read, and which token each kind of malformed input fails
    on. Every lemma is generic over the operator tables and places its
    tokens anywhere in a longer token list. */
module Shapes {
  import opened Tokens
  import opened Ast
  import opened Cursor
  import opened Parser
  import opened Steps

  /** A token that lets a loop with a higher minimum go on also lets a loop
      with a lower minimum go on. */
  lemma ContinuesMonotone(g: Grammar, t: Token, lo: int, hi: int)
    requires lo <= hi && Continues(g, t, hi)
    ensures Continues(g, t, lo)
  {
  }

  // ---------------------------------------------------------------------
  // Binary operators

  /** An operator whose precedence is below the loop's minimum, or a `?` when
      the ternary precedence is, ends the loop without being consumed. */
  lemma BelowMinimumStops(g: Grammar, ts: seq<Token>, i: nat, min: int, lhs: Expr)
    requires g.Valid() && ValidInput(g, ts) && 0 < i <= |ts| && Wf(g, lhs)
    requires Peek(ts, i, 0).kind == BinaryOp || Peek(ts, i, 0).kind == TernaryQuestion
    requires Peek(ts, i, 0).kind == BinaryOp ==> g.precedence(Peek(ts, i, 0).script) < min
    requires Peek(ts, i, 0).kind == TernaryQuestion ==> g.ternaryPrecedence < min
    ensures BinaryLoop(g, ts, i, min, lhs) == Ok((lhs, i))
  {
    BinaryStop(g, ts, i, min, lhs);
  }

  /** The right operand of `a op1 b` at precedence p1 stops in front of an
      operator `op2` of precedence p2 <= p1. */
  lemma {:induction false} OperandStops(g: Grammar, ts: seq<Token>, j: nat, b: Expr, k: nat)
    requires g.Valid() && ValidInput(g, ts) && j < |ts|
    requires ts[j].kind == BinaryOp
    requires ParseUnary(g, ts, j + 1) == Ok((b, k))
    requires k < |ts| && ts[k].kind == BinaryOp && g.precedence(ts[k].script) <= g.precedence(ts[j].script)
    ensures ParseBinary(g, ts, j + 1, g.precedence(ts[j].script) + 1) == Ok((b, k))
  {
    hide ParseBinary, BinaryLoop, ParseTernaryBranches, ParseUnary, ParsePostfix, PostfixLoop, ParseParameterList, ParamLoop, ParseValue, ParseParenthesis;
    var p1 := g.precedence(ts[j].script);
    BinaryStart(g, ts, j + 1, p1 + 1, b, k);
    BinaryStop(g, ts, k, p1 + 1, b);
  }

  /** `a op1 b op2 c` with op2 not binding tighter than op1 groups to the
      left, as `(a op1 b) op2 c`: equal precedences associate left. */
  lemma {:induction false} LeftAssociative(g: Grammar, ts: seq<Token>, i: nat, min: int,
                                           a: Expr, j: nat, b: Expr, k: nat, c: Expr, d: nat)
    requires g.Valid() && ValidInput(g, ts) && i <= |ts|
    requires ParseUnary(g, ts, i) == Ok((a, j))
    requires j < |ts| && ts[j].kind == BinaryOp && g.precedence(ts[j].script) >= min
    requires ParseUnary(g, ts, j + 1) == Ok((b, k))
    requires k < |ts| && ts[k].kind == BinaryOp
    requires min <= g.precedence(ts[k].script) <= g.precedence(ts[j].script)
    requires ParseBinary(g, ts, k + 1, g.precedence(ts[k].script) + 1) == Ok((c, d))
    requires !Continues(g, Peek(ts, d, 0), min)
    ensures ParseBinary(g, ts, i, min) ==
              Ok((BinaryOperator(ts[k], BinaryOperator(ts[j], a, b), c), d))
  {
    hide ParseBinary, BinaryLoop, ParseTernaryBranches, ParseUnary, ParsePostfix, PostfixLoop, ParseParameterList, ParamLoop, ParseValue, ParseParenthesis;
    var ab := BinaryOperator(ts[j], a, b);
    BinaryStart(g, ts, i, min, a, j);
    OperandStops(g, ts, j, b, k);
    BinaryOperatorStep(g, ts, j, min, a, b, k);
    BinaryOperatorStep(g, ts, k, min, ab, c, d);
    BinaryStop(g, ts, d, min, BinaryOperator(ts[k], ab, c));
  }

  /** `a op1 b op2 c` with op2 binding tighter than op1 groups to the right,
      as `a op1 (b op2 c)`. */
  lemma {:induction false} TighterRight(g: Grammar, ts: seq<Token>, i: nat, min: int,
                                        a: Expr, j: nat, b: Expr, k: nat, c: Expr, d: nat)
    requires g.Valid() && ValidInput(g, ts) && i <= |ts|
    requires ParseUnary(g, ts, i) == Ok((a, j))
    requires j < |ts| && ts[j].kind == BinaryOp && g.precedence(ts[j].script) >= min
    requires ParseUnary(g, ts, j + 1) == Ok((b, k))
    requires k < |ts| && ts[k].kind == BinaryOp
    requires g.precedence(ts[k].script) > g.precedence(ts[j].script)
    requires ParseBinary(g, ts, k + 1, g.precedence(ts[k].script) + 1) == Ok((c, d))
    requires !Continues(g, Peek(ts, d, 0), min)
    ensures ParseBinary(g, ts, i, min) ==
              Ok((BinaryOperator(ts[j], a, BinaryOperator(ts[k], b, c)), d))
  {
    hide ParseBinary, BinaryLoop, ParseTernaryBranches, ParseUnary, ParsePostfix, PostfixLoop, ParseParameterList, ParamLoop, ParseValue, ParseParenthesis;
    var p1 := g.precedence(ts[j].script);
    var bc := BinaryOperator(ts[k], b, c);
    BinaryStart(g, ts, i, min, a, j);
    BinaryStart(g, ts, j + 1, p1 + 1, b, k);
    BinaryOperatorStep(g, ts, k, p1 + 1, b, c, d);
    if Continues(g, Peek(ts, d, 0), p1 + 1) {
      ContinuesMonotone(g, Peek(ts, d, 0), min, p1 + 1);
    }
    BinaryStop(g, ts, d, p1 + 1, bc);
    BinaryOperatorStep(g, ts, j, min, a, bc, d);
    BinaryStop(g, ts, d, min, BinaryOperator(ts[j], a, bc));
  }

  // ---------------------------------------------------------------------
  // Ternary

  /** A ternary whose true branch is not followed by `:` fails with the token
      found there instead. */
  lemma {:induction false} MissingColon(g: Grammar, ts: seq<Token>, i: nat, min: int, lhs: Expr, t: Expr, m: nat)
    requires g.Valid() && ValidInput(g, ts) && 0 < i < |ts| && Wf(g, lhs)
    requires ts[i].kind == TernaryQuestion && g.ternaryPrecedence >= min
    requires ParseBinary(g, ts, i + 1, g.ternaryPrecedence + 1) == Ok((t, m))
    requires Peek(ts, m, 0).kind != TernaryColon
    ensures BinaryLoop(g, ts, i, min, lhs) == Fail(Peek(ts, m, 0))
  {
    hide ParseBinary, ParseUnary, ParsePostfix, PostfixLoop, ParseParameterList, ParamLoop, ParseValue, ParseParenthesis;
    assert Require(ts, i, TernaryQuestion) == Ok((ts[i], i + 1));
    assert ParseTernaryBranches(g, ts, i) == Fail(Peek(ts, m, 0));
  }

  /** An unparenthesised `?` inside the true branch ends that branch (its
      precedence is not above the ternary's), so the `:` the outer ternary
      requires is missing and the parse fails on the inner `?`:
      `a ? b ? c : d : e` is rejected. */
  lemma {:induction false} NestedQuestionFails(g: Grammar, ts: seq<Token>, i: nat, min: int,
                                               a: Expr, j: nat, b: Expr, m: nat)
    requires g.Valid() && ValidInput(g, ts) && i <= |ts|
    requires ParseUnary(g, ts, i) == Ok((a, j))
    requires j < |ts| && ts[j].kind == TernaryQuestion && g.ternaryPrecedence >= min
    requires ParseUnary(g, ts, j + 1) == Ok((b, m))
    requires m < |ts| && ts[m].kind == TernaryQuestion
    ensures ParseBinary(g, ts, i, min) == Fail(ts[m])
  {
    hide ParseBinary, BinaryLoop, ParseTernaryBranches, ParseUnary, ParsePostfix, PostfixLoop, ParseParameterList, ParamLoop, ParseValue, ParseParenthesis;
    BinaryStart(g, ts, i, min, a, j);
    BinaryStart(g, ts, j + 1, g.ternaryPrecedence + 1, b, m);
    BinaryStop(g, ts, m, g.ternaryPrecedence + 1, b);
    MissingColon(g, ts, j, min, a, b, m);
  }

  /** `a ? b : c ? d : e` nests to the left, as `(a ? b : c) ? d : e`: the
      false branch is parsed one level above the ternary precedence, so it
      stops in front of the second `?`, and the loop then makes the whole
      first ternary the condition of the second. */
  lemma {:induction false} TernaryChainLeft(g: Grammar, ts: seq<Token>, i: nat, min: int,
                                            a: Expr, j: nat, b: Expr, m: nat, c: Expr, n: nat,
                                            d: Expr, e: Expr, k: nat)
    requires g.Valid() && ValidInput(g, ts) && i <= |ts| && g.ternaryPrecedence >= min
    requires ParseUnary(g, ts, i) == Ok((a, j))
    requires j < |ts| && ts[j].kind == TernaryQuestion
    requires ParseBinary(g, ts, j + 1, g.ternaryPrecedence + 1) == Ok((b, m))
    requires m < |ts| && ts[m].kind == TernaryColon
    requires ParseUnary(g, ts, m + 1) == Ok((c, n))
    requires n < |ts| && ts[n].kind == TernaryQuestion
    requires ParseTernaryBranches(g, ts, n) == Ok((d, e, k))
    requires !Continues(g, Peek(ts, k, 0), min)
    ensures ParseBinary(g, ts, i, min) ==
              Ok((TernaryOperator(ts[n], TernaryOperator(ts[j], a, b, c), d, e), k))
  {
    hide ParseBinary, BinaryLoop, ParseTernaryBranches, ParseUnary, ParsePostfix, PostfixLoop, ParseParameterList, ParamLoop, ParseValue, ParseParenthesis;
    var tp := g.ternaryPrecedence;
    var abc := TernaryOperator(ts[j], a, b, c);
    BinaryStart(g, ts, i, min, a, j);
    BinaryStart(g, ts, m + 1, tp + 1, c, n);
    BinaryStop(g, ts, n, tp + 1, c);
    TernaryStep(g, ts, j, min, a, b, m, c, n);
    TernaryLoopStep(g, ts, n, min, abc, d, e, k);
    BinaryStop(g, ts, k, min, TernaryOperator(ts[n], abc, d, e));
  }

  // ---------------------------------------------------------------------
  // Unary

  /** A unary operator applies to the value right after it, not to a binary
      expression: `!a + b` is `(!a) + b`. */
  lemma {:induction false} UnaryBindsTighter(g: Grammar, ts: seq<Token>, i: nat,
                                             x: Expr, j: nat, r: Expr, d: nat)
    requires g.Valid() && ValidInput(g, ts) && i < |ts| && g.isUnary(ts[i].script)
    requires ParseUnary(g, ts, i + 1) == Ok((x, j))
    requires j < |ts| && ts[j].kind == BinaryOp && g.precedence(ts[j].script) >= 0
    requires ParseBinary(g, ts, j + 1, g.precedence(ts[j].script) + 1) == Ok((r, d))
    requires !Continues(g, Peek(ts, d, 0), 0)
    ensures ParseBinary(g, ts, i, 0) == Ok((BinaryOperator(ts[j], UnaryOperator(ts[i], x), r), d))
  {
    hide ParseBinary, BinaryLoop, ParseTernaryBranches, ParseUnary, ParsePostfix, PostfixLoop, ParseParameterList, ParamLoop, ParseValue, ParseParenthesis;
    UnaryOperatorStep(g, ts, i, x, j);
    BinaryNode(g, ts, i, UnaryOperator(ts[i], x), j, r, d);
  }

  /** Consecutive unary operators nest to the right: `- ! a` is `-(!a)`. */
  lemma {:induction false} UnaryNestsRight(g: Grammar, ts: seq<Token>, i: nat, x: Expr, j: nat)
    requires g.Valid() && ValidInput(g, ts) && i + 1 < |ts|
    requires g.isUnary(ts[i].script) && g.isUnary(ts[i + 1].script)
    requires ParseUnary(g, ts, i + 2) == Ok((x, j))
    ensures ParseUnary(g, ts, i) == Ok((UnaryOperator(ts[i], UnaryOperator(ts[i + 1], x)), j))
  {
    hide ParseBinary, BinaryLoop, ParseTernaryBranches, ParseUnary, ParsePostfix, PostfixLoop, ParseParameterList, ParamLoop, ParseValue, ParseParenthesis;
    UnaryOperatorStep(g, ts, i + 1, x, j);
    UnaryOperatorStep(g, ts, i, UnaryOperator(ts[i + 1], x), j);
  }

  // ---------------------------------------------------------------------
  // Postfix chain

  /** `v . name` followed by anything but `(` or another postfix operator is a
      field access. */
  lemma {:induction false} FieldAccess(g: Grammar, ts: seq<Token>, i: nat, v: Expr, j: nat)
    requires g.Valid() && ValidInput(g, ts) && i <= |ts|
    requires ParseValue(g, ts, i) == Ok((v, j))
    requires j + 2 < |ts| && ts[j].kind == Period && ts[j + 1].kind == Ident
    requires !g.isPostfix(ts[j + 2].kind)
    ensures ParsePostfix(g, ts, i) == Ok((ObjectField(v, ts[j + 1]), j + 2))
  {
    hide ParseBinary, BinaryLoop, ParseTernaryBranches, ParseUnary, ParsePostfix, PostfixLoop, ParseParameterList, ParamLoop, ParseValue, ParseParenthesis;
    PostfixStart(g, ts, i, v, j);
    PostfixDotStep(g, ts, j, v);
    PostfixStop(g, ts, j + 2, ObjectField(v, ts[j + 1]));
  }

  /** `v . name (args)`: the `(` after the name makes it a method name, which
      becomes the callee of the call that follows. */
  lemma {:induction false} MethodCall(g: Grammar, ts: seq<Token>, i: nat, v: Expr, j: nat,
                                      args: seq<Expr>, d: nat)
    requires g.Valid() && ValidInput(g, ts) && i <= |ts|
    requires ParseValue(g, ts, i) == Ok((v, j))
    requires j + 2 < |ts| && ts[j].kind == Period && ts[j + 1].kind == Ident
    requires ts[j + 2].kind == OpenParen
    requires ParamLoop(g, ts, j + 3, []) == Ok((args, d))
    requires !g.isPostfix(Peek(ts, d, 0).kind)
    ensures ParsePostfix(g, ts, i) ==
              Ok((FunctionCall(ts[j + 2], FunctionName(v, ts[j + 1]), args), d))
  {
    hide ParseBinary, BinaryLoop, ParseTernaryBranches, ParseUnary, ParsePostfix, PostfixLoop, ParseParameterList, ParamLoop, ParseValue, ParseParenthesis;
    var callee := FunctionName(v, ts[j + 1]);
    PostfixStart(g, ts, i, v, j);
    PostfixDotStep(g, ts, j, v);
    CallNode(g, ts, i, callee, j + 2, args, d);
    PostfixStop(g, ts, d, FunctionCall(ts[j + 2], callee, args));
  }

  /** `v . f . h` nests to the left: the second access applies to the first. */
  lemma {:induction false} FieldChainLeft(g: Grammar, ts: seq<Token>, i: nat, v: Expr, j: nat)
    requires g.Valid() && ValidInput(g, ts) && i <= |ts|
    requires ParseValue(g, ts, i) == Ok((v, j))
    requires j + 4 < |ts| && ts[j].kind == Period && ts[j + 1].kind == Ident
    requires ts[j + 2].kind == Period && ts[j + 3].kind == Ident
    requires !g.isPostfix(ts[j + 4].kind)
    ensures ParsePostfix(g, ts, i) == Ok((ObjectField(ObjectField(v, ts[j + 1]), ts[j + 3]), j + 4))
  {
    hide ParseBinary, BinaryLoop, ParseTernaryBranches, ParseUnary, ParsePostfix, PostfixLoop, ParseParameterList, ParamLoop, ParseValue, ParseParenthesis;
    var f := ObjectField(v, ts[j + 1]);
    PostfixStart(g, ts, i, v, j);
    PostfixDotStep(g, ts, j, v);
    PostfixDotStep(g, ts, j + 2, f);
    PostfixStop(g, ts, j + 4, ObjectField(f, ts[j + 3]));
  }

  /** A `.` must be followed by an identifier; otherwise the chain fails on
      the token found after the `.`. */
  lemma {:induction false} DotNeedsIdentifier(g: Grammar, ts: seq<Token>, i: nat, v: Expr, j: nat)
    requires g.Valid() && ValidInput(g, ts) && i <= |ts|
    requires ParseValue(g, ts, i) == Ok((v, j))
    requires j < |ts| && ts[j].kind == Period && Peek(ts, j + 1, 0).kind != Ident
    ensures ParsePostfix(g, ts, i) == Fail(Peek(ts, j + 1, 0))
  {
    hide ParsePostfix, ParseValue, ParseParameterList;
    PostfixStart(g, ts, i, v, j);
    assert Require(ts, j + 1, Ident) == Fail(Peek(ts, j + 1, 0));
  }

  /** A postfix operator other than `(` and `.` fails with that operator. */
  lemma {:induction false} OtherPostfixFails(g: Grammar, ts: seq<Token>, i: nat, v: Expr, j: nat)
    requires g.Valid() && ValidInput(g, ts) && i <= |ts|
    requires ParseValue(g, ts, i) == Ok((v, j))
    requires j < |ts| && g.isPostfix(ts[j].kind) && ts[j].kind != OpenParen && ts[j].kind != Period
    ensures ParsePostfix(g, ts, i) == Fail(ts[j])
  {
    hide ParsePostfix, ParseValue, ParseParameterList;
    PostfixStart(g, ts, i, v, j);
  }

  // ---------------------------------------------------------------------
  // Parameter lists

  /** `()` is a list of no arguments. */
  lemma EmptyArguments(g: Grammar, ts: seq<Token>, i: nat)
    requires g.Valid() && ValidInput(g, ts) && i + 1 < |ts|
    requires ts[i].kind == OpenParen && ts[i + 1].kind == CloseParen
    ensures ParseParameterList(g, ts, i) == Ok(([], i + 2))
  {
    ParameterListStart(g, ts, i);
    ParamClose(g, ts, i + 1, []);
  }

  /** A list must open with `(`; otherwise it fails on the token found. */
  lemma MissingOpenParen(g: Grammar, ts: seq<Token>, i: nat)
    requires g.Valid() && ValidInput(g, ts) && i <= |ts|
    requires Peek(ts, i, 0).kind != OpenParen
    ensures ParseParameterList(g, ts, i) == Fail(Peek(ts, i, 0))
  {
  }

  /** An argument followed by anything but `,` or `)` fails with that token. */
  lemma {:induction false} BadSeparator(g: Grammar, ts: seq<Token>, i: nat, a: Expr, j: nat)
    requires g.Valid() && ValidInput(g, ts) && i + 1 < |ts|
    requires ts[i].kind == OpenParen && ts[i + 1].kind != CloseParen
    requires ParseBinary(g, ts, i + 1, 0) == Ok((a, j))
    requires Peek(ts, j, 0).kind != Comma && Peek(ts, j, 0).kind != CloseParen
    ensures ParseParameterList(g, ts, i) == Fail(Peek(ts, j, 0))
  {
    hide ParseBinary, BinaryLoop, ParseTernaryBranches, ParseUnary, ParsePostfix, PostfixLoop, ParseParameterList, ParamLoop, ParseValue, ParseParenthesis;
    ParameterListStart(g, ts, i);
    ParamArgument(g, ts, i + 1, [], a, j);
  }

  /** `(x, y)`: two arguments, in the order written. */
  lemma {:induction false} TwoArguments(g: Grammar, ts: seq<Token>, i: nat, x: Expr, j: nat, y: Expr, k: nat)
    requires g.Valid() && ValidInput(g, ts) && i + 1 < |ts|
    requires ts[i].kind == OpenParen && ts[i + 1].kind != CloseParen
    requires ParseBinary(g, ts, i + 1, 0) == Ok((x, j))
    requires j + 1 < |ts| && ts[j].kind == Comma && ts[j + 1].kind != CloseParen
    requires ParseBinary(g, ts, j + 1, 0) == Ok((y, k))
    requires k < |ts| && ts[k].kind == CloseParen
    ensures ParseParameterList(g, ts, i) == Ok(([x, y], k + 1))
  {
    hide ParseBinary, BinaryLoop, ParseTernaryBranches, ParseUnary, ParsePostfix, PostfixLoop, ParseParameterList, ParamLoop, ParseValue, ParseParenthesis;
    ParameterListStart(g, ts, i);
    ParamArgument(g, ts, i + 1, [], x, j);
    assert [] + [x] == [x];
    ParamArgument(g, ts, j + 1, [x], y, k);
    assert [x] + [y] == [x, y];
    ParamClose(g, ts, k, [x, y]);
  }

  // ---------------------------------------------------------------------
  // Primary values

  /** An XML value must be followed at once by its key; otherwise it fails on
      the token found there. */
  lemma XmlValueNeedsKey(g: Grammar, ts: seq<Token>, i: nat)
    requires g.Valid() && ValidInput(g, ts) && i < |ts|
    requires ts[i].kind == XmlVal && !g.isNumber(XmlVal)
    requires Peek(ts, i + 1, 0).kind != XmlValKey
    ensures ParseValue(g, ts, i) == Fail(Peek(ts, i + 1, 0))
  {
  }

  /** A parenthesised expression is the inner tree itself: no node records
      the parentheses. */
  lemma ParenthesesVanish(g: Grammar, ts: seq<Token>, i: nat, e: Expr, j: nat)
    requires g.Valid() && ValidInput(g, ts) && i < |ts| && ts[i].kind == OpenParen
    requires ParseBinary(g, ts, i + 1, 0) == Ok((e, j))
    ensures Peek(ts, j, 0).kind == CloseParen ==> j < |ts| && ParseValue(g, ts, i) == Ok((e, j + 1))
    ensures Peek(ts, j, 0).kind != CloseParen ==> ParseValue(g, ts, i) == Fail(Peek(ts, j, 0))
  {
    if Peek(ts, j, 0).kind == CloseParen {
      ValueParenthesis(g, ts, i, e, j);
    }
  }
}
