/** The parser reads back what the printer writes: for every printable tree
    `e`, parsing `Print(e)` followed by any closing token yields `e` and stops
    right after it. The lemmas follow the parse levels, each one stating what
    its level returns on a printed expression placed anywhere in a longer
    token list. */
module RoundTrip {
  import opened Tokens
  import opened Ast
  import opened Cursor
  import opened Parser
  import opened Printer
  import opened Steps

  /** The first printed token of a callee or expression opens a value: it is
      not a unary operator and not `)`. */
  lemma {:induction false} FirstToken(g: Grammar, e: Expr)
    requires Delimits(g) && WfCallee(g, e) && Printable(g, e)
    ensures |Print(e)| >= 1 && |PrintCallee(e)| >= 1
    ensures !g.isUnary(Print(e)[0].script) && Print(e)[0].kind != CloseParen
    ensures !g.isUnary(PrintCallee(e)[0].script) && PrintCallee(e)[0].kind != CloseParen
    decreases e
  {
    match e
    case ObjectField(r, _) =>
      FirstToken(g, r);
    case FunctionName(r, _) =>
      FirstToken(g, r);
    case FunctionCall(_, c, _) =>
      FirstToken(g, c);
    case _ =>
  }

  /** The parts of a printed unary node, laid out in `ts` from `i`, read back
      as a parenthesised primary value. */
  lemma {:induction false} UnaryParts(g: Grammar, op: Token, x: Expr, ts: seq<Token>, i: nat, d: nat)
    requires Delimits(g) && ValidInput(g, ts)
    requires g.isUnary(op.script) && Wf(g, x) && Printable(g, x)
    requires d == i + 2 + |Print(x)| && d < |ts|
    requires ts[i] == OpenTok && ts[i + 1] == op && At(ts, i + 2, Print(x)) && ts[d] == CloseTok
    ensures ParseValue(g, ts, i) == Ok((UnaryOperator(op, x), d + 1))
    decreases 1 + Size(x), 0
  {
    hide ParseUnary, ParseBinary, BinaryLoop, ParsePostfix, PostfixLoop, ParamLoop, ParseValue;
    hide Print, PrintArgs, PrintCallee, At, Wf, WfCallee, Printable;
    UnaryRoundTrip(g, x, ts, i + 2);
    UnaryNode(g, ts, i + 1, x, d);
    ValueParenthesis(g, ts, i, UnaryOperator(op, x), d);
  }

  /** The parts of a printed binary node read back as a parenthesised
      primary value. */
  lemma {:induction false} BinaryParts(g: Grammar, op: Token, l: Expr, r: Expr, ts: seq<Token>, i: nat, b: nat, d: nat)
    requires Delimits(g) && ValidInput(g, ts)
    requires op.kind == BinaryOp && g.precedence(op.script) >= 0
    requires Wf(g, l) && Wf(g, r) && Printable(g, l) && Printable(g, r)
    requires b == i + 1 + |Print(l)| && d == b + 1 + |Print(r)| && d < |ts|
    requires ts[i] == OpenTok && At(ts, i + 1, Print(l)) && ts[b] == op
    requires At(ts, b + 1, Print(r)) && ts[d] == CloseTok
    ensures ParseValue(g, ts, i) == Ok((BinaryOperator(op, l, r), d + 1))
    decreases 1 + Size(l) + Size(r), 0
  {
    hide ParseUnary, ParseBinary, BinaryLoop, ParsePostfix, PostfixLoop, ParamLoop, ParseValue;
    hide Print, PrintArgs, PrintCallee, At, Wf, WfCallee, Printable;
    UnaryRoundTrip(g, l, ts, i + 1);
    BinaryRoundTrip(g, r, ts, b + 1, g.precedence(op.script) + 1);
    BinaryNode(g, ts, i + 1, l, b, r, d);
    ValueParenthesis(g, ts, i, BinaryOperator(op, l, r), d);
  }

  /** The parts of a printed ternary node read back as a parenthesised
      primary value. */
  lemma {:induction false} TernaryParts(g: Grammar, q: Token, c: Expr, t: Expr, f: Expr,
                                        ts: seq<Token>, i: nat, b: nat, m: nat, d: nat)
    requires Delimits(g) && ValidInput(g, ts)
    requires q.kind == TernaryQuestion && g.ternaryPrecedence >= 0
    requires Wf(g, c) && Wf(g, t) && Wf(g, f)
    requires Printable(g, c) && Printable(g, t) && Printable(g, f)
    requires b == i + 1 + |Print(c)| && m == b + 1 + |Print(t)| && d == m + 1 + |Print(f)| && d < |ts|
    requires ts[i] == OpenTok && At(ts, i + 1, Print(c)) && ts[b] == q
    requires At(ts, b + 1, Print(t)) && ts[m] == ColonTok
    requires At(ts, m + 1, Print(f)) && ts[d] == CloseTok
    ensures ParseValue(g, ts, i) == Ok((TernaryOperator(q, c, t, f), d + 1))
    decreases 1 + Size(c) + Size(t) + Size(f), 0
  {
    hide ParseUnary, ParseBinary, BinaryLoop, ParsePostfix, PostfixLoop, ParamLoop, ParseValue;
    hide Print, PrintArgs, PrintCallee, At, Wf, WfCallee, Printable;
    UnaryRoundTrip(g, c, ts, i + 1);
    BinaryRoundTrip(g, t, ts, b + 1, g.ternaryPrecedence + 1);
    BinaryRoundTrip(g, f, ts, m + 1, g.ternaryPrecedence + 1);
    TernaryNode(g, ts, i + 1, c, b, t, m, f, d);
    ValueParenthesis(g, ts, i, TernaryOperator(q, c, t, f), d);
  }

  /** A printed unary node reads back as a parenthesised primary value. */
  lemma {:induction false} UnaryParen(g: Grammar, e: Expr, ts: seq<Token>, i: nat)
    requires Delimits(g) && ValidInput(g, ts)
    requires e.UnaryOperator? && Wf(g, e) && Printable(g, e)
    requires At(ts, i, Print(e))
    ensures ParseValue(g, ts, i) == Ok((e, i + |Print(e)|))
    decreases Size(e), 1
  {
    hide ParseUnary, ParseBinary, BinaryLoop, ParsePostfix, PostfixLoop, ParamLoop, ParseValue;
    hide Print, PrintArgs, PrintCallee, At;
    UnaryLayout(ts, i, e);
    UnaryParts(g, e.op, e.operand, ts, i, i + 2 + |Print(e.operand)|);
  }

  /** A printed binary node reads back as a parenthesised primary value. */
  lemma {:induction false} BinaryParen(g: Grammar, e: Expr, ts: seq<Token>, i: nat)
    requires Delimits(g) && ValidInput(g, ts)
    requires e.BinaryOperator? && Wf(g, e) && Printable(g, e)
    requires At(ts, i, Print(e))
    ensures ParseValue(g, ts, i) == Ok((e, i + |Print(e)|))
    decreases Size(e), 1
  {
    hide ParseUnary, ParseBinary, BinaryLoop, ParsePostfix, PostfixLoop, ParamLoop, ParseValue;
    hide Print, PrintArgs, PrintCallee, At;
    BinaryLayout(ts, i, e);
    var b := i + 1 + |Print(e.left)|;
    BinaryParts(g, e.op, e.left, e.right, ts, i, b, b + 1 + |Print(e.right)|);
  }

  /** A printed ternary node reads back as a parenthesised primary value. */
  lemma {:induction false} TernaryParen(g: Grammar, e: Expr, ts: seq<Token>, i: nat)
    requires Delimits(g) && ValidInput(g, ts)
    requires e.TernaryOperator? && Wf(g, e) && Printable(g, e)
    requires At(ts, i, Print(e))
    ensures ParseValue(g, ts, i) == Ok((e, i + |Print(e)|))
    decreases Size(e), 1
  {
    hide ParseUnary, ParseBinary, BinaryLoop, ParsePostfix, PostfixLoop, ParamLoop, ParseValue;
    hide Print, PrintArgs, PrintCallee, At;
    TernaryLayout(ts, i, e);
    var b := i + 1 + |Print(e.cond)|;
    var m := b + 1 + |Print(e.ifTrue)|;
    TernaryParts(g, e.question, e.cond, e.ifTrue, e.ifFalse, ts, i, b, m, m + 1 + |Print(e.ifFalse)|);
  }

  /** A printed operator node reads back as a parenthesised primary value. */
  lemma {:induction false} ParenRoundTrip(g: Grammar, e: Expr, ts: seq<Token>, i: nat)
    requires Delimits(g) && ValidInput(g, ts)
    requires e.UnaryOperator? || e.BinaryOperator? || e.TernaryOperator?
    requires Wf(g, e) && Printable(g, e)
    requires At(ts, i, Print(e))
    ensures ParseValue(g, ts, i) == Ok((e, i + |Print(e)|))
    decreases Size(e), 2
  {
    if e.UnaryOperator? {
      UnaryParen(g, e, ts, i);
    } else if e.BinaryOperator? {
      BinaryParen(g, e, ts, i);
    } else {
      TernaryParen(g, e, ts, i);
    }
  }

  /** A printed leaf reads back as a primary value. */
  lemma LeafRoundTrip(g: Grammar, e: Expr, ts: seq<Token>, i: nat)
    requires g.Valid() && ValidInput(g, ts)
    requires e.Identifier? || e.NumberConstant? || e.StringLiteral? || e.SpecialIdentifier? || e.XmlValue?
    requires Wf(g, e)
    requires At(ts, i, Print(e))
    ensures ParseValue(g, ts, i) == Ok((e, i + |Print(e)|))
  {
    if e.XmlValue? {
      assert Print(e) == [e.token] + [e.key];
      AtSplit(ts, i, [e.token], [e.key]);
      AtOne(ts, i + 1, e.key);
      assert Require(ts, i + 1, XmlValKey) == Ok((e.key, i + 2));
    }
    AtFirst(ts, i, Print(e));
  }

  /** The parts of a printed field access or method name: the receiver's
      chain, then `.` and the name, told apart by the token that follows. */
  lemma {:induction false} MemberParts(g: Grammar, r: Expr, name: Token, ts: seq<Token>, i: nat, k: nat)
    requires Delimits(g) && ValidInput(g, ts)
    requires Wf(g, r) && Printable(g, r) && name.kind == Ident
    requires k == i + |Print(r)| && k + 2 < |ts|
    requires At(ts, i, Print(r)) && ts[k] == PeriodTok && ts[k + 1] == name
    ensures ParsePostfix(g, ts, i) ==
      PostfixLoop(g, ts, k + 2, if ts[k + 2].kind == OpenParen then FunctionName(r, name) else ObjectField(r, name))
    decreases 1 + Size(r), 2
  {
    assert !r.FunctionName? && WfCallee(g, r);
    hide ParseUnary, ParseBinary, BinaryLoop, ParsePostfix, PostfixLoop, ParamLoop, ParseValue;
    hide Print, PrintArgs, PrintCallee, At, Wf, WfCallee, Printable;
    ChainRoundTrip(g, r, ts, i);
    PostfixDotStep(g, ts, k, r);
  }

  /** A printed field access or method name read by the postfix level. */
  lemma {:induction false} ChainMember(g: Grammar, e: Expr, ts: seq<Token>, i: nat)
    requires Delimits(g) && ValidInput(g, ts)
    requires (e.ObjectField? || e.FunctionName?) && WfCallee(g, e) && Printable(g, e)
    requires At(ts, i, Print(e)) && i + |Print(e)| < |ts|
    requires e.FunctionName? <==> ts[i + |Print(e)|].kind == OpenParen
    ensures ParsePostfix(g, ts, i) == PostfixLoop(g, ts, i + |Print(e)|, e)
    decreases Size(e), 3
  {
    var r := e.receiver;
    var name := if e.ObjectField? then e.field else e.name;
    assert Wf(g, r) && Printable(g, r) && name.kind == Ident && Size(e) == 1 + Size(r);
    hide ParseUnary, ParseBinary, BinaryLoop, ParsePostfix, PostfixLoop, ParamLoop, ParseValue;
    MemberLayout(ts, i, e);
    MemberParts(g, r, name, ts, i, i + |Print(r)|);
  }

  /** The parts of a printed call: the callee's chain, then the argument
      list. */
  lemma {:induction false} CallParts(g: Grammar, p: Token, c: Expr, args: seq<Expr>,
                                     ts: seq<Token>, i: nat, k: nat, d: nat)
    requires Delimits(g) && ValidInput(g, ts)
    requires p.kind == OpenParen && WfCallee(g, c) && Printable(g, c)
    requires forall a <- args :: Wf(g, a) && Printable(g, a)
    requires k == i + |PrintCallee(c)| && d == k + 1 + |PrintArgs(args)| && d + 1 < |ts|
    requires At(ts, i, PrintCallee(c)) && ts[k] == p
    requires At(ts, k + 1, PrintArgs(args)) && ts[d] == CloseTok
    ensures ParsePostfix(g, ts, i) == PostfixLoop(g, ts, d + 1, FunctionCall(p, c, args))
    decreases 1 + Size(c) + SizeArgs(args), 2
  {
    hide ParseUnary, ParseBinary, BinaryLoop, ParsePostfix, PostfixLoop, ParamLoop, ParseValue;
    hide Print, PrintArgs, PrintCallee, At, Wf, WfCallee, Printable;
    CalleeRoundTrip(g, c, ts, i);
    assert ParsePostfix(g, ts, i) == PostfixLoop(g, ts, k, c);
    ArgsRoundTrip(g, args, [], ts, k + 1);
    assert [] + args == args;
    assert ParamLoop(g, ts, k + 1, []) == Ok((args, d + 1));
    assert 0 < k < |ts| && ts[k].kind == OpenParen;
    CallNode(g, ts, i, c, k, args, d + 1);
  }

  /** A printed call read by the postfix level. */
  lemma {:induction false} ChainCall(g: Grammar, e: Expr, ts: seq<Token>, i: nat)
    requires Delimits(g) && ValidInput(g, ts)
    requires e.FunctionCall? && Wf(g, e) && Printable(g, e)
    requires At(ts, i, Print(e)) && i + |Print(e)| < |ts|
    ensures ParsePostfix(g, ts, i) == PostfixLoop(g, ts, i + |Print(e)|, e)
    decreases Size(e), 3
  {
    hide ParseUnary, ParseBinary, BinaryLoop, ParsePostfix, PostfixLoop, ParamLoop, ParseValue;
    match e
    case FunctionCall(p, c, args) =>
      CallLayout(ts, i, e);
      var k := i + |PrintCallee(c)|;
      CallParts(g, p, c, args, ts, i, k, k + 1 + |PrintArgs(args)|);
  }

  /** The postfix level reads a printed callee or expression and leaves the
      postfix loop positioned right after it, with the printed tree as its
      left-hand side. A field access must not be followed by `(` (it would
      read as a method name), and a method name must be. */
  lemma {:induction false} ChainRoundTrip(g: Grammar, e: Expr, ts: seq<Token>, i: nat)
    requires Delimits(g) && ValidInput(g, ts)
    requires WfCallee(g, e) && Printable(g, e)
    requires At(ts, i, Print(e)) && i + |Print(e)| < |ts|
    requires e.FunctionName? ==> ts[i + |Print(e)|].kind == OpenParen
    requires e.ObjectField? ==> ts[i + |Print(e)|].kind != OpenParen
    ensures 0 < i + |Print(e)|
    ensures ParsePostfix(g, ts, i) == PostfixLoop(g, ts, i + |Print(e)|, e)
    decreases Size(e), 4
  {
    hide ParseUnary, ParseBinary, BinaryLoop, ParsePostfix, PostfixLoop, ParamLoop, ParseValue;
    FirstToken(g, e);
    var n := |Print(e)|;
    match e
    case ObjectField(_, _) =>
      ChainMember(g, e, ts, i);
    case FunctionName(_, _) =>
      ChainMember(g, e, ts, i);
    case FunctionCall(_, _, _) =>
      ChainCall(g, e, ts, i);
    case UnaryOperator(_, _) =>
      ParenRoundTrip(g, e, ts, i);
      PostfixStart(g, ts, i, e, i + n);
    case BinaryOperator(_, _, _) =>
      ParenRoundTrip(g, e, ts, i);
      PostfixStart(g, ts, i, e, i + n);
    case TernaryOperator(_, _, _, _) =>
      ParenRoundTrip(g, e, ts, i);
      PostfixStart(g, ts, i, e, i + n);
    case _ =>
      LeafRoundTrip(g, e, ts, i);
      PostfixStart(g, ts, i, e, i + n);
  }

  /** The postfix level reads a printed expression followed by a token that is
      not a postfix operator. */
  lemma {:induction false} PostfixRoundTrip(g: Grammar, e: Expr, ts: seq<Token>, i: nat)
    requires Delimits(g) && ValidInput(g, ts)
    requires Wf(g, e) && Printable(g, e)
    requires At(ts, i, Print(e)) && i + |Print(e)| < |ts|
    requires !g.isPostfix(ts[i + |Print(e)|].kind)
    ensures ParsePostfix(g, ts, i) == Ok((e, i + |Print(e)|))
    decreases Size(e), 5
  {
    hide ParseUnary, ParseBinary, BinaryLoop, ParsePostfix, PostfixLoop, ParamLoop, ParseValue;
    ChainRoundTrip(g, e, ts, i);
    PostfixStop(g, ts, i + |Print(e)|, e);
  }

  /** The unary level reads a printed expression followed by a token that is
      not a postfix operator. */
  lemma {:induction false} UnaryRoundTrip(g: Grammar, e: Expr, ts: seq<Token>, i: nat)
    requires Delimits(g) && ValidInput(g, ts)
    requires Wf(g, e) && Printable(g, e)
    requires At(ts, i, Print(e)) && i + |Print(e)| < |ts|
    requires !g.isPostfix(ts[i + |Print(e)|].kind)
    ensures ParseUnary(g, ts, i) == Ok((e, i + |Print(e)|))
    decreases Size(e), 6
  {
    hide ParseUnary, ParseBinary, BinaryLoop, ParsePostfix, PostfixLoop, ParamLoop, ParseValue;
    FirstToken(g, e);
    AtFirst(ts, i, Print(e));
    UnaryToPostfix(g, ts, i);
    PostfixRoundTrip(g, e, ts, i);
  }

  /** The binary level, at any minimum precedence, reads a printed expression
      followed by a closing token. */
  lemma {:induction false} BinaryRoundTrip(g: Grammar, e: Expr, ts: seq<Token>, i: nat, min: int)
    requires Delimits(g) && ValidInput(g, ts)
    requires Wf(g, e) && Printable(g, e)
    requires At(ts, i, Print(e)) && i + |Print(e)| < |ts|
    requires Closing(ts[i + |Print(e)|].kind)
    ensures ParseBinary(g, ts, i, min) == Ok((e, i + |Print(e)|))
    decreases Size(e), 7
  {
    hide ParseUnary, ParseBinary, BinaryLoop, ParsePostfix, PostfixLoop, ParamLoop, ParseValue;
    UnaryRoundTrip(g, e, ts, i);
    BinaryStart(g, ts, i, min, e, i + |Print(e)|);
    BinaryStop(g, ts, i + |Print(e)|, min, e);
  }

  /** A callee followed by its argument list's `(`. */
  lemma {:induction false} CalleeRoundTrip(g: Grammar, c: Expr, ts: seq<Token>, i: nat)
    requires Delimits(g) && ValidInput(g, ts)
    requires WfCallee(g, c) && Printable(g, c)
    requires At(ts, i, PrintCallee(c)) && i + |PrintCallee(c)| < |ts|
    requires ts[i + |PrintCallee(c)|].kind == OpenParen
    ensures 0 < i + |PrintCallee(c)|
    ensures ParsePostfix(g, ts, i) == PostfixLoop(g, ts, i + |PrintCallee(c)|, c)
    decreases Size(c), 8
  {
    hide ParseUnary, ParseBinary, BinaryLoop, ParsePostfix, PostfixLoop, ParamLoop, ParseValue;
    if c.ObjectField? {
      var n := |Print(c)|;
      CalleeLayout(ts, i, c);
      BinaryRoundTrip(g, c, ts, i + 1, 0);
      ValueParenthesis(g, ts, i, c, i + 1 + n);
      PostfixStart(g, ts, i, c, i + n + 2);
    } else {
      ChainRoundTrip(g, c, ts, i);
    }
  }

  /** One printed argument, followed by a closing token, is read by the
      binary level at precedence 0 and does not start with `)`. */
  lemma {:induction false} ArgHead(g: Grammar, a: Expr, ts: seq<Token>, i: nat)
    requires Delimits(g) && ValidInput(g, ts)
    requires Wf(g, a) && Printable(g, a)
    requires At(ts, i, Print(a)) && i + |Print(a)| < |ts|
    requires Closing(ts[i + |Print(a)|].kind)
    ensures Peek(ts, i, 0).kind != CloseParen
    ensures ParseBinary(g, ts, i, 0) == Ok((a, i + |Print(a)|))
    decreases Size(a), 8
  {
    FirstToken(g, a);
    AtFirst(ts, i, Print(a));
    BinaryRoundTrip(g, a, ts, i, 0);
  }

  /** A printed argument, then a comma and the printed remaining arguments,
      then `)`. */
  lemma {:induction false} ArgsCons(g: Grammar, a: Expr, rest: seq<Expr>, acc: seq<Expr>,
                                    ts: seq<Token>, i: nat, j: nat)
    requires Delimits(g) && ValidInput(g, ts)
    requires Wf(g, a) && Printable(g, a)
    requires forall x <- rest :: Wf(g, x) && Printable(g, x)
    requires forall x <- acc :: Wf(g, x)
    requires j == i + |Print(a)| && j + 1 + |PrintArgs(rest)| < |ts|
    requires At(ts, i, Print(a)) && ts[j] == CommaTok
    requires At(ts, j + 1, PrintArgs(rest)) && ts[j + 1 + |PrintArgs(rest)|] == CloseTok
    ensures ParamLoop(g, ts, i, acc) == Ok((acc + [a] + rest, j + 1 + |PrintArgs(rest)| + 1))
    decreases Size(a) + SizeArgs(rest), 9
  {
    hide ParseUnary, ParseBinary, BinaryLoop, ParsePostfix, PostfixLoop, ParamLoop, ParseValue;
    ArgHead(g, a, ts, i);
    ParamArgument(g, ts, i, acc, a, j);
    ArgsRoundTrip(g, rest, acc + [a], ts, j + 1);
  }

  /** A single printed argument followed by `)`. */
  lemma {:induction false} ArgsOne(g: Grammar, a: Expr, acc: seq<Expr>, ts: seq<Token>, i: nat)
    requires Delimits(g) && ValidInput(g, ts)
    requires Wf(g, a) && Printable(g, a)
    requires forall x <- acc :: Wf(g, x)
    requires At(ts, i, Print(a)) && i + |Print(a)| < |ts|
    requires ts[i + |Print(a)|] == CloseTok
    ensures ParamLoop(g, ts, i, acc) == Ok((acc + [a], i + |Print(a)| + 1))
    decreases Size(a), 9
  {
    var j := i + |Print(a)|;
    ArgHead(g, a, ts, i);
    hide ParseUnary, ParseBinary, BinaryLoop, ParsePostfix, PostfixLoop, ParamLoop, ParseValue;
    hide Print, PrintArgs, PrintCallee, At, Wf, WfCallee, Printable, Size, SizeArgs;
    ParamArgument(g, ts, i, acc, a, j);
    ParamClose(g, ts, j, acc + [a]);
  }

  /** Two or more printed arguments followed by `)`. */
  lemma {:induction false} ArgsMany(g: Grammar, args: seq<Expr>, acc: seq<Expr>, ts: seq<Token>, i: nat)
    requires Delimits(g) && ValidInput(g, ts)
    requires |args| >= 2
    requires forall a <- args :: Wf(g, a) && Printable(g, a)
    requires forall a <- acc :: Wf(g, a)
    requires At(ts, i, PrintArgs(args)) && i + |PrintArgs(args)| < |ts|
    requires ts[i + |PrintArgs(args)|] == CloseTok
    ensures ParamLoop(g, ts, i, acc) == Ok((acc + args, i + |PrintArgs(args)| + 1))
    decreases SizeArgs(args), 10
  {
    hide ParseUnary, ParseBinary, BinaryLoop, ParsePostfix, PostfixLoop, ParamLoop, ParseValue;
    assert SizeArgs(args) == Size(args[0]) + SizeArgs(args[1..]);
    assert Wf(g, args[0]) && Printable(g, args[0]);
    assert forall x <- args[1..] :: Wf(g, x) && Printable(g, x);
    assert PrintArgs(args) == Print(args[0]) + ([CommaTok] + PrintArgs(args[1..]));
    AtAround(ts, i, Print(args[0]), CommaTok, PrintArgs(args[1..]));
    ArgsCons(g, args[0], args[1..], acc, ts, i, i + |Print(args[0])|);
    assert acc + [args[0]] + args[1..] == acc + args;
  }

  /** The argument loop reads printed, comma-separated arguments followed by
      `)`, appending them in order. */
  lemma {:induction false} ArgsRoundTrip(g: Grammar, args: seq<Expr>, acc: seq<Expr>, ts: seq<Token>, i: nat)
    requires Delimits(g) && ValidInput(g, ts)
    requires forall a <- args :: Wf(g, a) && Printable(g, a)
    requires forall a <- acc :: Wf(g, a)
    requires At(ts, i, PrintArgs(args)) && i + |PrintArgs(args)| < |ts|
    requires ts[i + |PrintArgs(args)|] == CloseTok
    ensures ParamLoop(g, ts, i, acc) == Ok((acc + args, i + |PrintArgs(args)| + 1))
    decreases SizeArgs(args), 11
  {
    hide ParseUnary, ParseBinary, BinaryLoop, ParsePostfix, PostfixLoop, ParamLoop, ParseValue;
    if |args| == 0 {
      ParamClose(g, ts, i, acc);
      assert acc + args == acc;
    } else if |args| == 1 {
      assert SizeArgs(args) == Size(args[0]);
      assert PrintArgs(args) == Print(args[0]);
      assert Wf(g, args[0]) && Printable(g, args[0]);
      hide Print, PrintArgs, At, Wf, Printable, Size, SizeArgs;
      ArgsOne(g, args[0], acc, ts, i);
      assert acc + [args[0]] == acc + args;
    } else {
      ArgsMany(g, args, acc, ts, i);
    }
  }

  /** The parser inverts the printer: a printable tree, printed and followed
      by a closing token and any further tokens at all, parses back to
      itself. The further tokens are never examined. */
  lemma ParsePrint(g: Grammar, e: Expr, stop: Token, rest: seq<Token>)
    requires Delimits(g) && Wf(g, e) && Printable(g, e)
    requires Closing(stop.kind)
    requires ValidInput(g, Print(e) + [stop] + rest)
    ensures Parse(g, Print(e) + [stop] + rest) == Ok(e)
    ensures TryParse(g, Print(e) + [stop] + rest) == Some(e)
  {
    var ts := Print(e) + [stop] + rest;
    assert At(ts, 0, Print(e)) by {
      forall k | 0 <= k < |Print(e)|
        ensures ts[0 + k] == Print(e)[k]
      {
      }
    }
    assert ts[|Print(e)|] == stop;
    BinaryRoundTrip(g, e, ts, 0, 0);
  }
}
