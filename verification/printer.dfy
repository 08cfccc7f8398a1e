/** A fully parenthesised printer from trees back to token sequences: the
    reference against which the parser is checked. Every unary, binary and
    ternary node is printed inside its own parentheses, and so is a field
    access that is called, so that the printed form never depends on
    precedence or associativity. */
module Printer {
  import opened Tokens
  import opened Ast

  const OpenTok := Token(OpenParen, "(")
  const CloseTok := Token(CloseParen, ")")
  const CommaTok := Token(Comma, ",")
  const PeriodTok := Token(Period, ".")
  const ColonTok := Token(TernaryColon, ":")

  function Print(e: Expr): seq<Token>
    decreases e, 1
  {
    match e
    case Identifier(t) => [t]
    case NumberConstant(t) => [t]
    case StringLiteral(t) => [t]
    case SpecialIdentifier(t) => [t]
    case XmlValue(t, k) => [t, k]
    case ObjectField(r, f) => Print(r) + [PeriodTok, f]
    case FunctionName(r, n) => Print(r) + [PeriodTok, n]
    case FunctionCall(p, c, args) => PrintCallee(c) + ([p] + (PrintArgs(args) + [CloseTok]))
    case UnaryOperator(op, x) => [OpenTok, op] + (Print(x) + [CloseTok])
    case BinaryOperator(op, l, r) => [OpenTok] + (Print(l) + ([op] + (Print(r) + [CloseTok])))
    case TernaryOperator(q, c, t, f) =>
      [OpenTok] + (Print(c) + ([q] + (Print(t) + ([ColonTok] + (Print(f) + [CloseTok])))))
  }

  /** A callee is printed as is, except a field access, which would otherwise
      read back as a method name. */
  function PrintCallee(c: Expr): seq<Token>
    decreases c, 2
  {
    if c.ObjectField? then [OpenTok] + (Print(c) + [CloseTok]) else Print(c)
  }

  /** Arguments separated by commas. */
  function PrintArgs(args: seq<Expr>): seq<Token>
    decreases args
  {
    if |args| == 0 then []
    else if |args| == 1 then Print(args[0])
    else Print(args[0]) + ([CommaTok] + PrintArgs(args[1..]))
  }

  /** The grammar facts the printed form relies on: the delimiters it emits
      are not postfix operators, and `(` is not a unary operator. */
  predicate Delimits(g: Grammar) {
    && g.Valid()
    && !g.isPostfix(CloseParen)
    && !g.isPostfix(Comma)
    && !g.isPostfix(TernaryColon)
    && !g.isPostfix(TernaryQuestion)
    && !g.isPostfix(BinaryOp)
    && !g.isPostfix(Eof)
    && !g.isUnary(OpenTok.script)
  }

  /** Token categories after which a complete expression has certainly ended. */
  predicate Closing(k: Kind) {
    k == CloseParen || k == Comma || k == TernaryColon || k == Eof
  }

  /** The trees whose printed form reads back unchanged: no token that starts
      a value reads as a unary operator (nor, for a number, as `)`), and every
      operator has a non-negative precedence, so that it is accepted at the
      outermost level of a parenthesised expression. */
  predicate Printable(g: Grammar, e: Expr)
    decreases e
  {
    match e
    case Identifier(t) => !g.isUnary(t.script)
    case NumberConstant(t) => !g.isUnary(t.script) && t.kind != CloseParen
    case StringLiteral(t) => !g.isUnary(t.script)
    case SpecialIdentifier(t) => !g.isUnary(t.script)
    case XmlValue(t, _) => !g.isUnary(t.script)
    case ObjectField(r, _) => Printable(g, r)
    case FunctionName(r, _) => Printable(g, r)
    case FunctionCall(_, c, args) => Printable(g, c) && forall a <- args :: Printable(g, a)
    case UnaryOperator(_, x) => Printable(g, x)
    case BinaryOperator(op, l, r) =>
      g.precedence(op.script) >= 0 && Printable(g, l) && Printable(g, r)
    case TernaryOperator(_, c, t, f) =>
      g.ternaryPrecedence >= 0 && Printable(g, c) && Printable(g, t) && Printable(g, f)
  }

  /** `p` occurs in `ts` starting at index `i`. */
  predicate At(ts: seq<Token>, i: nat, p: seq<Token>) {
    i + |p| <= |ts| && forall k :: 0 <= k < |p| ==> ts[i + k] == p[k]
  }

  lemma AtSplit(ts: seq<Token>, i: nat, a: seq<Token>, b: seq<Token>)
    requires At(ts, i, a + b)
    ensures At(ts, i, a) && At(ts, i + |a|, b)
  {
    forall k | 0 <= k < |a|
      ensures ts[i + k] == a[k]
    {
      assert (a + b)[k] == a[k];
    }
    forall k | 0 <= k < |b|
      ensures ts[i + |a| + k] == b[k]
    {
      assert (a + b)[|a| + k] == b[k];
    }
  }

  lemma AtFirst(ts: seq<Token>, i: nat, p: seq<Token>)
    requires At(ts, i, p) && |p| > 0
    ensures i < |ts| && ts[i] == p[0]
  {
    assert ts[i + 0] == p[0];
  }

  lemma AtOne(ts: seq<Token>, i: nat, t: Token)
    requires At(ts, i, [t])
    ensures i < |ts| && ts[i] == t
  {
    assert ts[i + 0] == [t][0];
  }

  /** A token, then `p`, then the rest. */
  lemma AtWrap(ts: seq<Token>, i: nat, t: Token, p: seq<Token>, rest: seq<Token>)
    requires At(ts, i, [t] + (p + rest))
    ensures i < |ts| && ts[i] == t && At(ts, i + 1, p) && At(ts, i + 1 + |p|, rest)
  {
    AtSplit(ts, i, [t], p + rest);
    AtSplit(ts, i + 1, p, rest);
    AtOne(ts, i, t);
  }

  /** `a`, then a token, then the rest. */
  lemma AtAround(ts: seq<Token>, i: nat, a: seq<Token>, t: Token, rest: seq<Token>)
    requires At(ts, i, a + ([t] + rest))
    ensures At(ts, i, a) && i + |a| < |ts| && ts[i + |a|] == t && At(ts, i + |a| + 1, rest)
  {
    AtSplit(ts, i, a, [t] + rest);
    AtSplit(ts, i + |a|, [t], rest);
    AtOne(ts, i + |a|, t);
  }

  /** Where the parts of a printed unary node sit. */
  lemma UnaryLayout(ts: seq<Token>, i: nat, e: Expr)
    requires e.UnaryOperator? && At(ts, i, Print(e))
    ensures var d := i + 2 + |Print(e.operand)|;
      && d == i + |Print(e)| - 1 && d < |ts|
      && ts[i] == OpenTok && ts[i + 1] == e.op
      && At(ts, i + 2, Print(e.operand)) && ts[d] == CloseTok
  {
    var op, px := e.op, Print(e.operand);
    AtSplit(ts, i, [OpenTok, op], px + [CloseTok]);
    AtSplit(ts, i + 2, px, [CloseTok]);
    assert [OpenTok, op] == [OpenTok] + [op];
    AtSplit(ts, i, [OpenTok], [op]);
    AtOne(ts, i, OpenTok);
    AtOne(ts, i + 1, op);
    AtOne(ts, i + 2 + |px|, CloseTok);
  }

  /** Where the parts of a printed binary node sit. */
  lemma BinaryLayout(ts: seq<Token>, i: nat, e: Expr)
    requires e.BinaryOperator? && At(ts, i, Print(e))
    ensures var b := i + 1 + |Print(e.left)|; var d := b + 1 + |Print(e.right)|;
      && d == i + |Print(e)| - 1 && d < |ts|
      && ts[i] == OpenTok && At(ts, i + 1, Print(e.left)) && ts[b] == e.op
      && At(ts, b + 1, Print(e.right)) && ts[d] == CloseTok
  {
    var op, pl, pr := e.op, Print(e.left), Print(e.right);
    var b := i + 1 + |pl|;
    AtWrap(ts, i, OpenTok, pl, [op] + (pr + [CloseTok]));
    AtWrap(ts, b, op, pr, [CloseTok]);
    AtOne(ts, b + 1 + |pr|, CloseTok);
  }

  /** Where the parts of a printed ternary node sit. */
  lemma TernaryLayout(ts: seq<Token>, i: nat, e: Expr)
    requires e.TernaryOperator? && At(ts, i, Print(e))
    ensures var b := i + 1 + |Print(e.cond)|; var m := b + 1 + |Print(e.ifTrue)|;
            var d := m + 1 + |Print(e.ifFalse)|;
      && d == i + |Print(e)| - 1 && d < |ts|
      && ts[i] == OpenTok && At(ts, i + 1, Print(e.cond)) && ts[b] == e.question
      && At(ts, b + 1, Print(e.ifTrue)) && ts[m] == ColonTok
      && At(ts, m + 1, Print(e.ifFalse)) && ts[d] == CloseTok
  {
    var q, pc, pt, pf := e.question, Print(e.cond), Print(e.ifTrue), Print(e.ifFalse);
    var b := i + 1 + |pc|;
    var m := b + 1 + |pt|;
    AtWrap(ts, i, OpenTok, pc, [q] + (pt + ([ColonTok] + (pf + [CloseTok]))));
    AtWrap(ts, b, q, pt, [ColonTok] + (pf + [CloseTok]));
    AtWrap(ts, m, ColonTok, pf, [CloseTok]);
    AtOne(ts, m + 1 + |pf|, CloseTok);
  }

  /** Where the parts of a printed field access or method name sit. */
  lemma MemberLayout(ts: seq<Token>, i: nat, e: Expr)
    requires (e.ObjectField? || e.FunctionName?) && At(ts, i, Print(e))
    ensures var k := i + |Print(e.receiver)|;
      && k + 2 == i + |Print(e)|
      && At(ts, i, Print(e.receiver)) && ts[k] == PeriodTok
      && ts[k + 1] == (if e.ObjectField? then e.field else e.name)
  {
    var pr, f := Print(e.receiver), if e.ObjectField? then e.field else e.name;
    assert Print(e) == pr + [PeriodTok, f];
    AtSplit(ts, i, pr, [PeriodTok, f]);
    assert [PeriodTok, f] == [PeriodTok] + [f];
    AtSplit(ts, i + |pr|, [PeriodTok], [f]);
    AtOne(ts, i + |pr|, PeriodTok);
    AtOne(ts, i + |pr| + 1, f);
  }

  /** Where the parts of a printed call sit. */
  lemma CallLayout(ts: seq<Token>, i: nat, e: Expr)
    requires e.FunctionCall? && At(ts, i, Print(e))
    ensures var k := i + |PrintCallee(e.callee)|; var d := k + 1 + |PrintArgs(e.args)|;
      && d == i + |Print(e)| - 1
      && At(ts, i, PrintCallee(e.callee)) && ts[k] == e.paren
      && At(ts, k + 1, PrintArgs(e.args)) && ts[d] == CloseTok
  {
    var p, pc, pa := e.paren, PrintCallee(e.callee), PrintArgs(e.args);
    var k := i + |pc|;
    AtSplit(ts, i, pc, [p] + (pa + [CloseTok]));
    AtWrap(ts, k, p, pa, [CloseTok]);
    AtOne(ts, k + 1 + |pa|, CloseTok);
  }

  /** Where the parts of a parenthesised callee sit. */
  lemma CalleeLayout(ts: seq<Token>, i: nat, c: Expr)
    requires c.ObjectField? && At(ts, i, PrintCallee(c))
    ensures |PrintCallee(c)| == |Print(c)| + 2
    ensures ts[i] == OpenTok && At(ts, i + 1, Print(c)) && ts[i + 1 + |Print(c)|] == CloseTok
  {
    AtWrap(ts, i, OpenTok, Print(c), [CloseTok]);
    AtOne(ts, i + 1 + |Print(c)|, CloseTok);
  }
}
