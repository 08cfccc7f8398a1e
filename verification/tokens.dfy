/** Tokens as the expression parser sees them, the parser's failure type, and the
    operator tables the parser consults but does not define.

    The tokenizer is not part of this model: a parse starts from a finished token
    sequence. The token categories below are those the parser names; every other
    category the tokenizer may produce is an `Other` kind. */
module Tokens {

  /** Token categories. `Number` and `Other` kinds may or may not be number
      constants: that is decided by `Grammar.isNumber`. */
  datatype Kind =
    | BinaryOp
    | TernaryQuestion
    | TernaryColon
    | OpenParen
    | CloseParen
    | Period
    | Comma
    | Ident
    | Str
    | SpecialIdent
    | XmlVal
    | XmlValKey
    | Number
    | Rubbish
    | Eof
    | Other(name: string)

  /** An immutable token: its category and the source text it spans. */
  datatype Token = Token(kind: Kind, script: string)

  /** The tables the parser consults, left abstract: the precedence of a binary
      operator (looked up by its text), the precedence of the ternary operator,
      and the three category tests. */
  datatype Grammar = Grammar(
    precedence: string -> int,
    ternaryPrecedence: int,
    isUnary: string -> bool,
    isNumber: Kind -> bool,
    isPostfix: Kind -> bool)
  {
    /** Open parenthesis and period are postfix operators, and the end-of-input
        category is not a number constant. */
    predicate Valid() {
      && isPostfix(OpenParen)
      && isPostfix(Period)
      && !isNumber(Eof)
    }
  }

  /** A token sequence the parser may be handed: non-empty, ending with the
      end-of-input token, whose text is not a unary operator (the cursor stops
      on that token forever, so a unary reading of it would never end). */
  predicate ValidInput(g: Grammar, ts: seq<Token>) {
    && |ts| > 0
    && ts[|ts| - 1].kind == Eof
    && !g.isUnary(ts[|ts| - 1].script)
  }

  /** The outcome of a parse step: a value, or the token that broke the grammar. */
  datatype Result<+T> = Ok(value: T) | Fail(token: Token) {
    predicate IsFailure() {
      Fail?
    }

    function PropagateFailure<U>(): Result<U>
      requires Fail?
    {
      Fail(token)
    }

    function Extract(): T
      requires Ok?
    {
      value
    }
  }

  datatype Option<+T> = None | Some(value: T)
}
