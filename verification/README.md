# ngAndroid binding-expression parser in Dafny

ngAndroid compiles the expressions written in binding attributes of Android
layout files, such as `model.isVisible ? 'a' : 'b'`, into syntax trees. The
parser that does this (`Parser.java`) is a recursive-descent parser with a
precedence-climbing loop for binary operators. The ternary operator is fused
into that loop. The parser also handles postfix chains of calls `f(x)` and
member accesses `a.b`, and two framework forms: special identifiers and XML
values with their key.

This project models that parser as pure Dafny functions and proves
properties of it.

- `tokens.dfy` (`Tokens`): token categories and tokens.
  - The `Grammar` holds the operator tables the parser consults: binary
    precedence by operator text, the ternary precedence, and the unary,
    number-constant and postfix category tests. All of them are left abstract.
  - The `Result` type stands in for the source's `ParseException`. A failure
    carries the offending token.
- `ast.dfy` (`Ast`): one constructor per syntax-tree class.
  - `Wf` is the shape every successful parse has. A method name
    (`FunctionName`) only ever occurs as the callee of a call.
- `cursor.dfy` (`Cursor`): the cursor helpers `peek`, `advance`, `require`
  and `optional`. They act on an index into an immutable token list.
- `parser.dfy` (`Parser`): one function per parse level.
  - Each level returns the tree it built and the new cursor, or the failing
    token.
  - The source's `while` loops become tail-recursive functions.
  - Termination is by the pair (tokens remaining, level rank).
- `steps.dfy` (`Steps`): single steps of each level. Proofs about whole
  parses are assembled from them.
- `shapes.dfy` (`Shapes`): the tree shapes and failure tokens of typical
  inputs. This covers associativity, ternary chains, unary binding, postfix
  chains, argument lists and primary values.
- `printer.dfy` (`Printer`) and `roundtrip.dfy` (`RoundTrip`): an
  independent fully parenthesised printer, and the proof that the parser reads
  back what it prints. This holds for every printable tree followed by a
  closing `)`, `,`, `:` or end of input, whatever tokens come after that.

Every lemma holds for every operator table whose precedences lie inside the
Java `int` range (see "Left out") and that treats `(` and `.` as postfix
operators and does not treat the end-of-input category as a number. The
round trip also needs the printer's delimiters (`)`, `,`, `:`, `?`, binary
operators and end of input) not to be postfix operators, and `(` not to be a
unary operator.

Both branches of `?:` are parsed one level above the ternary precedence, so
the false branch stops in front of a second `?`, and `a ? b : c ? d : e` nests
to the left, as `(a ? b : c) ? d : e`, unlike Java's right-associative `?:`
(`Shapes.TernaryChainLeft`). For the same reason, an unparenthesised ternary
inside the true branch is rejected (`Shapes.NestedQuestionFails`).

## Model

| member | source | states |
|---|---|---|
| Cursor.Peek | ng-processor/src/main/java/com/github/davityle/ngprocessor/attrcompiler/parse/Parser.java:31-37 | lookahead at any offset yields a token of the list: the one at that position, or the last token for every position past the end |
| Cursor.Advance | ng-processor/src/main/java/com/github/davityle/ngprocessor/attrcompiler/parse/Parser.java:39-45 | returns the token under the cursor and moves one place, except at the end of the list, where the cursor stays and the last token is returned again |
| Cursor.Require | ng-processor/src/main/java/com/github/davityle/ngprocessor/attrcompiler/parse/Parser.java:47-54 | succeeds exactly when the token under the cursor has the required category, and then consumes it; otherwise fails carrying exactly that token |
| Cursor.Optional | ng-processor/src/main/java/com/github/davityle/ngprocessor/attrcompiler/parse/Parser.java:56-64 | reports a match exactly when the next token has the category; the cursor advances on a match and is unchanged otherwise |
| Parser.ParseBinary | ng-processor/src/main/java/com/github/davityle/ngprocessor/attrcompiler/parse/Parser.java:74-103 | a successful parse consumes at least one token, yields a well-formed tree, and stops at a token that cannot continue an expression at the given minimum precedence |
| Parser.BinaryLoop | ng-processor/src/main/java/com/github/davityle/ngprocessor/attrcompiler/parse/Parser.java:77-102 | the loop never moves the cursor back, keeps the tree well-formed, and ends only at a token that is neither `?` nor a binary operator at or above the minimum |
| Parser.ParseTernaryBranches | ng-processor/src/main/java/com/github/davityle/ngprocessor/attrcompiler/parse/Parser.java:80-86 | a ternary's two branches are well-formed trees and the cursor moves past them |
| Parser.ParseUnary | ng-processor/src/main/java/com/github/davityle/ngprocessor/attrcompiler/parse/Parser.java:105-114 | a unary operator under the cursor becomes the root with that operator token; the parse stops at a token that is not a postfix operator |
| Parser.ParsePostfix | ng-processor/src/main/java/com/github/davityle/ngprocessor/attrcompiler/parse/Parser.java:116-135 | a postfix chain consumes at least one token, yields a well-formed tree in which a method name only appears as a callee, and stops at a non-postfix token |
| Parser.PostfixLoop | ng-processor/src/main/java/com/github/davityle/ngprocessor/attrcompiler/parse/Parser.java:119-132 | starting from a callee that is a method name only in front of `(`, the chain ends in a well-formed tree at a non-postfix token |
| Parser.ParseParameterList | ng-processor/src/main/java/com/github/davityle/ngprocessor/attrcompiler/parse/Parser.java:137-151 | a successful list started with `(` under the cursor, its last consumed token is `)`, and every argument is well-formed |
| Parser.ParamLoop | ng-processor/src/main/java/com/github/davityle/ngprocessor/attrcompiler/parse/Parser.java:142-148 | the arguments already collected stay, in order, at the front of the result; the loop ends just after a `)` |
| Parser.ParseValue | ng-processor/src/main/java/com/github/davityle/ngprocessor/attrcompiler/parse/Parser.java:153-171 | a token outside the primary categories fails with exactly that token; a success consumes a token and yields a well-formed tree |
| Parser.ParseParenthesis | ng-processor/src/main/java/com/github/davityle/ngprocessor/attrcompiler/parse/Parser.java:173-178 | a parenthesised expression yields the inner expression's own tree, with no node for the parentheses, and ends just after `)` |
| Parser.Parse | ng-processor/src/main/java/com/github/davityle/ngprocessor/attrcompiler/parse/Parser.java:66-72 | the entry point succeeds exactly when one expression at minimum precedence 0 parses from the first token, with that tree, and fails with the same token otherwise |
| Parser.TryParse | ng-processor/src/main/java/com/github/davityle/ngprocessor/attrcompiler/parse/Parser.java:185-191 | absent exactly when parsing fails, and present with the same tree otherwise |
| Steps.PostfixDotStep | ng-processor/src/main/java/com/github/davityle/ngprocessor/attrcompiler/parse/Parser.java:122-128 | `.` and an identifier make a method name when the token after the identifier is `(`, and a field access otherwise |
| Steps.ParamArgument | ng-processor/src/main/java/com/github/davityle/ngprocessor/attrcompiler/parse/Parser.java:143-147 | after an argument, `,` is consumed, `)` is left for the next round, and any other token fails with that token |
| Steps.BinaryOperatorStep | ng-processor/src/main/java/com/github/davityle/ngprocessor/attrcompiler/parse/Parser.java:90-95 | a binary operator at or above the minimum takes the loop's left-hand side as its left operand and the expression above its own precedence as its right operand |
| Steps.TernaryStep | ng-processor/src/main/java/com/github/davityle/ngprocessor/attrcompiler/parse/Parser.java:79-86 | a `?` at or above the minimum makes the loop's left-hand side the condition, with both branches parsed one level above the ternary precedence |
| Shapes.LeftAssociative | ng-processor/src/main/java/com/github/davityle/ngprocessor/attrcompiler/parse/Parser.java:90-98 | `a op1 b op2 c` with op2 not of higher precedence than op1 groups as `(a op1 b) op2 c`, so equal precedences associate to the left |
| Shapes.TighterRight | ng-processor/src/main/java/com/github/davityle/ngprocessor/attrcompiler/parse/Parser.java:90-98 | `a op1 b op2 c` with op2 of higher precedence than op1 groups as `a op1 (b op2 c)` |
| Shapes.OperandStops | ng-processor/src/main/java/com/github/davityle/ngprocessor/attrcompiler/parse/Parser.java:93-97 | a right operand parsed above op1's precedence stops in front of an operator whose precedence is not higher, without consuming it |
| Shapes.BelowMinimumStops | ng-processor/src/main/java/com/github/davityle/ngprocessor/attrcompiler/parse/Parser.java:77-98 | an operator or `?` below the minimum precedence ends the loop unconsumed, with the left-hand side unchanged |
| Shapes.MissingColon | ng-processor/src/main/java/com/github/davityle/ngprocessor/attrcompiler/parse/Parser.java:81-83 | a true branch not followed by `:` fails with the token found in its place |
| Shapes.NestedQuestionFails | ng-processor/src/main/java/com/github/davityle/ngprocessor/attrcompiler/parse/Parser.java:80-84 | `a ? b ? ...` fails on the second `?`: an unparenthesised `?` ends the true branch |
| Shapes.TernaryChainLeft | ng-processor/src/main/java/com/github/davityle/ngprocessor/attrcompiler/parse/Parser.java:77-89 | `a ? b : c ? d : e` parses as `(a ? b : c) ? d : e` |
| Shapes.UnaryBindsTighter | ng-processor/src/main/java/com/github/davityle/ngprocessor/attrcompiler/parse/Parser.java:105-114 | `!a + b` parses as `(!a) + b`: a unary operator's operand never extends over a binary operator |
| Shapes.UnaryNestsRight | ng-processor/src/main/java/com/github/davityle/ngprocessor/attrcompiler/parse/Parser.java:108-110 | consecutive unary operators nest to the right, each applying to everything after it at the unary level |
| Shapes.FieldAccess | ng-processor/src/main/java/com/github/davityle/ngprocessor/attrcompiler/parse/Parser.java:122-128 | `v.name` followed by a non-postfix token is a field access of `v` |
| Shapes.MethodCall | ng-processor/src/main/java/com/github/davityle/ngprocessor/attrcompiler/parse/Parser.java:119-128 | `v.name(args)` is a call whose callee is the method name `name` of `v`, with the arguments of the list |
| Shapes.FieldChainLeft | ng-processor/src/main/java/com/github/davityle/ngprocessor/attrcompiler/parse/Parser.java:119-132 | `v.f.h` nests to the left, as a field access of the field access `v.f` |
| Shapes.DotNeedsIdentifier | ng-processor/src/main/java/com/github/davityle/ngprocessor/attrcompiler/parse/Parser.java:122-128 | a `.` not followed by an identifier fails with the token after it, for example end of input in `model.` |
| Shapes.OtherPostfixFails | ng-processor/src/main/java/com/github/davityle/ngprocessor/attrcompiler/parse/Parser.java:129-131 | a postfix operator other than `(` and `.` fails with that operator |
| Shapes.EmptyArguments | ng-processor/src/main/java/com/github/davityle/ngprocessor/attrcompiler/parse/Parser.java:137-151 | `()` is a list of zero arguments ending just after `)` |
| Shapes.MissingOpenParen | ng-processor/src/main/java/com/github/davityle/ngprocessor/attrcompiler/parse/Parser.java:140 | a list that does not start with `(` fails with the token found |
| Shapes.BadSeparator | ng-processor/src/main/java/com/github/davityle/ngprocessor/attrcompiler/parse/Parser.java:142-147 | an argument followed by anything but `,` or `)` fails with that token |
| Shapes.TwoArguments | ng-processor/src/main/java/com/github/davityle/ngprocessor/attrcompiler/parse/Parser.java:142-148 | `(x, y)` yields the arguments `[x, y]` in the order written |
| Shapes.XmlValueNeedsKey | ng-processor/src/main/java/com/github/davityle/ngprocessor/attrcompiler/parse/Parser.java:162-163 | an XML value not immediately followed by its key fails with the token found there |
| Shapes.ParenthesesVanish | ng-processor/src/main/java/com/github/davityle/ngprocessor/attrcompiler/parse/Parser.java:173-178 | `( e )` yields the tree of `e` itself; without the matching `)` it fails with the token found instead |
| RoundTrip.BinaryRoundTrip | ng-processor/src/main/java/com/github/davityle/ngprocessor/attrcompiler/parse/Parser.java:74-103 | at any minimum precedence, the binary level reads a printed tree followed by a closing token back as that tree, stopping just after it |
| RoundTrip.ChainRoundTrip | ng-processor/src/main/java/com/github/davityle/ngprocessor/attrcompiler/parse/Parser.java:116-135 | the postfix level reads a printed tree and hands it to the postfix loop as its left-hand side, just after its last token |
| RoundTrip.ParenRoundTrip | ng-processor/src/main/java/com/github/davityle/ngprocessor/attrcompiler/parse/Parser.java:173-178 | a printed operator node, which is parenthesised, reads back as a primary value with that node |
| RoundTrip.ArgsRoundTrip | ng-processor/src/main/java/com/github/davityle/ngprocessor/attrcompiler/parse/Parser.java:142-148 | the argument loop reads any list of printed, comma-separated arguments and a `)` back as that list, appended in order |
| RoundTrip.ParsePrint | ng-processor/src/main/java/com/github/davityle/ngprocessor/attrcompiler/parse/Parser.java:66-72 | the parser inverts the printer: a printable tree, printed and followed by a closing token and any tokens at all, parses back to itself, so trailing tokens are never examined |

## Left out

- The tokenizer and the `Parser` constructor that runs it (`Parser.java:25-29`). A parse starts from a finished token list, and tokenizer errors are not modelled. `Tokenizer` is not part of this model.
- The `TokenType` tables: binary precedences, the ternary precedence, and the unary, number-constant and postfix tests. They are abstract fields of `Grammar`, with the assumptions stated above. `TokenType` is not part of this model.
- `BinaryOperator.getOperator` returning no operator for an unknown operator text. In the source that makes the next step fail with a null-pointer error, not a parse failure. The model's precedence table is total, so every binary-operator token has some precedence.
- The `SpecialIdentifier.getSpecialIdentifier` and `XmlValue.getXmlValue` factories. They are modelled as plain constructors of the node for the tokens read. Their classes are not part of this model.
- Java `int` overflow of the minimum precedence. The source computes `getPrecedence() + 1` and `TERNARY_PRECEDENCE + 1` in 32-bit arithmetic (`Parser.java:82`, `84`, `95`), which would wrap for a precedence of `Integer.MAX_VALUE`. The model uses unbounded integers, so every lemma assumes precedences lie well inside the `int` range.
- Exceptions other than `ParseException`, and the identity and sharing of Java objects.
- Input whose end-of-input token's text is a unary operator. The cursor stays on that token forever, so the source would recurse until the stack overflows. The model requires the last token not to be a unary operator.
- Parser.Parse: that tokens after the expression are never examined is proved for printed trees (`RoundTrip.ParsePrint`, for any trailing tokens), not as a frame property over every input.
- `XmlView.java`, `FireCheckObserver.java`, `NgFocus.java` and `MethodInvoker.java`. They are Android view glue and reflective method dispatch at run time, not parsing.
