/** The parser's cursor over its token list: lookahead, consumption, and the
    required / optional token tests. The cursor is an index `i` with
    `0 <= i <= |ts|`; it reaches `|ts|` once the end-of-input token has been
    consumed and never moves past it. */
module Cursor {
  import opened Tokens

  /** The token `offset` places ahead of the cursor; any position past the end
      reads the last token, so lookahead never leaves the list. */
  function Peek(ts: seq<Token>, i: nat, offset: nat): (t: Token)
    requires |ts| > 0
    ensures t in ts
    ensures i + offset < |ts| ==> t == ts[i + offset]
    ensures i + offset >= |ts| ==> t == ts[|ts| - 1]
  {
    if i + offset < |ts| then ts[i + offset] else ts[|ts| - 1]
  }

  /** Consumes one token and returns it with the new cursor. At the end the
      cursor stays put and the last token is returned again. */
  function Advance(ts: seq<Token>, i: nat): (r: (Token, nat))
    requires |ts| > 0 && i <= |ts|
    ensures r.0 == Peek(ts, i, 0)
    ensures 1 <= r.1 <= |ts| && r.0 == ts[r.1 - 1]
    ensures i < |ts| ==> r.1 == i + 1
    ensures i == |ts| ==> r.1 == i
  {
    var j := if i < |ts| then i + 1 else i;
    (ts[j - 1], j)
  }

  /** Consumes one token and insists that it has category `k`; otherwise the
      parse fails with exactly that token. */
  function Require(ts: seq<Token>, i: nat, k: Kind): (r: Result<(Token, nat)>)
    requires |ts| > 0 && i <= |ts|
    ensures r.Ok? <==> Peek(ts, i, 0).kind == k
    ensures r.Ok? ==> r.value == Advance(ts, i)
    ensures r.Fail? ==> r.token == Peek(ts, i, 0)
  {
    var a := Advance(ts, i);
    if a.0.kind == k then Ok(a) else Fail(a.0)
  }

  /** Consumes the next token only when it has category `k`, and says whether
      it did; otherwise the cursor is unchanged. */
  function Optional(ts: seq<Token>, i: nat, k: Kind): (r: (bool, nat))
    requires |ts| > 0 && i <= |ts|
    ensures r.0 <==> Peek(ts, i, 0).kind == k
    ensures r.0 ==> r.1 == Advance(ts, i).1
    ensures !r.0 ==> r.1 == i
  {
    if Peek(ts, i, 0).kind == k then (true, Advance(ts, i).1) else (false, i)
  }
}
