/**
 * Tokens of the JSON grammar, as the generated token manager hands them to
 * the parser. The token manager itself is not modelled: its output is a
 * finite sequence of tokens that ends with the end-of-input token.
 */
module JsonTokens {

  /** Token kinds (the generated JSONParserConstants). */
  const EOF := 0
  const INTEGER_LITERAL := 7
  const FLOATING_POINT_LITERAL := 8
  const QUOTED_STRING := 13
  const BOOL_LITERAL := 14
  const NULL := 15
  const LBRACE := 16
  const COLON := 17
  const COMMA := 18
  const RBRACE := 19
  const LBRACKET := 20
  const RBRACKET := 21

  /** Number of token kinds: kinds range over [0, KIND_COUNT). */
  const KIND_COUNT := 22

  /** A token: its kind and the exact source text it matched. */
  datatype Token = Token(kind: int, image: string)

  /**
   * The parser's initial `token`, a `new Token()` that precedes the first real
   * token: kind 0 and no image (the null image is written as "").
   */
  const START_TOKEN := Token(0, "")

  /**
   * What the token manager can produce: at least one token, the last one the
   * end-of-input token, and every kind a declared kind.
   */
  ghost predicate WellFormed(ts: seq<Token>)
  {
    && |ts| > 0
    && ts[|ts| - 1].kind == EOF
    && forall p :: 0 <= p < |ts| ==> 0 <= ts[p].kind < KIND_COUNT
  }

  /** The token at position `i`; reading past the end yields the end-of-input token again. */
  function At(ts: seq<Token>, i: nat): (t: Token)
    requires |ts| > 0
    ensures i < |ts| ==> t == ts[i]
    ensures i >= |ts| ==> t == ts[|ts| - 1]
  {
    if i < |ts| then ts[i] else ts[|ts| - 1]
  }

  /** Tokens not yet read from position `i` on: the termination measure of the parser. */
  function Rem(ts: seq<Token>, i: nat): nat
  {
    if i < |ts| then |ts| - i else 0
  }

  /** Only a position strictly before the final end-of-input token holds a token of another kind. */
  lemma NonEofBeforeEnd(ts: seq<Token>, i: nat)
    requires WellFormed(ts)
    requires At(ts, i).kind != EOF
    ensures i < |ts| - 1
    ensures Rem(ts, i + 1) < Rem(ts, i)
  {
  }
}
