/**
 * Tokens: span descriptors into the source text, and the slicing that
 * recovers a token's characters (token.hpp, token.cpp).
 */
module Tokens {

  /**
   * Token kinds as the lexer and parser use them. token.hpp declares only
   * `literal_boolean` and `literal_number`; lexer.cpp and parser.cpp use the
   * true/false and exact/real kinds below instead.
   */
  datatype TokenTag =
    | Unknown
    | Spacing
    | IdentifierName
    | SpecialName
    | LiteralBooleanTrue
    | LiteralBooleanFalse
    | LiteralNumberExact
    | LiteralNumberReal
    | LiteralString
    | LeftParen
    | RightParen
    | LeftBracket
    | RightBracket
    | Eof

  /** A token never owns text: it names the span [begin, begin + length) of the source. */
  datatype Token = Token(tag: TokenTag, begin: int, length: int, line: int, column: int)

  /** `substr` does not throw for this token: its begin lies within the text (an index equal to the size is allowed). */
  predicate SliceableIn(t: Token, source: string) {
    0 <= t.begin <= |source|
  }

  /**
   * The number of characters `substr(begin, length)` takes: the length,
   * clamped to what remains after `begin`. A negative `int` length becomes a
   * huge `size_t` and is clamped as well.
   */
  function SliceLength(t: Token, source: string): (n: nat)
    requires SliceableIn(t, source)
    ensures n <= |source| - t.begin
    ensures 0 <= t.length <= |source| - t.begin ==> n == t.length
    ensures (t.length < 0 || t.length > |source| - t.begin) ==> n == |source| - t.begin
  {
    if t.length < 0 || t.length > |source| - t.begin then |source| - t.begin else t.length
  }

  /** create_token_sv: the token's characters, as a clamping `string_view::substr`. */
  function CreateTokenSv(t: Token, source: string): (r: string)
    requires SliceableIn(t, source)
    ensures |r| == SliceLength(t, source)
    ensures forall i :: 0 <= i < |r| ==> r[i] == source[t.begin + i]
  {
    source[t.begin..t.begin + SliceLength(t, source)]
  }

  /** stringify_sv: formatting a view with "{}" copies its characters unchanged. */
  function StringifySv(origin: string): (r: string)
    ensures |r| == |origin| && forall i :: 0 <= i < |r| ==> r[i] == origin[i]
  {
    origin
  }

  /** create_token_info_str: an owned copy of the token's characters. */
  function CreateTokenInfoStr(t: Token, source: string): (r: string)
    requires SliceableIn(t, source)
    ensures r == CreateTokenSv(t, source)
  {
    StringifySv(CreateTokenSv(t, source))
  }

  /** The end-of-input token placed at the end of the text slices to the empty string. */
  lemma EofSlicesToEmpty(source: string)
    ensures CreateTokenSv(Token(Eof, |source|, 1, -1, -1), source) == ""
  {
  }

  /** A token that lies wholly inside the text slices to exactly [begin, begin + length). */
  lemma SliceOfInnerToken(t: Token, source: string)
    requires 0 <= t.begin && 0 <= t.length && t.begin + t.length <= |source|
    ensures CreateTokenSv(t, source) == source[t.begin..t.begin + t.length]
  {
  }
}
