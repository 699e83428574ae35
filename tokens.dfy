/** Pygments token types. A token type is the path of names from the root type `Token`, so
    `Number.Integer` is `[LiteralPart, NumberPart, IntegerPart]` and `.parent` drops the last name. */
module Tokens {

  /** The names a token type path is made of. */
  datatype Part =
    | TextPart | WhitespacePart | ErrorPart | KeywordPart | NamePart | BuiltinPart | VariablePart
    | LabelPart | LiteralPart | NumberPart | IntegerPart | FloatPart | OperatorPart | PunctuationPart
    | CommentPart | SinglelinePart | CustomCommentPart | PrefixPart | MathPart | DelimiterPart
    | AlgorithmPart

  type TokenType = seq<Part>

  /** The root type `Token`; its `.parent` is `None`. */
  const TokenRoot: TokenType := []

  const Text: TokenType := [TextPart]
  const Whitespace: TokenType := [TextPart, WhitespacePart]
  const Error: TokenType := [ErrorPart]
  const Keyword: TokenType := [KeywordPart]
  const Name: TokenType := [NamePart]
  const NameBuiltin: TokenType := [NamePart, BuiltinPart]
  const NameVariable: TokenType := [NamePart, VariablePart]
  const NameLabel: TokenType := [NamePart, LabelPart]
  const NumberInteger: TokenType := [LiteralPart, NumberPart, IntegerPart]
  const NumberFloat: TokenType := [LiteralPart, NumberPart, FloatPart]
  const Operator: TokenType := [OperatorPart]
  const Punctuation: TokenType := [PunctuationPart]
  const CommentSingleline: TokenType := [CommentPart, SinglelinePart]

  // The token types the Pseudocode.py lexer adds for comments, math and the algorithm header.
  const CustomCommentPrefix: TokenType := [CustomCommentPart, PrefixPart]
  const CustomCommentText: TokenType := [CustomCommentPart, TextPart]
  const MathDelimiter: TokenType := [MathPart, DelimiterPart]
  const MathText: TokenType := [MathPart, TextPart]
  const AlgorithmName: TokenType := [AlgorithmPart, NamePart]
  const AlgorithmKeyword: TokenType := [AlgorithmPart, KeywordPart]

  function Parent(t: TokenType): (p: TokenType)
    requires t != TokenRoot
    ensures |p| + 1 == |t| && p == t[..|p|]
  {
    t[..|t| - 1]
  }

  /** `a` is `t` or one of its ancestors. */
  predicate IsAncestor(a: TokenType, t: TokenType)
  {
    |a| <= |t| && t[..|a|] == a
  }

  /** A lexed token: its offset in the scanned text, its type and its text
      (one triple of `get_tokens_unprocessed`). */
  datatype Token = Token(offset: nat, kind: TokenType, text: string)

  function TextsOf(ts: seq<Token>): (r: seq<string>)
    ensures |r| == |ts| && forall i :: 0 <= i < |ts| ==> r[i] == ts[i].text
  {
    seq(|ts|, i requires 0 <= i < |ts| => ts[i].text)
  }
}
