# Pseudocode to LaTeX, modelled in Dafny

The repository turns a small pseudocode notation into LaTeX in two ways. Both are modelled here.

- **Pseudocode.py, the minted/TikZ pipeline.**
  - A Pygments `RegexLexer` with three states: `root`, `math` inside `$...$`, and `comment` after `//`.
  - `PseudocodeFormatter.format`: it resolves every token type to its nearest styled ancestor and merges consecutive tokens of one resolved type into runs. It writes every run but the last between that type's (begin, end) strings, inside a `minted` environment.
  - The brace post-processor `format_pseudocode`:
    - it reads a trailing offset directive into a cumulative per-level table;
    - it collects the `:{level}{start:end}label` brace entries and cuts them off the text;
    - it rejects a file name with a digit and strips the name to its letters;
    - it marks the referenced lines with `\tikzmark`, each marker at most once;
    - it appends a TikZ picture with one brace per entry.
- **pc2latex.py, the `align*` pipeline.**
  - A second, one-state rule table.
  - `style_text`.
  - The token loop of `pseudocode_to_latex`. It maps each token to a math-mode fragment and draws on the following:
    - row breaks;
    - indentation in tab stops of four;
    - a `\ ` before a keyword that does not start a row;
    - the operator and punctuation tables.

## Files

- **`regex_lexer.dfy`:** the Pygments scanning loop both lexers are built on.
  - There is a stack of states. In each state the rules are tried in order, and the first that matches wins.
  - A rule yields one token, or with `bygroups` one token per non-empty group. It may push states, or pop one.
  - Every regular expression of the two tables is a `Pattern` with a hand-resolved matcher.
  - Proved for any well-formed table: the tokens of a successful scan tile the text.
- **`pseudocode_lexer.dfy` and `pc2latex_lexer.dfy`:** the two rule tables.
  - Each token kind has its own step lemma, which shows the effect of the rule order.
  - Each table has a proof that the scan never stalls.
- **`pseudocode_formatter.dfy`:** the formatter.
  - `Format` and `FeedToken` follow the source loop with its `lasttype`/`lastval` accumulators.
  - Both are proved against `FormatSpec`, a functional view of the written output: the resolved stream cut into runs.
- **`brace_overlay.dfy`:** `format_pseudocode`.
  - `CumulativeOffsets`, `MarkLine`, `MarkEntry`, `AddEntry`, `AddBraces` and `FormatPseudocode` follow the source's loops and loop bodies.
  - Each is proved against a specification function: `Offsets`, `Marked`, `Draws`, `Overlay` and `FormatPseudocodeSpec`.
- **`pc2latex_printer.dfy`:** `style_text` and the token loop of `pseudocode_to_latex`.
  - `TokensToLatex` and its helpers are proved against `Pc2Latex`.
- **`tokens.dfy`, `texts.dfy`, `wrappers.dfy`:** token types as paths of names, string helpers, and `Option`/`Result`.

These are assumptions about code that is not in the repository. They are stated in `RegexLexer`:
- A character that no rule accepts becomes a one-character `Error` token.
- An unmatched newline becomes a `Whitespace` token and resets the stack to `root`.
- `#pop` never pops the bottom state.
- A match of the empty string is reported as `NoProgress`, where Pygments would loop.

The final newline matters. Without the final newline that Pygments appends, `.*` in `comment` matches the empty string at the end of the text (`PseudocodeLexer.CommentAtEndIsStuck`). With that newline the scan always completes (`PseudocodeLexer.NeverStuck`).

## Model

| member | source | states |
|---|---|---|
| RegexLexer.Match | Pseudocode.py:45-67 | a match of any pattern gives group boundaries that lie in the text, one group per pattern group |
| RegexLexer.FirstMatch | Pseudocode.py:58-68 | the rule index found is the first whose pattern matches; when none is found, no rule matches |
| RegexLexer.StepAt | Pseudocode.py:58-68 | one scan step moves forward in the text with a non-empty stack; it finishes only at the end |
| RegexLexer.FirstWordSpec | Pseudocode.py:35-41 | `words(...)` finds a listed word occurring at the position (bounded by `\b` when asked); not finding one means no listed word occurs there |
| RegexLexer.MatchBoundedRun | Pseudocode.py:38-41 | a bounded keyword list matches a stand-alone letter run exactly when the whole run is one of the words |
| RegexLexer.StepByNoRule | Pseudocode.py:58-68 | where no rule matches, a newline becomes `Whitespace` and resets to `root`; any other character becomes a one-character `Error` |
| RegexLexer.RunTiles | Pseudocode.py:43-69 | every character of the text belongs to exactly one token, in order |
| RegexLexer.TilesSpell | Pseudocode.py:43-69 | the tokens of a tiling concatenate to the text they tile |
| RegexLexer.TilesOffsetsIncrease | Pseudocode.py:43-69 | token offsets strictly increase |
| RegexLexer.LexCovers | Pseudocode.py:43-69 | for any well-formed table, the tokens concatenate to the text, start at 0, are not empty and follow one another without gaps |
| PseudocodeLexer.RootIncludesSpecial | Pseudocode.py:44-64 | `include("special")` puts the three number/boolean rules at positions 5-7 of `root` |
| PseudocodeLexer.LexerWellFormed | Pseudocode.py:58-68 | every `bygroups` action names one type per group |
| PseudocodeLexer.Tokenize | Pseudocode.py:43-69 | the scan from `root` at offset 0; stated by `TokenizeCovers`, `NeverStuck` and the step lemmas |
| PseudocodeLexer.TokenizeCovers | Pseudocode.py:43-69 | a successful scan tiles the text with non-empty tokens |
| PseudocodeLexer.MathStep | Pseudocode.py:49-53 | in `math`, an operator is recognised only at the scan position; otherwise the whole non-`$` run is one `Math.Text`, and `$` pops |
| PseudocodeLexer.MathTextExample | Pseudocode.py:49-53 | after the opening `$` of `$x < y$` the text `x < y` is one `Math.Text` token |
| PseudocodeLexer.MathScanExample | Pseudocode.py:34-67 | the whole scan of `$x < y$` and a newline is a delimiter, `x < y` as one `Math.Text` token, a delimiter and the newline as whitespace |
| PseudocodeLexer.MathSpanScan | Pseudocode.py:34-67 | any `$...$` span with no `$` inside and no operator at its start, followed by a newline, scans as the two delimiters around one `Math.Text` token and a final whitespace token |
| PseudocodeLexer.CommentStep | Pseudocode.py:54-57 | in `comment`, a newline pops and anything else is the rest of the line as comment text |
| PseudocodeLexer.CommentStartStep | Pseudocode.py:61-62 | `//` with a `$` later on the line yields prefix, text up to the `$` (when not empty) and `$`, and pushes `comment` then `math`; without a `$` it yields prefix and the rest of the line and pushes `comment` |
| PseudocodeLexer.UnknownCharStep | Pseudocode.py:58-68 | `root` has no operator rule: a character no root rule accepts, such as `<`, is an `Error` token |
| PseudocodeLexer.DigitStep | Pseudocode.py:45-46 | at a digit the whole digit run is `Number.Integer`, because that rule precedes `Float` |
| PseudocodeLexer.PointStep | Pseudocode.py:46 | a `.` followed by digits is `Number.Float` |
| PseudocodeLexer.NumberSplitExample | Pseudocode.py:45-46 | "3.14" lexes as `Integer "3"` and then `Float ".14"` |
| PseudocodeLexer.AlgorithmStep | Pseudocode.py:59 | `ALGORITHM` yields the keyword, the blank after it and the following word, each only when not empty |
| PseudocodeLexer.WordStep | Pseudocode.py:38-41 | a stand-alone word is `Keyword` exactly when it is a keyword, else `Name.Builtin` for `true`/`false`, else `Text`; so "format" is `Text` |
| PseudocodeLexer.KeywordRule | Pseudocode.py:60 | the keyword rule matches a stand-alone word exactly when the word is a keyword |
| PseudocodeLexer.BoolRule | Pseudocode.py:47 | the rule for `true` and `false` matches a stand-alone word exactly when it is one of the two |
| PseudocodeLexer.RootTransit | Pseudocode.py:61-63 | the stacks each `root` rule leaves: `comment`+`math`, `comment`, `math`, or unchanged |
| PseudocodeLexer.RootStepKeeps | Pseudocode.py:58-68 | a `root` step never stalls on a text that ends with a newline, and keeps the scan invariant |
| PseudocodeLexer.MathStepKeeps | Pseudocode.py:49-53 | a `math` step never stalls and keeps the scan invariant |
| PseudocodeLexer.CommentStepKeeps | Pseudocode.py:54-57 | a `comment` step never stalls and keeps the scan invariant |
| PseudocodeLexer.NeverStuck | Pseudocode.py:43-69 | a text that ends with a newline is always scanned to its end |
| PseudocodeLexer.CommentAtEndIsStuck | Pseudocode.py:56 | without a final newline, `//` at the end leaves `.*` matching the empty string |
| Pc2LatexLexer.LexerWellFormed | pc2latex.py:34-42 | every `bygroups` action names one type per group |
| Pc2LatexLexer.StepNeverStuck | pc2latex.py:34-42 | every step moves forward and the stack stays `[root]` |
| Pc2LatexLexer.NeverStuck | pc2latex.py:20-43 | every text is scanned to its end, even without a final newline |
| Pc2LatexLexer.Tokenize | pc2latex.py:20-43 | the scan from `root` at offset 0; stated by `TokenizeCovers`, `NeverStuck` and `TokensIffText` |
| Pc2LatexLexer.TokenizeCovers | pc2latex.py:20-43 | the tokens tile the text, and offsets strictly increase |
| Pc2LatexLexer.TokensIffText | pc2latex.py:98-99 | there are tokens exactly when the text is not empty |
| Pc2LatexLexer.RootAction | pc2latex.py:34-42 | only the operator rule yields `Operator` tokens, and only the `ALGORITHM` rule yields `Name.Label` |
| Pc2LatexLexer.TokenKindsFit | pc2latex.py:14-42 | every `Operator` token is one of the operator words, and every `Name.Label` token is `ALGORITHM` |
| Pc2LatexLexer.CommentStep | pc2latex.py:28 | `//` is one `Punctuation` token `//`, followed, when the line goes on, by a `Comment.Singleline` token of the rest of the line; never two `/` operators |
| Pc2LatexLexer.EllipsisStep | pc2latex.py:41 | `...` is one `Punctuation` token, tried before `.` |
| Pc2LatexLexer.OtherCharStep | pc2latex.py:41 | a punctuation character that starts nothing else is one `Punctuation` token; any other character that starts nothing (`;`, `$`, `_`) is an `Error` token |
| Pc2LatexLexer.LowerStep | pc2latex.py:16-18 | at a lower-case letter: `true`/`false` before `\b` is `Name.Builtin`; else a keyword before `\b` (no leading `\b`) is a `Keyword`; else the lower-case run is one `Name.Variable` |
| Pc2LatexLexer.KeywordRuleMatch | pc2latex.py:38 | the keyword rule matches exactly the keyword found before a `\b`, which is never empty |
| Pc2LatexLexer.UpperStep | pc2latex.py:31 | at a capital: `ALGORITHM` is `Name.Label` even inside a longer word; else a `\b`-bounded run of capitals is `Name.Variable`; else the letter is an `Error` token |
| Pc2LatexLexer.DigitStep | pc2latex.py:22 | at a digit the whole digit run is `Number.Integer` |
| Pc2LatexLexer.PointStep | pc2latex.py:23 | a `.` followed by digits is `Number.Float` |
| Pc2LatexLexer.NumberSplitExample | pc2latex.py:22-23 | "3.14" lexes as `Integer "3"` and then `Float ".14"` |
| Tokens.Parent | Pseudocode.py:120 | `.parent` is the type one name shorter, and a prefix of it |
| PseudocodeFormatter.DerivedEntry | Pseudocode.py:88-107 | a style entry opens with `?\textbf{` for bold, then `?\textit{` for italic, then `?\underline{` for underline, each only when its flag is set, and closes with one `}?` per flag |
| PseudocodeFormatter.FormatterStyles | Pseudocode.py:79-107 | the styles hold the custom keys and the style's keys; an entry derived from the style overrides a custom entry |
| PseudocodeFormatter.Resolve | Pseudocode.py:118-120 | the resolved type is a styled ancestor of the token's type |
| PseudocodeFormatter.ResolveSpec | Pseudocode.py:118-120 | it is the nearest styled ancestor; there is no result only when no ancestor is styled |
| PseudocodeFormatter.ResolveType | Pseudocode.py:118-120 | the `.parent` loop computes `Resolve` |
| PseudocodeFormatter.Resolved | Pseudocode.py:117-120 | the resolved stream has one element per token, its resolved type with its text, and every type is styled |
| PseudocodeFormatter.Runs | Pseudocode.py:122-137 | there are no more runs than tokens, a run exactly when there is a token, and the last run has the last token's type |
| PseudocodeFormatter.RunsAppend | Pseudocode.py:122-137 | a run ends exactly where the resolved type changes: when two streams meet at tokens of different types, the runs of the whole are the runs of the first followed by the runs of the second |
| PseudocodeFormatter.RunsFlatten | Pseudocode.py:122-137 | merging loses no text and reorders none |
| PseudocodeFormatter.RunsAdjacentDiffer | Pseudocode.py:122-123 | neighbouring runs have different types, so merging is maximal |
| PseudocodeFormatter.RunsStyled | Pseudocode.py:117-137 | runs of styled tokens have styled types |
| PseudocodeFormatter.Feed | Pseudocode.py:122-137 | one token keeps the pending run styled |
| PseudocodeFormatter.FeedTracks | Pseudocode.py:122-137 | feeding a token to the accumulators matches adding it to the runs: header, written runs, pending last run |
| PseudocodeFormatter.FedRuns | Pseudocode.py:117-137 | after a stream, the accumulators hold the header, every run but the last, and the last run pending |
| PseudocodeFormatter.FeedToken | Pseudocode.py:122-137 | one pass of the loop body updates `outfile`, `lasttype` and `lastval` as `Feed` |
| PseudocodeFormatter.Format | Pseudocode.py:109-140 | `format` computes `FormatSpec` |
| PseudocodeFormatter.FedFormat | Pseudocode.py:139-140 | the output is what the loop wrote followed by `\n\end{minted}` |
| PseudocodeFormatter.NotAllResolve | Pseudocode.py:118-120 | a token with no styled ancestor fails the whole format |
| PseudocodeFormatter.FormatEdges | Pseudocode.py:113-115 | a successful output starts with the `minted` header line and ends with a newline and `\end{minted}` |
| PseudocodeFormatter.FormatSpec | Pseudocode.py:109-140 | the written output as the resolved stream cut into runs; stated by `FormatOkIffResolvable`, `FormatEdges`, `RunOutput` and `LastTokenNotWritten` |
| PseudocodeFormatter.FormatOkIffResolvable | Pseudocode.py:117-120 | formatting succeeds exactly when every token resolves, and always when the root type is styled |
| PseudocodeFormatter.LastTokenNotWritten | Pseudocode.py:136-140 | the last pending run is never written: the text of the final token has no effect on the output |
| PseudocodeFormatter.SingleRunWritesNothing | Pseudocode.py:122-140 | tokens that all resolve to one type give just the header and the footer |
| PseudocodeFormatter.OneKindOneRun | Pseudocode.py:122-123 | tokens of one type make exactly one run, of that type, holding all their text in order |
| PseudocodeFormatter.FormatResolved | Pseudocode.py:117-120 | resolving the types before formatting changes nothing: the output depends only on the resolved types |
| PseudocodeFormatter.RunOutput | Pseudocode.py:122-137 | a block of one type between tokens of other types is written in its place, between what the tokens before it and the tokens after it give: nothing when its text is empty or the type is `Math.Delimiter`, `?/\!/?` for a comment prefix, otherwise its text between the type's begin and end strings |
| PseudocodeFormatter.DelimiterTextNotWritten | Pseudocode.py:125-127 | the text of a `Math.Delimiter` block that is not last never reaches the output: any other delimiter text gives the same output |
| PseudocodeFormatter.CommentPrefixTextNotWritten | Pseudocode.py:125-131 | a non-empty comment-prefix block that is not last is written as the fixed `?/\!/?` whatever its text |
| BraceOverlay.PrefixSums | Pseudocode.py:170-174 | there is one table entry per increment |
| BraceOverlay.PrefixSumsSnoc | Pseudocode.py:171-174 | one more increment appends the running total plus that increment |
| BraceOverlay.Parsed | Pseudocode.py:171-173 | every increment is what `float` returns for its piece |
| BraceOverlay.CumulativeOffsets | Pseudocode.py:170-174 | the `cumulative_offset` loop computes `Offsets`: the prefix sums of the increments, or the error of a piece `float` rejects |
| BraceOverlay.LevelOffset | Pseudocode.py:280-290 | the horizontal offset of a level; stated by `LevelOffsetInTable`, `LevelOffsetExamples` and `LevelOffsetMonotone` |
| BraceOverlay.LevelOffsetInTable | Pseudocode.py:289-290 | within the table, a level's offset is the sum of its first `level` increments |
| BraceOverlay.LevelOffsetOneIncrement | Pseudocode.py:280-290 | with a single increment `x`, level `k` is at `k * x` |
| BraceOverlay.LevelOffsetExamples | Pseudocode.py:283-288 | increment 2.0 puts level 3 at 6.0; increments 1.0, 1.0 put level 3 at 5.0 |
| BraceOverlay.LevelOffsetMonotone | Pseudocode.py:280-290 | with non-negative increments, a deeper level is never further left |
| BraceOverlay.BeyondMonotone | Pseudocode.py:283-288 | past the table, offsets grow with the level |
| BraceOverlay.SanitizeName | Pseudocode.py:223-226 | the name is rejected exactly when it has a digit, and otherwise is its letters |
| BraceOverlay.Letters | Pseudocode.py:226 | the stripped name is no longer than the name and holds only letters; a single character is kept exactly when it is a letter |
| BraceOverlay.LettersAppend | Pseudocode.py:226 | stripping works character by character: the letters of a joined name are the letters of each part, in order, so with the one-character case every letter is kept in order and every other character removed |
| BraceOverlay.LettersFixed | Pseudocode.py:226 | stripping changes a name exactly when it has a non-letter |
| BraceOverlay.LettersIdempotent | Pseudocode.py:226 | stripping twice is stripping once |
| BraceOverlay.MarkerInjective | Pseudocode.py:294-305 | different lines have different markers |
| BraceOverlay.Marked | Pseudocode.py:243-309 | the marked lines have the same count, and each line gains exactly its suffix |
| BraceOverlay.MarkedShape | Pseudocode.py:243-309 | marking keeps the line count, keeps every line as a prefix of its marked version, and leaves unreferenced lines other than 1 and 2 unchanged |
| BraceOverlay.MarkLine | Pseudocode.py:297-309 | marks a line only when its marker is new; fails exactly when a new marker's line is past the end |
| BraceOverlay.MarkEntry | Pseudocode.py:293-309 | marks both ends of an entry; fails exactly when an end is past the last line |
| BraceOverlay.DrawsSnoc | Pseudocode.py:311-321 | each entry appends its own draw command, in entry order |
| BraceOverlay.LoopStep | Pseudocode.py:273-321 | one handled entry keeps the marks, the markers and the picture in step with the entries handled |
| BraceOverlay.LoopEnd | Pseudocode.py:322 | after the last entry, closing the picture gives the overlay |
| BraceOverlay.AddEntry | Pseudocode.py:273-321 | one pass of the entry loop keeps the loop state, or fails exactly on a line out of range |
| BraceOverlay.StartOverlay | Pseudocode.py:238-265 | lines 1 and 2 get their named marks and the picture starts with its prelude |
| BraceOverlay.AddBraces | Pseudocode.py:238-322 | the markers, the prelude and the entry loop compute `Overlay` |
| BraceOverlay.Overlay | Pseudocode.py:238-322 | the marked lines and the TikZ picture; stated by `OverlayOkIff`, `MarkedShape` and `DrawsSnoc` |
| BraceOverlay.OverlayOkIff | Pseudocode.py:246-309 | the overlay succeeds exactly when lines 1 and 2 exist and every entry's lines exist |
| BraceOverlay.RefersInRange | Pseudocode.py:297-309 | with every entry in range, every referenced line exists |
| BraceOverlay.Cut | Pseudocode.py:177 | `s[:cut]` is the prefix of `s` of length `cut`, or all of `s` when `cut` is past its end |
| BraceOverlay.FormatPseudocode | Pseudocode.py:154-329 | `format_pseudocode`, without its DEBUG dump, computes `FormatPseudocodeSpec` |
| BraceOverlay.FormatPseudocodeSpec | Pseudocode.py:154-329 | what `format_pseudocode` returns; stated by `NoBracesIsHighlight`, `BracesNeedOffsets` and `DigitInNameRejected` |
| BraceOverlay.NoBracesIsHighlight | Pseudocode.py:324-329 | without brace entries the result is the rendered text itself |
| BraceOverlay.BracesNeedOffsets | Pseudocode.py:190-192 | brace entries without an offset directive are rejected |
| BraceOverlay.DigitInNameRejected | Pseudocode.py:223-224 | once the offsets are read, a file name with a digit is rejected |
| Pc2LatexPrinter.StyleText | pc2latex.py:46-57 | `style_text`; stated by `StyleTextShape` and `StyleTextInjective` |
| Pc2LatexPrinter.StyleTextShape | pc2latex.py:46-57 | an unknown style leaves the text as it is; a known one gives the command, the text in braces and nothing else |
| Pc2LatexPrinter.StyleTextInjective | pc2latex.py:46-57 | the styled text determines the text and the style |
| Pc2LatexPrinter.OperatorTableKeys | pc2latex.py:63-78 | the operator table has an entry for every operator the lexer knows, and no other |
| Pc2LatexPrinter.NegationIsLineBreak | pc2latex.py:70 | `!` is written as a newline followed by `eg` |
| Pc2LatexPrinter.AlgorithmLabelIsStyled | pc2latex.py:117-121 | the label is `ALGORITHM` styled sans-serif, then bold, inside `\text{...} \` |
| Pc2LatexPrinter.LastLine | pc2latex.py:112 | the text after the last newline contains no newline |
| Pc2LatexPrinter.LastLineIsLastPiece | pc2latex.py:112 | it is the last piece of `text.split("\n")` |
| Pc2LatexPrinter.Indentation | pc2latex.py:112-114 | one `\qquad ` per full four characters after the last newline |
| Pc2LatexPrinter.WhitespaceTextShape | pc2latex.py:103-114 | a whitespace token with a newline that is not the last token is one row break, whatever precedes its last newline; any other is kept; then one indent per four trailing characters |
| Pc2LatexPrinter.Piece | pc2latex.py:102-133 | the text one token adds; stated by `PieceOkIff`, `WhitespaceToAdd`, `LabelToAdd`, `KeywordToAdd` and the `KeywordAfter` lemmas |
| Pc2LatexPrinter.PieceOkIff | pc2latex.py:102-133 | a token's text fails exactly when it is an operator without an entry |
| Pc2LatexPrinter.WhitespaceToAdd | pc2latex.py:103-114 | the whitespace branch computes `WhitespaceText` |
| Pc2LatexPrinter.LabelToAdd | pc2latex.py:117-121 | the label branch gives the styled label for `ALGORITHM`, and nothing otherwise |
| Pc2LatexPrinter.KeywordToAdd | pc2latex.py:126-131 | the keyword branch computes `KeywordText` from the end of the output so far |
| Pc2LatexPrinter.TextToAdd | pc2latex.py:102-133 | the body of the loop computes `Piece` |
| Pc2LatexPrinter.TokensToLatex | pc2latex.py:96-139 | the loop from the header to the footer computes `Pc2Latex` |
| Pc2LatexPrinter.PrintedSnoc | pc2latex.py:135 | each token appends its text to the output |
| Pc2LatexPrinter.ErrStays | pc2latex.py:125 | once the output has failed it stays failed |
| Pc2LatexPrinter.PrintedOkIff | pc2latex.py:101-135 | the loop fails exactly when some operator has no entry |
| Pc2LatexPrinter.PrintedErrNamesFirst | pc2latex.py:125 | a failure names the first operator without an entry |
| Pc2LatexPrinter.PrintedStartsWithHeader | pc2latex.py:96 | a successful output starts with the header |
| Pc2LatexPrinter.Pc2Latex | pc2latex.py:96-139 | the header, the pieces of all tokens and the footer; stated by `Pc2LatexResult` and `PrintedOkIff` |
| Pc2LatexPrinter.Pc2LatexResult | pc2latex.py:96-139 | `NoTokens` exactly on no tokens; success exactly when every operator has an entry; the output begins with the header and ends with the footer |
| Pc2LatexPrinter.PseudocodeToLatexOkIff | pc2latex.py:98-139 | every lexed text converts except the empty one, which raises at `list(tokens)[-1]` |
| Pc2LatexPrinter.FinalOffsetIsLastToken | pc2latex.py:98-105 | in lexed tokens only the last token has the last offset, so `idx != final_idx` singles it out |
| Pc2LatexPrinter.KeywordAfterHeader | pc2latex.py:126-131 | a keyword right after the header gets no `\ ` |
| Pc2LatexPrinter.KeywordAfterRowBreak | pc2latex.py:126-131 | a keyword after a row break, with or without indentation, gets no `\ ` |
| Pc2LatexPrinter.KeywordAfterText | pc2latex.py:126-131 | a keyword after text that does not end in a space gets `\ ` |
| Pc2LatexPrinter.KeywordAtRowStart | pc2latex.py:126-131 | a keyword that opens the output or follows a newline token is printed without `\ ` |
| Pc2LatexPrinter.KeywordAfterWord | pc2latex.py:126-133 | a keyword right after a name or number not ending in a space is set apart by `\ ` |
| Pc2LatexPrinter.CommentIsOneText | pc2latex.py:88-116 | the `//` prefix opens `\text{` and the following comment text closes it |
| Pc2LatexPrinter.NewlineExamples | pc2latex.py:103-114 | several newlines and spaces make one row break; eight spaces after it make two indents; the last token keeps its newline |
| Pc2LatexPrinter.SpacesExample | pc2latex.py:110-114 | five spaces within a line are kept and add one indent |
| Texts.NatToStringInjective | Pseudocode.py:294-295 | different line numbers render differently |
| Texts.SplitJoinRoundTrip | Pseudocode.py:324 | joining the split lines with newlines gives the text back |

## Left out

- **I/O and the command line.** Reading and writing files, argv, directory walks and the DEBUG `.lex` dump are not modelled. `format_pseudocode` takes its file name as a string.
- **Locating the metadata.** The Python `re` searches that find the offset directive and the brace entries are not modelled. Their results are inputs instead:
  - a `Directive`: the index of its `>`, the shift text and the increment pieces;
  - the list of `Brace` entries: the index of the first `:`, the level, start, end and label.
  - The cut just before the `>` or `:` is modelled.
  - A `Directive` cannot express one crash of the source. The per-line search at Pseudocode.py:162 can accept a directive on a line that is not the text's last, for example when the file ends in a blank line. The search over the whole text at Pseudocode.py:165-167 has no MULTILINE flag, so its `$` then finds nothing, and `search.groups()` at line 168 raises `AttributeError`. The model assumes the directive was found.
- **Values computed by code that is not in the repository.** These are function parameters of `BraceOverlay.FormatPseudocodeSpec`:
  - `float` on an increment piece is `parse`;
  - `str` of a float in the TikZ text is `show`;
  - Pygments' `highlight` is `highlight`.

  Offsets are `real`: floating-point rounding is not modelled.
- **The style-derived entries.** These come from the Pygments default style. They are given as a `map<TokenType, Flags>` parameter of `PseudocodeFormatter.FormatterStyles`.
- **Pygments internals.**
  - The `Formatter` base class is not modelled.
  - `get_tokens` preprocessing is a precondition instead (`EndsWithNewline`): converting `\r\n` and `\r` to `\n`, stripping newlines and appending the final newline.
  - `words()` regex optimisation is not modelled: words are tried in list order, which gives the same matches for these lists.
- **Character classes.** `\d` and `\w` are ASCII; `\s` is the set of characters Python's `str.isspace` accepts.
- **Token types.** They are paths over a fixed set of names (`Tokens.Part`). Only the types the two files use exist.
- **The `print(ttype)`** in the formatter's resolve loop is output only, and is left out.
- **A failing Python call.** A `KeyError` or `IndexError` becomes an `Err` result, not a partial output. `LatexError.LexFailed` cannot occur, by `Pc2LatexLexer.NeverStuck`.
- **Offsets beyond the table.** The offset of a level past the table follows the code and its comment at Pseudocode.py:282: the sum of all cumulative entries plus the last cumulative entry once per missing level. So with increments 1.0 and 1.0, level 3 is at 5.0, not at the 3.0 that one more increment of 1.0 would give (`BraceOverlay.LevelOffsetExamples`).
- PseudocodeFormatter.Runs: its own contract states only the shape of the result (how many runs, and the type of the last one). Which tokens form each run is stated by `RunsAppend` and `OneKindOneRun`, and `RunsFlatten` states that merging keeps all the text in order.
- **TikZ and LaTeX semantics** of the generated text are not modelled.
