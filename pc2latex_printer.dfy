/** The printer of pc2latex.py: `style_text` and the token loop of `pseudocode_to_latex`, which
    turns the lexer's tokens into the body of a LaTeX `fleqn`/`align*` block, one row per line. */
module Pc2LatexPrinter {
  import opened Wrappers
  import opened Texts
  import opened Tokens
  import Pc2LatexLexer

  // ---------------------------------------------------------------------------------------
  // style_text.

  predicate IsStyle(style: string)
  {
    style == "bold" || style == "italics" || style == "sans"
  }

  /** The LaTeX command of a style: `\textbf`, `\textit` or `\textsf`. */
  function StyleCommand(style: string): (r: string)
    requires IsStyle(style)
    ensures |r| == 7
  {
    if style == "bold" then "\\textbf" else if style == "italics" then "\\textit" else "\\textsf"
  }

  /** Wraps the text in the command of a known style; an unknown style leaves it as it is. */
  function StyleText(s: string, style: string): string
  {
    if IsStyle(style) then StyleCommand(style) + "{" + s + "}" else s
  }

  /** A styled text is the command, the text in braces and nothing else. */
  lemma StyleTextShape(s: string, style: string)
    ensures var r := StyleText(s, style);
      && (!IsStyle(style) ==> r == s)
      && (IsStyle(style) ==> |r| == |s| + 9 && r[8..|r| - 1] == s)
      && (IsStyle(style) ==> r[..8] == StyleCommand(style) + "{" && r[|r| - 1] == '}')
  {
  }

  /** Different styles give different commands, so a styled text determines its style. */
  lemma StyleCommandInjective(a: string, b: string)
    requires IsStyle(a) && IsStyle(b)
    ensures StyleCommand(a) == StyleCommand(b) ==> a == b
  {
  }

  /** The styled text and the style can be read back: `style_text` loses nothing. */
  lemma StyleTextInjective(s: string, t: string, a: string, b: string)
    requires IsStyle(a) && IsStyle(b)
    ensures StyleText(s, a) == StyleText(t, b) ==> s == t && a == b
  {
    StyleTextShape(s, a);
    StyleTextShape(t, b);
    if StyleText(s, a) == StyleText(t, b) {
      var r := StyleText(s, a);
      assert r[..7] == StyleCommand(a) && r[..7] == StyleCommand(b);
      StyleCommandInjective(a, b);
    }
  }

  // ---------------------------------------------------------------------------------------
  // The tables and the fixed pieces of the output.

  /** The operator table. Its `!` entry is the non-raw string `"\neg"`, that is a newline
      followed by `eg`. */
  const OperatorTable: map<string, string> := map[
    "**" := "\\ast\\ast", "!=" := "\\neq", "==" := "\\eq", "<=" := "\\leq", ">=" := "\\geq",
    "<-" := "\\leftarrow", "!" := "\neg", "*" := "\\ast", "/" := "\\div", "%" := "\\percent",
    "+" := "+", "-" := "-", "<" := "<", ">" := ">"
  ]

  const PunctuationTable: map<string, string> := map[
    "(" := "\\left( ", ")" := " \\right)", "[" := "\\left[ \\,", "]" := "\\, \\right]",
    "," := ",\\:", "..." := "\\dots", "." := ".", "//" := "\\mathbin{/\\mkern-3mu/} \\text{"
  ]

  const Header: string := "\\begin{fleqn}\n\t\\begin{align*}\n\t\t& "
  const Footer: string := "\t\\end{align*}\n\\end{fleqn}"

  /** The end of an `align*` row and the start of the next one. */
  const RowBreak: string := " \\\\\n\t\t& "

  const Indent: string := "\\qquad "
  const TabSize: nat := 4

  /** Every operator the lexer knows has an entry, and the table has no other keys. */
  lemma OperatorTableKeys()
    ensures forall w :: w in Pc2LatexLexer.Operators <==> w in OperatorTable
  {
  }

  /** The `!` operator is written as a line break followed by `eg`, not as `\neg`. */
  lemma NegationIsLineBreak()
    ensures OperatorTable["!"] == ['\n', 'e', 'g']
  {
  }

  // ---------------------------------------------------------------------------------------
  // The text each token adds.

  /** What follows the last newline (Python's `text.split("\n")[-1]`). */
  function LastLine(s: string): (r: string)
    ensures |r| <= |s| && '\n' !in r
  {
    if |s| == 0 || s[|s| - 1] == '\n' then "" else LastLine(s[..|s| - 1]) + [s[|s| - 1]]
  }

  /** `LastLine` is the last piece of the split. */
  lemma {:induction false} LastLineIsLastPiece(s: string)
    ensures LastLine(s) == SplitLines(s)[|SplitLines(s)| - 1]
  {
    if |s| > 0 {
      var t := s[..|s| - 1];
      LastLineIsLastPiece(t);
    }
  }

  lemma {:induction false} LastLineWithoutNewline(s: string)
    requires '\n' !in s
    ensures LastLine(s) == s
  {
    if |s| > 0 {
      var t := s[..|s| - 1];
      assert '\n' !in t;
      LastLineWithoutNewline(t);
      assert s == t + [s[|s| - 1]];
    }
  }

  lemma {:induction false} LastLineAfterNewline(a: string, b: string)
    requires '\n' !in b
    ensures LastLine(a + "\n" + b) == b
    decreases |b|
  {
    var s := a + "\n" + b;
    if |b| > 0 {
      var b0 := b[..|b| - 1];
      assert s[..|s| - 1] == a + "\n" + b0;
      assert '\n' !in b0;
      LastLineAfterNewline(a, b0);
      assert b == b0 + [b[|b| - 1]];
    }
  }

  /** A `\qquad ` per full tab stop of the spaces after the last newline. */
  function Indentation(text: string): (r: string)
    ensures r == Repeat(Indent, |LastLine(text)| / TabSize)
  {
    var extra := LastLine(text);
    if |extra| > 0 then Repeat(Indent, |extra| / TabSize) else ""
  }

  /** A whitespace token: a row break for a newline unless it is the last token, then the
      indentation. */
  function WhitespaceText(text: string, isFinal: bool): string
  {
    (if '\n' in text && !isFinal then RowBreak else text) + Indentation(text)
  }

  /** A whitespace token with a newline, unless it is the last token, is one row break whatever
      precedes its last newline; any other whitespace token is kept. Either way a `\qquad ` follows
      per four characters after the last newline, which is the whole token when it has none. */
  lemma WhitespaceTextShape(text: string, isFinal: bool)
    ensures '\n' in text && !isFinal ==> WhitespaceText(text, isFinal) == RowBreak + Repeat(Indent, |LastLine(text)| / TabSize)
    ensures '\n' in text && isFinal ==> WhitespaceText(text, isFinal) == text + Repeat(Indent, |LastLine(text)| / TabSize)
    ensures '\n' !in text ==> WhitespaceText(text, isFinal) == text + Repeat(Indent, |text| / TabSize)
  {
    if '\n' !in text {
      LastLineWithoutNewline(text);
    }
  }

  /** The label `ALGORITHM`, bold sans-serif in text mode, followed by a control space. */
  const AlgorithmLabel: string := "\\text{" + "\\textbf{\\textsf{ALGORITHM}}" + "} \\"

  lemma SansAlgorithm()
    ensures StyleText("ALGORITHM", "sans") == "\\textsf{ALGORITHM}"
  {
  }

  lemma BoldSansAlgorithm()
    ensures StyleText("\\textsf{ALGORITHM}", "bold") == "\\textbf{\\textsf{ALGORITHM}}"
  {
  }

  lemma TextBoldSansAlgorithm()
    ensures "\\text{" + "\\textbf{\\textsf{ALGORITHM}}" + "} \\" == AlgorithmLabel
  {
  }

  /** The label is `ALGORITHM` styled sans-serif, then bold, inside `\text`. */
  lemma AlgorithmLabelIsStyled()
    ensures "\\text{" + StyleText(StyleText("ALGORITHM", "sans"), "bold") + "} \\" == AlgorithmLabel
  {
    SansAlgorithm();
    BoldSansAlgorithm();
    TextBoldSansAlgorithm();
  }

  /** A keyword in bold text mode; `\ ` before it unless the output is at the start of a row or
      right after an indentation. */
  function KeywordText(before: string, text: string): string
  {
    (if !EndsWith(before, "& ") && !EndsWith(before, Indent) then "\\ " else "")
    + "\\text{\\textbf{" + text + "}} \\"
  }

  function KeywordBody(text: string): string
  {
    "\\text{\\textbf{" + text + "}} \\"
  }

  datatype LatexError =
    | NoTokens                       // `list(tokens)[-1]` on an empty text: Python's IndexError
    | UnknownOperator(text: string)  // `operators[text]` on a missing key: Python's KeyError
    | LexFailed                      // the lexer stopped; it never does, see Pc2LatexLexer.NeverStuck

  /** The text a token adds, where `before` is the output so far and `finalIdx` the offset of the
      last token. */
  function Piece(before: string, t: Token, finalIdx: nat): Result<string, LatexError>
  {
    if t.kind == Whitespace then Ok(WhitespaceText(t.text, t.offset == finalIdx))
    else if t.kind == CommentSingleline then Ok(t.text + "}")
    else if t.kind == NameLabel then Ok(if t.text == "ALGORITHM" then AlgorithmLabel else "")
    else if t.kind == Punctuation && t.text in PunctuationTable then Ok(PunctuationTable[t.text])
    else if t.kind == Operator then
      (if t.text in OperatorTable then Ok(OperatorTable[t.text]) else Err(UnknownOperator(t.text)))
    else if t.kind == Keyword then Ok(KeywordText(before, t.text))
    else Ok(t.text)
  }

  /** A token the tables can print: an operator must have an entry. */
  predicate Printable(t: Token)
  {
    t.kind == Operator ==> t.text in OperatorTable
  }

  lemma KeywordPiece(before: string, t: Token, finalIdx: nat)
    requires t.kind == Keyword
    ensures Piece(before, t, finalIdx) == Ok(KeywordText(before, t.text))
  {
  }

  lemma WhitespacePiece(before: string, t: Token, finalIdx: nat)
    requires t.kind == Whitespace
    ensures Piece(before, t, finalIdx) == Ok(WhitespaceText(t.text, t.offset == finalIdx))
  {
  }

  /** Names and numbers are printed as they are. */
  lemma VerbatimPiece(before: string, t: Token, finalIdx: nat)
    requires t.kind in {NameVariable, NameBuiltin, NumberInteger, NumberFloat}
    ensures Piece(before, t, finalIdx) == Ok(t.text)
  {
  }

  lemma PieceOkIff(before: string, t: Token, finalIdx: nat)
    ensures Piece(before, t, finalIdx).Ok? <==> Printable(t)
  {
  }

  // ---------------------------------------------------------------------------------------
  // The loop.

  function AddPiece(prev: Result<string, LatexError>, t: Token, finalIdx: nat): Result<string, LatexError>
  {
    if prev.Err? then prev
    else
      var p := Piece(prev.value, t, finalIdx);
      if p.Err? then Err(p.error) else Ok(prev.value + p.value)
  }

  /** The output after the tokens `ts`, starting from the header. */
  function Printed(ts: seq<Token>, finalIdx: nat): Result<string, LatexError>
  {
    if |ts| == 0 then Ok(Header)
    else AddPiece(Printed(ts[..|ts| - 1], finalIdx), ts[|ts| - 1], finalIdx)
  }

  /** `pseudocode_to_latex` after reading and lexing the file. */
  function Pc2Latex(ts: seq<Token>): Result<string, LatexError>
  {
    if |ts| == 0 then Err(NoTokens)
    else
      var body := Printed(ts, ts[|ts| - 1].offset);
      if body.Err? then Err(body.error) else Ok(body.value + Footer)
  }

  /** The whole conversion of a file's text. */
  function PseudocodeToLatex(code: string): Result<string, LatexError>
  {
    var ts := Pc2LatexLexer.Tokenize(code);
    if ts.Err? then Err(LexFailed) else Pc2Latex(ts.value)
  }

  lemma PrintedSnoc(ts: seq<Token>, i: nat, finalIdx: nat)
    requires i < |ts|
    ensures Printed(ts[..i + 1], finalIdx) == AddPiece(Printed(ts[..i], finalIdx), ts[i], finalIdx)
  {
    assert ts[..i + 1][..i] == ts[..i];
  }

  /** Once the output has failed it stays failed. */
  lemma {:induction false} ErrStays(ts: seq<Token>, i: nat, finalIdx: nat)
    requires i <= |ts| && Printed(ts[..i], finalIdx).Err?
    ensures Printed(ts, finalIdx) == Printed(ts[..i], finalIdx)
  {
    if i == |ts| {
      assert ts[..i] == ts;
    } else {
      var init := ts[..|ts| - 1];
      assert init[..i] == ts[..i];
      ErrStays(init, i, finalIdx);
    }
  }

  /** The text a whitespace token adds. */
  method WhitespaceToAdd(text: string, isFinal: bool) returns (r: string)
    ensures r == WhitespaceText(text, isFinal)
  {
    if '\n' in text {
      if !isFinal {
        r := RowBreak;
      } else {
        r := text;
      }
    } else {
      r := text;
    }
    var extraWhitespace := LastLine(text);
    if |extraWhitespace| > 0 {
      r := r + Repeat(Indent, |extraWhitespace| / TabSize);
    } else {
      assert r + Indentation(text) == r;
    }
  }

  /** The text a `Name.Label` token adds. */
  method LabelToAdd(text: string) returns (r: string)
    ensures r == if text == "ALGORITHM" then AlgorithmLabel else ""
  {
    r := "";
    if text == "ALGORITHM" {
      var styled := StyleText(text, "sans");
      styled := StyleText(styled, "bold");
      r := "\\text{" + styled + "} \\";
      AlgorithmLabelIsStyled();
    }
  }

  /** The text a keyword adds, which depends on how the output so far ends. */
  method KeywordToAdd(formatted: string, text: string) returns (r: string)
    ensures r == KeywordText(formatted, text)
  {
    r := "";
    if !EndsWith(formatted, "& ") && !EndsWith(formatted, Indent) {
      r := "\\ ";
    }
    r := r + "\\text{\\textbf{" + text + "}} \\";
  }

  /** The text one token adds, or the error it raises, as the body of the loop computes it. */
  method TextToAdd(formatted: string, t: Token, finalIdx: nat) returns (r: Result<string, LatexError>)
    ensures r == Piece(formatted, t, finalIdx)
  {
    var textToAdd := "";
    if t.kind == Whitespace {
      textToAdd := WhitespaceToAdd(t.text, t.offset == finalIdx);
    } else if t.kind == CommentSingleline {
      textToAdd := t.text + "}";
    } else if t.kind == NameLabel {
      textToAdd := LabelToAdd(t.text);
    } else if t.kind == Punctuation && t.text in PunctuationTable {
      textToAdd := PunctuationTable[t.text];
    } else if t.kind == Operator {
      if t.text !in OperatorTable {
        return Err(UnknownOperator(t.text));
      }
      textToAdd := OperatorTable[t.text];
    } else if t.kind == Keyword {
      textToAdd := KeywordToAdd(formatted, t.text);
    } else {
      textToAdd := t.text;
    }
    return Ok(textToAdd);
  }

  /** The loop of `pseudocode_to_latex`, from the header to the footer. */
  method TokensToLatex(ts: seq<Token>) returns (r: Result<string, LatexError>)
    ensures r == Pc2Latex(ts)
  {
    if |ts| == 0 {
      return Err(NoTokens);
    }
    var finalIdx := ts[|ts| - 1].offset;
    var formatted := Header;
    var i := 0;
    while i < |ts|
      invariant 0 <= i <= |ts|
      invariant Printed(ts[..i], finalIdx) == Ok(formatted)
    {
      var added := TextToAdd(formatted, ts[i], finalIdx);
      PrintedSnoc(ts, i, finalIdx);
      if added.Err? {
        ErrStays(ts, i + 1, finalIdx);
        return Err(added.error);
      }
      formatted := formatted + added.value;
      i := i + 1;
    }
    TakeAll(ts);
    formatted := formatted + Footer;
    return Ok(formatted);
  }

  // ---------------------------------------------------------------------------------------
  // Properties of the output.

  /** The output fails exactly when some operator has no entry. */
  lemma {:induction false} PrintedOkIff(ts: seq<Token>, finalIdx: nat)
    ensures Printed(ts, finalIdx).Ok? <==> forall k :: 0 <= k < |ts| ==> Printable(ts[k])
  {
    if |ts| > 0 {
      var init := ts[..|ts| - 1];
      PrintedOkIff(init, finalIdx);
      if Printed(init, finalIdx).Ok? {
        PieceOkIff(Printed(init, finalIdx).value, ts[|ts| - 1], finalIdx);
      }
      assert forall k :: 0 <= k < |init| ==> init[k] == ts[k];
    }
  }

  /** A failure names the first operator without an entry, as the first `KeyError` would. */
  lemma {:induction false} PrintedErrNamesFirst(ts: seq<Token>, finalIdx: nat)
    requires Printed(ts, finalIdx).Err?
    ensures exists k :: (0 <= k < |ts| && !Printable(ts[k])
      && (forall j :: 0 <= j < k ==> Printable(ts[j]))
      && Printed(ts, finalIdx).error == UnknownOperator(ts[k].text))
  {
    var init := ts[..|ts| - 1];
    var last := ts[|ts| - 1];
    assert forall j :: 0 <= j < |init| ==> init[j] == ts[j];
    if Printed(init, finalIdx).Err? {
      PrintedErrNamesFirst(init, finalIdx);
      var k :| 0 <= k < |init| && !Printable(init[k]) && (forall j :: 0 <= j < k ==> Printable(init[j]))
        && Printed(init, finalIdx).error == UnknownOperator(init[k].text);
      assert ts[k] == init[k];
    } else {
      PrintedOkIff(init, finalIdx);
      PieceOkIff(Printed(init, finalIdx).value, last, finalIdx);
      assert !Printable(ts[|ts| - 1]);
    }
  }

  /** Whatever the tokens, a successful output starts with the header. */
  lemma {:induction false} PrintedStartsWithHeader(ts: seq<Token>, finalIdx: nat)
    requires Printed(ts, finalIdx).Ok?
    ensures |Header| <= |Printed(ts, finalIdx).value|
    ensures Printed(ts, finalIdx).value[..|Header|] == Header
  {
    if |ts| > 0 {
      var init := ts[..|ts| - 1];
      PrintedStartsWithHeader(init, finalIdx);
      var v := Printed(init, finalIdx).value;
      assert Printed(ts, finalIdx).value[..|v|] == v;
    }
  }

  /** The output fails with `NoTokens` exactly on no tokens, with `UnknownOperator` exactly when an
      operator has no entry; otherwise it is the header, the rows and the footer. */
  lemma Pc2LatexResult(ts: seq<Token>)
    ensures Pc2Latex(ts) == Err(NoTokens) <==> |ts| == 0
    ensures Pc2Latex(ts).Ok? <==> |ts| > 0 && forall k :: 0 <= k < |ts| ==> Printable(ts[k])
    ensures Pc2Latex(ts).Ok? ==> var v := Pc2Latex(ts).value;
      && |Header| + |Footer| <= |v| && v[..|Header|] == Header && v[|v| - |Footer|..] == Footer
  {
    if |ts| > 0 {
      var finalIdx := ts[|ts| - 1].offset;
      PrintedOkIff(ts, finalIdx);
      if Printed(ts, finalIdx).Err? {
        PrintedErrNamesFirst(ts, finalIdx);
      } else {
        PrintedStartsWithHeader(ts, finalIdx);
        var b := Printed(ts, finalIdx).value;
        assert (b + Footer)[..|Header|] == b[..|Header|];
      }
    }
  }

  /** Every text the lexer reads converts, except the empty one, on which Python raises its
      `IndexError`. */
  lemma PseudocodeToLatexOkIff(code: string)
    ensures PseudocodeToLatex(code).Ok? <==> |code| > 0
    ensures |code| == 0 ==> PseudocodeToLatex(code) == Err(NoTokens)
  {
    Pc2LatexLexer.TokensIffText(code);
    Pc2LatexLexer.TokenKindsFit(code);
    var ts := Pc2LatexLexer.Tokenize(code).value;
    OperatorTableKeys();
    forall k | 0 <= k < |ts| ensures Printable(ts[k]) {
      assert Pc2LatexLexer.KindsFit(ts[k]);
    }
    Pc2LatexResult(ts);
  }

  /** In lexed tokens the offset of the last token belongs to no other token, so the comparison
      with `final_idx` singles out the last token. */
  lemma FinalOffsetIsLastToken(code: string, k: nat)
    requires Pc2LatexLexer.Tokenize(code).Ok? && k < |Pc2LatexLexer.Tokenize(code).value|
    ensures var ts := Pc2LatexLexer.Tokenize(code).value;
      ts[k].offset == ts[|ts| - 1].offset <==> k == |ts| - 1
  {
    Pc2LatexLexer.TokenizeCovers(code);
  }

  // ---------------------------------------------------------------------------------------
  // Rows and keywords.

  lemma EndsWithAppend(a: string, b: string, w: string)
    requires |w| <= |b|
    ensures EndsWith(a + b, w) <==> EndsWith(b, w)
  {
    assert (a + b)[|a + b| - |w|..] == b[|b| - |w|..];
  }

  lemma EndsWithLast(s: string, w: string)
    requires EndsWith(s, w) && |w| > 0
    ensures s[|s| - 1] == w[|w| - 1]
  {
    assert s[|s| - |w|..][|w| - 1] == s[|s| - 1];
  }

  lemma RepeatEndsWith(s: string, k: nat)
    requires k > 0
    ensures EndsWith(Repeat(s, k), s)
  {
    assert Repeat(s, k) == Repeat(s, k - 1) + s;
  }

  /** The output grows by the text of each token. */
  lemma PrintedStep(ts: seq<Token>, i: nat, finalIdx: nat, before: string, piece: string)
    requires i < |ts| && Printed(ts[..i], finalIdx) == Ok(before)
    requires Piece(before, ts[i], finalIdx) == Ok(piece)
    ensures Printed(ts[..i + 1], finalIdx) == Ok(before + piece)
  {
    PrintedSnoc(ts, i, finalIdx);
  }

  /** The header ends where a row starts, so a keyword right after it needs no leading space. */
  lemma KeywordAfterHeader(text: string)
    ensures KeywordText(Header, text) == KeywordBody(text)
  {
    assert EndsWith(Header, "& ");
  }

  /** A row break, with or without indentation, ends with the start of a row or with an indent. */
  lemma RowStartEnds(ws: string)
    ensures EndsWith(RowBreak + Indentation(ws), "& ") || EndsWith(RowBreak + Indentation(ws), Indent)
  {
    var n := |LastLine(ws)| / TabSize;
    if n > 0 {
      RepeatEndsWith(Indent, n);
      EndsWithAppend(RowBreak, Indentation(ws), Indent);
    } else {
      assert RowBreak + Indentation(ws) == RowBreak;
      assert EndsWith(RowBreak, "& ");
    }
  }

  /** After a row break with or without indentation, a keyword needs no leading space. */
  lemma KeywordAfterRowBreak(b0: string, ws: string, text: string)
    ensures KeywordText(b0 + (RowBreak + Indentation(ws)), text) == KeywordBody(text)
  {
    var tail := RowBreak + Indentation(ws);
    RowStartEnds(ws);
    if EndsWith(tail, "& ") {
      EndsWithAppend(b0, tail, "& ");
    } else {
      EndsWithAppend(b0, tail, Indent);
    }
  }

  /** After a text that does not end in a space, a keyword is set apart by `\ `. */
  lemma KeywordAfterText(b0: string, w: string, text: string)
    requires |w| > 0 && w[|w| - 1] != ' '
    ensures KeywordText(b0 + w, text) == "\\ " + KeywordBody(text)
  {
    var before := b0 + w;
    assert before[|before| - 1] == w[|w| - 1];
    if EndsWith(before, "& ") {
      EndsWithLast(before, "& ");
    }
    if EndsWith(before, Indent) {
      EndsWithLast(before, Indent);
    }
  }

  /** A keyword that opens the output or follows a row break is printed without `\ `. */
  lemma KeywordAtRowStart(ts: seq<Token>, i: nat, finalIdx: nat)
    requires i < |ts| && ts[i].kind == Keyword && Printed(ts[..i], finalIdx).Ok?
    requires i == 0 || (ts[i - 1].kind == Whitespace && '\n' in ts[i - 1].text && ts[i - 1].offset != finalIdx)
    ensures Printed(ts[..i + 1], finalIdx) == Ok(Printed(ts[..i], finalIdx).value + KeywordBody(ts[i].text))
  {
    var before := Printed(ts[..i], finalIdx).value;
    KeywordPiece(before, ts[i], finalIdx);
    if i == 0 {
      TakeNone(ts);
      KeywordAfterHeader(ts[i].text);
    } else {
      var t := ts[i - 1];
      PrintedOkPrefix(ts, i - 1, finalIdx);
      var b0 := Printed(ts[..i - 1], finalIdx).value;
      WhitespacePiece(b0, t, finalIdx);
      PrintedStep(ts, i - 1, finalIdx, b0, RowBreak + Indentation(t.text));
      KeywordAfterRowBreak(b0, t.text, ts[i].text);
    }
    PrintedStep(ts, i, finalIdx, before, KeywordBody(ts[i].text));
  }

  /** A keyword right after a name or a number that does not end in a space is set apart by `\ `. */
  lemma KeywordAfterWord(ts: seq<Token>, i: nat, finalIdx: nat)
    requires 0 < i < |ts| && ts[i].kind == Keyword && Printed(ts[..i], finalIdx).Ok?
    requires ts[i - 1].kind in {NameVariable, NameBuiltin, NumberInteger, NumberFloat}
    requires |ts[i - 1].text| > 0 && ts[i - 1].text[|ts[i - 1].text| - 1] != ' '
    ensures Printed(ts[..i + 1], finalIdx) == Ok(Printed(ts[..i], finalIdx).value + ("\\ " + KeywordBody(ts[i].text)))
  {
    var t := ts[i - 1];
    var before := Printed(ts[..i], finalIdx).value;
    PrintedOkPrefix(ts, i - 1, finalIdx);
    var b0 := Printed(ts[..i - 1], finalIdx).value;
    VerbatimPiece(b0, t, finalIdx);
    PrintedStep(ts, i - 1, finalIdx, b0, t.text);
    KeywordPiece(before, ts[i], finalIdx);
    KeywordAfterText(b0, t.text, ts[i].text);
    PrintedStep(ts, i, finalIdx, before, "\\ " + KeywordBody(ts[i].text));
  }

  /** The comment prefix opens `\text{` and the comment text that follows closes it, so a comment
      line is one balanced `\text{...}`. */
  lemma CommentIsOneText(ts: seq<Token>, i: nat, finalIdx: nat)
    requires i + 1 < |ts| && Printed(ts[..i], finalIdx).Ok?
    requires ts[i].kind == Punctuation && ts[i].text == "//" && ts[i + 1].kind == CommentSingleline
    ensures Printed(ts[..i + 2], finalIdx)
         == Ok(Printed(ts[..i], finalIdx).value + "\\mathbin{/\\mkern-3mu/} \\text{" + ts[i + 1].text + "}")
  {
    var before := Printed(ts[..i], finalIdx).value;
    var open := "\\mathbin{/\\mkern-3mu/} \\text{";
    assert Piece(before, ts[i], finalIdx) == Ok(open);
    PrintedStep(ts, i, finalIdx, before, open);
    assert Piece(before + open, ts[i + 1], finalIdx) == Ok(ts[i + 1].text + "}");
    PrintedStep(ts, i + 1, finalIdx, before + open, ts[i + 1].text + "}");
    assert ts[..i + 2] == ts[..(i + 1) + 1];
    assert (before + open) + (ts[i + 1].text + "}") == before + open + ts[i + 1].text + "}";
  }

  /** The output before a token that printed is itself a success. */
  lemma PrintedOkPrefix(ts: seq<Token>, i: nat, finalIdx: nat)
    requires i < |ts| && Printed(ts[..i + 1], finalIdx).Ok?
    ensures Printed(ts[..i], finalIdx).Ok?
  {
    PrintedSnoc(ts, i, finalIdx);
  }

  /** How a newline is printed: one row break, however many newlines and spaces come before the
      last one, then a `\qquad ` per four spaces after it; the last token keeps its newline. */
  lemma NewlineExamples()
    ensures WhitespaceText("\n        ", false) == RowBreak + Indent + Indent
    ensures WhitespaceText("  \n   ", false) == RowBreak
    ensures WhitespaceText("\n", true) == "\n"
  {
    LastLineAfterNewline("", "        ");
    assert "" + "\n" + "        " == "\n        ";
    assert Repeat(Indent, 2) == Indent + Indent by {
      assert Repeat(Indent, 1) == Indent;
    }
    LastLineAfterNewline("  ", "   ");
    assert "  " + "\n" + "   " == "  \n   ";
    LastLineAfterNewline("", "");
    assert "" + "\n" + "" == "\n";
  }

  /** Spaces within a line are kept and, four at a time, also indent. */
  lemma SpacesExample()
    ensures WhitespaceText("     ", false) == "     " + Indent
  {
    LastLineWithoutNewline("     ");
    assert Repeat(Indent, 1) == Indent;
  }
}
