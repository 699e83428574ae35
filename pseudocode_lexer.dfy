/** The rule table of `PseudocodeLexer` in Pseudocode.py: states `root`, `math` (inside `$...$`)
    and `comment` (the rest of a `//` line). */
module PseudocodeLexer {
  import opened Wrappers
  import opened Texts
  import opened Tokens
  import opened RegexLexer

  const Operators: seq<string> := ["**", "!=", "==", "<=", ">=", "<-", "!", "*", "/", "%", "+", "-", "<", ">"]

  const Keywords: seq<string> := ["if", "else", "while", "repeat", "for", "to", "do", "return", "until", "then"]

  const PunctuationChars: set<char> := {'[', ']', '(', ')', '{', '}', ',', '.', ';'}

  /** The `special` state, included in `root`. */
  const SpecialRules: seq<Rule> := [
    Rule(Run1(DigitClass), Single(NumberInteger), Stay),
    Rule(FloatNumber, Single(NumberFloat), Stay),
    Rule(BoolWord, Single(NameBuiltin), Stay)
  ]

  const MathRules: seq<Rule> := [
    Rule(Words(Operators), Single(Operator), Stay),
    Rule(Run1(NotDollarClass), Single(MathText), Stay),
    Rule(Literal("$"), Single(MathDelimiter), Pop)
  ]

  const CommentRules: seq<Rule> := [
    Rule(Literal("\n"), Single(Whitespace), Pop),
    Rule(Run0(LineClass), Single(CustomCommentText), Stay)
  ]

  const RootRules: seq<Rule> := [
    Rule(AlgorithmHeader, ByGroups([AlgorithmKeyword, Whitespace, AlgorithmName]), Stay),
    Rule(BoundedWords(Keywords, true), Single(Keyword), Stay),
    Rule(CommentUpToDollar, ByGroups([CustomCommentPrefix, CustomCommentText, MathDelimiter]), Push([CommentState, MathState])),
    Rule(CommentToEol, ByGroups([CustomCommentPrefix, CustomCommentText]), Push([CommentState])),
    Rule(Literal("$"), Single(MathDelimiter), Push([MathState])),
    // include("special")
    Rule(Run1(DigitClass), Single(NumberInteger), Stay),
    Rule(FloatNumber, Single(NumberFloat), Stay),
    Rule(BoolWord, Single(NameBuiltin), Stay),
    Rule(OneChar(PunctuationChars), Single(Punctuation), Stay),
    Rule(Run1(LetterClass), Single(Text), Stay),
    Rule(Run1(SpaceClass), Single(Whitespace), Stay)
  ]

  const Lexer: Grammar := Grammar(RootRules, MathRules, CommentRules)

  lemma RootIncludesSpecial()
    ensures RootRules[5..8] == SpecialRules
  {
  }

  lemma LexerWellFormed()
    ensures WellFormed(Lexer)
  {
    forall st: State, i | 0 <= i < |RulesOf(Lexer, st)| ensures WellFormedRule(RulesOf(Lexer, st)[i]) {
    }
  }

  /** `get_tokens_unprocessed` of the Pseudocode.py lexer, on the text as the driver receives it. */
  function Tokenize(s: string): Result<seq<Token>, LexError>
  {
    Lex(Lexer, s)
  }

  /** A successful scan covers the text: no gap, no overlap, no empty token. */
  lemma TokenizeCovers(s: string)
    requires Tokenize(s).Ok?
    ensures var ts := Tokenize(s).value;
      && Concat(TextsOf(ts)) == s
      && (|ts| > 0 ==> ts[0].offset == 0)
      && (forall i :: 0 <= i < |ts| ==> |ts[i].text| > 0)
      && (forall i :: 0 <= i && i + 1 < |ts| ==> ts[i + 1].offset == ts[i].offset + |ts[i].text|)
  {
    LexerWellFormed();
    LexCovers(Lexer, s);
  }

  // ---------------------------------------------------------------------------------------
  // Facts about the table.

  lemma RulesProgress()
    ensures forall i :: 0 <= i < |RootRules| ==> Progressing(RootRules[i].pattern)
    ensures forall i :: 0 <= i < |MathRules| ==> Progressing(MathRules[i].pattern)
  {
  }

  lemma KeywordsAreLetters()
    ensures LetterWords(Keywords)
  {
  }

  /** No keyword begins at a character that is not a letter. */
  lemma NoKeywordAt(s: string, pos: nat, bounded: bool)
    requires pos <= |s| && (pos < |s| ==> !IsLetter(s[pos]))
    ensures FirstWord(Keywords, s, pos, bounded).None?
  {
    KeywordsAreLetters();
    forall i | 0 <= i < |Keywords| ensures !StartsWithAt(s, pos, Keywords[i]) {
      if StartsWithAt(s, pos, Keywords[i]) { StartsWithAtHead(s, pos, Keywords[i]); }
    }
    FirstWordNone(Keywords, s, pos, bounded);
  }

  /** The `root` rules before the number rules need a letter, `/` or `$` to match. */
  lemma RootHeadRulesFail(s: string, pos: nat)
    requires pos <= |s| && (pos < |s| ==> !IsLetter(s[pos]) && s[pos] != '/' && s[pos] != '$')
    ensures FailsBefore(RootRules, s, pos, 5)
  {
    assert Match(RootRules[0].pattern, s, pos).None? by {
      NotAt(s, pos, "ALGORITHM");
      NoHeader(s, pos);
    }
    assert Match(RootRules[1].pattern, s, pos).None? by {
      NoKeywordAt(s, pos, true);
      MatchBoundedWords(Keywords, true, s, pos);
    }
    assert Match(RootRules[2].pattern, s, pos).None? && Match(RootRules[3].pattern, s, pos).None? by {
      NotAt(s, pos, "//");
      NoComment(s, pos);
    }
    assert Match(RootRules[4].pattern, s, pos).None? by {
      NotAt(s, pos, "$");
      MatchLiteral("$", s, pos);
    }
    assert FailsBefore(RootRules, s, pos, 1);
    assert FailsBefore(RootRules, s, pos, 2);
    assert FailsBefore(RootRules, s, pos, 3);
    assert FailsBefore(RootRules, s, pos, 4);
  }

  // ---------------------------------------------------------------------------------------
  // One step in each state.

  /** Inside `math`, an operator is recognised only where a scan position starts; anywhere
      else the whole run of non-`$` characters is one `MathText` token, and `$` pops. */
  lemma MathStep(s: string, pos: nat, stack: seq<State>)
    requires pos < |s| && |stack| > 0 && Top(stack) == MathState
    ensures var st := StepAt(Lexer, s, pos, stack);
      var op := FirstWord(Operators, s, pos, false);
      var e := SpanEnd(s, pos, NotDollarClass);
      && (op.Some? ==> st == Advance([Token(pos, Operator, op.value)], pos + |op.value|, stack))
      && (op.None? && s[pos] != '$' ==> st == Advance([Token(pos, MathText, s[pos..e])], e, stack))
      && (op.None? && s[pos] == '$' ==> st == Advance([Token(pos, MathDelimiter, "$")], pos + 1, Transit(stack, Pop)))
  {
    var op := FirstWord(Operators, s, pos, false);
    MathOperatorRule(s, pos);
    if op.Some? {
      MathOperatorStep(s, pos, stack);
    } else if s[pos] != '$' {
      MathTextStep(s, pos, stack);
    } else {
      MathCloseStep(s, pos, stack);
    }
  }

  lemma MathOperatorRule(s: string, pos: nat)
    requires pos <= |s|
    ensures var op := FirstWord(Operators, s, pos, false);
      Match(MathRules[0].pattern, s, pos) == if op.Some? then Some([pos, pos + |op.value|]) else None
  {
    assert MathRules[0].pattern == Words(Operators);
    MatchWordsList(Operators, s, pos);
  }

  lemma MathOperatorStep(s: string, pos: nat, stack: seq<State>)
    requires pos < |s| && |stack| > 0 && Top(stack) == MathState
    requires FirstWord(Operators, s, pos, false).Some?
    ensures var op := FirstWord(Operators, s, pos, false).value;
      StepAt(Lexer, s, pos, stack) == Advance([Token(pos, Operator, op)], pos + |op|, stack)
  {
    var op := FirstWord(Operators, s, pos, false).value;
    MathOperatorRule(s, pos);
    RulesProgress();
    ProgressingMatch(MathRules[0].pattern, s, pos);
    StepByRule(Lexer, s, pos, stack, 0, [pos, pos + |op|]);
  }

  lemma MathTextStep(s: string, pos: nat, stack: seq<State>)
    requires pos < |s| && |stack| > 0 && Top(stack) == MathState
    requires FirstWord(Operators, s, pos, false).None? && s[pos] != '$'
    ensures var e := SpanEnd(s, pos, NotDollarClass);
      StepAt(Lexer, s, pos, stack) == Advance([Token(pos, MathText, s[pos..e])], e, stack)
  {
    MathOperatorRule(s, pos);
    var e := SpanEnd(s, pos, NotDollarClass);
    assert Match(MathRules[1].pattern, s, pos) == Some([pos, e]) by { MatchRun1(NotDollarClass, s, pos); }
    StepByRule(Lexer, s, pos, stack, 1, [pos, e]);
  }

  lemma MathCloseStep(s: string, pos: nat, stack: seq<State>)
    requires pos < |s| && |stack| > 0 && Top(stack) == MathState
    requires FirstWord(Operators, s, pos, false).None? && s[pos] == '$'
    ensures StepAt(Lexer, s, pos, stack) == Advance([Token(pos, MathDelimiter, "$")], pos + 1, Transit(stack, Pop))
  {
    MathOperatorRule(s, pos);
    assert Match(MathRules[1].pattern, s, pos).None? by { MatchRun1(NotDollarClass, s, pos); }
    SliceOne(s, pos, '$');
    assert Match(MathRules[2].pattern, s, pos) == Some([pos, pos + 1]) by { MatchLiteral("$", s, pos); }
    assert FailsBefore(MathRules, s, pos, 2);
    StepByRule(Lexer, s, pos, stack, 2, [pos, pos + 1]);
  }

  /** Inside `comment`, a newline pops back and anything else is the rest of the line. */
  lemma CommentStep(s: string, pos: nat, stack: seq<State>)
    requires pos < |s| && |stack| > 0 && Top(stack) == CommentState
    ensures var st := StepAt(Lexer, s, pos, stack);
      var e := SpanEnd(s, pos, LineClass);
      && (s[pos] == '\n' ==> st == Advance([Token(pos, Whitespace, "\n")], pos + 1, Transit(stack, Pop)))
      && (s[pos] != '\n' ==> e > pos && st == Advance([Token(pos, CustomCommentText, s[pos..e])], e, stack))
  {
    MatchLiteral("\n", s, pos);
    if s[pos] == '\n' {
      SliceOne(s, pos, '\n');
      StepByRule(Lexer, s, pos, stack, 0, [pos, pos + 1]);
    } else {
      NotAt(s, pos, "\n");
      var e := SpanEnd(s, pos, LineClass);
      assert Match(CommentRules[1].pattern, s, pos) == Some([pos, e]) by { MatchRun0(LineClass, s, pos); }
      StepByRule(Lexer, s, pos, stack, 1, [pos, e]);
    }
  }

  /** The characters an operator can begin with. */
  const OperatorHeads: set<char> := {'*', '!', '=', '<', '>', '/', '%', '+', '-'}

  lemma NoOperatorAt(s: string, pos: nat)
    requires pos < |s| && s[pos] !in OperatorHeads
    ensures FirstWord(Operators, s, pos, false).None?
  {
    assert forall i :: 0 <= i < |Operators| ==> |Operators[i]| > 0 && Operators[i][0] in OperatorHeads;
    forall i | 0 <= i < |Operators| ensures !StartsWithAt(s, pos, Operators[i]) {
      if StartsWithAt(s, pos, Operators[i]) { StartsWithAtHead(s, pos, Operators[i]); }
    }
    FirstWordNone(Operators, s, pos, false);
  }

  /** In `$x < y$` the text after the opening `$` begins with a letter, so no operator rule
      fires and the whole `x < y` is one `MathText` token. */
  lemma MathTextExample(s: string)
    requires s == "$x < y$\n"
    ensures StepAt(Lexer, s, 1, [RootState, MathState]) == Advance([Token(1, MathText, "x < y")], 6, [RootState, MathState])
  {
    var stack := [RootState, MathState];
    assert FirstWord(Operators, s, 1, false).None? by { NoOperatorAt(s, 1); }
    assert SpanEnd(s, 1, NotDollarClass) == 6 by { SpanEndIs(s, 1, NotDollarClass, 6); }
    assert s[1..6] == "x < y";
    MathTextStep(s, 1, stack);
  }

  /** `$` in `root` is a `Math.Delimiter` token and enters `math`. */
  lemma MathOpenStep(s: string, pos: nat, stack: seq<State>)
    requires pos < |s| && |stack| > 0 && Top(stack) == RootState && s[pos] == '$'
    ensures StepAt(Lexer, s, pos, stack) == Advance([Token(pos, MathDelimiter, "$")], pos + 1, stack + [MathState])
  {
    DollarHeadFails(s, pos);
    SliceOne(s, pos, '$');
    assert Match(RootRules[4].pattern, s, pos) == Some([pos, pos + 1]) by { MatchLiteral("$", s, pos); }
    StepByRule(Lexer, s, pos, stack, 4, [pos, pos + 1]);
  }

  /** The header, keyword and comment rules of `root` fail at `$`. */
  lemma DollarHeadFails(s: string, pos: nat)
    requires pos < |s| && s[pos] == '$'
    ensures FailsBefore(RootRules, s, pos, 4)
  {
    assert Match(RootRules[0].pattern, s, pos).None? by {
      NotAt(s, pos, "ALGORITHM");
      NoHeader(s, pos);
    }
    assert Match(RootRules[1].pattern, s, pos).None? by {
      NoKeywordAt(s, pos, true);
      MatchBoundedWords(Keywords, true, s, pos);
    }
    assert Match(RootRules[2].pattern, s, pos).None? && Match(RootRules[3].pattern, s, pos).None? by {
      NotAt(s, pos, "//");
      NoComment(s, pos);
    }
    assert FailsBefore(RootRules, s, pos, 1);
    assert FailsBefore(RootRules, s, pos, 2);
    assert FailsBefore(RootRules, s, pos, 3);
  }

  /** A run of white space in `root` is one `Whitespace` token. */
  lemma SpaceStep(s: string, pos: nat, stack: seq<State>)
    requires pos < |s| && |stack| > 0 && Top(stack) == RootState && IsSpace(s[pos])
    ensures var e := SpanEnd(s, pos, SpaceClass);
      StepAt(Lexer, s, pos, stack) == Advance([Token(pos, Whitespace, s[pos..e])], e, stack)
  {
    SpaceIsNotSymbol(s[pos]);
    SpaceHeadRulesFail(s, pos);
    var e := SpanEnd(s, pos, SpaceClass);
    assert Match(RootRules[10].pattern, s, pos) == Some([pos, e]) by { MatchRun1(SpaceClass, s, pos); }
    StepBySingle(Lexer, s, pos, stack, 10, e, Whitespace);
  }

  /** All `root` rules before the white-space rule fail at a white-space character. */
  lemma SpaceHeadRulesFail(s: string, pos: nat)
    requires pos < |s| && !IsWordChar(s[pos]) && s[pos] !in PunctuationChars
    requires s[pos] != '/' && s[pos] != '$' && s[pos] != '.'
    ensures FailsBefore(RootRules, s, pos, 10)
  {
    RootHeadRulesFail(s, pos);
    assert Match(RootRules[5].pattern, s, pos).None? by { MatchRun1(DigitClass, s, pos); }
    assert Match(RootRules[6].pattern, s, pos).None? by { MatchFloatNumber(s, pos); }
    assert Match(RootRules[7].pattern, s, pos).None? by {
      MatchBoolWord(s, pos);
      NotAt(s, pos, "true");
      NotAt(s, pos, "false");
    }
    assert Match(RootRules[8].pattern, s, pos).None? by { MatchOneChar(PunctuationChars, s, pos); }
    assert Match(RootRules[9].pattern, s, pos).None? by { MatchRun1(LetterClass, s, pos); }
    assert FailsBefore(RootRules, s, pos, 6);
    assert FailsBefore(RootRules, s, pos, 7);
    assert FailsBefore(RootRules, s, pos, 8);
    assert FailsBefore(RootRules, s, pos, 9);
  }

  /** No white-space character is a word character or one that another `root` rule begins with. */
  lemma SpaceIsNotSymbol(c: char)
    requires IsSpace(c)
    ensures !IsWordChar(c) && c !in PunctuationChars && c != '/' && c != '$' && c != '.'
  {
  }

  /** At the end of the text no `root` rule matches, and the scan finishes. */
  lemma RootAtEnd(s: string, stack: seq<State>)
    requires |stack| > 0 && Top(stack) == RootState
    ensures StepAt(Lexer, s, |s|, stack) == Finished
  {
    match FirstMatch(RootRules, s, |s|) {
      case Some((i, b)) =>
        RulesProgress();
        ProgressingMatch(RootRules[i].pattern, s, |s|);
      case None =>
    }
  }

  /** The whole scan of a text that is one `$...$` span and a newline, where the span's text does
      not start with an operator: the two delimiters, all the text between them as one
      `Math.Text` token, and the newline. */
  lemma MathSpanScan(s: string, n: nat)
    requires |s| == n + 3 && n > 0 && s[0] == '$' && s[n + 1] == '$' && s[n + 2] == '\n'
    requires s[1] !in OperatorHeads && forall i :: 1 <= i < n + 1 ==> s[i] != '$'
    ensures Tokenize(s) == Ok([
      Token(0, MathDelimiter, "$"), Token(1, MathText, s[1..n + 1]), Token(n + 1, MathDelimiter, "$"),
      Token(n + 2, Whitespace, "\n")])
  {
    var t0 := Token(0, MathDelimiter, "$");
    var t1 := Token(1, MathText, s[1..n + 1]);
    var t2 := Token(n + 1, MathDelimiter, "$");
    var t3 := Token(n + 2, Whitespace, "\n");
    assert [t0] + [t1, t2, t3] == [t0, t1, t2, t3];
    SpanEndIs(s, 1, NotDollarClass, n + 1);
    MathSpanFromText(s, n);
    MathOpenToMath(s);
    RunAdvance(Lexer, s, 0, [RootState], [t0], 1, [RootState, MathState], [t1, t2, t3]);
  }

  /** The opening `$` of the text enters `math`. */
  lemma MathOpenToMath(s: string)
    requires 0 < |s| && s[0] == '$'
    ensures StepAt(Lexer, s, 0, [RootState]) == Advance([Token(0, MathDelimiter, "$")], 1, [RootState, MathState])
  {
    MathOpenStep(s, 0, [RootState]);
    assert [RootState] + [MathState] == [RootState, MathState];
  }

  /** From the text after the opening `$` to the end. */
  lemma MathSpanFromText(s: string, n: nat)
    requires |s| == n + 3 && n > 0 && s[n + 1] == '$' && s[n + 2] == '\n' && s[1] !in OperatorHeads
    requires s[1] != '$' && SpanEnd(s, 1, NotDollarClass) == n + 1
    ensures Run(Lexer, s, 1, [RootState, MathState])
         == Ok([Token(1, MathText, s[1..n + 1]), Token(n + 1, MathDelimiter, "$"), Token(n + 2, Whitespace, "\n")])
  {
    var t1 := Token(1, MathText, s[1..n + 1]);
    var t2 := Token(n + 1, MathDelimiter, "$");
    var t3 := Token(n + 2, Whitespace, "\n");
    assert [t1] + [t2, t3] == [t1, t2, t3];
    NoOperatorAt(s, 1);
    MathSpanTail(s, n);
    MathTextStep(s, 1, [RootState, MathState]);
    RunAdvance(Lexer, s, 1, [RootState, MathState], [t1], n + 1, [RootState, MathState], [t2, t3]);
  }

  /** The closing `$` pops back to `root`, and the final newline ends the scan. */
  lemma MathSpanTail(s: string, n: nat)
    requires |s| == n + 3 && s[n + 1] == '$' && s[n + 2] == '\n'
    ensures Run(Lexer, s, n + 1, [RootState, MathState])
         == Ok([Token(n + 1, MathDelimiter, "$"), Token(n + 2, Whitespace, "\n")])
  {
    var t2 := Token(n + 1, MathDelimiter, "$");
    var t3 := Token(n + 2, Whitespace, "\n");
    FinalNewlineRun(s, n + 2);
    MathCloseToRoot(s, n + 1);
    RunAdvance(Lexer, s, n + 1, [RootState, MathState], [t2], n + 2, [RootState], [t3]);
    assert [t2] + [t3] == [t2, t3];
  }

  /** A `$` inside `math` that opened in `root` returns to `root`. */
  lemma MathCloseToRoot(s: string, pos: nat)
    requires pos < |s| && s[pos] == '$'
    ensures StepAt(Lexer, s, pos, [RootState, MathState]) == Advance([Token(pos, MathDelimiter, "$")], pos + 1, [RootState])
  {
    NoOperatorAt(s, pos);
    MathCloseStep(s, pos, [RootState, MathState]);
    assert Transit([RootState, MathState], Pop) == [RootState];
  }

  /** The newline at the end of the text is the last token. */
  lemma FinalNewlineRun(s: string, pos: nat)
    requires pos + 1 == |s| && s[pos] == '\n'
    ensures Run(Lexer, s, pos, [RootState]) == Ok([Token(pos, Whitespace, "\n")])
  {
    var t := Token(pos, Whitespace, "\n");
    RootAtEnd(s, [RootState]);
    RunFinished(Lexer, s, [RootState]);
    NewlineAtEnd(s, pos);
    RunAdvance(Lexer, s, pos, [RootState], [t], pos + 1, [RootState], []);
    assert [t] + [] == [t];
  }

  /** A newline that ends the text, in `root`, is one `Whitespace` token. */
  lemma NewlineAtEnd(s: string, pos: nat)
    requires pos + 1 == |s| && s[pos] == '\n'
    ensures StepAt(Lexer, s, pos, [RootState]) == Advance([Token(pos, Whitespace, "\n")], pos + 1, [RootState])
  {
    SpaceStep(s, pos, [RootState]);
    SpanEndIs(s, pos, SpaceClass, pos + 1);
    SliceOne(s, pos, '\n');
  }

  /** In `$x < y$` the text between the delimiters is one token, although it holds the operator `<`. */
  lemma MathScanExample()
    ensures Tokenize("$x < y$\n") == Ok([
      Token(0, MathDelimiter, "$"), Token(1, MathText, "x < y"), Token(6, MathDelimiter, "$"),
      Token(7, Whitespace, "\n")])
  {
    var s := "$x < y$\n";
    assert s[1..6] == "x < y";
    MathSpanScan(s, 5);
  }

  /** `root` has no operator rule: outside `$...$` a character that no `root` rule accepts, such
      as `<`, is a one-character `Error` token. */
  lemma UnknownCharStep(s: string, pos: nat, stack: seq<State>)
    requires pos < |s| && |stack| > 0 && Top(stack) == RootState
    requires !IsLetter(s[pos]) && !IsDigit(s[pos]) && !IsSpace(s[pos]) && s[pos] !in PunctuationChars
    requires s[pos] != '/' && s[pos] != '$' && s[pos] != '.'
    ensures StepAt(Lexer, s, pos, stack) == Advance([Token(pos, Error, [s[pos]])], pos + 1, stack)
  {
    RootHeadRulesFail(s, pos);
    assert Match(RootRules[5].pattern, s, pos).None? by { MatchRun1(DigitClass, s, pos); }
    assert SpanEnd(s, pos, DigitClass) == pos;
    assert Match(RootRules[6].pattern, s, pos).None? by { MatchFloatNumber(s, pos); }
    assert Match(RootRules[7].pattern, s, pos).None? by {
      MatchBoolWord(s, pos);
      NotAt(s, pos, "true");
      NotAt(s, pos, "false");
    }
    assert Match(RootRules[8].pattern, s, pos).None? by { MatchOneChar(PunctuationChars, s, pos); }
    assert Match(RootRules[9].pattern, s, pos).None? by { MatchRun1(LetterClass, s, pos); }
    assert Match(RootRules[10].pattern, s, pos).None? by { MatchRun1(SpaceClass, s, pos); }
    assert FailsBefore(RootRules, s, pos, 6);
    assert FailsBefore(RootRules, s, pos, 7);
    assert FailsBefore(RootRules, s, pos, 8);
    assert FailsBefore(RootRules, s, pos, 9);
    assert FailsBefore(RootRules, s, pos, 10);
    assert FailsBefore(RootRules, s, pos, 11);
    StepByNoRule(Lexer, s, pos, stack);
  }

  /** `Integer` precedes `Float`: at a digit the whole digit run is an integer, so "3.14" is
      `Integer "3"` and then `Float ".14"`. */
  lemma DigitStep(s: string, pos: nat, stack: seq<State>)
    requires pos < |s| && |stack| > 0 && Top(stack) == RootState && IsDigit(s[pos])
    ensures var e := SpanEnd(s, pos, DigitClass);
      StepAt(Lexer, s, pos, stack) == Advance([Token(pos, NumberInteger, s[pos..e])], e, stack)
  {
    RootHeadRulesFail(s, pos);
    var e := SpanEnd(s, pos, DigitClass);
    assert Match(RootRules[5].pattern, s, pos) == Some([pos, e]) by { MatchRun1(DigitClass, s, pos); }
    StepByRule(Lexer, s, pos, stack, 5, [pos, e]);
  }

  /** A `.` followed by digits, in `root`, is a `Float` token. */
  lemma PointStep(s: string, pos: nat, stack: seq<State>)
    requires pos + 1 < |s| && |stack| > 0 && Top(stack) == RootState && s[pos] == '.' && IsDigit(s[pos + 1])
    ensures var e := SpanEnd(s, pos + 1, DigitClass);
      StepAt(Lexer, s, pos, stack) == Advance([Token(pos, NumberFloat, s[pos..e])], e, stack)
  {
    RootHeadRulesFail(s, pos);
    var e := SpanEnd(s, pos + 1, DigitClass);
    assert Match(RootRules[5].pattern, s, pos).None? by { MatchRun1(DigitClass, s, pos); }
    assert SpanEnd(s, pos, DigitClass) == pos;
    assert Match(RootRules[6].pattern, s, pos) == Some([pos, e]);
    StepByRule(Lexer, s, pos, stack, 6, [pos, e]);
  }

  /** The two steps of "3.14". */
  lemma NumberSplitExample(s: string)
    requires s == "3.14\n"
    ensures StepAt(Lexer, s, 0, [RootState]) == Advance([Token(0, NumberInteger, "3")], 1, [RootState])
    ensures StepAt(Lexer, s, 1, [RootState]) == Advance([Token(1, NumberFloat, ".14")], 4, [RootState])
  {
    IntegerHeadExample(s);
    FloatTailExample(s);
  }

  lemma IntegerHeadExample(s: string)
    requires s == "3.14\n"
    ensures StepAt(Lexer, s, 0, [RootState]) == Advance([Token(0, NumberInteger, "3")], 1, [RootState])
  {
    assert SpanEnd(s, 0, DigitClass) == 1 by { SpanEndIs(s, 0, DigitClass, 1); }
    assert s[0..1] == "3" by { SliceOne(s, 0, '3'); }
    DigitStep(s, 0, [RootState]);
  }

  lemma FloatTailExample(s: string)
    requires s == "3.14\n"
    ensures StepAt(Lexer, s, 1, [RootState]) == Advance([Token(1, NumberFloat, ".14")], 4, [RootState])
  {
    assert SpanEnd(s, 2, DigitClass) == 4 by { SpanEndIs(s, 2, DigitClass, 4); }
    assert s[1..4] == ".14";
    PointStep(s, 1, [RootState]);
  }

  /** `//` with a `$` later on the line yields the prefix, the comment text up to the `$` (when
      not empty) and the `$`, and enters `comment` and then `math`; without a `$` the rest of
      the line is one comment text and only `comment` is entered. */
  lemma CommentStartStep(s: string, pos: nat, stack: seq<State>)
    requires pos <= |s| && |stack| > 0 && Top(stack) == RootState && StartsWithAt(s, pos, "//")
    ensures var st := StepAt(Lexer, s, pos, stack);
      var d := SpanEnd(s, pos + 2, CommentBodyClass);
      var l := SpanEnd(s, pos + 2, LineClass);
      var body: seq<Token> := if d > pos + 2 then [Token(pos + 2, CustomCommentText, s[pos + 2..d])] else [];
      var rest: seq<Token> := if l > pos + 2 then [Token(pos + 2, CustomCommentText, s[pos + 2..l])] else [];
      && (d < |s| && s[d] == '$' ==>
            st == Advance([Token(pos, CustomCommentPrefix, "//")] + body + [Token(d, MathDelimiter, "$")],
                          d + 1, stack + [CommentState, MathState]))
      && (!(d < |s| && s[d] == '$') ==>
            st == Advance([Token(pos, CustomCommentPrefix, "//")] + rest, l, stack + [CommentState]))
  {
    var d := SpanEnd(s, pos + 2, CommentBodyClass);
    if d < |s| && s[d] == '$' {
      CommentToDollarStep(s, pos, stack);
    } else {
      CommentToEolStep(s, pos, stack);
    }
  }

  /** At `//` neither the header nor a keyword matches. */
  lemma CommentHeadFails(s: string, pos: nat)
    requires pos <= |s| && StartsWithAt(s, pos, "//")
    ensures FailsBefore(RootRules, s, pos, 2)
  {
    StartsWithAtHead(s, pos, "//");
    assert Match(RootRules[0].pattern, s, pos).None? by {
      NotAt(s, pos, "ALGORITHM");
      NoHeader(s, pos);
    }
    assert Match(RootRules[1].pattern, s, pos).None? by {
      NoKeywordAt(s, pos, true);
      MatchBoundedWords(Keywords, true, s, pos);
    }
    assert FailsBefore(RootRules, s, pos, 1);
  }

  lemma CommentToDollarStep(s: string, pos: nat, stack: seq<State>)
    requires pos <= |s| && |stack| > 0 && Top(stack) == RootState && StartsWithAt(s, pos, "//")
    requires var d := SpanEnd(s, pos + 2, CommentBodyClass); d < |s| && s[d] == '$'
    ensures var d := SpanEnd(s, pos + 2, CommentBodyClass);
      var body: seq<Token> := if d > pos + 2 then [Token(pos + 2, CustomCommentText, s[pos + 2..d])] else [];
      StepAt(Lexer, s, pos, stack)
      == Advance([Token(pos, CustomCommentPrefix, "//")] + body + [Token(d, MathDelimiter, "$")],
                 d + 1, stack + [CommentState, MathState])
  {
    var d := SpanEnd(s, pos + 2, CommentBodyClass);
    var b := [pos, pos + 2, d, d + 1];
    var kinds := [CustomCommentPrefix, CustomCommentText, MathDelimiter];
    var body: seq<Token> := if d > pos + 2 then [Token(pos + 2, CustomCommentText, s[pos + 2..d])] else [];
    CommentHeadFails(s, pos);
    CommentUpToDollarRule(s, pos);
    CommentToDollarTokens(s, pos, d);
    StepByGroupsPush(Lexer, s, pos, stack, 2, b, kinds, [CommentState, MathState],
                     [Token(pos, CustomCommentPrefix, "//")] + body + [Token(d, MathDelimiter, "$")]);
  }

  lemma CommentUpToDollarRule(s: string, pos: nat)
    requires pos <= |s| && StartsWithAt(s, pos, "//")
    requires var d := SpanEnd(s, pos + 2, CommentBodyClass); d < |s| && s[d] == '$'
    ensures RootRules[2] == Rule(CommentUpToDollar, ByGroups([CustomCommentPrefix, CustomCommentText, MathDelimiter]), Push([CommentState, MathState]))
    ensures var d := SpanEnd(s, pos + 2, CommentBodyClass);
      Match(RootRules[2].pattern, s, pos) == Some([pos, pos + 2, d, d + 1])
  {
    MatchComment(s, pos);
  }

  lemma CommentToDollarTokens(s: string, pos: nat, d: nat)
    requires StartsWithAt(s, pos, "//") && pos + 2 <= d < |s| && s[d] == '$'
    ensures var body: seq<Token> := if d > pos + 2 then [Token(pos + 2, CustomCommentText, s[pos + 2..d])] else [];
      EmitGroups([CustomCommentPrefix, CustomCommentText, MathDelimiter], s, [pos, pos + 2, d, d + 1], 0)
      == [Token(pos, CustomCommentPrefix, "//")] + body + [Token(d, MathDelimiter, "$")]
  {
    var k := [CustomCommentPrefix, CustomCommentText, MathDelimiter];
    var b := [pos, pos + 2, d, d + 1];
    var body: seq<Token> := if d > pos + 2 then [Token(pos + 2, CustomCommentText, s[pos + 2..d])] else [];
    var dollar := [Token(d, MathDelimiter, "$")];
    assert ValidBounds(b, s, b[0]);
    assert EmitGroups(k, s, b, 3) == [];
    assert EmitGroups(k, s, b, 2) == dollar by { SliceOne(s, d, '$'); }
    assert EmitGroups(k, s, b, 1) == body + dollar;
    assert EmitGroups(k, s, b, 0) == [Token(pos, CustomCommentPrefix, "//")] + (body + dollar) by {
      assert s[pos..pos + 2] == "//";
    }
  }

  lemma CommentToEolStep(s: string, pos: nat, stack: seq<State>)
    requires pos <= |s| && |stack| > 0 && Top(stack) == RootState && StartsWithAt(s, pos, "//")
    requires var d := SpanEnd(s, pos + 2, CommentBodyClass); !(d < |s| && s[d] == '$')
    ensures var l := SpanEnd(s, pos + 2, LineClass);
      var rest: seq<Token> := if l > pos + 2 then [Token(pos + 2, CustomCommentText, s[pos + 2..l])] else [];
      StepAt(Lexer, s, pos, stack) == Advance([Token(pos, CustomCommentPrefix, "//")] + rest, l, stack + [CommentState])
  {
    var l := SpanEnd(s, pos + 2, LineClass);
    var b := [pos, pos + 2, l];
    var kinds := [CustomCommentPrefix, CustomCommentText];
    assert RootRules[3] == Rule(CommentToEol, ByGroups(kinds), Push([CommentState]));
    assert StepAt(Lexer, s, pos, stack) == Advance(EmitGroups(kinds, s, b, 0), l, stack + [CommentState]) by {
      CommentHeadFails(s, pos);
      assert Match(RootRules[2].pattern, s, pos).None? && Match(RootRules[3].pattern, s, pos) == Some(b) by {
        MatchComment(s, pos);
      }
      assert FailsBefore(RootRules, s, pos, 3);
      StepByRule(Lexer, s, pos, stack, 3, b);
    }
    assert s[pos..pos + 2] == "//";
    EmitTwo(kinds, s, b);
  }

  /** `ALGORITHM` yields the keyword, the blank after it and the name after that, each only when
      not empty. */
  lemma AlgorithmStep(s: string, pos: nat, stack: seq<State>)
    requires pos <= |s| && |stack| > 0 && Top(stack) == RootState && StartsWithAt(s, pos, "ALGORITHM")
    ensures var a := pos + 9;
      var b := SpanEnd(s, a, SpaceClass);
      var e := SpanEnd(s, b, WordClass);
      StepAt(Lexer, s, pos, stack)
      == Advance([Token(pos, AlgorithmKeyword, "ALGORITHM")]
                 + (if b > a then [Token(a, Whitespace, s[a..b])] else [])
                 + (if e > b then [Token(b, AlgorithmName, s[b..e])] else []),
                 e, stack)
  {
    var a := pos + 9;
    var b := SpanEnd(s, a, SpaceClass);
    var e := SpanEnd(s, b, WordClass);
    var bs := [pos, a, b, e];
    MatchHeader(s, pos);
    StepByRule(Lexer, s, pos, stack, 0, bs);
    EmitThree([AlgorithmKeyword, Whitespace, AlgorithmName], s, bs);
  }

  /** A word that stands alone (no word character on either side, and not the `ALGORITHM`
      header) is a `Keyword` exactly when it is one of the keywords, else `Name.Builtin` when it
      is `true` or `false`, else `Text`; so "format" is `Text`, not `for`. */
  lemma WordStep(s: string, pos: nat, stack: seq<State>)
    requires pos < |s| && |stack| > 0 && Top(stack) == RootState && IsLetter(s[pos])
    requires !IsWordAt(s, pos - 1) && !IsWordAt(s, SpanEnd(s, pos, LetterClass))
    requires !StartsWithAt(s, pos, "ALGORITHM")
    ensures var e := SpanEnd(s, pos, LetterClass);
      var w := s[pos..e];
      var kind := if w in Keywords then Keyword else if w == "true" || w == "false" then NameBuiltin else Text;
      StepAt(Lexer, s, pos, stack) == Advance([Token(pos, kind, w)], e, stack)
  {
    var e := SpanEnd(s, pos, LetterClass);
    var w := s[pos..e];
    LetterRulesFail(s, pos);
    KeywordRule(s, pos);
    assert FailsBefore(RootRules, s, pos, 1);
    if w in Keywords {
      StepByRule(Lexer, s, pos, stack, 1, [pos, e]);
    } else {
      assert FailsBefore(RootRules, s, pos, 2);
      assert FailsBefore(RootRules, s, pos, 3);
      assert FailsBefore(RootRules, s, pos, 4);
      assert FailsBefore(RootRules, s, pos, 5);
      assert FailsBefore(RootRules, s, pos, 6);
      assert FailsBefore(RootRules, s, pos, 7);
      BoolRule(s, pos);
      if w == "true" || w == "false" {
        StepByRule(Lexer, s, pos, stack, 7, [pos, e]);
      } else {
        assert FailsBefore(RootRules, s, pos, 8);
        assert FailsBefore(RootRules, s, pos, 9);
        assert Match(RootRules[9].pattern, s, pos) == Some([pos, e]) by { MatchRun1(LetterClass, s, pos); }
        StepByRule(Lexer, s, pos, stack, 9, [pos, e]);
      }
    }
  }

  /** At a letter, the rules other than the word rules fail (the header too, when it is not there). */
  lemma LetterRulesFail(s: string, pos: nat)
    requires pos < |s| && IsLetter(s[pos]) && !StartsWithAt(s, pos, "ALGORITHM")
    ensures forall j :: j in {0, 2, 3, 4, 5, 6, 8} ==> Match(RootRules[j].pattern, s, pos).None?
  {
    NoHeader(s, pos);
    NotAt(s, pos, "//");
    NoComment(s, pos);
    NotAt(s, pos, "$");
    MatchLiteral("$", s, pos);
    MatchRun1(DigitClass, s, pos);
    assert SpanEnd(s, pos, DigitClass) == pos;
    MatchFloatNumber(s, pos);
    MatchOneChar(PunctuationChars, s, pos);
  }

  /** The keyword rule matches a stand-alone word exactly when it is a keyword. */
  lemma KeywordRule(s: string, pos: nat)
    requires pos < |s| && IsLetter(s[pos])
    requires !IsWordAt(s, pos - 1) && !IsWordAt(s, SpanEnd(s, pos, LetterClass))
    ensures var e := SpanEnd(s, pos, LetterClass);
      Match(RootRules[1].pattern, s, pos) == if s[pos..e] in Keywords then Some([pos, e]) else None
  {
    assert RootRules[1].pattern == BoundedWords(Keywords, true);
    KeywordsAreLetters();
    MatchBoundedRun(Keywords, true, s, pos);
  }

  /** The `true|false` rule matches a stand-alone word exactly when it is one of the two. */
  lemma BoolRule(s: string, pos: nat)
    requires pos < |s| && IsLetter(s[pos])
    requires !IsWordAt(s, pos - 1) && !IsWordAt(s, SpanEnd(s, pos, LetterClass))
    ensures var e := SpanEnd(s, pos, LetterClass);
      var w := s[pos..e];
      Match(RootRules[7].pattern, s, pos) == if w == "true" || w == "false" then Some([pos, e]) else None
  {
    var bools := ["true", "false"];
    assert RootRules[7].pattern == BoolWord;
    BoolWordIsWords(s, pos);
    assert LetterWords(bools);
    MatchBoundedRun(bools, false, s, pos);
  }

  // ---------------------------------------------------------------------------------------
  // The scan never gets stuck on a text that ends with a newline.

  /** The stacks the scan can reach: `comment` only ever sits on `root`, and `math` on either. */
  predicate Reachable(stack: seq<State>)
  {
    || stack == [RootState]
    || stack == [RootState, MathState]
    || stack == [RootState, CommentState]
    || stack == [RootState, CommentState, MathState]
  }

  /** The scan invariant: a reachable stack, and inside `comment` there is text left. */
  predicate ScanInvariant(s: string, pos: nat, stack: seq<State>)
  {
    Reachable(stack) && (stack[|stack| - 1] == CommentState ==> pos < |s|)
  }

  /** In a text that ends with a newline, a line from `i` ends before the end of the text. */
  lemma LineEndsInside(s: string, i: nat)
    requires EndsWithNewline(s) && i < |s|
    ensures SpanEnd(s, i, LineClass) < |s|
  {
  }

  /** Where each `root` rule leaves the stack `[root]`. */
  lemma RootTransit(i: nat)
    requires i < |RootRules|
    ensures Transit([RootState], RootRules[i].next)
      == if i == 2 then [RootState, CommentState, MathState]
         else if i == 3 then [RootState, CommentState]
         else if i == 4 then [RootState, MathState]
         else [RootState]
  {
  }

  lemma RootStepKeeps(s: string, pos: nat)
    requires EndsWithNewline(s) && pos <= |s|
    ensures var st := StepAt(Lexer, s, pos, [RootState]);
      !st.Stuck? && (st.Advance? ==> ScanInvariant(s, st.next, st.stack))
  {
    match FirstMatch(RootRules, s, pos) {
      case Some((i, b)) =>
        RootMatchKeeps(s, pos, i, b);
      case None =>
    }
  }

  /** A `root` rule that matches at `pos` consumes text and leaves the scan invariant. */
  lemma RootMatchKeeps(s: string, pos: nat, i: nat, b: seq<nat>)
    requires EndsWithNewline(s) && pos <= |s| && i < |RootRules|
    requires Match(RootRules[i].pattern, s, pos) == Some(b)
    ensures b[|b| - 1] > pos && ScanInvariant(s, b[|b| - 1], Transit([RootState], RootRules[i].next))
  {
    RulesProgress();
    ProgressingMatch(RootRules[i].pattern, s, pos);
    RootTransit(i);
    if i == 3 {
      CommentRuleEndsInside(s, pos, b);
    }
  }

  /** A `//` comment up to the end of the line leaves text to scan in `comment`. */
  lemma CommentRuleEndsInside(s: string, pos: nat, b: seq<nat>)
    requires EndsWithNewline(s) && pos <= |s| && Match(RootRules[3].pattern, s, pos) == Some(b)
    ensures b[|b| - 1] < |s|
  {
    assert RootRules[3].pattern == CommentToEol;
    assert StartsWithAt(s, pos, "//");
    MatchComment(s, pos);
    StartsWithAtHead(s, pos, "//");
    assert s[pos + 1] == '/' by { assert s[pos..pos + 2][1] == s[pos + 1]; }
    LineEndsInside(s, pos + 2);
  }

  lemma MathStepKeeps(s: string, pos: nat, stack: seq<State>)
    requires EndsWithNewline(s) && pos <= |s| && ScanInvariant(s, pos, stack) && stack[|stack| - 1] == MathState
    ensures var st := StepAt(Lexer, s, pos, stack);
      !st.Stuck? && (st.Advance? ==> ScanInvariant(s, st.next, st.stack))
  {
    if pos < |s| {
      MathStep(s, pos, stack);
      assert s[pos] == '$' ==> pos + 1 < |s|;
    } else {
      MathAtEnd(s, stack);
    }
  }

  /** At the end of the text no `math` rule matches. */
  lemma MathAtEnd(s: string, stack: seq<State>)
    requires |stack| > 0 && Top(stack) == MathState
    ensures StepAt(Lexer, s, |s|, stack) == Finished
  {
    match FirstMatch(MathRules, s, |s|) {
      case Some((i, b)) =>
        RulesProgress();
        ProgressingMatch(MathRules[i].pattern, s, |s|);
      case None =>
    }
  }

  lemma CommentStepKeeps(s: string, pos: nat, stack: seq<State>)
    requires EndsWithNewline(s) && pos <= |s| && ScanInvariant(s, pos, stack) && stack[|stack| - 1] == CommentState
    ensures var st := StepAt(Lexer, s, pos, stack);
      !st.Stuck? && (st.Advance? ==> ScanInvariant(s, st.next, st.stack))
  {
    CommentStep(s, pos, stack);
    if s[pos] != '\n' {
      LineEndsInside(s, pos);
    }
  }

  lemma {:induction false} RunNeverStuck(s: string, pos: nat, stack: seq<State>)
    requires EndsWithNewline(s) && pos <= |s| && ScanInvariant(s, pos, stack)
    ensures Run(Lexer, s, pos, stack).Ok?
    decreases |s| - pos
  {
    if stack == [RootState] {
      RootStepKeeps(s, pos);
    } else if stack[|stack| - 1] == MathState {
      MathStepKeeps(s, pos, stack);
    } else {
      CommentStepKeeps(s, pos, stack);
    }
    match StepAt(Lexer, s, pos, stack) {
      case Advance(ts, next, st) => RunNeverStuck(s, next, st);
      case Finished =>
    }
  }

  /** With the final newline Pygments adds to the text, the scan always completes; the only empty
      match of the table (`.*` inside `comment`) can happen only at the very end of the text. */
  lemma NeverStuck(s: string)
    requires EndsWithNewline(s)
    ensures Tokenize(s).Ok?
  {
    RunNeverStuck(s, 0, [RootState]);
  }

  /** Without the final newline, a comment that reaches the end of the text leaves `.*` matching
      the empty string there, on which the Pygments loop would not advance. */
  lemma CommentAtEndIsStuck()
    ensures Tokenize("//") == Err(NoProgress(2))
  {
    var s := "//";
    CommentStartStep(s, 0, [RootState]);
    assert SpanEnd(s, 2, CommentBodyClass) == 2;
    assert SpanEnd(s, 2, LineClass) == 2;
    assert s[0..2] == "//";
    assert StepAt(Lexer, s, 0, [RootState]) == Advance([Token(0, CustomCommentPrefix, "//")], 2, [RootState, CommentState]);
    MatchLiteral("\n", s, 2);
    MatchRun0(LineClass, s, 2);
    assert FailsBefore(CommentRules, s, 2, 1);
    StepByEmptyMatch(Lexer, s, 2, [RootState, CommentState], 1, [2, 2]);
  }
}
