/** The rule table of `PseudocodeLexer` in pc2latex.py: one state, `root`, into which the
    `special`, `whitespace-comment` and `identifiers` lists are included in that order. */
module Pc2LatexLexer {
  import opened Wrappers
  import opened Texts
  import opened Tokens
  import opened RegexLexer

  const Operators: seq<string> := ["**", "!=", "==", "<=", ">=", "<-", "!", "*", "/", "%", "+", "-", "<", ">"]

  /** The keywords; they carry only a trailing `\b`. */
  const Keywords: seq<string> := ["if", "else", "while", "repeat", "for", "to", "do", "return"]

  const PunctuationChars: set<char> := {'[', ']', '(', ')', '{', '}', ',', '.'}

  const RootRules: seq<Rule> := [
    // include("special")
    Rule(Run1(DigitClass), Single(NumberInteger), Stay),
    Rule(FloatNumber, Single(NumberFloat), Stay),
    Rule(BoolWord, Single(NameBuiltin), Stay),
    // include("whitespace-comment")
    Rule(Run1(SpaceClass), Single(Whitespace), Stay),
    Rule(CommentToEol, ByGroups([Punctuation, CommentSingleline]), Stay),
    Rule(Literal("ALGORITHM"), Single(NameLabel), Stay),
    Rule(BoundedWords(Keywords, false), Single(Keyword), Stay),
    // include("identifiers")
    Rule(BoundedUpper, Single(NameVariable), Stay),
    Rule(Run1(LowerClass), Single(NameVariable), Stay),
    Rule(Words(Operators), Single(Operator), Stay),
    Rule(EllipsisOr(PunctuationChars), Single(Punctuation), Stay)
  ]

  const Lexer: Grammar := Grammar(RootRules, [], [])

  lemma LexerWellFormed()
    ensures WellFormed(Lexer)
  {
    forall st: State, i | 0 <= i < |RulesOf(Lexer, st)| ensures WellFormedRule(RulesOf(Lexer, st)[i]) {
    }
  }

  /** `get_tokens_unprocessed(code)` of the pc2latex.py lexer. */
  function Tokenize(s: string): Result<seq<Token>, LexError>
  {
    Lex(Lexer, s)
  }

  lemma RulesProgress()
    ensures forall i :: 0 <= i < |RootRules| ==> Progressing(RootRules[i].pattern)
    ensures forall i :: 0 <= i < |RootRules| ==> RootRules[i].next == Stay
  {
  }

  /** The stack never leaves `[root]`, and every rule consumes input. */
  lemma StepNeverStuck(s: string, pos: nat)
    requires pos <= |s|
    ensures var st := StepAt(Lexer, s, pos, [RootState]);
      !st.Stuck? && (st.Advance? ==> st.stack == [RootState])
  {
    match FirstMatch(RootRules, s, pos) {
      case Some((i, b)) =>
        RulesProgress();
        ProgressingMatch(RootRules[i].pattern, s, pos);
      case None =>
    }
  }

  lemma {:induction false} RunNeverStuck(s: string, pos: nat)
    requires pos <= |s|
    ensures Run(Lexer, s, pos, [RootState]).Ok?
    decreases |s| - pos
  {
    StepNeverStuck(s, pos);
    match StepAt(Lexer, s, pos, [RootState]) {
      case Advance(ts, next, st) => RunNeverStuck(s, next);
      case Finished =>
    }
  }

  /** Every text is scanned to its end (no rule can match the empty string), even without the
      final newline that `get_tokens` would add. */
  lemma NeverStuck(s: string)
    ensures Tokenize(s).Ok?
  {
    RunNeverStuck(s, 0);
  }

  /** The tokens cover the text: no gap, no overlap, no empty token. */
  lemma TokenizeCovers(s: string)
    ensures Tokenize(s).Ok?
    ensures var ts := Tokenize(s).value;
      && Concat(TextsOf(ts)) == s
      && (|ts| > 0 ==> ts[0].offset == 0)
      && (forall i :: 0 <= i < |ts| ==> |ts[i].text| > 0)
      && (forall i :: 0 <= i && i + 1 < |ts| ==> ts[i + 1].offset == ts[i].offset + |ts[i].text|)
      && (forall i, j :: 0 <= i < j < |ts| ==> ts[i].offset < ts[j].offset)
  {
    NeverStuck(s);
    LexerWellFormed();
    LexCovers(Lexer, s);
    RunTiles(Lexer, s, 0, [RootState]);
    TilesOffsetsIncrease(Tokenize(s).value, s, 0, |s|);
  }

  /** There are tokens exactly when there is text. */
  lemma TokensIffText(s: string)
    ensures Tokenize(s).Ok? && (|Tokenize(s).value| == 0 <==> |s| == 0)
  {
    TokenizeCovers(s);
  }

  // ---------------------------------------------------------------------------------------
  // Which texts each token type can carry.

  /** An `Operator` token is one of the operator words, a `Name.Label` token is `ALGORITHM`; these
      are what the printer's tables are keyed by. */
  predicate KindsFit(t: Token)
  {
    && (t.kind == Operator ==> t.text in Operators)
    && (t.kind == NameLabel ==> t.text == "ALGORITHM")
  }

  /** What each rule yields: only rule 9 yields `Operator` tokens and only rule 5 `Name.Label`. */
  lemma RootAction(i: nat)
    requires i < |RootRules|
    ensures i == 4 ==> RootRules[i].action == ByGroups([Punctuation, CommentSingleline])
    ensures i != 4 ==> && RootRules[i].action.Single?
                       && (RootRules[i].action.kind == Operator <==> i == 9)
                       && (RootRules[i].action.kind == NameLabel <==> i == 5)
  {
  }

  lemma StepKindsFit(s: string, pos: nat)
    requires pos <= |s|
    ensures var st := StepAt(Lexer, s, pos, [RootState]);
      st.Advance? ==> forall k :: 0 <= k < |st.tokens| ==> KindsFit(st.tokens[k])
  {
    var st := StepAt(Lexer, s, pos, [RootState]);
    match FirstMatch(RootRules, s, pos) {
      case Some((i, b)) =>
        if st.Advance? {
          assert st.tokens == Emit(RootRules[i].action, s, b);
          RuleKindsFit(i, s, pos, b);
        }
      case None =>
    }
  }

  /** The tokens a rule yields fit their kinds. */
  lemma RuleKindsFit(i: nat, s: string, pos: nat, b: seq<nat>)
    requires i < |RootRules| && pos <= |s| && Match(RootRules[i].pattern, s, pos) == Some(b)
    ensures var ts := Emit(RootRules[i].action, s, b); forall k :: 0 <= k < |ts| ==> KindsFit(ts[k])
  {
    RootAction(i);
    if i == 9 {
      OperatorRuleKindsFit(s, pos, b);
    } else if i == 5 {
      assert RootRules[5] == Rule(Literal("ALGORITHM"), Single(NameLabel), Stay);
      MatchLiteral("ALGORITHM", s, pos);
    } else if i == 4 {
      EmitTwo([Punctuation, CommentSingleline], s, b);
    }
  }

  lemma OperatorRuleKindsFit(s: string, pos: nat, b: seq<nat>)
    requires pos <= |s| && Match(Words(Operators), s, pos) == Some(b)
    ensures Emit(Single(Operator), s, b) == [Token(pos, Operator, s[pos..b[1]])] && s[pos..b[1]] in Operators
  {
    MatchWordsIn(Operators, s, pos, b);
  }

  /** Every token of the sequence fits its kind. */
  predicate AllFit(ts: seq<Token>)
  {
    forall k :: 0 <= k < |ts| ==> KindsFit(ts[k])
  }

  lemma AllFitAppend(a: seq<Token>, b: seq<Token>)
    requires AllFit(a) && AllFit(b)
    ensures AllFit(a + b)
  {
    assert forall k :: |a| <= k < |a + b| ==> (a + b)[k] == b[k - |a|];
  }

  lemma {:induction false} RunKindsFit(s: string, pos: nat)
    requires pos <= |s|
    ensures Run(Lexer, s, pos, [RootState]).Ok?
    ensures AllFit(Run(Lexer, s, pos, [RootState]).value)
    decreases |s| - pos
  {
    RunNeverStuck(s, pos);
    StepNeverStuck(s, pos);
    StepKindsFit(s, pos);
    match StepAt(Lexer, s, pos, [RootState]) {
      case Advance(ts, next, st) =>
        RunKindsFit(s, next);
        AllFitAppend(ts, Run(Lexer, s, next, [RootState]).value);
      case Finished =>
    }
  }

  lemma TokenKindsFit(s: string)
    ensures Tokenize(s).Ok?
    ensures forall k :: 0 <= k < |Tokenize(s).value| ==> KindsFit(Tokenize(s).value[k])
  {
    RunKindsFit(s, 0);
  }

  // ---------------------------------------------------------------------------------------
  // One step.

  /** `//` yields a `Punctuation` token `//` and, when the line goes on, a `Comment.Singleline`
      token of the rest of the line. */
  lemma CommentStep(s: string, pos: nat)
    requires pos <= |s| && StartsWithAt(s, pos, "//")
    ensures var l := SpanEnd(s, pos + 2, LineClass);
      StepAt(Lexer, s, pos, [RootState])
      == Advance([Token(pos, Punctuation, "//")] + (if l > pos + 2 then [Token(pos + 2, CommentSingleline, s[pos + 2..l])] else []),
                 l, [RootState])
  {
    StartsWithAtHead(s, pos, "//");
    SymbolHeadFails(s, pos);
    var l := SpanEnd(s, pos + 2, LineClass);
    var b := [pos, pos + 2, l];
    CommentRule(s, pos);
    StepByRule(Lexer, s, pos, [RootState], 4, b);
    assert s[pos..pos + 2] == "//";
    EmitTwo([Punctuation, CommentSingleline], s, b);
  }

  lemma CommentRule(s: string, pos: nat)
    requires pos <= |s| && StartsWithAt(s, pos, "//")
    ensures RootRules[4] == Rule(CommentToEol, ByGroups([Punctuation, CommentSingleline]), Stay)
    ensures Match(RootRules[4].pattern, s, pos) == Some([pos, pos + 2, SpanEnd(s, pos + 2, LineClass)])
  {
    MatchComment(s, pos);
  }

  /** At a character that starts no number, word or blank, the first four rules fail. */
  lemma SymbolHeadFails(s: string, pos: nat)
    requires pos < |s| && !IsDigit(s[pos]) && !IsLetter(s[pos]) && !IsSpace(s[pos])
    requires !(s[pos] == '.' && pos + 1 < |s| && IsDigit(s[pos + 1]))
    ensures FailsBefore(RootRules, s, pos, 4)
  {
    NumberRulesFail(s, pos);
    assert Match(RootRules[2].pattern, s, pos).None? by { NotLowerBoolFails(s, pos); }
    FailsBeforeNext(RootRules, s, pos, 2);
    assert Match(RootRules[3].pattern, s, pos).None? by { NotSpaceFails(s, pos); }
    FailsBeforeNext(RootRules, s, pos, 3);
  }

  /** At a character that is not a digit nor a `.` before a digit, the number rules fail. */
  lemma NumberRulesFail(s: string, pos: nat)
    requires pos < |s| && !IsDigit(s[pos])
    requires !(s[pos] == '.' && pos + 1 < |s| && IsDigit(s[pos + 1]))
    ensures FailsBefore(RootRules, s, pos, 2)
  {
    assert Match(RootRules[0].pattern, s, pos).None? by { MatchRun1(DigitClass, s, pos); }
    assert SpanEnd(s, pos, DigitClass) == pos;
    assert Match(RootRules[1].pattern, s, pos).None? by { MatchFloatNumber(s, pos); }
    assert FailsBefore(RootRules, s, pos, 1);
  }

  lemma NotLowerBoolFails(s: string, pos: nat)
    requires pos < |s| && !IsLower(s[pos])
    ensures Match(RootRules[2].pattern, s, pos).None?
  {
    assert RootRules[2].pattern == BoolWord;
    MatchBoolWord(s, pos);
    NotAt(s, pos, "true");
    NotAt(s, pos, "false");
  }

  lemma NotSpaceFails(s: string, pos: nat)
    requires pos < |s| && !IsSpace(s[pos])
    ensures Match(RootRules[3].pattern, s, pos).None?
  {
    assert RootRules[3].pattern == Run1(SpaceClass);
    MatchRun1(SpaceClass, s, pos);
  }

  /** At a character that starts no number, word, blank, comment or operator, only the
      punctuation rule is left. */
  lemma PunctuationRulesFail(s: string, pos: nat)
    requires pos < |s| && !IsDigit(s[pos]) && !IsLetter(s[pos]) && !IsSpace(s[pos]) && s[pos] !in OperatorHeads
    requires !(s[pos] == '.' && pos + 1 < |s| && IsDigit(s[pos + 1]))
    ensures FailsBefore(RootRules, s, pos, 10)
  {
    SymbolHeadFails(s, pos);
    assert Match(RootRules[4].pattern, s, pos).None? by {
      assert s[pos] != '/' by { assert '/' in OperatorHeads; }
      NotSlashCommentFails(s, pos);
    }
    FailsBeforeNext(RootRules, s, pos, 4);
    assert Match(RootRules[5].pattern, s, pos).None? by { NotUpperLabelFails(s, pos); }
    FailsBeforeNext(RootRules, s, pos, 5);
    assert Match(RootRules[6].pattern, s, pos).None? by { NotLowerKeywordFails(s, pos); }
    FailsBeforeNext(RootRules, s, pos, 6);
    assert Match(RootRules[7].pattern, s, pos).None? by { NotUpperNameFails(s, pos); }
    FailsBeforeNext(RootRules, s, pos, 7);
    assert Match(RootRules[8].pattern, s, pos).None? by { NotLowerNameFails(s, pos); }
    FailsBeforeNext(RootRules, s, pos, 8);
    assert Match(RootRules[9].pattern, s, pos).None? by { NotOperatorFails(s, pos); }
    FailsBeforeNext(RootRules, s, pos, 9);
  }

  lemma NotSlashCommentFails(s: string, pos: nat)
    requires pos < |s| && s[pos] != '/'
    ensures Match(RootRules[4].pattern, s, pos).None?
  {
    NotAt(s, pos, "//");
    NoComment(s, pos);
  }

  lemma NotUpperLabelFails(s: string, pos: nat)
    requires pos < |s| && !IsUpper(s[pos])
    ensures Match(RootRules[5].pattern, s, pos).None?
  {
    assert RootRules[5].pattern == Literal("ALGORITHM");
    NotAt(s, pos, "ALGORITHM");
    MatchLiteral("ALGORITHM", s, pos);
  }

  lemma NotLowerKeywordFails(s: string, pos: nat)
    requires pos < |s| && !IsLower(s[pos])
    ensures Match(RootRules[6].pattern, s, pos).None?
  {
    assert RootRules[6].pattern == BoundedWords(Keywords, false);
    NoKeywordAt(s, pos);
    MatchBoundedWords(Keywords, false, s, pos);
  }

  lemma NotUpperNameFails(s: string, pos: nat)
    requires pos < |s| && !IsUpper(s[pos])
    ensures Match(RootRules[7].pattern, s, pos).None?
  {
    assert RootRules[7].pattern == BoundedUpper;
  }

  lemma NotLowerNameFails(s: string, pos: nat)
    requires pos < |s| && !IsLower(s[pos])
    ensures Match(RootRules[8].pattern, s, pos).None?
  {
    assert RootRules[8].pattern == Run1(LowerClass);
    MatchRun1(LowerClass, s, pos);
  }

  lemma NotOperatorFails(s: string, pos: nat)
    requires pos < |s| && s[pos] !in OperatorHeads
    ensures Match(RootRules[9].pattern, s, pos).None?
  {
    assert RootRules[9].pattern == Words(Operators);
    NoOperatorAt(s, pos);
    MatchWordsList(Operators, s, pos);
  }

  /** `...` is one `Punctuation` token: the ellipsis is tried before the single `.`. */
  lemma EllipsisStep(s: string, pos: nat)
    requires pos <= |s| && StartsWithAt(s, pos, "...")
    ensures StepAt(Lexer, s, pos, [RootState]) == Advance([Token(pos, Punctuation, "...")], pos + 3, [RootState])
  {
    StartsWithAtHead(s, pos, "...");
    assert s[pos + 1] == '.' by { assert s[pos..pos + 3][1] == s[pos + 1]; }
    PunctuationRulesFail(s, pos);
    StepByRule(Lexer, s, pos, [RootState], 10, [pos, pos + 3]);
    assert s[pos..pos + 3] == "...";
  }

  /** A character of the punctuation set, not part of `...` nor of a number such as `.5`, is one
      `Punctuation` token; any other character that starts nothing is an `Error` token (`;`, `$`,
      `_`). */
  lemma OtherCharStep(s: string, pos: nat)
    requires pos < |s| && !IsDigit(s[pos]) && !IsLetter(s[pos]) && !IsSpace(s[pos]) && s[pos] !in OperatorHeads
    requires !(s[pos] == '.' && pos + 1 < |s| && IsDigit(s[pos + 1])) && !StartsWithAt(s, pos, "...")
    ensures StepAt(Lexer, s, pos, [RootState])
      == Advance([Token(pos, if s[pos] in PunctuationChars then Punctuation else Error, [s[pos]])], pos + 1, [RootState])
  {
    PunctuationRulesFail(s, pos);
    SliceOne(s, pos, s[pos]);
    if s[pos] in PunctuationChars {
      StepByRule(Lexer, s, pos, [RootState], 10, [pos, pos + 1]);
    } else {
      assert FailsBefore(RootRules, s, pos, 11);
      StepByNoRule(Lexer, s, pos, [RootState]);
    }
  }

  lemma KeywordsStartWithLetters()
    ensures forall i :: 0 <= i < |Keywords| ==> |Keywords[i]| > 0 && IsLower(Keywords[i][0])
  {
  }

  lemma NoKeywordAt(s: string, pos: nat)
    requires pos <= |s| && (pos < |s| ==> !IsLower(s[pos]))
    ensures FirstWord(Keywords, s, pos, true).None?
  {
    KeywordsStartWithLetters();
    forall i | 0 <= i < |Keywords| ensures !StartsWithAt(s, pos, Keywords[i]) {
      if StartsWithAt(s, pos, Keywords[i]) { StartsWithAtHead(s, pos, Keywords[i]); }
    }
    FirstWordNone(Keywords, s, pos, true);
  }

  const OperatorHeads: set<char> := {'*', '!', '=', '<', '>', '/', '%', '+', '-'}

  lemma NoOperatorAt(s: string, pos: nat)
    requires pos <= |s| && (pos < |s| ==> s[pos] !in OperatorHeads)
    ensures FirstWord(Operators, s, pos, false).None?
  {
    assert forall i :: 0 <= i < |Operators| ==> |Operators[i]| > 0 && Operators[i][0] in OperatorHeads;
    forall i | 0 <= i < |Operators| ensures !StartsWithAt(s, pos, Operators[i]) {
      if StartsWithAt(s, pos, Operators[i]) { StartsWithAtHead(s, pos, Operators[i]); }
    }
    FirstWordNone(Operators, s, pos, false);
  }

  /** At a lower-case letter that does not begin `true` or `false` before a `\b`, the rules
      before the keywords fail. */
  lemma LowerMiddleFails(s: string, pos: nat)
    requires pos < |s| && IsLower(s[pos]) && Match(BoolWord, s, pos).None?
    ensures FailsBefore(RootRules, s, pos, 6)
  {
    NumberRulesFail(s, pos);
    assert RootRules[2].pattern == BoolWord;
    FailsBeforeNext(RootRules, s, pos, 2);
    LowerBlankCommentLabelFail(s, pos);
    FailsBeforeNext(RootRules, s, pos, 3);
    FailsBeforeNext(RootRules, s, pos, 4);
    FailsBeforeNext(RootRules, s, pos, 5);
  }

  /** At a lower-case letter the blank, comment and `ALGORITHM` rules fail. */
  lemma LowerBlankCommentLabelFail(s: string, pos: nat)
    requires pos < |s| && IsLower(s[pos])
    ensures Match(RootRules[3].pattern, s, pos).None?
    ensures Match(RootRules[4].pattern, s, pos).None?
    ensures Match(RootRules[5].pattern, s, pos).None?
  {
    NotSpaceFails(s, pos);
    NotSlashCommentFails(s, pos);
    NotUpperLabelFails(s, pos);
  }

  lemma NameRule(s: string, pos: nat)
    requires pos < |s| && IsLower(s[pos])
    ensures RootRules[8] == Rule(Run1(LowerClass), Single(NameVariable), Stay)
    ensures Match(RootRules[8].pattern, s, pos) == Some([pos, SpanEnd(s, pos, LowerClass)])
  {
    MatchRun1(LowerClass, s, pos);
  }

  /** At a lower-case letter: `true`/`false` before a `\b` is `Name.Builtin`; otherwise a keyword
      before a `\b` is a `Keyword`, whatever precedes it (there is no leading `\b`); otherwise the
      run of lower-case letters is a `Name.Variable`, so "format" is one name. */
  lemma LowerStep(s: string, pos: nat)
    requires pos < |s| && IsLower(s[pos])
    ensures var st := StepAt(Lexer, s, pos, [RootState]);
      var bw := Match(BoolWord, s, pos);
      var kw := FirstWord(Keywords, s, pos, true);
      var e := SpanEnd(s, pos, LowerClass);
      && (bw.Some? ==> st == Advance([Token(pos, NameBuiltin, s[pos..bw.value[1]])], bw.value[1], [RootState]))
      && (bw.None? && kw.Some? ==> st == Advance([Token(pos, Keyword, kw.value)], pos + |kw.value|, [RootState]))
      && (bw.None? && kw.None? ==> st == Advance([Token(pos, NameVariable, s[pos..e])], e, [RootState]))
  {
    if Match(BoolWord, s, pos).Some? {
      BuiltinStep(s, pos);
    } else if FirstWord(Keywords, s, pos, true).Some? {
      KeywordStep(s, pos);
    } else {
      NameStep(s, pos);
    }
  }

  lemma BuiltinStep(s: string, pos: nat)
    requires pos < |s| && IsLower(s[pos]) && Match(BoolWord, s, pos).Some?
    ensures var b := Match(BoolWord, s, pos).value;
      StepAt(Lexer, s, pos, [RootState]) == Advance([Token(pos, NameBuiltin, s[pos..b[1]])], b[1], [RootState])
  {
    var b := Match(BoolWord, s, pos).value;
    NumberRulesFail(s, pos);
    assert RootRules[2] == Rule(BoolWord, Single(NameBuiltin), Stay);
    ProgressingMatch(BoolWord, s, pos);
    StepBySingle(Lexer, s, pos, [RootState], 2, b[1], NameBuiltin);
  }

  lemma KeywordStep(s: string, pos: nat)
    requires pos < |s| && IsLower(s[pos]) && Match(BoolWord, s, pos).None?
    requires FirstWord(Keywords, s, pos, true).Some?
    ensures var k := FirstWord(Keywords, s, pos, true).value;
      StepAt(Lexer, s, pos, [RootState]) == Advance([Token(pos, Keyword, k)], pos + |k|, [RootState])
  {
    var k := FirstWord(Keywords, s, pos, true).value;
    KeywordRuleFirst(s, pos, k);
    StepBySingle(Lexer, s, pos, [RootState], 6, pos + |k|, Keyword);
  }

  /** Under the same conditions, the keyword rule is the first that matches, and matches the keyword. */
  lemma KeywordRuleFirst(s: string, pos: nat, k: string)
    requires pos < |s| && IsLower(s[pos]) && Match(BoolWord, s, pos).None?
    requires FirstWord(Keywords, s, pos, true) == Some(k)
    ensures FailsBefore(RootRules, s, pos, 6)
    ensures RootRules[6] == Rule(BoundedWords(Keywords, false), Single(Keyword), Stay)
    ensures pos < pos + |k| <= |s| && Match(RootRules[6].pattern, s, pos) == Some([pos, pos + |k|])
    ensures s[pos..pos + |k|] == k
  {
    LowerMiddleFails(s, pos);
    KeywordRuleMatch(s, pos);
  }

  /** The keyword rule matches the keyword found at `pos`, which is never empty. */
  lemma KeywordRuleMatch(s: string, pos: nat)
    requires pos <= |s|
    ensures var kw := FirstWord(Keywords, s, pos, true);
      && Match(RootRules[6].pattern, s, pos) == (if kw.Some? then Some([pos, pos + |kw.value|]) else None)
      && (kw.Some? ==> |kw.value| > 0)
  {
    assert RootRules[6].pattern == BoundedWords(Keywords, false);
    MatchBoundedWords(Keywords, false, s, pos);
    KeywordsAreLetters();
    FirstWordNotEmpty(Keywords, s, pos, true);
  }

  lemma KeywordsAreLetters()
    ensures LetterWords(Keywords)
  {
  }

  lemma NameStep(s: string, pos: nat)
    requires pos < |s| && IsLower(s[pos]) && Match(BoolWord, s, pos).None?
    requires FirstWord(Keywords, s, pos, true).None?
    ensures var e := SpanEnd(s, pos, LowerClass);
      StepAt(Lexer, s, pos, [RootState]) == Advance([Token(pos, NameVariable, s[pos..e])], e, [RootState])
  {
    NameRuleFirst(s, pos);
    StepBySingle(Lexer, s, pos, [RootState], 8, SpanEnd(s, pos, LowerClass), NameVariable);
  }

  /** Under the same conditions, the rule for lower-case names is the first that matches. */
  lemma NameRuleFirst(s: string, pos: nat)
    requires pos < |s| && IsLower(s[pos]) && Match(BoolWord, s, pos).None?
    requires FirstWord(Keywords, s, pos, true).None?
    ensures FailsBefore(RootRules, s, pos, 8)
    ensures RootRules[8] == Rule(Run1(LowerClass), Single(NameVariable), Stay)
    ensures Match(RootRules[8].pattern, s, pos) == Some([pos, SpanEnd(s, pos, LowerClass)])
  {
    LowerMiddleFails(s, pos);
    KeywordRuleMatch(s, pos);
    FailsBeforeNext(RootRules, s, pos, 6);
    NotUpperNameFails(s, pos);
    FailsBeforeNext(RootRules, s, pos, 7);
    NameRule(s, pos);
  }

  /** At an upper-case letter: `ALGORITHM` is a `Name.Label` even inside a longer word (it has no
      `\b`); otherwise a run of capitals with a `\b` on both sides is a `Name.Variable`; otherwise
      the letter starts nothing and is an `Error` token. */
  lemma UpperStep(s: string, pos: nat)
    requires pos < |s| && IsUpper(s[pos])
    ensures var st := StepAt(Lexer, s, pos, [RootState]);
      var e := SpanEnd(s, pos, UpperClass);
      var isLabel := StartsWithAt(s, pos, "ALGORITHM");
      && (isLabel ==> st == Advance([Token(pos, NameLabel, "ALGORITHM")], pos + 9, [RootState]))
      && (!isLabel && Boundary(s, pos) && Boundary(s, e) ==> st == Advance([Token(pos, NameVariable, s[pos..e])], e, [RootState]))
      && (!isLabel && !(Boundary(s, pos) && Boundary(s, e)) ==> st == Advance([Token(pos, Error, [s[pos]])], pos + 1, [RootState]))
  {
    var e := SpanEnd(s, pos, UpperClass);
    if StartsWithAt(s, pos, "ALGORITHM") {
      LabelStep(s, pos);
    } else if Boundary(s, pos) && Boundary(s, e) {
      UpperNameStep(s, pos);
    } else {
      StrayUpperStep(s, pos);
    }
  }

  /** At an upper-case letter the number, `true|false`, blank and comment rules fail. */
  lemma UpperHeadFails(s: string, pos: nat)
    requires pos < |s| && IsUpper(s[pos])
    ensures FailsBefore(RootRules, s, pos, 5)
  {
    NumberRulesFail(s, pos);
    NotLowerBoolFails(s, pos);
    FailsBeforeNext(RootRules, s, pos, 2);
    NotSpaceFails(s, pos);
    FailsBeforeNext(RootRules, s, pos, 3);
    NotSlashCommentFails(s, pos);
    FailsBeforeNext(RootRules, s, pos, 4);
  }

  lemma LabelStep(s: string, pos: nat)
    requires pos < |s| && IsUpper(s[pos]) && StartsWithAt(s, pos, "ALGORITHM")
    ensures StepAt(Lexer, s, pos, [RootState]) == Advance([Token(pos, NameLabel, "ALGORITHM")], pos + 9, [RootState])
  {
    UpperHeadFails(s, pos);
    assert RootRules[5] == Rule(Literal("ALGORITHM"), Single(NameLabel), Stay);
    MatchLiteral("ALGORITHM", s, pos);
    StepBySingle(Lexer, s, pos, [RootState], 5, pos + 9, NameLabel);
  }

  /** Without `ALGORITHM`, the label and keyword rules fail at an upper-case letter. */
  lemma UpperMiddleFails(s: string, pos: nat)
    requires pos < |s| && IsUpper(s[pos]) && !StartsWithAt(s, pos, "ALGORITHM")
    ensures FailsBefore(RootRules, s, pos, 7)
  {
    UpperHeadFails(s, pos);
    assert RootRules[5].pattern == Literal("ALGORITHM");
    MatchLiteral("ALGORITHM", s, pos);
    FailsBeforeNext(RootRules, s, pos, 5);
    NotLowerKeywordFails(s, pos);
    FailsBeforeNext(RootRules, s, pos, 6);
  }

  lemma UpperNameStep(s: string, pos: nat)
    requires pos < |s| && IsUpper(s[pos]) && !StartsWithAt(s, pos, "ALGORITHM")
    requires Boundary(s, pos) && Boundary(s, SpanEnd(s, pos, UpperClass))
    ensures var e := SpanEnd(s, pos, UpperClass);
      StepAt(Lexer, s, pos, [RootState]) == Advance([Token(pos, NameVariable, s[pos..e])], e, [RootState])
  {
    UpperMiddleFails(s, pos);
    UpperNameRule(s, pos);
    StepBySingle(Lexer, s, pos, [RootState], 7, SpanEnd(s, pos, UpperClass), NameVariable);
  }

  lemma UpperNameRule(s: string, pos: nat)
    requires pos < |s| && IsUpper(s[pos])
    ensures RootRules[7] == Rule(BoundedUpper, Single(NameVariable), Stay)
    ensures var e := SpanEnd(s, pos, UpperClass);
      e > pos && Match(RootRules[7].pattern, s, pos) == if Boundary(s, pos) && Boundary(s, e) then Some([pos, e]) else None
  {
  }

  lemma StrayUpperStep(s: string, pos: nat)
    requires pos < |s| && IsUpper(s[pos]) && !StartsWithAt(s, pos, "ALGORITHM")
    requires !(Boundary(s, pos) && Boundary(s, SpanEnd(s, pos, UpperClass)))
    ensures StepAt(Lexer, s, pos, [RootState]) == Advance([Token(pos, Error, [s[pos]])], pos + 1, [RootState])
  {
    UpperTailFails(s, pos);
    StepByNoRule(Lexer, s, pos, [RootState]);
  }

  /** At an upper-case letter that is neither `ALGORITHM` nor a bounded run of capitals, no rule matches. */
  lemma UpperTailFails(s: string, pos: nat)
    requires pos < |s| && IsUpper(s[pos]) && !StartsWithAt(s, pos, "ALGORITHM")
    requires !(Boundary(s, pos) && Boundary(s, SpanEnd(s, pos, UpperClass)))
    ensures FailsBefore(RootRules, s, pos, |RootRules|)
  {
    UpperMiddleFails(s, pos);
    UpperNameRule(s, pos);
    FailsBeforeNext(RootRules, s, pos, 7);
    NotLowerNameFails(s, pos);
    FailsBeforeNext(RootRules, s, pos, 8);
    NotOperatorFails(s, pos);
    FailsBeforeNext(RootRules, s, pos, 9);
    NotPunctuationFails(s, pos);
    FailsBeforeNext(RootRules, s, pos, 10);
  }

  lemma NotPunctuationFails(s: string, pos: nat)
    requires pos < |s| && s[pos] != '.' && s[pos] !in PunctuationChars
    ensures Match(RootRules[10].pattern, s, pos).None?
  {
    assert RootRules[10].pattern == EllipsisOr(PunctuationChars);
    NotAt(s, pos, "...");
  }

  /** The integer rule comes first: at a digit the whole digit run is one `Number.Integer`. */
  lemma DigitStep(s: string, pos: nat)
    requires pos < |s| && IsDigit(s[pos])
    ensures var e := SpanEnd(s, pos, DigitClass);
      StepAt(Lexer, s, pos, [RootState]) == Advance([Token(pos, NumberInteger, s[pos..e])], e, [RootState])
  {
    assert RootRules[0] == Rule(Run1(DigitClass), Single(NumberInteger), Stay);
    MatchRun1(DigitClass, s, pos);
    StepBySingle(Lexer, s, pos, [RootState], 0, SpanEnd(s, pos, DigitClass), NumberInteger);
  }

  /** A `.` followed by digits is a `Number.Float`. */
  lemma PointStep(s: string, pos: nat)
    requires pos + 1 < |s| && s[pos] == '.' && IsDigit(s[pos + 1])
    ensures var e := SpanEnd(s, pos + 1, DigitClass);
      StepAt(Lexer, s, pos, [RootState]) == Advance([Token(pos, NumberFloat, s[pos..e])], e, [RootState])
  {
    assert RootRules[0].pattern == Run1(DigitClass);
    MatchRun1(DigitClass, s, pos);
    assert SpanEnd(s, pos, DigitClass) == pos;
    assert RootRules[1] == Rule(FloatNumber, Single(NumberFloat), Stay);
    MatchFloatNumber(s, pos);
    FailsBeforeNext(RootRules, s, pos, 0);
    StepBySingle(Lexer, s, pos, [RootState], 1, SpanEnd(s, pos + 1, DigitClass), NumberFloat);
  }

  /** "3.14" is `Number.Integer` "3" and then `Number.Float` ".14". */
  lemma NumberSplitExample(s: string)
    requires s == "3.14"
    ensures StepAt(Lexer, s, 0, [RootState]) == Advance([Token(0, NumberInteger, "3")], 1, [RootState])
    ensures StepAt(Lexer, s, 1, [RootState]) == Advance([Token(1, NumberFloat, ".14")], 4, [RootState])
  {
    IntegerHeadExample(s);
    FloatTailExample(s);
  }

  lemma IntegerHeadExample(s: string)
    requires s == "3.14"
    ensures StepAt(Lexer, s, 0, [RootState]) == Advance([Token(0, NumberInteger, "3")], 1, [RootState])
  {
    SpanEndIs(s, 0, DigitClass, 1);
    DigitStep(s, 0);
    SliceOne(s, 0, '3');
  }

  lemma FloatTailExample(s: string)
    requires s == "3.14"
    ensures StepAt(Lexer, s, 1, [RootState]) == Advance([Token(1, NumberFloat, ".14")], 4, [RootState])
  {
    SpanEndIs(s, 2, DigitClass, 4);
    PointStep(s, 1);
    assert s[1..4] == ".14";
  }
}
