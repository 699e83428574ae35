/** The scanning loop of Pygments' `RegexLexer`, which both lexers are built on: a stack of
    states, each state an ordered list of rules; at each position the rules of the state on top
    of the stack are tried in order and the first that matches wins. A rule yields one token for
    its whole match, or (`bygroups`) one token per non-empty group, and may push states or pop
    one (`#pop` never pops the bottom state). Where no rule matches, a newline yields a
    `Whitespace` token and resets the stack to `root`, and any other character yields a
    one-character `Error` token. */
module RegexLexer {
  import opened Wrappers
  import opened Texts
  import opened Tokens

  datatype State = RootState | MathState | CommentState

  /** The character classes the rule tables use. */
  datatype CharClass =
    | DigitClass       // `\d`
    | SpaceClass       // `\s`
    | LetterClass      // `[A-Za-z]`
    | LowerClass       // `[a-z]`
    | UpperClass       // `[A-Z]`
    | WordClass        // `\w`
    | LineClass        // `.`: anything but a newline
    | NotDollarClass   // `[^$]`
    | CommentBodyClass // anything but a newline or `$`

  predicate InClass(c: char, k: CharClass)
  {
    match k
    case DigitClass => IsDigit(c)
    case SpaceClass => IsSpace(c)
    case LetterClass => IsLetter(c)
    case LowerClass => IsLower(c)
    case UpperClass => IsUpper(c)
    case WordClass => IsWordChar(c)
    case LineClass => c != '\n'
    case NotDollarClass => c != '$'
    case CommentBodyClass => c != '\n' && c != '$'
  }

  /** The end of the longest run of class `k` that starts at `i`. */
  function SpanEnd(s: string, i: nat, k: CharClass): (e: nat)
    requires i <= |s|
    ensures i <= e <= |s|
    ensures forall j :: i <= j < e ==> InClass(s[j], k)
    ensures e < |s| ==> !InClass(s[e], k)
    decreases |s| - i
  {
    if i < |s| && InClass(s[i], k) then SpanEnd(s, i + 1, k) else i
  }

  /** The run of class `k` from `i` ends at `j` when every character before `j` is in the class
      and the one at `j` is not. */
  lemma {:induction false} SpanEndIs(s: string, i: nat, k: CharClass, j: nat)
    requires i <= j <= |s| && (forall m :: i <= m < j ==> InClass(s[m], k)) && (j < |s| ==> !InClass(s[j], k))
    ensures SpanEnd(s, i, k) == j
    decreases j - i
  {
    if i < j {
      SpanEndIs(s, i + 1, k, j);
    }
  }

  predicate IsWordAt(s: string, i: int)
  {
    0 <= i < |s| && IsWordChar(s[i])
  }

  /** `\b` at position `i`: it looks at the character before `i` even when the scan starts at `i`. */
  predicate Boundary(s: string, i: nat)
  {
    IsWordAt(s, i - 1) != IsWordAt(s, i)
  }

  /** The regular expressions of the two rule tables. */
  datatype Pattern =
    | Run1(cls: CharClass)                 // `\d+`, `\s+`, `[A-Za-z]+`, `[a-z]+`, `[^$]+`
    | Run0(cls: CharClass)                 // `.*`
    | FloatNumber                          // `\d*\.\d+`
    | BoolWord                             // `(true|false)\b`
    | Literal(lit: string)                 // `\$`, `\n`, `ALGORITHM`
    | OneChar(chars: set<char>)            // a character set such as `[\[\](){},.;]`
    | EllipsisOr(chars: set<char>)         // `\.{3}|[...]`
    | Words(words: seq<string>)            // `words(list)`
    | BoundedWords(words: seq<string>, leading: bool)  // `words(list, suffix=r"\b")`, with `prefix=r"\b"` when `leading`
    | BoundedUpper                         // `\b[A-Z]+\b`
    | AlgorithmHeader                      // `(ALGORITHM)(\s*)(\w*)`
    | CommentUpToDollar                    // `(//)(.*?)(\$)`
    | CommentToEol                         // `(//)(.*)`, and `(//)(.*?)$` under MULTILINE, which matches the same

  /** The number of groups a pattern has for `bygroups`. */
  function Arity(p: Pattern): nat
  {
    match p
    case AlgorithmHeader => 3
    case CommentUpToDollar => 3
    case CommentToEol => 2
    case _ => 1
  }

  /** Group boundaries of a match starting at `pos`: group `i` is `s[b[i]..b[i+1]]`. */
  predicate ValidBounds(b: seq<nat>, s: string, pos: nat)
  {
    && |b| >= 2 && b[0] == pos && b[0] <= b[|b| - 1]
    && (forall i :: 0 <= i < |b| ==> b[i] <= |s|)
    && (forall i :: 0 <= i < |b| - 1 ==> b[i] <= b[i + 1])
  }

  /** The first word of the list that occurs at `pos` and, when `bounded`, ends at a `\b`. */
  function FirstWord(words: seq<string>, s: string, pos: nat, bounded: bool): (r: Option<string>)
    ensures r.Some? ==> StartsWithAt(s, pos, r.value)
    ensures r.Some? && bounded ==> Boundary(s, pos + |r.value|)
  {
    if |words| == 0 then None
    else if StartsWithAt(s, pos, words[0]) && (bounded ==> Boundary(s, pos + |words[0]|)) then Some(words[0])
    else FirstWord(words[1..], s, pos, bounded)
  }

  /** The word found is one of the list, and when none is found no word of the list occurs
      there (with a `\b` after it, when `bounded`). */
  lemma {:induction false} FirstWordSpec(words: seq<string>, s: string, pos: nat, bounded: bool)
    ensures var r := FirstWord(words, s, pos, bounded);
      && (r.Some? ==> r.value in words)
      && (r.None? ==> forall w :: w in words && StartsWithAt(s, pos, w) ==> bounded && !Boundary(s, pos + |w|))
  {
    if |words| > 0 {
      FirstWordSpec(words[1..], s, pos, bounded);
      forall w | w in words ensures w == words[0] || w in words[1..] {
        var k :| 0 <= k < |words| && words[k] == w;
        if k > 0 { assert words[1..][k - 1] == w; }
      }
    }
  }

  /** Every word of the list is a non-empty run of letters. */
  predicate LetterWords(ws: seq<string>)
  {
    forall i :: 0 <= i < |ws| ==> |ws[i]| > 0 && forall j :: 0 <= j < |ws[i]| ==> IsLetter(ws[i][j])
  }

  /** A word of letters that occurs at the start of a letter run and ends at a `\b` is the whole run. */
  lemma WholeRun(s: string, pos: nat, k: string)
    requires pos < |s| && |k| > 0 && (forall j :: 0 <= j < |k| ==> IsLetter(k[j]))
    requires StartsWithAt(s, pos, k) && Boundary(s, pos + |k|)
    ensures k == s[pos..SpanEnd(s, pos, LetterClass)]
  {
    var e := SpanEnd(s, pos, LetterClass);
    assert forall j :: 0 <= j < |k| ==> s[pos + j] == k[j];
    if pos + |k| < e {
      assert false;
    } else if pos + |k| > e {
      assert false;
    }
  }

  /** At the start of a letter run that ends at a `\b`, a list of letter words finds the whole
      run exactly when the run is one of its words. */
  lemma {:induction false} FirstWordOfRun(ws: seq<string>, s: string, pos: nat)
    requires pos <= |s| && LetterWords(ws) && !IsWordAt(s, SpanEnd(s, pos, LetterClass))
    ensures var e := SpanEnd(s, pos, LetterClass);
      FirstWord(ws, s, pos, true) == if s[pos..e] in ws then Some(s[pos..e]) else None
    decreases |ws|
  {
    var e := SpanEnd(s, pos, LetterClass);
    var w := s[pos..e];
    if |ws| > 0 {
      var k := ws[0];
      assert |k| > 0 && forall j :: 0 <= j < |k| ==> IsLetter(k[j]);
      if StartsWithAt(s, pos, k) && Boundary(s, pos + |k|) {
        StartsWithAtHead(s, pos, k);
        WholeRun(s, pos, k);
      } else {
        assert LetterWords(ws[1..]) by {
          forall i | 0 <= i < |ws[1..]| ensures |ws[1..][i]| > 0 {
            assert ws[1..][i] == ws[i + 1];
          }
        }
        FirstWordOfRun(ws[1..], s, pos);
        RunIsBoundedWord(s, pos, k);
        assert w != k;
        assert ws == [k] + ws[1..];
      }
    }
  }

  /** A non-empty letter run that ends before a non-word character occurs at its start with a
      `\b` after it. */
  lemma RunIsBoundedWord(s: string, pos: nat, k: string)
    requires pos <= |s| && |k| > 0 && !IsWordAt(s, SpanEnd(s, pos, LetterClass))
    ensures k == s[pos..SpanEnd(s, pos, LetterClass)] ==> StartsWithAt(s, pos, k) && Boundary(s, pos + |k|)
  {
  }

  /** A word found in a list of letter words is not empty. */
  lemma FirstWordNotEmpty(ws: seq<string>, s: string, pos: nat, bounded: bool)
    requires LetterWords(ws)
    ensures var r := FirstWord(ws, s, pos, bounded); r.Some? ==> |r.value| > 0
  {
    FirstWordSpec(ws, s, pos, bounded);
  }

  /** The match of pattern `p` at `pos`, as group boundaries. The greedy and lazy quantifiers of
      each expression are resolved by hand: none of these expressions can backtrack into a
      different match. */
  function Match(p: Pattern, s: string, pos: nat): (m: Option<seq<nat>>)
    requires pos <= |s|
    ensures m.Some? ==> ValidBounds(m.value, s, pos) && |m.value| == Arity(p) + 1
  {
    match p
    case Run1(k) =>
      var e := SpanEnd(s, pos, k);
      if e > pos then Span(s, pos, e) else None
    case Run0(k) => Span(s, pos, SpanEnd(s, pos, k))
    case FloatNumber => MatchFloat(s, pos)
    case BoolWord => MatchBool(s, pos)
    case Literal(w) => if StartsWithAt(s, pos, w) then Span(s, pos, pos + |w|) else None
    case OneChar(cs) => if pos < |s| && s[pos] in cs then Span(s, pos, pos + 1) else None
    case EllipsisOr(cs) =>
      if StartsWithAt(s, pos, "...") then Span(s, pos, pos + 3)
      else if pos < |s| && s[pos] in cs then Span(s, pos, pos + 1)
      else None
    case Words(ws) => MatchWords(ws, s, pos, false)
    case BoundedWords(ws, leading) =>
      if leading && !Boundary(s, pos) then None else MatchWords(ws, s, pos, true)
    case BoundedUpper =>
      var e := SpanEnd(s, pos, UpperClass);
      if Boundary(s, pos) && e > pos && Boundary(s, e) then Span(s, pos, e) else None
    case AlgorithmHeader => MatchAlgorithmHeader(s, pos)
    case CommentUpToDollar => MatchCommentUpToDollar(s, pos)
    case CommentToEol =>
      if StartsWithAt(s, pos, "//") then
        var e := SpanEnd(s, pos + 2, LineClass);
        Some([pos, pos + 2, e])
      else None
  }

  /** A match of the text from `pos` to `e`, without groups. */
  function Span(s: string, pos: nat, e: nat): (m: Option<seq<nat>>)
    requires pos <= e <= |s|
    ensures m.Some? && ValidBounds(m.value, s, pos) && |m.value| == 2
    ensures m.value[1] == e
  {
    Some([pos, e])
  }

  /** `\d*\.\d+`: at a digit the greedy `\d*` leaves no `.` to go back to, so the digits before
      the point are the whole run. */
  function MatchFloat(s: string, pos: nat): (m: Option<seq<nat>>)
    requires pos <= |s|
    ensures m.Some? ==> ValidBounds(m.value, s, pos) && |m.value| == 2
  {
    var d := SpanEnd(s, pos, DigitClass);
    if d + 1 < |s| && s[d] == '.' && IsDigit(s[d + 1]) then Some([pos, SpanEnd(s, d + 1, DigitClass)]) else None
  }

  /** No word of the list occurs at `pos`, so none is found. */
  lemma {:induction false} FirstWordNone(words: seq<string>, s: string, pos: nat, bounded: bool)
    requires forall i :: 0 <= i < |words| ==> !StartsWithAt(s, pos, words[i])
    ensures FirstWord(words, s, pos, bounded).None?
  {
    if |words| > 0 {
      assert forall i :: 0 <= i < |words| - 1 ==> words[1..][i] == words[i + 1];
      FirstWordNone(words[1..], s, pos, bounded);
    }
  }

  /** A pattern that, wherever it matches, matches at least one character. */
  predicate Progressing(p: Pattern)
  {
    match p
    case Run0(_) => false
    case Literal(w) => |w| > 0
    case Words(ws) => forall i :: 0 <= i < |ws| ==> |ws[i]| > 0
    case BoundedWords(ws, _) => forall i :: 0 <= i < |ws| ==> |ws[i]| > 0
    case _ => true
  }

  lemma ProgressingMatch(p: Pattern, s: string, pos: nat)
    requires pos <= |s| && Progressing(p) && Match(p, s, pos).Some?
    ensures Match(p, s, pos).value[|Match(p, s, pos).value| - 1] > pos
  {
    match p
    case Words(ws) => FirstWordSpec(ws, s, pos, false);
    case BoundedWords(ws, _) => FirstWordSpec(ws, s, pos, true);
    case FloatNumber =>
      var d := SpanEnd(s, pos, DigitClass);
      assert SpanEnd(s, d + 1, DigitClass) > d + 1;
    case _ =>
  }

  /** `(true|false)\b` */
  function MatchBool(s: string, pos: nat): (m: Option<seq<nat>>)
    requires pos <= |s|
    ensures m.Some? ==> ValidBounds(m.value, s, pos) && |m.value| == 2
  {
    if StartsWithAt(s, pos, "true") && Boundary(s, pos + 4) then Some([pos, pos + 4])
    else if StartsWithAt(s, pos, "false") && Boundary(s, pos + 5) then Some([pos, pos + 5])
    else None
  }

  function MatchWords(ws: seq<string>, s: string, pos: nat, bounded: bool): (m: Option<seq<nat>>)
    requires pos <= |s|
    ensures m.Some? ==> ValidBounds(m.value, s, pos) && |m.value| == 2
  {
    match FirstWord(ws, s, pos, bounded)
    case Some(w) => Some([pos, pos + |w|])
    case None => None
  }

  /** `(ALGORITHM)(\s*)(\w*)`: both runs are greedy and cannot fail. */
  function MatchAlgorithmHeader(s: string, pos: nat): (m: Option<seq<nat>>)
    requires pos <= |s|
    ensures m.Some? ==> ValidBounds(m.value, s, pos) && |m.value| == 4
  {
    if StartsWithAt(s, pos, "ALGORITHM") then
      var a := pos + 9;
      var b := SpanEnd(s, a, SpaceClass);
      Some([pos, a, b, SpanEnd(s, b, WordClass)])
    else None
  }

  /** `(//)(.*?)(\$)`: the lazy group stops at the first `$`, and fails at a newline or the end. */
  function MatchCommentUpToDollar(s: string, pos: nat): (m: Option<seq<nat>>)
    requires pos <= |s|
    ensures m.Some? ==> ValidBounds(m.value, s, pos) && |m.value| == 4
  {
    if StartsWithAt(s, pos, "//") then
      var e := SpanEnd(s, pos + 2, CommentBodyClass);
      if e < |s| && s[e] == '$' then Some([pos, pos + 2, e, e + 1]) else None
    else None
  }

  // The match of each kind of pattern, stated for any argument so that a rule table's
  // literal contents need not be unfolded.

  lemma MatchRun1(k: CharClass, s: string, pos: nat)
    requires pos <= |s|
    ensures var e := SpanEnd(s, pos, k);
      Match(Run1(k), s, pos) == if e > pos then Some([pos, e]) else None
  {
  }

  lemma MatchRun0(k: CharClass, s: string, pos: nat)
    requires pos <= |s|
    ensures Match(Run0(k), s, pos) == Some([pos, SpanEnd(s, pos, k)])
  {
  }

  lemma MatchLiteral(w: string, s: string, pos: nat)
    requires pos <= |s|
    ensures Match(Literal(w), s, pos) == if StartsWithAt(s, pos, w) then Some([pos, pos + |w|]) else None
  {
  }

  lemma MatchOneChar(cs: set<char>, s: string, pos: nat)
    requires pos <= |s|
    ensures Match(OneChar(cs), s, pos) == if pos < |s| && s[pos] in cs then Some([pos, pos + 1]) else None
  {
  }

  lemma MatchWordsList(ws: seq<string>, s: string, pos: nat)
    requires pos <= |s|
    ensures var w := FirstWord(ws, s, pos, false);
      Match(Words(ws), s, pos) == if w.Some? then Some([pos, pos + |w.value|]) else None
  {
  }

  /** What a word list matches is one of its words. */
  lemma MatchWordsIn(ws: seq<string>, s: string, pos: nat, b: seq<nat>)
    requires pos <= |s| && Match(Words(ws), s, pos) == Some(b)
    ensures |b| == 2 && s[pos..b[1]] in ws
  {
    MatchWordsList(ws, s, pos);
    FirstWordSpec(ws, s, pos, false);
  }

  lemma MatchBoundedWords(ws: seq<string>, leading: bool, s: string, pos: nat)
    requires pos <= |s|
    ensures var w := FirstWord(ws, s, pos, true);
      Match(BoundedWords(ws, leading), s, pos)
      == if (leading ==> Boundary(s, pos)) && w.Some? then Some([pos, pos + |w.value|]) else None
  {
    var m := MatchWords(ws, s, pos, true);
    assert m == if FirstWord(ws, s, pos, true).Some? then Some([pos, pos + |FirstWord(ws, s, pos, true).value|]) else None;
    assert Match(BoundedWords(ws, leading), s, pos) == if leading && !Boundary(s, pos) then None else m;
  }

  /** A bounded list of letter words matches a stand-alone run of letters exactly when the run
      is one of the words. */
  lemma MatchBoundedRun(ws: seq<string>, leading: bool, s: string, pos: nat)
    requires pos < |s| && IsLetter(s[pos]) && LetterWords(ws)
    requires !IsWordAt(s, pos - 1) && !IsWordAt(s, SpanEnd(s, pos, LetterClass))
    ensures var e := SpanEnd(s, pos, LetterClass);
      Match(BoundedWords(ws, leading), s, pos) == if s[pos..e] in ws then Some([pos, e]) else None
  {
    assert Boundary(s, pos);
    FirstWordOfRun(ws, s, pos);
    MatchBoundedWords(ws, leading, s, pos);
  }

  lemma MatchHeader(s: string, pos: nat)
    requires pos <= |s| && StartsWithAt(s, pos, "ALGORITHM")
    ensures var b := SpanEnd(s, pos + 9, SpaceClass);
      Match(AlgorithmHeader, s, pos) == Some([pos, pos + 9, b, SpanEnd(s, b, WordClass)])
  {
  }

  lemma MatchComment(s: string, pos: nat)
    requires pos <= |s| && StartsWithAt(s, pos, "//")
    ensures var d := SpanEnd(s, pos + 2, CommentBodyClass);
      && Match(CommentUpToDollar, s, pos) == (if d < |s| && s[d] == '$' then Some([pos, pos + 2, d, d + 1]) else None)
      && Match(CommentToEol, s, pos) == Some([pos, pos + 2, SpanEnd(s, pos + 2, LineClass)])
  {
  }

  lemma NoComment(s: string, pos: nat)
    requires pos <= |s| && !StartsWithAt(s, pos, "//")
    ensures Match(CommentUpToDollar, s, pos).None? && Match(CommentToEol, s, pos).None?
  {
  }

  lemma NoHeader(s: string, pos: nat)
    requires pos <= |s| && !StartsWithAt(s, pos, "ALGORITHM")
    ensures Match(AlgorithmHeader, s, pos).None?
  {
  }

  lemma MatchFloatNumber(s: string, pos: nat)
    requires pos <= |s|
    ensures var d := SpanEnd(s, pos, DigitClass);
      Match(FloatNumber, s, pos)
      == if d + 1 < |s| && s[d] == '.' && IsDigit(s[d + 1]) then Some([pos, SpanEnd(s, d + 1, DigitClass)]) else None
  {
  }

  lemma MatchBoolWord(s: string, pos: nat)
    requires pos <= |s|
    ensures Match(BoolWord, s, pos)
      == if StartsWithAt(s, pos, "true") && Boundary(s, pos + 4) then Some([pos, pos + 4])
         else if StartsWithAt(s, pos, "false") && Boundary(s, pos + 5) then Some([pos, pos + 5])
         else None
  {
  }

  /** `(true|false)\b` is the bounded word list of the two words. */
  lemma BoolWordIsWords(s: string, pos: nat)
    requires pos <= |s|
    ensures Match(BoolWord, s, pos) == Match(BoundedWords(["true", "false"], false), s, pos)
  {
    var ws := ["true", "false"];
    assert ws[1..] == ["false"];
    assert ["false"][1..] == [];
    assert FirstWord(["false"], s, pos, true)
      == if StartsWithAt(s, pos, "false") && Boundary(s, pos + 5) then Some("false") else None;
    assert FirstWord(ws, s, pos, true)
      == if StartsWithAt(s, pos, "true") && Boundary(s, pos + 4) then Some("true") else FirstWord(["false"], s, pos, true);
  }

  /** The tokens of a three-group match. */
  lemma EmitThree(kinds: seq<TokenType>, s: string, b: seq<nat>)
    requires |kinds| == 3 && |b| == 4 && ValidBounds(b, s, b[0])
    ensures EmitGroups(kinds, s, b, 0)
      == (if b[0] < b[1] then [Token(b[0], kinds[0], s[b[0]..b[1]])] else [])
         + (if b[1] < b[2] then [Token(b[1], kinds[1], s[b[1]..b[2]])] else [])
         + (if b[2] < b[3] then [Token(b[2], kinds[2], s[b[2]..b[3]])] else [])
  {
    assert EmitGroups(kinds, s, b, 3) == [];
    assert EmitGroups(kinds, s, b, 2) == (if b[2] < b[3] then [Token(b[2], kinds[2], s[b[2]..b[3]])] else []);
    assert EmitGroups(kinds, s, b, 1)
      == (if b[1] < b[2] then [Token(b[1], kinds[1], s[b[1]..b[2]])] else []) + EmitGroups(kinds, s, b, 2);
  }

  /** The tokens of a two-group match. */
  lemma EmitTwo(kinds: seq<TokenType>, s: string, b: seq<nat>)
    requires |kinds| == 2 && |b| == 3 && ValidBounds(b, s, b[0])
    ensures EmitGroups(kinds, s, b, 0)
      == (if b[0] < b[1] then [Token(b[0], kinds[0], s[b[0]..b[1]])] else [])
         + (if b[1] < b[2] then [Token(b[1], kinds[1], s[b[1]..b[2]])] else [])
  {
    assert EmitGroups(kinds, s, b, 2) == [];
    assert EmitGroups(kinds, s, b, 1) == (if b[1] < b[2] then [Token(b[1], kinds[1], s[b[1]..b[2]])] else []);
  }

  /** What a rule yields: one token of the whole match, or one per non-empty group. */
  datatype Action = Single(kind: TokenType) | ByGroups(kinds: seq<TokenType>)

  /** The state change after a match: none, push the states in order, or `#pop`. */
  datatype Transition = Stay | Push(states: seq<State>) | Pop

  datatype Rule = Rule(pattern: Pattern, action: Action, next: Transition)

  datatype Grammar = Grammar(root: seq<Rule>, math: seq<Rule>, comment: seq<Rule>)

  function RulesOf(g: Grammar, st: State): seq<Rule>
  {
    match st
    case RootState => g.root
    case MathState => g.math
    case CommentState => g.comment
  }

  /** A `bygroups` action names one type per group of its pattern. */
  predicate WellFormedRule(r: Rule)
  {
    r.action.ByGroups? ==> |r.action.kinds| == Arity(r.pattern)
  }

  predicate WellFormed(g: Grammar)
  {
    forall st: State, i :: 0 <= i < |RulesOf(g, st)| ==> WellFormedRule(RulesOf(g, st)[i])
  }

  /** The index of the first rule that matches at `pos`, with its match. */
  function FirstMatch(rules: seq<Rule>, s: string, pos: nat): (m: Option<(nat, seq<nat>)>)
    requires pos <= |s|
    ensures m.Some? ==> m.value.0 < |rules| && Match(rules[m.value.0].pattern, s, pos) == Some(m.value.1)
    ensures m.Some? ==> forall j :: 0 <= j < m.value.0 ==> Match(rules[j].pattern, s, pos).None?
    ensures m.None? ==> forall j :: 0 <= j < |rules| ==> Match(rules[j].pattern, s, pos).None?
  {
    if |rules| == 0 then None
    else
      match Match(rules[0].pattern, s, pos)
      case Some(b) => Some((0, b))
      case None =>
        (match FirstMatch(rules[1..], s, pos)
         case Some(found) => Some((found.0 + 1, found.1))
         case None => None)
  }

  /** The tokens of groups `i`, `i+1`, ... that are not empty (`bygroups` skips empty groups). */
  function EmitGroups(kinds: seq<TokenType>, s: string, b: seq<nat>, i: nat): seq<Token>
    requires |b| >= 2 && ValidBounds(b, s, b[0])
    decreases |kinds| - i
  {
    if i >= |kinds| || i + 1 >= |b| then []
    else (if b[i] < b[i + 1] then [Token(b[i], kinds[i], s[b[i]..b[i + 1]])] else []) + EmitGroups(kinds, s, b, i + 1)
  }

  function Emit(a: Action, s: string, b: seq<nat>): seq<Token>
    requires |b| >= 2 && ValidBounds(b, s, b[0])
  {
    match a
    case Single(kind) => [Token(b[0], kind, s[b[0]..b[|b| - 1]])]
    case ByGroups(kinds) => EmitGroups(kinds, s, b, 0)
  }

  function Top(stack: seq<State>): State
    requires |stack| > 0
  {
    stack[|stack| - 1]
  }

  function Transit(stack: seq<State>, t: Transition): (r: seq<State>)
    requires |stack| > 0
    ensures |r| > 0 && r[0] == stack[0]
  {
    match t
    case Stay => stack
    case Push(states) => stack + states
    case Pop => if |stack| > 1 then stack[..|stack| - 1] else stack
  }

  /** One turn of the scanning loop. `Stuck` is a match of the empty string, on which Pygments
      would yield empty tokens forever; `Finished` is the end of the text with no rule matching. */
  datatype Step = Advance(tokens: seq<Token>, next: nat, stack: seq<State>) | Stuck | Finished

  function StepAt(g: Grammar, s: string, pos: nat, stack: seq<State>): (r: Step)
    requires pos <= |s| && |stack| > 0
    ensures r.Advance? ==> pos < r.next <= |s| && |r.stack| > 0
    ensures r.Finished? ==> pos == |s|
  {
    var rules := RulesOf(g, Top(stack));
    match FirstMatch(rules, s, pos)
    case Some((i, b)) =>
      var end := b[|b| - 1];
      if end == pos then Stuck
      else Advance(Emit(rules[i].action, s, b), end, Transit(stack, rules[i].next))
    case None =>
      if pos == |s| then Finished
      else if s[pos] == '\n' then Advance([Token(pos, Whitespace, "\n")], pos + 1, [RootState])
      else Advance([Token(pos, Error, [s[pos]])], pos + 1, stack)
  }

  /** None of the first `i` rules matches at `pos`. */
  predicate FailsBefore(rules: seq<Rule>, s: string, pos: nat, i: nat)
    requires pos <= |s| && i <= |rules|
  {
    i == 0 || (Match(rules[i - 1].pattern, s, pos).None? && FailsBefore(rules, s, pos, i - 1))
  }

  lemma FailsBeforeNext(rules: seq<Rule>, s: string, pos: nat, i: nat)
    requires pos <= |s| && i < |rules| && FailsBefore(rules, s, pos, i) && Match(rules[i].pattern, s, pos).None?
    ensures FailsBefore(rules, s, pos, i + 1)
  {
  }

  lemma {:induction false} FailsBeforeAll(rules: seq<Rule>, s: string, pos: nat, i: nat)
    requires pos <= |s| && i <= |rules| && FailsBefore(rules, s, pos, i)
    ensures forall j :: 0 <= j < i ==> Match(rules[j].pattern, s, pos).None?
  {
    if i > 0 {
      FailsBeforeAll(rules, s, pos, i - 1);
    }
  }

  /** The step taken when rule `i` of the state on top is the first that matches, and matches
      something. */
  lemma StepByRule(g: Grammar, s: string, pos: nat, stack: seq<State>, i: nat, b: seq<nat>)
    requires pos <= |s| && |stack| > 0 && i < |RulesOf(g, Top(stack))|
    requires FailsBefore(RulesOf(g, Top(stack)), s, pos, i)
    requires Match(RulesOf(g, Top(stack))[i].pattern, s, pos) == Some(b) && b[|b| - 1] > pos
    ensures StepAt(g, s, pos, stack)
            == Advance(Emit(RulesOf(g, Top(stack))[i].action, s, b), b[|b| - 1], Transit(stack, RulesOf(g, Top(stack))[i].next))
  {
    var rules := RulesOf(g, Top(stack));
    FailsBeforeAll(rules, s, pos, i);
    var m := FirstMatch(rules, s, pos);
    assert m.Some?;
    assert m.value.0 == i by {
      if m.value.0 < i {
      } else if m.value.0 > i {
      }
    }
  }

  /** The step taken when the first rule that matches yields one token and keeps the state. */
  lemma StepBySingle(g: Grammar, s: string, pos: nat, stack: seq<State>, i: nat, e: nat, kind: TokenType)
    requires pos < e <= |s| && |stack| > 0 && i < |RulesOf(g, Top(stack))|
    requires FailsBefore(RulesOf(g, Top(stack)), s, pos, i)
    requires RulesOf(g, Top(stack))[i].action == Single(kind) && RulesOf(g, Top(stack))[i].next == Stay
    requires Match(RulesOf(g, Top(stack))[i].pattern, s, pos) == Some([pos, e])
    ensures StepAt(g, s, pos, stack) == Advance([Token(pos, kind, s[pos..e])], e, stack)
  {
    StepByRule(g, s, pos, stack, i, [pos, e]);
  }

  /** The step of a first matching rule that yields one token per group and pushes states. */
  lemma StepByGroupsPush(g: Grammar, s: string, pos: nat, stack: seq<State>, i: nat, b: seq<nat>,
                         kinds: seq<TokenType>, states: seq<State>, toks: seq<Token>)
    requires pos <= |s| && |stack| > 0 && i < |RulesOf(g, Top(stack))|
    requires FailsBefore(RulesOf(g, Top(stack)), s, pos, i)
    requires RulesOf(g, Top(stack))[i].action == ByGroups(kinds) && RulesOf(g, Top(stack))[i].next == Push(states)
    requires Match(RulesOf(g, Top(stack))[i].pattern, s, pos) == Some(b) && b[|b| - 1] > pos
    requires EmitGroups(kinds, s, b, 0) == toks
    ensures StepAt(g, s, pos, stack) == Advance(toks, b[|b| - 1], stack + states)
  {
    StepByRule(g, s, pos, stack, i, b);
  }

  /** The step taken when the first rule that matches matches the empty string. */
  lemma StepByEmptyMatch(g: Grammar, s: string, pos: nat, stack: seq<State>, i: nat, b: seq<nat>)
    requires pos <= |s| && |stack| > 0 && i < |RulesOf(g, Top(stack))|
    requires FailsBefore(RulesOf(g, Top(stack)), s, pos, i)
    requires Match(RulesOf(g, Top(stack))[i].pattern, s, pos) == Some(b) && b[|b| - 1] == pos
    ensures StepAt(g, s, pos, stack) == Stuck
  {
    var rules := RulesOf(g, Top(stack));
    FailsBeforeAll(rules, s, pos, i);
    var m := FirstMatch(rules, s, pos);
    assert m.Some?;
    assert m.value.0 == i by {
      if m.value.0 < i {
      } else if m.value.0 > i {
      }
    }
  }

  /** The step taken when no rule of the state on top matches before the end of the text. */
  lemma StepByNoRule(g: Grammar, s: string, pos: nat, stack: seq<State>)
    requires pos < |s| && |stack| > 0
    requires FailsBefore(RulesOf(g, Top(stack)), s, pos, |RulesOf(g, Top(stack))|)
    ensures StepAt(g, s, pos, stack)
            == if s[pos] == '\n' then Advance([Token(pos, Whitespace, "\n")], pos + 1, [RootState])
               else Advance([Token(pos, Error, [s[pos]])], pos + 1, stack)
  {
    FailsBeforeAll(RulesOf(g, Top(stack)), s, pos, |RulesOf(g, Top(stack))|);
  }

  datatype LexError = NoProgress(at: nat)

  function Run(g: Grammar, s: string, pos: nat, stack: seq<State>): Result<seq<Token>, LexError>
    requires pos <= |s| && |stack| > 0
    decreases |s| - pos
  {
    match StepAt(g, s, pos, stack)
    case Advance(ts, next, st) =>
      (match Run(g, s, next, st)
       case Ok(rest) => Ok(ts + rest)
       case Err(e) => Err(e))
    case Stuck => Err(NoProgress(pos))
    case Finished => Ok([])
  }

  /** A step that advances puts its tokens in front of the rest of the scan. */
  lemma RunAdvance(g: Grammar, s: string, pos: nat, stack: seq<State>, ts: seq<Token>, next: nat, st: seq<State>, rest: seq<Token>)
    requires pos <= |s| && |stack| > 0
    requires StepAt(g, s, pos, stack) == Advance(ts, next, st) && Run(g, s, next, st) == Ok(rest)
    ensures Run(g, s, pos, stack) == Ok(ts + rest)
  {
  }

  /** A finished step ends the scan with no tokens. */
  lemma RunFinished(g: Grammar, s: string, stack: seq<State>)
    requires |stack| > 0 && StepAt(g, s, |s|, stack) == Finished
    ensures Run(g, s, |s|, stack) == Ok([])
  {
  }

  /** `get_tokens_unprocessed`: scan the whole text from the `root` state. */
  function Lex(g: Grammar, s: string): Result<seq<Token>, LexError>
  {
    Run(g, s, 0, [RootState])
  }

  /** `ts` covers `s[from..to]` exactly: non-empty tokens, each at its own offset, with no gap
      and no overlap. */
  predicate Tiles(ts: seq<Token>, s: string, from: nat, to: nat)
    decreases |ts|
  {
    if |ts| == 0 then from == to <= |s|
    else
      var t := ts[|ts| - 1];
      && |t.text| > 0 && from <= t.offset && t.offset + |t.text| == to && to <= |s|
      && s[t.offset..to] == t.text
      && Tiles(ts[..|ts| - 1], s, from, t.offset)
  }

  lemma {:induction false} TilesBounds(ts: seq<Token>, s: string, from: nat, to: nat)
    requires Tiles(ts, s, from, to)
    ensures from <= to <= |s|
    ensures forall i :: 0 <= i < |ts| ==> from <= ts[i].offset && ts[i].offset + |ts[i].text| <= to
    decreases |ts|
  {
    if |ts| > 0 {
      TilesBounds(ts[..|ts| - 1], s, from, ts[|ts| - 1].offset);
    }
  }

  lemma {:induction false} TilesAppend(a: seq<Token>, b: seq<Token>, s: string, x: nat, y: nat, z: nat)
    requires Tiles(a, s, x, y) && Tiles(b, s, y, z)
    ensures Tiles(a + b, s, x, z)
    decreases |b|
  {
    if |b| == 0 {
      assert a + b == a;
    } else {
      var t := b[|b| - 1];
      assert (a + b)[..|a + b| - 1] == a + b[..|b| - 1];
      TilesAppend(a, b[..|b| - 1], s, x, y, t.offset);
    }
  }

  lemma TilesSingle(t: Token, s: string)
    requires |t.text| > 0 && t.offset + |t.text| <= |s| && s[t.offset..t.offset + |t.text|] == t.text
    ensures Tiles([t], s, t.offset, t.offset + |t.text|)
  {
    assert [t][..0] == [];
  }

  lemma {:induction false} EmitGroupsTiles(kinds: seq<TokenType>, s: string, b: seq<nat>, i: nat)
    requires |b| >= 2 && ValidBounds(b, s, b[0]) && |kinds| == |b| - 1 && i < |b|
    ensures Tiles(EmitGroups(kinds, s, b, i), s, b[i], b[|b| - 1])
    decreases |kinds| - i
  {
    if i + 1 < |b| {
      EmitGroupsTiles(kinds, s, b, i + 1);
      var head: seq<Token> := if b[i] < b[i + 1] then [Token(b[i], kinds[i], s[b[i]..b[i + 1]])] else [];
      if b[i] < b[i + 1] {
        TilesSingle(Token(b[i], kinds[i], s[b[i]..b[i + 1]]), s);
      }
      assert Tiles(head, s, b[i], b[i + 1]);
      TilesAppend(head, EmitGroups(kinds, s, b, i + 1), s, b[i], b[i + 1], b[|b| - 1]);
    }
  }

  lemma StepTiles(g: Grammar, s: string, pos: nat, stack: seq<State>)
    requires WellFormed(g) && pos <= |s| && |stack| > 0 && StepAt(g, s, pos, stack).Advance?
    ensures Tiles(StepAt(g, s, pos, stack).tokens, s, pos, StepAt(g, s, pos, stack).next)
  {
    var rules := RulesOf(g, Top(stack));
    match FirstMatch(rules, s, pos) {
      case Some((i, b)) =>
        assert WellFormedRule(rules[i]);
        match rules[i].action {
          case Single(kind) =>
            TilesSingle(Token(b[0], kind, s[b[0]..b[|b| - 1]]), s);
          case ByGroups(kinds) =>
            EmitGroupsTiles(kinds, s, b, 0);
        }
      case None =>
        TilesSingle(StepAt(g, s, pos, stack).tokens[0], s);
    }
  }

  /** Every character of the text belongs to exactly one token, in order. */
  lemma {:induction false} RunTiles(g: Grammar, s: string, pos: nat, stack: seq<State>)
    requires WellFormed(g) && pos <= |s| && |stack| > 0 && Run(g, s, pos, stack).Ok?
    ensures Tiles(Run(g, s, pos, stack).value, s, pos, |s|)
    decreases |s| - pos
  {
    match StepAt(g, s, pos, stack)
    case Advance(ts, next, st) =>
      StepTiles(g, s, pos, stack);
      RunTiles(g, s, next, st);
      TilesAppend(ts, Run(g, s, next, st).value, s, pos, next, |s|);
    case Finished =>
  }

  /** A tiling spells out its text. */
  lemma {:induction false} TilesSpell(ts: seq<Token>, s: string, from: nat, to: nat)
    requires Tiles(ts, s, from, to)
    ensures from <= to <= |s| && Concat(TextsOf(ts)) == s[from..to]
    decreases |ts|
  {
    TilesBounds(ts, s, from, to);
    if |ts| > 0 {
      var t := ts[|ts| - 1];
      TilesSpell(ts[..|ts| - 1], s, from, t.offset);
      assert TextsOf(ts)[..|ts| - 1] == TextsOf(ts[..|ts| - 1]);
      assert s[from..to] == s[from..t.offset] + s[t.offset..to];
    } else {
      assert s[from..to] == [];
    }
  }

  /** Offsets of a tiling strictly increase, so only the last token has the last offset. */
  lemma {:induction false} TilesOffsetsIncrease(ts: seq<Token>, s: string, from: nat, to: nat)
    requires Tiles(ts, s, from, to)
    ensures forall i, j :: 0 <= i < j < |ts| ==> ts[i].offset < ts[j].offset
    decreases |ts|
  {
    if |ts| > 0 {
      var t := ts[|ts| - 1];
      TilesOffsetsIncrease(ts[..|ts| - 1], s, from, t.offset);
      TilesBounds(ts[..|ts| - 1], s, from, t.offset);
      assert forall i :: 0 <= i < |ts| - 1 ==> ts[i] == ts[..|ts| - 1][i];
    }
  }

  /** Contiguity for any well-formed table: the tokens of a successful scan concatenate to the
      scanned text, start at offset 0, and each starts where the previous one ends. */
  lemma LexCovers(g: Grammar, s: string)
    requires WellFormed(g) && Lex(g, s).Ok?
    ensures var ts := Lex(g, s).value;
      && Concat(TextsOf(ts)) == s
      && (|ts| > 0 ==> ts[0].offset == 0)
      && (forall i :: 0 <= i < |ts| ==> |ts[i].text| > 0)
      && (forall i :: 0 <= i && i + 1 < |ts| ==> ts[i + 1].offset == ts[i].offset + |ts[i].text|)
  {
    var ts := Lex(g, s).value;
    RunTiles(g, s, 0, [RootState]);
    TilesSpell(ts, s, 0, |s|);
    assert s[0..|s|] == s;
    TilesChain(ts, s, 0, |s|);
  }

  lemma {:induction false} TilesChain(ts: seq<Token>, s: string, from: nat, to: nat)
    requires Tiles(ts, s, from, to)
    ensures |ts| > 0 ==> ts[0].offset == from
    ensures forall i :: 0 <= i < |ts| ==> |ts[i].text| > 0
    ensures forall i :: 0 <= i && i + 1 < |ts| ==> ts[i + 1].offset == ts[i].offset + |ts[i].text|
    decreases |ts|
  {
    if |ts| > 0 {
      var n := |ts|;
      var init := ts[..n - 1];
      TilesChain(init, s, from, ts[n - 1].offset);
      assert forall i :: 0 <= i < n - 1 ==> ts[i] == init[i];
      if n > 1 {
        TilesLastEnd(init, s, from, ts[n - 1].offset);
      }
    }
  }

  lemma TilesLastEnd(ts: seq<Token>, s: string, from: nat, to: nat)
    requires Tiles(ts, s, from, to) && |ts| > 0
    ensures ts[|ts| - 1].offset + |ts[|ts| - 1].text| == to
  {
  }
}
