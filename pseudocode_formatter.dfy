/** `PseudocodeFormatter` of Pseudocode.py: it resolves each token type to the nearest styled
    ancestor, merges consecutive tokens of the same resolved type into runs, and writes every run
    but the last between the run type's (begin, end) strings, inside a `minted` environment. */
module PseudocodeFormatter {
  import opened Wrappers
  import opened Texts
  import opened Tokens

  /** A token of the stream the formatter receives: its type and its text. */
  type Pair = (TokenType, string)

  /** The (begin, end) strings written around a run of each type. */
  type Styles = map<TokenType, (string, string)>

  const Escape: string := "?"

  /** The entries the constructor writes first. */
  const CustomStyles: Styles := map[
    MathDelimiter := ("", ""),
    MathText := (Escape + "\\(", "\\)" + Escape),
    AlgorithmKeyword := (Escape + "\\sffamily{\\textbf{", "}}" + Escape),
    AlgorithmName := (Escape + "\\textit{", "}" + Escape),
    CustomCommentPrefix := ("", ""),
    CustomCommentText := (Escape, Escape)
  ]

  /** What the Pygments style says about a token type. */
  datatype Flags = Flags(bold: bool, italic: bool, underline: bool)

  function Count(f: Flags): nat
  {
    (if f.bold then 1 else 0) + (if f.italic then 1 else 0) + (if f.underline then 1 else 0)
  }

  /** The entry the constructor derives from a style: one escaped macro per flag, opened in the
      order bold, italic, underline, and one escaped closing brace per flag. */
  function DerivedEntry(f: Flags): (r: (string, string))
    ensures r.1 == Repeat("}" + Escape, Count(f))
    ensures |r.0| == (if f.bold then 9 else 0) + (if f.italic then 9 else 0) + (if f.underline then 12 else 0)
    ensures f.bold ==> r.0[..9] == Escape + "\\textbf{"
    ensures r.0 == (if f.bold then Escape + "\\textbf{" else "") + (if f.italic then Escape + "\\textit{" else "")
                 + (if f.underline then Escape + "\\underline{" else "")
  {
    var b := if f.bold then (Escape + "\\textbf{", "}" + Escape) else ("", "");
    var i := if f.italic then (b.0 + Escape + "\\textit{", b.1 + "}" + Escape) else b;
    var u := if f.underline then (i.0 + Escape + "\\underline{", i.1 + "}" + Escape) else i;
    var bold := if f.bold then Escape + "\\textbf{" else "";
    var italic := if f.italic then Escape + "\\textit{" else "";
    var underline := if f.underline then Escape + "\\underline{" else "";
    var close := "}" + Escape;
    var nb := if f.bold then 1 else 0;
    var ni := if f.italic then 1 else 0;
    var nu := if f.underline then 1 else 0;
    assert b == (bold, Repeat(close, nb)) by {
      assert Repeat(close, 1) == close;
    }
    assert i == (bold + italic, Repeat(close, nb + ni)) by {
      if f.italic {
        AppendAssoc(b.0, Escape, "\\textit{");
        AppendAssoc(b.1, "}", Escape);
        assert Repeat(close, nb + 1) == Repeat(close, nb) + close;
      } else {
        assert bold + italic == bold;
      }
    }
    assert u == (bold + italic + underline, Repeat(close, nb + ni + nu)) by {
      if f.underline {
        AppendAssoc(i.0, Escape, "\\underline{");
        AppendAssoc(i.1, "}", Escape);
        assert Repeat(close, nb + ni + 1) == Repeat(close, nb + ni) + close;
      } else {
        assert bold + italic + underline == bold + italic;
      }
    }
    assert f.bold ==> u.0[..9] == b.0;
    u
  }

  /** `self.styles` after the constructor: the custom entries, overwritten by the entries derived
      from the style for every token type it lists. */
  function FormatterStyles(style: map<TokenType, Flags>): (r: Styles)
    ensures forall t :: t in r <==> t in CustomStyles || t in style
    ensures forall t :: t in style ==> r[t] == DerivedEntry(style[t])
    ensures forall t :: t !in style && t in CustomStyles ==> r[t] == CustomStyles[t]
  {
    CustomStyles + map t | t in style :: DerivedEntry(style[t])
  }

  // ---------------------------------------------------------------------------------------
  // Resolving token types.

  /** The nearest ancestor of `t` (itself included) that has a style. */
  function Resolve(styles: Styles, t: TokenType): (r: Option<TokenType>)
    ensures r.Some? ==> r.value in styles && IsAncestor(r.value, t)
    decreases |t|
  {
    if t in styles then Some(t)
    else if t == TokenRoot then None
    else
      AncestorOfParent(t);
      Resolve(styles, Parent(t))
  }

  /** The resolved type is the nearest styled ancestor, and there is none when resolving fails. */
  lemma {:induction false} ResolveSpec(styles: Styles, t: TokenType)
    ensures var r := Resolve(styles, t);
      && (r.Some? ==> forall a :: IsAncestor(a, t) && |a| > |r.value| ==> a !in styles)
      && (r.None? ==> forall a :: IsAncestor(a, t) ==> a !in styles)
    decreases |t|
  {
    if t !in styles && t != TokenRoot {
      AncestorOfParent(t);
      ResolveSpec(styles, Parent(t));
    }
  }

  /** A proper ancestor of `t` is an ancestor of its parent. */
  lemma AncestorOfParent(t: TokenType)
    requires t != TokenRoot
    ensures forall a :: IsAncestor(a, t) && a != t ==> IsAncestor(a, Parent(t))
    ensures IsAncestor(Parent(t), t)
  {
    forall a | IsAncestor(a, t) && a != t ensures IsAncestor(a, Parent(t)) {
      assert Parent(t)[..|a|] == t[..|a|];
    }
  }

  /** Every token has a styled ancestor. */
  predicate AllResolve(styles: Styles, ts: seq<Pair>)
  {
    forall i :: 0 <= i < |ts| ==> Resolve(styles, ts[i].0).Some?
  }

  /** The stream with every type replaced by its resolved type. */
  function Resolved(styles: Styles, ts: seq<Pair>): (r: seq<Pair>)
    requires AllResolve(styles, ts)
    ensures |r| == |ts|
    ensures AllStyled(styles, r)
    ensures forall i :: 0 <= i < |ts| ==> r[i] == (Resolve(styles, ts[i].0).value, ts[i].1)
  {
    seq(|ts|, i requires 0 <= i < |ts| && AllResolve(styles, ts) => (Resolve(styles, ts[i].0).value, ts[i].1))
  }

  /** Resolving one more token extends the resolved stream by that token. */
  lemma ResolvedSnoc(styles: Styles, ts: seq<Pair>, i: nat)
    requires i < |ts| && AllResolve(styles, ts[..i]) && Resolve(styles, ts[i].0).Some?
    ensures AllResolve(styles, ts[..i + 1])
    ensures Resolved(styles, ts[..i + 1]) == Resolved(styles, ts[..i]) + [(Resolve(styles, ts[i].0).value, ts[i].1)]
  {
    assert forall j :: 0 <= j < i ==> ts[..i + 1][j] == ts[..i][j];
  }

  // ---------------------------------------------------------------------------------------
  // Runs.

  /** Every type of the sequence has a style. */
  predicate AllStyled(styles: Styles, ps: seq<Pair>)
  {
    forall j :: 0 <= j < |ps| ==> ps[j].0 in styles
  }

  /** One more token added to the runs: it extends the last run when the types agree and
      starts a new run otherwise. */
  function AddToRuns(runs: seq<Pair>, p: Pair): (r: seq<Pair>)
    ensures |r| > 0 && r[|r| - 1].0 == p.0
    ensures |runs| <= |r| <= |runs| + 1
  {
    var n := |runs|;
    if n > 0 && runs[n - 1].0 == p.0 then runs[..n - 1] + [(p.0, runs[n - 1].1 + p.1)]
    else runs + [p]
  }

  /** Consecutive tokens of the same type merged into one run. */
  function Runs(ps: seq<Pair>): (r: seq<Pair>)
    ensures |r| <= |ps| && (|ps| > 0 <==> |r| > 0)
    ensures |ps| > 0 ==> r[|r| - 1].0 == ps[|ps| - 1].0
  {
    if |ps| == 0 then [] else AddToRuns(Runs(ps[..|ps| - 1]), ps[|ps| - 1])
  }

  lemma RunsSnoc(ps: seq<Pair>, p: Pair)
    ensures Runs(ps + [p]) == AddToRuns(Runs(ps), p)
  {
    assert (ps + [p])[..|ps|] == ps;
  }

  function Values(ps: seq<Pair>): (r: seq<string>)
    ensures |r| == |ps| && forall i :: 0 <= i < |ps| ==> r[i] == ps[i].1
  {
    seq(|ps|, i requires 0 <= i < |ps| => ps[i].1)
  }

  /** Merging loses no text and reorders none. */
  lemma {:induction false} RunsFlatten(ps: seq<Pair>)
    ensures Concat(Values(Runs(ps))) == Concat(Values(ps))
  {
    if |ps| > 0 {
      var init := ps[..|ps| - 1];
      var p := ps[|ps| - 1];
      RunsFlatten(init);
      AddToRunsValues(Runs(init), p);
      ValuesSnoc(ps);
      ConcatAppend(Values(init), [p.1]);
    }
  }

  lemma ValuesSnoc(ps: seq<Pair>)
    requires |ps| > 0
    ensures Values(ps) == Values(ps[..|ps| - 1]) + [ps[|ps| - 1].1]
  {
    assert forall i :: 0 <= i < |ps| - 1 ==> ps[..|ps| - 1][i] == ps[i];
  }

  lemma AddToRunsValues(runs: seq<Pair>, p: Pair)
    ensures Concat(Values(AddToRuns(runs, p))) == Concat(Values(runs)) + p.1
  {
    var n := |runs|;
    if n > 0 && runs[n - 1].0 == p.0 {
      var last := runs[n - 1];
      assert runs == runs[..n - 1] + [last];
      assert Values(runs) == Values(runs[..n - 1]) + [last.1];
      ConcatAppend(Values(runs[..n - 1]), [last.1]);
      assert Values(AddToRuns(runs, p)) == Values(runs[..n - 1]) + [last.1 + p.1];
      ConcatAppend(Values(runs[..n - 1]), [last.1 + p.1]);
    } else {
      assert Values(AddToRuns(runs, p)) == Values(runs) + [p.1];
      ConcatAppend(Values(runs), [p.1]);
    }
  }

  /** Neighbouring elements have different types. */
  predicate AdjacentDiffer(ps: seq<Pair>)
  {
    forall j :: 0 <= j && j + 1 < |ps| ==> ps[j].0 != ps[j + 1].0
  }

  /** Neighbouring runs have different types, so merging is maximal. */
  lemma {:induction false} RunsAdjacentDiffer(ps: seq<Pair>)
    ensures AdjacentDiffer(Runs(ps))
  {
    if |ps| > 0 {
      var init := ps[..|ps| - 1];
      var p := ps[|ps| - 1];
      RunsAdjacentDiffer(init);
      var ri := Runs(init);
      var r := Runs(ps);
      var n := |ri|;
      if n > 0 && ri[n - 1].0 == p.0 {
        assert r == ri[..n - 1] + [(p.0, ri[n - 1].1 + p.1)];
        forall j | 0 <= j && j + 1 < |r| ensures r[j].0 != r[j + 1].0 {
          assert r[j] == ri[j];
          assert r[j + 1].0 == ri[j + 1].0;
          assert ri[j].0 != ri[j + 1].0;
        }
      } else {
        assert r == ri + [p];
        forall j | 0 <= j && j + 1 < |r| ensures r[j].0 != r[j + 1].0 {
          assert r[j] == ri[j];
          if j + 1 < n {
            assert ri[j].0 != ri[j + 1].0;
          } else {
            assert r[j + 1] == p;
          }
        }
      }
    }
  }

  /** Every run has the type of some token, so with resolved tokens every run type is styled. */
  lemma {:induction false} RunsStyled(styles: Styles, ps: seq<Pair>)
    requires AllStyled(styles, ps)
    ensures AllStyled(styles, Runs(ps))
  {
    if |ps| > 0 {
      var init := ps[..|ps| - 1];
      InitStyled(styles, ps);
      RunsStyled(styles, init);
      AddToRunsStyled(styles, Runs(init), ps[|ps| - 1]);
    }
  }

  lemma InitStyled(styles: Styles, ps: seq<Pair>)
    requires AllStyled(styles, ps) && |ps| > 0
    ensures AllStyled(styles, ps[..|ps| - 1]) && ps[|ps| - 1].0 in styles
  {
    assert forall j :: 0 <= j < |ps| - 1 ==> ps[..|ps| - 1][j] == ps[j];
  }

  /** A styled token added to styled runs keeps every run type styled. */
  lemma AddToRunsStyled(styles: Styles, runs: seq<Pair>, p: Pair)
    requires AllStyled(styles, runs) && p.0 in styles
    ensures AllStyled(styles, AddToRuns(runs, p))
  {
    var r := AddToRuns(runs, p);
    assert forall j :: 0 <= j < |r| - 1 ==> r[j] == runs[j];
  }

  // ---------------------------------------------------------------------------------------
  // Output.

  const Header: string := "\\begin{minted}[escapeinside=" + Escape + Escape + ", fontfamily=lmr]{text}" + "\n"
  const Footer: string := "\n" + "\\end{minted}"

  /** The text written for a run when the next run begins: nothing for an empty run or a
      `Math.Delimiter` run, the fixed `?/\!/?` for a comment prefix, else the run between its
      type's strings. */
  function EmitRun(styles: Styles, run: Pair): string
    requires run.0 in styles
  {
    if run.1 == "" then ""
    else if run.0 == MathDelimiter then ""
    else if run.0 == CustomCommentPrefix then "?/\\!/?"
    else styles[run.0].0 + run.1 + styles[run.0].1
  }

  /** The texts written for the given runs, in order. */
  function Emitted(styles: Styles, runs: seq<Pair>): string
    requires AllStyled(styles, runs)
  {
    if |runs| == 0 then "" else Emitted(styles, runs[..|runs| - 1]) + EmitRun(styles, runs[|runs| - 1])
  }

  /** What is written between the header and the footer: every run but the last. */
  function Body(styles: Styles, runs: seq<Pair>): string
    requires AllStyled(styles, runs)
  {
    if |runs| == 0 then "" else Emitted(styles, runs[..|runs| - 1])
  }

  datatype FormatError = UnstyledType

  /** The formatter's output for a token stream; a type none of whose ancestors is styled ends
      the walk up `.parent` at `None`, which has no `.parent`. */
  function FormatSpec(styles: Styles, ts: seq<Pair>): Result<string, FormatError>
  {
    if !AllResolve(styles, ts) then Err(UnstyledType)
    else
      var rs := Resolved(styles, ts);
      RunsStyled(styles, rs);
      Ok(Header + Body(styles, Runs(rs)) + Footer)
  }

  /** A token of the last run's type extends that run and writes nothing. */
  lemma BodyExtend(styles: Styles, runs: seq<Pair>, p: Pair)
    requires AllStyled(styles, runs) && p.0 in styles
    requires |runs| > 0 && runs[|runs| - 1].0 == p.0
    ensures AllStyled(styles, AddToRuns(runs, p))
    ensures Body(styles, AddToRuns(runs, p)) == Body(styles, runs)
  {
    var next := AddToRuns(runs, p);
    assert next[..|runs| - 1] == runs[..|runs| - 1];
    assert forall j :: 0 <= j < |runs| - 1 ==> next[j] == runs[j];
  }

  /** A token of another type starts a new run, and the previous last run is written. */
  lemma BodyStart(styles: Styles, runs: seq<Pair>, p: Pair)
    requires AllStyled(styles, runs) && p.0 in styles
    requires |runs| == 0 || runs[|runs| - 1].0 != p.0
    ensures AllStyled(styles, AddToRuns(runs, p))
    ensures var n := |runs|;
      Body(styles, AddToRuns(runs, p)) == Body(styles, runs) + (if n > 0 then EmitRun(styles, runs[n - 1]) else "")
  {
    var n := |runs|;
    var next := AddToRuns(runs, p);
    assert next == runs + [p];
    assert next[..n] == runs;
    assert forall j :: 0 <= j < n ==> next[j] == runs[j];
    if n > 0 {
      assert runs == runs[..n - 1] + [runs[n - 1]];
    }
  }

  /** The accumulators of the formatter between two tokens: what has been written to `outfile`,
      and the type and text of the pending run. */
  datatype Writer = Writer(out: string, lasttype: Option<TokenType>, lastval: string)

  /** The pending run has a styled type, and there is no pending text before the first token. */
  predicate StyledWriter(styles: Styles, w: Writer)
  {
    (w.lasttype.Some? ==> w.lasttype.value in styles) && (w.lasttype.None? ==> w.lastval == "")
  }

  /** The accumulators after one more resolved token. */
  function Feed(styles: Styles, w: Writer, p: Pair): (r: Writer)
    requires StyledWriter(styles, w) && p.0 in styles
    ensures StyledWriter(styles, r)
  {
    if w.lasttype == Some(p.0) then Writer(w.out, w.lasttype, w.lastval + p.1)
    else
      var written := if w.lasttype.Some? then EmitRun(styles, (w.lasttype.value, w.lastval)) else "";
      Writer(w.out + written, Some(p.0), p.1)
  }

  /** The accumulators after a stream of resolved tokens. */
  function Fed(styles: Styles, ps: seq<Pair>): (r: Writer)
    requires AllStyled(styles, ps)
    ensures StyledWriter(styles, r)
  {
    if |ps| == 0 then Writer(Header, None, "")
    else
      assert AllStyled(styles, ps[..|ps| - 1]) by {
        assert forall j :: 0 <= j < |ps| - 1 ==> ps[..|ps| - 1][j] == ps[j];
      }
      Feed(styles, Fed(styles, ps[..|ps| - 1]), ps[|ps| - 1])
  }

  /** The accumulators hold the text `head` followed by every run but the last, and the last run
      is pending. */
  predicate Tracks(styles: Styles, head: string, runs: seq<Pair>, w: Writer)
    requires AllStyled(styles, runs)
  {
    && w.out == head + Body(styles, runs)
    && (|runs| == 0 ==> w.lasttype.None? && w.lastval == "")
    && (|runs| > 0 ==> w.lasttype == Some(runs[|runs| - 1].0) && w.lastval == runs[|runs| - 1].1)
  }

  /** Feeding one token to the accumulators follows adding it to the runs. */
  lemma FeedTracks(styles: Styles, head: string, runs: seq<Pair>, w: Writer, p: Pair)
    requires AllStyled(styles, runs) && StyledWriter(styles, w) && p.0 in styles
    requires Tracks(styles, head, runs, w)
    ensures AllStyled(styles, AddToRuns(runs, p))
    ensures Tracks(styles, head, AddToRuns(runs, p), Feed(styles, w, p))
  {
    if |runs| > 0 && runs[|runs| - 1].0 == p.0 {
      FeedTracksExtend(styles, head, runs, w, p);
    } else {
      FeedTracksStart(styles, head, runs, w, p);
    }
  }

  lemma FeedTracksExtend(styles: Styles, head: string, runs: seq<Pair>, w: Writer, p: Pair)
    requires AllStyled(styles, runs) && StyledWriter(styles, w) && p.0 in styles
    requires Tracks(styles, head, runs, w)
    requires |runs| > 0 && runs[|runs| - 1].0 == p.0
    ensures AllStyled(styles, AddToRuns(runs, p))
    ensures Tracks(styles, head, AddToRuns(runs, p), Feed(styles, w, p))
  {
    BodyExtend(styles, runs, p);
    var n := |runs|;
    var next := AddToRuns(runs, p);
    assert next == runs[..n - 1] + [(p.0, runs[n - 1].1 + p.1)];
    assert Feed(styles, w, p) == Writer(w.out, w.lasttype, w.lastval + p.1);
  }

  lemma FeedTracksStart(styles: Styles, head: string, runs: seq<Pair>, w: Writer, p: Pair)
    requires AllStyled(styles, runs) && StyledWriter(styles, w) && p.0 in styles
    requires Tracks(styles, head, runs, w)
    requires |runs| == 0 || runs[|runs| - 1].0 != p.0
    ensures AllStyled(styles, AddToRuns(runs, p))
    ensures Tracks(styles, head, AddToRuns(runs, p), Feed(styles, w, p))
  {
    BodyStart(styles, runs, p);
    if |runs| == 0 {
      assert Feed(styles, w, p) == Writer(w.out, Some(p.0), p.1);
      assert AddToRuns(runs, p) == [p];
    } else {
      FeedTracksNewRun(styles, head, runs, w, p);
    }
  }

  lemma FeedTracksNewRun(styles: Styles, head: string, runs: seq<Pair>, w: Writer, p: Pair)
    requires AllStyled(styles, runs) && StyledWriter(styles, w) && p.0 in styles
    requires Tracks(styles, head, runs, w)
    requires |runs| > 0 && runs[|runs| - 1].0 != p.0
    requires AllStyled(styles, AddToRuns(runs, p))
    requires Body(styles, AddToRuns(runs, p)) == Body(styles, runs) + EmitRun(styles, runs[|runs| - 1])
    ensures Tracks(styles, head, AddToRuns(runs, p), Feed(styles, w, p))
  {
    var last := runs[|runs| - 1];
    assert last == (w.lasttype.value, w.lastval);
    var written := EmitRun(styles, last);
    assert Feed(styles, w, p) == Writer(w.out + written, Some(p.0), p.1);
    assert AddToRuns(runs, p) == runs + [p];
    AppendAssoc(head, Body(styles, runs), written);
  }

  /** The accumulators hold exactly the written runs and the pending last run. */
  lemma {:induction false} FedRuns(styles: Styles, ps: seq<Pair>)
    requires AllStyled(styles, ps)
    ensures AllStyled(styles, Runs(ps))
    ensures Tracks(styles, Header, Runs(ps), Fed(styles, ps))
  {
    if |ps| > 0 {
      var init := ps[..|ps| - 1];
      InitStyled(styles, ps);
      FedRuns(styles, init);
      FeedTracks(styles, Header, Runs(init), Fed(styles, init), ps[|ps| - 1]);
    }
  }

  /** The walk up `.parent` until a styled type; `None` when even the root type has no style. */
  method ResolveType(styles: Styles, t: TokenType) returns (r: Option<TokenType>)
    ensures r == Resolve(styles, t)
  {
    var ttype := t;
    while ttype !in styles
      invariant IsAncestor(ttype, t)
      invariant Resolve(styles, ttype) == Resolve(styles, t)
      decreases |ttype|
    {
      if ttype == TokenRoot {
        return None;
      }
      AncestorOfParent(ttype);
      ttype := Parent(ttype);
    }
    return Some(ttype);
  }

  /** `PseudocodeFormatter.format`, with `outfile` as the string written so far. */
  method Format(styles: Styles, ts: seq<Pair>) returns (r: Result<string, FormatError>)
    ensures r == FormatSpec(styles, ts)
  {
    var lastval := "";
    var lasttype: Option<TokenType> := None;
    var out := Header;
    var i := 0;
    while i < |ts|
      invariant 0 <= i <= |ts|
      invariant AllResolve(styles, ts[..i])
      invariant Writer(out, lasttype, lastval) == Fed(styles, Resolved(styles, ts[..i]))
    {
      var resolved := ResolveType(styles, ts[i].0);
      if resolved.None? {
        NotAllResolve(styles, ts, i);
        return Err(UnstyledType);
      }
      var ttype := resolved.value;
      var value := ts[i].1;
      FedSnoc(styles, ts, i);
      out, lasttype, lastval := FeedToken(styles, out, lasttype, lastval, ttype, value);
      i := i + 1;
    }
    FedFormat(styles, ts);
    out := out + "\n";
    out := out + "\\end{minted}";
    return Ok(out);
  }

  /** One pass of the token loop of `format`: a token of the pending type extends the pending
      text; another type writes the pending run and makes the token pending. */
  method FeedToken(styles: Styles, out: string, lasttype: Option<TokenType>, lastval: string, ttype: TokenType, value: string)
    returns (out': string, lasttype': Option<TokenType>, lastval': string)
    requires StyledWriter(styles, Writer(out, lasttype, lastval)) && ttype in styles
    ensures Writer(out', lasttype', lastval') == Feed(styles, Writer(out, lasttype, lastval), (ttype, value))
  {
    out', lasttype', lastval' := out, lasttype, lastval;
    if lasttype == Some(ttype) {
      lastval' := lastval + value;
    } else {
      if lastval != "" {
        if lasttype != Some(MathDelimiter) {
          var (stylebegin, styleend) := styles[lasttype.value];
          if lasttype == Some(CustomCommentPrefix) {
            out' := out + "?/\\!/?";
          } else {
            out' := out + (stylebegin + lastval + styleend);
          }
        }
      }
      lastval' := value;
      lasttype' := Some(ttype);
    }
  }

  /** Feeding the next resolved token. */
  lemma FedSnoc(styles: Styles, ts: seq<Pair>, i: nat)
    requires i < |ts| && AllResolve(styles, ts[..i]) && Resolve(styles, ts[i].0).Some?
    ensures AllResolve(styles, ts[..i + 1])
    ensures Fed(styles, Resolved(styles, ts[..i + 1]))
         == Feed(styles, Fed(styles, Resolved(styles, ts[..i])), (Resolve(styles, ts[i].0).value, ts[i].1))
  {
    ResolvedSnoc(styles, ts, i);
    assert Resolved(styles, ts[..i + 1])[..i] == Resolved(styles, ts[..i]);
  }

  /** After the whole stream, the written text and the footer make the specified output. */
  lemma FedFormat(styles: Styles, ts: seq<Pair>)
    requires AllResolve(styles, ts[..|ts|])
    ensures FormatSpec(styles, ts) == Ok(Fed(styles, Resolved(styles, ts[..|ts|])).out + "\n" + "\\end{minted}")
  {
    assert ts[..|ts|] == ts;
    var rs := Resolved(styles, ts);
    FedRuns(styles, rs);
    var out := Fed(styles, rs).out;
    assert out + "\n" + "\\end{minted}" == out + Footer;
  }

  lemma NotAllResolve(styles: Styles, ts: seq<Pair>, i: nat)
    requires i < |ts| && Resolve(styles, ts[i].0).None?
    ensures FormatSpec(styles, ts) == Err(UnstyledType)
  {
  }

  // ---------------------------------------------------------------------------------------
  // Properties of the output.

  /** The output starts with the `minted` header line and ends with a newline and `\end{minted}`. */
  lemma FormatEdges(styles: Styles, ts: seq<Pair>)
    requires FormatSpec(styles, ts).Ok?
    ensures var out := FormatSpec(styles, ts).value;
      && |out| >= |Header| + |Footer|
      && out[..|Header|] == Header
      && out[|out| - |Footer|..] == Footer
  {
    var out := FormatSpec(styles, ts).value;
    var rs := Resolved(styles, ts);
    RunsStyled(styles, rs);
    var body := Body(styles, Runs(rs));
    assert out == Header + body + Footer;
    assert (Header + body + Footer)[..|Header|] == Header;
  }

  /** When the styles cover the root type, as the Pygments style does, every stream formats. */
  lemma FormatOkIffResolvable(styles: Styles, ts: seq<Pair>)
    ensures FormatSpec(styles, ts).Ok? <==> forall i :: 0 <= i < |ts| ==> Resolve(styles, ts[i].0).Some?
    ensures TokenRoot in styles ==> FormatSpec(styles, ts).Ok?
  {
    if TokenRoot in styles {
      forall i | 0 <= i < |ts| ensures Resolve(styles, ts[i].0).Some? {
        ResolveSpec(styles, ts[i].0);
        assert IsAncestor(TokenRoot, ts[i].0);
      }
    }
  }

  /** The last run is never written: the text of the final token does not reach the output. */
  lemma LastTokenNotWritten(styles: Styles, ts: seq<Pair>, t: TokenType, v: string, w: string)
    ensures FormatSpec(styles, ts + [(t, v)]) == FormatSpec(styles, ts + [(t, w)])
  {
    var a := ts + [(t, v)];
    var b := ts + [(t, w)];
    assert AllResolve(styles, a) <==> AllResolve(styles, b) by {
      assert forall i :: 0 <= i < |a| ==> a[i].0 == b[i].0;
    }
    if AllResolve(styles, a) {
      var ra := Resolved(styles, a);
      var rb := Resolved(styles, b);
      ResolvedLastOnly(styles, ts, t, v, w);
      RunsStyled(styles, ra);
      RunsStyled(styles, rb);
      LastRunOnly(ra, rb);
      LastRunBody(styles, Runs(ra), Runs(rb));
    }
  }

  lemma ResolvedLastOnly(styles: Styles, ts: seq<Pair>, t: TokenType, v: string, w: string)
    requires AllResolve(styles, ts + [(t, v)]) && AllResolve(styles, ts + [(t, w)])
    ensures var ra := Resolved(styles, ts + [(t, v)]); var rb := Resolved(styles, ts + [(t, w)]);
      |ra| == |rb| > 0 && ra[..|ra| - 1] == rb[..|rb| - 1] && ra[|ra| - 1].0 == rb[|rb| - 1].0
  {
    var a := ts + [(t, v)];
    var b := ts + [(t, w)];
    assert forall i :: 0 <= i < |ts| ==> a[i] == b[i];
  }

  /** Runs that differ only in the last one have the same body. */
  lemma LastRunBody(styles: Styles, ra: seq<Pair>, rb: seq<Pair>)
    requires AllStyled(styles, ra) && AllStyled(styles, rb)
    requires |ra| == |rb| && (|ra| > 0 ==> ra[..|ra| - 1] == rb[..|rb| - 1])
    ensures Body(styles, ra) == Body(styles, rb)
  {
  }

  /** Two streams that differ only in the text of the last token have the same runs but for the
      text of the last run. */
  lemma LastRunOnly(a: seq<Pair>, b: seq<Pair>)
    requires |a| == |b| > 0 && a[..|a| - 1] == b[..|b| - 1] && a[|a| - 1].0 == b[|b| - 1].0
    ensures var ra := Runs(a); var rb := Runs(b);
      |ra| == |rb| && ra[..|ra| - 1] == rb[..|rb| - 1]
  {
    var init := Runs(a[..|a| - 1]);
    var n := |init|;
    assert Runs(a) == AddToRuns(init, a[|a| - 1]);
    assert Runs(b) == AddToRuns(init, b[|b| - 1]);
    if n > 0 && init[n - 1].0 == a[|a| - 1].0 {
      assert Runs(a)[..n - 1] == init[..n - 1] == Runs(b)[..n - 1];
    } else {
      assert Runs(a)[..n] == init == Runs(b)[..n];
    }
  }

  /** A stream whose tokens all resolve to one type is one run, and nothing is written between
      the header and the footer. */
  lemma SingleRunWritesNothing(styles: Styles, ts: seq<Pair>, k: TokenType)
    requires forall i :: 0 <= i < |ts| ==> Resolve(styles, ts[i].0) == Some(k)
    ensures FormatSpec(styles, ts) == Ok(Header + Footer)
  {
    var rs := Resolved(styles, ts);
    OneKindOneRun(rs, k);
    RunsStyled(styles, rs);
    assert Body(styles, Runs(rs)) == "";
    assert Header + "" + Footer == Header + Footer;
  }

  /** Tokens of one type make one run, holding all their text. */
  lemma {:induction false} OneKindOneRun(ps: seq<Pair>, k: TokenType)
    requires forall i :: 0 <= i < |ps| ==> ps[i].0 == k
    ensures Runs(ps) == if |ps| == 0 then [] else [(k, Concat(Values(ps)))]
  {
    if |ps| > 0 {
      var init := ps[..|ps| - 1];
      var p := ps[|ps| - 1];
      assert forall i :: 0 <= i < |init| ==> init[i].0 == ps[i].0;
      OneKindOneRun(init, k);
      ConcatValuesSnoc(ps);
      assert p.0 == k;
      assert Runs(ps) == AddToRuns(Runs(init), p);
      if |init| == 0 {
        assert Concat(Values(init)) == "";
        assert Runs(ps) == [p];
        assert Concat(Values(ps)) == p.1;
      } else {
        assert Runs(ps) == [(k, Concat(Values(init)) + p.1)];
      }
    }
  }

  lemma ConcatValuesSnoc(ps: seq<Pair>)
    requires |ps| > 0
    ensures Concat(Values(ps)) == Concat(Values(ps[..|ps| - 1])) + ps[|ps| - 1].1
  {
    ValuesSnoc(ps);
    assert Values(ps)[..|ps| - 1] == Values(ps[..|ps| - 1]);
  }

  /** Merging splits where the type changes: when the last token of `ps` and the first of `qs`
      differ in type, the runs of `ps + qs` are the runs of `ps` followed by those of `qs`. */
  lemma {:induction false} RunsAppend(ps: seq<Pair>, qs: seq<Pair>)
    requires |ps| == 0 || |qs| == 0 || ps[|ps| - 1].0 != qs[0].0
    ensures Runs(ps + qs) == Runs(ps) + Runs(qs)
    decreases |qs|
  {
    if |qs| == 0 {
      assert ps + qs == ps;
    } else {
      var init := qs[..|qs| - 1];
      var q := qs[|qs| - 1];
      assert qs == init + [q];
      assert ps + qs == (ps + init) + [q];
      RunsSnoc(ps + init, q);
      RunsSnoc(init, q);
      if |init| == 0 {
        assert ps + init == ps;
        assert Runs(init) == [];
      } else {
        RunsAppend(ps, init);
        AddToRunsAppend(Runs(ps), Runs(init), q);
      }
    }
  }

  /** Adding a token changes only the last run, so the runs in front of it stay. */
  lemma AddToRunsAppend(xs: seq<Pair>, ys: seq<Pair>, p: Pair)
    requires |ys| > 0
    ensures AddToRuns(xs + ys, p) == xs + AddToRuns(ys, p)
  {
    var n := |ys|;
    var zs := xs + ys;
    assert zs[|zs| - 1] == ys[n - 1];
    assert zs[..|zs| - 1] == xs + ys[..n - 1];
  }

  /** Styled types resolve to themselves. */
  lemma ResolvedStyled(styles: Styles, ts: seq<Pair>)
    requires AllStyled(styles, ts)
    ensures AllResolve(styles, ts) && Resolved(styles, ts) == ts
  {
  }

  /** Resolving the types first changes nothing: the formatter only sees resolved types. */
  lemma FormatResolved(styles: Styles, ts: seq<Pair>)
    requires AllResolve(styles, ts)
    ensures FormatSpec(styles, Resolved(styles, ts)) == FormatSpec(styles, ts)
  {
    var rs := Resolved(styles, ts);
    ResolvedStyled(styles, rs);
  }

  lemma StyledAppend(styles: Styles, a: seq<Pair>, b: seq<Pair>)
    requires AllStyled(styles, a) && AllStyled(styles, b)
    ensures AllStyled(styles, a + b)
  {
    forall j | 0 <= j < |a + b| ensures (a + b)[j].0 in styles {
      if j < |a| {
        assert (a + b)[j] == a[j];
      } else {
        assert (a + b)[j] == b[j - |a|];
      }
    }
  }

  lemma {:induction false} EmittedAppend(styles: Styles, a: seq<Pair>, b: seq<Pair>)
    requires AllStyled(styles, a) && AllStyled(styles, b)
    ensures AllStyled(styles, a + b)
    ensures Emitted(styles, a + b) == Emitted(styles, a) + Emitted(styles, b)
    decreases |b|
  {
    StyledAppend(styles, a, b);
    if |b| == 0 {
      assert a + b == a;
    } else {
      var init := b[..|b| - 1];
      InitStyled(styles, b);
      var ab := a + b;
      var last := b[|b| - 1];
      EmittedAppend(styles, a, init);
      assert Emitted(styles, ab) == Emitted(styles, a + init) + EmitRun(styles, last) by {
        assert ab[..|ab| - 1] == a + init;
        assert ab[|ab| - 1] == last;
      }
      assert Emitted(styles, b) == Emitted(styles, init) + EmitRun(styles, last);
      AppendAssoc(Emitted(styles, a), Emitted(styles, init), EmitRun(styles, last));
    }
  }

  /** A run of styled tokens of one type `k`, between tokens of other types, is written in its
      place between what the tokens before it and the tokens after it give: nothing when its text
      is empty or `k` is `Math.Delimiter`, the fixed `?/\!/?` for a comment prefix, and otherwise
      its text between the strings of `k`. */
  lemma RunOutput(styles: Styles, a: seq<Pair>, m: seq<Pair>, c: seq<Pair>, k: TokenType)
    requires AllStyled(styles, a) && AllStyled(styles, c) && k in styles
    requires |m| > 0 && forall i :: 0 <= i < |m| ==> m[i].0 == k
    requires |a| > 0 ==> a[|a| - 1].0 != k
    requires |c| > 0 && c[0].0 != k
    ensures AllStyled(styles, Runs(a)) && AllStyled(styles, Runs(c))
    ensures var text := Concat(Values(m));
      var written :=
        if text == "" || k == MathDelimiter then ""
        else if k == CustomCommentPrefix then "?/\\!/?"
        else styles[k].0 + text + styles[k].1;
      FormatSpec(styles, a + m + c) == Ok(Header + (Emitted(styles, Runs(a)) + written + Body(styles, Runs(c))) + Footer)
  {
    var ts := a + m + c;
    RunsOfThree(styles, a, m, c, k);
    ResolvedStyled(styles, ts);
    RunsStyled(styles, a);
    RunsStyled(styles, c);
    BodyOfThree(styles, Runs(a), (k, Concat(Values(m))), Runs(c));
  }

  /** The runs of a one-type block between other types: the runs before, one run, the runs after. */
  lemma RunsOfThree(styles: Styles, a: seq<Pair>, m: seq<Pair>, c: seq<Pair>, k: TokenType)
    requires AllStyled(styles, a) && AllStyled(styles, c) && k in styles
    requires |m| > 0 && forall i :: 0 <= i < |m| ==> m[i].0 == k
    requires |a| > 0 ==> a[|a| - 1].0 != k
    requires |c| > 0 && c[0].0 != k
    ensures AllStyled(styles, a + m + c)
    ensures Runs(a + m + c) == Runs(a) + [(k, Concat(Values(m)))] + Runs(c)
  {
    assert AllStyled(styles, m);
    StyledAppend(styles, a, m);
    StyledAppend(styles, a + m, c);
    RunsAppend(a, m);
    assert (a + m)[|a + m| - 1] == m[|m| - 1];
    RunsAppend(a + m, c);
    OneKindOneRun(m, k);
  }

  /** The body of runs with a run `x` in the middle: everything before, `x`, then the body of the rest. */
  lemma BodyOfThree(styles: Styles, ra: seq<Pair>, x: Pair, rc: seq<Pair>)
    requires AllStyled(styles, ra) && AllStyled(styles, rc) && x.0 in styles && |rc| > 0
    ensures AllStyled(styles, ra + [x] + rc)
    ensures Body(styles, ra + [x] + rc) == Emitted(styles, ra) + EmitRun(styles, x) + Body(styles, rc)
  {
    var rcInit := rc[..|rc| - 1];
    var rs := ra + [x] + rc;
    assert AllStyled(styles, [x]);
    StyledAppend(styles, ra, [x]);
    StyledAppend(styles, ra + [x], rc);
    assert rc == rcInit + [rc[|rc| - 1]];
    assert rs == ((ra + [x]) + rcInit) + [rc[|rc| - 1]];
    assert rs[..|rs| - 1] == (ra + [x]) + rcInit;
    InitStyled(styles, rc);
    EmittedAppend(styles, ra, [x]);
    EmittedAppend(styles, ra + [x], rcInit);
    assert [x][..0] == [];
  }

  /** The text of `Math.Delimiter` tokens never reaches the output. */
  lemma DelimiterTextNotWritten(styles: Styles, a: seq<Pair>, m: seq<Pair>, m': seq<Pair>, c: seq<Pair>)
    requires AllStyled(styles, a) && AllStyled(styles, c) && MathDelimiter in styles
    requires |m| > 0 && forall i :: 0 <= i < |m| ==> m[i].0 == MathDelimiter
    requires |m'| > 0 && forall i :: 0 <= i < |m'| ==> m'[i].0 == MathDelimiter
    requires |a| > 0 ==> a[|a| - 1].0 != MathDelimiter
    requires |c| > 0 && c[0].0 != MathDelimiter
    ensures FormatSpec(styles, a + m + c) == FormatSpec(styles, a + m' + c)
  {
    RunOutput(styles, a, m, c, MathDelimiter);
    RunOutput(styles, a, m', c, MathDelimiter);
  }

  /** A comment prefix with any text is written as the same `?/\!/?`. */
  lemma CommentPrefixTextNotWritten(styles: Styles, a: seq<Pair>, m: seq<Pair>, m': seq<Pair>, c: seq<Pair>)
    requires AllStyled(styles, a) && AllStyled(styles, c) && CustomCommentPrefix in styles
    requires |m| > 0 && forall i :: 0 <= i < |m| ==> m[i].0 == CustomCommentPrefix
    requires |m'| > 0 && forall i :: 0 <= i < |m'| ==> m'[i].0 == CustomCommentPrefix
    requires Concat(Values(m)) != "" && Concat(Values(m')) != ""
    requires |a| > 0 ==> a[|a| - 1].0 != CustomCommentPrefix
    requires |c| > 0 && c[0].0 != CustomCommentPrefix
    ensures FormatSpec(styles, a + m + c) == FormatSpec(styles, a + m' + c)
  {
    RunOutput(styles, a, m, c, CustomCommentPrefix);
    RunOutput(styles, a, m', c, CustomCommentPrefix);
  }
}
