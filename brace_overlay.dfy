/** The brace post-processor of Pseudocode.py (`format_pseudocode`): it reads the located
    offset directive and brace entries, cuts them off the pseudocode, renders the rest, and when
    braces are used marks the referenced lines with `\tikzmark` and appends a TikZ picture that
    draws one brace per entry. */
module BraceOverlay {
  import opened Wrappers
  import opened Texts

  /** The trailing offset directive `>{shift}{x1, x2, ...}` once located: the index of its `>`,
      the shift text and the comma-separated increment pieces. */
  datatype Directive = Directive(gt: nat, shift: string, pieces: seq<string>)

  /** A brace entry `:{level}{start:end}label` once located: the index of its `:` and its four
      groups, the numbers read by `int`. */
  datatype Brace = Brace(colon: nat, level: nat, start: nat, stop: nat, caption: string)

  datatype BraceError =
    | BadNumber     // `float` rejects an increment piece
    | NoOffsets     // brace entries but no offsets
    | DigitInName   // the file name contains a digit
    | LineOutOfRange  // `formatted_lines[k]` past the last line

  const BraceThickness: string := "1.25"

  // ---------------------------------------------------------------------------------------
  // The offset table.

  function Sum(xs: seq<real>): real
  {
    if |xs| == 0 then 0.0 else Sum(xs[..|xs| - 1]) + xs[|xs| - 1]
  }

  /** `level_offsets`: entry `k - 1` is the offset of level `k`, the sum of the first `k`
      increments. */
  function PrefixSums(xs: seq<real>): (r: seq<real>)
    ensures |r| == |xs|
  {
    seq(|xs|, k requires 0 <= k < |xs| => Sum(xs[..k + 1]))
  }

  lemma PrefixSumsSnoc(xs: seq<real>, x: real)
    ensures PrefixSums(xs + [x]) == PrefixSums(xs) + [Sum(xs) + x]
  {
    var ys := xs + [x];
    var l := PrefixSums(ys);
    var r := PrefixSums(xs) + [Sum(xs) + x];
    forall k | 0 <= k < |ys| ensures l[k] == r[k] {
      if k < |xs| {
        assert ys[..k + 1] == xs[..k + 1];
      } else {
        assert ys[..k + 1] == ys;
        assert ys[..|ys| - 1] == xs;
      }
    }
    assert l == r;
  }

  predicate AllParse(pieces: seq<string>, parse: string -> Option<real>)
  {
    forall i :: 0 <= i < |pieces| ==> parse(pieces[i]).Some?
  }

  function Parsed(pieces: seq<string>, parse: string -> Option<real>): (r: seq<real>)
    requires AllParse(pieces, parse)
    ensures |r| == |pieces| && forall i :: 0 <= i < |pieces| ==> Some(r[i]) == parse(pieces[i])
  {
    seq(|pieces|, i requires 0 <= i < |pieces| && AllParse(pieces, parse) => parse(pieces[i]).value)
  }

  /** The offset table of a directive, or the error `float` raises on a piece it rejects. */
  function Offsets(pieces: seq<string>, parse: string -> Option<real>): Result<seq<real>, BraceError>
  {
    if AllParse(pieces, parse) then Ok(PrefixSums(Parsed(pieces, parse))) else Err(BadNumber)
  }

  /** The loop that fills `level_offsets` with a running `cumulative_offset`. */
  method CumulativeOffsets(pieces: seq<string>, parse: string -> Option<real>) returns (r: Result<seq<real>, BraceError>)
    ensures r == Offsets(pieces, parse)
  {
    var offsets: seq<real> := [];
    var cumulative := 0.0;
    var i := 0;
    while i < |pieces|
      invariant 0 <= i <= |pieces|
      invariant AllParse(pieces[..i], parse)
      invariant offsets == PrefixSums(Parsed(pieces[..i], parse))
      invariant cumulative == Sum(Parsed(pieces[..i], parse))
    {
      var x := parse(pieces[i]);
      if x.None? {
        return Err(BadNumber);
      }
      ghost var before := Parsed(pieces[..i], parse);
      assert AllParse(pieces[..i + 1], parse) by {
        assert forall j :: 0 <= j < i ==> pieces[..i + 1][j] == pieces[..i][j];
      }
      assert Parsed(pieces[..i + 1], parse) == before + [x.value] by {
        assert forall j :: 0 <= j < i ==> pieces[..i + 1][j] == pieces[..i][j];
      }
      assert PrefixSums(before + [x.value]) == offsets + [x.value + cumulative] by {
        PrefixSumsSnoc(before, x.value);
      }
      assert Sum(before + [x.value]) == cumulative + x.value by {
        assert (before + [x.value])[..|before|] == before;
      }
      offsets := offsets + [x.value + cumulative];
      cumulative := cumulative + x.value;
      i := i + 1;
    }
    assert pieces[..i] == pieces;
    return Ok(offsets);
  }

  /** The horizontal offset of a brace at `level`: none at level 0, the table entry when there is
      one, and past the table the sum of all entries plus the last entry once per missing level. */
  function LevelOffset(offsets: seq<real>, level: nat): real
    requires |offsets| > 0
  {
    if level == 0 then 0.0
    else if level <= |offsets| then offsets[level - 1]
    else Sum(offsets) + (level - |offsets|) as real * offsets[|offsets| - 1]
  }

  /** Within the table, a level's offset is the sum of its increments. */
  lemma LevelOffsetInTable(xs: seq<real>, level: nat)
    requires 1 <= level <= |xs|
    ensures LevelOffset(PrefixSums(xs), level) == Sum(xs[..level])
  {
  }

  /** With a single increment every level is that many increments away. */
  lemma LevelOffsetOneIncrement(x: real, level: nat)
    ensures LevelOffset(PrefixSums([x]), level) == level as real * x
  {
    var t := PrefixSums([x]);
    assert Sum([x]) == x by {
      assert [x][..0] == [];
    }
    assert [x][..1] == [x];
    assert t[0] == x;
    assert t == [x];
  }

  /** A single increment 2.0 puts level 3 at 6.0; increments 1.0, 1.0 put level 3 at
      (1.0 + 2.0) + 2.0 = 5.0, not at the 3.0 that repeating the last increment would give. */
  lemma LevelOffsetExamples()
    ensures LevelOffset(PrefixSums([2.0]), 3) == 6.0
    ensures LevelOffset(PrefixSums([1.0, 1.0]), 3) == 5.0
  {
    LevelOffsetOneIncrement(2.0, 3);
    var xs := [1.0, 1.0];
    assert xs[..1] == [1.0] && xs[..2] == xs;
    assert Sum([1.0]) == 1.0 by {
      assert [1.0][..0] == [];
    }
    assert Sum(xs) == 2.0;
    var t := PrefixSums(xs);
    assert t == [1.0, 2.0];
    assert t[..1] == [1.0];
    assert Sum([1.0, 2.0]) == 3.0;
  }

  predicate NonNegative(xs: seq<real>)
  {
    forall i :: 0 <= i < |xs| ==> xs[i] >= 0.0
  }

  lemma {:induction false} SumPrefixMonotone(xs: seq<real>, i: nat, j: nat)
    requires NonNegative(xs) && i <= j <= |xs|
    ensures Sum(xs[..i]) <= Sum(xs[..j])
    decreases j
  {
    if i < j {
      SumPrefixMonotone(xs, i, j - 1);
      assert xs[..j][..j - 1] == xs[..j - 1];
    }
  }

  lemma {:induction false} SumNonNegative(xs: seq<real>)
    requires NonNegative(xs)
    ensures Sum(xs) >= 0.0
  {
    if |xs| > 0 {
      SumNonNegative(xs[..|xs| - 1]);
    }
  }

  lemma PrefixSumsNonNegative(xs: seq<real>)
    requires NonNegative(xs)
    ensures NonNegative(PrefixSums(xs))
  {
    var t := PrefixSums(xs);
    forall k | 0 <= k < |xs| ensures t[k] >= 0.0 {
      assert NonNegative(xs[..k + 1]) by {
        assert forall m :: 0 <= m < k + 1 ==> xs[..k + 1][m] == xs[m];
      }
      SumNonNegative(xs[..k + 1]);
    }
  }

  lemma MulMonotone(p: nat, q: nat, c: real)
    requires p <= q && c >= 0.0
    ensures p as real * c <= q as real * c
  {
  }

  /** Past the table, offsets grow with the level when the last entry is non-negative. */
  lemma BeyondMonotone(t: seq<real>, a: nat, b: nat)
    requires 0 < |t| < a <= b && t[|t| - 1] >= 0.0
    ensures LevelOffset(t, a) <= LevelOffset(t, b)
  {
    MulMonotone(a - |t|, b - |t|, t[|t| - 1]);
  }

  /** From the last table entry to a level past the table, the offset does not shrink. */
  lemma StraddleMonotone(t: seq<real>, b: nat)
    requires 0 < |t| < b && t[|t| - 1] >= 0.0 && Sum(t) >= 0.0
    ensures t[|t| - 1] <= LevelOffset(t, b)
  {
    var c := t[|t| - 1];
    var k := (b - |t|) as real;
    MulMonotone(1, b - |t|, c);
    assert 1 as real * c == c;
    assert c <= k * c;
    assert LevelOffset(t, b) == Sum(t) + k * c;
  }

  /** Inside the table, offsets grow with the level. */
  lemma TableMonotone(xs: seq<real>, a: nat, b: nat)
    requires 0 < |xs| && NonNegative(xs) && a <= b <= |xs|
    ensures LevelOffset(PrefixSums(xs), a) <= LevelOffset(PrefixSums(xs), b)
  {
    var t := PrefixSums(xs);
    PrefixSumsNonNegative(xs);
    if a == 0 {
      if b > 0 {
        assert t[b - 1] >= 0.0;
      }
    } else {
      SumPrefixMonotone(xs, a, b);
    }
  }

  /** With non-negative increments deeper braces never sit further left. */
  lemma LevelOffsetMonotone(xs: seq<real>, a: nat, b: nat)
    requires |xs| > 0 && NonNegative(xs) && a <= b
    ensures LevelOffset(PrefixSums(xs), a) <= LevelOffset(PrefixSums(xs), b)
  {
    var t := PrefixSums(xs);
    var n := |xs|;
    if b <= n {
      TableMonotone(xs, a, b);
    } else {
      PrefixSumsNonNegative(xs);
      assert t[n - 1] >= 0.0;
      if a <= n {
        TableMonotone(xs, a, n);
        SumNonNegative(t);
        StraddleMonotone(t, b);
      } else {
        BeyondMonotone(t, a, b);
      }
    }
  }

  /** The offset as it is written into the picture: the integer `0` at level 0, else the
      rendering of the float. */
  function OffsetText(offsets: seq<real>, level: nat, show: real -> string): string
    requires |offsets| > 0
  {
    if level == 0 then "0" else show(LevelOffset(offsets, level))
  }

  // ---------------------------------------------------------------------------------------
  // The file name.

  predicate HasDigit(s: string)
  {
    exists i :: 0 <= i < |s| && IsDigit(s[i])
  }

  /** The file name with every character outside `[a-zA-Z]` removed. */
  function Letters(s: string): (r: string)
    ensures |r| <= |s|
    ensures forall i :: 0 <= i < |r| ==> IsLetter(r[i])
    ensures |s| == 1 ==> r == (if IsLetter(s[0]) then s else "")
  {
    if |s| == 0 then ""
    else Letters(s[..|s| - 1]) + (if IsLetter(s[|s| - 1]) then [s[|s| - 1]] else "")
  }

  /** Stripping works character by character: the letters of a joined name are the letters of
      each part, in order. With the one-character case of `Letters`, this fixes its result on
      every name. */
  lemma {:induction false} LettersAppend(a: string, b: string)
    ensures Letters(a + b) == Letters(a) + Letters(b)
    decreases |b|
  {
    if |b| == 0 {
      assert a + b == a;
    } else {
      var init := b[..|b| - 1];
      var c := b[|b| - 1];
      var tail := if IsLetter(c) then [c] else "";
      assert (a + b)[..|a + b| - 1] == a + init;
      assert (a + b)[|a + b| - 1] == c;
      LettersAppend(a, init);
      assert Letters(a + b) == Letters(a) + Letters(init) + tail;
    }
  }

  predicate AllLetters(s: string)
  {
    forall i :: 0 <= i < |s| ==> IsLetter(s[i])
  }

  /** Removing non-letters changes a name exactly when it has a non-letter. */
  lemma {:induction false} LettersFixed(s: string)
    ensures Letters(s) == s <==> AllLetters(s)
  {
    if |s| > 0 {
      var init := s[..|s| - 1];
      var c := s[|s| - 1];
      assert s == init + [c];
      LettersFixed(init);
      if IsLetter(c) {
        assert Letters(s) == Letters(init) + [c];
        assert Letters(s) == s <==> Letters(init) == init by {
          if Letters(s) == s {
            assert Letters(s)[..|init|] == Letters(init);
          }
        }
        assert AllLetters(s) <==> AllLetters(init) by {
          if AllLetters(init) {
            forall i | 0 <= i < |s| ensures IsLetter(s[i]) {
              if i < |init| {
                assert s[i] == init[i];
              }
            }
          }
          if AllLetters(s) {
            forall i | 0 <= i < |init| ensures IsLetter(init[i]) {
              assert init[i] == s[i];
            }
          }
        }
      } else {
        assert Letters(s) == Letters(init);
        assert !IsLetter(s[|s| - 1]);
      }
    }
  }

  /** Sanitising twice is sanitising once. */
  lemma LettersIdempotent(s: string)
    ensures Letters(Letters(s)) == Letters(s)
  {
    LettersFixed(Letters(s));
  }

  /** The name used in markers: an error when the file name has a digit. */
  function SanitizeName(s: string): (r: Result<string, BraceError>)
    ensures r.Err? <==> HasDigit(s)
    ensures r.Ok? ==> r.value == Letters(s)
  {
    if HasDigit(s) then Err(DigitInName) else Ok(Letters(s))
  }

  // ---------------------------------------------------------------------------------------
  // Markers.

  /** The marker of line `k`. */
  function Marker(name: string, k: nat): string
  {
    name + "L" + NatToString(k)
  }

  /** Different lines have different markers, so a line is never marked twice. */
  lemma MarkerInjective(name: string, a: nat, b: nat)
    ensures Marker(name, a) == Marker(name, b) ==> a == b
  {
    if Marker(name, a) == Marker(name, b) {
      var p := |name| + 1;
      assert NatToString(a) == Marker(name, a)[p..];
      assert NatToString(b) == Marker(name, b)[p..];
      NatToStringInjective(a, b);
    }
  }

  /** The named mark on lines 1 and 2 and the plain mark of a brace entry. */
  function NamedMark(m: string): string { "?\\tikzmark[" + m + "]{" + m + "}?" }
  function PlainMark(m: string): string { "?\\tikzmark{" + m + "}?" }

  /** Line `k` is the first or last line of some entry. */
  predicate Refers(es: seq<Brace>, k: nat)
  {
    exists i :: 0 <= i < |es| && (es[i].start == k || es[i].stop == k)
  }

  predicate InRange(es: seq<Brace>, n: nat)
  {
    forall i :: 0 <= i < |es| ==> es[i].start < n && es[i].stop < n
  }

  /** What ends up appended to line `k`: the named mark on lines 1 and 2, one plain mark on
      every other referenced line, nothing elsewhere. */
  function Suffix(name: string, es: seq<Brace>, k: nat): string
  {
    if k == 1 || k == 2 then NamedMark(Marker(name, k))
    else if Refers(es, k) then PlainMark(Marker(name, k))
    else ""
  }

  function Marked(lines: seq<string>, name: string, es: seq<Brace>): (r: seq<string>)
    ensures |r| == |lines|
    ensures forall k :: 0 <= k < |lines| ==> r[k] == lines[k] + Suffix(name, es, k)
  {
    seq(|lines|, k requires 0 <= k < |lines| => lines[k] + Suffix(name, es, k))
  }

  // ---------------------------------------------------------------------------------------
  // The picture.

  /** The start of the picture: the base x coordinate, the points A and B level with lines 1
      and 2, and the line distance D. */
  function Prelude(name: string, shift: string): string
  {
    var m1 := Marker(name, 1);
    var m2 := Marker(name, 2);
    "\\begin{tikzpicture}[remember picture,overlay]\n"
    + "\\coordinate (" + name + "BASEX) at (" + shift + ", 0);\n"
    + "\\draw ({pic cs:" + m1 + "}-|" + name + "BASEX) coordinate (" + name + "A);\n"
    + "\\draw ({pic cs:" + m2 + "}-|" + name + "BASEX) coordinate (" + name + "B);\n"
    + "\\tikzmath{coordinate \\" + name + "DVEC;\n"
    + "    \\" + name + "DVEC = (" + name + "A)-(" + name + "B);\n"
    + "    \\" + name + "D = (\\" + name + "DVECy);\n"
    + "    \\" + name + "D = \\convertto{cm}{\\" + name + "D pt};\n"
    + "}\n"
  }

  /** The vertical part of a brace: down `start - 1` line distances from A, then a brace
      spanning `stop - start + 1` line distances. */
  function Span(name: string, start: nat, stop: nat): string
  {
    "++ (0, {-" + IntToString(start - 1) + "*\\" + name + "D}) --++ (0, {-" + IntToString(stop - start + 1) + "*\\" + name + "D})"
  }

  function Draw(name: string, offset: string, e: Brace): string
  {
    "\\draw (" + name + "A) ++ (" + offset + ", {0.75cm*\\" + name + "D}) "
    + "[decorate, decoration = {calligraphic brace, amplitude=5pt}, line width=" + BraceThickness + "pt]\n"
    + Span(name, e.start, e.stop)
    + " node [black,midway,xshift=0.2cm,anchor=west] {" + e.caption + "}"
  }

  /** One draw command per entry, in entry order. */
  function Draws(name: string, offsets: seq<real>, show: real -> string, es: seq<Brace>): string
    requires |offsets| > 0
  {
    if |es| == 0 then ""
    else
      var e := es[|es| - 1];
      Draws(name, offsets, show, es[..|es| - 1]) + Draw(name, OffsetText(offsets, e.level, show), e) + ";\n"
  }

  /** The marked lines and the picture, or the `IndexError` of a line past the end. */
  function Overlay(lines: seq<string>, name: string, shift: string, offsets: seq<real>,
                   show: real -> string, es: seq<Brace>): Result<(seq<string>, string), BraceError>
    requires |offsets| > 0
  {
    if |lines| < 3 || !InRange(es, |lines|) then Err(LineOutOfRange)
    else Ok((Marked(lines, name, es), Prelude(name, shift) + Draws(name, offsets, show, es) + "\\end{tikzpicture}"))
  }

  lemma DrawsSnoc(name: string, offsets: seq<real>, show: real -> string, es: seq<Brace>, e: Brace)
    requires |offsets| > 0
    ensures Draws(name, offsets, show, es + [e])
         == Draws(name, offsets, show, es) + (Draw(name, OffsetText(offsets, e.level, show), e) + ";\n")
  {
    assert (es + [e])[..|es|] == es;
    AppendAssoc(Draws(name, offsets, show, es), Draw(name, OffsetText(offsets, e.level, show), e), ";\n");
  }

  /** Appending the draw command of one more entry to a picture that ends in the draws so far. */
  lemma PictureStep(p: string, name: string, offsets: seq<real>, show: real -> string,
                    es: seq<Brace>, e: Brace, tikz: string)
    requires |offsets| > 0 && tikz == p + Draws(name, offsets, show, es)
    ensures tikz + (Draw(name, OffsetText(offsets, e.level, show), e) + ";\n") == p + Draws(name, offsets, show, es + [e])
  {
    DrawsSnoc(name, offsets, show, es, e);
    AppendAssoc(p, Draws(name, offsets, show, es), Draw(name, OffsetText(offsets, e.level, show), e) + ";\n");
  }

  lemma RefersSnoc(es: seq<Brace>, e: Brace, k: nat)
    ensures Refers(es + [e], k) <==> Refers(es, k) || e.start == k || e.stop == k
  {
    var es2 := es + [e];
    if Refers(es, k) {
      var i :| 0 <= i < |es| && (es[i].start == k || es[i].stop == k);
      assert es2[i] == es[i];
    }
    if e.start == k || e.stop == k {
      assert es2[|es|] == e;
    }
    if Refers(es2, k) {
      var i :| 0 <= i < |es2| && (es2[i].start == k || es2[i].stop == k);
      if i < |es| {
        assert es2[i] == es[i];
      }
    }
  }

  lemma RefersInRange(es: seq<Brace>, n: nat, k: nat)
    requires InRange(es, n) && Refers(es, k)
    ensures k < n
  {
  }

  /** The state of the entry loop once the entries `done` are handled: their marks and
      markers, and the picture `prelude` followed by their draw commands. */
  ghost predicate LoopState(lines: seq<string>, name: string, prelude: string, offsets: seq<real>,
                            show: real -> string, done: seq<Brace>,
                            out: seq<string>, markers: set<string>, tikz: string)
    requires |offsets| > 0
  {
    && |out| == |lines|
    && InRange(done, |lines|)
    && (forall k :: 0 <= k < |lines| ==> out[k] == lines[k] + Suffix(name, done, k))
    && (forall k: nat :: Marker(name, k) in markers <==> k == 1 || k == 2 || Refers(done, k))
    && tikz == prelude + Draws(name, offsets, show, done)
  }

  /** Marking line `k` when its marker is new keeps the marks in step with the entries. */
  lemma MarkStep(lines: seq<string>, name: string, es: seq<Brace>, done: seq<Brace>, out: seq<string>,
                 markers: set<string>, k: nat)
    requires |out| == |lines| && k < |lines|
    requires forall j :: 0 <= j < |lines| ==> out[j] == lines[j] + Suffix(name, done, j)
    requires forall j: nat :: Marker(name, j) in markers <==> j == 1 || j == 2 || Refers(done, j)
    requires Marker(name, k) !in markers
    requires forall j: nat :: Refers(es, j) <==> Refers(done, j) || j == k
    ensures var out2 := out[k := out[k] + PlainMark(Marker(name, k))];
      && (forall j :: 0 <= j < |lines| ==> out2[j] == lines[j] + Suffix(name, es, j))
      && (forall j: nat :: Marker(name, j) in markers + {Marker(name, k)} <==> j == 1 || j == 2 || Refers(es, j))
  {
    forall j: nat ensures Marker(name, j) in markers + {Marker(name, k)} <==> j == 1 || j == 2 || Refers(es, j) {
      MarkerInjective(name, j, k);
    }
    forall j | 0 <= j < |lines| ensures out[k := out[k] + PlainMark(Marker(name, k))][j] == lines[j] + Suffix(name, es, j) {
      if j != k {
        assert Suffix(name, es, j) == Suffix(name, done, j);
      }
    }
  }

  /** Marking a line whose marker is already known changes nothing. */
  lemma KnownStep(lines: seq<string>, name: string, es: seq<Brace>, done: seq<Brace>, out: seq<string>,
                  markers: set<string>)
    requires |out| == |lines|
    requires forall j :: 0 <= j < |lines| ==> out[j] == lines[j] + Suffix(name, done, j)
    requires forall j: nat :: Marker(name, j) in markers <==> j == 1 || j == 2 || Refers(done, j)
    requires forall j: nat :: (j == 1 || j == 2 || Refers(es, j)) <==> (j == 1 || j == 2 || Refers(done, j))
    ensures forall j :: 0 <= j < |lines| ==> out[j] == lines[j] + Suffix(name, es, j)
    ensures forall j: nat :: Marker(name, j) in markers <==> j == 1 || j == 2 || Refers(es, j)
  {
    forall j | 0 <= j < |lines| ensures out[j] == lines[j] + Suffix(name, es, j) {
      assert Suffix(name, es, j) == Suffix(name, done, j);
    }
  }

  /** Marks the line of `marker` unless it is already marked: the step Python takes for each end of
      an entry. */
  method MarkLine(lines: seq<string>, name: string, ghost done: seq<Brace>, ghost es: seq<Brace>,
                  out: seq<string>, markers: set<string>, k: nat)
    returns (r: Option<(seq<string>, set<string>)>)
    requires |out| == |lines|
    requires forall j :: 0 <= j < |lines| ==> out[j] == lines[j] + Suffix(name, done, j)
    requires forall j: nat :: Marker(name, j) in markers <==> j == 1 || j == 2 || Refers(done, j)
    requires forall j: nat :: Refers(es, j) <==> Refers(done, j) || j == k
    ensures r.None? <==> Marker(name, k) !in markers && k >= |lines|
    ensures r.Some? ==> |r.value.0| == |lines|
    ensures r.Some? ==> forall j :: 0 <= j < |lines| ==> r.value.0[j] == lines[j] + Suffix(name, es, j)
    ensures r.Some? ==> forall j: nat :: Marker(name, j) in r.value.1 <==> j == 1 || j == 2 || Refers(es, j)
  {
    var marker := Marker(name, k);
    if marker !in markers {
      if k >= |out| {
        return None;
      }
      MarkStep(lines, name, es, done, out, markers, k);
      return Some((out[k := out[k] + PlainMark(marker)], markers + {marker}));
    }
    assert k == 1 || k == 2 || Refers(done, k);
    KnownStep(lines, name, es, done, out, markers);
    return Some((out, markers));
  }

  /** Marks both ends of one entry, the start first; `None` when an end that has no marker yet
      lies past the last line, which is where Python raises its `IndexError`. */
  method MarkEntry(lines: seq<string>, name: string, ghost done: seq<Brace>,
                   out: seq<string>, markers: set<string>, e: Brace)
    returns (r: Option<(seq<string>, set<string>)>)
    requires 3 <= |lines| && |out| == |lines| && InRange(done, |lines|)
    requires forall j :: 0 <= j < |lines| ==> out[j] == lines[j] + Suffix(name, done, j)
    requires forall j: nat :: Marker(name, j) in markers <==> j == 1 || j == 2 || Refers(done, j)
    ensures r.None? <==> !(e.start < |lines| && e.stop < |lines|)
    ensures r.Some? ==> |r.value.0| == |lines|
    ensures r.Some? ==> forall j :: 0 <= j < |lines| ==> r.value.0[j] == lines[j] + Suffix(name, done + [e], j)
    ensures r.Some? ==> forall j: nat :: Marker(name, j) in r.value.1 <==> j == 1 || j == 2 || Refers(done + [e], j)
  {
    ghost var es := done + [e];
    forall j: nat ensures Refers(es, j) <==> Refers(done, j) || j == e.start || j == e.stop {
      RefersSnoc(done, e, j);
    }
    if e.start != e.stop {
      ghost var half := done + [Brace(e.colon, e.level, e.start, e.start, e.caption)];
      forall j: nat ensures Refers(half, j) <==> Refers(done, j) || j == e.start {
        RefersSnoc(done, Brace(e.colon, e.level, e.start, e.start, e.caption), j);
      }
      var first := MarkLine(lines, name, done, half, out, markers, e.start);
      if first.None? {
        return None;
      }
      EntryInRange(lines, name, done, markers, 1, e.start);
      var second := MarkLine(lines, name, half, es, first.value.0, first.value.1, e.stop);
      if second.None? {
        return None;
      }
      EntryInRange(lines, name, done, first.value.1, e.start, e.stop);
      return second;
    }
    var only := MarkLine(lines, name, done, es, out, markers, e.start);
    if only.Some? {
      EntryInRange(lines, name, done, markers, 1, e.start);
    }
    return only;
  }

  lemma InRangeSnoc(es: seq<Brace>, e: Brace, n: nat)
    ensures InRange(es + [e], n) <==> InRange(es, n) && e.start < n && e.stop < n
  {
    var es2 := es + [e];
    if InRange(es, n) && e.start < n && e.stop < n {
      forall i | 0 <= i < |es2| ensures es2[i].start < n && es2[i].stop < n {
        if i < |es| {
          assert es2[i] == es[i];
        }
      }
    }
    if InRange(es2, n) {
      forall i | 0 <= i < |es| ensures es[i].start < n && es[i].stop < n {
        assert es2[i] == es[i];
      }
      assert es2[|es|] == e;
    }
  }

  /** Before the first entry only lines 1 and 2 are marked and the picture is its prelude. */
  lemma LoopStart(lines: seq<string>, name: string, prelude: string, offsets: seq<real>,
                  show: real -> string)
    requires 3 <= |lines| && |offsets| > 0
    ensures LoopState(lines, name, prelude, offsets, show, [],
                      lines[1 := lines[1] + NamedMark(Marker(name, 1))][2 := lines[2] + NamedMark(Marker(name, 2))],
                      {Marker(name, 1), Marker(name, 2)}, prelude)
  {
    var out := lines[1 := lines[1] + NamedMark(Marker(name, 1))][2 := lines[2] + NamedMark(Marker(name, 2))];
    forall k: nat ensures Marker(name, k) in {Marker(name, 1), Marker(name, 2)} <==> k == 1 || k == 2 || Refers([], k) {
      MarkerInjective(name, k, 1);
      MarkerInjective(name, k, 2);
    }
    forall k | 0 <= k < |lines| ensures out[k] == lines[k] + Suffix(name, [], k) {
    }
  }

  /** One entry further: its marks are in and its draw command is appended. */
  lemma LoopStep(lines: seq<string>, name: string, prelude: string, offsets: seq<real>,
                 show: real -> string, done: seq<Brace>, e: Brace,
                 out: seq<string>, markers: set<string>, tikz: string, out2: seq<string>, markers2: set<string>)
    requires |offsets| > 0
    requires LoopState(lines, name, prelude, offsets, show, done, out, markers, tikz)
    requires e.start < |lines| && e.stop < |lines| && |out2| == |lines|
    requires forall j :: 0 <= j < |lines| ==> out2[j] == lines[j] + Suffix(name, done + [e], j)
    requires forall j: nat :: Marker(name, j) in markers2 <==> j == 1 || j == 2 || Refers(done + [e], j)
    ensures LoopState(lines, name, prelude, offsets, show, done + [e], out2, markers2,
                      tikz + (Draw(name, OffsetText(offsets, e.level, show), e) + ";\n"))
  {
    InRangeSnoc(done, e, |lines|);
    PictureStep(prelude, name, offsets, show, done, e, tikz);
  }

  /** After the last entry the lines carry every mark and closing the picture gives the overlay. */
  lemma LoopEnd(lines: seq<string>, name: string, shift: string, offsets: seq<real>,
                show: real -> string, es: seq<Brace>, out: seq<string>, markers: set<string>, tikz: string)
    requires 3 <= |lines| && |offsets| > 0
    requires LoopState(lines, name, Prelude(name, shift), offsets, show, es, out, markers, tikz)
    ensures Overlay(lines, name, shift, offsets, show, es) == Ok((out, tikz + "\\end{tikzpicture}"))
  {
    MarkedIs(lines, name, es, out);
  }

  lemma MarkedIs(lines: seq<string>, name: string, es: seq<Brace>, out: seq<string>)
    requires |out| == |lines|
    requires forall k :: 0 <= k < |lines| ==> out[k] == lines[k] + Suffix(name, es, k)
    ensures out == Marked(lines, name, es)
  {
  }

  /** One pass of the entry loop: mark both ends of `e` and append its draw command. */
  method AddEntry(lines: seq<string>, name: string, ghost prelude: string, offsets: seq<real>,
                  show: real -> string, ghost done: seq<Brace>,
                  out: seq<string>, markers: set<string>, tikz: string, e: Brace)
    returns (r: Option<(seq<string>, set<string>, string)>)
    requires 3 <= |lines| && |offsets| > 0
    requires LoopState(lines, name, prelude, offsets, show, done, out, markers, tikz)
    ensures r.None? <==> !(e.start < |lines| && e.stop < |lines|)
    ensures r.Some? ==> LoopState(lines, name, prelude, offsets, show, done + [e], r.value.0, r.value.1, r.value.2)
  {
    var levelOffset := OffsetText(offsets, e.level, show);
    var marked := MarkEntry(lines, name, done, out, markers, e);
    if marked.None? {
      return None;
    }
    LoopStep(lines, name, prelude, offsets, show, done, e, out, markers, tikz, marked.value.0, marked.value.1);
    return Some((marked.value.0, marked.value.1, tikz + (Draw(name, levelOffset, e) + ";\n")));
  }

  /** Marks lines 1 and 2 with their named marks and opens the picture with its prelude. */
  method StartOverlay(lines: seq<string>, name: string, shift: string, offsets: seq<real>, show: real -> string)
    returns (out: seq<string>, markers: set<string>, tikz: string)
    requires 3 <= |lines| && |offsets| > 0
    ensures LoopState(lines, name, Prelude(name, shift), offsets, show, [], out, markers, tikz)
  {
    out := lines;
    var marker1 := Marker(name, 1);
    var marker2 := Marker(name, 2);
    out := out[1 := out[1] + NamedMark(marker1)];
    out := out[2 := out[2] + NamedMark(marker2)];
    markers := {marker1, marker2};
    tikz := Prelude(name, shift);
    LoopStart(lines, name, tikz, offsets, show);
  }

  /** The lines 1 and 2 markers, the picture prelude and the entry loop of `format_pseudocode`. */
  method AddBraces(lines: seq<string>, name: string, shift: string, offsets: seq<real>,
                   show: real -> string, es: seq<Brace>) returns (r: Result<(seq<string>, string), BraceError>)
    requires |offsets| > 0
    ensures r == Overlay(lines, name, shift, offsets, show, es)
  {
    if |lines| < 3 {
      return Err(LineOutOfRange);
    }
    ghost var prelude := Prelude(name, shift);
    var out, markers, tikzpicture := StartOverlay(lines, name, shift, offsets, show);
    TakeNone(es);
    var i := 0;
    while i < |es|
      invariant 0 <= i <= |es|
      invariant LoopState(lines, name, prelude, offsets, show, es[..i], out, markers, tikzpicture)
    {
      var next := AddEntry(lines, name, prelude, offsets, show, es[..i], out, markers, tikzpicture, es[i]);
      if next.None? {
        NotInRange(lines, es, i);
        return Err(LineOutOfRange);
      }
      TakeSnoc(es, i);
      out, markers, tikzpicture := next.value.0, next.value.1, next.value.2;
      i := i + 1;
    }
    TakeAll(es);
    LoopEnd(lines, name, shift, offsets, show, es, out, markers, tikzpicture);
    tikzpicture := tikzpicture + "\\end{tikzpicture}";
    return Ok((out, tikzpicture));
  }

  /** An entry with an end past the last line makes the whole overlay fail. */
  lemma NotInRange(lines: seq<string>, es: seq<Brace>, i: nat)
    requires i < |es| && !(es[i].start < |lines| && es[i].stop < |lines|)
    ensures !InRange(es, |lines|)
  {
  }

  /** An end of an entry that was either marked before or lies within the lines is within the
      lines. */
  lemma EntryInRange(lines: seq<string>, name: string, done: seq<Brace>, markers: set<string>, x: nat, k: nat)
    requires 3 <= |lines| && x < |lines|
    requires InRange(done, |lines|)
    requires forall j: nat :: Marker(name, j) in markers <==> j == 1 || j == 2 || Refers(done, j) || j == x
    requires Marker(name, k) in markers || k < |lines|
    ensures k < |lines|
  {
    if Marker(name, k) in markers && k != 1 && k != 2 && k != x {
      RefersInRange(done, |lines|, k);
    }
  }

  // ---------------------------------------------------------------------------------------
  // The whole post-processor.

  /** Python's `s[:cut]`. */
  function Cut(s: string, cut: nat): (r: string)
    ensures |r| <= |s| && r == s[..|r|]
    ensures |r| == if cut <= |s| then cut else |s|
  {
    if cut <= |s| then s[..cut] else s
  }

  /** What `format_pseudocode` returns, with `highlight` rendering text through the formatter,
      `parse` Python's `float` on an increment piece and `show` Python's `str` on a float. */
  function FormatPseudocodeSpec(pseudocode: string, filename: string, directive: Option<Directive>,
                                braces: seq<Brace>, parse: string -> Option<real>, show: real -> string,
                                highlight: string -> string): Result<string, BraceError>
  {
    var offsets := if directive.Some? then Offsets(directive.value.pieces, parse) else Ok([]);
    if offsets.Err? then Err(offsets.error)
    else
      var text := if directive.Some? then Cut(pseudocode, directive.value.gt) else pseudocode;
      var shift := if directive.Some? then directive.value.shift else "0.0";
      var useBrace := |braces| > 0;
      if useBrace && |offsets.value| == 0 then Err(NoOffsets)
      else
        var text2 := if useBrace then Cut(text, braces[0].colon) else text;
        var name := SanitizeName(filename);
        if name.Err? then Err(name.error)
        else
          var lines := SplitLines(highlight(text2));
          if !useBrace then Ok(JoinLines(lines))
          else
            var overlay := Overlay(lines, name.value, shift, offsets.value, show, braces);
            if overlay.Err? then Err(overlay.error)
            else Ok(JoinLines(overlay.value.0) + "\n" + overlay.value.1)
  }

  /** `format_pseudocode` without its DEBUG dump. */
  method FormatPseudocode(pseudocode: string, filename: string, directive: Option<Directive>,
                          braces: seq<Brace>, parse: string -> Option<real>, show: real -> string,
                          highlight: string -> string) returns (r: Result<string, BraceError>)
    ensures r == FormatPseudocodeSpec(pseudocode, filename, directive, braces, parse, show, highlight)
  {
    var text := pseudocode;
    var horzShift := "0.0";
    var levelOffsets: seq<real> := [];
    if directive.Some? {
      horzShift := directive.value.shift;
      var offsets := CumulativeOffsets(directive.value.pieces, parse);
      if offsets.Err? {
        return Err(offsets.error);
      }
      levelOffsets := offsets.value;
      text := Cut(text, directive.value.gt);
    }
    var useBrace := |braces| > 0;
    if useBrace && |levelOffsets| == 0 {
      return Err(NoOffsets);
    }
    if useBrace {
      text := Cut(text, braces[0].colon);
    }
    if HasDigit(filename) {
      return Err(DigitInName);
    }
    var name := Letters(filename);
    var formattedLines := SplitLines(highlight(text));
    if useBrace {
      var overlay := AddBraces(formattedLines, name, horzShift, levelOffsets, show, braces);
      if overlay.Err? {
        return Err(overlay.error);
      }
      return Ok(JoinLines(overlay.value.0) + "\n" + overlay.value.1);
    }
    return Ok(JoinLines(formattedLines));
  }

  // ---------------------------------------------------------------------------------------
  // Properties.

  /** Without brace entries the result is the rendered text itself. */
  lemma NoBracesIsHighlight(pseudocode: string, filename: string, directive: Option<Directive>,
                            parse: string -> Option<real>, show: real -> string, highlight: string -> string)
    requires !HasDigit(filename)
    requires directive.Some? ==> AllParse(directive.value.pieces, parse)
    ensures var text := if directive.Some? then Cut(pseudocode, directive.value.gt) else pseudocode;
      FormatPseudocodeSpec(pseudocode, filename, directive, [], parse, show, highlight) == Ok(highlight(text))
  {
    var text := if directive.Some? then Cut(pseudocode, directive.value.gt) else pseudocode;
    SplitJoinRoundTrip(highlight(text));
  }

  /** Brace entries without an offset directive are rejected. */
  lemma BracesNeedOffsets(pseudocode: string, filename: string, braces: seq<Brace>,
                          parse: string -> Option<real>, show: real -> string, highlight: string -> string)
    requires |braces| > 0
    ensures FormatPseudocodeSpec(pseudocode, filename, None, braces, parse, show, highlight) == Err(NoOffsets)
  {
  }

  /** Once the offsets are read, a file name with a digit is rejected. */
  lemma DigitInNameRejected(pseudocode: string, filename: string, directive: Option<Directive>,
                            braces: seq<Brace>, parse: string -> Option<real>, show: real -> string,
                            highlight: string -> string)
    requires HasDigit(filename)
    requires directive.Some? ==> AllParse(directive.value.pieces, parse) && |directive.value.pieces| > 0
    requires |braces| > 0 ==> directive.Some?
    ensures FormatPseudocodeSpec(pseudocode, filename, directive, braces, parse, show, highlight) == Err(DigitInName)
  {
  }

  /** The overlay succeeds exactly when there are lines 1 and 2 and every entry's lines exist. */
  lemma OverlayOkIff(lines: seq<string>, name: string, shift: string, offsets: seq<real>,
                     show: real -> string, es: seq<Brace>)
    requires |offsets| > 0
    ensures Overlay(lines, name, shift, offsets, show, es).Ok? <==> 3 <= |lines| && InRange(es, |lines|)
  {
  }

  /** Marking keeps the line count, keeps every line as a prefix of its marked version, and leaves
      unchanged every line other than 1 and 2 that no entry refers to. */
  lemma MarkedShape(lines: seq<string>, name: string, es: seq<Brace>)
    ensures |Marked(lines, name, es)| == |lines|
    ensures forall k :: 0 <= k < |lines| ==> Marked(lines, name, es)[k][..|lines[k]|] == lines[k]
    ensures forall k: nat :: k < |lines| && k != 1 && k != 2 && !Refers(es, k) ==> Marked(lines, name, es)[k] == lines[k]
  {
    var m := Marked(lines, name, es);
    forall k | 0 <= k < |lines| ensures m[k][..|lines[k]|] == lines[k] {
      assert m[k] == lines[k] + Suffix(name, es, k);
    }
  }
}
