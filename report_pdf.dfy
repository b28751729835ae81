/**
 * The PDF helper of the report generator (`StyledPDF`): the named text
 * styles, the greedy word wrap `_split_text` falls back on, and the checks
 * and row heights of `table`. Font metrics are a parameter: `width(s)` is
 * the printed width of `s` in the current font. The tables take the line
 * splitter as a parameter `split`, since `_split_text` first asks FPDF's
 * own `multi_cell(..., split_only=True)` and only falls back on the greedy
 * wrap when that raises.
 */
module ReportPdf {
  import opened Wrappers
  import opened PyNum
  import opened PyParse
  import opened PyStr

  // ---------------------------------------------------------------------
  // Styles
  // ---------------------------------------------------------------------

  /** A text style: font weight ("", "B" or "I"), size in points, colour and line lead. */
  datatype Style = Style(weight: string, size: nat, color: (nat, nat, nat), lead: nat)

  const Primary := (33, 150, 243)
  const Secondary := (66, 165, 245)
  const TextColor := (0, 0, 0)
  const Muted := (97, 97, 97)

  /** The styles `_build_default_styles` defines, all in the Arial family. */
  function Styles(): map<string, Style>
  {
    map[
      "title" := Style("B", 16, Primary, 10),
      "subtitle" := Style("I", 10, Muted, 5),
      "h1" := Style("B", 12, Primary, 8),
      "h2" := Style("B", 10, Secondary, 6),
      "p" := Style("", 9, TextColor, 5),
      "caption" := Style("I", 8, Muted, 4),
      "table_header" := Style("B", 9, TextColor, 6),
      "table_cell" := Style("", 8, TextColor, 5)
    ]
  }

  /** `set_style`: the named style, or the paragraph style for an unknown name; the result is its lead. */
  function SetStyle(name: string): (r: (Style, nat))
    ensures name in Styles() ==> r.0 == Styles()[name]
    ensures name !in Styles() ==> r.0 == Styles()["p"]
    ensures r.1 == r.0.lead
  {
    var st := if name in Styles() then Styles()[name] else Styles()["p"];
    (st, st.lead)
  }

  /** An unknown style name prints as a paragraph: regular 9 pt black with lead 5. */
  lemma UnknownStyleIsParagraph(name: string)
    requires name !in {"title", "subtitle", "h1", "h2", "p", "caption", "table_header", "table_cell"}
    ensures SetStyle(name) == (Style("", 9, (0, 0, 0), 5), 5)
  {
  }

  // ---------------------------------------------------------------------
  // Words and lines
  // ---------------------------------------------------------------------

  /** The end of the run of non-space characters starting at `i`. */
  function WordEnd(s: string, i: nat): (n: nat)
    requires i <= |s|
    ensures i <= n <= |s|
    ensures forall k :: i <= k < n ==> !IsSpace(s[k])
    ensures n < |s| ==> IsSpace(s[n])
    decreases |s| - i
  {
    if i == |s| || IsSpace(s[i]) then i else WordEnd(s, i + 1)
  }

  /** A word of `str.split()`: non-empty and free of white space. */
  predicate IsWord(w: string)
  {
    w != [] && forall k :: 0 <= k < |w| ==> !IsSpace(w[k])
  }

  /** `str.split()` with no argument: the maximal runs of non-space characters. */
  function Split(s: string): (ws: seq<string>)
    ensures forall k :: 0 <= k < |ws| ==> IsWord(ws[k])
    ensures ws == [] <==> forall k :: 0 <= k < |s| ==> IsSpace(s[k])
    decreases |s|
  {
    if s == [] then []
    else if IsSpace(s[0]) then
      var r := Split(s[1..]);
      assert forall k :: 1 <= k < |s| ==> s[k] == s[1..][k - 1];
      r
    else
      var n := WordEnd(s, 0);
      [s[..n]] + Split(s[n..])
  }

  /** `" ".join(ls)`. */
  function Join(ls: seq<string>): string
  {
    if ls == [] then ""
    else if |ls| == 1 then ls[0]
    else Join(ls[..|ls| - 1]) + " " + ls[|ls| - 1]
  }

  lemma JoinSnoc(ls: seq<string>, x: string)
    ensures Join(ls + [x]) == if ls == [] then x else Join(ls) + " " + x
  {
    assert (ls + [x])[..|ls|] == ls;
  }

  // ---------------------------------------------------------------------
  // The fallback wrap of `_split_text`
  // ---------------------------------------------------------------------

  /** The lines finished so far and the line being filled. */
  datatype WrapState = WrapState(lines: seq<string>, current: string)

  /** One word of the greedy loop: extend the line while it fits, else start a new one. */
  function WrapStep(st: WrapState, w: string, maxW: real, width: string -> real): WrapState
  {
    var test := Strip(st.current + " " + w);
    if width(test) <= maxW then WrapState(st.lines, test)
    else WrapState(if st.current != "" then st.lines + [st.current] else st.lines, w)
  }

  /** The state after the loop has taken `words`. */
  function WrapFold(words: seq<string>, maxW: real, width: string -> real): WrapState
  {
    if words == [] then WrapState([], "")
    else WrapStep(WrapFold(words[..|words| - 1], maxW, width), words[|words| - 1], maxW, width)
  }

  /** The lines once the last line is flushed. */
  function Flushed(st: WrapState): seq<string>
  {
    if st.current != "" then st.lines + [st.current] else st.lines
  }

  /** The words of the text, with carriage returns removed first. */
  function TextWords(text: string): seq<string>
  {
    Split(ReplaceAll(text, "\r", ""))
  }

  /** The wrapped lines of a cell's text; an empty or blank text gives one empty line. */
  function WrapText(text: string, maxW: real, width: string -> real): (r: seq<string>)
    ensures |r| >= 1
  {
    var ls := Flushed(WrapFold(TextWords(text), maxW, width));
    if ls == [] then [""] else ls
  }

  /** A string with no white space at either end. */
  predicate Trimmed(s: string)
  {
    s == [] || (!IsSpace(s[0]) && !IsSpace(s[|s| - 1]))
  }

  /** `(current + " " + w).strip()` is `w` on an empty line, else the line, a space and the word. */
  lemma StripJoin(c: string, w: string)
    requires Trimmed(c) && IsWord(w)
    ensures Strip(c + " " + w) == if c == "" then w else c + " " + w
  {
    var s := c + " " + w;
    if c == "" {
      assert s[1..] == w;
      assert StripLeft(s) == StripLeft(w) == w;
    } else {
      assert StripLeft(s) == s;
    }
    assert StripLeft(s) != [] && !IsSpace(StripLeft(s)[|StripLeft(s)| - 1]);
  }

  /**
   * What holds of the state after any prefix of the words: the line being
   * filled is empty only before the first word; joining the lines gives
   * back the words joined; every line fits or is a single word; no line
   * is empty or holds a newline.
   */
  ghost predicate WrapInv(st: WrapState, words: seq<string>, maxW: real, width: string -> real)
  {
    && (st.current == "" <==> words == [])
    && (st.current == "" ==> st.lines == [])
    && Trimmed(st.current)
    && Join(Flushed(st)) == Join(words)
    && (forall l :: l in Flushed(st) ==> width(l) <= maxW || l in words)
    && (forall l :: l in Flushed(st) ==> l != "" && '\n' !in l)
  }

  lemma WrapStepInv(st: WrapState, words: seq<string>, w: string, maxW: real, width: string -> real)
    requires WrapInv(st, words, maxW, width)
    requires IsWord(w)
    ensures WrapInv(WrapStep(st, w, maxW, width), words + [w], maxW, width)
  {
    StripJoin(st.current, w);
    if st.current == "" {
      WrapFirstWord(st, words, w, maxW, width);
    } else if width(st.current + " " + w) <= maxW {
      WrapExtendLine(st, words, w, maxW, width);
    } else {
      WrapBreakLine(st, words, w, maxW, width);
    }
  }

  lemma WordHasNoNewline(w: string)
    requires IsWord(w)
    ensures '\n' !in w && Trimmed(w)
  {
    assert forall k :: 0 <= k < |w| ==> w[k] != '\n';
  }

  /** The first word opens the first line. */
  lemma WrapFirstWord(st: WrapState, words: seq<string>, w: string, maxW: real, width: string -> real)
    requires WrapInv(st, words, maxW, width) && IsWord(w) && st.current == ""
    requires Strip(st.current + " " + w) == w
    ensures WrapInv(WrapStep(st, w, maxW, width), words + [w], maxW, width)
  {
    WordHasNoNewline(w);
    assert words == [];
    assert WrapStep(st, w, maxW, width) == WrapState([], w);
    assert Flushed(WrapState([], w)) == [w];
    assert words + [w] == [w];
  }

  /** A word that still fits is appended to the line being filled. */
  lemma WrapExtendLine(st: WrapState, words: seq<string>, w: string, maxW: real, width: string -> real)
    requires WrapInv(st, words, maxW, width) && IsWord(w) && st.current != ""
    requires Strip(st.current + " " + w) == st.current + " " + w
    requires width(st.current + " " + w) <= maxW
    ensures WrapInv(WrapStep(st, w, maxW, width), words + [w], maxW, width)
  {
    var c, test := st.current, st.current + " " + w;
    WordHasNoNewline(w);
    var st' := WrapState(st.lines, test);
    assert WrapStep(st, w, maxW, width) == st';
    assert test[0] == c[0] && test[|test| - 1] == w[|w| - 1];
    assert Flushed(st) == st.lines + [c];
    assert Flushed(st') == st.lines + [test];
    ExtendJoin(st.lines, c, w, words);
    assert c in Flushed(st);
    assert '\n' !in test;
    forall l | l in Flushed(st')
      ensures (width(l) <= maxW || l in words + [w]) && l != "" && '\n' !in l
    {
      if l != test {
        assert l in Flushed(st);
      }
    }
  }

  /** Appending a word to the last line joins to the same text as appending it to the words. */
  lemma ExtendJoin(lines: seq<string>, c: string, w: string, words: seq<string>)
    requires Join(lines + [c]) == Join(words) && words != []
    ensures Join(lines + [c + " " + w]) == Join(words + [w])
  {
    JoinSnoc(words, w);
    JoinSnoc(lines, c);
    JoinSnoc(lines, c + " " + w);
    if lines != [] {
      assert Join(lines) + " " + (c + " " + w) == (Join(lines) + " " + c) + " " + w;
    }
  }

  /** A word that no longer fits closes the line and opens the next. */
  lemma WrapBreakLine(st: WrapState, words: seq<string>, w: string, maxW: real, width: string -> real)
    requires WrapInv(st, words, maxW, width) && IsWord(w) && st.current != ""
    requires width(Strip(st.current + " " + w)) > maxW
    ensures WrapInv(WrapStep(st, w, maxW, width), words + [w], maxW, width)
  {
    WordHasNoNewline(w);
    var st' := WrapState(st.lines + [st.current], w);
    assert WrapStep(st, w, maxW, width) == st';
    assert Flushed(st') == Flushed(st) + [w];
    JoinSnoc(words, w);
    JoinSnoc(Flushed(st), w);
    forall l | l in Flushed(st')
      ensures (width(l) <= maxW || l in words + [w]) && l != "" && '\n' !in l
    {
      if l != w {
        assert l in Flushed(st);
      }
    }
  }

  lemma {:induction false} WrapFoldInv(words: seq<string>, maxW: real, width: string -> real)
    requires forall k :: 0 <= k < |words| ==> IsWord(words[k])
    ensures WrapInv(WrapFold(words, maxW, width), words, maxW, width)
  {
    if words != [] {
      var init := words[..|words| - 1];
      WrapFoldInv(init, maxW, width);
      WrapStepInv(WrapFold(init, maxW, width), init, words[|words| - 1], maxW, width);
      assert init + [words[|words| - 1]] == words;
    }
  }

  /** No word is lost, added or reordered: the wrapped lines joined by spaces are the words joined by spaces. */
  lemma WrapKeepsWords(text: string, maxW: real, width: string -> real)
    ensures Join(WrapText(text, maxW, width)) == Join(TextWords(text))
  {
    WrapFoldInv(TextWords(text), maxW, width);
  }

  /** Every line fits the column, except a single word too wide for it, which gets a line of its own. */
  lemma WrapLinesFit(text: string, maxW: real, width: string -> real, l: string)
    requires TextWords(text) != []
    requires l in WrapText(text, maxW, width)
    ensures width(l) <= maxW || l in TextWords(text)
    ensures l != "" && '\n' !in l
  {
    WrapFoldInv(TextWords(text), maxW, width);
  }

  /** Lines hold no newline, so the flattening by `line.split("\n")` returns them unchanged. */
  lemma WrapHasNoNewline(text: string, maxW: real, width: string -> real, l: string)
    requires l in WrapText(text, maxW, width)
    ensures '\n' !in l
  {
    WrapFoldInv(TextWords(text), maxW, width);
  }

  /** A blank text wraps to the single empty line. */
  lemma WrapBlank(text: string, maxW: real, width: string -> real)
    requires forall k :: 0 <= k < |ReplaceAll(text, "\r", "")| ==> IsSpace(ReplaceAll(text, "\r", "")[k])
    ensures WrapText(text, maxW, width) == [""]
  {
  }

  /** `_split_text` on the fallback path: the greedy loop over the words. */
  method SplitText(text: string, maxW: real, width: string -> real) returns (lines: seq<string>)
    ensures lines == WrapText(text, maxW, width)
  {
    var words := TextWords(text);
    var done: seq<string> := [];
    var current := "";
    for i := 0 to |words|
      invariant WrapState(done, current) == WrapFold(words[..i], maxW, width)
    {
      assert words[..i + 1][..i] == words[..i];
      var test := Strip(current + " " + words[i]);
      if width(test) <= maxW {
        current := test;
      } else {
        if current != "" {
          done := done + [current];
        }
        current := words[i];
      }
    }
    assert words[..|words|] == words;
    if current != "" {
      done := done + [current];
    }
    lines := if done == [] then [""] else done;
  }

  // ---------------------------------------------------------------------
  // Tables
  // ---------------------------------------------------------------------

  /** `"" if cell is None else str(cell)`. */
  function CellString(cell: Option<string>): string
  {
    cell.GetOr("")
  }

  /** `len(lines) if len(lines) > 0 else 1` for the lines `_split_text` gives a cell. */
  function LineCount(split: (string, real) -> seq<string>, text: string, maxW: real): (n: nat)
    ensures n >= 1
  {
    var k := |split(text, maxW)|;
    if k > 0 then k else 1
  }

  /** The line count of each cell. */
  function CellLines(row: seq<Option<string>>, colWidths: seq<real>, split: (string, real) -> seq<string>): (r: seq<nat>)
    requires |row| <= |colWidths|
    ensures |r| == |row|
    ensures forall i :: 0 <= i < |r| ==> r[i] == LineCount(split, CellString(row[i]), colWidths[i])
  {
    if row == [] then []
    else CellLines(row[..|row| - 1], colWidths, split) + [LineCount(split, CellString(row[|row| - 1]), colWidths[|row| - 1])]
  }

  function SeqMax(xs: seq<nat>): (m: nat)
    requires xs != []
    ensures forall i :: 0 <= i < |xs| ==> xs[i] <= m
    ensures exists i :: 0 <= i < |xs| && xs[i] == m
  {
    if |xs| == 1 then xs[0]
    else
      var m0 := SeqMax(xs[..|xs| - 1]);
      assert forall i :: 0 <= i < |xs| - 1 ==> xs[..|xs| - 1][i] == xs[i];
      if xs[|xs| - 1] > m0 then xs[|xs| - 1] else m0
  }

  /** `row[:ncol]`. */
  function FirstCells(row: seq<Option<string>>, ncol: nat): (r: seq<Option<string>>)
    ensures |r| <= ncol && |r| <= |row| && (|r| == ncol || |r| == |row|)
    ensures forall i :: 0 <= i < |r| ==> r[i] == row[i]
  {
    if |row| <= ncol then row else row[..ncol]
  }

  lemma CellLinesSnoc(cells: seq<Option<string>>, colWidths: seq<real>, split: (string, real) -> seq<string>, i: nat)
    requires i < |cells| <= |colWidths|
    ensures CellLines(cells[..i + 1], colWidths, split) ==
      CellLines(cells[..i], colWidths, split) + [LineCount(split, CellString(cells[i]), colWidths[i])]
  {
    assert cells[..i + 1][..i] == cells[..i];
  }

  lemma SeqMaxSnoc(xs: seq<nat>, i: nat)
    requires 1 <= i < |xs|
    ensures SeqMax(xs[..i + 1]) == if xs[i] > SeqMax(xs[..i]) then xs[i] else SeqMax(xs[..i])
  {
    assert xs[..i + 1][..i] == xs[..i];
  }

  /** A row `max` can take: one with a cell among the first `ncol`; for any other `max([])` raises ValueError. */
  predicate HasCell(row: seq<Option<string>>, ncol: nat)
  {
    row != [] && ncol > 0
  }

  /** A row's height: 4 mm per line of its tallest cell among the first `ncol`. */
  function RowHeight(row: seq<Option<string>>, colWidths: seq<real>, ncol: nat, split: (string, real) -> seq<string>): (h: nat)
    requires ncol <= |colWidths| && HasCell(row, ncol)
  {
    4 * SeqMax(CellLines(FirstCells(row, ncol), colWidths, split))
  }

  /** The row height is 4 times the line count of the tallest cell among the first `ncol`. */
  lemma RowHeightIsTallestCell(row: seq<Option<string>>, colWidths: seq<real>, ncol: nat, split: (string, real) -> seq<string>)
    requires ncol <= |colWidths| && HasCell(row, ncol)
    ensures var h := RowHeight(row, colWidths, ncol, split);
      && h >= 4 && h % 4 == 0
      && (forall i :: 0 <= i < |row| && i < ncol ==> 4 * LineCount(split, CellString(row[i]), colWidths[i]) <= h)
      && (exists i :: 0 <= i < |row| && i < ncol && 4 * LineCount(split, CellString(row[i]), colWidths[i]) == h)
  {
    var lines := CellLines(FirstCells(row, ncol), colWidths, split);
    var m := SeqMax(lines);
    assert lines[0] >= 1;
    var k :| 0 <= k < |lines| && lines[k] == m;
    assert lines[k] == LineCount(split, CellString(row[k]), colWidths[k]);
  }

  /** What `table` draws: nothing, or the header and one row per entry with these alignments and heights. */
  datatype Layout = Skipped | Drawn(align: seq<string>, heights: seq<nat>)

  /** Every row has a cell to measure. */
  predicate AllHaveCells(rows: seq<seq<Option<string>>>, ncol: nat)
  {
    forall k :: 0 <= k < |rows| ==> HasCell(rows[k], ncol)
  }

  /** The heights of the rows, in order. */
  function RowHeights(rows: seq<seq<Option<string>>>, colWidths: seq<real>, ncol: nat, split: (string, real) -> seq<string>): (hs: seq<nat>)
    requires ncol <= |colWidths| && AllHaveCells(rows, ncol)
    ensures |hs| == |rows|
  {
    seq(|rows|, k requires 0 <= k < |rows| => RowHeight(rows[k], colWidths, ncol, split))
  }

  lemma RowHeightsSnoc(rows: seq<seq<Option<string>>>, colWidths: seq<real>, ncol: nat, split: (string, real) -> seq<string>, k: nat)
    requires ncol <= |colWidths| && k < |rows| && AllHaveCells(rows[..k], ncol) && HasCell(rows[k], ncol)
    ensures AllHaveCells(rows[..k + 1], ncol)
    ensures RowHeights(rows[..k + 1], colWidths, ncol, split) ==
      RowHeights(rows[..k], colWidths, ncol, split) + [RowHeight(rows[k], colWidths, ncol, split)]
  {
    assert rows[..k + 1] == rows[..k] + [rows[k]];
  }

  /**
   * `table`: nothing without headers or widths; a ValueError when the
   * widths or the alignments do not match the headers, or when a row has
   * no cell; otherwise the alignments (all "L" by default) and each row's
   * height.
   */
  function TableLayout(headers: seq<Option<string>>, rows: seq<seq<Option<string>>>, colWidths: seq<real>,
                       align: Option<seq<string>>, split: (string, real) -> seq<string>): (r: Result<Layout>)
    ensures headers == [] || colWidths == [] ==> r == Ok(Skipped)
    ensures headers != [] && colWidths != [] && |colWidths| != |headers| ==> r.Err?
    ensures headers != [] && colWidths != [] && align.Some? && |align.value| != |headers| ==> r.Err?
    ensures headers != [] && colWidths != [] && (exists k :: 0 <= k < |rows| && rows[k] == []) ==> r.Err?
    ensures r.Ok? && r.value.Drawn? ==>
      && |colWidths| == |headers| && AllHaveCells(rows, |headers|)
      && r.value.heights == RowHeights(rows, colWidths, |headers|, split)
      && |r.value.align| == |headers|
      && (align.None? ==> forall i :: 0 <= i < |headers| ==> r.value.align[i] == "L")
      && (align.Some? ==> r.value.align == align.value)
  {
    if headers == [] || colWidths == [] then Ok(Skipped)
    else
      var ncol := |headers|;
      var a := if align.None? then seq(ncol, _ => "L") else align.value;
      if |colWidths| != ncol then Err("ValueError: col_widths")
      else if |a| != ncol then Err("ValueError: align")
      else if !AllHaveCells(rows, ncol) then Err("ValueError: max() arg is an empty sequence")
      else Ok(Drawn(a, RowHeights(rows, colWidths, ncol, split)))
  }

  /**
   * The row loop of `table`: the height of each row in turn, stopping at
   * the first row without a cell.
   */
  method TableRowHeights(rows: seq<seq<Option<string>>>, colWidths: seq<real>, ncol: nat, split: (string, real) -> seq<string>)
    returns (r: Result<seq<nat>>)
    requires ncol <= |colWidths|
    ensures r.Ok? <==> AllHaveCells(rows, ncol)
    ensures r.Ok? ==> r.value == RowHeights(rows, colWidths, ncol, split)
  {
    var hs: seq<nat> := [];
    for k := 0 to |rows|
      invariant AllHaveCells(rows[..k], ncol)
      invariant hs == RowHeights(rows[..k], colWidths, ncol, split)
    {
      var h := RowHeightOf(rows[k], colWidths, ncol, split);
      if h.Err? {
        assert !HasCell(rows[k], ncol);
        return Err(h.error);
      }
      RowHeightsSnoc(rows, colWidths, ncol, split, k);
      hs := hs + [h.value];
    }
    assert rows[..|rows|] == rows;
    r := Ok(hs);
  }

  /** One row: `lines_per_cell` filled cell by cell, then `4 * max(lines_per_cell)`, which raises on no cell. */
  method RowHeightOf(row: seq<Option<string>>, colWidths: seq<real>, ncol: nat, split: (string, real) -> seq<string>) returns (h: Result<nat>)
    requires ncol <= |colWidths|
    ensures h.Ok? <==> HasCell(row, ncol)
    ensures h.Ok? ==> h.value == RowHeight(row, colWidths, ncol, split)
  {
    var cells := FirstCells(row, ncol);
    var counts: seq<nat> := [];
    for i := 0 to |cells|
      invariant counts == CellLines(cells[..i], colWidths, split)
    {
      CellLinesSnoc(cells, colWidths, split, i);
      var lines := split(CellString(cells[i]), colWidths[i]);
      counts := counts + [if |lines| > 0 then |lines| else 1];
    }
    assert cells[..|cells|] == cells;
    if counts == [] {
      return Err("ValueError");
    }
    var m := counts[0];
    for i := 1 to |counts|
      invariant m == SeqMax(counts[..i])
    {
      SeqMaxSnoc(counts, i);
      if counts[i] > m {
        m := counts[i];
      }
    }
    assert counts[..|counts|] == counts;
    h := Ok(4 * m);
  }
}
