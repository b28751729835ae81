/**
 * The one-off script that turns a barrier catalogue with subcategory rows
 * mixed in into a table of barrier rows, each carrying the description of
 * its subcategory in a new column.
 */
module TransformBarriersCsv {
  import opened Wrappers
  import opened PyNum
  import opened PyStr

  /** A catalogue row under the normalised names code, description, group, group code. */
  datatype SourceRow = SourceRow(code: Option<string>, description: string, group: string, groupCode: string)

  /** An output row: code, description, subcategory description, group, group code. */
  datatype BarrierRow = BarrierRow(code: string, description: string, subcategory: string, group: string, groupCode: string)

  /** The code as `str(row['Codigo_Barrera'])` prints it. */
  function CodeOf(row: SourceRow): string
  {
    CellText(row.code)
  }

  /** A non-empty code whose last character is a digit names a subcategory. */
  predicate IsSubcategoryCode(code: string)
  {
    code != [] && IsDigit(code[|code| - 1])
  }

  /** A non-empty code whose last character is a letter names a barrier. */
  predicate IsBarrierCode(code: string)
  {
    code != [] && IsAlpha(code[|code| - 1])
  }

  /** No code is both; codes ending in anything else are neither. */
  lemma CodeKindsDisjoint(code: string)
    ensures !(IsSubcategoryCode(code) && IsBarrierCode(code))
    ensures code != [] && !IsDigit(code[|code| - 1]) && !IsAlpha(code[|code| - 1])
      ==> !IsSubcategoryCode(code) && !IsBarrierCode(code)
  {
  }

  /** An empty code cell prints as "nan", which ends in a letter: it is kept as a barrier. */
  lemma EmptyCodeIsBarrier(row: SourceRow)
    requires row.code.None?
    ensures IsBarrierCode(CodeOf(row)) && !IsSubcategoryCode(CodeOf(row))
  {
  }

  // ---------------------------------------------------------------------
  // The subcategory dictionary: code -> description, later rows winning.
  // ---------------------------------------------------------------------

  function SubcategoryMap(rows: seq<SourceRow>): map<string, string>
  {
    if rows == [] then map[]
    else
      var m := SubcategoryMap(rows[..|rows| - 1]);
      var last := rows[|rows| - 1];
      if IsSubcategoryCode(CodeOf(last)) then m[CodeOf(last) := last.description] else m
  }

  /** Only subcategory codes are keys. */
  lemma {:induction false} SubcategoryMapKeys(rows: seq<SourceRow>, code: string)
    ensures code in SubcategoryMap(rows) <==>
      exists k :: 0 <= k < |rows| && CodeOf(rows[k]) == code && IsSubcategoryCode(code)
  {
    if rows != [] {
      var init := rows[..|rows| - 1];
      SubcategoryMapKeys(init, code);
      if code in SubcategoryMap(init) {
        var k :| 0 <= k < |init| && CodeOf(init[k]) == code && IsSubcategoryCode(code);
        assert rows[k] == init[k];
      }
      if exists k :: 0 <= k < |rows| && CodeOf(rows[k]) == code && IsSubcategoryCode(code) {
        var k :| 0 <= k < |rows| && CodeOf(rows[k]) == code && IsSubcategoryCode(code);
        if k < |init| {
          assert init[k] == rows[k];
        }
      }
    }
  }

  /** A subcategory code maps to the description on the last row carrying it. */
  lemma {:induction false} SubcategoryMapLastWins(rows: seq<SourceRow>, k: nat)
    requires k < |rows| && IsSubcategoryCode(CodeOf(rows[k]))
    requires forall j :: k < j < |rows| ==> CodeOf(rows[j]) != CodeOf(rows[k])
    ensures CodeOf(rows[k]) in SubcategoryMap(rows)
    ensures SubcategoryMap(rows)[CodeOf(rows[k])] == rows[k].description
  {
    var init := rows[..|rows| - 1];
    if k < |rows| - 1 {
      assert init[k] == rows[k];
      forall j | k < j < |init|
        ensures CodeOf(init[j]) != CodeOf(init[k])
      {
        assert init[j] == rows[j];
      }
      SubcategoryMapLastWins(init, k);
    }
  }

  /** Lines 23-28: the dictionary filled in one pass over the rows. */
  method CollectSubcategories(rows: seq<SourceRow>) returns (subcategories: map<string, string>)
    ensures subcategories == SubcategoryMap(rows)
  {
    subcategories := map[];
    for i := 0 to |rows|
      invariant subcategories == SubcategoryMap(rows[..i])
    {
      assert rows[..i + 1][..i] == rows[..i];
      var code := CodeOf(rows[i]);
      if code != [] && IsDigit(code[|code| - 1]) {
        subcategories := subcategories[code := rows[i].description];
      }
    }
    assert rows[..|rows|] == rows;
  }

  // ---------------------------------------------------------------------
  // The subcategory prefix of a barrier code.
  // ---------------------------------------------------------------------

  /** One past the last digit of `s`, or 0 when `s` has no digit. */
  function LastDigitEnd(s: string): (r: nat)
    ensures r <= |s|
    ensures r > 0 ==> IsDigit(s[r - 1])
    ensures forall k :: r <= k < |s| ==> !IsDigit(s[k])
  {
    if s == [] then 0
    else if IsDigit(s[|s| - 1]) then |s|
    else LastDigitEnd(s[..|s| - 1])
  }

  /** The code cut after its last run of digits: "GB0101b" gives "GB0101"; no digit gives "". */
  function SubcategoryPrefix(code: string): (p: string)
    ensures p == code[..LastDigitEnd(code)]
    ensures p == [] || IsDigit(p[|p| - 1])
    ensures forall k :: |p| <= k < |code| ==> !IsDigit(code[k])
  {
    code[..LastDigitEnd(code)]
  }

  /** The end of the run of digits that goes on from the digit at `i`. */
  function RunEnd(s: string, i: nat): (r: nat)
    requires i < |s|
    ensures i < r <= |s|
    ensures forall k :: i < k < r ==> IsDigit(s[k])
    ensures r < |s| ==> !IsDigit(s[r])
    decreases |s| - i
  {
    if i + 1 < |s| && IsDigit(s[i + 1]) then RunEnd(s, i + 1) else i + 1
  }

  /** The last digit's run ends at the last digit: nothing after it is a digit. */
  lemma LastRunEnd(s: string)
    requires LastDigitEnd(s) > 0
    ensures RunEnd(s, LastDigitEnd(s) - 1) == LastDigitEnd(s)
  {
  }

  /** Appending one character to a prefix moves its last digit end only when that character is a digit. */
  lemma LastDigitEndStep(s: string, i: nat)
    requires i < |s|
    ensures LastDigitEnd(s[..i + 1]) == if IsDigit(s[i]) then i + 1 else LastDigitEnd(s[..i])
  {
    assert s[..i + 1][..i] == s[..i];
  }

  /**
   * Lines 40-47: every digit overwrites the prefix with the code up to the
   * end of its run, so the last digit decides.
   */
  method ExtractPrefix(code: string) returns (subcatCode: string)
    ensures subcatCode == SubcategoryPrefix(code)
  {
    subcatCode := "";
    for i := 0 to |code|
      invariant var b := LastDigitEnd(code[..i]);
        b <= i && (b == 0 ==> subcatCode == "") && (b > 0 ==> subcatCode == code[..RunEnd(code, b - 1)])
    {
      LastDigitEndStep(code, i);
      if IsDigit(code[i]) {
        var j := ScanRun(code, i);
        subcatCode := code[..j];
      }
    }
    assert code[..|code|] == code;
    if LastDigitEnd(code) > 0 {
      LastRunEnd(code);
    }
  }

  /** The inner `while`: from a digit, step to the end of its run. */
  method ScanRun(code: string, i: nat) returns (j: nat)
    requires i < |code|
    ensures j == RunEnd(code, i)
  {
    j := i + 1;
    while j < |code| && IsDigit(code[j])
      invariant i + 1 <= j <= |code|
      invariant RunEnd(code, i) == RunEnd(code, j - 1)
    {
      j := j + 1;
    }
  }

  lemma PrefixExamples()
    ensures SubcategoryPrefix("GB0101b") == "GB0101"
    ensures SubcategoryPrefix("A1b2c") == "A1b2"
    ensures SubcategoryPrefix("nan") == ""
  {
    assert LastDigitEnd("GB0101b") == 6 by {
      assert "GB0101b"[..6] == "GB0101";
    }
    assert LastDigitEnd("A1b2c") == 4 by {
      assert "A1b2c"[..4] == "A1b2";
    }
    assert LastDigitEnd("nan") == 0 by {
      assert "nan"[..2] == "na" && "na"[..1] == "n" && "n"[..0] == "";
    }
  }

  // ---------------------------------------------------------------------
  // The barrier rows.
  // ---------------------------------------------------------------------

  /** Line 50: an unknown subcategory code gives the empty description. */
  function SubcategoryOf(subcategories: map<string, string>, code: string): (d: string)
    ensures SubcategoryPrefix(code) !in subcategories ==> d == ""
    ensures SubcategoryPrefix(code) in subcategories ==> d == subcategories[SubcategoryPrefix(code)]
  {
    var p := SubcategoryPrefix(code);
    if p in subcategories then subcategories[p] else ""
  }

  function MakeRow(subcategories: map<string, string>, row: SourceRow): BarrierRow
  {
    BarrierRow(CodeOf(row), row.description, SubcategoryOf(subcategories, CodeOf(row)), row.group, row.groupCode)
  }

  /** The barrier rows in input order, each joined to its subcategory's description. */
  function BarrierRows(subcategories: map<string, string>, rows: seq<SourceRow>): seq<BarrierRow>
  {
    if rows == [] then []
    else
      var init := BarrierRows(subcategories, rows[..|rows| - 1]);
      var last := rows[|rows| - 1];
      if IsBarrierCode(CodeOf(last)) then init + [MakeRow(subcategories, last)] else init
  }

  /** The rows of a concatenation are the rows of each part, in order. */
  lemma {:induction false} BarrierRowsAppend(subcategories: map<string, string>, xs: seq<SourceRow>, ys: seq<SourceRow>)
    ensures BarrierRows(subcategories, xs + ys) == BarrierRows(subcategories, xs) + BarrierRows(subcategories, ys)
    decreases |ys|
  {
    if ys == [] {
      assert xs + ys == xs;
    } else {
      var ys' := ys[..|ys| - 1];
      assert (xs + ys)[..|xs + ys| - 1] == xs + ys';
      assert (xs + ys)[|xs + ys| - 1] == ys[|ys| - 1];
      BarrierRowsAppend(subcategories, xs, ys');
    }
  }

  /** A single row contributes itself exactly when its code ends in a letter. */
  lemma BarrierRowsSingle(subcategories: map<string, string>, row: SourceRow)
    ensures BarrierRows(subcategories, [row])
         == if IsBarrierCode(CodeOf(row)) then [MakeRow(subcategories, row)] else []
  {
    assert [row][..0] == [];
  }

  /** Every output row carries a barrier code and comes from an input row. */
  lemma {:induction false} BarrierRowsFrom(subcategories: map<string, string>, rows: seq<SourceRow>, r: BarrierRow)
    requires r in BarrierRows(subcategories, rows)
    ensures IsBarrierCode(r.code)
    ensures exists k :: 0 <= k < |rows| && r == MakeRow(subcategories, rows[k])
  {
    var init := rows[..|rows| - 1];
    if r in BarrierRows(subcategories, init) {
      BarrierRowsFrom(subcategories, init, r);
      var k :| 0 <= k < |init| && r == MakeRow(subcategories, init[k]);
      assert rows[k] == init[k];
    }
  }

  /** Every input row with a barrier code is in the output. */
  lemma BarrierRowsComplete(subcategories: map<string, string>, rows: seq<SourceRow>, k: nat)
    requires k < |rows| && IsBarrierCode(CodeOf(rows[k]))
    ensures MakeRow(subcategories, rows[k]) in BarrierRows(subcategories, rows)
  {
    assert rows == rows[..k] + [rows[k]] + rows[k + 1..];
    BarrierRowsAppend(subcategories, rows[..k] + [rows[k]], rows[k + 1..]);
    BarrierRowsAppend(subcategories, rows[..k], [rows[k]]);
    BarrierRowsSingle(subcategories, rows[k]);
  }

  /** Lines 33-58: the barrier list filled in a second pass. */
  method CollectBarriers(subcategories: map<string, string>, rows: seq<SourceRow>) returns (barriers: seq<BarrierRow>)
    ensures barriers == BarrierRows(subcategories, rows)
  {
    barriers := [];
    for i := 0 to |rows|
      invariant barriers == BarrierRows(subcategories, rows[..i])
    {
      assert rows[..i + 1][..i] == rows[..i];
      var code := CodeOf(rows[i]);
      if code != [] && IsAlpha(code[|code| - 1]) {
        var subcatCode := ExtractPrefix(code);
        var subcategory := if subcatCode in subcategories then subcategories[subcatCode] else "";
        barriers := barriers + [BarrierRow(code, rows[i].description, subcategory, rows[i].group, rows[i].groupCode)];
      }
    }
    assert rows[..|rows|] == rows;
  }

  // ---------------------------------------------------------------------
  // One file.
  // ---------------------------------------------------------------------

  /** The three catalogues the script rewrites. */
  const SpanishFile := "src/locales/Barries_es.csv"
  const EnglishFile := "src/locales/Barries_en.csv"
  const PortugueseFile := "src/locales/Barries_pt.csv"

  /** Lines 66-73 as written: a substring test on the whole path. */
  function SubcategoryHeader(path: string): string
  {
    if Contains(path, "es") then "Subcategoria"
    else if Contains(path, "en") then "Subcategory"
    else "Subcategoria"
  }

  /** "locales" contains "es", so every catalogue, the English one included, gets the Spanish header. */
  lemma EnglishHeaderAsWritten()
    ensures SubcategoryHeader(EnglishFile) == "Subcategoria"
  {
    assert OccursAt(EnglishFile, "es", 9);
  }

  /** The language suffix of the file name chooses the header. */
  function SubcategoryHeaderByLanguage(path: string): (h: string)
    ensures h == "Subcategory" <==> |path| >= 7 && path[|path| - 7..] == "_en.csv"
  {
    if |path| >= 7 && path[|path| - 7..] == "_en.csv" then "Subcategory" else "Subcategoria"
  }

  lemma HeaderByLanguageFiles()
    ensures SubcategoryHeaderByLanguage(SpanishFile) == "Subcategoria"
    ensures SubcategoryHeaderByLanguage(EnglishFile) == "Subcategory"
    ensures SubcategoryHeaderByLanguage(PortugueseFile) == "Subcategoria"
  {
    assert SpanishFile[|SpanishFile| - 7..] == "_es.csv";
    assert EnglishFile[|EnglishFile| - 7..] == "_en.csv";
    assert PortugueseFile[|PortugueseFile| - 7..] == "_pt.csv";
  }

  /** Line 79: every ".csv" in the path becomes "_new.csv". */
  function NewFileName(path: string): string
  {
    ReplaceAll(path, ".csv", "_new.csv")
  }

  /** A path whose only dot starts its ".csv" extension gets "_new" before the extension. */
  lemma NewFileNameOfStem(stem: string)
    requires '.' !in stem
    ensures NewFileName(stem + ".csv") == stem + "_new.csv"
  {
    ReplaceAllSuffix(stem, ".csv", "_new.csv");
  }

  /** The directory and name prefix shared by the three catalogues. */
  const CatalogueStem := "src/locales/Barries_"

  /** A catalogue `Barries_<lang>.csv` is written next to itself as `Barries_<lang>_new.csv`. */
  lemma CatalogueNewFileName(lang: string)
    requires '.' !in lang
    ensures NewFileName(CatalogueStem + lang + ".csv") == CatalogueStem + lang + "_new.csv"
  {
    var stem := CatalogueStem + lang;
    forall i | 0 <= i < |stem|
      ensures stem[i] != '.'
    {
      if i >= |CatalogueStem| {
        assert stem[i] == lang[i - |CatalogueStem|];
      }
    }
    NewFileNameOfStem(stem);
  }

  /** The rewritten file: its name, its five headers and its rows. */
  datatype Output = Output(path: string, headers: seq<string>, rows: seq<BarrierRow>)

  /**
   * One pass of the script's loop over a file already read: the original
   * four headers and the rows. Without any barrier row the new frame has
   * no columns and renaming it to five raises `ValueError`.
   */
  method TransformFile(path: string, headers: (string, string, string, string), rows: seq<SourceRow>)
    returns (out: Result<Output>)
    ensures BarrierRows(SubcategoryMap(rows), rows) == [] <==> out == Err("ValueError")
    ensures out.Ok? ==> out.value == Output(NewFileName(path),
      [headers.0, headers.1, SubcategoryHeader(path), headers.2, headers.3],
      BarrierRows(SubcategoryMap(rows), rows))
  {
    var subcategories := CollectSubcategories(rows);
    var barriers := CollectBarriers(subcategories, rows);
    if barriers == [] {
      return Err("ValueError");
    }
    var header := SubcategoryHeader(path);
    out := Ok(Output(NewFileName(path), [headers.0, headers.1, header, headers.2, headers.3], barriers));
  }
}
