/**
 * Areas of a normalised SbN raster by suitability range, the UTM zone
 * used to measure them, Area.csv, and its compilation with Cost.csv.
 */
module AreaCalculator {
  import opened Wrappers
  import opened PyNum
  import opened Sorting
  import opened CostProcessor
  import opened Utm

  // ---------------------------------------------------------------------
  // UTM zone
  // ---------------------------------------------------------------------

  /** `detect_utm_zone`: the EPSG code of the zone of the bounds' centre, 326xx north (lat ≥ 0), 327xx south. */
  function DetectUtmZone(left: real, right: real, bottom: real, top: real): (epsg: string)
    ensures (bottom + top) / 2.0 >= 0.0 ==> epsg == "EPSG:326" + Pad2(UtmZone((left + right) / 2.0))
    ensures (bottom + top) / 2.0 < 0.0 ==> epsg == "EPSG:327" + Pad2(UtmZone((left + right) / 2.0))
  {
    var zone := UtmZone((left + right) / 2.0);
    if (bottom + top) / 2.0 >= 0.0 then "EPSG:326" + Pad2(zone) else "EPSG:327" + Pad2(zone)
  }

  /** For a zone 1..60 the code is ten characters and its last two digits spell the zone. */
  lemma EpsgSpellsZone(left: real, right: real, bottom: real, top: real)
    requires -180.0 <= (left + right) / 2.0 < 180.0
    ensures var epsg := DetectUtmZone(left, right, bottom, top);
      && |epsg| == 10 && epsg[..8] in {"EPSG:326", "EPSG:327"}
      && (epsg[..8] == "EPSG:326" <==> (bottom + top) / 2.0 >= 0.0)
      && IsDigit(epsg[8]) && IsDigit(epsg[9])
      && DigitValue(epsg[8]) * 10 + DigitValue(epsg[9]) == UtmZone((left + right) / 2.0)
  {
    var zone := UtmZone((left + right) / 2.0);
    Pad2Digits(zone);
  }

  lemma Pad2Digits(zone: int)
    requires 1 <= zone <= 99
    ensures |Pad2(zone)| == 2 && IsDigit(Pad2(zone)[0]) && IsDigit(Pad2(zone)[1])
    ensures DigitValue(Pad2(zone)[0]) * 10 + DigitValue(Pad2(zone)[1]) == zone
  {
    if zone >= 10 {
      NatToStringDigits(zone);
      NatToStringDigits(zone / 10);
      assert NatToString(zone) == NatToString(zone / 10) + [DigitChar(zone % 10)];
      assert NatToString(zone / 10) == [DigitChar(zone / 10)];
    }
  }

  // ---------------------------------------------------------------------
  // Areas by suitability range
  // ---------------------------------------------------------------------

  const RangeKeys: seq<string> := ["0-0.2", "0.2-0.4", "0.4-0.6", "0.6-0.8", "0.8-1.0"]

  /** The range of a value: [0,0.2), [0.2,0.4), [0.4,0.6), [0.6,0.8) or the closed [0.8,1.0]. */
  function BinOf(v: real): (b: Option<nat>)
    ensures b.Some? <==> 0.0 <= v <= 1.0
    ensures b.Some? ==> b.value < 5
    ensures b.Some? && b.value < 4 ==> b.value as real * 0.2 <= v < (b.value + 1) as real * 0.2
    ensures b == Some(4) ==> 0.8 <= v <= 1.0
  {
    if 0.0 <= v < 0.2 then Some(0)
    else if 0.2 <= v < 0.4 then Some(1)
    else if 0.4 <= v < 0.6 then Some(2)
    else if 0.6 <= v < 0.8 then Some(3)
    else if 0.8 <= v <= 1.0 then Some(4)
    else None
  }

  /** Membership in the k-th range, as the source's five comparisons state it. */
  predicate InRange(v: real, k: nat)
  {
    if k == 0 then 0.0 <= v < 0.2
    else if k == 1 then 0.2 <= v < 0.4
    else if k == 2 then 0.4 <= v < 0.6
    else if k == 3 then 0.6 <= v < 0.8
    else if k == 4 then 0.8 <= v <= 1.0
    else false
  }

  /** The five ranges are disjoint and cover [0, 1] exactly. */
  lemma RangesPartition(v: real)
    ensures 0.0 <= v <= 1.0 ==> exists k :: 0 <= k < 5 && InRange(v, k)
    ensures forall k, m :: 0 <= k < 5 && 0 <= m < 5 && InRange(v, k) && InRange(v, m) ==> k == m
    ensures forall k :: 0 <= k < 5 && InRange(v, k) ==> 0.0 <= v <= 1.0
    ensures forall k :: 0 <= k < 5 ==> (InRange(v, k) <==> BinOf(v) == Some(k))
  {
    if 0.0 <= v <= 1.0 {
      assert InRange(v, BinOf(v).value);
    }
  }

  /** How many valid values of `data` lie in range `k`. */
  function CountIn(data: seq<Option<real>>, k: nat): (n: nat)
    ensures n <= |data|
  {
    if data == [] then 0
    else CountIn(data[..|data| - 1], k) + (if data[|data| - 1].Some? && InRange(data[|data| - 1].value, k) then 1 else 0)
  }

  function ValidCount(data: seq<Option<real>>): (n: nat)
    ensures n <= |data|
  {
    if data == [] then 0 else ValidCount(data[..|data| - 1]) + (if data[|data| - 1].Some? then 1 else 0)
  }

  /** A valid value outside [0, 1] is counted in no range; every other valid value in exactly one. */
  lemma {:induction false} CountsAddUp(data: seq<Option<real>>)
    ensures CountIn(data, 0) + CountIn(data, 1) + CountIn(data, 2) + CountIn(data, 3) + CountIn(data, 4)
            == ValidInUnit(data)
    ensures ValidInUnit(data) <= ValidCount(data)
  {
    if data != [] {
      CountsAddUp(data[..|data| - 1]);
      var last := data[|data| - 1];
      if last.Some? {
        RangesPartition(last.value);
        if 0.0 <= last.value <= 1.0 {
          var b := BinOf(last.value).value;
          assert InRange(last.value, b);
        }
      }
    }
  }

  function ValidInUnit(data: seq<Option<real>>): nat
  {
    if data == [] then 0
    else ValidInUnit(data[..|data| - 1]) + (if data[|data| - 1].Some? && 0.0 <= data[|data| - 1].value <= 1.0 then 1 else 0)
  }

  /** The area of range `k`: its cell count times the pixel area, 0.0 when the band has no valid cell. */
  function RangeArea(data: seq<Option<real>>, pixelArea: real, k: nat): (a: real)
    ensures ValidCount(data) > 0 ==> a == CountIn(data, k) as real * pixelArea
    ensures ValidCount(data) == 0 ==> a == 0.0
  {
    if ValidCount(data) > 0 then CountIn(data, k) as real * pixelArea else 0.0
  }

  /** `calculate_sbn_areas` given the band's cells and the pixel area `|a·e|` of its UTM transform. */
  function SbnAreas(data: seq<Option<real>>, pixelArea: real): (areas: map<string, real>)
    ensures areas.Keys == set s | s in RangeKeys
    ensures forall k :: 0 <= k < 5 ==> areas[RangeKeys[k]] == RangeArea(data, pixelArea, k)
  {
    map k | 0 <= k < 5 :: RangeKeys[k] := RangeArea(data, pixelArea, k)
  }

  // ---------------------------------------------------------------------
  // Area.csv
  // ---------------------------------------------------------------------

  const AreaHeaders: seq<string> :=
    ["Code", "Area 0-0.2 (m2)", "Area 0.2-0.4 (m2)", "Area 0.4-0.6 (m2)", "Area 0.6-0.8 (m2)", "Area 0.8-1.0 (m2)"]

  /** The dictionary `save_areas_csv` receives, as its (code, areas) items; codes are distinct. */
  type AreaItems = seq<(string, map<string, real>)>

  predicate DistinctCodes(items: AreaItems)
  {
    forall i, j :: 0 <= i < j < |items| ==> items[i].0 != items[j].0
  }

  function CodeLe(a: (string, map<string, real>), b: (string, map<string, real>)): bool
  {
    StrLe(a.0, b.0)
  }

  /** One Area.csv row: the code and the five areas, a missing range as 0.0 (the two-decimal text is left out). */
  function AreaRow(item: (string, map<string, real>)): (row: (string, seq<real>))
    ensures row.0 == item.0 && |row.1| == 5
    ensures forall k :: 0 <= k < 5 ==> row.1[k] == if RangeKeys[k] in item.1 then item.1[RangeKeys[k]] else 0.0
  {
    (item.0, seq(5, k requires 0 <= k < 5 => if RangeKeys[k] in item.1 then item.1[RangeKeys[k]] else 0.0))
  }

  /** `save_areas_csv`: the header, then one row per code in sorted order, each code's row exactly once. */
  method SaveAreasCsv(items: AreaItems) returns (header: seq<string>, rows: seq<(string, seq<real>)>)
    ensures header == AreaHeaders
    ensures |rows| == |items|
    ensures forall i, j :: 0 <= i < j < |rows| ==> StrLe(rows[i].0, rows[j].0)
    ensures forall i :: 0 <= i < |rows| ==> exists j :: 0 <= j < |items| && rows[i] == AreaRow(items[j])
    ensures forall j :: 0 <= j < |items| ==> exists i :: 0 <= i < |rows| && rows[i] == AreaRow(items[j])
  {
    header := AreaHeaders;
    var sorted := SortBy(items, CodeLe);
    SortedByCode(items);
    rows := WriteRows(sorted);
    assert forall a, b :: 0 <= a < b < |rows| ==> CodeLe(sorted[a], sorted[b]);
    RowsCover(items, sorted, rows);
  }

  lemma RowsCover(items: AreaItems, sorted: AreaItems, rows: seq<(string, seq<real>)>)
    requires multiset(items) == multiset(sorted) && |rows| == |sorted|
    requires forall k :: 0 <= k < |sorted| ==> rows[k] == AreaRow(sorted[k])
    ensures forall i :: 0 <= i < |rows| ==> exists j :: 0 <= j < |items| && rows[i] == AreaRow(items[j])
    ensures forall j :: 0 <= j < |items| ==> exists i :: 0 <= i < |rows| && rows[i] == AreaRow(items[j])
  {
    forall i | 0 <= i < |rows| ensures exists j :: 0 <= j < |items| && rows[i] == AreaRow(items[j]) {
      assert sorted[i] in multiset(items);
      var j :| 0 <= j < |items| && sorted[i] == items[j];
    }
    forall j | 0 <= j < |items| ensures exists i :: 0 <= i < |rows| && rows[i] == AreaRow(items[j]) {
      assert items[j] in multiset(sorted);
      var i :| 0 <= i < |sorted| && sorted[i] == items[j];
    }
  }

  /** The row-writing loop of `save_areas_csv`. */
  method WriteRows(sorted: AreaItems) returns (rows: seq<(string, seq<real>)>)
    ensures |rows| == |sorted|
    ensures forall k :: 0 <= k < |sorted| ==> rows[k] == AreaRow(sorted[k])
  {
    rows := [];
    var i := 0;
    while i < |sorted|
      invariant 0 <= i <= |sorted| && |rows| == i
      invariant forall k :: 0 <= k < i ==> rows[k] == AreaRow(sorted[k])
    {
      rows := rows + [AreaRow(sorted[i])];
      i := i + 1;
    }
  }

  lemma SortedByCode(items: AreaItems)
    ensures SortedBy(SortBy(items, CodeLe), CodeLe)
  {
    CodeLePreorder();
    SortBySorted(items, CodeLe);
  }

  lemma CodeLePreorder()
    ensures TotalPreorder(CodeLe)
  {
    forall a: (string, map<string, real>), b: (string, map<string, real>) ensures CodeLe(a, b) || CodeLe(b, a) {
      StrLeTotal(a.0, b.0);
    }
    forall a: (string, map<string, real>), b: (string, map<string, real>), c: (string, map<string, real>)
      | CodeLe(a, b) && CodeLe(b, c) ensures CodeLe(a, c) {
      StrLeTransitive(a.0, b.0, c.0);
    }
  }

  // ---------------------------------------------------------------------
  // Area_Cost_Compiler.csv
  // ---------------------------------------------------------------------

  /** The value of the first run of digits in `s` (`str.extract(r'(\d+)')`), if there is one. */
  function FirstDigitRun(s: string): (r: Option<nat>)
    ensures r.Some? ==> exists k :: 0 <= k < |s| && IsDigit(s[k])
    ensures (exists k :: 0 <= k < |s| && IsDigit(s[k])) ==> r.Some?
  {
    if s == [] then None
    else if IsDigit(s[0]) then Some(DigitsValue(DigitPrefix(s)))
    else
      var r := FirstDigitRun(s[1..]);
      assert forall k :: 1 <= k < |s| ==> s[k] == s[1..][k - 1];
      r
  }

  /** The leading digits of `s`. */
  function DigitPrefix(s: string): (p: string)
    ensures |p| <= |s| && p == s[..|p|]
    ensures forall k :: 0 <= k < |p| ==> IsDigit(p[k])
    ensures |p| < |s| ==> !IsDigit(s[|p|])
  {
    if s == [] || !IsDigit(s[0]) then [] else [s[0]] + DigitPrefix(s[1..])
  }

  lemma FirstDigitRunExample()
    ensures FirstDigitRun("SbN_01") == Some(1) && FirstDigitRun("SbN_21") == Some(21)
  {
    assert DigitPrefix("01") == "01" && DigitsValue("01") == 1;
    assert DigitPrefix("21") == "21" && DigitsValue("21") == 21;
    assert "SbN_01"[1..] == "bN_01" && "bN_01"[1..] == "N_01" && "N_01"[1..] == "_01" && "_01"[1..] == "01";
    assert "SbN_21"[1..] == "bN_21" && "bN_21"[1..] == "N_21" && "N_21"[1..] == "_21" && "_21"[1..] == "21";
  }

  predicate HasPart(s: string, part: string)
    decreases |s|
  {
    |part| <= |s| && (s[..|part|] == part || HasPart(s[1..], part))
  }

  /** Cost column names as the compiled file shows them. */
  function RenamedCost(c: string): string
  {
    if c == "Cost_Mean_Inv" then "Investment (USD/m2)"
    else if c == "Cost_Mean_M" then "O&M (USD/m2/year)"
    else if c == "Cost_Mean_Total" then "Total Cost (USD/m2)"
    else c
  }

  const CompiledCostColumns: seq<string> := ["Investment (USD/m2)", "O&M (USD/m2/year)", "Total Cost (USD/m2)"]

  function Filter(xs: seq<string>, keep: string -> bool): (r: seq<string>)
    ensures forall k :: 0 <= k < |r| ==> r[k] in xs && keep(r[k])
    ensures forall x :: x in xs && keep(x) ==> x in r
  {
    if xs == [] then [] else (if keep(xs[0]) then [xs[0]] else []) + Filter(xs[1..], keep)
  }

  /** The compiled columns: Code, then the area columns, then the renamed cost columns that exist. */
  function CompiledColumns(areaColumns: seq<string>, costColumns: seq<string>): (cols: seq<string>)
    ensures |cols| >= 1 && cols[0] == "Code"
  {
    var renamed := set c | c in costColumns :: RenamedCost(c);
    ["Code"] + Filter(areaColumns, c => HasPart(c, "Area")) + Filter(CompiledCostColumns, c => c in renamed)
  }

  /** An area row's numeric ID, or `None` when its Code has no digits or is not text (the `astype(int)` failure). */
  function AreaId(row: map<string, Cell>): Option<nat>
  {
    if "Code" in row && row["Code"].Text? then FirstDigitRun(row["Code"].s) else None
  }

  /** The indices of the cost rows whose first-column value equals `id`, in order. */
  function MatchingCostRows(costs: Sheet, id: nat, n: nat): (r: seq<nat>)
    requires n <= |costs.rows| && |costs.columns| > 0
    ensures forall k :: 0 <= k < |r| ==> r[k] < n
    ensures forall k :: 0 <= k < |r| ==> costs.columns[0] in costs.rows[r[k]] && costs.rows[r[k]][costs.columns[0]] == Num(id as real)
  {
    if n == 0 then []
    else
      MatchingCostRows(costs, id, n - 1)
      + (if costs.columns[0] in costs.rows[n - 1] && costs.rows[n - 1][costs.columns[0]] == Num(id as real) then [n - 1] else [])
  }

  /** One compiled cell: the area row's, else the given cost row's under its new name, else NaN. */
  function JoinedCell(area: map<string, Cell>, costs: Sheet, match_: Option<nat>, c: string): Cell
    requires match_.Some? ==> match_.value < |costs.rows|
  {
    if c in area then area[c]
    else if match_.Some? then CostCell(costs.rows[match_.value], c)
    else Blank
  }

  /** One compiled row: the area row's cells and, under their new names, the given cost row's (NaN for none). */
  function JoinedRow(area: map<string, Cell>, costs: Sheet, match_: Option<nat>, cols: seq<string>): (row: map<string, Cell>)
    requires match_.Some? ==> match_.value < |costs.rows|
    ensures row.Keys == ColumnSet(cols)
    ensures forall c :: c in cols && c in area ==> row[c] == area[c]
  {
    if cols == [] then map[]
    else
      var front, last := cols[..|cols| - 1], cols[|cols| - 1];
      assert cols == front + [last];
      JoinedRow(area, costs, match_, front)[last := JoinedCell(area, costs, match_, last)]
  }

  function ColumnSet(cols: seq<string>): (s: set<string>)
    ensures forall c :: c in s <==> c in cols
  {
    set c | c in cols
  }

  /** The cost row's cell under a compiled column name. */
  function CostCell(row: map<string, Cell>, c: string): Cell
  {
    if "Cost_Mean_Inv" in row && c == "Investment (USD/m2)" then row["Cost_Mean_Inv"]
    else if "Cost_Mean_M" in row && c == "O&M (USD/m2/year)" then row["Cost_Mean_M"]
    else if "Cost_Mean_Total" in row && c == "Total Cost (USD/m2)" then row["Cost_Mean_Total"]
    else Blank
  }

  /** The rows of one area row in the left merge: one per matching cost row, or one with NaN costs. */
  function MergedRowsOf(area: map<string, Cell>, id: nat, costs: Sheet, cols: seq<string>): (r: seq<map<string, Cell>>)
    requires |costs.columns| > 0
    ensures |r| >= 1
    ensures forall m :: 0 <= m < |r| ==> r[m].Keys == ColumnSet(cols)
    ensures forall c :: c in cols && c in area ==> c in r[0] && r[0][c] == area[c]
  {
    var ms := MatchingCostRows(costs, id, |costs.rows|);
    if ms == [] then [JoinedRow(area, costs, None, cols)]
    else JoinedRows(area, costs, ms, cols)
  }

  /** One joined row per matching cost row, in order. */
  function JoinedRows(area: map<string, Cell>, costs: Sheet, ms: seq<nat>, cols: seq<string>): (r: seq<map<string, Cell>>)
    requires forall k :: 0 <= k < |ms| ==> ms[k] < |costs.rows|
    ensures |r| == |ms|
    ensures forall m :: 0 <= m < |r| ==> r[m].Keys == ColumnSet(cols)
    ensures forall m, c :: 0 <= m < |r| && c in cols && c in area ==> c in r[m] && r[m][c] == area[c]
  {
    if ms == [] then [] else [JoinedRow(area, costs, Some(ms[0]), cols)] + JoinedRows(area, costs, ms[1..], cols)
  }

  /** The blocks of rows, block after block. */
  function Concat<T>(blocks: seq<seq<T>>): seq<T>
  {
    if blocks == [] then [] else Concat(blocks[..|blocks| - 1]) + blocks[|blocks| - 1]
  }

  /** The blocks before block `k` (then before `k + 1`) make a prefix of the whole. */
  lemma {:induction false} ConcatPrefix<T>(blocks: seq<seq<T>>, k: nat)
    requires k <= |blocks|
    ensures |Concat(blocks[..k])| <= |Concat(blocks)|
    ensures Concat(blocks)[..|Concat(blocks[..k])|] == Concat(blocks[..k])
    decreases |blocks|
  {
    if k == |blocks| {
      assert blocks[..k] == blocks;
    } else {
      var front := blocks[..|blocks| - 1];
      assert front[..k] == blocks[..k];
      ConcatPrefix(front, k);
      var m := |Concat(blocks[..k])|;
      assert Concat(blocks) == Concat(front) + blocks[|blocks| - 1];
      assert Concat(blocks)[..m] == Concat(front)[..m];
    }
  }

  /** Block `k` starts right after the blocks before it. */
  lemma ConcatStep<T>(blocks: seq<seq<T>>, k: nat)
    requires k < |blocks|
    ensures Concat(blocks[..k + 1]) == Concat(blocks[..k]) + blocks[k]
  {
    assert blocks[..k + 1][..k] == blocks[..k];
  }

  /** The first row of a non-empty block `k` sits at the total length of the blocks before it. */
  lemma ConcatBlockStart<T>(blocks: seq<seq<T>>, k: nat)
    requires k < |blocks| && |blocks[k]| > 0
    ensures |Concat(blocks[..k])| < |Concat(blocks)|
    ensures Concat(blocks)[|Concat(blocks[..k])|] == blocks[k][0]
  {
    ConcatStep(blocks, k);
    ConcatPrefix(blocks, k + 1);
    var whole, next := Concat(blocks), Concat(blocks[..k + 1]);
    assert whole[|Concat(blocks[..k])|] == whole[..|next|][|Concat(blocks[..k])|];
  }

  /** With non-empty blocks, later blocks start strictly later. */
  lemma {:induction false} ConcatStartsIncrease<T>(blocks: seq<seq<T>>, k: nat, l: nat)
    requires k < l <= |blocks|
    requires forall b :: 0 <= b < |blocks| ==> |blocks[b]| > 0
    ensures |Concat(blocks[..k])| < |Concat(blocks[..l])|
    decreases l - k
  {
    ConcatStep(blocks, k);
    if k + 1 < l {
      ConcatStartsIncrease(blocks, k + 1, l);
    }
  }

  /** A property held by every row of every block holds for every row of the whole. */
  lemma {:induction false} ConcatAll<T>(blocks: seq<seq<T>>, p: T -> bool)
    requires forall b, j :: 0 <= b < |blocks| && 0 <= j < |blocks[b]| ==> p(blocks[b][j])
    ensures forall i :: 0 <= i < |Concat(blocks)| ==> p(Concat(blocks)[i])
  {
    if blocks != [] {
      var front, last := blocks[..|blocks| - 1], blocks[|blocks| - 1];
      ConcatAll(front, p);
      var whole := Concat(blocks);
      assert whole == Concat(front) + last;
      forall i | 0 <= i < |whole|
        ensures p(whole[i])
      {
        if i >= |Concat(front)| {
          assert whole[i] == last[i - |Concat(front)|];
        }
      }
    }
  }

  /** With non-empty blocks, the whole has at least one row per block. */
  lemma {:induction false} ConcatLength<T>(blocks: seq<seq<T>>)
    requires forall b :: 0 <= b < |blocks| ==> |blocks[b]| > 0
    ensures |Concat(blocks)| >= |blocks|
  {
    if blocks != [] {
      ConcatLength(blocks[..|blocks| - 1]);
    }
  }

  /** The merged block of each area row, in area-row order; `None` if some Code has no number. */
  function MergeBlocks(areas: Sheet, costs: Sheet, cols: seq<string>): (r: Option<seq<seq<map<string, Cell>>>>)
    requires |costs.columns| > 0
    ensures r.Some? <==> forall k :: 0 <= k < |areas.rows| ==> AreaId(areas.rows[k]).Some?
    ensures r.Some? ==> |r.value| == |areas.rows|
    ensures r.Some? ==> forall k :: 0 <= k < |areas.rows| ==>
      r.value[k] == MergedRowsOf(areas.rows[k], AreaId(areas.rows[k]).value, costs, cols)
  {
    if forall k :: 0 <= k < |areas.rows| ==> AreaId(areas.rows[k]).Some? then
      Some(seq(|areas.rows|, k requires 0 <= k < |areas.rows| => MergedRowsOf(areas.rows[k], AreaId(areas.rows[k]).value, costs, cols)))
    else None
  }

  /** The left merge `merge(areas, costs, how='left')`: the area rows' blocks one after another. */
  function LeftMerge(areas: Sheet, costs: Sheet, cols: seq<string>): (r: Option<seq<map<string, Cell>>>)
    requires |costs.columns| > 0
    ensures r.Some? <==> forall k :: 0 <= k < |areas.rows| ==> AreaId(areas.rows[k]).Some?
  {
    match MergeBlocks(areas, costs, cols)
    case None => None
    case Some(blocks) => Some(Concat(blocks))
  }

  /** Where area row `k`'s block starts in the merge. */
  function BlockStart(areas: Sheet, costs: Sheet, cols: seq<string>, k: nat): nat
    requires |costs.columns| > 0 && MergeBlocks(areas, costs, cols).Some? && k <= |areas.rows|
  {
    |Concat(MergeBlocks(areas, costs, cols).value[..k])|
  }

  /** The merge holds at least one row per area row, each with exactly the compiled columns. */
  lemma LeftMergeRows(areas: Sheet, costs: Sheet, cols: seq<string>)
    requires |costs.columns| > 0 && LeftMerge(areas, costs, cols).Some?
    ensures var merged := LeftMerge(areas, costs, cols).value;
      |merged| >= |areas.rows| && forall i :: 0 <= i < |merged| ==> merged[i].Keys == ColumnSet(cols)
  {
    var blocks := MergeBlocks(areas, costs, cols).value;
    ConcatLength(blocks);
    ConcatAll(blocks, (row: map<string, Cell>) => row.Keys == ColumnSet(cols));
  }

  /** The blocks of the area rows follow area-row order: a later area row's block starts later. */
  lemma LeftMergeInAreaOrder(areas: Sheet, costs: Sheet, cols: seq<string>, k: nat, l: nat)
    requires |costs.columns| > 0 && MergeBlocks(areas, costs, cols).Some? && k < l <= |areas.rows|
    ensures BlockStart(areas, costs, cols, k) < BlockStart(areas, costs, cols, l)
  {
    ConcatStartsIncrease(MergeBlocks(areas, costs, cols).value, k, l);
  }

  /** The first merged row of an area row keeps its cell `c`. */
  lemma MergedFirstRow(area: map<string, Cell>, id: nat, costs: Sheet, cols: seq<string>, c: string)
    requires |costs.columns| > 0 && c in cols && c in area
    ensures var own := MergedRowsOf(area, id, costs, cols); c in own[0] && own[0][c] == area[c]
  {
  }

  /** Area row `k` opens its block of the merge, and its cell `c` is kept there. */
  lemma LeftMergeKeepsAreaRows(areas: Sheet, costs: Sheet, cols: seq<string>, k: nat, c: string)
    requires |costs.columns| > 0 && LeftMerge(areas, costs, cols).Some?
    requires k < |areas.rows| && c in cols && c in areas.rows[k]
    ensures var start, merged := BlockStart(areas, costs, cols, k), LeftMerge(areas, costs, cols).value;
      start < |merged| && c in merged[start] && merged[start][c] == areas.rows[k][c]
  {
    var blocks := MergeBlocks(areas, costs, cols).value;
    MergedFirstRow(areas.rows[k], AreaId(areas.rows[k]).value, costs, cols, c);
    ConcatBlockStart(blocks, k);
  }

  /** The number of disclaimer lines. */
  const DisclaimerCount: nat := 8

  /**
   * Disclaimer line `j`: blank, title, blank, the English notice, blank,
   * the Spanish notice, blank, the Portuguese notice.
   */
  function DisclaimerLine(j: nat): string
    requires j < DisclaimerCount
  {
    if j == 1 then "DISCLAIMER / AVISO LEGAL / AVISO LEGAL"
    else if j == 3 then "[EN] LEGAL NOTICE: The costs presented are reference values based on regional information. These data should be considered solely as comparative indicators to identify the relative order of magnitude among different Nature-based Solutions (NbS). For detailed economic analyses or investment decision-making, it is imperative to conduct specific technical-economic studies adapted to the local context of the area of interest. The authors assume no responsibility for improper use of this information or decisions made based solely on these indicative values."
    else if j == 5 then "[ES] AVISO LEGAL: Los costos presentados son valores referenciales basados en información regional. Estos datos deben considerarse únicamente como indicadores comparativos para identificar el orden de magnitud relativo entre diferentes Soluciones basadas en la Naturaleza (SbN). Para análisis económicos detallados o toma de decisiones de inversión, es imperativo realizar estudios técnico-económicos específicos adaptados al contexto local del área de interés. Los autores no asumen responsabilidad por el uso inadecuado de esta información o decisiones tomadas basándose únicamente en estos valores indicativos."
    else if j == 7 then "[PT] AVISO LEGAL: Os custos apresentados são valores referenciais baseados em informação regional. Estes dados devem ser considerados unicamente como indicadores comparativos para identificar a ordem de magnitude relativa entre diferentes Soluções baseadas na Natureza (SbN). Para análises econômicas detalhadas ou tomada de decisões de investimento, é imperativo realizar estudos técnico-econômicos específicos adaptados ao contexto local da área de interesse. Os autores não assumem responsabilidade pelo uso inadequado desta informação ou decisões tomadas baseando-se unicamente nestes valores indicativos."
    else ""
  }

  /** A disclaimer row padded with '' to every compiled column. */
  function DisclaimerRow(line: string, cols: seq<string>): (row: map<string, Cell>)
    requires |cols| > 0
    ensures row.Keys == ColumnSet(cols)
    ensures row[cols[0]] == Text(line)
  {
    map c | c in ColumnSet(cols) :: if c == cols[0] then Text(line) else Text("")
  }

  /** The disclaimer rows appended after the merged rows. */
  function DisclaimerTail(cols: seq<string>): (tail: seq<map<string, Cell>>)
    requires |cols| > 0
    ensures |tail| == DisclaimerCount
    ensures forall j :: 0 <= j < |tail| ==> tail[j].Keys == ColumnSet(cols) && tail[j][cols[0]] == Text(DisclaimerLine(j))
  {
    seq(DisclaimerCount, j requires 0 <= j < DisclaimerCount => DisclaimerRow(DisclaimerLine(j), cols))
  }

  /** The compiled table over the columns `cols`: the left merge, then the disclaimer rows. */
  function CompiledTable(areas: Sheet, costs: Sheet, cols: seq<string>): (r: Option<Sheet>)
    requires |costs.columns| > 0 && |cols| > 0
    ensures r.Some? <==> forall k :: 0 <= k < |areas.rows| ==> AreaId(areas.rows[k]).Some?
    ensures r.Some? ==> r.value.columns == cols
  {
    match LeftMerge(areas, costs, cols)
    case None => None
    case Some(merged) => Some(Sheet(cols, merged + DisclaimerTail(cols)))
  }

  /**
   * `compile_area_and_costs`: `None` for a file means it does not exist;
   * the result is the written table or `None` for a False return.
   */
  function CompileAreaAndCosts(areaCsv: Option<Sheet>, costCsv: Option<Sheet>): (r: Option<Sheet>)
    ensures areaCsv.None? || costCsv.None? ==> r.None?
    ensures r.Some? ==> |costCsv.value.columns| > 0
    ensures r.Some? ==> r.value.columns == CompiledColumns(areaCsv.value.columns, costCsv.value.columns)
    ensures r.Some? ==> r == CompiledTable(areaCsv.value, costCsv.value, r.value.columns)
    ensures areaCsv.Some? && costCsv.Some? && |costCsv.value.columns| > 0 ==>
      (r.Some? <==> forall k :: 0 <= k < |areaCsv.value.rows| ==> AreaId(areaCsv.value.rows[k]).Some?)
  {
    if areaCsv.None? || costCsv.None? then None
    else
      var areas, costs := areaCsv.value, costCsv.value;
      if |costs.columns| == 0 then None
      else
        CompiledTable(areas, costs, CompiledColumns(areas.columns, costs.columns))
  }

  lemma IndexInBack<T>(s: seq<T>, front: seq<T>, back: seq<T>, i: nat)
    requires s == front + back && i < |back|
    ensures |s| == |front| + |back| && s[|front| + i] == back[i]
  {
  }

  lemma IndexInFront<T>(s: seq<T>, front: seq<T>, back: seq<T>, i: nat)
    requires s == front + back && i < |front|
    ensures s[i] == front[i]
  {
  }

  /** A compiled table is rectangular and holds at least one row per area row, then the disclaimer rows. */
  lemma CompiledIsRectangular(areas: Sheet, costs: Sheet, cols: seq<string>)
    requires |costs.columns| > 0 && |cols| > 0
    requires CompiledTable(areas, costs, cols).Some?
    ensures var out := CompiledTable(areas, costs, cols).value;
      Rectangular(out) && |out.rows| >= |areas.rows| + DisclaimerCount
  {
    var out := CompiledTable(areas, costs, cols).value;
    var merged := LeftMerge(areas, costs, cols).value;
    var tail := DisclaimerTail(cols);
    LeftMergeRows(areas, costs, cols);
    assert ColumnSet(cols) == set c | c in cols;
    forall i | 0 <= i < |out.rows|
      ensures out.rows[i].Keys == set c | c in cols
    {
      if i < |merged| {
        IndexInFront(out.rows, merged, tail, i);
      } else {
        IndexInBack(out.rows, merged, tail, i - |merged|);
      }
    }
  }

  /** A compiled table ends with the 8 disclaimer lines in its first column. */
  lemma CompiledEndsWithDisclaimer(areas: Sheet, costs: Sheet, cols: seq<string>, k: nat)
    requires |costs.columns| > 0 && |cols| > 0
    requires CompiledTable(areas, costs, cols).Some? && k < DisclaimerCount
    ensures var out := CompiledTable(areas, costs, cols).value;
      |out.rows| >= DisclaimerCount && out.rows[|out.rows| - DisclaimerCount + k][cols[0]] == Text(DisclaimerLine(k))
  {
    var out := CompiledTable(areas, costs, cols).value;
    IndexInBack(out.rows, LeftMerge(areas, costs, cols).value, DisclaimerTail(cols), k);
  }

  /** Every Area.csv row opens its block of a compiled table, before the disclaimer, with its cells under the compiled columns unchanged. */
  lemma CompiledKeepsAreaRows(areas: Sheet, costs: Sheet, cols: seq<string>, k: nat, c: string)
    requires |costs.columns| > 0 && |cols| > 0
    requires CompiledTable(areas, costs, cols).Some?
    requires k < |areas.rows| && c in cols && c in areas.rows[k]
    ensures MergeBlocks(areas, costs, cols).Some?
    ensures var out, start := CompiledTable(areas, costs, cols).value, BlockStart(areas, costs, cols, k);
      && start < |out.rows| - DisclaimerCount
      && c in out.rows[start] && out.rows[start][c] == areas.rows[k][c]
  {
    var out := CompiledTable(areas, costs, cols).value;
    LeftMergeKeepsAreaRows(areas, costs, cols, k, c);
    IndexInFront(out.rows, LeftMerge(areas, costs, cols).value, DisclaimerTail(cols), BlockStart(areas, costs, cols, k));
  }
}
