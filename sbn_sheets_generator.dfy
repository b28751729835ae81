/**
 * The cost part of the SbN technical sheets: minimum and maximum costs of
 * each SbN placed into the Categorias_Costos ranges and labelled in the
 * sheet's language, plus the cell searches on the Fichas worksheet.
 */
module SbnSheetsGenerator {
  import opened Wrappers
  import opened PyNum
  import opened CostProcessor
  import opened PyParse

  /** CATEGORY_LABELS: the label of category 1..5 in Spanish, English or Portuguese. */
  function LabelTable(language: string): Option<map<int, string>>
  {
    if language == "es" then Some(map[1 := "Muy bajo", 2 := "Bajo", 3 := "Medio", 4 := "Alto", 5 := "Muy alto"])
    else if language == "en" then Some(map[1 := "Very low", 2 := "Low", 3 := "Medium", 4 := "High", 5 := "Very high"])
    else if language == "pt" then Some(map[1 := "Muito baixo", 2 := "Baixo", 3 := "Médio", 4 := "Alto", 5 := "Muito alto"])
    else None
  }

  /** A label table exists exactly for the three languages, keyed by the categories 1..5. */
  lemma LabelTableLanguages(language: string)
    ensures LabelTable(language).Some? <==> language in Languages
    ensures LabelTable(language).Some? ==> LabelTable(language).value.Keys == {1, 2, 3, 4, 5}
  {
  }

  /** The label of a category with no label. */
  const NoLabel := "N/A"

  /** `labels.get(category, 'N/A')` on the table of the language; no table is a KeyError. */
  function LabelIn(labels: Option<map<int, string>>, category: int): Result<string>
  {
    match labels
    case None => Err(KeyError)
    case Some(t) => Ok(if category in t then t[category] else NoLabel)
  }

  /** `CATEGORY_LABELS[language].get(category, 'N/A')`; an unknown language is a KeyError. */
  function CategoryLabel(language: string, category: int): Result<string>
  {
    LabelIn(LabelTable(language), category)
  }

  /** An unknown language raises; a category outside 1..5 has no label, one inside has a real one. */
  lemma CategoryLabelCases(language: string, category: int)
    ensures var r := CategoryLabel(language, category);
      && (r.Ok? <==> language in Languages)
      && (r.Ok? && !(1 <= category <= 5) ==> r.value == NoLabel)
      && (r.Ok? && 1 <= category <= 5 ==> r.value != NoLabel)
  {
    LabelTableLanguages(language);
  }

  /** The five labels of a language are distinct, so a label names its category. */
  lemma LabelsDistinct(language: string, a: int, b: int)
    requires language in Languages && 1 <= a <= 5 && 1 <= b <= 5 && a != b
    ensures CategoryLabel(language, a).Ok? && CategoryLabel(language, b).Ok?
    ensures CategoryLabel(language, a).value != CategoryLabel(language, b).value
  {
  }

  /** The exceptions the categorisation can raise, and the column that names an SbN. */
  const KeyError := "KeyError"
  const ValueError := "ValueError"
  const IndexError := "IndexError"
  const AttributeError := "AttributeError"
  const IdColumn := "ID"

  /** The languages CATEGORY_LABELS knows. */
  const Languages: set<string> := {"es", "en", "pt"}

  const Investment := "investment"
  const Maintenance := "maintenance"
  const InvestmentColumns := ("Cost_Min_Inv", "Cost_Max_Inv", "Inv_Min", "Inv_Max")
  const MaintenanceColumns := ("Cost_Min_M", "Cost_Max_M", "Man_Min", "Man_Max")
  const TotalColumns := ("Cost_Min_Total", "Cost_Max_Total", "Total_Min", "Total_Max")

  /** (min cost, max cost, range min, range max) columns of a financial option; Total by default. */
  function MinMaxColumns(option: string): (r: (string, string, string, string))
    ensures option == Investment ==> r == InvestmentColumns
    ensures option == Maintenance ==> r == MaintenanceColumns
    ensures option != Investment && option != Maintenance ==> r == TotalColumns
    ensures (r.2, r.3) == (OptionColumns(option).1, OptionColumns(option).2)
  {
    if option == Investment then InvestmentColumns
    else if option == Maintenance then MaintenanceColumns
    else TotalColumns
  }

  /**
   * The cost columns actually read: the option's pair when both exist,
   * otherwise one column for both ends (Cost_Mean_Inv, or the third column;
   * a sheet with fewer columns is an IndexError).
   */
  function CostColumnsUsed(option: string, columns: seq<string>): (r: Result<(string, string)>)
    ensures MinMaxColumns(option).0 in columns && MinMaxColumns(option).1 in columns ==>
              r == Ok((MinMaxColumns(option).0, MinMaxColumns(option).1))
    ensures !(MinMaxColumns(option).0 in columns && MinMaxColumns(option).1 in columns) && r.Ok? ==>
              (r.value.0 == r.value.1 && r.value.0 in columns
               && (r.value.0 == "Cost_Mean_Inv" || "Cost_Mean_Inv" !in columns))
    ensures r.Err? <==> !(MinMaxColumns(option).0 in columns && MinMaxColumns(option).1 in columns)
                        && "Cost_Mean_Inv" !in columns && |columns| <= 2
  {
    var (minCol, maxCol, _, _) := MinMaxColumns(option);
    if minCol in columns && maxCol in columns then Ok((minCol, maxCol))
    else if "Cost_Mean_Inv" in columns then Ok(("Cost_Mean_Inv", "Cost_Mean_Inv"))
    else if |columns| > 2 then Ok((columns[2], columns[2]))
    else Err(IndexError)
  }

  /** This file's `_find_category`: NaN gives 1, then the first inclusive range, then the top category. */
  function SheetCategory(v: Option<real>, table: seq<CategoryRow>, minCol: string, maxCol: string): (r: Option<int>)
    ensures v.None? ==> r == Some(1)
    ensures v.Some? ==> r == CategoryOf(table, v.value, minCol, maxCol)
  {
    if v.None? then Some(1) else CategoryOf(table, v.value, minCol, maxCol)
  }

  /** One entry of `cost_categories_map`. */
  datatype CostEntry = CostEntry(minCat: string, maxCat: string, minNum: int, maxNum: int)

  /** The entry a cost row gets, or the exception computing it raises. */
  type RowEntry = map<string, Cell> -> Result<CostEntry>

  /**
   * What categorising a row needs besides its cells: the category sheet,
   * its range columns for the financial option and the label table of the
   * language (`None` when CATEGORY_LABELS has no such language). The sheet
   * is `None` while `df_categories` was never loaded.
   */
  datatype Categorizer = Categorizer(table: Option<seq<CategoryRow>>, catMin: string, catMax: string,
                                     labels: Option<map<int, string>>)

  /** The categorizer of a category sheet, a financial option and a language. */
  function CategorizerFor(table: Option<seq<CategoryRow>>, option: string, language: string): (c: Categorizer)
    ensures c.table == table && (c.catMin, c.catMax) == (MinMaxColumns(option).2, MinMaxColumns(option).3)
    ensures c.labels.Some? <==> language in Languages
  {
    LabelTableLanguages(language);
    Categorizer(table, MinMaxColumns(option).2, MinMaxColumns(option).3, LabelTable(language))
  }

  /** `pd.to_numeric(row.get(col), errors='coerce')`: a missing column reads as NaN. */
  function CellValue(row: map<string, Cell>, col: string): (v: Option<real>)
    ensures col in row ==> v == ToNumeric(row[col])
    ensures col !in row ==> v.None?
  {
    if col in row then ToNumeric(row[col]) else None
  }

  /**
   * `_find_category` on the generator's category sheet: NaN gives 1 without
   * reading the sheet; any other value reads it, which raises AttributeError
   * when the sheet was never loaded.
   */
  function RowCategory(v: Option<real>, c: Categorizer): (r: Result<int>)
    ensures v.None? ==> r == Ok(1)
    ensures v.Some? && c.table.None? ==> r == Err(AttributeError)
    ensures c.table.Some? ==> (r.Ok? <==> SheetCategory(v, c.table.value, c.catMin, c.catMax).Some?)
    ensures c.table.Some? && r.Ok? ==> Some(r.value) == SheetCategory(v, c.table.value, c.catMin, c.catMax)
  {
    if v.None? then Ok(1)
    else if c.table.None? then Err(AttributeError)
    else
      match SheetCategory(v, c.table.value, c.catMin, c.catMax)
      case None => Err(ValueError)
      case Some(k) => Ok(k)
  }

  /** The entry of one cost row; `Err` is an exception that escapes the categorisation. */
  function EntryFor(row: map<string, Cell>, cols: (string, string), c: Categorizer): Result<CostEntry>
  {
    var lo := RowCategory(CellValue(row, cols.0), c);
    var hi := RowCategory(CellValue(row, cols.1), c);
    if lo.Err? then Err(lo.error)
    else if hi.Err? then Err(hi.error)
    else
      match (LabelIn(c.labels, lo.value), LabelIn(c.labels, hi.value))
      case (Ok(a), Ok(b)) => Ok(CostEntry(a, b, lo.value, hi.value))
      case _ => Err(KeyError)
  }

  /** The entry each cost row gets under the cost columns read and a categorizer. */
  function EntryOf(cols: (string, string), c: Categorizer): RowEntry
  {
    row => EntryFor(row, cols, c)
  }

  /** The entry holds the categories of the row's two cost cells and their labels. */
  lemma EntryForCategories(row: map<string, Cell>, cols: (string, string), table: seq<CategoryRow>,
                           option: string, language: string)
    ensures var r := EntryFor(row, cols, CategorizerFor(Some(table), option, language));
      var (_, _, catMin, catMax) := MinMaxColumns(option);
      r.Ok? ==>
        && Some(r.value.minNum) == SheetCategory(CellValue(row, cols.0), table, catMin, catMax)
        && Some(r.value.maxNum) == SheetCategory(CellValue(row, cols.1), table, catMin, catMax)
        && CategoryLabel(language, r.value.minNum) == Ok(r.value.minCat)
        && CategoryLabel(language, r.value.maxNum) == Ok(r.value.maxCat)
  {
  }

  /** When both ends fall back to one column, the minimum and maximum categories coincide. */
  lemma FallbackCategoriesCoincide(row: map<string, Cell>, option: string, columns: seq<string>,
                                   table: Option<seq<CategoryRow>>, language: string)
    requires CostColumnsUsed(option, columns).Ok?
    requires !(MinMaxColumns(option).0 in columns && MinMaxColumns(option).1 in columns)
    ensures var e := EntryFor(row, CostColumnsUsed(option, columns).value, CategorizerFor(table, option, language));
      e.Ok? ==> e.value.minNum == e.value.maxNum && e.value.minCat == e.value.maxCat
  {
  }

  /**
   * Without the category sheet a row gets through exactly when both of its
   * costs are NaN and the language is known; both categories are then 1.
   */
  lemma UnloadedTableNeedsNaNCosts(row: map<string, Cell>, cols: (string, string), option: string, language: string)
    ensures var e := EntryFor(row, cols, CategorizerFor(None, option, language));
      && (e.Ok? <==> CellValue(row, cols.0).None? && CellValue(row, cols.1).None? && language in Languages)
      && (e.Ok? ==> e.value.minNum == 1 && e.value.maxNum == 1)
      && (CellValue(row, cols.0).Some? ==> e == Err(AttributeError))
  {
    LabelTableLanguages(language);
  }

  /** `row['ID']`, or `None` where it raises KeyError. */
  function IdOf(row: map<string, Cell>): Option<Cell>
  {
    if IdColumn in row then Some(row[IdColumn]) else None
  }

  /**
   * `cost_categories_map` after the first `n` cost rows, over the entries
   * held before: each row reads its ID first, then its entry.
   */
  function MapUpTo(base: map<Cell, CostEntry>, rows: seq<map<string, Cell>>, n: nat, entry: RowEntry): Result<map<Cell, CostEntry>>
    requires n <= |rows|
  {
    if n == 0 then Ok(base)
    else
      match MapUpTo(base, rows, n - 1, entry)
      case Err(e) => Err(e)
      case Ok(m) =>
        if IdOf(rows[n - 1]).None? then Err(KeyError)
        else
          match entry(rows[n - 1])
          case Err(e) => Err(e)
          case Ok(entry) => Ok(m[IdOf(rows[n - 1]).value := entry])
  }

  /** On success every row read has an ID, and the map gets exactly one key per ID, on top of the keys held before. */
  lemma {:induction false} MapUpToKeys(base: map<Cell, CostEntry>, rows: seq<map<string, Cell>>, n: nat, entry: RowEntry)
    requires n <= |rows|
    requires MapUpTo(base, rows, n, entry).Ok?
    ensures forall i :: 0 <= i < n ==> IdOf(rows[i]).Some?
    ensures MapUpTo(base, rows, n, entry).value.Keys == base.Keys + set i | 0 <= i < n :: IdOf(rows[i]).value
  {
    if n > 0 {
      MapUpToKeys(base, rows, n - 1, entry);
      IdSetSnoc(rows, n);
    }
  }

  /** The IDs of the first `n` rows are those of the first `n - 1` and the last one. */
  lemma IdSetSnoc(rows: seq<map<string, Cell>>, n: nat)
    requires 0 < n <= |rows|
    requires forall i :: 0 <= i < n ==> IdOf(rows[i]).Some?
    ensures (set i | 0 <= i < n :: IdOf(rows[i]).value)
            == (set i | 0 <= i < n - 1 :: IdOf(rows[i]).value) + {IdOf(rows[n - 1]).value}
  {
  }

  /** Each ID gets the entry of the last cost row that carries it. */
  lemma {:induction false} LastRowEntry(base: map<Cell, CostEntry>, rows: seq<map<string, Cell>>, n: nat, entry: RowEntry, i: nat)
    requires i < n <= |rows|
    requires forall k :: i < k < n ==> IdOf(rows[k]) != IdOf(rows[i])
    requires MapUpTo(base, rows, n, entry).Ok?
    ensures entry(rows[i]).Ok? && IdOf(rows[i]).Some?
    ensures IdOf(rows[i]).value in MapUpTo(base, rows, n, entry).value
    ensures MapUpTo(base, rows, n, entry).value[IdOf(rows[i]).value] == entry(rows[i]).value
  {
    if i < n - 1 {
      LastRowEntry(base, rows, n - 1, entry, i);
    }
  }

  /**
   * How many of the first `n` cost rows store their entry: all of them, or
   * those before the first row that raises.
   */
  function RowsStored(base: map<Cell, CostEntry>, rows: seq<map<string, Cell>>, n: nat, entry: RowEntry): (k: nat)
    requires n <= |rows|
    ensures k <= n
    ensures MapUpTo(base, rows, k, entry).Ok?
    ensures k < n ==> MapUpTo(base, rows, k + 1, entry).Err?
    ensures k == n <==> MapUpTo(base, rows, n, entry).Ok?
  {
    if MapUpTo(base, rows, n, entry).Ok? then n else RowsStored(base, rows, n - 1, entry)
  }

  /** The rows stored are exactly those before the row that raises first. */
  lemma {:induction false} RowsStoredAt(base: map<Cell, CostEntry>, rows: seq<map<string, Cell>>, k: nat, n: nat,
                                        entry: RowEntry)
    requires k < n <= |rows|
    requires MapUpTo(base, rows, k, entry).Ok? && MapUpTo(base, rows, k + 1, entry).Err?
    ensures RowsStored(base, rows, n, entry) == k
  {
    MapUpToStopsAt(base, rows, k + 1, n, entry);
    if k + 1 < n {
      RowsStoredAt(base, rows, k, n - 1, entry);
    }
  }

  // ---------------------------------------------------------------------
  // Cell searches on the Fichas worksheet
  // ---------------------------------------------------------------------

  /** A worksheet as the cells that hold something; an address not in the map is empty. */
  type Worksheet = map<string, Cell>

  function CellAt(ws: Worksheet, address: string): Cell
  {
    if address in ws then ws[address] else Blank
  }

  const SelectorCandidates: seq<string> := ["B2", "C2", "D2", "E2"]

  /** `value and isinstance(value, (int, float))`: a non-zero number. */
  predicate IsSelector(c: Cell) { c.Num? && c.x != 0.0 }

  /** `_find_selector_cell`: the first of B2..E2 holding a non-zero number, else B2. */
  method FindSelectorCell(ws: Worksheet) returns (r: string)
    ensures r in SelectorCandidates
    ensures r != "B2" ==> IsSelector(CellAt(ws, r))
    ensures forall k :: 0 <= k < |SelectorCandidates| && SelectorCandidates[k] == r && IsSelector(CellAt(ws, r)) ==>
              forall j :: 0 <= j < k ==> !IsSelector(CellAt(ws, SelectorCandidates[j]))
    ensures (forall j :: 0 <= j < |SelectorCandidates| ==> !IsSelector(CellAt(ws, SelectorCandidates[j]))) ==> r == "B2"
    ensures (exists j :: 0 <= j < |SelectorCandidates| && IsSelector(CellAt(ws, SelectorCandidates[j]))) ==>
              IsSelector(CellAt(ws, r))
  {
    var k := 0;
    while k < |SelectorCandidates|
      invariant 0 <= k <= |SelectorCandidates|
      invariant forall j :: 0 <= j < k ==> !IsSelector(CellAt(ws, SelectorCandidates[j]))
    {
      if IsSelector(CellAt(ws, SelectorCandidates[k])) {
        return SelectorCandidates[k];
      }
      k := k + 1;
    }
    return "B2";
  }

  /** `None`, `''` or `'N/A'`. */
  predicate IsPlaceholder(c: Cell) { c == Blank || c == Text("") || c == Text("N/A") }

  predicate FreeCostRow(ws: Worksheet, row: nat)
  {
    IsPlaceholder(CellAt(ws, "L" + NatToString(row))) && IsPlaceholder(CellAt(ws, "M" + NatToString(row)))
  }

  /** `_find_cost_row`: the first row in 10..50 whose L and M cells are both free, else 20. */
  method FindCostRow(ws: Worksheet) returns (r: nat)
    ensures 10 <= r <= 50
    ensures FreeCostRow(ws, r) ==> forall row :: 10 <= row < r ==> !FreeCostRow(ws, row)
    ensures !FreeCostRow(ws, r) ==> r == 20 && forall row :: 10 <= row <= 50 ==> !FreeCostRow(ws, row)
  {
    var row := 10;
    while row <= 50
      invariant 10 <= row <= 51
      invariant forall k :: 10 <= k < row ==> !FreeCostRow(ws, k)
    {
      if IsPlaceholder(CellAt(ws, "L" + NatToString(row))) && IsPlaceholder(CellAt(ws, "M" + NatToString(row))) {
        return row;
      }
      row := row + 1;
    }
    return 20;
  }

  /** `df_sbn['ID'].notna()`: the IDs of the SbN sheet without its empty cells, in order. */
  function PresentIds(ids: seq<Cell>): (r: seq<Cell>)
    ensures forall c :: c in r <==> c in ids && !c.Blank?
    ensures |r| <= |ids|
    ensures (forall i :: 0 <= i < |ids| ==> !ids[i].Blank?) ==> r == ids
  {
    if ids == [] then []
    else if ids[0].Blank? then PresentIds(ids[1..])
    else [ids[0]] + PresentIds(ids[1..])
  }

  /** `int(ID)`: a number truncates toward zero, text parses as a decimal integer; `None` is the ValueError. */
  function IdValue(c: Cell): (r: Option<int>)
    ensures c.Num? ==> r == Some(Trunc(c.x))
    ensures c.Text? ==> r == ParseInt(c.s)
    ensures c.Blank? ==> r.None?
  {
    match c
    case Num(x) => Some(Trunc(x))
    case Text(t) => ParseInt(t)
    case Blank => None
  }

  /**
   * The loop building `sbn_list`: `int(ID)` of every present ID, in row
   * order; an ID `int` cannot convert fails the step.
   */
  method SbnList(ids: seq<Cell>) returns (r: Option<seq<int>>)
    ensures r.Some? <==> forall i :: 0 <= i < |ids| && !ids[i].Blank? ==> IdValue(ids[i]).Some?
    ensures r.Some? ==> |r.value| == |PresentIds(ids)|
    ensures r.Some? ==> forall k :: 0 <= k < |r.value| ==> Some(r.value[k]) == IdValue(PresentIds(ids)[k])
  {
    var present := PresentIds(ids);
    var list: seq<int> := [];
    for k := 0 to |present|
      invariant |list| == k
      invariant forall j :: 0 <= j < k ==> Some(list[j]) == IdValue(present[j])
    {
      var v := IdValue(present[k]);
      if v.None? {
        assert present[k] in ids;
        return None;
      }
      list := list + [v.value];
    }
    forall i | 0 <= i < |ids| && !ids[i].Blank? ensures IdValue(ids[i]).Some? {
      assert ids[i] in present;
    }
    return Some(list);
  }

  // ---------------------------------------------------------------------
  // The generator
  // ---------------------------------------------------------------------

  /** A generator for one project: the loaded sheets and the categories map it fills. */
  class SheetsGenerator {
    const language: string
    const financialOption: string
    var costSheet: Option<Sheet>
    var categoryTable: Option<seq<CategoryRow>>
    var costCategories: map<Cell, CostEntry>

    constructor(language: string, financialOption: string)
      ensures this.language == language && this.financialOption == financialOption
      ensures costSheet.None? && categoryTable.None? && costCategories == map[]
    {
      this.language := language;
      this.financialOption := financialOption;
      costSheet := None;
      categoryTable := None;
      costCategories := map[];
    }

    /**
     * `load_cost_data`: the Cost sheet is read, then Categorias_Costos;
     * `None` stands for a read that raised. A failed second read leaves the
     * Cost sheet loaded.
     */
    method LoadCostData(costRead: Option<Sheet>, categoriesRead: Option<seq<CategoryRow>>) returns (ok: bool)
      modifies this
      ensures ok <==> costRead.Some? && categoriesRead.Some?
      ensures costSheet == if costRead.Some? then costRead else old(costSheet)
      ensures categoryTable == if ok then categoriesRead else old(categoryTable)
      ensures costCategories == old(costCategories)
    {
      if costRead.None? {
        return false;
      }
      costSheet := costRead;
      if categoriesRead.None? {
        return false;
      }
      categoryTable := categoriesRead;
      return true;
    }

    /**
     * `categorize_costs_min_max`: the entry of every cost row is written
     * under its ID, row after row. `Err` is an exception the method does
     * not catch: the cost sheet was never loaded (AttributeError), it is
     * too narrow, a row has no ID, the language is unknown, or a row needs
     * a category sheet that was never loaded or has no usable category.
     * The rows stored before such an exception stay in the map.
     */
    method CategorizeCostsMinMax() returns (r: Result<bool>)
      modifies this
      ensures costSheet == old(costSheet) && categoryTable == old(categoryTable)
      ensures old(costSheet).None? ==> r == Err(AttributeError) && costCategories == old(costCategories)
      ensures old(costSheet).Some? ==>
        (r.Ok? <==> CategorizeSucceeds(old(costSheet).value, old(categoryTable), financialOption, language,
                                       old(costCategories)))
      ensures r.Ok? ==> r.value
      ensures old(costSheet).Some? ==>
        var s := old(costSheet).value;
        var cols := CostColumnsUsed(financialOption, s.columns);
        var c := CategorizerFor(old(categoryTable), financialOption, language);
        && (cols.Err? ==> r == Err(cols.error) && costCategories == old(costCategories))
        && (cols.Ok? ==>
              var all := MapUpTo(old(costCategories), s.rows, |s.rows|, EntryOf(cols.value, c));
              && (all.Ok? ==> r == Ok(true) && costCategories == all.value)
              && (all.Err? ==> r == Err(all.error)
                               && costCategories == MapUpTo(old(costCategories), s.rows,
                                                            RowsStored(old(costCategories), s.rows, |s.rows|, EntryOf(cols.value, c)),
                                                            EntryOf(cols.value, c)).value))
    {
      if costSheet.None? {
        return Err(AttributeError);
      }
      var s := costSheet.value;
      var cols := CostColumnsUsed(financialOption, s.columns);
      if cols.Err? {
        return Err(cols.error);
      }
      var c := CategorizerFor(categoryTable, financialOption, language);
      r := StoreEntries(s.rows, EntryOf(cols.value, c));
    }

    /**
     * The loop over the cost rows: each row's entry is stored under its ID
     * until a row raises; the map keeps the rows stored before it.
     */
    method StoreEntries(rows: seq<map<string, Cell>>, entry: RowEntry) returns (r: Result<bool>)
      modifies this
      ensures costSheet == old(costSheet) && categoryTable == old(categoryTable)
      ensures var all := MapUpTo(old(costCategories), rows, |rows|, entry);
        && (all.Ok? ==> r == Ok(true) && costCategories == all.value)
        && (all.Err? ==> r == Err(all.error))
      ensures costCategories
              == MapUpTo(old(costCategories), rows, RowsStored(old(costCategories), rows, |rows|, entry), entry).value
    {
      var base := costCategories;
      for i := 0 to |rows|
        invariant costSheet == old(costSheet) && categoryTable == old(categoryTable)
        invariant MapUpTo(base, rows, i, entry) == Ok(costCategories)
      {
        var next := CategorizeRow(base, rows, i, entry, costCategories);
        if next.Err? {
          RowsStoredAt(base, rows, i, |rows|, entry);
          return Err(next.error);
        }
        costCategories := next.value;
      }
      return Ok(true);
    }
  }

  /**
   * Whether `categorize_costs_min_max` gets through a loaded cost sheet:
   * the sheet has the cost columns it reads and no cost row raises.
   */
  predicate CategorizeSucceeds(s: Sheet, table: Option<seq<CategoryRow>>, option: string, language: string,
                               base: map<Cell, CostEntry>)
  {
    && CostColumnsUsed(option, s.columns).Ok?
    && MapUpTo(base, s.rows, |s.rows|,
               EntryOf(CostColumnsUsed(option, s.columns).value, CategorizerFor(table, option, language))).Ok?
  }

  /** One pass of the loop over the cost rows: the row's entry stored under its ID, or the exception it raises, which ends the loop. */
  method CategorizeRow(base: map<Cell, CostEntry>, rows: seq<map<string, Cell>>, i: nat, entry: RowEntry, m: map<Cell, CostEntry>)
    returns (next: Result<map<Cell, CostEntry>>)
    requires i < |rows|
    requires MapUpTo(base, rows, i, entry) == Ok(m)
    ensures next == MapUpTo(base, rows, i + 1, entry)
    ensures next.Err? ==> next == MapUpTo(base, rows, |rows|, entry)
  {
    MapUpToStep(base, rows, i, entry, m);
    if IdColumn !in rows[i] {
      MapUpToStopsAt(base, rows, i + 1, |rows|, entry);
      return Err(KeyError);
    }
    var id := rows[i][IdColumn];
    var e := entry(rows[i]);
    if e.Err? {
      MapUpToStopsAt(base, rows, i + 1, |rows|, entry);
      return Err(e.error);
    }
    next := Ok(m[id := e.value]);
  }

  /** One more row: its entry is stored under its ID, or its error ends the map. */
  lemma MapUpToStep(base: map<Cell, CostEntry>, rows: seq<map<string, Cell>>, n: nat,
                    entry: RowEntry, m: map<Cell, CostEntry>)
    requires n < |rows|
    requires MapUpTo(base, rows, n, entry) == Ok(m)
    ensures var e := entry(rows[n]);
      MapUpTo(base, rows, n + 1, entry)
        == if IdColumn !in rows[n] then Err(KeyError)
           else if e.Err? then Err(e.error)
           else Ok(m[rows[n][IdColumn] := e.value])
  {
  }

  /** Once a row raises, later rows are never reached. */
  lemma {:induction false} MapUpToStopsAt(base: map<Cell, CostEntry>, rows: seq<map<string, Cell>>, k: nat, n: nat,
                                          entry: RowEntry)
    requires k <= n <= |rows|
    requires MapUpTo(base, rows, k, entry).Err?
    ensures MapUpTo(base, rows, n, entry) == MapUpTo(base, rows, k, entry)
    decreases n - k
  {
    if k < n {
      MapUpToStopsAt(base, rows, k, n - 1, entry);
    }
  }

  /**
   * `process_all` as written: the categorisation runs even when loading
   * failed, where its first access to an unloaded sheet raises instead of
   * returning False. `sheetsOk` is what `generate_all_sheets` returns; the
   * result is the escaping exception or the success flag.
   */
  method ProcessAllAsWritten(g: SheetsGenerator, costRead: Option<Sheet>, categoriesRead: Option<seq<CategoryRow>>,
                             sheetsOk: bool)
    returns (r: Result<bool>)
    modifies g
    ensures g.costSheet == if costRead.Some? then costRead else old(g.costSheet)
    ensures g.categoryTable == if costRead.Some? && categoriesRead.Some? then categoriesRead else old(g.categoryTable)
    ensures g.costSheet.None? ==> r == Err(AttributeError)
    ensures g.costSheet.Some? ==>
      (r.Ok? <==> CategorizeSucceeds(g.costSheet.value, g.categoryTable, g.financialOption, g.language, old(g.costCategories)))
    ensures r.Ok? ==> r.value == (costRead.Some? && categoriesRead.Some? && sheetsOk)
  {
    var loaded := g.LoadCostData(costRead, categoriesRead);
    var categorized := g.CategorizeCostsMinMax();
    if categorized.Err? {
      return Err(categorized.error);
    }
    var success := loaded && categorized.value;
    if success {
      success := success && sheetsOk;
    }
    return Ok(success);
  }

  /** A fresh generator whose Cost sheet cannot be read makes `process_all` raise. */
  method LoadFailureRaises() returns (r: Result<bool>)
    ensures r == Err(AttributeError)
  {
    var g := new SheetsGenerator("es", "investment_and_maintenance");
    r := ProcessAllAsWritten(g, None, None, true);
  }

  /**
   * `process_all` as intended: a failed load returns False without the
   * categorisation; otherwise the sheets are generated only once loading
   * and categorising both succeeded.
   */
  method ProcessAll(g: SheetsGenerator, costRead: Option<Sheet>, categoriesRead: Option<seq<CategoryRow>>,
                    sheetsOk: bool)
    returns (r: Result<bool>)
    modifies g
    ensures costRead.None? || categoriesRead.None? ==> r == Ok(false) && g.costCategories == old(g.costCategories)
    ensures costRead.Some? && categoriesRead.Some? ==>
      (r.Ok? <==> CategorizeSucceeds(costRead.value, categoriesRead, g.financialOption, g.language, old(g.costCategories)))
    ensures r == Ok(true) <==>
      && costRead.Some? && categoriesRead.Some? && sheetsOk
      && CategorizeSucceeds(costRead.value, categoriesRead, g.financialOption, g.language, old(g.costCategories))
  {
    var loaded := g.LoadCostData(costRead, categoriesRead);
    if !loaded {
      return Ok(false);
    }
    var categorized := g.CategorizeCostsMinMax();
    if categorized.Err? {
      return Err(categorized.error);
    }
    return Ok(categorized.value && sheetsOk);
  }
}
