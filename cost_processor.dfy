/**
 * Country-adjusted SbN costs, their 1–5 cost categories, and the
 * rewriting of challenge weights through the (cost category, weight)
 * recategorisation table of Weight_Matrix.xlsx.
 */
module CostProcessor {
  import opened Wrappers
  import opened PyNum

  /** A spreadsheet cell as pandas sees it: a number, text, or an empty/NaN cell. */
  datatype Cell = Num(x: real) | Text(s: string) | Blank

  /** `pd.to_numeric(..., errors='coerce')`: text and empty cells become NaN (`None`). */
  function ToNumeric(c: Cell): (r: Option<real>)
    ensures r.Some? <==> c.Num?
    ensures c.Num? ==> r == Some(c.x)
  {
    if c.Num? then Some(c.x) else None
  }

  /** Python `int(cell)`: truncation of a number; NaN and text raise ValueError (`None`). */
  function CellToInt(c: Cell): (r: Option<int>)
    ensures r.Some? <==> c.Num?
    ensures c.Num? && c.x >= 0.0 ==> r.value as real <= c.x < r.value as real + 1.0
  {
    if c.Num? then Some(Trunc(c.x)) else None
  }

  // ---------------------------------------------------------------------
  // Country adjustment
  // ---------------------------------------------------------------------

  const CostColumns: seq<string> := ["Cost_Mean_Inv", "Cost_Mean_M", "Cost_Mean_Total"]

  /** A sheet: its column names and its rows, each row giving a cell per column. */
  datatype Sheet = Sheet(columns: seq<string>, rows: seq<map<string, Cell>>)

  predicate Rectangular(t: Sheet)
  {
    forall i :: 0 <= i < |t.rows| ==> t.rows[i].Keys == set c | c in t.columns
  }

  /** A row of the FactorCost sheet: country code, country name, factor. */
  datatype FactorRow = FactorRow(code: Cell, name: Cell, factor: Cell)

  /** `df_factor[df_factor.iloc[:, 0] == country_code]`, first match. */
  function FirstFactorRow(rows: seq<FactorRow>, code: int): (r: Option<nat>)
    ensures r.Some? ==> r.value < |rows| && rows[r.value].code == Num(code as real)
    ensures r.Some? ==> forall k :: 0 <= k < r.value ==> rows[k].code != Num(code as real)
    ensures r.None? ==> forall k :: 0 <= k < |rows| ==> rows[k].code != Num(code as real)
  {
    if |rows| == 0 then None
    else if rows[0].code == Num(code as real) then Some(0)
    else
      match FirstFactorRow(rows[1..], code)
      case None => None
      case Some(k) => Some(k + 1)
  }

  /**
   * The country factor: 1.0 for an unknown country; `float()` of the third
   * column otherwise (NaN for an empty cell, ValueError for text).
   */
  function CountryFactor(rows: seq<FactorRow>, code: int): (r: Result<Option<real>>)
    ensures FirstFactorRow(rows, code).None? ==> r == Ok(Some(1.0))
    ensures FirstFactorRow(rows, code).Some? ==> var f := rows[FirstFactorRow(rows, code).value].factor;
      && (r.Err? <==> f.Text?)
      && (f.Num? ==> r == Ok(Some(f.x)))
      && (f.Blank? ==> r == Ok(None))
  {
    match FirstFactorRow(rows, code)
    case None => Ok(Some(1.0))
    case Some(k) =>
      match rows[k].factor
      case Num(f) => Ok(Some(f))
      case Blank => Ok(None)
      case Text(_) => Err("ValueError")
  }

  /** One cost cell after coercion to numeric and multiplication by the factor (NaN stays NaN). */
  function ScaledCell(c: Cell, factor: Option<real>): (r: Cell)
    ensures c.Num? && factor.Some? ==> r == Num(c.x * factor.value)
    ensures !(c.Num? && factor.Some?) ==> r == Blank
  {
    if c.Num? && factor.Some? then Num(c.x * factor.value) else Blank
  }

  function ScaleRow(row: map<string, Cell>, columns: seq<string>, factor: Option<real>): (r: map<string, Cell>)
    ensures r.Keys == row.Keys
  {
    map k | k in row :: if k in CostColumns && k in columns then ScaledCell(row[k], factor) else row[k]
  }

  /**
   * `calculate_adjusted_costs`: Cost.csv is the Cost sheet unchanged when no
   * country is given; otherwise the cost columns that exist are scaled by
   * the country factor. `Err` is the exception path that returns False.
   */
  function AdjustedCosts(cost: Sheet, countryCode: Option<int>, factors: seq<FactorRow>): (r: Result<Sheet>)
    ensures countryCode.None? ==> r == Ok(cost)
    ensures countryCode.Some? && FirstFactorRow(factors, countryCode.value).None? ==>
              r.Ok? && r.value.columns == cost.columns && |r.value.rows| == |cost.rows|
    ensures r.Ok? ==> r.value.columns == cost.columns && |r.value.rows| == |cost.rows|
    ensures r.Ok? && Rectangular(cost) ==> Rectangular(r.value)
    ensures r.Err? <==> countryCode.Some? && FirstFactorRow(factors, countryCode.value).Some? &&
                        factors[FirstFactorRow(factors, countryCode.value).value].factor.Text?
  {
    if countryCode.None? then Ok(cost)
    else
      match CountryFactor(factors, countryCode.value)
      case Err(e) => Err(e)
      case Ok(f) =>
        Ok(Sheet(cost.columns, seq(|cost.rows|, i requires 0 <= i < |cost.rows| => ScaleRow(cost.rows[i], cost.columns, f))))
  }

  /**
   * Only Cost_Mean_Inv, Cost_Mean_M and Cost_Mean_Total change: each is
   * coerced to a number and multiplied by the country's factor; an unknown
   * country multiplies them by 1.0, which only coerces them to numbers.
   */
  lemma AdjustmentTouchesOnlyCostColumns(cost: Sheet, code: int, factors: seq<FactorRow>, i: nat, col: string)
    requires Rectangular(cost) && i < |cost.rows| && col in cost.columns
    requires AdjustedCosts(cost, Some(code), factors).Ok?
    ensures var out := AdjustedCosts(cost, Some(code), factors).value.rows[i];
      && col in out
      && (col !in CostColumns ==> out[col] == cost.rows[i][col])
      && (col in CostColumns ==> out[col] == ScaledCell(cost.rows[i][col], CountryFactor(factors, code).value))
      && (col in CostColumns && FirstFactorRow(factors, code).None? ==>
            out[col] == if cost.rows[i][col].Num? then Num(cost.rows[i][col].x) else Blank)
  {
  }

  /** With a known country whose factor is a number, each cost cell is its number times that factor. */
  lemma KnownCountryScalesCosts(cost: Sheet, code: int, factors: seq<FactorRow>, i: nat, col: string)
    requires Rectangular(cost) && i < |cost.rows| && col in cost.columns && col in CostColumns
    requires FirstFactorRow(factors, code).Some? && factors[FirstFactorRow(factors, code).value].factor.Num?
    ensures AdjustedCosts(cost, Some(code), factors).Ok?
    ensures var out := AdjustedCosts(cost, Some(code), factors).value.rows[i];
      var f := factors[FirstFactorRow(factors, code).value].factor.x;
      col in out && out[col] == if cost.rows[i][col].Num? then Num(cost.rows[i][col].x * f) else Blank
  {
    var k := FirstFactorRow(factors, code).value;
    assert CountryFactor(factors, code) == Ok(Some(factors[k].factor.x));
    AdjustmentTouchesOnlyCostColumns(cost, code, factors, i, col);
  }

  // ---------------------------------------------------------------------
  // Cost categories
  // ---------------------------------------------------------------------

  /** (cost column, range minimum column, range maximum column) for a financial option. */
  function OptionColumns(option: string): (r: (string, string, string))
    ensures option == "investment" ==> r == ("Cost_Mean_Inv", "Inv_Min", "Inv_Max")
    ensures option == "maintenance" ==> r == ("Cost_Mean_M", "Man_Min", "Man_Max")
    ensures option != "investment" && option != "maintenance" ==> r == ("Cost_Mean_Total", "Total_Min", "Total_Max")
  {
    if option == "investment" then ("Cost_Mean_Inv", "Inv_Min", "Inv_Max")
    else if option == "maintenance" then ("Cost_Mean_M", "Man_Min", "Man_Max")
    else ("Cost_Mean_Total", "Total_Min", "Total_Max")
  }

  /** A row of Categorias_Costos: its category and its bound cells, by column name. */
  datatype CategoryRow = CategoryRow(categoria: Cell, bounds: map<string, Cell>)

  /**
   * Row `k` matches `v` when `float()` of both bounds succeeds, min ≤ v ≤ max
   * (a NaN bound never matches) and `int(Categoria)` succeeds.
   */
  predicate Matches(row: CategoryRow, v: real, minCol: string, maxCol: string)
  {
    && minCol in row.bounds && maxCol in row.bounds
    && row.bounds[minCol].Num? && row.bounds[maxCol].Num?
    && row.bounds[minCol].x <= v <= row.bounds[maxCol].x
    && row.categoria.Num?
  }

  /** Index of the first matching range row. */
  function FirstMatch(table: seq<CategoryRow>, v: real, minCol: string, maxCol: string): (r: Option<nat>)
    ensures r.Some? ==> r.value < |table| && Matches(table[r.value], v, minCol, maxCol)
    ensures r.Some? ==> forall k :: 0 <= k < r.value ==> !Matches(table[k], v, minCol, maxCol)
    ensures r.None? ==> forall k :: 0 <= k < |table| ==> !Matches(table[k], v, minCol, maxCol)
  {
    if |table| == 0 then None
    else if Matches(table[0], v, minCol, maxCol) then Some(0)
    else
      match FirstMatch(table[1..], v, minCol, maxCol)
      case None => None
      case Some(k) => Some(k + 1)
  }

  /** `df_cat['Categoria'].max()` over the numeric cells; NaN only (or text) makes `int()` raise. */
  function MaxCategoria(table: seq<CategoryRow>): (r: Option<real>)
    ensures r.Some? ==> exists k :: 0 <= k < |table| && table[k].categoria == Num(r.value)
    ensures r.Some? ==> forall k :: 0 <= k < |table| && table[k].categoria.Num? ==> table[k].categoria.x <= r.value
    ensures r.None? ==> forall k :: 0 <= k < |table| ==> !table[k].categoria.Num?
  {
    if |table| == 0 then None
    else
      var rest := MaxCategoria(table[1..]);
      assert forall k :: 1 <= k < |table| ==> table[k] == table[1..][k - 1];
      match table[0].categoria
      case Num(x) => if rest.Some? && rest.value > x then rest else Some(x)
      case _ => rest
  }

  predicate HasTextCategoria(table: seq<CategoryRow>)
  {
    exists k :: 0 <= k < |table| && table[k].categoria.Text?
  }

  /** The category `_find_category` returns; `None` is the exception of the final `int(max)`. */
  function CategoryOf(table: seq<CategoryRow>, v: real, minCol: string, maxCol: string): Option<int>
  {
    match FirstMatch(table, v, minCol, maxCol)
    case Some(k) => Some(Trunc(table[k].categoria.x))
    case None =>
      if HasTextCategoria(table) then None
      else match MaxCategoria(table)
        case None => None
        case Some(m) => Some(Trunc(m))
  }

  /** `_find_category`: the first inclusive range that holds `v`, else the highest category. */
  method FindCategory(v: real, table: seq<CategoryRow>, minCol: string, maxCol: string) returns (r: Option<int>)
    ensures r == CategoryOf(table, v, minCol, maxCol)
  {
    var k := 0;
    while k < |table|
      invariant 0 <= k <= |table|
      invariant forall j :: 0 <= j < k ==> !Matches(table[j], v, minCol, maxCol)
    {
      var row := table[k];
      if minCol in row.bounds && maxCol in row.bounds && row.bounds[minCol].Num? && row.bounds[maxCol].Num? {
        if row.bounds[minCol].x <= v <= row.bounds[maxCol].x && row.categoria.Num? {
          FirstMatchIs(table, v, minCol, maxCol, k);
          return Some(Trunc(row.categoria.x));
        }
      }
      k := k + 1;
    }
    NoMatch(table, v, minCol, maxCol);
    if HasTextCategoria(table) {
      return None;
    }
    var m := MaxCategoria(table);
    if m.None? {
      return None;
    }
    return Some(Trunc(m.value));
  }

  lemma {:induction false} FirstMatchIs(table: seq<CategoryRow>, v: real, minCol: string, maxCol: string, k: nat)
    requires k < |table| && Matches(table[k], v, minCol, maxCol)
    requires forall j :: 0 <= j < k ==> !Matches(table[j], v, minCol, maxCol)
    ensures FirstMatch(table, v, minCol, maxCol) == Some(k)
  {
    if k > 0 {
      FirstMatchIs(table[1..], v, minCol, maxCol, k - 1);
    }
  }

  lemma {:induction false} NoMatch(table: seq<CategoryRow>, v: real, minCol: string, maxCol: string)
    requires forall j :: 0 <= j < |table| ==> !Matches(table[j], v, minCol, maxCol)
    ensures FirstMatch(table, v, minCol, maxCol) == None
  {
    if |table| > 0 {
      NoMatch(table[1..], v, minCol, maxCol);
    }
  }

  /**
   * A value no range holds falls back to the largest category, and a value
   * inside some range gets the first such range's category.
   */
  lemma CategoryFallbacks(table: seq<CategoryRow>, v: real, minCol: string, maxCol: string)
    ensures ((forall k :: 0 <= k < |table| ==> !Matches(table[k], v, minCol, maxCol))
              && !HasTextCategoria(table) && MaxCategoria(table).Some?)
            ==> CategoryOf(table, v, minCol, maxCol) == Some(Trunc(MaxCategoria(table).value))
    ensures forall k :: 0 <= k < |table| && Matches(table[k], v, minCol, maxCol)
              ==> FirstMatch(table, v, minCol, maxCol).Some? && FirstMatch(table, v, minCol, maxCol).value <= k
  {
    if forall k :: 0 <= k < |table| ==> !Matches(table[k], v, minCol, maxCol) {
      NoMatch(table, v, minCol, maxCol);
    }
  }

  /** With every Categoria in 1..5, every category found is in 1..5. */
  lemma CategoryInRange(table: seq<CategoryRow>, v: real, minCol: string, maxCol: string)
    requires forall k :: 0 <= k < |table| && table[k].categoria.Num? ==> 1.0 <= table[k].categoria.x <= 5.0
    ensures CategoryOf(table, v, minCol, maxCol).Some? ==> 1 <= CategoryOf(table, v, minCol, maxCol).value <= 5
  {
    var m := MaxCategoria(table);
    if FirstMatch(table, v, minCol, maxCol).None? && m.Some? {
      var k :| 0 <= k < |table| && table[k].categoria == Num(m.value);
    }
  }

  /** `cats` gives category 1 to every NaN cost and `_find_category`'s answer to every other. */
  predicate CategoriesFor(costs: seq<Option<real>>, cats: seq<int>, table: seq<CategoryRow>, minCol: string, maxCol: string)
  {
    && |cats| == |costs|
    && (forall i :: 0 <= i < |costs| && costs[i].None? ==> cats[i] == 1)
    && (forall i :: 0 <= i < |costs| && costs[i].Some? ==> Some(cats[i]) == CategoryOf(table, costs[i].value, minCol, maxCol))
  }

  /**
   * `categorize_costs`' row loop: a NaN cost gets category 1, every other
   * cost its `_find_category`; `None` is the exception that makes the step
   * return False without writing Cost_Cat.csv.
   */
  method CategoryColumn(costs: seq<Option<real>>, table: seq<CategoryRow>, minCol: string, maxCol: string)
    returns (r: Option<seq<int>>)
    ensures r.Some? ==> |r.value| == |costs|
    ensures r.Some? ==> forall i :: 0 <= i < |costs| && costs[i].None? ==> r.value[i] == 1
    ensures r.Some? ==> forall i :: 0 <= i < |costs| && costs[i].Some? ==>
              Some(r.value[i]) == CategoryOf(table, costs[i].value, minCol, maxCol)
    ensures r.None? <==> (exists i :: 0 <= i < |costs| && costs[i].Some?
                                   && CategoryOf(table, costs[i].value, minCol, maxCol).None?)
  {
    var categories: seq<int> := [];
    var i := 0;
    while i < |costs|
      invariant 0 <= i <= |costs| && |categories| == i
      invariant forall j :: 0 <= j < i && costs[j].None? ==> categories[j] == 1
      invariant forall j :: 0 <= j < i && costs[j].Some? ==> Some(categories[j]) == CategoryOf(table, costs[j].value, minCol, maxCol)
    {
      if costs[i].None? {
        categories := categories + [1];
      } else {
        var c := FindCategory(costs[i].value, table, minCol, maxCol);
        if c.None? {
          return None;
        }
        categories := categories + [c.value];
      }
      i := i + 1;
    }
    return Some(categories);
  }

  // ---------------------------------------------------------------------
  // Recategorisation of challenge weights
  // ---------------------------------------------------------------------

  /** Cost_Cat.csv: the ID column if the cost sheet had one, and the categories. */
  datatype CostCatFile = CostCatFile(ids: Option<seq<Cell>>, categories: seq<int>)
  {
    predicate Valid() { ids.Some? ==> |ids.value| == |categories| }

    /** The keys `recategorize_challenges` zips with the categories: the IDs, or 1..n. */
    function Keys(): (r: seq<Cell>)
      requires Valid()
      ensures |r| == |categories|
      ensures ids.None? ==> forall k :: 0 <= k < |r| ==> r[k] == Num((k + 1) as real)
    {
      match ids
      case Some(s) => s
      case None => seq(|categories|, k requires 0 <= k => Num((k + 1) as real))
    }
  }

  /** `dict(zip(keys[..n], vals[..n]))`: a later key overwrites an earlier one. */
  function Zipped(keys: seq<Cell>, vals: seq<int>, n: nat): (d: map<Cell, int>)
    requires n <= |keys| == |vals|
    ensures d.Keys == set i | 0 <= i < n :: keys[i]
  {
    if n == 0 then map[] else Zipped(keys, vals, n - 1)[keys[n - 1] := vals[n - 1]]
  }

  lemma {:induction false} ZippedLastWins(keys: seq<Cell>, vals: seq<int>, n: nat, i: nat)
    requires i < n <= |keys| == |vals|
    requires forall j :: i < j < n ==> keys[j] != keys[i]
    ensures Zipped(keys, vals, n)[keys[i]] == vals[i]
  {
    if i < n - 1 {
      ZippedLastWins(keys, vals, n - 1, i);
    }
  }

  /** `cost_cat_dict`. */
  function CostCategoryMap(f: CostCatFile): (d: map<Cell, int>)
    requires f.Valid()
    ensures d.Keys == set i | 0 <= i < |f.categories| :: f.Keys()[i]
  {
    Zipped(f.Keys(), f.categories, |f.categories|)
  }

  /** Without an ID column, the k-th SbN (from 1) gets the k-th category. */
  lemma IndexKeysGiveRowCategory(cats: seq<int>, k: nat)
    requires 1 <= k <= |cats|
    ensures Num(k as real) in CostCategoryMap(CostCatFile(None, cats))
    ensures CostCategoryMap(CostCatFile(None, cats))[Num(k as real)] == cats[k - 1]
  {
    var f := CostCatFile(None, cats);
    var keys := f.Keys();
    assert keys[k - 1] == Num(k as real);
    ZippedLastWins(keys, cats, |cats|, k - 1);
  }

  /** A row of Matrix_CostEfe: cost category, challenge category, new category. */
  datatype MatrixRow = MatrixRow(costCat: Cell, oldValue: Cell, newValue: Cell)

  /** A row survives the NaN check and all three `int()` conversions. */
  predicate UsableRow(row: MatrixRow)
  {
    row.costCat.Num? && row.oldValue.Num? && row.newValue.Num?
  }

  function KeyOf(row: MatrixRow): (int, int)
    requires UsableRow(row)
  {
    (Trunc(row.costCat.x), Trunc(row.oldValue.x))
  }

  /**
   * The lookup table from the first `n` rows: unusable rows are skipped and
   * a later key wins. Rows with an empty first cell, which the sheet loader
   * drops, are unusable here, so dropping them changes nothing.
   */
  function LookupUpTo(rows: seq<MatrixRow>, n: nat): (d: map<(int, int), int>)
    requires n <= |rows|
    ensures d.Keys == set i | 0 <= i < n && UsableRow(rows[i]) :: KeyOf(rows[i])
  {
    if n == 0 then map[]
    else if UsableRow(rows[n - 1]) then LookupUpTo(rows, n - 1)[KeyOf(rows[n - 1]) := Trunc(rows[n - 1].newValue.x)]
    else LookupUpTo(rows, n - 1)
  }

  /** The last usable row with a key decides that key's new value. */
  lemma {:induction false} LaterRowWins(rows: seq<MatrixRow>, n: nat, i: nat)
    requires i < n <= |rows| && UsableRow(rows[i])
    requires forall j :: i < j < n && UsableRow(rows[j]) ==> KeyOf(rows[j]) != KeyOf(rows[i])
    ensures LookupUpTo(rows, n)[KeyOf(rows[i])] == Trunc(rows[i].newValue.x)
  {
    if i < n - 1 {
      LaterRowWins(rows, n - 1, i);
    }
  }

  /** Every value in the lookup is some usable row's new category. */
  lemma {:induction false} LookupValuesFromRows(rows: seq<MatrixRow>, n: nat, key: (int, int))
    requires n <= |rows| && key in LookupUpTo(rows, n)
    ensures exists i :: 0 <= i < n && UsableRow(rows[i]) && KeyOf(rows[i]) == key
              && LookupUpTo(rows, n)[key] == Trunc(rows[i].newValue.x)
  {
    if UsableRow(rows[n - 1]) && KeyOf(rows[n - 1]) == key {
    } else {
      LookupValuesFromRows(rows, n - 1, key);
    }
  }

  /** `_apply_cost_matrix`'s construction of `matrix_dict`. */
  method BuildLookup(rows: seq<MatrixRow>) returns (d: map<(int, int), int>)
    ensures d == LookupUpTo(rows, |rows|)
  {
    d := map[];
    var i := 0;
    while i < |rows|
      invariant 0 <= i <= |rows| && d == LookupUpTo(rows, i)
    {
      var row := rows[i];
      if row.costCat.Num? && row.oldValue.Num? && row.newValue.Num? {
        d := d[(Trunc(row.costCat.x), Trunc(row.oldValue.x)) := Trunc(row.newValue.x)];
      }
      i := i + 1;
    }
  }

  /** `cost_cat_dict.get(sbn_id)`; a NaN ID is never found. */
  function CategoryForId(id: Cell, costCat: map<Cell, int>): (r: Option<int>)
    ensures r.Some? <==> id != Blank && id in costCat
    ensures r.Some? ==> r.value == costCat[id]
  {
    if id != Blank && id in costCat then Some(costCat[id]) else None
  }

  /**
   * The new content of a challenge cell: the table's value when the SbN has
   * a cost category, the cell is a number and (category, int(value)) is a
   * key; otherwise the cell as it was.
   */
  function Recategorized(id: Cell, v: Cell, costCat: map<Cell, int>, lookup: map<(int, int), int>): (r: Cell)
    ensures CategoryForId(id, costCat).None? || !v.Num? ==> r == v
    ensures CategoryForId(id, costCat).Some? && v.Num? && (CategoryForId(id, costCat).value, Trunc(v.x)) in lookup ==>
              r == Num(lookup[(CategoryForId(id, costCat).value, Trunc(v.x))] as real)
    ensures CategoryForId(id, costCat).Some? && v.Num? && (CategoryForId(id, costCat).value, Trunc(v.x)) !in lookup ==>
              r == v
  {
    match CategoryForId(id, costCat)
    case None => v
    case Some(cat) =>
      if v.Num? && (cat, Trunc(v.x)) in lookup then Num(lookup[(cat, Trunc(v.x))] as real) else v
  }

  /** A cell that changes takes a new category some usable Matrix_CostEfe row names. */
  lemma ChangedCellsComeFromTheTable(id: Cell, v: Cell, costCat: map<Cell, int>, rows: seq<MatrixRow>)
    ensures var r := Recategorized(id, v, costCat, LookupUpTo(rows, |rows|));
      r != v ==> exists i :: 0 <= i < |rows| && UsableRow(rows[i]) && r == Num(Trunc(rows[i].newValue.x) as real)
  {
    var lookup := LookupUpTo(rows, |rows|);
    var r := Recategorized(id, v, costCat, lookup);
    if r != v {
      var key := (CategoryForId(id, costCat).value, Trunc(v.x));
      LookupValuesFromRows(rows, |rows|, key);
    }
  }

  /** A table whose rows all have `width` cells. */
  predicate IsGrid(g: seq<seq<Cell>>, width: nat)
  {
    forall i :: 0 <= i < |g| ==> |g[i]| == width
  }

  /** The challenge sheet after `_apply_cost_matrix`: columns 0 (ID) and 1 (name) are kept. */
  function RecategorizedGrid(g: seq<seq<Cell>>, width: nat, costCat: map<Cell, int>, lookup: map<(int, int), int>): (r: seq<seq<Cell>>)
    requires IsGrid(g, width)
    ensures |r| == |g| && IsGrid(r, width)
  {
    seq(|g|, i requires 0 <= i < |g| =>
      seq(width, j requires 0 <= j < width =>
        if j < 2 then g[i][j] else Recategorized(g[i][0], g[i][j], costCat, lookup)))
  }

  /**
   * `_apply_cost_matrix`'s cell loop over the challenge sheet: column 0 is
   * the SbN ID, column 1 its name, columns 2.. the challenge weights.
   */
  method ApplyCostMatrix(m: array2<Cell>, costCat: map<Cell, int>, lookup: map<(int, int), int>)
    modifies m
    ensures forall i, j :: 0 <= i < m.Length0 && 0 <= j < m.Length1 ==>
              m[i, j] == if j < 2 then old(m[i, j]) else Recategorized(old(m[i, 0]), old(m[i, j]), costCat, lookup)
  {
    var col := 2;
    while col < m.Length1
      invariant 2 <= col
      invariant forall i, j :: 0 <= i < m.Length0 && 0 <= j < m.Length1 ==>
                  m[i, j] == if j < 2 || j >= col then old(m[i, j])
                             else Recategorized(old(m[i, 0]), old(m[i, j]), costCat, lookup)
    {
      var row := 0;
      while row < m.Length0
        invariant 0 <= row <= m.Length0
        invariant forall i, j :: 0 <= i < m.Length0 && 0 <= j < m.Length1 ==>
                    m[i, j] == if j < 2 || j > col || (j == col && i >= row) then old(m[i, j])
                               else Recategorized(old(m[i, 0]), old(m[i, j]), costCat, lookup)
      {
        var cat := CategoryForId(m[row, 0], costCat);
        var v := m[row, col];
        if cat.Some? && v.Num? {
          if (cat.value, Trunc(v.x)) in lookup {
            m[row, col] := Num(lookup[(cat.value, Trunc(v.x))] as real);
          }
        }
        row := row + 1;
      }
      col := col + 1;
    }
  }

  /** `df_original.copy()` into a fresh array. */
  method ToArray(g: seq<seq<Cell>>, width: nat) returns (m: array2<Cell>)
    requires IsGrid(g, width)
    ensures fresh(m) && m.Length0 == |g| && m.Length1 == width
    ensures forall i, j :: 0 <= i < |g| && 0 <= j < width ==> m[i, j] == g[i][j]
  {
    m := new Cell[|g|, width]((i, j) requires 0 <= i < |g| && 0 <= j < width => g[i][j]);
  }

  method FromArray(m: array2<Cell>) returns (g: seq<seq<Cell>>)
    ensures |g| == m.Length0 && IsGrid(g, m.Length1)
    ensures forall i, j :: 0 <= i < m.Length0 && 0 <= j < m.Length1 ==> g[i][j] == m[i, j]
  {
    g := seq(m.Length0, i requires 0 <= i < m.Length0 reads m =>
           seq(m.Length1, j requires 0 <= j < m.Length1 reads m => m[i, j]));
  }

  /** `_apply_cost_matrix` as a whole: copy, rewrite in place, return the copy. */
  method AdjustChallengeSheet(g: seq<seq<Cell>>, width: nat, costCat: map<Cell, int>, lookup: map<(int, int), int>)
    returns (r: seq<seq<Cell>>)
    requires IsGrid(g, width)
    ensures r == RecategorizedGrid(g, width, costCat, lookup)
  {
    var m := ToArray(g, width);
    ApplyCostMatrix(m, costCat, lookup);
    r := FromArray(m);
    var expected := RecategorizedGrid(g, width, costCat, lookup);
    forall i | 0 <= i < |g| ensures r[i] == expected[i] {
      assert |r[i]| == width == |expected[i]|;
    }
  }

  // ---------------------------------------------------------------------
  // The pipeline over the project's files
  // ---------------------------------------------------------------------

  /** The sheets of Weight_Matrix.xlsx the processor reads. */
  datatype Workbook = Workbook(
    cost: Sheet, factors: seq<FactorRow>, categories: seq<CategoryRow>, matrix: seq<MatrixRow>,
    waterSecurity: seq<seq<Cell>>, others: seq<seq<Cell>>, width: nat)
  {
    predicate Valid() { IsGrid(waterSecurity, width) }
  }

  /** The costs column `categorize_costs` reads, or `None` when the column is missing (KeyError). */
  function CostsOf(s: Sheet, column: string): (r: Option<seq<Option<real>>>)
    requires Rectangular(s)
    ensures r.Some? <==> column in s.columns
    ensures r.Some? ==> |r.value| == |s.rows| && forall i :: 0 <= i < |s.rows| ==> r.value[i] == ToNumeric(s.rows[i][column])
  {
    if column in s.columns then Some(seq(|s.rows|, i requires 0 <= i < |s.rows| => ToNumeric(s.rows[i][column]))) else None
  }

  /** The ID column copied into Cost_Cat.csv, when the cost sheet has one. */
  function IdsOf(s: Sheet): (r: Option<seq<Cell>>)
    requires Rectangular(s)
    ensures r.Some? <==> "ID" in s.columns
    ensures r.Some? ==> |r.value| == |s.rows|
  {
    if "ID" in s.columns then Some(seq(|s.rows|, i requires 0 <= i < |s.rows| => s.rows[i]["ID"])) else None
  }

  /**
   * Whether `categorize_costs` gets through this Cost.csv under a financial
   * option: the option's cost column exists, and every number in it finds a
   * category (a category sheet whose largest category is unusable fails).
   */
  predicate Categorizes(cost: Sheet, table: seq<CategoryRow>, option: string)
    requires Rectangular(cost)
  {
    var (costColumn, minCol, maxCol) := OptionColumns(option);
    && CostsOf(cost, costColumn).Some?
    && var costs := CostsOf(cost, costColumn).value;
       forall i :: 0 <= i < |costs| && costs[i].Some? ==> CategoryOf(table, costs[i].value, minCol, maxCol).Some?
  }

  /**
   * The cost processor of one project: the files it writes (Cost.csv,
   * Cost_Cat.csv and the two cost-adjusted weight matrices), `None` while
   * a file does not exist.
   */
  class CostPipeline {
    const countryCode: Option<int>
    var costCsv: Option<Sheet>
    var costCatCsv: Option<CostCatFile>
    var weightCostWs: Option<seq<seq<Cell>>>
    var weightCostO: Option<seq<seq<Cell>>>

    predicate Valid()
      reads this
    {
      && (costCsv.Some? ==> Rectangular(costCsv.value))
      && (costCatCsv.Some? ==> costCatCsv.value.Valid())
    }

    constructor(countryCode: Option<int>)
      ensures Valid()
      ensures this.countryCode == countryCode
      ensures costCsv.None? && costCatCsv.None? && weightCostWs.None? && weightCostO.None?
    {
      this.countryCode := countryCode;
      costCsv := None;
      costCatCsv := None;
      weightCostWs := None;
      weightCostO := None;
    }

    /** `calculate_adjusted_costs`: on success Cost.csv holds the adjusted sheet. */
    method CalculateAdjustedCosts(wb: Workbook) returns (ok: bool)
      requires Valid() && Rectangular(wb.cost)
      modifies this
      ensures Valid()
      ensures ok == AdjustedCosts(wb.cost, countryCode, wb.factors).Ok?
      ensures ok ==> costCsv == Some(AdjustedCosts(wb.cost, countryCode, wb.factors).value)
      ensures !ok ==> costCsv == old(costCsv)
      ensures costCatCsv == old(costCatCsv) && weightCostWs == old(weightCostWs) && weightCostO == old(weightCostO)
    {
      var adjusted := AdjustedCosts(wb.cost, countryCode, wb.factors);
      if adjusted.Err? {
        return false;
      }
      costCsv := Some(adjusted.value);
      return true;
    }

    /**
     * `categorize_costs`: computes Cost.csv first when it is missing, then
     * writes the category of every SbN to Cost_Cat.csv.
     */
    method CategorizeCosts(wb: Workbook, option: string) returns (ok: bool)
      requires Valid() && Rectangular(wb.cost)
      modifies this
      ensures Valid()
      ensures old(costCsv).Some? ==> costCsv == old(costCsv)
      ensures old(costCsv).None? && AdjustedCosts(wb.cost, countryCode, wb.factors).Ok? ==>
                costCsv == Some(AdjustedCosts(wb.cost, countryCode, wb.factors).value)
      ensures ok <==> costCsv.Some? && Categorizes(costCsv.value, wb.categories, option)
      ensures ok ==> costCatCsv.Some?
      ensures ok ==> costCatCsv.value.ids == IdsOf(costCsv.value)
      ensures ok ==> CostsOf(costCsv.value, OptionColumns(option).0).Some?
      ensures ok ==> CategoriesFor(CostsOf(costCsv.value, OptionColumns(option).0).value, costCatCsv.value.categories,
                                   wb.categories, OptionColumns(option).1, OptionColumns(option).2)
      ensures !ok ==> costCatCsv == old(costCatCsv)
      ensures weightCostWs == old(weightCostWs) && weightCostO == old(weightCostO)
    {
      if costCsv.None? {
        var _ := CalculateAdjustedCosts(wb);
      }
      if costCsv.None? {
        return false;
      }
      var (costColumn, minCol, maxCol) := OptionColumns(option);
      var costs := CostsOf(costCsv.value, costColumn);
      if costs.None? {
        return false;
      }
      var cats := CategoryColumn(costs.value, wb.categories, minCol, maxCol);
      if cats.None? {
        return false;
      }
      costCatCsv := Some(CostCatFile(IdsOf(costCsv.value), cats.value));
      return true;
    }

    /**
     * `recategorize_challenges`: categorises first when Cost_Cat.csv is
     * missing; rewrites the water-security matrix through Matrix_CostEfe and
     * copies the other-challenges matrix unadjusted.
     */
    method RecategorizeChallenges(wb: Workbook) returns (ok: bool)
      requires Valid() && wb.Valid() && Rectangular(wb.cost)
      modifies this
      ensures Valid()
      ensures old(costCsv).Some? ==> costCsv == old(costCsv)
      ensures old(costCatCsv).Some? ==> costCatCsv == old(costCatCsv)
      ensures ok <==> costCatCsv.Some?
      ensures ok ==> weightCostWs == Some(RecategorizedGrid(wb.waterSecurity, wb.width,
                CostCategoryMap(costCatCsv.value), LookupUpTo(wb.matrix, |wb.matrix|)))
      ensures ok ==> weightCostO == Some(wb.others)
      ensures !ok ==> weightCostWs == old(weightCostWs) && weightCostO == old(weightCostO)
    {
      if costCatCsv.None? {
        var _ := CategorizeCosts(wb, "investment_and_maintenance");
      }
      if costCatCsv.None? {
        return false;
      }
      var costCat := CostCategoryMap(costCatCsv.value);
      var lookup := BuildLookup(wb.matrix);
      var ws := AdjustChallengeSheet(wb.waterSecurity, wb.width, costCat, lookup);
      weightCostWs := Some(ws);
      weightCostO := Some(wb.others);
      return true;
    }

    /** `process_all`: the three steps run in order, each whatever the earlier ones returned. */
    method ProcessAll(wb: Workbook, option: string) returns (success: bool)
      requires Valid() && wb.Valid() && Rectangular(wb.cost)
      modifies this
      ensures Valid()
      ensures success <==> AdjustedCosts(wb.cost, countryCode, wb.factors).Ok?
                           && Categorizes(AdjustedCosts(wb.cost, countryCode, wb.factors).value, wb.categories, option)
      ensures AdjustedCosts(wb.cost, countryCode, wb.factors).Ok? ==>
                costCsv == Some(AdjustedCosts(wb.cost, countryCode, wb.factors).value)
      ensures success ==> costCatCsv.Some? && weightCostO == Some(wb.others)
      ensures success ==> weightCostWs == Some(RecategorizedGrid(wb.waterSecurity, wb.width,
                CostCategoryMap(costCatCsv.value), LookupUpTo(wb.matrix, |wb.matrix|)))
    {
      var a := CalculateAdjustedCosts(wb);
      var b := CategorizeCosts(wb, option);
      var c := RecategorizeChallenges(wb);
      success := a && b && c;
    }
  }
}
