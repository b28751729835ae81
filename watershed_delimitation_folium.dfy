/**
 * The delineation window's challenge logic: the 0–100 value scale and its
 * five categories, the default water-security values WS01–WS04 and
 * other-challenge values OC01–OC25 computed from the challenge rasters,
 * the SbN suitability flags, the manual-coordinate check, the outlet
 * selection state and the average-flow formula.
 */
module WatershedDelimitationFolium {
  import opened Wrappers
  import opened PyNum

  // ---------------------------------------------------------------------
  // Value scale
  // ---------------------------------------------------------------------

  const CategoryKeys: seq<string> := ["very_low", "low", "medium", "high", "very_high"]

  /** `_convert_value_to_category`: bands of width 20, the last open above. */
  function ValueToCategory(v: int): (c: string)
    ensures c in CategoryKeys
    ensures c == "very_low" <==> v < 20
    ensures c == "low" <==> 20 <= v < 40
    ensures c == "medium" <==> 40 <= v < 60
    ensures c == "high" <==> 60 <= v < 80
    ensures c == "very_high" <==> 80 <= v
  {
    if v < 20 then "very_low"
    else if v < 40 then "low"
    else if v < 60 then "medium"
    else if v < 80 then "high"
    else "very_high"
  }

  function CategoryRank(c: string): (k: nat)
    requires c in CategoryKeys
    ensures k < 5 && CategoryKeys[k] == c
  {
    if c == "very_low" then 0 else if c == "low" then 1 else if c == "medium" then 2 else if c == "high" then 3 else 4
  }

  /** A larger value never falls in a lower category. */
  lemma CategoryMonotone(v: int, w: int)
    requires v <= w
    ensures CategoryRank(ValueToCategory(v)) <= CategoryRank(ValueToCategory(w))
  {
  }

  // ---------------------------------------------------------------------
  // Challenge value from a category count table
  // ---------------------------------------------------------------------

  /** `values_cat`: the value of each raster category 0..5. */
  function CategoryWeight(c: nat): (v: real)
    requires c <= 5
    ensures 10.0 <= v <= 90.0
  {
    [60.0, 10.0, 30.0, 50.0, 70.0, 90.0][c]
  }

  /**
   * The pixel count of each category 0..5 within the basin; None where the
   * category is absent from the concatenated table (NaN, skipped by `sum`).
   */
  type Counts = seq<Option<nat>>

  function CountOf(counts: Counts, c: nat): nat
    requires c < |counts|
  {
    if counts[c].Some? then counts[c].value else 0
  }

  function WeightedSum(counts: Counts, n: nat): real
    requires n <= |counts| && n <= 6
  {
    if n == 0 then 0.0 else WeightedSum(counts, n - 1) + (CountOf(counts, n - 1) as real) * CategoryWeight(n - 1)
  }

  function TotalCount(counts: Counts, n: nat): nat
    requires n <= |counts|
  {
    if n == 0 then 0 else TotalCount(counts, n - 1) + CountOf(counts, n - 1)
  }

  lemma {:induction false} WeightedSumBounds(counts: Counts, n: nat)
    requires n <= |counts| && n <= 6
    ensures 10.0 * (TotalCount(counts, n) as real) <= WeightedSum(counts, n) <= 90.0 * (TotalCount(counts, n) as real)
  {
    if n > 0 {
      WeightedSumBounds(counts, n - 1);
      var k := CountOf(counts, n - 1) as real;
      var v := CategoryWeight(n - 1);
      assert 10.0 * k <= k * v <= 90.0 * k by {
        assert k >= 0.0;
        assert k * (v - 10.0) >= 0.0;
        assert k * (90.0 - v) >= 0.0;
      }
    }
  }

  /**
   * `ValueDF` of one challenge: Σ count·value / Σ count; an empty table
   * gives 0/0, NaN, modelled as None.
   */
  function ChallengeValue(counts: Counts): (v: Option<real>)
    requires |counts| == 6
    ensures v.None? <==> TotalCount(counts, 6) == 0
    ensures v.Some? ==> 10.0 <= v.value <= 90.0
  {
    var total := TotalCount(counts, 6);
    if total == 0 then None
    else
      WeightedSumBounds(counts, 6);
      var t := total as real;
      var w := WeightedSum(counts, 6);
      RatioBetween(w, t, 10.0, 90.0);
      Some(w / t)
  }

  lemma RatioBetween(w: real, t: real, lo: real, hi: real)
    requires t > 0.0 && lo * t <= w <= hi * t
    ensures lo <= w / t <= hi
  {
  }

  // ---------------------------------------------------------------------
  // Binning of the sediment and nutrient loads
  // ---------------------------------------------------------------------

  const Labels: seq<int> := [10, 30, 50, 70, 90]
  const SedimentEdges: seq<real> := [0.05, 0.2, 0.5, 2.0]
  const NitrogenEdges: seq<real> := [0.5, 1.0, 3.0, 5.0]
  const PhosphorusEdges: seq<real> := [0.01, 0.02, 0.05, 0.1]

  /** How `pd.cut` treats the bins' left edge 0: excluded as written, included by the correction. */
  datatype CutRule = RightClosed | LowestIncluded

  predicate Increasing(e: seq<real>)
  {
    forall i, j :: 0 <= i < j < |e| ==> e[i] < e[j]
  }

  /**
   * `pd.cut(v, bins=[0, e0, e1, e2, e3, inf], labels=[10, 30, 50, 70, 90],
   * right=True)`; a value outside the bins, or NaN, gives NaN (None).
   */
  function Cut(v: Option<real>, e: seq<real>, rule: CutRule): (r: Option<int>)
    requires |e| == 4
    ensures r.None? <==> v.None? || v.value < 0.0 || (v.value == 0.0 && rule.RightClosed?)
    ensures r.Some? ==> r.value in Labels
    ensures r.Some? ==> (r.value == 10 <==> v.value <= e[0])
    ensures r.Some? && Increasing(e) ==> (r.value == 90 <==> e[3] < v.value)
  {
    if v.None? || v.value < 0.0 || (v.value == 0.0 && rule.RightClosed?) then None
    else if v.value <= e[0] then Some(10)
    else if v.value <= e[1] then Some(30)
    else if v.value <= e[2] then Some(50)
    else if v.value <= e[3] then Some(70)
    else Some(90)
  }

  /** With increasing edges, a larger load never gets a lower label. */
  lemma CutMonotone(v: real, w: real, e: seq<real>, rule: CutRule)
    requires |e| == 4 && Increasing(e) && v <= w
    requires Cut(Some(v), e, rule).Some?
    ensures Cut(Some(w), e, rule).Some? && Cut(Some(v), e, rule).value <= Cut(Some(w), e, rule).value
  {
  }

  /** The load per unit area: the basin's pixel sum over `area · 100`; NaN stays NaN. */
  function LoadPerArea(sum: Option<real>, area: real): (r: Option<real>)
    requires area != 0.0
    ensures r.Some? <==> sum.Some?
    ensures r.Some? ==> r.value * (area * 100.0) == sum.value
  {
    if sum.None? then None else Some(sum.value / (area * 100.0))
  }

  // ---------------------------------------------------------------------
  // Water-security values (DF_WS.csv)
  // ---------------------------------------------------------------------

  /**
   * What the challenge rasters give for WS01–WS04: the category counts of
   * DF1 and DF2, and the basin sums of the sediment, nitrogen and
   * phosphorus rasters; None where the raster file is missing. The three
   * flags say whether `classify_continuous_raster` returned for the
   * sediment, nitrogen and phosphorus rasters (consulted only where the
   * raster exists); a classification that raises aborts the computation.
   */
  datatype WsSources = WsSources(df1: Option<Counts>, df2: Option<Counts>, sediment: Option<Option<real>>,
                                 nitrogen: Option<Option<real>>, phosphorus: Option<Option<real>>,
                                 sedimentClassified: bool, nitrogenClassified: bool, phosphorusClassified: bool)
  {
    predicate Valid()
    {
      (df1.Some? ==> |df1.value| == 6) && (df2.Some? ==> |df2.value| == 6)
    }
  }

  /** A challenge's value as `int(round(ValueDF))`, 50 when its raster is missing; NaN makes `int` raise. */
  function DfValue(counts: Option<Counts>): (r: Result<int>)
    requires counts.Some? ==> |counts.value| == 6
    ensures counts.None? ==> r == Ok(50)
    ensures counts.Some? ==> (r.Err? <==> TotalCount(counts.value, 6) == 0)
    ensures r.Ok? ==> 10 <= r.value <= 90
  {
    if counts.None? then Ok(50)
    else
      match ChallengeValue(counts.value)
      case None => Err("ValueError: cannot convert float NaN to integer")
      case Some(v) => Ok(RoundHalfEven(v))
  }

  /** A load's label, 50 when the raster is missing; a NaN label makes `int` raise. */
  function LoadLabel(sum: Option<Option<real>>, area: real, e: seq<real>, rule: CutRule): (r: Result<int>)
    requires area != 0.0 && |e| == 4
    ensures sum.None? ==> r == Ok(50)
    ensures sum.Some? ==> (r.Err? <==> Cut(LoadPerArea(sum.value, area), e, rule).None?)
    ensures r.Ok? ==> r.value in Labels || r.value == 50
  {
    if sum.None? then Ok(50)
    else
      match Cut(LoadPerArea(sum.value, area), e, rule)
      case None => Err("ValueError: cannot convert float NaN to integer")
      case Some(k) => Ok(k)
  }

  /**
   * A load's label followed by the classification of its raster: a present
   * raster whose classification raises fails even where the label is fine.
   */
  function ClassifiedLoad(sum: Option<Option<real>>, classified: bool, area: real, e: seq<real>, rule: CutRule): (r: Result<int>)
    requires area != 0.0 && |e| == 4
    ensures sum.None? ==> r == Ok(50)
    ensures sum.Some? ==> (r.Err? <==> !classified || LoadLabel(sum, area, e, rule).Err?)
    ensures r.Ok? ==> r == LoadLabel(sum, area, e, rule)
  {
    var labelled := LoadLabel(sum, area, e, rule);
    if labelled.Err? || sum.None? || classified then labelled
    else Err("the classification of the raster raised")
  }

  /**
   * The value of WS0i: WS01 and WS02 from the DF1/DF2 count tables, WS03
   * the sediment label replacing DF3's value, WS04 the larger of the
   * nitrogen and phosphorus labels replacing DF4's value.
   */
  function WsValue(src: WsSources, area: real, i: nat, rule: CutRule): (r: Result<int>)
    requires src.Valid() && area != 0.0 && 1 <= i <= 4
    ensures i == 3 ==> r == ClassifiedLoad(src.sediment, src.sedimentClassified, area, SedimentEdges, rule)
    ensures i == 4 && r.Ok? ==>
      (LoadLabel(src.nitrogen, area, NitrogenEdges, rule).Ok? && LoadLabel(src.phosphorus, area, PhosphorusEdges, rule).Ok? &&
       r.value == Max(LoadLabel(src.nitrogen, area, NitrogenEdges, rule).value,
                      LoadLabel(src.phosphorus, area, PhosphorusEdges, rule).value))
    ensures i == 4 ==> (r.Err? <==> ClassifiedLoad(src.nitrogen, src.nitrogenClassified, area, NitrogenEdges, rule).Err? ||
                                    ClassifiedLoad(src.phosphorus, src.phosphorusClassified, area, PhosphorusEdges, rule).Err?)
    ensures r.Ok? ==> 10 <= r.value <= 90
  {
    if i == 1 then DfValue(src.df1)
    else if i == 2 then DfValue(src.df2)
    else if i == 3 then ClassifiedLoad(src.sediment, src.sedimentClassified, area, SedimentEdges, rule)
    else
      var n := ClassifiedLoad(src.nitrogen, src.nitrogenClassified, area, NitrogenEdges, rule);
      var p := ClassifiedLoad(src.phosphorus, src.phosphorusClassified, area, PhosphorusEdges, rule);
      if n.Err? then n else if p.Err? then p else Ok(Max(n.value, p.value))
  }

  function WsCode(i: nat): string
    requires 1 <= i <= 9
  {
    "WS0" + [DigitChar(i)]
  }

  /** The outcome of a default-value computation: skipped for missing inputs, failed on a raised error, or saved. */
  datatype WsOutcome = WsSkipped | WsFailed | WsSaved(rows: seq<(string, int)>, floodRisk: string, waterStress: string)

  /**
   * `_calculate_default_water_security_values` from the raster results:
   * skipped without the database, project folder, region name, area or
   * basin shapefile; any raised error is caught and nothing is saved;
   * otherwise the rows WS01..WS04 and the flood-risk and water-stress
   * categories of WS01 and WS02.
   */
  method CalculateDefaultWaterSecurity(inputsFound: bool, area: real, src: WsSources, rule: CutRule)
    returns (outcome: WsOutcome)
    requires src.Valid()
    ensures outcome.WsSkipped? <==> !inputsFound || area == 0.0
    ensures inputsFound && area != 0.0 ==>
      (outcome.WsFailed? <==> exists i :: 1 <= i <= 4 && WsValue(src, area, i, rule).Err?)
    ensures outcome.WsSaved? ==> (area != 0.0 && |outcome.rows| == 4 &&
      (forall k :: 0 <= k < 4 ==> outcome.rows[k] == (WsCode(k + 1), WsValue(src, area, k + 1, rule).value)) &&
      outcome.floodRisk == ValueToCategory(outcome.rows[0].1) &&
      outcome.waterStress == ValueToCategory(outcome.rows[1].1))
  {
    if !inputsFound || area == 0.0 {
      return WsSkipped;
    }
    var rows: seq<(string, int)> := [];
    for i := 1 to 5
      invariant |rows| == i - 1
      invariant forall k :: 1 <= k < i ==> (WsValue(src, area, k, rule).Ok? &&
        rows[k - 1] == (WsCode(k), WsValue(src, area, k, rule).value))
    {
      var v := WsValue(src, area, i, rule);
      if v.Err? {
        assert WsValue(src, area, i, rule).Err?;
        return WsFailed;
      }
      rows := rows + [(WsCode(i), v.value)];
    }
    assert forall k :: 0 <= k < 4 ==> rows[k] == (WsCode(k + 1), WsValue(src, area, k + 1, rule).value) by {
      forall k | 0 <= k < 4
        ensures rows[k] == (WsCode(k + 1), WsValue(src, area, k + 1, rule).value)
      {
        var m := k + 1;
        assert rows[m - 1] == (WsCode(m), WsValue(src, area, m, rule).value);
      }
    }
    outcome := WsSaved(rows, ValueToCategory(rows[0].1), ValueToCategory(rows[1].1));
  }

  /** A basin whose sediment sum is exactly 0, every other raster missing. */
  const ZeroSediment := WsSources(None, None, Some(Some(0.0)), None, None, true, true, true)

  /** As written, a zero sediment load falls outside `(0, 0.05]`, `int(NaN)` raises and nothing is saved. */
  method ZeroLoadFailsAsWritten() returns (outcome: WsOutcome)
    ensures outcome.WsFailed?
  {
    assert WsValue(ZeroSediment, 1.0, 3, RightClosed).Err?;
    outcome := CalculateDefaultWaterSecurity(true, 1.0, ZeroSediment, RightClosed);
  }

  /** With the lowest bin closed at 0, the same basin is saved with WS03 = 10. */
  method ZeroLoadGetsLowestLabel() returns (outcome: WsOutcome)
    ensures outcome.WsSaved? && |outcome.rows| == 4 && outcome.rows[2] == ("WS03", 10)
  {
    assert WsValue(ZeroSediment, 1.0, 1, LowestIncluded) == Ok(50);
    assert WsValue(ZeroSediment, 1.0, 2, LowestIncluded) == Ok(50);
    assert WsValue(ZeroSediment, 1.0, 3, LowestIncluded) == Ok(10);
    assert WsValue(ZeroSediment, 1.0, 4, LowestIncluded) == Ok(50);
    outcome := CalculateDefaultWaterSecurity(true, 1.0, ZeroSediment, LowestIncluded);
    assert outcome.WsSaved?;
    assert WsCode(3) == "WS03";
  }

  // ---------------------------------------------------------------------
  // Other-challenge values (D_O.csv)
  // ---------------------------------------------------------------------

  /** `df_to_oc_mapping`: the OC codes each of DF5..DF13 expands to. */
  const DfToOc: seq<seq<string>> := [
    ["OC01", "OC02"],
    ["OC03", "OC04", "OC05"],
    ["OC06"],
    ["OC07", "OC08", "OC09"],
    ["OC10", "OC11", "OC12"],
    ["OC13", "OC14", "OC15", "OC16"],
    ["OC17", "OC18", "OC19"],
    ["OC20", "OC21", "OC22", "OC23", "OC24"],
    ["OC25"]
  ]

  /** The 25 other-challenge codes in order. */
  const OcCodes: seq<string> := [
    "OC01", "OC02", "OC03", "OC04", "OC05", "OC06", "OC07", "OC08", "OC09", "OC10",
    "OC11", "OC12", "OC13", "OC14", "OC15", "OC16", "OC17", "OC18", "OC19", "OC20",
    "OC21", "OC22", "OC23", "OC24", "OC25"
  ]

  /** The rows the first `n` groups yield: each OC code of group `g` with the value of DF(5 + g). */
  function ExpandOc(groups: seq<seq<string>>, values: seq<int>, n: nat): seq<(string, int)>
    requires |values| == |groups| && n <= |groups|
  {
    if n == 0 then []
    else ExpandOc(groups, values, n - 1) + seq(|groups[n - 1]|, k requires 0 <= k < |groups[n - 1]| => (groups[n - 1][k], values[n - 1]))
  }

  /** The number of codes in the first `n` groups. */
  function SizeBefore(groups: seq<seq<string>>, n: nat): nat
    requires n <= |groups|
  {
    if n == 0 then 0 else SizeBefore(groups, n - 1) + |groups[n - 1]|
  }

  lemma {:induction false} ExpandOcSize(groups: seq<seq<string>>, values: seq<int>, n: nat)
    requires |values| == |groups| && n <= |groups|
    ensures |ExpandOc(groups, values, n)| == SizeBefore(groups, n)
  {
    if n > 0 {
      ExpandOcSize(groups, values, n - 1);
    }
  }

  /** Code `j` of group `g` lands at position `SizeBefore(g) + j`, carrying the group's value. */
  lemma {:induction false} ExpandOcAt(groups: seq<seq<string>>, values: seq<int>, n: nat, g: nat, j: nat)
    requires |values| == |groups| && g < n <= |groups| && j < |groups[g]|
    ensures SizeBefore(groups, g) + j < |ExpandOc(groups, values, n)|
    ensures ExpandOc(groups, values, n)[SizeBefore(groups, g) + j] == (groups[g][j], values[g])
  {
    ExpandOcSize(groups, values, n);
    ExpandOcSize(groups, values, n - 1);
    if g < n - 1 {
      ExpandOcAt(groups, values, n - 1, g, j);
      SizeBeforeGrows(groups, g + 1, n - 1);
    }
  }

  lemma {:induction false} SizeBeforeGrows(groups: seq<seq<string>>, m: nat, n: nat)
    requires m <= n <= |groups|
    ensures SizeBefore(groups, m) <= SizeBefore(groups, n)
  {
    if m < n {
      SizeBeforeGrows(groups, m, n - 1);
    }
  }

  /** Where each group starts in the code list. */
  function GroupStart(g: nat): nat
    requires g < 9
  {
    [0, 2, 5, 6, 9, 12, 16, 19, 24][g]
  }

  /** The DF group (0 for DF5) an OC number belongs to. */
  function GroupOf(n: nat): (g: nat)
    requires 1 <= n <= 25
    ensures g < 9 && GroupStart(g) < n
    ensures n - 1 - GroupStart(g) < |DfToOc[g]|
  {
    if n <= 2 then 0 else if n <= 5 then 1 else if n <= 6 then 2 else if n <= 9 then 3
    else if n <= 12 then 4 else if n <= 16 then 5 else if n <= 19 then 6 else if n <= 24 then 7 else 8
  }

  /** The mapping lists the codes in order, group after group. */
  lemma OcGroupsInOrder()
    ensures forall g :: 0 <= g < 9 ==> SizeBefore(DfToOc, g) == GroupStart(g)
    ensures SizeBefore(DfToOc, 9) == 25
    ensures forall g :: 0 <= g < 9 ==> DfToOc[g] == OcCodes[GroupStart(g)..GroupStart(g) + |DfToOc[g]|]
  {
    assert SizeBefore(DfToOc, 1) == 2;
    assert SizeBefore(DfToOc, 2) == 5;
    assert SizeBefore(DfToOc, 3) == 6;
    assert SizeBefore(DfToOc, 4) == 9;
    assert SizeBefore(DfToOc, 5) == 12;
    assert SizeBefore(DfToOc, 6) == 16;
    assert SizeBefore(DfToOc, 7) == 19;
    assert SizeBefore(DfToOc, 8) == 24;
    assert SizeBefore(DfToOc, 9) == 25;
    forall g | 0 <= g < 9
      ensures DfToOc[g] == OcCodes[GroupStart(g)..GroupStart(g) + |DfToOc[g]|]
    {
      GroupInOrder(g);
    }
  }

  /** The code list spelled out entry by entry. */
  lemma OcCodesAt()
    ensures |OcCodes| == 25
    ensures OcCodes[0] == "OC01" && OcCodes[1] == "OC02" && OcCodes[2] == "OC03" && OcCodes[3] == "OC04" && OcCodes[4] == "OC05"
    ensures OcCodes[5] == "OC06" && OcCodes[6] == "OC07" && OcCodes[7] == "OC08" && OcCodes[8] == "OC09" && OcCodes[9] == "OC10"
    ensures OcCodes[10] == "OC11" && OcCodes[11] == "OC12" && OcCodes[12] == "OC13" && OcCodes[13] == "OC14" && OcCodes[14] == "OC15"
    ensures OcCodes[15] == "OC16" && OcCodes[16] == "OC17" && OcCodes[17] == "OC18" && OcCodes[18] == "OC19" && OcCodes[19] == "OC20"
    ensures OcCodes[20] == "OC21" && OcCodes[21] == "OC22" && OcCodes[22] == "OC23" && OcCodes[23] == "OC24" && OcCodes[24] == "OC25"
  {
  }

  /** Group `g` of the mapping is the slice of the code list that starts at `GroupStart(g)`. */
  lemma GroupInOrder(g: nat)
    requires g < 9
    ensures DfToOc[g] == OcCodes[GroupStart(g)..GroupStart(g) + |DfToOc[g]|]
  {
    OcCodesAt();
    if g == 0 {
      assert DfToOc[0] == ["OC01", "OC02"];
      assert OcCodes[0..2] == [OcCodes[0], OcCodes[1]];
    } else if g == 1 {
      assert DfToOc[1] == ["OC03", "OC04", "OC05"];
      assert OcCodes[2..5] == [OcCodes[2], OcCodes[3], OcCodes[4]];
    } else if g == 2 {
      assert DfToOc[2] == ["OC06"];
      assert OcCodes[5..6] == [OcCodes[5]];
    } else if g == 3 {
      assert DfToOc[3] == ["OC07", "OC08", "OC09"];
      assert OcCodes[6..9] == [OcCodes[6], OcCodes[7], OcCodes[8]];
    } else if g == 4 {
      assert DfToOc[4] == ["OC10", "OC11", "OC12"];
      assert OcCodes[9..12] == [OcCodes[9], OcCodes[10], OcCodes[11]];
    } else if g == 5 {
      assert DfToOc[5] == ["OC13", "OC14", "OC15", "OC16"];
      assert OcCodes[12..16] == [OcCodes[12], OcCodes[13], OcCodes[14], OcCodes[15]];
    } else if g == 6 {
      assert DfToOc[6] == ["OC17", "OC18", "OC19"];
      assert OcCodes[16..19] == [OcCodes[16], OcCodes[17], OcCodes[18]];
    } else if g == 7 {
      assert DfToOc[7] == ["OC20", "OC21", "OC22", "OC23", "OC24"];
      assert OcCodes[19..24] == [OcCodes[19], OcCodes[20], OcCodes[21], OcCodes[22], OcCodes[23]];
    } else {
      assert DfToOc[8] == ["OC25"];
      assert OcCodes[24..25] == [OcCodes[24]];
    }
  }

  /**
   * The D_O rows are OC01..OC25 in order, and OCn carries the value of the
   * DF its group comes from.
   */
  lemma OcRowAt(values: seq<int>, n: nat)
    requires |values| == 9 && 1 <= n <= 25
    ensures |ExpandOc(DfToOc, values, 9)| == 25
    ensures ExpandOc(DfToOc, values, 9)[n - 1] == (OcCodes[n - 1], values[GroupOf(n)])
  {
    var g, j := OcPosition(n);
    ExpandOcSize(DfToOc, values, 9);
    ExpandOcAt(DfToOc, values, 9, g, j);
  }

  /** OCn is code `j` of group `g`, which starts after `n - 1 - j` codes. */
  lemma OcPosition(n: nat) returns (g: nat, j: nat)
    requires 1 <= n <= 25
    ensures g == GroupOf(n) && j < |DfToOc[g]| && SizeBefore(DfToOc, g) + j == n - 1
    ensures SizeBefore(DfToOc, 9) == 25 && DfToOc[g][j] == OcCodes[n - 1]
  {
    g := GroupOf(n);
    j := n - 1 - GroupStart(g);
    GroupSizes(g);
    GroupPosition(g, j);
  }

  /** Code `j` of group `g` is the code at `GroupStart(g) + j` of the code list. */
  lemma GroupPosition(g: nat, j: nat)
    requires g < 9 && j < |DfToOc[g]|
    ensures GroupStart(g) + j < |OcCodes| && DfToOc[g][j] == OcCodes[GroupStart(g) + j]
  {
    GroupInOrder(g);
    SliceAt(OcCodes, DfToOc[g], GroupStart(g), j);
  }

  /** An element of a slice is the element of the whole sequence at the shifted index. */
  lemma SliceAt<T>(xs: seq<T>, ys: seq<T>, start: nat, j: nat)
    requires start + |ys| <= |xs| && ys == xs[start..start + |ys|] && j < |ys|
    ensures ys[j] == xs[start + j]
  {
  }

  /** How many codes come before group `g`, and in all. */
  lemma GroupSizes(g: nat)
    requires g < 9
    ensures SizeBefore(DfToOc, g) == GroupStart(g) && SizeBefore(DfToOc, 9) == 25
  {
    OcGroupsInOrder();
  }

  /**
   * The D_O rows are OC01..OC25 in order, and OCn carries the value of the
   * DF its group comes from.
   */
  lemma OcRowsInOrder(values: seq<int>)
    requires |values| == 9
    ensures |ExpandOc(DfToOc, values, 9)| == 25
    ensures forall n :: 1 <= n <= 25 ==> ExpandOc(DfToOc, values, 9)[n - 1] == (OcCodes[n - 1], values[GroupOf(n)])
  {
    OcRowAt(values, 1);
    forall n | 1 <= n <= 25
      ensures ExpandOc(DfToOc, values, 9)[n - 1] == (OcCodes[n - 1], values[GroupOf(n)])
    {
      OcRowAt(values, n);
    }
  }

  /** The nested loop that appends one row per OC code, group by group. */
  method BuildOcRows(values: seq<int>) returns (rows: seq<(string, int)>)
    requires |values| == |DfToOc|
    ensures rows == ExpandOc(DfToOc, values, |DfToOc|)
  {
    rows := [];
    for g := 0 to |DfToOc|
      invariant rows == ExpandOc(DfToOc, values, g)
    {
      var group := DfToOc[g];
      ghost var done := rows;
      for k := 0 to |group|
        invariant rows == done + seq(k, j requires 0 <= j < k => (group[j], values[g]))
      {
        assert seq(k + 1, j requires 0 <= j < k + 1 => (group[j], values[g])) ==
          seq(k, j requires 0 <= j < k => (group[j], values[g])) + [(group[k], values[g])];
        rows := rows + [(group[k], values[g])];
      }
    }
  }

  datatype OcOutcome = OcSkipped | OcFailed | OcSaved(rows: seq<(string, int)>)

  /**
   * `_calculate_default_other_challenges_values`: the value of each of
   * DF5..DF13 (50 when its raster is missing) copied to all its OC codes;
   * a NaN value makes `int` raise and nothing is saved.
   */
  method CalculateDefaultOtherChallenges(inputsFound: bool, dfs: seq<Option<Counts>>) returns (outcome: OcOutcome)
    requires |dfs| == 9 && forall g :: 0 <= g < 9 && dfs[g].Some? ==> |dfs[g].value| == 6
    ensures outcome.OcSkipped? <==> !inputsFound
    ensures inputsFound ==> (outcome.OcFailed? <==> exists g :: 0 <= g < 9 && DfValue(dfs[g]).Err?)
    ensures outcome.OcSaved? ==> (|outcome.rows| == 25 &&
      forall n :: 1 <= n <= 25 ==> outcome.rows[n - 1] == (OcCodes[n - 1], DfValue(dfs[GroupOf(n)]).value))
  {
    if !inputsFound {
      return OcSkipped;
    }
    var values: seq<int> := [];
    for g := 0 to 9
      invariant |values| == g
      invariant forall q :: 0 <= q < g ==> (DfValue(dfs[q]).Ok? && values[q] == DfValue(dfs[q]).value)
    {
      var v := DfValue(dfs[g]);
      if v.Err? {
        return OcFailed;
      }
      values := values + [v.value];
    }
    var rows := BuildOcRows(values);
    OcRowsInOrder(values);
    outcome := OcSaved(rows);
  }

  // ---------------------------------------------------------------------
  // SbN suitability
  // ---------------------------------------------------------------------

  /** The text after the first `_` up to the next one: `raster_name.split('_')[1]`. */
  function SecondField(s: string): (r: Option<string>)
    ensures r.Some? ==> '_' !in r.value
  {
    if |s| == 0 then None
    else if s[0] == '_' then Some(UpToUnderscore(s[1..]))
    else SecondField(s[1..])
  }

  function UpToUnderscore(s: string): (r: string)
    ensures '_' !in r && r <= s
    ensures |r| < |s| ==> s[|r|] == '_'
  {
    if |s| == 0 || s[0] == '_' then [] else [s[0]] + UpToUnderscore(s[1..])
  }

  /** `int(raster_name.split('_')[1])` for a run of digits; anything else raises. */
  function SbnId(name: string): (r: Option<nat>)
    ensures r.Some? ==> (SecondField(name).Some? && |SecondField(name).value| > 0 &&
      (forall i :: 0 <= i < |SecondField(name).value| ==> IsDigit(SecondField(name).value[i])) &&
      r.value == DigitsValue(SecondField(name).value))
  {
    var f := SecondField(name);
    if f.Some? && |f.value| > 0 && forall i :: 0 <= i < |f.value| ==> IsDigit(f.value[i]) then Some(DigitsValue(f.value))
    else None
  }

  lemma SbnIdExamples()
    ensures SbnId("SbN_01") == Some(1)
    ensures SbnId("SbN_21") == Some(21)
  {
    SbnIdFirst();
    SbnIdTwentyFirst();
  }

  lemma SbnIdFirst()
    ensures SbnId("SbN_01") == Some(1)
  {
    assert SecondField("SbN_01") == Some("01") by {
      assert "SbN_01"[1..] == "bN_01" && "bN_01"[1..] == "N_01" && "N_01"[1..] == "_01";
      assert "_01"[1..] == "01" && "01"[1..] == "1" && "1"[1..] == "";
      assert UpToUnderscore("1") == "1";
      assert UpToUnderscore("01") == "01";
      assert SecondField("_01") == Some("01");
      assert SecondField("N_01") == Some("01");
      assert SecondField("bN_01") == Some("01");
    }
    assert DigitsValue("01") == 1 by { assert "01"[..1] == "0"; assert "0"[..0] == ""; }
  }

  lemma SbnIdTwentyFirst()
    ensures SbnId("SbN_21") == Some(21)
  {
    assert SecondField("SbN_21") == Some("21") by {
      assert "SbN_21"[1..] == "bN_21" && "bN_21"[1..] == "N_21" && "N_21"[1..] == "_21";
      assert "_21"[1..] == "21" && "21"[1..] == "1" && "1"[1..] == "";
      assert UpToUnderscore("1") == "1";
      assert UpToUnderscore("21") == "21";
      assert SecondField("_21") == Some("21");
      assert SecondField("N_21") == Some("21");
      assert SecondField("bN_21") == Some("21");
    }
    assert DigitsValue("21") == 21 by { assert "21"[..1] == "2"; assert "2"[..0] == ""; }
  }

  /**
   * The suitability recorded for one processed SbN raster: 1 when its
   * normalisation found data, 0 when it found none or raised (None).
   */
  function Suitability(normalized: Option<bool>): (s: int)
    ensures s == 1 <==> normalized == Some(true)
    ensures s == 0 || s == 1
  {
    if normalized == Some(true) then 1 else 0
  }

  /**
   * A dictionary as its item list in insertion order; `Lookup` gives the
   * value of the last item with the key, which for distinct keys is the
   * only one.
   */
  type Items = seq<(int, int)>

  predicate DistinctKeys(items: Items)
  {
    forall i, j :: 0 <= i < j < |items| ==> items[i].0 != items[j].0
  }

  function Lookup(items: Items, key: int): Option<int>
  {
    if |items| == 0 then None
    else if items[|items| - 1].0 == key then Some(items[|items| - 1].1)
    else Lookup(items[..|items| - 1], key)
  }

  lemma {:induction false} LookupAt(items: Items, p: nat)
    requires DistinctKeys(items) && p < |items|
    ensures Lookup(items, items[p].0) == Some(items[p].1)
  {
    var n := |items| - 1;
    if p < n {
      assert items[..n][p] == items[p];
      LookupAt(items[..n], p);
    }
  }

  lemma {:induction false} LookupAbsent(items: Items, key: int)
    requires forall i :: 0 <= i < |items| ==> items[i].0 != key
    ensures Lookup(items, key).None?
  {
    if |items| > 0 {
      LookupAbsent(items[..|items| - 1], key);
    }
  }

  function KeyIndex(items: Items, key: int): (p: Option<nat>)
    ensures p.Some? ==> p.value < |items| && items[p.value].0 == key
    ensures p.None? ==> forall i :: 0 <= i < |items| ==> items[i].0 != key
  {
    if |items| == 0 then None
    else if items[0].0 == key then Some(0)
    else match KeyIndex(items[1..], key)
      case None => None
      case Some(q) => Some(q + 1)
  }

  /** `d[key] = value`: an existing key keeps its place, a new one goes last. */
  function SetItem(items: Items, key: int, value: int): Items
  {
    match KeyIndex(items, key)
    case Some(p) => items[p := (key, value)]
    case None => items + [(key, value)]
  }

  /** Assignment keeps the keys distinct, changes the key's value and no other. */
  lemma SetItemLookup(items: Items, key: int, value: int)
    requires DistinctKeys(items)
    ensures DistinctKeys(SetItem(items, key, value))
    ensures forall q :: Lookup(SetItem(items, key, value), q) == (if q == key then Some(value) else Lookup(items, q))
  {
    var s := SetItem(items, key, value);
    var kp := KeyIndex(items, key);
    assert |s| == (if kp.Some? then |items| else |items| + 1);
    assert forall i :: 0 <= i < |items| && items[i].0 != key ==> s[i] == items[i];
    assert DistinctKeys(s);
    forall q
      ensures Lookup(s, q) == (if q == key then Some(value) else Lookup(items, q))
    {
      var at := if kp.Some? then kp.value else |items|;
      assert s[at] == (key, value);
      if q == key {
        LookupAt(s, at);
      } else {
        match KeyIndex(items, q)
        case Some(p) =>
          LookupAt(items, p);
          LookupAt(s, p);
        case None =>
          LookupAbsent(items, q);
          LookupAbsent(s, q);
      }
    }
  }

  /**
   * One raster of the processing loop: its name, whether its mosaic was
   * built, and the outcome of its normalisation (None when it raised).
   */
  datatype RasterRun = RasterRun(name: string, mosaicOk: bool, normalized: Option<bool>)

  /**
   * The suitability entry a raster contributes: only SbN rasters whose
   * mosaic was built and whose ID parses (a failing `int` in the handler
   * propagates to the loop's own handler, which skips the raster).
   */
  function Entry(r: RasterRun): (e: Option<(int, int)>)
    ensures e.Some? <==> r.mosaicOk && "SbN_" <= r.name && SbnId(r.name).Some?
    ensures e.Some? ==> e.value == (SbnId(r.name).value, Suitability(r.normalized))
  {
    if r.mosaicOk && "SbN_" <= r.name && SbnId(r.name).Some? then Some((SbnId(r.name).value, Suitability(r.normalized)))
    else None
  }

  /** The entries of a run, in order, repeats included. */
  function Entries(runs: seq<RasterRun>): Items
  {
    if |runs| == 0 then []
    else
      var last := Entry(runs[|runs| - 1]);
      Entries(runs[..|runs| - 1]) + (if last.Some? then [last.value] else [])
  }

  /**
   * The loop that fills `sbn_suitability`: the dictionary holds, for every
   * SbN ID, the entry of the last raster with that ID.
   */
  method CollectSuitability(runs: seq<RasterRun>) returns (items: Items)
    ensures DistinctKeys(items)
    ensures forall key :: Lookup(items, key) == Lookup(Entries(runs), key)
  {
    items := [];
    for k := 0 to |runs|
      invariant DistinctKeys(items)
      invariant forall key :: Lookup(items, key) == Lookup(Entries(runs[..k]), key)
    {
      assert runs[..k + 1][..k] == runs[..k];
      var e := Entry(runs[k]);
      if e.Some? {
        SetItemLookup(items, e.value.0, e.value.1);
        items := SetItem(items, e.value.0, e.value.1);
        assert Entries(runs[..k + 1]) == Entries(runs[..k]) + [e.value];
        assert (Entries(runs[..k]) + [e.value])[..|Entries(runs[..k])|] == Entries(runs[..k]);
      } else {
        assert Entries(runs[..k + 1]) == Entries(runs[..k]);
      }
    }
    assert runs[..|runs|] == runs;
  }

  /** A row of SbN_Prioritization.csv: its ID and its Idoneidad column. */
  datatype PrioritizationRow = PrioritizationRow(id: int, suitability: int)

  /**
   * `_update_sbn_suitability`: for each item in turn, every row with that
   * ID takes its value; rows whose ID has no item, and the row order, are
   * unchanged.
   */
  method UpdateSbnSuitability(rows: seq<PrioritizationRow>, items: Items)
    returns (updated: seq<PrioritizationRow>)
    ensures |updated| == |rows|
    ensures forall i :: 0 <= i < |rows| ==> updated[i].id == rows[i].id
    ensures forall i :: 0 <= i < |rows| ==>
      updated[i].suitability == (if Lookup(items, rows[i].id).Some? then Lookup(items, rows[i].id).value else rows[i].suitability)
  {
    updated := rows;
    for k := 0 to |items|
      invariant |updated| == |rows|
      invariant forall i :: 0 <= i < |rows| ==> updated[i].id == rows[i].id
      invariant forall i :: 0 <= i < |rows| ==>
        updated[i].suitability == (if Lookup(items[..k], rows[i].id).Some? then Lookup(items[..k], rows[i].id).value else rows[i].suitability)
    {
      assert items[..k + 1][..k] == items[..k];
      var (key, value) := items[k];
      updated := seq(|updated|, i requires 0 <= i < |updated| =>
        if updated[i].id == key then PrioritizationRow(key, value) else updated[i]);
    }
    assert items[..|items|] == items;
  }

  // ---------------------------------------------------------------------
  // Coordinates and outlet selection
  // ---------------------------------------------------------------------

  /** `CoordinateInputDialog._accept`: both entries must parse and lie in `[-90, 90]` and `[-180, 180]`. */
  function AcceptCoordinates(lat: Option<real>, lon: Option<real>): (r: Result<(real, real)>)
    ensures r.Ok? <==> lat.Some? && lon.Some? && -90.0 <= lat.value <= 90.0 && -180.0 <= lon.value <= 180.0
    ensures r.Ok? ==> r.value == (lat.value, lon.value)
  {
    if lat.None? || lon.None? then Err("ValueError: could not convert string to float")
    else if !(-90.0 <= lat.value <= 90.0) then Err("ValueError: latitude out of range")
    else if !(-180.0 <= lon.value <= 180.0) then Err("ValueError: longitude out of range")
    else Ok((lat.value, lon.value))
  }

  /** The outlet-selection state of the delineation window. */
  class DelineationWindow {
    var lat: Option<real>
    var lon: Option<real>
    var currentWatershed: Option<string>
    var delimitEnabled: bool
    var saveEnabled: bool

    constructor ()
      ensures lat.None? && lon.None? && currentWatershed.None? && !delimitEnabled && !saveEnabled
    {
      lat, lon, currentWatershed := None, None, None;
      delimitEnabled, saveEnabled := false, false;
    }

    /** `_on_coordinates_selected`: records the point, enables delineation and forgets the previous basin. */
    method OnCoordinatesSelected(newLat: real, newLon: real)
      modifies this
      ensures lat == Some(newLat) && lon == Some(newLon)
      ensures delimitEnabled && currentWatershed.None? && !saveEnabled
    {
      lat, lon := Some(newLat), Some(newLon);
      delimitEnabled := true;
      currentWatershed := None;
      saveEnabled := false;
    }
  }

  // ---------------------------------------------------------------------
  // Average flow
  // ---------------------------------------------------------------------

  const SecondsPerYear: real := 3600.0 * 24.0 * 365.0

  /**
   * The average flow in m³/s from the mean annual water yield (mm) and the
   * basin area (km²): the yearly volume `awy/1000 · area·10⁶` over the
   * seconds of a year.
   */
  function AverageFlow(awy: real, area: real): (q: real)
    ensures q * SecondsPerYear == (awy / 1000.0) * (area * 1000000.0)
    ensures awy >= 0.0 && area >= 0.0 ==> q >= 0.0
  {
    var v := (awy / 1000.0) * (area * 1000000.0);
    assert awy >= 0.0 && area >= 0.0 ==> v >= 0.0;
    v / SecondsPerYear
  }
}
