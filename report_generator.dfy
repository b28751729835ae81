/**
 * The report generator (`ReportGenerator`): the prioritized SbN it reads
 * from SbN_Prioritization.csv, the location line of the general
 * description, the key/value rows of its tables, the barrier table with
 * its grouping and page breaks, and the list of PDFs concatenated into the
 * total report.
 */
module ReportGenerator {
  import opened Wrappers
  import opened PyNum
  import opened PyParse
  import opened Sorting
  import opened ReportPdf

  // ---------------------------------------------------------------------
  // The prioritized SbN
  // ---------------------------------------------------------------------

  /** A row of SbN_Prioritization.csv: the ID cell, and the order cell (None when there is no 'order' column). */
  datatype PrioRow = PrioRow(id: Option<string>, order: Option<string>)

  /** `int(row.get('order', 0))`; None stands for the ValueError. */
  function OrderOf(row: PrioRow): Option<int>
  {
    match row.order
    case None => Some(0)
    case Some(t) => ParseInt(t)
  }

  /** A row the comprehension keeps: its order parses and is positive. */
  predicate Prioritized(row: PrioRow)
  {
    OrderOf(row).Some? && OrderOf(row).value > 0
  }

  /** A kept row whose order or ID does not parse, or has no ID, makes the comprehension raise. */
  predicate RowFails(row: PrioRow)
  {
    OrderOf(row).None? || (Prioritized(row) && (row.id.None? || ParseInt(row.id.value).None?))
  }

  /**
   * `[(int(row['ID']), int(row.get('order', 0))) for row in reader if int(row.get('order', 0)) > 0]`,
   * or None when it raises.
   */
  function Pairs(rows: seq<PrioRow>): (r: Option<seq<(int, int)>>)
    ensures r.None? <==> exists k :: 0 <= k < |rows| && RowFails(rows[k])
    ensures r.Some? ==> forall p :: p in r.value ==> p.1 > 0
  {
    if rows == [] then Some([])
    else
      var init := rows[..|rows| - 1];
      var row := rows[|rows| - 1];
      assert forall k :: 0 <= k < |init| ==> init[k] == rows[k];
      match Pairs(init)
      case None => None
      case Some(ps) =>
        match OrderOf(row)
        case None => None
        case Some(o) =>
          if o <= 0 then Some(ps)
          else if row.id.None? then None
          else
            match ParseInt(row.id.value)
            case None => None
            case Some(i) => Some(ps + [(i, o)])
  }

  /** A pair is produced exactly for each kept row, with its ID and order. */
  lemma {:induction false} PairsMembers(rows: seq<PrioRow>, p: (int, int))
    requires Pairs(rows).Some?
    ensures p in Pairs(rows).value <==>
      exists k :: 0 <= k < |rows| && Prioritized(rows[k]) && OrderOf(rows[k]).value == p.1
        && rows[k].id.Some? && ParseInt(rows[k].id.value) == Some(p.0)
  {
    if rows != [] {
      var init := rows[..|rows| - 1];
      assert forall k :: 0 <= k < |init| ==> init[k] == rows[k];
      PairsMembers(init, p);
    }
  }

  /** `sbn_data.sort(key=lambda x: x[1])`: by ascending order. */
  function ByOrder(): ((int, int), (int, int)) -> bool
  {
    (a: (int, int), b: (int, int)) => a.1 <= b.1
  }

  lemma ByOrderTotalPreorder()
    ensures TotalPreorder(ByOrder())
  {
  }

  /** `selected_sbn` and `sbn_orders` as `load_data` leaves them. */
  datatype Prioritization = Prioritization(selected: seq<int>, orders: map<int, int>)

  function Ids(ps: seq<(int, int)>): (r: seq<int>)
    ensures |r| == |ps| && forall i :: 0 <= i < |ps| ==> r[i] == ps[i].0
  {
    seq(|ps|, i requires 0 <= i < |ps| => ps[i].0)
  }

  /** `{sbn_id: order for sbn_id, order in sbn_data}`: a later pair with the same ID wins. */
  function OrderMap(ps: seq<(int, int)>): (m: map<int, int>)
    ensures forall id :: id in m <==> exists i :: 0 <= i < |ps| && ps[i].0 == id
    ensures forall id :: id in m ==> exists i :: 0 <= i < |ps| && ps[i] == (id, m[id])
  {
    if ps == [] then map[]
    else
      var init := ps[..|ps| - 1];
      var last := ps[|ps| - 1];
      assert forall i :: 0 <= i < |init| ==> init[i] == ps[i];
      OrderMap(init)[last.0 := last.1]
  }

  /**
   * The prioritization part of `load_data`: no file or a failing row gives
   * nothing selected; otherwise the kept rows' IDs sorted by their order.
   */
  function LoadPrioritization(file: Option<seq<PrioRow>>): (r: Prioritization)
    ensures file.None? ==> r == Prioritization([], map[])
    ensures file.Some? && Pairs(file.value).None? ==> r == Prioritization([], map[])
    ensures file.Some? && Pairs(file.value).Some? ==> |r.selected| == |Pairs(file.value).value|
  {
    match file
    case None => Prioritization([], map[])
    case Some(rows) =>
      match Pairs(rows)
      case None => Prioritization([], map[])
      case Some(ps) =>
        var s := SortBy(ps, ByOrder());
        Prioritization(Ids(s), OrderMap(s))
  }

  /**
   * The selection holds one ID per kept row, and reading it along, the
   * orders never decrease: it is sorted by ascending order.
   */
  lemma SelectionByOrder(rows: seq<PrioRow>)
    requires Pairs(rows).Some?
    ensures var ps := Pairs(rows).value;
      var s := SortBy(ps, ByOrder());
      var sel := LoadPrioritization(Some(rows)).selected;
      && multiset(s) == multiset(ps)
      && |sel| == |ps|
      && (forall i :: 0 <= i < |sel| ==> sel[i] == s[i].0)
      && (forall i, j :: 0 <= i < j < |s| ==> s[i].1 <= s[j].1)
  {
    ByOrderTotalPreorder();
    SortBySorted(Pairs(rows).value, ByOrder());
  }

  /** Every selected ID has its positive order in `sbn_orders`, and every ID there is selected. */
  lemma OrdersMatchSelection(rows: seq<PrioRow>)
    requires Pairs(rows).Some?
    ensures var r := LoadPrioritization(Some(rows));
      && (forall id :: id in r.orders <==> id in r.selected)
      && (forall id :: id in r.orders ==> r.orders[id] > 0)
  {
    var ps := Pairs(rows).value;
    var s := SortBy(ps, ByOrder());
    var r := LoadPrioritization(Some(rows));
    assert r.selected == Ids(s) && r.orders == OrderMap(s);
    assert multiset(s) == multiset(ps);
    IdsMatchOrders(s);
    OrdersPositive(ps, s);
  }

  /** The IDs of a pair list are exactly the keys of its order map. */
  lemma IdsMatchOrders(s: seq<(int, int)>)
    ensures forall id :: id in OrderMap(s) <==> id in Ids(s)
  {
    forall id
      ensures id in OrderMap(s) <==> id in Ids(s)
    {
      if id in Ids(s) {
        var i :| 0 <= i < |Ids(s)| && Ids(s)[i] == id;
        assert s[i].0 == id;
      }
    }
  }

  /** A reordering of pairs with positive orders has only positive orders in its map. */
  lemma OrdersPositive(ps: seq<(int, int)>, s: seq<(int, int)>)
    requires forall p :: p in ps ==> p.1 > 0
    requires multiset(s) == multiset(ps)
    ensures forall id :: id in OrderMap(s) ==> OrderMap(s)[id] > 0
  {
    forall id | id in OrderMap(s)
      ensures OrderMap(s)[id] > 0
    {
      var i :| 0 <= i < |s| && s[i] == (id, OrderMap(s)[id]);
      assert s[i] in multiset(s);
      assert s[i] in multiset(ps);
      assert s[i] in ps;
    }
  }

  /** Without an 'order' column nothing is prioritized. */
  lemma {:induction false} NoOrderColumnSelectsNothing(rows: seq<PrioRow>)
    requires forall k :: 0 <= k < |rows| ==> rows[k].order.None?
    ensures LoadPrioritization(Some(rows)).selected == []
  {
    if rows != [] {
      var init := rows[..|rows| - 1];
      NoOrderColumnSelectsNothing(init);
    }
  }

  // ---------------------------------------------------------------------
  // The general description
  // ---------------------------------------------------------------------

  /** `self.texts.get('not_specified', 'No especificado')`. */
  function NotSpecified(texts: map<string, string>): string
  {
    if "not_specified" in texts then texts["not_specified"] else "No especificado"
  }

  /** The location line: "country (location)", whichever of the two is given, or the not-specified text. */
  function FullLocation(country: string, location: string, notSpecified: string): (r: string)
    ensures country != "" && location != "" ==> r == country + " (" + location + ")"
    ensures country != "" && location == "" ==> r == country
    ensures country == "" && location != "" ==> r == location
    ensures country == "" && location == "" ==> r == notSpecified
  {
    if country != "" && location != "" then country + " (" + location + ")"
    else if country != "" then country
    else if location != "" then location
    else notSpecified
  }

  /** Both parts can be read back from the combined line, and the line is empty only when nothing is known. */
  lemma FullLocationParts(country: string, location: string, notSpecified: string)
    ensures var r := FullLocation(country, location, notSpecified);
      && (country != "" && location != "" ==>
            r[..|country|] == country && r[|country| + 2..|r| - 1] == location && r[|r| - 1] == ')')
      && (notSpecified != "" ==> r != "")
  {
    if country != "" && location != "" {
      var r := country + " (" + location + ")";
      assert r[..|country|] == country;
      assert r[|country| + 2..|r| - 1] == location;
    }
  }

  /** The key/value rows of a table: `None` prints as the empty string. */
  function PairRows(pairs: seq<(Option<string>, Option<string>)>): (r: seq<seq<string>>)
    ensures |r| == |pairs|
  {
    seq(|pairs|, i requires 0 <= i < |pairs| => [CellString(pairs[i].0), CellString(pairs[i].1)])
  }

  /** With no missing value, each row gives back its pair: the conversion loses nothing. */
  lemma PairRowsKeepPairs(pairs: seq<(Option<string>, Option<string>)>)
    requires forall i :: 0 <= i < |pairs| ==> pairs[i].0.Some? && pairs[i].1.Some?
    ensures forall i :: 0 <= i < |pairs| ==>
      |PairRows(pairs)[i]| == 2 && (Some(PairRows(pairs)[i][0]), Some(PairRows(pairs)[i][1])) == pairs[i]
  {
  }

  /** `_pair_list_to_rows`. */
  method PairListToRows(pairs: seq<(Option<string>, Option<string>)>) returns (out: seq<seq<string>>)
    ensures out == PairRows(pairs)
  {
    out := [];
    for i := 0 to |pairs|
      invariant |out| == i && forall j :: 0 <= j < i ==> out[j] == PairRows(pairs)[j]
    {
      var kk := if pairs[i].0.None? then "" else pairs[i].0.value;
      var vv := if pairs[i].1.None? then "" else pairs[i].1.value;
      out := out + [[kk, vv]];
    }
  }

  // ---------------------------------------------------------------------
  // The barrier table
  // ---------------------------------------------------------------------

  /**
   * One field of a `csv.DictReader` row: absent when the header has no
   * such column (`get` returns its default), None when the row is too
   * short to reach it, otherwise the cell's text.
   */
  datatype Field = Absent | NoneCell | Cell(text: string)

  /** `str(row.get(key, default))`. */
  function FieldText(f: Field, default: string): (t: string)
    ensures f.Absent? ==> t == default
    ensures f.NoneCell? ==> t == "None"
    ensures f.Cell? ==> t == f.text
  {
    match f
    case Absent => default
    case NoneCell => "None"
    case Cell(text) => text
  }

  /** A row of the project's barrier table: its Status, Code and Value fields. */
  datatype BarrierRecord = BarrierRecord(status: Field, code: Field, value: Field)

  /** The translation of a barrier code from the language's barrier catalogue. */
  datatype Translation = Translation(grupo: Option<string>, subcategoria: Option<string>, descripcion: Option<string>)

  /** A barrier row ready to draw. */
  datatype FullBarrier = FullBarrier(grupo: string, subcat: string, desc: string, valor: string)

  /** `str(barrier.get('Status', '0')).strip() == '1'`. */
  predicate Enabled(b: BarrierRecord)
  {
    Strip(FieldText(b.status, "0")) == "1"
  }

  /** `barrier.get('Code', '')`; None for the None of a short row, which is no translation's key. */
  function Code(b: BarrierRecord): Option<string>
  {
    match b.code
    case Absent => Some("")
    case NoneCell => None
    case Cell(text) => Some(text)
  }

  /** An enabled barrier whose code has a translation. */
  predicate Shown(b: BarrierRecord, translations: map<string, Translation>)
  {
    Enabled(b) && Code(b).Some? && Code(b).value in translations
  }

  /**
   * The drawn row: the texts of the translation of the barrier's own code,
   * '' where the translation lacks one, and `str(valor)`.
   */
  function Joined(b: BarrierRecord, translations: map<string, Translation>): (r: FullBarrier)
    requires Shown(b, translations)
    ensures var t := translations[Code(b).value];
      && (t.grupo.Some? ==> r.grupo == t.grupo.value) && (t.grupo.None? ==> r.grupo == "")
      && (t.subcategoria.Some? ==> r.subcat == t.subcategoria.value) && (t.subcategoria.None? ==> r.subcat == "")
      && (t.descripcion.Some? ==> r.desc == t.descripcion.value) && (t.descripcion.None? ==> r.desc == "")
    ensures b.value.Cell? ==> r.valor == b.value.text
    ensures b.value.NoneCell? ==> r.valor == "None"
    ensures b.value.Absent? ==> r.valor == ""
  {
    var t := translations[Code(b).value];
    FullBarrier(t.grupo.GetOr(""), t.subcategoria.GetOr(""), t.descripcion.GetOr(""), FieldText(b.value, ""))
  }

  /** `barriers_full`: the shown barriers joined with their translations, in table order. */
  function BarriersFull(data: seq<BarrierRecord>, translations: map<string, Translation>): (r: seq<FullBarrier>)
    ensures |r| <= |data|
  {
    if data == [] then []
    else
      var init := BarriersFull(data[..|data| - 1], translations);
      var b := data[|data| - 1];
      if Shown(b, translations) then init + [Joined(b, translations)] else init
  }

  /** A barrier row is drawn exactly for each enabled, translated record. */
  lemma {:induction false} BarriersFullMembers(data: seq<BarrierRecord>, translations: map<string, Translation>, x: FullBarrier)
    ensures x in BarriersFull(data, translations) <==>
      exists k :: 0 <= k < |data| && Shown(data[k], translations) && x == Joined(data[k], translations)
  {
    if data != [] {
      var init := data[..|data| - 1];
      assert forall k :: 0 <= k < |init| ==> init[k] == data[k];
      BarriersFullMembers(init, translations, x);
    }
  }

  /** The loop of lines 585-597. */
  method CollectBarriers(data: seq<BarrierRecord>, translations: map<string, Translation>) returns (full: seq<FullBarrier>)
    ensures full == BarriersFull(data, translations)
  {
    full := [];
    for k := 0 to |data|
      invariant full == BarriersFull(data[..k], translations)
    {
      assert data[..k + 1][..k] == data[..k];
      var b := data[k];
      if Strip(FieldText(b.status, "0")) == "1" {
        var code := Code(b);
        if code.Some? && code.value in translations {
          var t := translations[code.value];
          full := full + [FullBarrier(t.grupo.GetOr(""), t.subcategoria.GetOr(""), t.descripcion.GetOr(""), FieldText(b.value, ""))];
        }
      }
    }
    assert data[..|data|] == data;
  }

  /** The sort key `(grupo, subcategoria)` compared as Python compares tuples of strings. */
  predicate GroupLe(a: FullBarrier, b: FullBarrier)
  {
    if a.grupo == b.grupo then StrLe(a.subcat, b.subcat) else StrLe(a.grupo, b.grupo)
  }

  function ByGroup(): (FullBarrier, FullBarrier) -> bool
  {
    (a: FullBarrier, b: FullBarrier) => GroupLe(a, b)
  }

  lemma ByGroupTotalPreorder()
    ensures TotalPreorder(ByGroup())
  {
    forall a: FullBarrier, b: FullBarrier
      ensures GroupLe(a, b) || GroupLe(b, a)
    {
      StrLeTotal(a.grupo, b.grupo);
      StrLeTotal(a.subcat, b.subcat);
    }
    forall a: FullBarrier, b: FullBarrier, c: FullBarrier | GroupLe(a, b) && GroupLe(b, c)
      ensures GroupLe(a, c)
    {
      StrLeAntisymmetric(a.grupo, b.grupo);
      StrLeAntisymmetric(b.grupo, c.grupo);
      StrLeAntisymmetric(a.grupo, c.grupo);
      StrLeTransitiveWhen(a.grupo, b.grupo, c.grupo);
      StrLeTransitiveWhen(a.subcat, b.subcat, c.subcat);
      StrLeTransitiveWhen(c.grupo, a.grupo, b.grupo);
      StrLeTransitiveWhen(b.grupo, c.grupo, a.grupo);
    }
  }

  lemma StrLeTransitiveWhen(a: string, b: string, c: string)
    ensures StrLe(a, b) && StrLe(b, c) ==> StrLe(a, c)
  {
    if StrLe(a, b) && StrLe(b, c) {
      StrLeTransitive(a, b, c);
    }
  }

  /** The page geometry: height, bottom margin and the top margin a new page starts at. */
  datatype Page = Page(height: real, bottomMargin: real, topMargin: real)

  /** A drawn row: the group and subcategory cells as shown, the description, the rating, whether a page break came first, where it starts and its height. */
  datatype DrawnRow = DrawnRow(group: string, subcat: string, desc: string, value: string, newPage: bool, y: real, height: nat)

  /** The drawn rows, the current y, and `prev_grupo`/`prev_subcat`. */
  datatype RenderState = RenderState(rows: seq<DrawnRow>, y: real, prevGroup: Option<string>, prevSubcat: Option<string>)

  /** `barrier_values_texts.get(valor_num, valor_num)`. */
  function ValueText(values: map<string, string>, v: string): string
  {
    if v in values then values[v] else v
  }

  /** `4 * max(len(lines_desc), 1)`. */
  function EstimatedHeight(desc: string, descWidth: real, split: (string, real) -> seq<string>): nat
  {
    4 * LineCount(split, desc, descWidth)
  }

  /**
   * One barrier of the loop: a page break (with fresh headers and the
   * previous group and subcategory forgotten) when less than the row's
   * height plus 10 is left, then the row with its group shown only when
   * it changed and its subcategory when either changed.
   */
  function RenderStep(st: RenderState, b: FullBarrier, page: Page, values: map<string, string>,
                      descWidth: real, split: (string, real) -> seq<string>): (r: RenderState)
    ensures |r.rows| == |st.rows| + 1
  {
    var h := EstimatedHeight(b.desc, descWidth, split);
    var brk := page.height - st.y - page.bottomMargin < (h + 10) as real;
    var y := if brk then page.topMargin + 6.0 else st.y;
    var pg := if brk then None else st.prevGroup;
    var ps := if brk then None else st.prevSubcat;
    var dg := if pg != Some(b.grupo) then b.grupo else "";
    var ds := if pg != Some(b.grupo) || ps != Some(b.subcat) then b.subcat else "";
    RenderState(st.rows + [DrawnRow(dg, ds, b.desc, ValueText(values, b.valor), brk, y, h)], y + h as real, Some(b.grupo), Some(b.subcat))
  }

  /** The loop of lines 621-682 from a start position `y0`. */
  function Render(bs: seq<FullBarrier>, page: Page, y0: real, values: map<string, string>,
                  descWidth: real, split: (string, real) -> seq<string>): (r: RenderState)
    ensures |r.rows| == |bs|
  {
    if bs == [] then RenderState([], y0, None, None)
    else RenderStep(Render(bs[..|bs| - 1], page, y0, values, descWidth, split), bs[|bs| - 1], page, values, descWidth, split)
  }

  /** Where row `i` would start before any page break: `y0`, or the end of the row before. */
  function YBefore(rows: seq<DrawnRow>, i: nat, y0: real): real
    requires i <= |rows|
  {
    if i == 0 then y0 else rows[i - 1].y + rows[i - 1].height as real
  }

  /** What the barrier table shows in row `i`. */
  ghost predicate RowFacts(bs: seq<FullBarrier>, rows: seq<DrawnRow>, i: nat, page: Page, y0: real,
                           values: map<string, string>, descWidth: real, split: (string, real) -> seq<string>)
    requires i < |bs| && |rows| == |bs|
  {
    var d := rows[i];
    var b := bs[i];
    var top := i == 0 || d.newPage;
    && d.desc == b.desc && d.value == ValueText(values, b.valor)
    && d.height == EstimatedHeight(b.desc, descWidth, split)
    && (d.newPage <==> page.height - YBefore(rows, i, y0) - page.bottomMargin < (d.height + 10) as real)
    && d.y == (if d.newPage then page.topMargin + 6.0 else YBefore(rows, i, y0))
    && d.group == (if top || bs[i - 1].grupo != b.grupo then b.grupo else "")
    && d.subcat == (if top || bs[i - 1].grupo != b.grupo || bs[i - 1].subcat != b.subcat then b.subcat else "")
  }

  /**
   * Every drawn row: the group is printed on the first row of a page and
   * whenever it changes, the subcategory also whenever it changes, and a
   * page break comes exactly when the row would not fit with 10 to spare.
   */
  lemma {:induction false} RenderRows(bs: seq<FullBarrier>, page: Page, y0: real, values: map<string, string>,
                                      descWidth: real, split: (string, real) -> seq<string>)
    ensures var st := Render(bs, page, y0, values, descWidth, split);
      && |st.rows| == |bs|
      && st.y == YBefore(st.rows, |bs|, y0)
      && st.prevGroup == (if bs == [] then None else Some(bs[|bs| - 1].grupo))
      && st.prevSubcat == (if bs == [] then None else Some(bs[|bs| - 1].subcat))
      && forall i :: 0 <= i < |bs| ==> RowFacts(bs, st.rows, i, page, y0, values, descWidth, split)
  {
    if bs != [] {
      var n := |bs| - 1;
      var init := bs[..n];
      RenderRows(init, page, y0, values, descWidth, split);
      var st0 := Render(init, page, y0, values, descWidth, split);
      var st := Render(bs, page, y0, values, descWidth, split);
      assert st == RenderStep(st0, bs[n], page, values, descWidth, split);
      RenderLastRow(bs, st0, page, y0, values, descWidth, split);
      forall i | 0 <= i < n
        ensures RowFacts(bs, st.rows, i, page, y0, values, descWidth, split)
      {
        RowFactsKept(bs, st0.rows, st.rows, i, page, y0, values, descWidth, split);
      }
    }
  }

  /** The row a step appends, drawn after the rows of all earlier barriers. */
  lemma RenderLastRow(bs: seq<FullBarrier>, st0: RenderState, page: Page, y0: real, values: map<string, string>,
                      descWidth: real, split: (string, real) -> seq<string>)
    requires |bs| > 0 && |st0.rows| == |bs| - 1 && st0.y == YBefore(st0.rows, |bs| - 1, y0)
    requires st0.prevGroup == (if |bs| == 1 then None else Some(bs[|bs| - 2].grupo))
    requires st0.prevSubcat == (if |bs| == 1 then None else Some(bs[|bs| - 2].subcat))
    ensures var st := RenderStep(st0, bs[|bs| - 1], page, values, descWidth, split);
      && st.rows[..|bs| - 1] == st0.rows
      && st.y == YBefore(st.rows, |bs|, y0)
      && RowFacts(bs, st.rows, |bs| - 1, page, y0, values, descWidth, split)
  {
    var st := RenderStep(st0, bs[|bs| - 1], page, values, descWidth, split);
    assert st.rows[..|bs| - 1] == st0.rows;
    if |bs| > 1 {
      assert st.rows[|bs| - 2] == st0.rows[|bs| - 2];
    }
  }

  /** A row's facts survive appending a row after it. */
  lemma RowFactsKept(bs: seq<FullBarrier>, rows0: seq<DrawnRow>, rows: seq<DrawnRow>, i: nat, page: Page, y0: real,
                     values: map<string, string>, descWidth: real, split: (string, real) -> seq<string>)
    requires |bs| > 0 && |rows0| == |bs| - 1 && |rows| == |bs| && rows[..|bs| - 1] == rows0 && i < |bs| - 1
    requires RowFacts(bs[..|bs| - 1], rows0, i, page, y0, values, descWidth, split)
    ensures RowFacts(bs, rows, i, page, y0, values, descWidth, split)
  {
    assert rows[i] == rows0[i] && bs[i] == bs[..|bs| - 1][i];
    if i > 0 {
      assert rows[i - 1] == rows0[i - 1] && bs[i - 1] == bs[..|bs| - 1][i - 1];
    }
  }

  /** Right after a page break both the group and the subcategory are printed again. */
  lemma PageBreakRepeatsHeadings(bs: seq<FullBarrier>, page: Page, y0: real, values: map<string, string>,
                                 descWidth: real, split: (string, real) -> seq<string>, i: nat)
    requires i < |bs|
    requires Render(bs, page, y0, values, descWidth, split).rows[i].newPage
    ensures Render(bs, page, y0, values, descWidth, split).rows[i].group == bs[i].grupo
    ensures Render(bs, page, y0, values, descWidth, split).rows[i].subcat == bs[i].subcat
  {
    RenderRows(bs, page, y0, values, descWidth, split);
    assert RowFacts(bs, Render(bs, page, y0, values, descWidth, split).rows, i, page, y0, values, descWidth, split);
  }

  /** When every row fits on a fresh page, every row ends at least 10 above the bottom margin. */
  lemma RowsStayOnPage(bs: seq<FullBarrier>, page: Page, y0: real, values: map<string, string>,
                       descWidth: real, split: (string, real) -> seq<string>)
    requires forall i :: 0 <= i < |bs| ==>
      page.topMargin + 6.0 + (EstimatedHeight(bs[i].desc, descWidth, split) + 10) as real <= page.height - page.bottomMargin
    ensures var rows := Render(bs, page, y0, values, descWidth, split).rows;
      forall i :: 0 <= i < |rows| ==> rows[i].y + (rows[i].height + 10) as real <= page.height - page.bottomMargin
  {
    RenderRows(bs, page, y0, values, descWidth, split);
    var rows := Render(bs, page, y0, values, descWidth, split).rows;
    forall i | 0 <= i < |rows|
      ensures rows[i].y + (rows[i].height + 10) as real <= page.height - page.bottomMargin
    {
      assert RowFacts(bs, rows, i, page, y0, values, descWidth, split);
    }
  }

  /** The drawing loop, carrying `prev_grupo` and `prev_subcat` from row to row. */
  method RenderBarriers(bs: seq<FullBarrier>, page: Page, y0: real, values: map<string, string>,
                        descWidth: real, split: (string, real) -> seq<string>) returns (rows: seq<DrawnRow>, y: real)
    ensures RenderState(rows, y, if bs == [] then None else Some(bs[|bs| - 1].grupo),
                        if bs == [] then None else Some(bs[|bs| - 1].subcat))
            == Render(bs, page, y0, values, descWidth, split)
  {
    rows := [];
    y := y0;
    var prevGroup: Option<string> := None;
    var prevSubcat: Option<string> := None;
    for k := 0 to |bs|
      invariant RenderState(rows, y, prevGroup, prevSubcat) == Render(bs[..k], page, y0, values, descWidth, split)
    {
      assert bs[..k + 1][..k] == bs[..k];
      rows, y, prevGroup, prevSubcat := DrawRow(rows, y, prevGroup, prevSubcat, bs[k], page, values, descWidth, split);
    }
    assert bs[..|bs|] == bs;
  }

  /** One pass of the drawing loop: the page-break test, the row, and the carried group and subcategory. */
  method DrawRow(rows0: seq<DrawnRow>, y0: real, prevGroup0: Option<string>, prevSubcat0: Option<string>, b: FullBarrier,
                 page: Page, values: map<string, string>, descWidth: real, split: (string, real) -> seq<string>)
    returns (rows: seq<DrawnRow>, y: real, prevGroup: Option<string>, prevSubcat: Option<string>)
    ensures RenderState(rows, y, prevGroup, prevSubcat) ==
      RenderStep(RenderState(rows0, y0, prevGroup0, prevSubcat0), b, page, values, descWidth, split)
  {
    y, prevGroup, prevSubcat := y0, prevGroup0, prevSubcat0;
    var lines := split(b.desc, descWidth);
    var h: nat := 4 * (if |lines| > 1 then |lines| else 1);
    var brk := page.height - y - page.bottomMargin < (h + 10) as real;
    if brk {
      y := page.topMargin + 6.0;
      prevGroup := None;
      prevSubcat := None;
    }
    var dg := if prevGroup != Some(b.grupo) then b.grupo else "";
    var ds := if prevGroup != Some(b.grupo) || prevSubcat != Some(b.subcat) then b.subcat else "";
    rows := rows0 + [DrawnRow(dg, ds, b.desc, ValueText(values, b.valor), brk, y, h)];
    y := y + h as real;
    prevGroup := Some(b.grupo);
    prevSubcat := Some(b.subcat);
  }

  /** Section 5 of the report: a single "not available" row, or the grouped barrier rows. */
  datatype BarrierTable = NotAvailable | BarrierRows(rows: seq<DrawnRow>)

  function BarrierSection(data: seq<BarrierRecord>, translations: map<string, Translation>, page: Page, y0: real,
                          values: map<string, string>, descWidth: real, split: (string, real) -> seq<string>): (r: BarrierTable)
    ensures r.NotAvailable? <==> data == [] || |translations| == 0 || BarriersFull(data, translations) == []
    ensures r.BarrierRows? ==>
      r.rows == Render(SortBy(BarriersFull(data, translations), ByGroup()), page, y0, values, descWidth, split).rows
  {
    if data == [] || |translations| == 0 then NotAvailable
    else
      var full := BarriersFull(data, translations);
      if full == [] then NotAvailable
      else BarrierRows(Render(SortBy(full, ByGroup()), page, y0, values, descWidth, split).rows)
  }

  /** The barrier rows come sorted by group, then by subcategory, and are the shown barriers (no more, no fewer). */
  lemma BarrierSectionSorted(data: seq<BarrierRecord>, translations: map<string, Translation>)
    ensures var full := BarriersFull(data, translations);
      var s := SortBy(full, ByGroup());
      && multiset(s) == multiset(full)
      && forall i, j :: 0 <= i < j < |s| ==> GroupLe(s[i], s[j])
  {
    ByGroupTotalPreorder();
    SortBySorted(BarriersFull(data, translations), ByGroup());
  }

  // ---------------------------------------------------------------------
  // The total report
  // ---------------------------------------------------------------------

  /** The sheet file of an SbN: "SbN_<n>.pdf", without zero padding. */
  function SheetName(i: nat): string
  {
    "SbN_" + NatToString(i) + ".pdf"
  }

  /** The SbN numbers 1..n whose sheet exists in the sheets folder, in numeric order. */
  function SheetsUpTo(files: set<string>, n: nat): (r: seq<nat>)
    ensures forall i :: i in r <==> 1 <= i <= n && SheetName(i) in files
    ensures forall i, j :: 0 <= i < j < |r| ==> r[i] < r[j]
    ensures forall i :: 0 <= i < |r| ==> 1 <= r[i] <= n
  {
    if n == 0 then []
    else
      var init := SheetsUpTo(files, n - 1);
      if SheetName(n) in files then init + [n] else init
  }

  /** `str.rfind(c)`: the last position of `c`, if any. */
  function LastIndexOf(s: string, c: char): (r: Option<nat>)
    ensures r.Some? ==> r.value < |s| && s[r.value] == c && forall k :: r.value < k < |s| ==> s[k] != c
    ensures r.None? ==> forall k :: 0 <= k < |s| ==> s[k] != c
  {
    if s == [] then None
    else if s[|s| - 1] == c then Some(|s| - 1)
    else LastIndexOf(s[..|s| - 1], c)
  }

  /** `Path(name).stem`: the name without its last suffix; a leading or trailing dot is no suffix. */
  function Stem(name: string): (r: string)
    ensures |r| <= |name| && r == name[..|r|]
  {
    match LastIndexOf(name, '.')
    case Some(i) => if 0 < i < |name| - 1 then name[..i] else name
    case None => name
  }

  /** The total report's file name. */
  function TotalName(reportName: string): string
  {
    Stem(reportName) + "_Total.pdf"
  }

  /** The total report never overwrites the report it starts from. */
  lemma TotalNameDiffers(reportName: string)
    ensures TotalName(reportName) != reportName
  {
    var s := Stem(reportName);
    var t := s + "_Total.pdf";
    if |t| == |reportName| {
      match LastIndexOf(reportName, '.')
      case Some(i) =>
        assert 0 < i < |reportName| - 1 && s == reportName[..i];
        assert t[i] == '_' && reportName[i] == '.';
      case None =>
    }
  }

  /** A plain "name.pdf" gives "name_Total.pdf". */
  lemma TotalNameOfPdf(stem: string)
    requires stem != [] && '.' !in stem
    ensures TotalName(stem + ".pdf") == stem + "_Total.pdf"
  {
    var name := stem + ".pdf";
    assert name[|stem|] == '.';
    assert forall k :: |stem| < k < |name| ==> name[k] != '.';
    assert LastIndexOf(name, '.') == Some(|stem|);
    assert name[..|stem|] == stem;
  }

  /** A merged PDF: its file name beside the report, and the parts in order (the report, then the sheets). */
  datatype Merge = Merge(output: string, report: string, sheets: seq<string>)

  /**
   * `concatenate_report_and_sheets`: False (None) when the report or the
   * sheets folder is missing, no sheet exists, or reading and writing the
   * PDFs fails (`pdfOk` false); otherwise the report followed by the
   * existing sheets of SbN 1 to 21.
   */
  method Concatenate(reportExists: bool, reportName: string, folderExists: bool, files: set<string>, pdfOk: bool)
    returns (merged: Option<Merge>)
    ensures merged.Some? <==> reportExists && folderExists && SheetsUpTo(files, 21) != [] && pdfOk
    ensures merged.Some? ==> merged.value.output == TotalName(reportName) && merged.value.report == reportName
    ensures merged.Some? ==> (|merged.value.sheets| == |SheetsUpTo(files, 21)|
      && forall k :: 0 <= k < |merged.value.sheets| ==> merged.value.sheets[k] == SheetName(SheetsUpTo(files, 21)[k]))
  {
    if !reportExists || !folderExists {
      return None;
    }
    var sheets: seq<string> := [];
    ghost var ids: seq<nat> := [];
    for i := 1 to 22
      invariant ids == SheetsUpTo(files, i - 1)
      invariant |sheets| == |ids| && forall k :: 0 <= k < |ids| ==> sheets[k] == SheetName(ids[k])
    {
      if SheetName(i) in files {
        sheets := sheets + [SheetName(i)];
        ids := ids + [i];
      }
    }
    if sheets == [] || !pdfOk {
      return None;
    }
    merged := Some(Merge(TotalName(reportName), reportName, sheets));
  }

  /** Sheet 10 comes after sheet 9: the order is numeric, not that of the file names. */
  lemma SheetsNumericOrder(files: set<string>)
    requires SheetName(9) in files && SheetName(10) in files
    ensures exists i, j :: 0 <= i < j < |SheetsUpTo(files, 21)| && SheetsUpTo(files, 21)[i] == 9 && SheetsUpTo(files, 21)[j] == 10
  {
    var r := SheetsUpTo(files, 21);
    assert 9 in r && 10 in r;
    var i :| 0 <= i < |r| && r[i] == 9;
    var j :| 0 <= j < |r| && r[j] == 10;
    assert i < j;
  }
}
