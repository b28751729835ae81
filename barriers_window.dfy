/**
 * The barriers evaluation: the barrier catalog grouped GB01..GB05, the
 * per-barrier values and per-group switches, the Barriers.csv rows written
 * on save and read back on load, the value labels and the colour helpers
 * of a barrier item.
 */
module BarriersWindow {
  import opened Wrappers
  import opened PyNum

  const GroupCodes: seq<string> := ["GB01", "GB02", "GB03", "GB04", "GB05"]

  /** The neutral value, "no barriers". */
  const Neutral: int := 1

  /** `group_states` as the window starts: every group switched on. */
  const AllOn: seq<bool> := [true, true, true, true, true]

  function GroupIndex(code: string): (g: Option<nat>)
    ensures g.Some? <==> code in GroupCodes
    ensures g.Some? ==> g.value < |GroupCodes| && GroupCodes[g.value] == code
  {
    if code == "GB01" then Some(0) else if code == "GB02" then Some(1) else if code == "GB03" then Some(2)
    else if code == "GB04" then Some(3) else if code == "GB05" then Some(4) else None
  }

  // ---------------------------------------------------------------------
  // Catalog
  // ---------------------------------------------------------------------

  /** A catalog row; None stands for a missing (NaN) cell. */
  datatype CatalogRow = CatalogRow(code: Option<string>, description: Option<string>, subcategory: Option<string>, group: Option<string>)

  datatype Barrier = Barrier(code: string, description: string, subcategory: string, defaultValue: int)

  /** A row is kept when it has a non-empty code, a non-empty description and one of the five groups. */
  predicate Accepted(r: CatalogRow)
  {
    r.code.Some? && r.code.value != "" && r.description.Some? && r.description.value != "" &&
    r.group.Some? && r.group.value in GroupCodes
  }

  function ToBarrier(r: CatalogRow): (b: Barrier)
    requires Accepted(r)
    ensures b.defaultValue == Neutral && b.code != "" && b.description != ""
  {
    Barrier(r.code.value, r.description.value, r.subcategory.GetOr(""), Neutral)
  }

  /** The barriers of group `gc`, in row order. */
  function GroupBarriers(rows: seq<CatalogRow>, gc: string): seq<Barrier>
  {
    if |rows| == 0 then []
    else
      var last := rows[|rows| - 1];
      GroupBarriers(rows[..|rows| - 1], gc) + (if Accepted(last) && last.group.value == gc then [ToBarrier(last)] else [])
  }

  /** A group holds exactly the accepted rows of that group, each with the neutral default. */
  lemma {:induction false} GroupBarriersMembers(rows: seq<CatalogRow>, gc: string, b: Barrier)
    ensures b in GroupBarriers(rows, gc) <==> exists r :: r in rows && Accepted(r) && r.group.value == gc && b == ToBarrier(r)
  {
    if |rows| > 0 {
      var init := rows[..|rows| - 1];
      GroupBarriersMembers(init, gc, b);
      assert rows == init + [rows[|rows| - 1]];
      assert forall r :: r in rows <==> r in init || r == rows[|rows| - 1];
    }
  }

  /** `_load_barriers_data`: one pass over the rows appends each kept row to its group. */
  method LoadCatalog(rows: seq<CatalogRow>) returns (catalog: seq<seq<Barrier>>)
    ensures |catalog| == |GroupCodes|
    ensures forall g :: 0 <= g < |GroupCodes| ==> catalog[g] == GroupBarriers(rows, GroupCodes[g])
  {
    catalog := [[], [], [], [], []];
    for k := 0 to |rows|
      invariant |catalog| == |GroupCodes|
      invariant forall g :: 0 <= g < |GroupCodes| ==> catalog[g] == GroupBarriers(rows[..k], GroupCodes[g])
    {
      assert rows[..k + 1][..k] == rows[..k];
      var r := rows[k];
      if r.code.Some? && r.code.value != "" && r.description.Some? && r.description.value != "" && r.group.Some? {
        var g := GroupIndex(r.group.value);
        if g.Some? {
          catalog := catalog[g.value := catalog[g.value] + [ToBarrier(r)]];
        }
      }
    }
    assert rows[..|rows|] == rows;
  }

  // ---------------------------------------------------------------------
  // Barriers.csv
  // ---------------------------------------------------------------------

  /** A row of Barriers.csv: barrier code, value, group code and the group switch as 1/0. */
  datatype CsvRow = CsvRow(code: string, value: real, group: string, enabled: int)

  /** The value stored for a barrier, the neutral one when none is. */
  function ValueOf(values: map<string, int>, code: string): int
  {
    if code in values then values[code] else Neutral
  }

  function GroupRows(bs: seq<Barrier>, gc: string, enabled: bool, values: map<string, int>): (rows: seq<CsvRow>)
    ensures |rows| == |bs|
  {
    seq(|bs|, k requires 0 <= k < |bs| =>
      CsvRow(bs[k].code, (if enabled then ValueOf(values, bs[k].code) else Neutral) as real, gc, if enabled then 1 else 0))
  }

  /** The rows of the first `n` groups, group after group, barriers in catalog order. */
  function SaveRows(catalog: seq<seq<Barrier>>, states: seq<bool>, values: map<string, int>, n: nat): seq<CsvRow>
    requires |catalog| == |GroupCodes| == |states| && n <= |GroupCodes|
  {
    if n == 0 then []
    else SaveRows(catalog, states, values, n - 1) + GroupRows(catalog[n - 1], GroupCodes[n - 1], states[n - 1], values)
  }

  /** The number of barriers in the first `n` groups. */
  function CountBefore(catalog: seq<seq<Barrier>>, n: nat): nat
    requires n <= |catalog|
  {
    if n == 0 then 0 else CountBefore(catalog, n - 1) + |catalog[n - 1]|
  }

  /**
   * Barrier `k` of group `g` is row `CountBefore(g) + k`: its code, the
   * stored value or 1 (forced to 1 when the group is off), its group and
   * the switch as 1/0.
   */
  lemma {:induction false} SaveRowAt(catalog: seq<seq<Barrier>>, states: seq<bool>, values: map<string, int>, n: nat, g: nat, k: nat)
    requires |catalog| == |GroupCodes| == |states| && g < n <= |GroupCodes| && k < |catalog[g]|
    ensures |SaveRows(catalog, states, values, n)| == CountBefore(catalog, n)
    ensures CountBefore(catalog, g) + k < CountBefore(catalog, n)
    ensures SaveRows(catalog, states, values, n)[CountBefore(catalog, g) + k] ==
      CsvRow(catalog[g][k].code, (if states[g] then ValueOf(values, catalog[g][k].code) else Neutral) as real,
             GroupCodes[g], if states[g] then 1 else 0)
  {
    SaveRowsSize(catalog, states, values, n);
    SaveRowsSize(catalog, states, values, n - 1);
    if g < n - 1 {
      SaveRowAt(catalog, states, values, n - 1, g, k);
    }
  }

  lemma {:induction false} SaveRowsSize(catalog: seq<seq<Barrier>>, states: seq<bool>, values: map<string, int>, n: nat)
    requires |catalog| == |GroupCodes| == |states| && n <= |GroupCodes|
    ensures |SaveRows(catalog, states, values, n)| == CountBefore(catalog, n)
  {
    if n > 0 {
      SaveRowsSize(catalog, states, values, n - 1);
    }
  }

  /** Every saved row has a 1/0 switch, and a row of a switched-off group has the neutral value. */
  lemma {:induction false} SaveRowsForced(catalog: seq<seq<Barrier>>, states: seq<bool>, values: map<string, int>, n: nat)
    requires |catalog| == |GroupCodes| == |states| && n <= |GroupCodes|
    ensures forall r :: r in SaveRows(catalog, states, values, n) ==>
      (r.enabled == 0 || r.enabled == 1) && (r.enabled == 0 ==> r.value == Neutral as real) && r.group in GroupCodes[..n]
  {
    if n > 0 {
      SaveRowsForced(catalog, states, values, n - 1);
      var rows := SaveRows(catalog, states, values, n);
      var init := SaveRows(catalog, states, values, n - 1);
      var last := GroupRows(catalog[n - 1], GroupCodes[n - 1], states[n - 1], values);
      assert rows == init + last;
      assert GroupCodes[n - 1] in GroupCodes[..n];
      assert forall r :: r in init ==> r.group in GroupCodes[..n] by {
        assert forall x :: x in GroupCodes[..n - 1] ==> x in GroupCodes[..n];
      }
    }
  }

  /** What a load rebuilds from Barriers.csv: each code takes `int(float(value))` of its last row. */
  function LoadValues(values: map<string, int>, rows: seq<CsvRow>): map<string, int>
  {
    if |rows| == 0 then values
    else LoadValues(values, rows[..|rows| - 1])[rows[|rows| - 1].code := Trunc(rows[|rows| - 1].value)]
  }

  /**
   * A row of Barriers.csv as read back: the value is None where the cell
   * is NaN or not a number, so that `int(float(value))` raises.
   */
  datatype ReadRow = ReadRow(code: string, value: Option<real>, group: string, enabled: int)

  /** The read rows whose values all parsed, as rows with numbers. */
  function Parsed(read: seq<ReadRow>): (rows: seq<CsvRow>)
    requires forall k :: 0 <= k < |read| ==> read[k].value.Some?
    ensures |rows| == |read|
    ensures forall k :: 0 <= k < |read| ==>
              rows[k] == CsvRow(read[k].code, read[k].value.value, read[k].group, read[k].enabled)
  {
    seq(|read|, k requires 0 <= k < |read| => CsvRow(read[k].code, read[k].value.value, read[k].group, read[k].enabled))
  }

  /** The first row whose value does not parse, if any. */
  function FirstUnparsed(read: seq<ReadRow>): (r: Option<nat>)
    ensures r.None? <==> forall k :: 0 <= k < |read| ==> read[k].value.Some?
    ensures r.Some? ==> r.value < |read| && read[r.value].value.None? &&
                        forall k :: 0 <= k < r.value ==> read[k].value.Some?
  {
    if |read| == 0 then None
    else if read[0].value.None? then Some(0)
    else
      var rest := FirstUnparsed(read[1..]);
      if rest.None? then
        assert forall k :: 1 <= k < |read| ==> read[k].value == read[1..][k - 1].value;
        None
      else
        assert forall k :: 1 <= k < rest.value + 1 ==> read[k].value == read[1..][k - 1].value;
        Some(rest.value + 1)
  }

  /** The rows a save writes, as they read back: every value parses. */
  function ReadBack(rows: seq<CsvRow>): (read: seq<ReadRow>)
    ensures FirstUnparsed(read).None?
    ensures Parsed(read) == rows
  {
    var read := seq(|rows|, k requires 0 <= k < |rows| => ReadRow(rows[k].code, Some(rows[k].value), rows[k].group, rows[k].enabled));
    assert forall k :: 0 <= k < |read| ==> read[k].value.Some?;
    assert Parsed(read) == rows;
    read
  }

  /** The first loop of a load: values are written row by row until one does not parse. */
  method ReadValues(values: map<string, int>, read: seq<ReadRow>) returns (vals: map<string, int>, failed: bool)
    ensures failed <==> FirstUnparsed(read).Some?
    ensures !failed ==> vals == LoadValues(values, Parsed(read))
    ensures failed ==> vals == LoadValues(values, Parsed(read[..FirstUnparsed(read).value]))
  {
    vals := values;
    for k := 0 to |read|
      invariant forall j :: 0 <= j < k ==> read[j].value.Some?
      invariant vals == LoadValues(values, Parsed(read[..k]))
    {
      if read[k].value.None? {
        return vals, true;
      }
      assert Parsed(read[..k + 1])[..k] == Parsed(read[..k]);
      vals := vals[read[k].code := Trunc(read[k].value.value)];
    }
    assert read[..|read|] == read;
    failed := false;
  }

  /** Each known group takes the switch of its last row; unknown groups are ignored. */
  function LoadStates(states: seq<bool>, rows: seq<CsvRow>): (r: seq<bool>)
    requires |states| == |GroupCodes|
    ensures |r| == |GroupCodes|
  {
    if |rows| == 0 then states
    else
      var s := LoadStates(states, rows[..|rows| - 1]);
      var last := rows[|rows| - 1];
      match GroupIndex(last.group)
      case None => s
      case Some(g) => s[g := last.enabled != 0]
  }

  /** A code on exactly one row takes that row's value. */
  lemma {:induction false} LoadValuesUnique(values: map<string, int>, rows: seq<CsvRow>, p: nat)
    requires p < |rows| && forall q :: 0 <= q < |rows| && q != p ==> rows[q].code != rows[p].code
    ensures rows[p].code in LoadValues(values, rows) && LoadValues(values, rows)[rows[p].code] == Trunc(rows[p].value)
  {
    var n := |rows| - 1;
    if p < n {
      assert forall q :: 0 <= q < n && q != p ==> rows[..n][q].code != rows[..n][p].code;
      LoadValuesUnique(values, rows[..n], p);
    }
  }

  /** A group whose last row is at `p` takes that row's switch. */
  lemma {:induction false} LoadStatesLast(states: seq<bool>, rows: seq<CsvRow>, p: nat, g: nat)
    requires |states| == |GroupCodes| && g < |GroupCodes|
    requires p < |rows| && rows[p].group == GroupCodes[g]
    requires forall q :: p < q < |rows| ==> rows[q].group != GroupCodes[g]
    ensures LoadStates(states, rows)[g] == (rows[p].enabled != 0)
  {
    var n := |rows| - 1;
    if p < n {
      LoadStatesLast(states, rows[..n], p, g);
    }
  }

  // ---------------------------------------------------------------------
  // The window state
  // ---------------------------------------------------------------------

  /** The codes of a group's barriers. */
  function CodesOf(bs: seq<Barrier>): set<string>
  {
    set k | 0 <= k < |bs| :: bs[k].code
  }

  predicate DistinctCodes(catalog: seq<seq<Barrier>>)
  {
    forall g1, k1, g2, k2 ::
      (0 <= g1 < |catalog| && 0 <= k1 < |catalog[g1]| && 0 <= g2 < |catalog| && 0 <= k2 < |catalog[g2]| && (g1, k1) != (g2, k2))
      ==> catalog[g1][k1].code != catalog[g2][k2].code
  }

  class BarriersState {
    var catalog: seq<seq<Barrier>>
    /** `group_states`, indexed like GroupCodes. */
    var groupStates: seq<bool>
    var barrierValues: map<string, int>
    var hasPreviousData: bool

    ghost predicate Valid()
      reads this
    {
      |catalog| == |GroupCodes| && |groupStates| == |GroupCodes|
    }

    /** Every group starts switched on, no barrier value is stored yet. */
    constructor (rows: seq<CatalogRow>)
      ensures Valid()
      ensures forall g :: 0 <= g < |GroupCodes| ==> catalog[g] == GroupBarriers(rows, GroupCodes[g]) && groupStates[g]
      ensures barrierValues == map[] && !hasPreviousData
    {
      var c := LoadCatalog(rows);
      catalog := c;
      groupStates := AllOn;
      barrierValues := map[];
      hasPreviousData := false;
    }

    /** `_on_group_toggle`: records the switch; switching a group off sets each of its barriers to 1. */
    method OnGroupToggle(g: nat, enabled: bool)
      requires Valid() && g < |GroupCodes|
      modifies this
      ensures Valid() && catalog == old(catalog) && hasPreviousData == old(hasPreviousData)
      ensures groupStates == old(groupStates)[g := enabled]
      ensures enabled ==> barrierValues == old(barrierValues)
      ensures !enabled ==> (barrierValues.Keys == old(barrierValues).Keys + CodesOf(catalog[g]) &&
        forall c :: c in barrierValues ==> barrierValues[c] == (if c in CodesOf(catalog[g]) then Neutral else old(barrierValues)[c]))
    {
      groupStates := groupStates[g := enabled];
      if !enabled {
        var bs := catalog[g];
        var vals := barrierValues;
        for k := 0 to |bs|
          invariant vals.Keys == old(barrierValues).Keys + CodesOf(bs[..k])
          invariant forall c :: c in vals ==> vals[c] == (if c in CodesOf(bs[..k]) then Neutral else old(barrierValues)[c])
        {
          assert CodesOf(bs[..k + 1]) == CodesOf(bs[..k]) + {bs[k].code} by {
            assert forall j :: 0 <= j < k ==> bs[..k + 1][j] == bs[..k][j];
            assert bs[..k + 1][k] == bs[k];
          }
          vals := vals[bs[k].code := Neutral];
        }
        assert bs[..|bs|] == bs;
        barrierValues := vals;
      }
    }

    /** `_on_barrier_value_change`: the chosen value is stored for the barrier. */
    method OnBarrierValueChange(code: string, value: int)
      requires Valid()
      modifies this
      ensures Valid() && catalog == old(catalog) && groupStates == old(groupStates) && hasPreviousData == old(hasPreviousData)
      ensures barrierValues == old(barrierValues)[code := value]
    {
      barrierValues := barrierValues[code := value];
    }

    /** `_save`: one row per catalog barrier, group after group. */
    method Save() returns (rows: seq<CsvRow>)
      requires Valid()
      ensures rows == SaveRows(catalog, groupStates, barrierValues, |GroupCodes|)
    {
      rows := [];
      for g := 0 to |GroupCodes|
        invariant rows == SaveRows(catalog, groupStates, barrierValues, g)
      {
        var enabled := groupStates[g];
        var bs := catalog[g];
        ghost var done := rows;
        for k := 0 to |bs|
          invariant rows == done + GroupRows(bs[..k], GroupCodes[g], enabled, barrierValues)
        {
          var value := if enabled then ValueOf(barrierValues, bs[k].code) else Neutral;
          assert GroupRows(bs[..k + 1], GroupCodes[g], enabled, barrierValues) ==
            GroupRows(bs[..k], GroupCodes[g], enabled, barrierValues) + [CsvRow(bs[k].code, value as real, GroupCodes[g], if enabled then 1 else 0)];
          rows := rows + [CsvRow(bs[k].code, value as real, GroupCodes[g], if enabled then 1 else 0)];
        }
        assert bs[..|bs|] == bs;
      }
    }

    /**
     * `_load_existing_evaluation` from the rows of Barriers.csv: each code
     * takes its last row's value, each known group its last row's switch.
     * A value that does not parse raises in the middle of the first loop:
     * the codes before it are already written, the group switches are
     * not restored and previous data is not marked present.
     */
    method Load(read: seq<ReadRow>)
      requires Valid()
      modifies this
      ensures Valid() && catalog == old(catalog)
      ensures FirstUnparsed(read).None? ==>
        && hasPreviousData
        && barrierValues == LoadValues(old(barrierValues), Parsed(read))
        && groupStates == LoadStates(old(groupStates), Parsed(read))
      ensures FirstUnparsed(read).Some? ==>
        && hasPreviousData == old(hasPreviousData)
        && barrierValues == LoadValues(old(barrierValues), Parsed(read[..FirstUnparsed(read).value]))
        && groupStates == old(groupStates)
    {
      var vals, failed := ReadValues(barrierValues, read);
      barrierValues := vals;
      if failed {
        return;
      }
      var rows := Parsed(read);
      var states := groupStates;
      for k := 0 to |rows|
        invariant states == LoadStates(old(groupStates), rows[..k])
      {
        assert rows[..k + 1][..k] == rows[..k];
        var g := GroupIndex(rows[k].group);
        if g.Some? {
          states := states[g.value := rows[k].enabled != 0];
        }
      }
      assert rows[..|rows|] == rows;
      groupStates := states;
      hasPreviousData := true;
    }

    /**
     * `_load_previous_evaluation`: `file` holds the rows of Barriers.csv when
     * the project has one, and is loaded. Without one, the default file is
     * written (`written`) and loaded in its place; when the project has no
     * folder or the file cannot be written (`writable` false), nothing is
     * loaded.
     */
    method LoadPrevious(file: Option<seq<ReadRow>>, writable: bool) returns (written: seq<CsvRow>)
      requires Valid()
      modifies this
      ensures Valid() && catalog == old(catalog)
      ensures written == (if file.None? && writable then DefaultRows(catalog) else [])
      ensures file.None? && !writable ==>
        barrierValues == old(barrierValues) && groupStates == old(groupStates) && hasPreviousData == old(hasPreviousData)
      ensures file.Some? || writable ==>
        var read := if file.Some? then file.value else ReadBack(written);
        && (FirstUnparsed(read).None? ==>
              && hasPreviousData
              && barrierValues == LoadValues(old(barrierValues), Parsed(read))
              && groupStates == LoadStates(old(groupStates), Parsed(read)))
        && (FirstUnparsed(read).Some? ==>
              && hasPreviousData == old(hasPreviousData)
              && barrierValues == LoadValues(old(barrierValues), Parsed(read[..FirstUnparsed(read).value]))
              && groupStates == old(groupStates))
    {
      written := [];
      var read: seq<ReadRow>;
      if file.Some? {
        read := file.value;
      } else if writable {
        written := DefaultRows(catalog);
        read := ReadBack(written);
      } else {
        return;
      }
      Load(read);
    }
  }

  /** `_create_default_barriers_file`: every catalog barrier at 1, every group on, group after group. */
  function DefaultRows(catalog: seq<seq<Barrier>>): seq<CsvRow>
    requires |catalog| == |GroupCodes|
  {
    SaveRows(catalog, AllOn, map[], |GroupCodes|)
  }

  /** Every row holds the neutral value with its group switched on. */
  predicate NeutralOn(rows: seq<CsvRow>)
  {
    forall q :: 0 <= q < |rows| ==> rows[q].value == Neutral as real && rows[q].enabled == 1
  }

  /** Every row of the default file has the neutral value and the switch on. */
  lemma {:induction false} DefaultRowsNeutral(catalog: seq<seq<Barrier>>, n: nat)
    requires |catalog| == |GroupCodes| && n <= |GroupCodes|
    ensures NeutralOn(SaveRows(catalog, AllOn, map[], n))
  {
    if n > 0 {
      DefaultRowsNeutral(catalog, n - 1);
      var init := SaveRows(catalog, AllOn, map[], n - 1);
      assert NeutralOn(init);
      var last := GroupRows(catalog[n - 1], GroupCodes[n - 1], AllOn[n - 1], map[]);
      var rows := SaveRows(catalog, AllOn, map[], n);
      assert rows == init + last;
      forall q | 0 <= q < |rows|
        ensures rows[q].value == Neutral as real && rows[q].enabled == 1
      {
        if q < |init| {
          assert rows[q] == init[q];
        } else {
          var k := q - |init|;
          assert rows[q] == last[k];
          assert AllOn[n - 1];
          assert ValueOf(map[], catalog[n - 1][k].code) == Neutral;
        }
      }
    }
  }

  /** Loading rows that all hold the neutral value stores 1 for each of their codes and nothing else new. */
  lemma {:induction false} NeutralRowsLoad(before: map<string, int>, rows: seq<CsvRow>)
    requires forall q :: 0 <= q < |rows| ==> rows[q].value == Neutral as real
    ensures var v := LoadValues(before, rows);
      && (forall q :: 0 <= q < |rows| ==> rows[q].code in v && v[rows[q].code] == Neutral)
      && (forall c :: c in v ==> (c in before && v[c] == before[c]) || v[c] == Neutral)
  {
    if |rows| > 0 {
      var n := |rows| - 1;
      NeutralRowsLoad(before, rows[..n]);
      TruncOfInteger(Neutral);
      assert forall q :: 0 <= q < n ==> rows[..n][q] == rows[q];
    }
  }

  /** Loading rows whose switches are all on leaves switches that are all on as they were. */
  lemma {:induction false} EnabledRowsLoad(states: seq<bool>, rows: seq<CsvRow>)
    requires states == AllOn
    requires forall q :: 0 <= q < |rows| ==> rows[q].enabled != 0
    ensures LoadStates(states, rows) == states
  {
    if |rows| > 0 {
      var n := |rows| - 1;
      EnabledRowsLoad(states, rows[..n]);
    }
  }

  /**
   * A window opened on a project without Barriers.csv loads the default
   * file: every group stays on, every catalog barrier is stored at 1 and
   * no other value is stored.
   */
  lemma DefaultFileLoad(catalog: seq<seq<Barrier>>)
    requires |catalog| == |GroupCodes|
    ensures Parsed(ReadBack(DefaultRows(catalog))) == DefaultRows(catalog)
    ensures LoadStates(AllOn, DefaultRows(catalog)) == AllOn
    ensures var v := LoadValues(map[], DefaultRows(catalog));
      && (forall g, k :: 0 <= g < |GroupCodes| && 0 <= k < |catalog[g]| ==>
            catalog[g][k].code in v && v[catalog[g][k].code] == Neutral)
      && (forall c :: c in v ==> v[c] == Neutral)
  {
    var rows := DefaultRows(catalog);
    DefaultRowsNeutral(catalog, |GroupCodes|);
    assert rows == SaveRows(catalog, AllOn, map[], |GroupCodes|);
    NeutralRowsLoad(map[], rows);
    EnabledRowsLoad(AllOn, rows);
    forall g, k | 0 <= g < |GroupCodes| && 0 <= k < |catalog[g]|
      ensures catalog[g][k].code in LoadValues(map[], rows) && LoadValues(map[], rows)[catalog[g][k].code] == Neutral
    {
      SaveRowAt(catalog, AllOn, map[], |GroupCodes|, g, k);
    }
  }

  /** The row a saved barrier lands on is the only row with its code, when codes are distinct. */
  lemma SavedCodeUnique(catalog: seq<seq<Barrier>>, states: seq<bool>, values: map<string, int>, g: nat, k: nat)
    requires |catalog| == |GroupCodes| == |states| && DistinctCodes(catalog)
    requires g < |GroupCodes| && k < |catalog[g]|
    ensures var rows := SaveRows(catalog, states, values, |GroupCodes|); var p := CountBefore(catalog, g) + k;
      p < |rows| && forall q :: 0 <= q < |rows| && q != p ==> rows[q].code != rows[p].code
  {
    var rows := SaveRows(catalog, states, values, |GroupCodes|);
    var p := CountBefore(catalog, g) + k;
    SaveRowAt(catalog, states, values, |GroupCodes|, g, k);
    forall q | 0 <= q < |rows| && q != p
      ensures rows[q].code != rows[p].code
    {
      SavedRowDiffers(catalog, states, values, g, k, q);
    }
  }

  /** Any other saved row carries another code. */
  lemma SavedRowDiffers(catalog: seq<seq<Barrier>>, states: seq<bool>, values: map<string, int>, g: nat, k: nat, q: nat)
    requires |catalog| == |GroupCodes| == |states| && DistinctCodes(catalog)
    requires g < |GroupCodes| && k < |catalog[g]|
    requires q < |SaveRows(catalog, states, values, |GroupCodes|)| && q != CountBefore(catalog, g) + k
    ensures SaveRows(catalog, states, values, |GroupCodes|)[q].code != catalog[g][k].code
  {
    SaveRowsSize(catalog, states, values, |GroupCodes|);
    var g2, k2 := Locate(catalog, q);
    SaveRowAt(catalog, states, values, |GroupCodes|, g2, k2);
    assert (g2, k2) != (g, k);
  }

  /** The last barrier of a group is the last saved row of that group. */
  lemma SavedGroupLast(catalog: seq<seq<Barrier>>, states: seq<bool>, values: map<string, int>, g: nat)
    requires |catalog| == |GroupCodes| == |states| && g < |GroupCodes| && |catalog[g]| > 0
    ensures var rows := SaveRows(catalog, states, values, |GroupCodes|); var last := CountBefore(catalog, g + 1) - 1;
      last < |rows| && rows[last].group == GroupCodes[g] && rows[last].enabled == (if states[g] then 1 else 0) &&
      forall q :: last < q < |rows| ==> rows[q].group != GroupCodes[g]
  {
    var rows := SaveRows(catalog, states, values, |GroupCodes|);
    SaveRowAt(catalog, states, values, |GroupCodes|, g, |catalog[g]| - 1);
    var last := CountBefore(catalog, g + 1) - 1;
    forall q | last < q < |rows|
      ensures rows[q].group != GroupCodes[g]
    {
      SavedLaterGroup(catalog, states, values, g, q);
    }
  }

  /** A saved row after the rows of group `g` belongs to a later group. */
  lemma SavedLaterGroup(catalog: seq<seq<Barrier>>, states: seq<bool>, values: map<string, int>, g: nat, q: nat)
    requires |catalog| == |GroupCodes| == |states| && g < |GroupCodes|
    requires CountBefore(catalog, g + 1) <= q < |SaveRows(catalog, states, values, |GroupCodes|)|
    ensures SaveRows(catalog, states, values, |GroupCodes|)[q].group != GroupCodes[g]
  {
    SaveRowsSize(catalog, states, values, |GroupCodes|);
    var g2, k2 := Locate(catalog, q);
    SaveRowAt(catalog, states, values, |GroupCodes|, g2, k2);
    if g2 <= g {
      CountBeforeGrows(catalog, g2 + 1, g + 1);
    }
    GroupCodesDistinct(g, g2);
  }

  /** The five group codes are distinct. */
  lemma GroupCodesDistinct(a: nat, b: nat)
    requires a < b < |GroupCodes|
    ensures GroupCodes[a] != GroupCodes[b]
  {
  }

  /**
   * Saving then loading restores every barrier's saved value (its own when
   * its group is on, 1 when off) and the switch of every group that has a
   * barrier, provided the codes are distinct.
   */
  lemma SaveLoadRoundTrip(catalog: seq<seq<Barrier>>, states: seq<bool>, values: map<string, int>,
                          before: map<string, int>, statesBefore: seq<bool>, g: nat, k: nat)
    requires |catalog| == |GroupCodes| == |states| == |statesBefore| && DistinctCodes(catalog)
    requires g < |GroupCodes| && k < |catalog[g]|
    ensures var rows := SaveRows(catalog, states, values, |GroupCodes|);
      var c := catalog[g][k].code;
      c in LoadValues(before, rows) &&
      LoadValues(before, rows)[c] == (if states[g] then ValueOf(values, c) else Neutral) &&
      LoadStates(statesBefore, rows)[g] == states[g]
  {
    SaveLoadValue(catalog, states, values, before, g, k);
    SaveLoadState(catalog, states, values, statesBefore, g);
  }

  lemma SaveLoadValue(catalog: seq<seq<Barrier>>, states: seq<bool>, values: map<string, int>,
                      before: map<string, int>, g: nat, k: nat)
    requires |catalog| == |GroupCodes| == |states| && DistinctCodes(catalog)
    requires g < |GroupCodes| && k < |catalog[g]|
    ensures var rows := SaveRows(catalog, states, values, |GroupCodes|);
      var c := catalog[g][k].code;
      c in LoadValues(before, rows) && LoadValues(before, rows)[c] == (if states[g] then ValueOf(values, c) else Neutral)
  {
    var rows := SaveRows(catalog, states, values, |GroupCodes|);
    SaveRowAt(catalog, states, values, |GroupCodes|, g, k);
    SavedCodeUnique(catalog, states, values, g, k);
    LoadValuesUnique(before, rows, CountBefore(catalog, g) + k);
    TruncOfInteger(if states[g] then ValueOf(values, catalog[g][k].code) else Neutral);
  }

  lemma SaveLoadState(catalog: seq<seq<Barrier>>, states: seq<bool>, values: map<string, int>,
                      statesBefore: seq<bool>, g: nat)
    requires |catalog| == |GroupCodes| == |states| == |statesBefore| && g < |GroupCodes| && |catalog[g]| > 0
    ensures LoadStates(statesBefore, SaveRows(catalog, states, values, |GroupCodes|))[g] == states[g]
  {
    var rows := SaveRows(catalog, states, values, |GroupCodes|);
    SavedGroupLast(catalog, states, values, g);
    LoadStatesLast(statesBefore, rows, CountBefore(catalog, g + 1) - 1, g);
  }

  lemma {:induction false} CountBeforeGrows(catalog: seq<seq<Barrier>>, m: nat, n: nat)
    requires m <= n <= |catalog|
    ensures CountBefore(catalog, m) <= CountBefore(catalog, n)
  {
    if m < n {
      CountBeforeGrows(catalog, m, n - 1);
    }
  }

  /** Every saved row position belongs to exactly one (group, barrier) pair. */
  lemma Locate(catalog: seq<seq<Barrier>>, q: nat) returns (g: nat, k: nat)
    requires |catalog| == |GroupCodes| && q < CountBefore(catalog, |GroupCodes|)
    ensures g < |GroupCodes| && k < |catalog[g]| && q == CountBefore(catalog, g) + k
  {
    g := 0;
    while CountBefore(catalog, g + 1) <= q
      invariant g < |GroupCodes| && CountBefore(catalog, g) <= q
      decreases |GroupCodes| - g
    {
      g := g + 1;
      if g == |GroupCodes| {
        assert false;
      }
    }
    k := q - CountBefore(catalog, g);
  }

  // ---------------------------------------------------------------------
  // Labels and the barrier item
  // ---------------------------------------------------------------------

  /** `_get_value_label`: the label key of a value; unknown values read as "no barriers". */
  function ValueLabel(v: int): (key: string)
    ensures -1 <= v <= 3 ==> key == ["gran_facilitador", "facilitador", "no_hay_barreras", "barrera", "barrera_importante"][v + 1]
    ensures !(-1 <= v <= 3) ==> key == "no_hay_barreras"
  {
    if v == -1 then "gran_facilitador" else if v == 0 then "facilitador" else if v == 2 then "barrera"
    else if v == 3 then "barrera_importante" else "no_hay_barreras"
  }

  class BarrierItem {
    const code: string
    /** What the widget reported to the window while it was being built: the `set_enabled` call ending `_setup_ui`. */
    const initialNotice: Option<(string, int)>
    var isEnabled: bool
    var currentValue: int

    /**
     * A barrier widget starts with its group's switch, `is_enabled`, and the
     * value it is given; building it ends in `set_enabled(is_enabled)`, so a
     * disabled widget starts at 1 and reports 1 for its barrier.
     */
    constructor (code: string, value: int, enabled: bool)
      ensures this.code == code && isEnabled == enabled
      ensures currentValue == (if enabled then value else Neutral)
      ensures initialNotice == (if enabled then None else Some((code, Neutral)))
    {
      this.code := code;
      initialNotice := if enabled then None else Some((code, Neutral));
      isEnabled := enabled;
      currentValue := value;
      new;
      var notified := SetEnabled(enabled);
      assert notified == initialNotice;
    }

    /**
     * `set_enabled`: disabling resets the value to 1 and reports 1 for the
     * barrier to the window; enabling keeps the value and reports nothing.
     */
    method SetEnabled(enabled: bool) returns (notified: Option<(string, int)>)
      modifies this
      ensures isEnabled == enabled
      ensures !enabled ==> currentValue == Neutral && notified == Some((code, Neutral))
      ensures enabled ==> currentValue == old(currentValue) && notified.None?
    {
      isEnabled := enabled;
      if enabled {
        notified := None;
      } else {
        currentValue := Neutral;
        notified := Some((code, Neutral));
      }
    }
  }

  // ---------------------------------------------------------------------
  // Colour helpers
  // ---------------------------------------------------------------------

  /** `hex_color.lstrip('#')`. */
  function StripHashes(s: string): (r: string)
    ensures |r| <= |s| && (|r| > 0 ==> r[0] != '#') && r == s[|s| - |r|..]
  {
    if |s| > 0 && s[0] == '#' then StripHashes(s[1..]) else s
  }

  /** The characters `str.isspace` accepts, which `int` strips around its text. */
  predicate IsPyWhitespace(c: char)
  {
    || c == ' ' || ('\t' <= c <= '\r') || ('\U{1c}' <= c <= '\U{1f}') || c == '\U{85}' || c == '\U{a0}'
    || c == '\U{1680}' || ('\U{2000}' <= c <= '\U{200a}') || c == '\U{2028}' || c == '\U{2029}' || c == '\U{202f}'
    || c == '\U{205f}' || c == '\U{3000}'
  }

  /** `t.strip()` for whitespace. */
  function PyStrip(t: string): (u: string)
    ensures |u| <= |t| && (|u| > 0 ==> !IsPyWhitespace(u[0]) && !IsPyWhitespace(u[|u| - 1]))
    ensures forall k :: 0 <= k < |t| && !IsPyWhitespace(t[k]) ==> |u| > 0
    decreases |t|
  {
    if |t| == 0 then t
    else if IsPyWhitespace(t[0]) then PyStrip(t[1..])
    else if IsPyWhitespace(t[|t| - 1]) then
      var u := PyStrip(t[..|t| - 1]);
      assert t[0] == t[..|t| - 1][0];
      u
    else t
  }

  /** Stripping a text of at most two characters, case by case. */
  lemma StripShort(t: string)
    requires |t| <= 2
    ensures (forall k :: 0 <= k < |t| ==> IsPyWhitespace(t[k])) ==> PyStrip(t) == ""
    ensures |t| == 2 && !IsPyWhitespace(t[0]) && !IsPyWhitespace(t[1]) ==> PyStrip(t) == t
    ensures |t| == 2 && IsPyWhitespace(t[0]) && !IsPyWhitespace(t[1]) ==> PyStrip(t) == t[1..]
    ensures |t| == 2 && !IsPyWhitespace(t[0]) && IsPyWhitespace(t[1]) ==> PyStrip(t) == t[..1]
  {
    if |t| == 2 {
      assert t[1..][1..] == "" && t[1..][..0] == "";
      assert t[..1][1..] == "" && t[..1][..0] == "";
    }
  }

  /**
   * `int(t, 16)` for a slice of at most two characters: after stripping
   * whitespace, one or two hex digits, or a sign and one digit. Longer
   * forms (a `0x` prefix, underscores between digits) need more characters.
   */
  function HexChannel(t: string): (v: Option<int>)
    requires |t| <= 2
    ensures v.Some? ==> -15 <= v.value < 256
    ensures |t| == 2 && IsHexDigit(t[0]) && IsHexDigit(t[1]) ==> v == Some(HexValue(t[0]) * 16 + HexValue(t[1]))
    ensures |t| == 2 && t[0] == '-' && IsHexDigit(t[1]) ==> v == Some(-(HexValue(t[1]) as int))
    ensures |t| == 2 && t[0] == '+' && IsHexDigit(t[1]) ==> v == Some(HexValue(t[1]))
    ensures |t| == 2 && IsPyWhitespace(t[0]) && IsHexDigit(t[1]) ==> v == Some(HexValue(t[1]))
    ensures |t| == 2 && IsHexDigit(t[0]) && IsPyWhitespace(t[1]) ==> v == Some(HexValue(t[0]))
    ensures (forall k :: 0 <= k < |t| ==> IsPyWhitespace(t[k])) ==> v.None?
  {
    StripShort(t);
    var u := PyStrip(t);
    if |u| == 1 && IsHexDigit(u[0]) then Some(HexValue(u[0]))
    else if |u| == 2 && IsHexDigit(u[0]) && IsHexDigit(u[1]) then Some(HexValue(u[0]) * 16 + HexValue(u[1]))
    else if |u| == 2 && u[0] == '+' && IsHexDigit(u[1]) then Some(HexValue(u[1]))
    else if |u| == 2 && u[0] == '-' && IsHexDigit(u[1]) then Some(-(HexValue(u[1]) as int))
    else None
  }

  function Slice(s: string, i: nat, j: nat): (r: string)
    ensures i <= j ==> |r| <= j - i
  {
    if i >= |s| then "" else if j >= |s| then s[i..] else if i <= j then s[i..j] else ""
  }

  /** The channels of `#rrggbb`; None where a channel does not parse. */
  function ParseColor(s: string): (c: Option<(int, int, int)>)
    ensures c.Some? ==> ChannelRange(c.value.0) && ChannelRange(c.value.1) && ChannelRange(c.value.2)
  {
    var h := StripHashes(s);
    var r := HexChannel(Slice(h, 0, 2));
    var g := HexChannel(Slice(h, 2, 4));
    var b := HexChannel(Slice(h, 4, 6));
    if r.Some? && g.Some? && b.Some? then Some((r.value, g.value, b.value)) else None
  }

  /** What `int(t, 16)` can give for a two-character slice. */
  predicate ChannelRange(v: int)
  {
    -15 <= v < 256
  }

  /** `f"{v:02x}"` for any int: lower-case hex, zero-padded to width 2 with the sign counted. */
  function HexText(n: nat): (t: string)
    ensures |t| >= 1
  {
    if n < 16 then [HexDigit(n)] else HexText(n / 16) + [HexDigit(n % 16)]
  }

  function Hex02(v: int): (t: string)
    ensures 0 <= v < 256 ==> t == Hex2(v)
  {
    if 0 <= v < 16 then ['0', HexDigit(v)]
    else if 0 <= v < 256 then [HexDigit(v / 16), HexDigit(v % 16)]
    else if v >= 0 then HexText(v)
    else "-" + HexText(-v)
  }

  function FormatColor(r: int, g: int, b: int): string
  {
    "#" + Hex02(r) + Hex02(g) + Hex02(b)
  }

  /** A colour formatted from channels in -15..255 parses back to those channels. */
  lemma FormatParse(r: int, g: int, b: int)
    requires ChannelRange(r) && ChannelRange(g) && ChannelRange(b)
    ensures ParseColor(FormatColor(r, g, b)) == Some((r, g, b))
  {
    var x, y, z := Hex02(r), Hex02(g), Hex02(b);
    var t := FormatColor(r, g, b);
    assert t == "#" + (x + y + z);
    HashedSix(x + y + z);
    SlicesOfSix(x, y, z);
    Hex02Channel(r);
    Hex02Channel(g);
    Hex02Channel(b);
  }

  /** Each channel's two characters parse back to it, a negative one through its sign. */
  lemma Hex02Channel(v: int)
    requires ChannelRange(v)
    ensures |Hex02(v)| == 2 && Hex02(v)[0] != '#' && HexChannel(Hex02(v)) == Some(v)
  {
    if v < 0 {
      var d := HexDigit(-v);
      assert Hex02(v) == ['-', d];
      assert HexValue(d) == -v;
    }
  }

  /** One '#' before six hex-digit characters is stripped, and the six remain. */
  lemma HashedSix(h: string)
    requires |h| == 6 && h[0] != '#'
    ensures StripHashes("#" + h) == h
  {
    assert ("#" + h)[1..] == h;
  }

  lemma SlicesOfSix(x: string, y: string, z: string)
    requires |x| == 2 && |y| == 2 && |z| == 2
    ensures Slice(x + y + z, 0, 2) == x && Slice(x + y + z, 2, 4) == y && Slice(x + y + z, 4, 6) == z
  {
    var h := x + y + z;
    assert h[0..2] == x;
    assert h[2..4] == y;
    assert h[4..6] == z;
  }

  /** `int(c + (255 - c) * (1 - f))`, the conversion truncating toward zero. */
  function LightenChannel(c: int, f: real): int
  {
    Trunc(c as real + (255 - c) as real * (1.0 - f))
  }

  function DarkenChannel(c: int, f: real): int
  {
    Trunc(c as real * f)
  }

  /** `_lighten_color`; None where the colour does not parse (`int` raises). */
  function Lighten(hex: string, f: real): Option<string>
  {
    match ParseColor(hex)
    case None => None
    case Some((r, g, b)) => Some(FormatColor(LightenChannel(r, f), LightenChannel(g, f), LightenChannel(b, f)))
  }

  function Darken(hex: string, f: real): Option<string>
  {
    match ParseColor(hex)
    case None => None
    case Some((r, g, b)) => Some(FormatColor(DarkenChannel(r, f), DarkenChannel(g, f), DarkenChannel(b, f)))
  }

  /** For a factor in [0, 1] lightening moves a channel up, toward 255, and darkening toward 0. */
  lemma ChannelBounds(c: int, f: real)
    requires ChannelRange(c) && 0.0 <= f <= 1.0
    ensures c <= LightenChannel(c, f) <= 255
    ensures c >= 0 ==> 0 <= DarkenChannel(c, f) <= c
    ensures c < 0 ==> c <= DarkenChannel(c, f) <= 0
    ensures f == 1.0 ==> LightenChannel(c, f) == c && DarkenChannel(c, f) == c
  {
    LightenBounds(c, f);
    DarkenBounds(c, f);
    if f == 1.0 {
      TruncOfInteger(c);
    }
  }

  lemma LightenBounds(c: int, f: real)
    requires ChannelRange(c) && 0.0 <= f <= 1.0
    ensures c <= LightenChannel(c, f) <= 255
  {
    var room := (255 - c) as real;
    var p := room * (1.0 - f);
    ScaleBounds(room, 1.0 - f, p);
    assert room == 255.0 - c as real;
    var x := c as real + p;
    assert c as real <= x <= 255.0;
    TruncBetween(x, c, 255);
    assert LightenChannel(c, f) == Trunc(x);
  }

  lemma DarkenBounds(c: int, f: real)
    requires ChannelRange(c) && 0.0 <= f <= 1.0
    ensures c >= 0 ==> 0 <= DarkenChannel(c, f) <= c
    ensures c < 0 ==> c <= DarkenChannel(c, f) <= 0
  {
    var x := c as real * f;
    if c >= 0 {
      ScaleBounds(c as real, f, x);
      TruncBetween(x, 0, c);
    } else {
      ScaleBounds(-c as real, f, -x);
      TruncBetween(x, c, 0);
    }
    assert DarkenChannel(c, f) == Trunc(x);
  }

  /** Truncating toward zero a real between two integers stays between them. */
  lemma TruncBetween(x: real, lo: int, hi: int)
    requires lo as real <= x <= hi as real
    ensures lo <= Trunc(x) <= hi
  {
    var r := Trunc(x);
    if x >= 0.0 {
      RealToIntMonotone(r, hi);
      assert (lo as real) < r as real + 1.0;
    } else {
      RealToIntMonotone(lo, r);
      assert r as real - 1.0 < hi as real;
    }
  }


  lemma RealToIntMonotone(a: int, b: int)
    requires a as real <= b as real
    ensures a <= b
  {
  }

  lemma ScaleBounds(a: real, f: real, p: real)
    requires a >= 0.0 && 0.0 <= f <= 1.0 && p == a * f
    ensures 0.0 <= p <= a
  {
    assert a * f <= a * 1.0;
  }

  /** Lightening or darkening a parsed colour by a factor in [0, 1] gives a colour that parses again. */
  lemma LightenDarkenParse(hex: string, f: real)
    requires ParseColor(hex).Some? && 0.0 <= f <= 1.0
    ensures Lighten(hex, f).Some? && ParseColor(Lighten(hex, f).value).Some?
    ensures Darken(hex, f).Some? && ParseColor(Darken(hex, f).value).Some?
  {
    var (r, g, b) := ParseColor(hex).value;
    ChannelBounds(r, f);
    ChannelBounds(g, f);
    ChannelBounds(b, f);
    FormatParse(LightenChannel(r, f), LightenChannel(g, f), LightenChannel(b, f));
    FormatParse(DarkenChannel(r, f), DarkenChannel(g, f), DarkenChannel(b, f));
  }
}
