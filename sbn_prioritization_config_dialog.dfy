/**
 * The SbN prioritization configuration dialog: which of the 21 SbN are
 * available (from the Idoneidad column of SbN_Prioritization.csv), the
 * checkbox per SbN, the financial option and the result handed back to
 * the caller.
 */
module SbnPrioritizationConfigDialog {
  import opened Wrappers

  /** One row of SbN_Prioritization.csv: the ID and Idoneidad cells; None is an empty or non-numeric cell. */
  datatype CsvRow = CsvRow(id: Option<real>, idoneidad: Option<real>)

  /** The table as read, and whether it has the two columns the dialog indexes. */
  datatype Table = Table(hasIdColumn: bool, hasIdoneidadColumn: bool, rows: seq<CsvRow>)

  /**
   * What `_load_sbn_availability` looks at: whether the project data is
   * truthy and has 'files', the project folder ("" when missing or None),
   * whether the CSV exists, and the table (None when reading it raised).
   */
  datatype Inputs = Inputs(hasFiles: bool, projectFolder: string, csvExists: bool, table: Option<Table>)

  /** `df['ID'] == sbn_id` for one row; a missing ID never matches. */
  predicate Matches(row: CsvRow, id: int)
  {
    row.id == Some(id as real)
  }

  /** The first row of the table for an SbN: `df.loc[mask, ...].values[0]`. */
  function FirstMatch(rows: seq<CsvRow>, id: int): (r: Option<nat>)
    ensures r.Some? ==> (r.value < |rows| && Matches(rows[r.value], id)
                         && forall k :: 0 <= k < r.value ==> !Matches(rows[k], id))
    ensures r.None? ==> forall k :: 0 <= k < |rows| ==> !Matches(rows[k], id)
  {
    if rows == [] then None
    else if Matches(rows[0], id) then Some(0)
    else
      match FirstMatch(rows[1..], id)
      case None => None
      case Some(k) => Some(k + 1)
  }

  /** The numbers of the 21 SbN. */
  predicate IsSbnId(id: int)
  {
    1 <= id <= 21
  }

  /** The default of every early return and of the exception handler: all 21 SbN available. */
  function AllAvailable(): (m: map<int, bool>)
    ensures forall id :: id in m <==> IsSbnId(id)
    ensures forall id :: id in m ==> m[id]
  {
    map id | 1 <= id <= 21 :: IsSbnId(id)
  }

  /** The loop reaches its reading of the CSV: project data, folder and file are all there and reading worked. */
  predicate Reaches(inp: Inputs)
  {
    inp.hasFiles && inp.projectFolder != "" && inp.csvExists && inp.table.Some? && inp.table.value.hasIdColumn
  }

  /** The loop raises when an SbN has a row but there is no Idoneidad column to read. */
  predicate Raises(t: Table)
  {
    !t.hasIdoneidadColumn && exists id :: 1 <= id <= 21 && FirstMatch(t.rows, id).Some?
  }

  /** One SbN's availability from the table: Idoneidad == 1 on its first row, True when it has none. */
  function RowAvailable(t: Table, id: int): bool
  {
    match FirstMatch(t.rows, id)
    case None => true
    case Some(k) => t.rows[k].idoneidad == Some(1.0)
  }

  /** The availability map `_load_sbn_availability` leaves behind. */
  function Availability(inp: Inputs): (m: map<int, bool>)
    ensures forall id :: id in m <==> IsSbnId(id)
  {
    if Reaches(inp) && !Raises(inp.table.value) then map id | 1 <= id <= 21 :: RowAvailable(inp.table.value, id)
    else AllAvailable()
  }

  /** Missing project data, folder or file, a failed read or a failing lookup: every SbN is available. */
  lemma AvailabilityDefaults(inp: Inputs, id: int)
    requires !Reaches(inp) || Raises(inp.table.value)
    requires IsSbnId(id)
    ensures Availability(inp)[id]
  {
  }

  /** With the file read, an SbN is available exactly when its first row says Idoneidad 1. */
  lemma {:induction false} AvailabilityFromRow(inp: Inputs, id: int, k: nat)
    requires Reaches(inp) && inp.table.value.hasIdoneidadColumn
    requires IsSbnId(id) && k < |inp.table.value.rows|
    requires Matches(inp.table.value.rows[k], id)
    requires forall j :: 0 <= j < k ==> !Matches(inp.table.value.rows[j], id)
    ensures Availability(inp)[id] <==> inp.table.value.rows[k].idoneidad == Some(1.0)
  {
    var t := inp.table.value;
    FirstMatchIsFirst(t.rows, id, k);
    assert !Raises(t);
  }

  /** The first row that matches is the one `FirstMatch` finds. */
  lemma {:induction false} FirstMatchIsFirst(rows: seq<CsvRow>, id: int, k: nat)
    requires k < |rows| && Matches(rows[k], id)
    requires forall j :: 0 <= j < k ==> !Matches(rows[j], id)
    ensures FirstMatch(rows, id) == Some(k)
  {
    if k > 0 {
      FirstMatchIsFirst(rows[1..], id, k - 1);
    }
  }

  /** An SbN absent from a table that was read without failing is available. */
  lemma AvailabilityMissingRow(inp: Inputs, id: int)
    requires IsSbnId(id)
    requires inp.table.Some? && forall k :: 0 <= k < |inp.table.value.rows| ==> !Matches(inp.table.value.rows[k], id)
    ensures Availability(inp)[id]
  {
  }

  /** Without an Idoneidad column the dialog ends up with every SbN available, table or no table. */
  lemma NoIdoneidadColumnAllAvailable(inp: Inputs, id: int)
    requires inp.table.Some? && !inp.table.value.hasIdoneidadColumn
    requires IsSbnId(id)
    ensures Availability(inp)[id]
  {
    var t := inp.table.value;
    if Reaches(inp) && !Raises(t) {
      assert FirstMatch(t.rows, id).None?;
    }
  }

  /** `self.sbn_availability.get(sbn_id, True)`. */
  function AvailableOf(availability: map<int, bool>, id: int): bool
  {
    if id in availability then availability[id] else true
  }

  /**
   * `_load_sbn_availability`: the early returns and the exception handler
   * each fill 1..21 with True; otherwise the loop over 1..21 reads each
   * SbN's first row, and a lookup that raises sends it to the handler.
   */
  method LoadAvailability(inp: Inputs) returns (availability: map<int, bool>)
    ensures availability == Availability(inp)
  {
    availability := map[];
    if !Reaches(inp) {
      availability := FillAvailable(availability);
      return;
    }
    var t := inp.table.value;
    var raised := false;
    var id := 1;
    while id < 22
      invariant 1 <= id <= 22
      invariant !raised ==> availability == map i | 1 <= i < id :: RowAvailable(t, i)
      invariant !raised ==> forall i :: 1 <= i < id ==> FirstMatch(t.rows, i).None? || t.hasIdoneidadColumn
      invariant raised ==> Raises(t)
      decreases 22 - id, !raised
    {
      var m := FirstMatch(t.rows, id);
      if m.Some? {
        if !t.hasIdoneidadColumn {
          raised := true;
          break;
        }
        availability := availability[id := t.rows[m.value].idoneidad == Some(1.0)];
      } else {
        availability := availability[id := true];
      }
      id := id + 1;
    }
    if raised {
      availability := FillAvailable(availability);
    } else {
      assert !Raises(t);
    }
  }

  /** `for sbn_id in range(1, 22): self.sbn_availability[sbn_id] = True`. */
  method FillAvailable(m: map<int, bool>) returns (r: map<int, bool>)
    requires forall id :: id in m ==> IsSbnId(id)
    ensures r == AllAvailable()
  {
    r := m;
    for id := 1 to 22
      invariant forall i :: i in r ==> IsSbnId(i)
      invariant forall i :: 1 <= i < id ==> i in r && r[i]
      invariant forall i :: i in r && id <= i ==> i in m && r[i] == m[i]
    {
      r := r[id := true];
    }
    assert r.Keys == AllAvailable().Keys;
  }

  /** The ids whose box is checked, in the order of the checkbox dictionary (1 to n). */
  function SelectedUpTo(checked: map<int, bool>, n: nat): (r: seq<int>)
    ensures forall x :: x in r <==> 1 <= x <= n && x in checked && checked[x]
    ensures forall i, j :: 0 <= i < j < |r| ==> r[i] < r[j]
    ensures forall i :: 0 <= i < |r| ==> 1 <= r[i] <= n
  {
    if n == 0 then []
    else
      var init := SelectedUpTo(checked, n - 1);
      if n in checked && checked[n] then init + [n] else init
  }

  /** The labels of the three financial options in the current language. */
  datatype Labels = Labels(investment: string, maintenance: string, both: string)

  const InvestmentKey := "investment"
  const MaintenanceKey := "maintenance"
  const BothKey := "investment_and_maintenance"

  /**
   * `_get_financial_option_key`: the dictionary is built investment,
   * maintenance, both, so when two labels coincide the later key wins;
   * a text that is no label gives the combined option.
   */
  function OptionKey(text: string, labels: Labels): (key: string)
    ensures key == InvestmentKey || key == MaintenanceKey || key == BothKey
    ensures text == labels.both ==> key == BothKey
    ensures text != labels.investment && text != labels.maintenance ==> key == BothKey
    ensures key == InvestmentKey <==> text == labels.investment && text != labels.maintenance && text != labels.both
    ensures key == MaintenanceKey <==> text == labels.maintenance && text != labels.both
  {
    if text == labels.both then BothKey
    else if text == labels.maintenance then MaintenanceKey
    else if text == labels.investment then InvestmentKey
    else BothKey
  }

  /** The label the combobox shows for an option key. */
  function LabelOf(key: string, labels: Labels): string
  {
    if key == InvestmentKey then labels.investment
    else if key == MaintenanceKey then labels.maintenance
    else labels.both
  }

  /** With distinct labels, choosing an option's label gives back that option's key. */
  lemma OptionKeyOfLabel(key: string, labels: Labels)
    requires key == InvestmentKey || key == MaintenanceKey || key == BothKey
    requires labels.investment != labels.maintenance && labels.investment != labels.both
    requires labels.maintenance != labels.both
    ensures OptionKey(LabelOf(key, labels), labels) == key
  {
  }

  /** The combined option's own label always maps back to it, even when labels repeat. */
  lemma DefaultOptionKey(labels: Labels)
    ensures OptionKey(labels.both, labels) == BothKey
  {
  }

  /** The configuration `_on_next` hands back. */
  datatype Config = Config(financialOption: string, selectedSbnCodes: seq<int>)

  class Dialog {
    var availability: map<int, bool>
    /** Checkbox state "normal" (true) or "disabled" (false), per SbN. */
    var enabled: map<int, bool>
    /** Checkbox selected, per SbN. */
    var checked: map<int, bool>
    /** The text of `financial_option_var`. */
    var optionText: string
    var result: Option<Config>
    var destroyed: bool
    /** How many times the "no selection" warning was shown. */
    var warnings: nat

    /** One checkbox per SbN, enabled exactly when available, and no unavailable SbN checked. */
    ghost predicate Valid()
      reads this
    {
      && (forall id :: id in checked <==> IsSbnId(id))
      && (forall id :: id in enabled <==> IsSbnId(id))
      && (forall id :: id in enabled ==> enabled[id] == AvailableOf(availability, id))
      && (forall id :: id in checked && checked[id] ==> enabled[id])
    }

    /** `__init__`: availability loaded, the boxes built, the combined option shown. */
    constructor (inp: Inputs, labels: Labels)
      ensures Valid()
      ensures availability == Availability(inp)
      ensures forall id :: IsSbnId(id) ==> checked[id] == enabled[id] == Availability(inp)[id]
      ensures optionText == labels.both && result.None? && !destroyed && warnings == 0
    {
      var a := LoadAvailability(inp);
      availability := a;
      var boxes := BuildBoxes(a);
      enabled := boxes;
      checked := boxes;
      optionText := labels.both;
      result := None;
      destroyed := false;
      warnings := 0;
    }

    /** The checkbox loop of `_setup_ui`: each box enabled and selected exactly when its SbN is available. */
    static method BuildBoxes(availability: map<int, bool>) returns (boxes: map<int, bool>)
      ensures forall id :: id in boxes <==> IsSbnId(id)
      ensures forall id :: id in boxes ==> boxes[id] == AvailableOf(availability, id)
    {
      boxes := map[];
      for id := 1 to 22
        invariant forall i :: i in boxes <==> 1 <= i < id
        invariant forall i :: i in boxes ==> boxes[i] == AvailableOf(availability, i)
      {
        boxes := boxes[id := AvailableOf(availability, id)];
      }
    }

    /** A click on a box toggles it; a disabled box does not react. */
    method Click(id: int)
      requires Valid() && IsSbnId(id)
      modifies this
      ensures Valid()
      ensures checked == if enabled[id] then old(checked)[id := !old(checked)[id]] else old(checked)
      ensures enabled == old(enabled) && availability == old(availability) && optionText == old(optionText)
      ensures result == old(result) && destroyed == old(destroyed) && warnings == old(warnings)
    {
      if enabled[id] {
        checked := checked[id := !checked[id]];
      }
    }

    /** The user picks one of the combobox entries. */
    method ChooseOption(text: string)
      modifies this
      ensures optionText == text
      ensures enabled == old(enabled) && checked == old(checked) && availability == old(availability)
      ensures result == old(result) && destroyed == old(destroyed) && warnings == old(warnings)
    {
      optionText := text;
    }

    /** `_select_all_sbn`: every available SbN is checked; the others keep their state. */
    method SelectAll()
      requires Valid()
      modifies this
      ensures Valid()
      ensures forall id :: id in checked <==> id in old(checked)
      ensures forall id :: id in checked ==> checked[id] == (old(checked)[id] || AvailableOf(availability, id))
      ensures forall id :: id in checked ==> checked[id] == enabled[id]
      ensures enabled == old(enabled) && availability == old(availability) && optionText == old(optionText)
      ensures result == old(result) && destroyed == old(destroyed) && warnings == old(warnings)
    {
      var c := checked;
      for id := 1 to 22
        invariant forall i :: i in c <==> IsSbnId(i)
        invariant forall i :: i in c ==> c[i] == if i < id then old(checked)[i] || AvailableOf(availability, i) else old(checked)[i]
      {
        if AvailableOf(availability, id) {
          c := c[id := true];
        }
      }
      checked := c;
    }

    /** `_deselect_all_sbn`: every box is cleared. */
    method DeselectAll()
      requires Valid()
      modifies this
      ensures Valid()
      ensures forall id :: id in checked <==> IsSbnId(id)
      ensures forall id :: id in checked ==> !checked[id]
      ensures enabled == old(enabled) && availability == old(availability) && optionText == old(optionText)
      ensures result == old(result) && destroyed == old(destroyed) && warnings == old(warnings)
    {
      var c := checked;
      for id := 1 to 22
        invariant forall i :: i in c <==> IsSbnId(i)
        invariant forall i :: i in c ==> c[i] == if i < id then false else checked[i]
      {
        c := c[id := false];
      }
      checked := c;
    }

    /** `_get_selected_sbn_ids`: the checked ids, in increasing order. */
    method SelectedIds() returns (selected: seq<int>)
      requires Valid()
      ensures selected == SelectedUpTo(checked, 21)
      ensures forall x :: x in selected <==> IsSbnId(x) && checked[x]
      ensures forall x :: x in selected ==> AvailableOf(availability, x)
    {
      selected := [];
      for id := 1 to 22
        invariant selected == SelectedUpTo(checked, id - 1)
      {
        if checked[id] {
          selected := selected + [id];
        }
      }
    }

    /**
     * `_on_next`: with nothing checked, a warning and nothing else;
     * otherwise the result is the option key and the checked ids, and the
     * dialog closes.
     */
    method Next(labels: Labels)
      requires Valid()
      modifies this
      ensures Valid()
      ensures SelectedUpTo(checked, 21) == [] ==> result == old(result) && destroyed == old(destroyed) && warnings == old(warnings) + 1
      ensures SelectedUpTo(checked, 21) != [] ==>
        result == Some(Config(OptionKey(optionText, labels), SelectedUpTo(checked, 21))) && destroyed && warnings == old(warnings)
      ensures result.Some? && result != old(result) ==>
        result.value.selectedSbnCodes != [] && forall x :: x in result.value.selectedSbnCodes ==> AvailableOf(availability, x)
      ensures enabled == old(enabled) && checked == old(checked) && availability == old(availability) && optionText == old(optionText)
    {
      var selected := SelectedIds();
      if selected == [] {
        warnings := warnings + 1;
        return;
      }
      result := Some(Config(OptionKey(optionText, labels), selected));
      destroyed := true;
    }

    /** `_on_cancel` (also the window's close button): no result, and the dialog closes. */
    method Cancel()
      modifies this
      ensures result.None? && destroyed
      ensures enabled == old(enabled) && checked == old(checked) && availability == old(availability)
      ensures optionText == old(optionText) && warnings == old(warnings)
    {
      result := None;
      destroyed := true;
    }
  }

  /** After select-all the boxes mirror availability, so the selection is exactly the available SbN. */
  lemma SelectAllSkipsUnavailable(checked: map<int, bool>, availability: map<int, bool>, id: int)
    requires forall i :: i in checked <==> IsSbnId(i)
    requires forall i :: i in checked ==> checked[i] == AvailableOf(availability, i)
    requires IsSbnId(id)
    ensures id in SelectedUpTo(checked, 21) <==> AvailableOf(availability, id)
  {
  }
}
