/**
 * The SbN map window: the list of nature-based solutions shown beside the
 * map, in priority order, each with a checkbox that shows or hides the
 * solution's raster.
 */
module SbnWindow {
  import opened Wrappers
  import opened PyNum
  import opened Sorting
  import SbnPrioritization
  import ProjectManager

  /** An entry of the SbN list: its number and its icon. */
  datatype Sbn = Sbn(id: nat, icon: string)

  /** The 21 SbN the window knows, numbered 1 to 21. */
  function AllSbn(): (s: seq<Sbn>)
    ensures |s| == 21
    ensures forall k :: 0 <= k < 21 ==> s[k] == Sbn(k + 1, Icons()[k])
  {
    seq(21, k requires 0 <= k < 21 => Sbn(k + 1, Icons()[k]))
  }

  /** The icons of SbN 1 to 21. */
  function Icons(): (icons: seq<string>)
    ensures |icons| == 21
  {
    ["🌲", "🌱", "🌿", "🔄", "🏞️", "🌊", "💧", "🌾", "🌿", "🏞️", "🦆", "🌧️", "🚰", "🌳", "🏞️", "🧱", "🌲", "🏠", "🚴", "🌾", "💧"]
  }

  // ---------------------------------------------------------------------
  // Which SbN are shown.
  // ---------------------------------------------------------------------

  /** The entries of `s` whose number is among the selected codes, in order. */
  function FilterSelected(s: seq<Sbn>, selected: seq<int>): (r: seq<Sbn>)
    ensures |r| <= |s|
    ensures forall x :: x in r <==> x in s && x.id in selected
  {
    if s == [] then []
    else
      var init := FilterSelected(s[..|s| - 1], selected);
      var last := s[|s| - 1];
      assert s == s[..|s| - 1] + [last];
      if last.id in selected then init + [last] else init
  }

  /**
   * The list shown: the configured `selected_sbn_codes` when the
   * configuration has a non-empty list, otherwise all 21.
   */
  function ShownSbn(selected: Option<seq<int>>): (r: seq<Sbn>)
    ensures selected.None? || selected.value == [] ==> r == AllSbn()
    ensures selected.Some? && selected.value != [] ==>
      forall x :: x in r <==> x in AllSbn() && x.id in selected.value
  {
    if selected.Some? && selected.value != [] then FilterSelected(AllSbn(), selected.value) else AllSbn()
  }

  /** The SbN numbers strictly increase along the list. */
  predicate IdsIncreasing(s: seq<Sbn>)
  {
    forall i, j :: 0 <= i < j < |s| ==> s[i].id < s[j].id
  }

  /** Filtering keeps the numbering order, so the shown numbers increase. */
  lemma {:induction false} FilterSelectedOrdered(s: seq<Sbn>, selected: seq<int>)
    requires IdsIncreasing(s)
    ensures IdsIncreasing(FilterSelected(s, selected))
  {
    if s != [] {
      var init := s[..|s| - 1];
      var last := s[|s| - 1];
      assert forall i :: 0 <= i < |init| ==> init[i] == s[i];
      FilterSelectedOrdered(init, selected);
      var r0 := FilterSelected(init, selected);
      forall i | 0 <= i < |r0|
        ensures r0[i].id < last.id
      {
        assert r0[i] in r0;
        var k :| 0 <= k < |init| && init[k] == r0[i];
      }
      if last.id in selected {
        var r := r0 + [last];
        assert FilterSelected(s, selected) == r;
        forall i, j | 0 <= i < j < |r|
          ensures r[i].id < r[j].id
        {
          assert r[i] == r0[i];
          if j < |r0| {
            assert r[j] == r0[j];
          }
        }
      } else {
        assert FilterSelected(s, selected) == r0;
      }
    }
  }

  /** The shown numbers are distinct and increasing, whatever the configuration. */
  lemma ShownOrdered(selected: Option<seq<int>>)
    ensures IdsIncreasing(ShownSbn(selected))
  {
    var all := AllSbn();
    assert forall i :: 0 <= i < |all| ==> all[i].id == i + 1;
    assert IdsIncreasing(all);
    if selected.Some? && selected.value != [] {
      FilterSelectedOrdered(all, selected.value);
    }
  }

  // ---------------------------------------------------------------------
  // The priorities read from SbN_Prioritization.csv.
  // ---------------------------------------------------------------------

  /** The priority table as the window's dictionary: later entries with the same number win. */
  function PriorityMap(entries: seq<SbnPrioritization.PriorityEntry>): map<int, SbnPrioritization.PriorityEntry>
  {
    if entries == [] then map[]
    else
      var last := entries[|entries| - 1];
      PriorityMap(entries[..|entries| - 1])[last.id := last]
  }

  /** `prio.get(id, {}).get('priority_rank')`: None when the SbN has no entry or no rank. */
  function RankOf(prio: map<int, SbnPrioritization.PriorityEntry>, id: int): Option<nat>
  {
    if id in prio then prio[id].rank else None
  }

  /** The second member of the sort key as written: the rank, None, or 9999 for a missing entry. */
  datatype RankKey = NoRank | RankValue(n: int)

  datatype SortKey = SortKey(unranked: bool, rank: RankKey)

  /** Lines 256-259: `(rank is None, prio.get(id, {}).get('priority_rank', 9999))`. */
  function SortKeyAsWritten(prio: map<int, SbnPrioritization.PriorityEntry>, id: int): (k: SortKey)
    ensures k.unranked <==> RankOf(prio, id).None?
    ensures k.rank == NoRank <==> id in prio && prio[id].rank.None?
  {
    if id !in prio then SortKey(true, RankValue(9999))
    else match prio[id].rank
      case None => SortKey(true, NoRank)
      case Some(r) => SortKey(false, RankValue(r))
  }

  /** Python's `<` on two keys: False sorts before True; None and an int do not compare. */
  function KeyLess(a: SortKey, b: SortKey): Result<bool>
  {
    if a.unranked != b.unranked then Ok(!a.unranked)
    else match (a.rank, b.rank)
      case (RankValue(x), RankValue(y)) => Ok(x < y)
      case (NoRank, NoRank) => Ok(false)
      case _ => Err("TypeError")
  }

  /** Two shown SbN whose keys `sorted` cannot order. */
  predicate ClashingPair(prio: map<int, SbnPrioritization.PriorityEntry>, shown: seq<Sbn>)
  {
    exists i, j :: 0 <= i < |shown| && 0 <= j < |shown| &&
      KeyLess(SortKeyAsWritten(prio, shown[i].id), SortKeyAsWritten(prio, shown[j].id)).Err?
  }

  /**
   * A clash needs a disabled SbN (rank None) and an SbN with no entry at
   * all (default 9999) among the shown.
   */
  lemma ClashIsDisabledAndMissing(prio: map<int, SbnPrioritization.PriorityEntry>, a: int, b: int)
    requires KeyLess(SortKeyAsWritten(prio, a), SortKeyAsWritten(prio, b)).Err?
    ensures (a in prio && prio[a].rank.None? && b !in prio) || (b in prio && prio[b].rank.None? && a !in prio)
  {
  }

  /**
   * The order `sorted` follows with the written keys: `a` may stay before
   * `b` when `b < a` is false. The pairs Python cannot compare (None
   * against an int) are placed arbitrarily; a list without a clashing pair
   * never compares them.
   */
  predicate WrittenKeyLe(a: SortKey, b: SortKey)
  {
    if a.unranked != b.unranked then !a.unranked
    else match (a.rank, b.rank)
      case (RankValue(x), RankValue(y)) => x <= y
      case (RankValue(_), NoRank) => false
      case _ => true
  }

  /** Wherever Python's `<` is defined on two keys, the written order is "not greater". */
  lemma WrittenKeyLeIsNotGreater(a: SortKey, b: SortKey)
    requires KeyLess(b, a).Ok?
    ensures WrittenKeyLe(a, b) <==> !KeyLess(b, a).value
  {
  }

  function ByWrittenKey(prio: map<int, SbnPrioritization.PriorityEntry>): (Sbn, Sbn) -> bool
  {
    (x: Sbn, y: Sbn) => WrittenKeyLe(SortKeyAsWritten(prio, x.id), SortKeyAsWritten(prio, y.id))
  }

  lemma WrittenKeyTotalPreorder(prio: map<int, SbnPrioritization.PriorityEntry>)
    ensures TotalPreorder(ByWrittenKey(prio))
  {
  }

  /**
   * `sorted` as written. A comparison sort must compare every pair that
   * ends up adjacent, and the unranked keys end up together, so a shown
   * list holding both kinds of unranked key makes `sorted` raise.
   */
  function SortShownAsWritten(prio: map<int, SbnPrioritization.PriorityEntry>, shown: seq<Sbn>): Result<seq<Sbn>>
  {
    if ClashingPair(prio, shown) then Err("TypeError")
    else Ok(SortBy(shown, ByWrittenKey(prio)))
  }

  /** Without a clash the written sort succeeds, and no SbN is placed after one whose key is greater. */
  lemma SortAsWrittenOrdered(prio: map<int, SbnPrioritization.PriorityEntry>, shown: seq<Sbn>, i: nat, j: nat)
    requires !ClashingPair(prio, shown) && i < j < |shown|
    ensures SortShownAsWritten(prio, shown).Ok?
    ensures var r := SortShownAsWritten(prio, shown).value;
      KeyLess(SortKeyAsWritten(prio, r[j].id), SortKeyAsWritten(prio, r[i].id)) != Ok(true)
  {
    WrittenKeyTotalPreorder(prio);
    SortBySorted(shown, ByWrittenKey(prio));
  }

  /** SbN 5 disabled, SbN 6 missing from the table: opening the window raises. */
  lemma SortRaisesAsWritten()
    ensures var prio := map[5 := SbnPrioritization.PriorityEntry(5, 0.0, None, false)];
      SortShownAsWritten(prio, [Sbn(5, "🏞️"), Sbn(6, "🌊")]) == Err("TypeError")
  {
    var prio := map[5 := SbnPrioritization.PriorityEntry(5, 0.0, None, false)];
    var shown := [Sbn(5, "🏞️"), Sbn(6, "🌊")];
    assert KeyLess(SortKeyAsWritten(prio, shown[0].id), SortKeyAsWritten(prio, shown[1].id)).Err?;
  }

  /** The key with the default moved outside the lookup: `(rank is None, rank or 9999)`. */
  function SortKeyValue(prio: map<int, SbnPrioritization.PriorityEntry>, id: int): (int, int)
  {
    match RankOf(prio, id)
    case None => (1, 9999)
    case Some(r) => (0, if r == 0 then 9999 else r)
  }

  /** Lexicographic order on the corrected keys. */
  predicate KeyLe(prio: map<int, SbnPrioritization.PriorityEntry>, x: Sbn, y: Sbn)
  {
    var a := SortKeyValue(prio, x.id);
    var b := SortKeyValue(prio, y.id);
    a.0 < b.0 || (a.0 == b.0 && a.1 <= b.1)
  }

  function ByKey(prio: map<int, SbnPrioritization.PriorityEntry>): (Sbn, Sbn) -> bool
  {
    (x: Sbn, y: Sbn) => KeyLe(prio, x, y)
  }

  lemma KeyLeTotalPreorder(prio: map<int, SbnPrioritization.PriorityEntry>)
    ensures TotalPreorder(ByKey(prio))
  {
  }

  /** The corrected sort: every key compares, so it never raises. */
  function SortShown(prio: map<int, SbnPrioritization.PriorityEntry>, shown: seq<Sbn>): (r: seq<Sbn>)
    ensures multiset(r) == multiset(shown)
  {
    SortBy(shown, ByKey(prio))
  }

  /**
   * Ranked SbN come first in ascending rank and unranked SbN last, and the
   * shown SbN are all there.
   */
  lemma SortShownOrder(prio: map<int, SbnPrioritization.PriorityEntry>, shown: seq<Sbn>, i: nat, j: nat)
    requires i < j < |shown|
    ensures var r := SortShown(prio, shown);
      && (RankOf(prio, r[j].id).Some? ==> RankOf(prio, r[i].id).Some?)
      && (RankOf(prio, r[i].id).Some? && RankOf(prio, r[j].id).Some?
          && RankOf(prio, r[i].id).value > 0 && RankOf(prio, r[j].id).value > 0 ==>
            RankOf(prio, r[i].id).value <= RankOf(prio, r[j].id).value)
  {
    KeyLeTotalPreorder(prio);
    SortBySorted(shown, ByKey(prio));
  }

  /**
   * Where the written key does compare, and the ranks are the positive ones
   * `get_sbn_priorities` hands out, it orders the list as the corrected key
   * does.
   */
  lemma SortShownAgrees(prio: map<int, SbnPrioritization.PriorityEntry>, shown: seq<Sbn>)
    requires !ClashingPair(prio, shown)
    requires forall i :: 0 <= i < |shown| ==> RankOf(prio, shown[i].id) != Some(0)
    ensures SortShownAsWritten(prio, shown) == Ok(SortShown(prio, shown))
  {
    forall a, b | a in shown && b in shown ensures ByWrittenKey(prio)(a, b) == ByKey(prio)(a, b) {
      var i :| 0 <= i < |shown| && shown[i] == a;
      var j :| 0 <= j < |shown| && shown[j] == b;
      assert KeyLess(SortKeyAsWritten(prio, shown[i].id), SortKeyAsWritten(prio, shown[j].id)).Ok?;
    }
    SortByAgree(shown, ByWrittenKey(prio), ByKey(prio));
  }

  // ---------------------------------------------------------------------
  // One checkbox.
  // ---------------------------------------------------------------------

  /** The checkbox text: the name and icon, and the rank when the SbN is enabled and ranked. */
  datatype CheckboxText = CheckboxText(name: string, icon: string, rank: Option<nat>)

  /** Lines 278-284: `priority_info and is_enabled and priority_rank`. */
  function CheckboxTextOf(prio: map<int, SbnPrioritization.PriorityEntry>, sbn: Sbn, name: string): (t: CheckboxText)
    ensures t.name == name && t.icon == sbn.icon
    ensures t.rank.Some? <==> sbn.id in prio && prio[sbn.id].enabled && prio[sbn.id].rank.Some? && prio[sbn.id].rank.value != 0
    ensures t.rank.Some? ==> t.rank == prio[sbn.id].rank
  {
    if sbn.id in prio && prio[sbn.id].enabled && prio[sbn.id].rank.Some? && prio[sbn.id].rank.value != 0
    then CheckboxText(name, sbn.icon, prio[sbn.id].rank)
    else CheckboxText(name, sbn.icon, None)
  }

  /** The mark beside a disabled checkbox: not suitable (priority 0) or no raster. */
  datatype Mark = NotSuitable | NoRaster

  datatype CheckboxState = CheckboxState(enabled: bool, mark: Option<Mark>)

  /**
   * Lines 300-322: an SbN the table marks disabled is not suitable; any
   * other SbN is usable exactly when its raster is found.
   */
  function CheckboxStateOf(prio: map<int, SbnPrioritization.PriorityEntry>, id: int, raster: Option<string>): (s: CheckboxState)
    ensures id in prio && !prio[id].enabled ==> s == CheckboxState(false, Some(NotSuitable))
    ensures !(id in prio && !prio[id].enabled) ==> (s.enabled <==> raster.Some?)
    ensures s.enabled <==> s.mark.None?
  {
    if id in prio && !prio[id].enabled then CheckboxState(false, Some(NotSuitable))
    else if raster.None? then CheckboxState(false, Some(NoRaster))
    else CheckboxState(true, None)
  }

  /** A disabled SbN stays unusable even when its raster exists. */
  lemma DisabledWinsOverRaster(prio: map<int, SbnPrioritization.PriorityEntry>, id: int, path: string)
    requires id in prio && !prio[id].enabled
    ensures !CheckboxStateOf(prio, id, Some(path)).enabled
  {
  }

  // ---------------------------------------------------------------------
  // Finding the raster of an SbN.
  // ---------------------------------------------------------------------

  /** What the file system shows the lookup. */
  datatype Disk = Disk(projectIsFile: bool, sbnDirExists: bool, sbnFiles: seq<string>)

  function NewFormatName(id: nat): string
  {
    "SbN_" + NatToString(id) + ".tif"
  }

  function LegacyPrefix(id: nat): string
  {
    "SbN_" + NatToString(id) + "_"
  }

  /** `fnmatch` of a file name against `SbN_{id}_*.tif`. */
  predicate MatchesLegacy(name: string, id: nat)
  {
    var p := LegacyPrefix(id);
    |name| >= |p| + 4 && name[..|p|] == p && name[|name| - 4..] == ".tif"
  }

  /** The legacy matches in the order the directory lists them. */
  function LegacyMatches(files: seq<string>, id: nat): (r: seq<string>)
    ensures forall f :: f in r <==> f in files && MatchesLegacy(f, id)
  {
    if files == [] then []
    else
      var init := LegacyMatches(files[..|files| - 1], id);
      var last := files[|files| - 1];
      assert files == files[..|files| - 1] + [last];
      if MatchesLegacy(last, id) then init + [last] else init
  }

  /** The legacy prefix is "SbN_", the decimal digits of the number, then '_'. */
  lemma LegacyPrefixShape(id: nat)
    ensures var s := NatToString(id); var p := LegacyPrefix(id);
      && |p| == |s| + 5 && p[4 + |s|] == '_'
      && forall k :: 0 <= k < |s| ==> p[4 + k] == s[k] && IsDigit(s[k])
    ensures DigitsValue(NatToString(id)) == id
  {
    NatToStringDigits(id);
  }

  /** The position of the first '_' at or after `i`, or the length when there is none. */
  function FirstUnderscore(s: string, i: nat): (r: nat)
    requires i <= |s|
    ensures i <= r <= |s|
    decreases |s| - i
  {
    if i == |s| then |s| else if s[i] == '_' then i else FirstUnderscore(s, i + 1)
  }

  lemma {:induction false} FirstUnderscoreAt(s: string, i: nat, m: nat)
    requires i <= m < |s| && s[m] == '_'
    requires forall k :: i <= k < m ==> s[k] != '_'
    ensures FirstUnderscore(s, i) == m
    decreases m - i
  {
    if i < m {
      FirstUnderscoreAt(s, i + 1, m);
    }
  }

  /** A legacy match of `id` spells the digits of `id` from position 4 up to its first '_'. */
  lemma LegacyDigitsAt(name: string, id: nat)
    requires MatchesLegacy(name, id)
    ensures var s := NatToString(id);
      4 + |s| < |name| && FirstUnderscore(name, 4) == 4 + |s| && name[4..4 + |s|] == s
  {
    var s, p := NatToString(id), LegacyPrefix(id);
    LegacyPrefixShape(id);
    assert name[..|p|] == p;
    forall k | 4 <= k < 4 + |s|
      ensures name[k] != '_'
    {
      assert name[k] == name[..|p|][k] == s[k - 4];
    }
    assert name[4 + |s|] == name[..|p|][4 + |s|];
    FirstUnderscoreAt(name, 4, 4 + |s|);
    forall k | 0 <= k < |s|
      ensures name[4..4 + |s|][k] == s[k]
    {
      assert name[4 + k] == name[..|p|][4 + k];
    }
  }

  /** A file name matches the legacy pattern of one SbN at most: "SbN_1_*" never takes "SbN_12_a.tif". */
  lemma LegacyPatternsDisjoint(name: string, a: nat, b: nat)
    requires MatchesLegacy(name, a) && MatchesLegacy(name, b)
    ensures a == b
  {
    LegacyDigitsAt(name, a);
    LegacyDigitsAt(name, b);
    LegacyPrefixShape(a);
    LegacyPrefixShape(b);
  }

  /** The folder the project lives in: the path's directory when the path names a file. */
  function ProjectDir(projectPath: string, disk: Disk): string
  {
    if disk.projectIsFile then ProjectManager.Dirname(projectPath) else projectPath
  }

  function SbnDir(projectPath: string, disk: Disk): string
  {
    ProjectManager.JoinPath(ProjectDir(projectPath, disk), "03-SbN")
  }

  /**
   * `_find_sbn_raster`: nothing without a project path or an 03-SbN folder;
   * otherwise `SbN_{id}.tif` if present, else the first legacy match.
   */
  function FindSbnRaster(projectPath: string, disk: Disk, id: nat): (r: Option<string>)
    ensures projectPath == [] || !disk.sbnDirExists ==> r == None
    ensures projectPath != [] && disk.sbnDirExists && NewFormatName(id) in disk.sbnFiles ==>
      r == Some(ProjectManager.JoinPath(SbnDir(projectPath, disk), NewFormatName(id)))
    ensures projectPath != [] && disk.sbnDirExists && NewFormatName(id) !in disk.sbnFiles ==>
      (r.Some? <==> exists f :: f in disk.sbnFiles && MatchesLegacy(f, id))
    ensures r.Some? && NewFormatName(id) !in disk.sbnFiles ==>
      r == Some(ProjectManager.JoinPath(SbnDir(projectPath, disk), LegacyMatches(disk.sbnFiles, id)[0]))
  {
    if projectPath == [] || !disk.sbnDirExists then None
    else
      var dir := SbnDir(projectPath, disk);
      if NewFormatName(id) in disk.sbnFiles then Some(ProjectManager.JoinPath(dir, NewFormatName(id)))
      else
        var legacy := LegacyMatches(disk.sbnFiles, id);
        assert legacy != [] ==> legacy[0] in legacy;
        if legacy != [] then Some(ProjectManager.JoinPath(dir, legacy[0])) else None
  }

  /** The new-format name is not a legacy name, so the two lookups never compete for one file. */
  lemma NewFormatIsNotLegacy(a: nat, b: nat)
    ensures !MatchesLegacy(NewFormatName(a), b)
  {
    var n := NewFormatName(a);
    var sa := NatToString(a);
    var sb := NatToString(b);
    NatToStringDigits(a);
    NatToStringDigits(b);
    if |sb| < |sa| {
      assert n[4 + |sb|] == sa[|sb|];
      assert LegacyPrefix(b)[4 + |sb|] == '_';
    } else {
      assert |n| == 8 + |sa| < |LegacyPrefix(b)| + 4;
    }
  }

  // ---------------------------------------------------------------------
  // The window's state.
  // ---------------------------------------------------------------------

  datatype Checkbox = Checkbox(id: nat, enabled: bool, checked: bool)

  /** `[sbn_id for sbn_id, checkbox in self.sbn_checkboxes.items() if checkbox.get()]`. */
  function Selected(boxes: seq<Checkbox>): (r: seq<nat>)
    ensures |r| <= |boxes|
    ensures forall id :: id in r <==> exists k :: 0 <= k < |boxes| && boxes[k].id == id && boxes[k].checked
  {
    if boxes == [] then []
    else
      var init := Selected(boxes[..|boxes| - 1]);
      var last := boxes[|boxes| - 1];
      assert forall k :: 0 <= k < |boxes| - 1 ==> boxes[..|boxes| - 1][k] == boxes[k];
      if last.checked then init + [last.id] else init
  }

  /** Index of the checkbox of an SbN, if it has one. */
  function BoxIndex(boxes: seq<Checkbox>, id: nat): (k: Option<nat>)
    ensures k.Some? ==> k.value < |boxes| && boxes[k.value].id == id
    ensures k.None? ==> forall j :: 0 <= j < |boxes| ==> boxes[j].id != id
  {
    if boxes == [] then None
    else if boxes[0].id == id then Some(0)
    else match BoxIndex(boxes[1..], id)
      case None => None
      case Some(k) => Some(k + 1)
  }

  /** What the map viewer answers when asked to add or remove a layer. */
  datatype Viewer = Viewer(addOk: bool, removeOk: bool)

  class Panel {
    /** Whether the map viewer was created. */
    const hasMap: bool
    var boxes: seq<Checkbox>
    var loadedRasters: map<nat, string>
    /** The selection handed to the workflow, once saved. */
    var savedSelection: Option<seq<nat>>

    ghost predicate Valid()
      reads this
    {
      forall id :: id in loadedRasters ==> BoxIndex(boxes, id).Some?
    }

    constructor (hasMap: bool, boxes: seq<Checkbox>)
      ensures Valid()
      ensures this.hasMap == hasMap && this.boxes == boxes && loadedRasters == map[] && savedSelection == None
    {
      this.hasMap := hasMap;
      this.boxes := boxes;
      loadedRasters := map[];
      savedSelection := None;
    }

    /**
     * `_load_sbn_raster`: the raster is registered when the viewer adds it;
     * when the viewer fails the checkbox is cleared; without a raster only a
     * warning is shown.
     */
    method LoadSbnRaster(id: nat, raster: Option<string>, viewer: Viewer)
      requires Valid() && BoxIndex(boxes, id).Some?
      modifies this
      ensures Valid() && savedSelection == old(savedSelection)
      ensures raster.None? ==> loadedRasters == old(loadedRasters) && boxes == old(boxes)
      ensures raster.Some? && viewer.addOk ==> loadedRasters == old(loadedRasters)[id := raster.value] && boxes == old(boxes)
      ensures raster.Some? && !viewer.addOk ==>
        (loadedRasters == old(loadedRasters)
         && var k := BoxIndex(old(boxes), id).value; boxes == old(boxes)[k := old(boxes)[k].(checked := false)])
    {
      if raster.None? {
        return;
      }
      var k := BoxIndex(boxes, id).value;
      if viewer.addOk {
        loadedRasters := loadedRasters[id := raster.value];
      } else {
        boxes := boxes[k := boxes[k].(checked := false)];
        BoxIndexKeepsIds(old(boxes), k, false);
      }
    }

    /** `_unload_sbn_raster`: the entry goes only if the viewer removed the layer. */
    method UnloadSbnRaster(id: nat, viewer: Viewer)
      requires Valid()
      modifies this
      ensures Valid() && boxes == old(boxes) && savedSelection == old(savedSelection)
      ensures id in old(loadedRasters) && viewer.removeOk ==> loadedRasters == old(loadedRasters) - {id}
      ensures !(id in old(loadedRasters) && viewer.removeOk) ==> loadedRasters == old(loadedRasters)
    {
      if id in loadedRasters && viewer.removeOk {
        loadedRasters := loadedRasters - {id};
      }
    }

    /**
     * A click on an enabled checkbox flips it, then `_toggle_sbn_raster`
     * loads or unloads the raster by the new state, when the map exists.
     */
    method Click(id: nat, raster: Option<string>, viewer: Viewer)
      requires Valid()
      modifies this
      ensures Valid() && savedSelection == old(savedSelection)
      ensures BoxIndex(old(boxes), id).None? || !old(boxes)[BoxIndex(old(boxes), id).value].enabled ==>
        boxes == old(boxes) && loadedRasters == old(loadedRasters)
      ensures !hasMap ==> loadedRasters == old(loadedRasters)
      ensures BoxIndex(old(boxes), id).Some? && old(boxes)[BoxIndex(old(boxes), id).value].enabled ==>
        var k := BoxIndex(old(boxes), id).value;
        var flipped := Toggled(old(boxes), k);
        && (!hasMap ==> boxes == flipped)
        && (hasMap && flipped[k].checked && raster.Some? && viewer.addOk ==>
              boxes == flipped && loadedRasters == old(loadedRasters)[id := raster.value])
        && (hasMap && flipped[k].checked && raster.Some? && !viewer.addOk ==>
              boxes == old(boxes) && loadedRasters == old(loadedRasters))
        && (hasMap && flipped[k].checked && raster.None? ==>
              boxes == flipped && loadedRasters == old(loadedRasters))
        && (hasMap && !flipped[k].checked ==>
              boxes == flipped &&
              loadedRasters == if id in old(loadedRasters) && viewer.removeOk then old(loadedRasters) - {id}
                               else old(loadedRasters))
    {
      var found := BoxIndex(boxes, id);
      if found.None? || !boxes[found.value].enabled {
        return;
      }
      var k := found.value;
      boxes := Toggled(boxes, k);
      BoxIndexKeepsIds(old(boxes), k, !old(boxes)[k].checked);
      if !hasMap {
        return;
      }
      if boxes[k].checked {
        LoadSbnRaster(id, raster, viewer);
      } else {
        UnloadSbnRaster(id, viewer);
      }
    }

    /** `_save_selection`: the checked SbN, in checkbox order, go to the workflow. */
    method SaveSelection() returns (selected: seq<nat>)
      modifies this
      ensures selected == Selected(boxes)
      ensures savedSelection == Some(selected)
      ensures boxes == old(boxes) && loadedRasters == old(loadedRasters)
    {
      selected := [];
      for k := 0 to |boxes|
        invariant selected == Selected(boxes[..k])
      {
        assert boxes[..k + 1][..k] == boxes[..k];
        if boxes[k].checked {
          selected := selected + [boxes[k].id];
        }
      }
      assert boxes[..|boxes|] == boxes;
      savedSelection := Some(selected);
    }
  }

  /** The checkboxes with box `k` ticked or unticked. */
  function Toggled(boxes: seq<Checkbox>, k: nat): (r: seq<Checkbox>)
    requires k < |boxes|
    ensures |r| == |boxes| && r[k].checked == !boxes[k].checked
    ensures forall j :: 0 <= j < |boxes| && j != k ==> r[j] == boxes[j]
    ensures r[k].id == boxes[k].id && r[k].enabled == boxes[k].enabled
  {
    boxes[k := boxes[k].(checked := !boxes[k].checked)]
  }

  /** Changing one checkbox's flags keeps every SbN's index. */
  lemma BoxIndexKeepsIds(boxes: seq<Checkbox>, k: nat, checked: bool)
    requires k < |boxes|
    ensures forall id :: BoxIndex(boxes[k := boxes[k].(checked := checked)], id) == BoxIndex(boxes, id)
  {
    var b2 := boxes[k := boxes[k].(checked := checked)];
    forall id
      ensures BoxIndex(b2, id) == BoxIndex(boxes, id)
    {
      BoxIndexSameIds(b2, boxes, id);
    }
  }

  lemma {:induction false} BoxIndexSameIds(xs: seq<Checkbox>, ys: seq<Checkbox>, id: nat)
    requires |xs| == |ys| && forall j :: 0 <= j < |xs| ==> xs[j].id == ys[j].id
    ensures BoxIndex(xs, id) == BoxIndex(ys, id)
  {
    if xs != [] {
      BoxIndexSameIds(xs[1..], ys[1..], id);
    }
  }
}
