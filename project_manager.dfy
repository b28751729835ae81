/**
 * The project file: its JSON template, the check that a loaded file is a
 * project, the in-place section update and the folder rewrite on loading.
 */
module ProjectManager {
  import opened Wrappers
  import DashboardWindow

  /** A JSON value; objects keep their keys in insertion order, as Python dicts do. */
  datatype Value =
    | Null
    | Bool(b: bool)
    | Int(i: int)
    | Str(s: string)
    | List(elems: seq<Value>)
    | Dict(items: seq<(string, Value)>)

  type Items = seq<(string, Value)>

  predicate DistinctKeys(d: Items)
  {
    forall i, j :: 0 <= i < j < |d| ==> d[i].0 != d[j].0
  }

  /** `d.get(k)`. */
  function Find(d: Items, k: string): (r: Option<Value>)
    ensures r.Some? <==> exists i :: 0 <= i < |d| && d[i].0 == k
    ensures r.Some? && DistinctKeys(d) ==> forall i :: 0 <= i < |d| && d[i].0 == k ==> d[i].1 == r.value
    decreases |d|
  {
    if d == [] then None
    else if d[0].0 == k then Some(d[0].1)
    else
      var r := Find(d[1..], k);
      assert forall i :: 1 <= i < |d| ==> d[i] == d[1..][i - 1];
      r
  }

  /** `d[k] = v`: an existing key keeps its place, a new one goes last. */
  function Put(d: Items, k: string, v: Value): (r: Items)
    decreases |d|
  {
    if d == [] then [(k, v)]
    else if d[0].0 == k then [(k, v)] + d[1..]
    else [d[0]] + Put(d[1..], k, v)
  }

  lemma {:induction false} PutFind(d: Items, k: string, v: Value, j: string)
    ensures Find(Put(d, k, v), j) == if j == k then Some(v) else Find(d, j)
    decreases |d|
  {
    if d != [] && d[0].0 != k {
      PutFind(d[1..], k, v, j);
    }
  }

  /** `d.update(data)`: every pair of `data` put in order. */
  function Update(d: Items, data: Items): Items
    decreases |data|
  {
    if data == [] then d else Update(Put(d, data[0].0, data[0].1), data[1..])
  }

  /** After an update, the keys of `data` read as in `data` and every other key as before. */
  lemma {:induction false} UpdateFind(d: Items, data: Items, j: string)
    requires DistinctKeys(data)
    ensures Find(Update(d, data), j) == if Find(data, j).Some? then Find(data, j) else Find(d, j)
    decreases |data|
  {
    if data != [] {
      assert DistinctKeys(data[1..]) by {
        forall a, b | 0 <= a < b < |data[1..]| ensures data[1..][a].0 != data[1..][b].0 {
          assert data[1..][a] == data[a + 1] && data[1..][b] == data[b + 1];
        }
      }
      UpdateFind(Put(d, data[0].0, data[0].1), data[1..], j);
      PutFind(d, data[0].0, data[0].1, j);
    }
  }

  // ---------------------------------------------------------------------
  // The template

  /** A workflow entry of the template. */
  function WorkflowEntry(order: int, enabled: bool): Value
  {
    Dict([("completed", Bool(false)), ("data", Null), ("order", Int(order)), ("enabled", Bool(enabled))])
  }

  /** `create_project_template`, `today` standing for both dates. */
  function Template(today: string): Items
  {
    [ ("project_info", Dict([("name", Str("")), ("acronym", Str("")), ("description", Str("")),
                             ("location", Str("")), ("objective", Str("")), ("created_date", Str(today)),
                             ("last_modified", Str(today)), ("version", Str("1.0"))])),
      ("files", Dict([("watershed_shapefile", Str("")), ("dem_raster", Str("")), ("project_folder", Str(""))])),
      ("watershed_data", Dict([
        ("coordinates", Dict([("latitude", Null), ("longitude", Null)])),
        ("morphometry", Dict([("area", Null), ("perimeter", Null), ("min_elevation", Null),
                              ("max_elevation", Null), ("avg_slope", Null)])),
        ("climate", Dict([("precipitation", Null), ("temperature", Null)])),
        ("hydrology", Dict([("avg_flow", Null), ("flood_risk", Str("")), ("water_stress", Str(""))])),
        ("nutrients", Dict([("sediments", Null), ("phosphorus", Null), ("nitrogen", Null)]))])),
      ("sbn_analysis", Dict([("selected_solutions", List([])), ("scenarios", List([])), ("results", Dict([]))])),
      ("workflow_progress", Dict(TemplateWorkflowItems())) ]
  }

  function TemplateWorkflowItems(): Items
  {
    [ ("cuenca", WorkflowEntry(1, true)),
      ("barreras", WorkflowEntry(2, false)),
      ("water_security", WorkflowEntry(3, false)),
      ("other_challenges", WorkflowEntry(4, false)),
      ("sbn", WorkflowEntry(5, false)),
      ("reporte", WorkflowEntry(6, false)) ]
  }

  /** A workflow entry read as a dashboard step, when it has the four fields with the right types. */
  function StepOf(id: string, v: Value): Option<DashboardWindow.Step>
  {
    if !v.Dict? then None
    else
      var c := Find(v.items, "completed");
      var o := Find(v.items, "order");
      var e := Find(v.items, "enabled");
      var d := Find(v.items, "data");
      if c.Some? && c.value.Bool? && o.Some? && o.value.Int? && e.Some? && e.value.Bool? && d == Some(Null) then
        Some(DashboardWindow.Step(id, c.value.b, None, o.value.i, e.value.b))
      else None
  }

  lemma StepOfEntry(id: string, order: int, enabled: bool)
    ensures StepOf(id, WorkflowEntry(order, enabled)) == Some(DashboardWindow.Step(id, false, None, order, enabled))
  {
    var items := WorkflowEntry(order, enabled).items;
    assert Find(items, "completed") == Some(Bool(false));
    assert Find(items, "data") == Some(Null);
    assert Find(items[2..], "order") == Some(Int(order));
    assert Find(items[1..], "order") == Some(Int(order));
    assert Find(items, "order") == Some(Int(order));
    assert Find(items[3..], "enabled") == Some(Bool(enabled));
    assert Find(items[2..], "enabled") == Some(Bool(enabled));
    assert Find(items[1..], "enabled") == Some(Bool(enabled));
    assert Find(items, "enabled") == Some(Bool(enabled));
  }

  /** The template's workflow is the dashboard's initial sequence: six steps, orders 1..6, only 'cuenca' enabled. */
  lemma TemplateWorkflow(today: string)
    ensures var w := Find(Template(today), "workflow_progress");
      w.Some? && w.value.Dict?
      && |w.value.items| == |DashboardWindow.StepIds|
      && forall i :: 0 <= i < |DashboardWindow.StepIds| ==>
        w.value.items[i].0 == DashboardWindow.StepIds[i]
        && StepOf(DashboardWindow.StepIds[i], w.value.items[i].1) == Some(DashboardWindow.InitialSteps()[i])
  {
    var t := Template(today);
    assert t[0].0 != "workflow_progress" && t[1].0 != "workflow_progress" && t[2].0 != "workflow_progress";
    assert t[3].0 != "workflow_progress" && t[4].0 == "workflow_progress";
    assert Find(t, "workflow_progress") == Some(Dict(TemplateWorkflowItems()));
    var items := TemplateWorkflowItems();
    var steps := DashboardWindow.InitialSteps();
    forall i | 0 <= i < 6
      ensures items[i].0 == DashboardWindow.StepIds[i]
      ensures StepOf(DashboardWindow.StepIds[i], items[i].1) == Some(steps[i])
    {
      assert items[i].1 == WorkflowEntry(i + 1, i == 0);
      StepOfEntry(DashboardWindow.StepIds[i], i + 1, i == 0);
    }
  }

  // ---------------------------------------------------------------------
  // Validation

  const RequiredKeys: seq<string> := ["project_info", "files", "watershed_data", "sbn_analysis"]

  /** `validate_project`: all four top-level sections present, whatever their contents. */
  predicate ValidateProject(d: Items)
  {
    forall k :: k in RequiredKeys ==> Find(d, k).Some?
  }

  /** Validity is exactly the presence of the four sections; no other key and no content matters. */
  lemma ValidateProjectSections(d: Items)
    ensures ValidateProject(d) <==>
      Find(d, "project_info").Some? && Find(d, "files").Some?
      && Find(d, "watershed_data").Some? && Find(d, "sbn_analysis").Some?
  {
    assert RequiredKeys[0] == "project_info" && RequiredKeys[1] == "files";
    assert RequiredKeys[2] == "watershed_data" && RequiredKeys[3] == "sbn_analysis";
  }

  lemma TemplateIsValid(today: string)
    ensures ValidateProject(Template(today))
  {
    var t := Template(today);
    TemplateSections(today);
    FindKeyAt(t, 0);
    FindKeyAt(t, 1);
    FindKeyAt(t, 2);
    FindKeyAt(t, 3);
    ValidateProjectSections(t);
  }

  /** The template's top-level sections, in order. */
  lemma TemplateSections(today: string)
    ensures |Template(today)| == 5
    ensures Template(today)[0].0 == "project_info" && Template(today)[1].0 == "files"
    ensures Template(today)[2].0 == "watershed_data" && Template(today)[3].0 == "sbn_analysis"
    ensures Template(today)[4].0 == "workflow_progress"
  {
  }

  /** The template never repeats a top-level key. */
  lemma TemplateKeysDistinct(today: string)
    ensures DistinctKeys(Template(today))
  {
    TemplateSections(today);
  }

  /** A key held at some position is found. */
  lemma FindKeyAt(d: Items, i: nat)
    requires i < |d|
    ensures Find(d, d[i].0).Some?
  {
  }

  // ---------------------------------------------------------------------
  // Section update and loading

  /** The section step of `update_project_data`: merge two dicts, otherwise replace; a missing section is left alone. */
  function UpdateSection(d: Items, section: string, data: Value): (r: Items)
  {
    var cur := Find(d, section);
    if cur.None? then d
    else if cur.value.Dict? && data.Dict? then Put(d, section, Dict(Update(cur.value.items, data.items)))
    else Put(d, section, data)
  }

  /** `project_data["project_info"]["last_modified"] = today`; `None` when that raises. */
  function Touch(d: Items, today: string): (r: Option<Items>)
  {
    var info := Find(d, "project_info");
    if info.Some? && info.value.Dict? then
      Some(Put(d, "project_info", Dict(Put(info.value.items, "last_modified", Str(today)))))
    else None
  }

  lemma UpdateSectionMissing(d: Items, section: string, data: Value)
    requires Find(d, section).None?
    ensures UpdateSection(d, section, data) == d
  {
  }

  /** A merge keeps the section's other keys and takes every key of the data. */
  lemma UpdateSectionMerges(d: Items, section: string, data: Value, k: string)
    requires Find(d, section).Some? && Find(d, section).value.Dict? && data.Dict?
    requires DistinctKeys(data.items)
    ensures var s := Find(UpdateSection(d, section, data), section);
      s.Some? && s.value.Dict?
      && Find(s.value.items, k) == (if Find(data.items, k).Some? then Find(data.items, k)
                                    else Find(Find(d, section).value.items, k))
  {
    PutFind(d, section, Dict(Update(Find(d, section).value.items, data.items)), section);
    UpdateFind(Find(d, section).value.items, data.items, k);
  }

  /** Anything but dict-into-dict replaces the section outright. */
  lemma UpdateSectionReplaces(d: Items, section: string, data: Value)
    requires Find(d, section).Some? && !(Find(d, section).value.Dict? && data.Dict?)
    ensures Find(UpdateSection(d, section, data), section) == Some(data)
  {
    PutFind(d, section, data, section);
  }

  /** Other sections are untouched by an update of `section`. */
  lemma UpdateSectionOthers(d: Items, section: string, data: Value, other: string)
    requires other != section
    ensures Find(UpdateSection(d, section, data), other) == Find(d, other)
  {
    var cur := Find(d, section);
    if cur.Some? {
      if cur.value.Dict? && data.Dict? {
        PutFind(d, section, Dict(Update(cur.value.items, data.items)), other);
      } else {
        PutFind(d, section, data, other);
      }
    }
  }

  /** A successful touch records today's date and changes no other field of the project info. */
  lemma TouchSetsDate(d: Items, today: string, k: string)
    requires Touch(d, today).Some?
    ensures var info := Find(Touch(d, today).value, "project_info");
      info.Some? && info.value.Dict? && Find(info.value.items, "last_modified") == Some(Str(today))
      && (k != "last_modified" ==> Find(info.value.items, k) == Find(Find(d, "project_info").value.items, k))
  {
    var info := Find(d, "project_info").value.items;
    PutFind(d, "project_info", Dict(Put(info, "last_modified", Str(today))), "project_info");
    PutFind(info, "last_modified", Str(today), "last_modified");
    PutFind(info, "last_modified", Str(today), k);
  }

  /** A touch never changes which sections exist. */
  lemma TouchKeepsSections(d: Items, today: string, k: string)
    requires Touch(d, today).Some?
    ensures Find(Touch(d, today).value, k).Some? == Find(d, k).Some?
  {
    var info := Find(d, "project_info").value.items;
    PutFind(d, "project_info", Dict(Put(info, "last_modified", Str(today))), k);
  }

  /** `files` as `load_project` rewrites it: created empty when absent; `None` when it is not a dict. */
  function WithFolder(d: Items, folder: string): (r: Option<Items>)
  {
    var files := Find(d, "files");
    if files.None? then Some(Put(d, "files", Dict([("project_folder", Str(folder))])))
    else if files.value.Dict? then Some(Put(d, "files", Dict(Put(files.value.items, "project_folder", Str(folder)))))
    else None
  }

  /** After the rewrite the project folder reads as the folder holding the file, and the other sections are kept. */
  lemma WithFolderSets(d: Items, folder: string, other: string)
    requires WithFolder(d, folder).Some?
    ensures var files := Find(WithFolder(d, folder).value, "files");
      files.Some? && files.value.Dict? && Find(files.value.items, "project_folder") == Some(Str(folder))
    ensures other != "files" ==> Find(WithFolder(d, folder).value, other) == Find(d, other)
  {
    var files := Find(d, "files");
    if files.None? {
      PutFind(d, "files", Dict([("project_folder", Str(folder))]), "files");
      PutFind(d, "files", Dict([("project_folder", Str(folder))]), other);
    } else {
      PutFind(d, "files", Dict(Put(files.value.items, "project_folder", Str(folder))), "files");
      PutFind(d, "files", Dict(Put(files.value.items, "project_folder", Str(folder))), other);
      PutFind(files.value.items, "project_folder", Str(folder), "project_folder");
    }
  }

  // ---------------------------------------------------------------------
  // Paths (Windows rules: both separators, an optional drive)

  predicate IsSep(c: char) { c == '\\' || c == '/' }

  /** `ntpath.join(folder, name)` for a relative `name` without separators. */
  function JoinPath(folder: string, name: string): string
  {
    if folder == [] then name
    else if IsSep(folder[|folder| - 1]) || (|folder| == 2 && folder[1] == ':') then folder + name
    else folder + "\\" + name
  }

  /** `get_project_json_path`. */
  function ProjectJsonPath(folder: string): string
  {
    JoinPath(folder, "project.json")
  }

  function DriveLength(p: string): nat
  {
    if |p| >= 2 && p[1] == ':' then 2 else 0
  }

  /** Index just after the last separator in `p[from..]`, or `from` when there is none. */
  function AfterLastSep(p: string, from: nat): (i: nat)
    requires from <= |p|
    ensures from <= i <= |p|
    ensures forall k :: i <= k < |p| ==> !IsSep(p[k])
    ensures i > from ==> IsSep(p[i - 1])
    decreases |p| - from
  {
    if from == |p| then from
    else
      var rest := AfterLastSep(p, from + 1);
      if rest > from + 1 then rest else if IsSep(p[from]) then from + 1 else from
  }

  function RStripSeps(s: string): (r: string)
    ensures |r| <= |s|
    decreases |s|
  {
    if s != [] && IsSep(s[|s| - 1]) then RStripSeps(s[..|s| - 1]) else s
  }

  /** `ntpath.dirname(p)`: the drive, then the head before the last separator with trailing separators dropped (a root keeps its own). */
  function Dirname(p: string): string
  {
    var dl := DriveLength(p);
    var i := AfterLastSep(p, dl);
    var head := p[dl..i];
    var stripped := RStripSeps(head);
    p[..dl] + (if stripped == [] then head else stripped)
  }

  /** The folder of the project JSON is the folder it was placed in. */
  lemma DirnameOfJsonPath(folder: string)
    requires |folder| > DriveLength(folder) && !IsSep(folder[|folder| - 1])
    ensures Dirname(ProjectJsonPath(folder)) == folder
  {
    var p := ProjectJsonPath(folder);
    assert p == folder + "\\" + "project.json";
    var dl := DriveLength(folder);
    assert DriveLength(p) == dl;
    var i := AfterLastSep(p, dl);
    var sep := |folder|;
    assert IsSep(p[sep]);
    assert forall k :: sep < k < |p| ==> !IsSep(p[k]);
    assert i == sep + 1;
    assert p[dl..i] == folder[dl..] + "\\";
    var head := folder[dl..] + "\\";
    assert head[..|head| - 1] == folder[dl..];
    assert RStripSeps(head) == RStripSeps(folder[dl..]);
    assert RStripSeps(folder[dl..]) == folder[dl..];
    assert p[..dl] == folder[..dl];
    assert folder[..dl] + folder[dl..] == folder;
  }

  /**
   * `ProjectManager` as the windows use it: `data` is the project dict
   * they hold, mutated in place by the static methods.
   */
  class Project {
    var data: Items

    constructor(data: Items)
      ensures this.data == data
    {
      this.data := data;
    }

    /**
     * `update_project_data`: the section is merged or replaced in place,
     * then the modification date is set; when that raises the section
     * change has already happened.
     */
    method UpdateProjectData(section: string, newData: Value, today: string) returns (r: Result<Items>)
      modifies this
      ensures Touch(UpdateSection(old(data), section, newData), today).Some? ==>
        data == Touch(UpdateSection(old(data), section, newData), today).value && r == Ok(data)
      ensures Touch(UpdateSection(old(data), section, newData), today).None? ==>
        data == UpdateSection(old(data), section, newData) && r.Err?
    {
      data := UpdateSection(data, section, newData);
      var touched := Touch(data, today);
      if touched.None? {
        return Err("KeyError");
      }
      data := touched.value;
      r := Ok(data);
    }
  }

  /**
   * `load_project`: a missing or unreadable file gives `None`; otherwise
   * `files.project_folder` becomes the JSON's own folder, and the re-save
   * stamps today's date when the project info is a dict (a failed re-save
   * is silent).
   */
  method LoadProject(fileExists: bool, parsed: Option<Value>, folder: string, today: string) returns (r: Option<Items>)
    ensures !fileExists || parsed.None? || !parsed.value.Dict? ==> r.None?
    ensures fileExists && parsed.Some? && parsed.value.Dict? ==>
      var w := WithFolder(parsed.value.items, folder);
      r == (if w.None? then None else if Touch(w.value, today).Some? then Touch(w.value, today) else w)
  {
    if !fileExists || parsed.None? || !parsed.value.Dict? {
      return None;
    }
    var project := new Project(parsed.value.items);
    var w := WithFolder(project.data, folder);
    if w.None? {
      return None;
    }
    project.data := w.value;
    var touched := Touch(project.data, today);
    if touched.Some? {
      project.data := touched.value;
    }
    r := Some(project.data);
  }
}
