/**
 * The window registry: at most one open child window per name, the main
 * window, and the project data shared between windows. Windows are
 * represented by the identifiers the registry hands out on creation.
 */
module WindowManager {
  import opened Wrappers

  /** The registered windows and the identifier the next created window will get. */
  datatype Registry = Registry(windows: map<string, nat>, next: nat)

  /** Every registered window was created before `next`. */
  predicate Issued(r: Registry)
  {
    forall name :: name in r.windows ==> r.windows[name] < r.next
  }

  /** `open_window`: the registered window if there is one, else a new one registered under the name. */
  function Open(r: Registry, name: string): (res: (Registry, nat))
    ensures name in r.windows ==> res == (r, r.windows[name])
    ensures name !in r.windows ==> res.1 == r.next && res.0 == Registry(r.windows[name := r.next], r.next + 1)
    ensures res.0.windows[name] == res.1
  {
    if name in r.windows then (r, r.windows[name])
    else (Registry(r.windows[name := r.next], r.next + 1), r.next)
  }

  /** Opening the same name twice gives the same window and changes nothing the second time. */
  lemma OpenTwice(r: Registry, name: string)
    ensures Open(Open(r, name).0, name) == Open(r, name)
  {
  }

  /** A newly created window is none of the windows already registered, and the registry stays issued. */
  lemma OpenNewIsFresh(r: Registry, name: string)
    requires Issued(r) && name !in r.windows
    ensures Open(r, name).1 !in r.windows.Values
    ensures Issued(Open(r, name).0)
  {
  }

  /** `close_window`: the entry goes if it is there; absent names are ignored. */
  function Close(r: Registry, name: string): (r': Registry)
    ensures r'.windows == r.windows - {name} && r'.next == r.next
    ensures name !in r.windows ==> r' == r
  {
    Registry(r.windows - {name}, r.next)
  }

  /** Closing a window just opened under a new name gives back the registry's windows. */
  lemma CloseUndoesOpen(r: Registry, name: string)
    requires name !in r.windows
    ensures Close(Open(r, name).0, name).windows == r.windows
  {
  }

  /** After a close, opening the name creates a window distinct from the closed one. */
  lemma ReopenAfterClose(r: Registry, name: string)
    requires Issued(r) && name in r.windows
    ensures var w := Open(Close(r, name), name).1;
      w != r.windows[name] && w !in r.windows.Values
  {
  }

  /** One field of a workflow step entry. */
  datatype StepField = Flag(b: bool) | Payload(data: Option<string>) | Number(n: int)

  /** The attributes of the main window the registry looks at. */
  datatype MainWindow = MainWindow(workflowSteps: Option<map<string, map<string, StepField>>>, hasUpdateUi: bool)

  /**
   * `update_workflow_step` on the main window: when it has `workflow_steps`,
   * the step's entry becomes exactly {completed, data}, whatever it held.
   */
  function UpdateStep(main: Option<MainWindow>, step: string, completed: bool, data: Option<string>): (m: Option<MainWindow>)
    ensures main.None? || main.value.workflowSteps.None? ==> m == main
    ensures main.Some? && main.value.workflowSteps.Some? ==>
      (m.Some? && m.value.hasUpdateUi == main.value.hasUpdateUi && m.value.workflowSteps.Some?
       && var ws := m.value.workflowSteps.value;
          && ws.Keys == main.value.workflowSteps.value.Keys + {step}
          && ws[step] == map["completed" := Flag(completed), "data" := Payload(data)]
          && forall other :: other in ws && other != step ==> ws[other] == main.value.workflowSteps.value[other])
  {
    match main
    case None => None
    case Some(w) =>
      match w.workflowSteps
      case None => main
      case Some(ws) =>
        Some(MainWindow(Some(ws[step := map["completed" := Flag(completed), "data" := Payload(data)]]), w.hasUpdateUi))
  }

  /** The other fields an entry had, such as 'order' or 'enabled', are dropped. */
  lemma UpdateStepDropsOtherFields(main: MainWindow, step: string, completed: bool, data: Option<string>, field: string)
    requires main.workflowSteps.Some?
    requires field != "completed" && field != "data"
    ensures field !in UpdateStep(Some(main), step, completed, data).value.workflowSteps.value[step]
  {
  }

  /** Updating a step twice keeps only the second update. */
  lemma UpdateStepLastWins(main: Option<MainWindow>, step: string, c1: bool, d1: Option<string>, c2: bool, d2: Option<string>)
    ensures UpdateStep(UpdateStep(main, step, c1, d1), step, c2, d2) == UpdateStep(main, step, c2, d2)
  {
    if main.Some? && main.value.workflowSteps.Some? {
      var ws := main.value.workflowSteps.value;
      var e1 := map["completed" := Flag(c1), "data" := Payload(d1)];
      var e2 := map["completed" := Flag(c2), "data" := Payload(d2)];
      assert ws[step := e1][step := e2] == ws[step := e2];
    }
  }

  class Manager {
    var windows: map<string, nat>
    var nextWindow: nat
    var mainWindow: Option<MainWindow>
    var projectData: map<string, string>
    /** Windows destroyed so far: the effect of `destroy()`. */
    var destroyed: set<nat>
    /** Windows hidden so far: the effect of `withdraw()`. */
    var withdrawn: set<nat>
    /** How many times the main window's `_update_workflow_ui` ran. */
    var uiUpdates: nat

    ghost predicate Valid()
      reads this
    {
      Issued(Registry(windows, nextWindow))
    }

    constructor ()
      ensures Valid()
      ensures windows == map[] && mainWindow.None? && projectData == map[]
      ensures nextWindow == 0 && destroyed == {} && withdrawn == {} && uiUpdates == 0
    {
      windows := map[];
      nextWindow := 0;
      mainWindow := None;
      projectData := map[];
      destroyed := {};
      withdrawn := {};
      uiUpdates := 0;
    }

    method SetMainWindow(window: MainWindow)
      modifies this
      ensures mainWindow == Some(window)
      ensures windows == old(windows) && nextWindow == old(nextWindow) && projectData == old(projectData)
      ensures destroyed == old(destroyed) && withdrawn == old(withdrawn) && uiUpdates == old(uiUpdates)
    {
      mainWindow := Some(window);
    }

    /** `open_window`; lifting an existing window to the front is not modelled. */
    method OpenWindow(name: string) returns (window: nat)
      requires Valid()
      modifies this
      ensures Valid()
      ensures (Registry(windows, nextWindow), window) == Open(Registry(old(windows), old(nextWindow)), name)
      ensures mainWindow == old(mainWindow) && projectData == old(projectData)
      ensures destroyed == old(destroyed) && withdrawn == old(withdrawn) && uiUpdates == old(uiUpdates)
    {
      if name in windows {
        return windows[name];
      }
      window := nextWindow;
      nextWindow := nextWindow + 1;
      windows := windows[name := window];
    }

    method CloseWindow(name: string)
      requires Valid()
      modifies this
      ensures Valid()
      ensures Registry(windows, nextWindow) == Close(Registry(old(windows), old(nextWindow)), name)
      ensures destroyed == if name in old(windows) then old(destroyed) + {old(windows)[name]} else old(destroyed)
      ensures mainWindow == old(mainWindow) && projectData == old(projectData)
      ensures withdrawn == old(withdrawn) && uiUpdates == old(uiUpdates)
    {
      if name in windows {
        destroyed := destroyed + {windows[name]};
        windows := windows - {name};
      }
    }

    /** Every registered window is destroyed, one at a time, and the registry is emptied. */
    method CloseAllWindows()
      requires Valid()
      modifies this
      ensures Valid()
      ensures windows == map[] && nextWindow == old(nextWindow)
      ensures destroyed == old(destroyed) + old(windows).Values
      ensures mainWindow == old(mainWindow) && projectData == old(projectData)
      ensures withdrawn == old(withdrawn) && uiUpdates == old(uiUpdates)
    {
      var pending := windows.Values;
      var done := destroyed;
      while pending != {}
        invariant done + pending == old(destroyed) + old(windows).Values
        invariant old(destroyed) <= done
        decreases pending
      {
        var window :| window in pending;
        done := done + {window};
        pending := pending - {window};
      }
      destroyed := done;
      windows := map[];
    }

    method SetProjectData(data: map<string, string>)
      modifies this
      ensures projectData == data
      ensures windows == old(windows) && nextWindow == old(nextWindow) && mainWindow == old(mainWindow)
      ensures destroyed == old(destroyed) && withdrawn == old(withdrawn) && uiUpdates == old(uiUpdates)
    {
      projectData := data;
    }

    method GetProjectData() returns (data: map<string, string>)
      ensures data == projectData
    {
      data := projectData;
    }

    method UpdateProjectData(key: string, value: string)
      modifies this
      ensures projectData == old(projectData)[key := value]
      ensures windows == old(windows) && nextWindow == old(nextWindow) && mainWindow == old(mainWindow)
      ensures destroyed == old(destroyed) && withdrawn == old(withdrawn) && uiUpdates == old(uiUpdates)
    {
      projectData := projectData[key := value];
    }

    /** `navigate_to`: with a main window set, every registered window is hidden first. */
    method NavigateTo(name: string) returns (window: nat)
      requires Valid()
      modifies this
      ensures Valid()
      ensures (Registry(windows, nextWindow), window) == Open(Registry(old(windows), old(nextWindow)), name)
      ensures withdrawn == if old(mainWindow).Some? then old(withdrawn) + old(windows).Values else old(withdrawn)
      ensures mainWindow == old(mainWindow) && projectData == old(projectData)
      ensures destroyed == old(destroyed) && uiUpdates == old(uiUpdates)
    {
      if mainWindow.Some? {
        var pending := windows.Values;
        var hidden := withdrawn;
        while pending != {}
          invariant hidden + pending == old(withdrawn) + old(windows).Values
          invariant old(withdrawn) <= hidden
          decreases pending
        {
          var w :| w in pending;
          hidden := hidden + {w};
          pending := pending - {w};
        }
        withdrawn := hidden;
      }
      window := OpenWindow(name);
    }

    /** `update_workflow_step`, then the dashboard refresh when the main window has one. */
    method UpdateWorkflowStep(step: string, completed: bool, data: Option<string>)
      modifies this
      ensures mainWindow == UpdateStep(old(mainWindow), step, completed, data)
      ensures uiUpdates == if old(mainWindow).Some? && old(mainWindow).value.workflowSteps.Some?
                              && old(mainWindow).value.hasUpdateUi
                           then old(uiUpdates) + 1 else old(uiUpdates)
      ensures windows == old(windows) && nextWindow == old(nextWindow) && projectData == old(projectData)
      ensures destroyed == old(destroyed) && withdrawn == old(withdrawn)
    {
      if mainWindow.Some? && mainWindow.value.workflowSteps.Some? {
        mainWindow := UpdateStep(mainWindow, step, completed, data);
        if mainWindow.value.hasUpdateUi {
          uiUpdates := uiUpdates + 1;
        }
      }
    }
  }
}
