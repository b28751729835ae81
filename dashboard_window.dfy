/**
 * The dashboard's workflow: six steps that unlock in sequence, the updates
 * other windows report, the reset on a new delineation, the restore from a
 * saved project, and the text of the technical-information fields.
 */
module DashboardWindow {
  import opened Wrappers
  import opened PyNum

  const StepIds: seq<string> := ["cuenca", "barreras", "water_security", "other_challenges", "sbn", "reporte"]

  /** One workflow step; `data` is the payload another window stored (None for Python None). */
  datatype Step = Step(id: string, completed: bool, data: Option<string>, order: int, enabled: bool)

  /** The steps are the six ids in order, with orders 1..6, so sorting by order leaves them in place. */
  predicate WellFormed(s: seq<Step>)
  {
    |s| == |StepIds| && forall i :: 0 <= i < |s| ==> s[i].id == StepIds[i] && s[i].order == i + 1
  }

  /** The template state: nothing completed, only the watershed step enabled. */
  function InitialSteps(): (s: seq<Step>)
    ensures WellFormed(s)
    ensures forall i :: 0 <= i < |s| ==> !s[i].completed && s[i].data.None? && (s[i].enabled <==> i == 0)
  {
    seq(|StepIds|, i requires 0 <= i < |StepIds| => Step(StepIds[i], false, None, i + 1, i == 0))
  }

  /** The position of the first step not completed, `|s|` when all are. */
  function FirstIncomplete(s: seq<Step>): (k: nat)
    ensures k <= |s|
    ensures forall j :: 0 <= j < k ==> s[j].completed
    ensures k < |s| ==> !s[k].completed
  {
    if |s| == 0 || !s[0].completed then 0 else 1 + FirstIncomplete(s[1..])
  }

  /** The enabling rule: a step is enabled iff it is completed or it is the first incomplete one. */
  predicate Sequenced(s: seq<Step>)
  {
    forall i :: 0 <= i < |s| ==> (s[i].enabled <==> s[i].completed || i == FirstIncomplete(s))
  }

  /** The steps with `enabled` recomputed by the enabling rule and every other field kept. */
  function Resequence(s: seq<Step>): seq<Step>
  {
    seq(|s|, i requires 0 <= i < |s| => s[i].(enabled := s[i].completed || i == FirstIncomplete(s)))
  }

  /** Resequencing reaches the enabling rule, keeps ids, orders, completion and data, and is idempotent. */
  lemma ResequenceSequenced(s: seq<Step>)
    ensures |Resequence(s)| == |s|
    ensures forall i :: 0 <= i < |s| ==> Resequence(s)[i] == s[i].(enabled := Resequence(s)[i].enabled)
    ensures WellFormed(s) ==> WellFormed(Resequence(s))
    ensures Sequenced(Resequence(s))
    ensures Resequence(Resequence(s)) == Resequence(s)
  {
    SameCompletionSameFirst(s, Resequence(s));
  }

  lemma {:induction false} SameCompletionSameFirst(s: seq<Step>, t: seq<Step>)
    requires |s| == |t| && forall i :: 0 <= i < |s| ==> s[i].completed == t[i].completed
    ensures FirstIncomplete(s) == FirstIncomplete(t)
  {
    if |s| > 0 && s[0].completed {
      SameCompletionSameFirst(s[1..], t[1..]);
    }
  }

  /**
   * Under the enabling rule at most one incomplete step is enabled, every
   * step before it is completed, and every incomplete step after it is
   * disabled.
   */
  lemma SequencedShape(s: seq<Step>, i: nat, j: nat)
    requires Sequenced(s) && i < j < |s|
    ensures !s[i].completed ==> (!s[j].completed ==> !s[j].enabled)
    ensures s[i].enabled && !s[i].completed ==> forall k :: 0 <= k < i ==> s[k].completed
  {
  }

  lemma InitialSequenced()
    ensures Sequenced(InitialSteps())
    ensures FirstIncomplete(InitialSteps()) == 0
  {
  }

  function StepIndex(id: string): (k: Option<nat>)
    ensures k.Some? <==> id in StepIds
    ensures k.Some? ==> k.value < |StepIds| && StepIds[k.value] == id
  {
    if id == "cuenca" then Some(0) else if id == "barreras" then Some(1)
    else if id == "water_security" then Some(2) else if id == "other_challenges" then Some(3)
    else if id == "sbn" then Some(4) else if id == "reporte" then Some(5) else None
  }

  /** What `workflow_progress` keeps of a step. */
  datatype Progress = Progress(id: string, completed: bool, data: Option<string>)

  function ProgressOf(s: seq<Step>): (p: seq<Progress>)
    ensures |p| == |s| && forall i :: 0 <= i < |s| ==> p[i] == Progress(s[i].id, s[i].completed, s[i].data)
  {
    seq(|s|, i requires 0 <= i < |s| => Progress(s[i].id, s[i].completed, s[i].data))
  }

  /**
   * What `project_data['workflow_progress']` holds after a write: the reset
   * stores only completion and data per step, `_save_project` the whole
   * step table.
   */
  datatype Persisted = CompletionOnly(progress: seq<Progress>) | WholeSteps(steps: seq<Step>)

  /** The entries a later `load_project` reads back from a written progress. */
  function SavedForm(p: Persisted): (saved: seq<SavedStep>)
    ensures p.CompletionOnly? ==> (|saved| == |p.progress| &&
      forall i :: 0 <= i < |saved| ==> saved[i] == SavedStep(p.progress[i].id, Some(p.progress[i].completed), p.progress[i].data))
    ensures p.WholeSteps? ==> (|saved| == |p.steps| &&
      forall i :: 0 <= i < |saved| ==> saved[i] == SavedStep(p.steps[i].id, Some(p.steps[i].completed), p.steps[i].data))
  {
    match p
    case CompletionOnly(progress) =>
      seq(|progress|, i requires 0 <= i < |progress| => SavedStep(progress[i].id, Some(progress[i].completed), progress[i].data))
    case WholeSteps(steps) =>
      seq(|steps|, i requires 0 <= i < |steps| => SavedStep(steps[i].id, Some(steps[i].completed), steps[i].data))
  }

  /** A saved entry of `workflow_progress`: `completed` or `data` may be missing. */
  datatype SavedStep = SavedStep(id: string, completed: Option<bool>, data: Option<string>)

  /** One restored entry: known ids take completion (default False) and data; order and enabled stay. */
  function ApplySaved(s: seq<Step>, e: SavedStep): seq<Step>
    requires WellFormed(s)
  {
    match StepIndex(e.id)
    case None => s
    case Some(k) => s[k := s[k].(completed := e.completed.GetOr(false), data := e.data)]
  }

  function Restore(s: seq<Step>, saved: seq<SavedStep>): (r: seq<Step>)
    requires WellFormed(s)
    ensures WellFormed(r)
  {
    if |saved| == 0 then s else ApplySaved(Restore(s, saved[..|saved| - 1]), saved[|saved| - 1])
  }

  /** The last saved entry for an id, the one a dictionary keeps. */
  function LastSaved(saved: seq<SavedStep>, id: string): (e: Option<SavedStep>)
    ensures e.Some? ==> e.value in saved && e.value.id == id
  {
    if |saved| == 0 then None
    else if saved[|saved| - 1].id == id then Some(saved[|saved| - 1])
    else LastSaved(saved[..|saved| - 1], id)
  }

  /**
   * Restoring sets each step's completion and data from the last saved
   * entry with its id, and leaves steps without one, as well as every
   * order and enabled flag, as they were.
   */
  lemma {:induction false} RestoreFromLastSaved(s: seq<Step>, saved: seq<SavedStep>, i: nat)
    requires WellFormed(s) && i < |s|
    ensures Restore(s, saved)[i].id == s[i].id && Restore(s, saved)[i].order == s[i].order
    ensures Restore(s, saved)[i].enabled == s[i].enabled
    ensures LastSaved(saved, s[i].id).None? ==> Restore(s, saved)[i] == s[i]
    ensures LastSaved(saved, s[i].id).Some? ==>
      Restore(s, saved)[i].completed == LastSaved(saved, s[i].id).value.completed.GetOr(false) &&
      Restore(s, saved)[i].data == LastSaved(saved, s[i].id).value.data
  {
    if |saved| > 0 {
      var init := saved[..|saved| - 1];
      RestoreFromLastSaved(s, init, i);
      ApplySavedAt(Restore(s, init), saved[|saved| - 1], i);
    }
  }

  /** One saved entry changes only the step with its id, and only its completion and data. */
  lemma ApplySavedAt(s: seq<Step>, e: SavedStep, i: nat)
    requires WellFormed(s) && i < |s|
    ensures |ApplySaved(s, e)| == |s|
    ensures ApplySaved(s, e)[i].id == s[i].id && ApplySaved(s, e)[i].order == s[i].order
    ensures ApplySaved(s, e)[i].enabled == s[i].enabled
    ensures e.id != s[i].id ==> ApplySaved(s, e)[i] == s[i]
    ensures e.id == s[i].id ==>
      ApplySaved(s, e)[i].completed == e.completed.GetOr(false) && ApplySaved(s, e)[i].data == e.data
  {
    match StepIndex(e.id)
    case None =>
    case Some(k) =>
      if k != i {
        StepIdsDistinct(k, i);
      }
  }

  /** The last entry for an id is the one no later entry shares the id with. */
  lemma {:induction false} LastSavedIsLast(saved: seq<SavedStep>, i: nat)
    requires i < |saved| && forall j :: i < j < |saved| ==> saved[j].id != saved[i].id
    ensures LastSaved(saved, saved[i].id) == Some(saved[i])
  {
    if i < |saved| - 1 {
      var init := saved[..|saved| - 1];
      assert init[i] == saved[i];
      LastSavedIsLast(init, i);
    }
  }

  /**
   * Either written progress of a well-formed step table, once loaded into
   * any well-formed table, gives every step back its completion and data.
   */
  lemma WrittenProgressRestores(s: seq<Step>, p: Persisted, t: seq<Step>, i: nat)
    requires WellFormed(s) && WellFormed(t) && i < |s|
    requires p == CompletionOnly(ProgressOf(s)) || p == WholeSteps(s)
    ensures Restore(t, SavedForm(p))[i].completed == s[i].completed
    ensures Restore(t, SavedForm(p))[i].data == s[i].data
  {
    var saved := SavedForm(p);
    forall j | i < j < |saved|
      ensures saved[j].id != saved[i].id
    {
      StepIdsDistinct(i, j);
    }
    LastSavedIsLast(saved, i);
    RestoreFromLastSaved(t, saved, i);
  }

  lemma StepIdsDistinct(i: nat, j: nat)
    requires i < |StepIds| && j < |StepIds| && i != j
    ensures StepIds[i] != StepIds[j]
  {
  }

  /** The value shown in a technical-information field. */
  datatype FieldValue = PyNone | PyStr(s: string) | PyBool(b: bool) | PyInt(i: int) | PyFloat(x: real) | PyEmptyList | PyOther(repr: string)

  datatype FieldText = NotAvailable | Translated(key: string) | Shown(text: string)

  const CategoryKeys: seq<string> := ["very_low", "low", "medium", "high", "very_high"]

  /** `f"{x:.2f}"`: the sign, the integer part and two decimals of the value rounded half to even. */
  function Fixed2(x: real): (t: string)
  {
    var a := if x < 0.0 then -x else x;
    var cents: nat := RoundHalfEven(a * 100.0);
    (if x < 0.0 then "-" else "") + NatToString(cents / 100) + "." + [DigitChar(cents % 100 / 10), DigitChar(cents % 10)]
  }

  /** The two-decimal text of a non-negative value spells its hundredths rounded half to even. */
  lemma Fixed2Digits(x: real)
    requires x >= 0.0
    ensures var t := Fixed2(x); var n := |t|;
      n >= 4 && t[n - 3] == '.' &&
      (forall i :: 0 <= i < n && i != n - 3 ==> IsDigit(t[i])) &&
      DigitsValue(t[..n - 3]) * 100 + DigitValue(t[n - 2]) * 10 + DigitValue(t[n - 1]) == RoundHalfEven(x * 100.0)
  {
    var c := RoundHalfEven(x * 100.0);
    NatToStringDigits(c / 100);
    DigitCharValue(c % 100 / 10);
    DigitCharValue(c % 10);
    var head := NatToString(c / 100);
    DecimalTail(head, DigitChar(c % 100 / 10), DigitChar(c % 10));
    assert Fixed2(x) == head + "." + [DigitChar(c % 100 / 10), DigitChar(c % 10)];
    CentsSplit(c);
  }

  /** Hundreds, tens and units of a count of cents. */
  lemma CentsSplit(c: nat)
    ensures (c / 100) * 100 + (c % 100 / 10) * 10 + c % 10 == c
  {
    var q, r := c / 100, c % 100;
    assert c == q * 100 + r;
    assert r == (r / 10) * 10 + r % 10;
    assert c == (q * 10 + r / 10) * 10 + r % 10;
    assert c % 10 == r % 10;
  }

  /** `head + "." + [d1, d2]`, with `head` all digits, parses back digit by digit. */
  lemma DecimalTail(head: string, d1: char, d2: char)
    requires |head| >= 1 && (forall i :: 0 <= i < |head| ==> IsDigit(head[i])) && IsDigit(d1) && IsDigit(d2)
    ensures var t := head + "." + [d1, d2]; var n := |t|;
      n >= 4 && t[n - 3] == '.' && t[n - 2] == d1 && t[n - 1] == d2 && t[..n - 3] == head &&
      forall i :: 0 <= i < n && i != n - 3 ==> IsDigit(t[i])
  {
    var t := head + "." + [d1, d2];
    assert t[..|t| - 3] == head;
  }

  lemma DigitCharValue(d: nat)
    requires d < 10
    ensures IsDigit(DigitChar(d)) && DigitValue(DigitChar(d)) == d
  {
  }

  /**
   * `_update_technical_field`: None, "" and [] are not available; the five
   * category keys are translated; floats get two decimals; every other
   * value, bools and ints included, is shown as `str` would.
   */
  function TechnicalFieldText(v: FieldValue): (t: FieldText)
    ensures t.NotAvailable? <==> v.PyNone? || v == PyStr("") || v.PyEmptyList?
    ensures t.Translated? <==> v.PyStr? && v.s in CategoryKeys
    ensures t.Translated? ==> t.key == "water_security.importance_levels." + v.s
    ensures v.PyFloat? ==> t == Shown(Fixed2(v.x))
    ensures v.PyInt? ==> t == Shown(IntToString(v.i))
    ensures v.PyStr? && v.s != "" && v.s !in CategoryKeys ==> t == Shown(v.s)
  {
    match v
    case PyNone => NotAvailable
    case PyEmptyList => NotAvailable
    case PyStr(s) =>
      if s == "" then NotAvailable
      else if s in CategoryKeys then Translated("water_security.importance_levels." + s)
      else Shown(s)
    case PyBool(b) => Shown(if b then "True" else "False")
    case PyInt(i) => Shown(IntToString(i))
    case PyFloat(x) => Shown(Fixed2(x))
    case PyOther(r) => Shown(r)
  }

  /** The dashboard's workflow state. */
  class Dashboard {
    var steps: seq<Step>
    /** Whether the window still exists (`winfo_exists`). */
    var alive: bool
    /** Whether a project is loaded (`project_data` truthy). */
    var hasProject: bool
    /** The project's `workflow_progress`, when one was written. */
    var persisted: Option<Persisted>

    ghost predicate Valid()
      reads this
    {
      WellFormed(steps)
    }

    constructor ()
      ensures Valid() && steps == InitialSteps() && alive && !hasProject && persisted.None?
    {
      steps := InitialSteps();
      alive := true;
      hasProject := false;
      persisted := None;
    }

    /**
     * `_update_buttons_sequence`: walks the steps in order; completed ones
     * are enabled, the first incomplete one is enabled, later incomplete
     * ones are disabled.
     */
    method UpdateButtonsSequence()
      requires Valid()
      modifies this
      ensures Valid()
      ensures steps == (if old(alive) then Resequence(old(steps)) else old(steps))
      ensures alive == old(alive) && hasProject == old(hasProject) && persisted == old(persisted)
    {
      if !alive {
        return;
      }
      var s := steps;
      var nextFound := false;
      for i := 0 to |s|
        invariant |s| == |steps|
        invariant forall j :: 0 <= j < i ==> s[j] == Resequence(steps)[j]
        invariant forall j :: i <= j < |s| ==> s[j] == steps[j]
        invariant nextFound <==> FirstIncomplete(steps) < i
      {
        if s[i].completed {
          s := s[i := s[i].(enabled := true)];
        } else if !nextFound {
          s := s[i := s[i].(enabled := true)];
          nextFound := true;
        } else {
          s := s[i := s[i].(enabled := false)];
        }
      }
      ResequenceSequenced(steps);
      steps := s;
    }

    /** `update_workflow_step`: a known step takes the reported completion and data, then the sequence is recomputed. */
    method UpdateWorkflowStep(id: string, completed: bool, data: Option<string>)
      requires Valid()
      modifies this
      ensures Valid()
      ensures !old(alive) || id !in StepIds ==> steps == old(steps)
      ensures old(alive) && id in StepIds ==>
        steps == Resequence(old(steps)[StepIndex(id).value := old(steps)[StepIndex(id).value].(completed := completed, data := data)])
      ensures alive == old(alive) && hasProject == old(hasProject) && persisted == old(persisted)
    {
      if !alive {
        return;
      }
      var k := StepIndex(id);
      if k.Some? {
        steps := steps[k.value := steps[k.value].(completed := completed, data := data)];
        UpdateButtonsSequence();
      }
    }

    /**
     * `reset_workflow_on_new_delineation`: every step becomes incomplete
     * with no data, only the watershed step stays enabled, and a loaded
     * project's progress records just completion and data.
     */
    method ResetWorkflowOnNewDelineation()
      requires Valid()
      modifies this
      ensures Valid()
      ensures !old(alive) ==> steps == old(steps) && persisted == old(persisted)
      ensures old(alive) ==> steps == InitialSteps()
      ensures old(alive) && hasProject ==> persisted == Some(CompletionOnly(ProgressOf(steps)))
      ensures old(alive) && !hasProject ==> persisted == old(persisted)
      ensures alive == old(alive) && hasProject == old(hasProject)
    {
      if !alive {
        return;
      }
      var s := steps;
      for i := 0 to |s|
        invariant WellFormed(s)
        invariant forall j :: 0 <= j < i ==> s[j] == InitialSteps()[j]
      {
        s := s[i := s[i].(completed := false, data := None, enabled := i == 0)];
      }
      steps := s;
      if hasProject {
        persisted := Some(CompletionOnly(ProgressOf(steps)));
      }
    }

    /**
     * The workflow part of `load_project`: entries of `workflow_progress`
     * for known ids restore completion and data; then, with the project
     * loaded, the sequence is recomputed.
     */
    method RestoreProgress(saved: Option<seq<SavedStep>>)
      requires Valid()
      modifies this
      ensures Valid() && hasProject
      ensures steps == (if old(alive) then Resequence(Restore(old(steps), saved.GetOr([]))) else Restore(old(steps), saved.GetOr([])))
      ensures alive == old(alive) && persisted == old(persisted)
    {
      hasProject := true;
      var entries := saved.GetOr([]);
      var s := steps;
      for k := 0 to |entries|
        invariant WellFormed(s)
        invariant s == Restore(steps, entries[..k])
      {
        assert entries[..k + 1][..k] == entries[..k];
        var idx := StepIndex(entries[k].id);
        if idx.Some? {
          s := s[idx.value := s[idx.value].(completed := entries[k].completed.GetOr(false), data := entries[k].data)];
        }
      }
      assert entries[..|entries|] == entries;
      steps := s;
      UpdateButtonsSequence();
    }

    /** Opening the SbN window enables the report step at once. */
    method OnSbnOpened()
      requires Valid()
      modifies this
      ensures Valid() && steps == old(steps)[5 := old(steps)[5].(enabled := true)]
      ensures alive == old(alive) && hasProject == old(hasProject) && persisted == old(persisted)
    {
      steps := steps[5 := steps[5].(enabled := true)];
    }

    /**
     * Closing the SbN window marks the SbN step completed, the status
     * update recomputes the sequence, and `_save_project` writes the step
     * table into a loaded project.
     */
    method OnSbnClosed()
      requires Valid()
      modifies this
      ensures Valid()
      ensures steps == (if old(hasProject) && old(alive) then Resequence(old(steps)[4 := old(steps)[4].(completed := true)])
                        else old(steps)[4 := old(steps)[4].(completed := true)])
      ensures alive == old(alive) && hasProject == old(hasProject)
      ensures persisted == (if hasProject then Some(WholeSteps(steps)) else old(persisted))
    {
      steps := steps[4 := steps[4].(completed := true)];
      if hasProject {
        UpdateButtonsSequence();
      }
      SaveProject();
    }

    /**
     * `_save_project`: without a project nothing is written; otherwise the
     * step table becomes the project's `workflow_progress`.
     */
    method SaveProject()
      modifies this
      ensures steps == old(steps) && alive == old(alive) && hasProject == old(hasProject)
      ensures persisted == (if hasProject then Some(WholeSteps(steps)) else old(persisted))
    {
      if hasProject {
        persisted := Some(WholeSteps(steps));
      }
    }
  }

  /**
   * The report step enabled on opening stays enabled after closing only
   * when every step before the SbN one is completed, or it was completed.
   */
  lemma ReportAfterSbn(s: seq<Step>)
    requires WellFormed(s)
    ensures var t := Resequence(s[4 := s[4].(completed := true)]);
      t[5].enabled <==> s[5].completed || (forall k :: 0 <= k < 4 ==> s[k].completed)
  {
    var u := s[4 := s[4].(completed := true)];
    if forall k :: 0 <= k < 4 ==> s[k].completed {
      FirstIncompleteAt(u, 5);
    } else {
      var k :| 0 <= k < 4 && !s[k].completed;
      assert !u[k].completed;
    }
  }

  lemma FirstIncompleteAt(s: seq<Step>, k: nat)
    requires k <= |s| && forall j :: 0 <= j < k ==> s[j].completed
    ensures FirstIncomplete(s) >= k
  {
  }
}
