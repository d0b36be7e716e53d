/** The project overview tab: task-completion statistics, the spent and
    remaining budget, and the inline editors for the start date, goal date
    and total budget. Amounts are exact reals. */
module Overview {
  import opened Optional
  import Arith

  datatype TaskRow = TaskRow(status: string, budget: Option<real>)

  datatype MaterialRow = MaterialRow(priceTotal: Option<real>, excludeFromBudget: Option<bool>)

  datatype Project = Project(
    id: string,
    name: string,
    status: string,
    totalBudget: Option<real>,
    spentAmount: Option<real>,
    startDate: Option<string>,
    finishGoalDate: Option<string>)

  datatype TaskStats = TaskStats(total: nat, completed: nat, percentage: int)

  /** The result of a query: an error, or rows (which may be null). */
  datatype Query<T> = Failed | Loaded(data: Option<seq<T>>)

  const InitialStats: TaskStats := TaskStats(0, 0, 0)

  // ---------------------------------------------------------------------
  // Task completion

  predicate IsComplete(t: TaskRow) {
    t.status == "done" || t.status == "completed"
  }

  /** The number of tasks whose status is "done" or "completed". */
  function CountComplete(tasks: seq<TaskRow>): (r: nat)
    ensures r <= |tasks|
    ensures r == |tasks| <==> forall i :: 0 <= i < |tasks| ==> IsComplete(tasks[i])
    ensures r == 0 <==> forall i :: 0 <= i < |tasks| ==> !IsComplete(tasks[i])
  {
    if tasks == [] then 0
    else
      var rest := CountComplete(tasks[1..]);
      assert forall i :: 1 <= i < |tasks| ==> tasks[i] == tasks[1..][i - 1];
      (if IsComplete(tasks[0]) then 1 else 0) + rest
  }

  /** The count is additive: one for each complete task and nothing for the
      rest, so it is exactly the number of complete tasks in the list. */
  lemma {:induction false} CountCompleteAppend(a: seq<TaskRow>, b: seq<TaskRow>)
    ensures CountComplete(a + b) == CountComplete(a) + CountComplete(b)
    decreases |a|
  {
    if a == [] {
      assert a + b == b;
    } else {
      assert (a + b)[0] == a[0];
      assert (a + b)[1..] == a[1..] + b;
      CountCompleteAppend(a[1..], b);
    }
  }

  /** A single task counts one exactly when it is complete. */
  lemma CountCompleteSingle(t: TaskRow)
    ensures CountComplete([t]) == if IsComplete(t) then 1 else 0
  {
  }

  /** `Math.round(n / d)` for n >= 0 and d > 0: the nearest integer, halves
      rounded up. */
  function RoundDiv(n: nat, d: nat): (r: nat)
    requires d > 0
    ensures 2 * n - d < 2 * r * d <= 2 * n + d
  {
    var q := (2 * n + d) / (2 * d);
    assert (2 * n + d) == q * (2 * d) + (2 * n + d) % (2 * d);
    q
  }

  /** `percentage`: 0 without tasks, otherwise completed/total rounded. */
  function Percentage(completed: nat, total: nat): (r: int)
    requires completed <= total
    ensures total == 0 ==> r == 0
    ensures total > 0 ==> 200 * completed - total < 2 * r * total <= 200 * completed + total
    ensures 0 <= r <= 100
    ensures completed == total && total > 0 ==> r == 100
    ensures completed == 0 ==> r == 0
  {
    if total > 0 then
      var r := RoundDiv(100 * completed, total);
      RoundedShareBounds(completed, total, r);
      r
    else 0
  }

  /** A rounded share of at most the whole lies in [0, 100], hitting the ends
      for none and all. */
  lemma RoundedShareBounds(completed: nat, total: nat, r: int)
    requires completed <= total && total > 0
    requires 200 * completed - total < 2 * r * total <= 200 * completed + total
    ensures 0 <= r <= 100
    ensures completed == total ==> r == 100
    ensures completed == 0 ==> r == 0
  {
    assert (2 * r) * total == 2 * r * total;
    Arith.IntCancelLt(-1, 2 * r, total);
    Arith.IntCancelLe(2 * r, 201, total);
    if completed == total {
      Arith.IntCancelLt(199, 2 * r, total);
    }
    if completed == 0 {
      Arith.IntCancelLe(2 * r, 1, total);
    }
  }

  /** `fetchTaskStats`: a failed query leaves the statistics as they were;
      a null result counts as no tasks. */
  function FetchTaskStats(prev: TaskStats, q: Query<TaskRow>): (r: TaskStats)
    ensures q.Failed? ==> r == prev
    ensures q.Loaded? ==> var tasks := q.data.GetOr([]);
      && r.total == |tasks|
      && r.completed == CountComplete(tasks)
      && r.percentage == Percentage(r.completed, r.total)
    ensures q.Loaded? ==> 0 <= r.completed <= r.total && 0 <= r.percentage <= 100
  {
    match q
    case Failed => prev
    case Loaded(data) =>
      var tasks := data.GetOr([]);
      var completed := CountComplete(tasks);
      TaskStats(|tasks|, completed, Percentage(completed, |tasks|))
  }

  /** Every task finished reads as 100%; none finished reads as 0%. */
  lemma AllCompleteIsHundred(tasks: seq<TaskRow>)
    requires tasks != []
    ensures (forall i :: 0 <= i < |tasks| ==> IsComplete(tasks[i])) ==>
      FetchTaskStats(InitialStats, Loaded(Some(tasks))).percentage == 100
    ensures (forall i :: 0 <= i < |tasks| ==> !IsComplete(tasks[i])) ==>
      FetchTaskStats(InitialStats, Loaded(Some(tasks))).percentage == 0
  {
  }

  // ---------------------------------------------------------------------
  // Spent and remaining budget

  /** The task-budget reduction: each budget, null as 0. */
  function BudgetSum(tasks: seq<TaskRow>): real {
    if tasks == [] then 0.0 else NumberOr(tasks[0].budget, 0.0) + BudgetSum(tasks[1..])
  }

  predicate Excluded(m: MaterialRow) {
    m.excludeFromBudget == Some(true)
  }

  /** The material-cost reduction: each `price_total`, null as 0, skipping
      materials excluded from the budget. */
  function MaterialSum(ms: seq<MaterialRow>): real {
    if ms == [] then 0.0
    else (if Excluded(ms[0]) then 0.0 else NumberOr(ms[0].priceTotal, 0.0)) + MaterialSum(ms[1..])
  }

  lemma {:induction false} BudgetSumAppend(a: seq<TaskRow>, b: seq<TaskRow>)
    ensures BudgetSum(a + b) == BudgetSum(a) + BudgetSum(b)
    decreases |a|
  {
    if a == [] {
      assert a + b == b;
    } else {
      assert (a + b)[0] == a[0] && (a + b)[1..] == a[1..] + b;
      BudgetSumAppend(a[1..], b);
    }
  }

  lemma {:induction false} MaterialSumAppend(a: seq<MaterialRow>, b: seq<MaterialRow>)
    ensures MaterialSum(a + b) == MaterialSum(a) + MaterialSum(b)
    decreases |a|
  {
    if a == [] {
      assert a + b == b;
    } else {
      assert (a + b)[0] == a[0] && (a + b)[1..] == a[1..] + b;
      MaterialSumAppend(a[1..], b);
    }
  }

  /** Adding an excluded material anywhere, or replacing one excluded
      material by another, never changes the material total. */
  lemma ExcludedMaterialsIgnored(a: seq<MaterialRow>, b: seq<MaterialRow>, m: MaterialRow, m2: MaterialRow)
    requires Excluded(m) && Excluded(m2)
    ensures MaterialSum(a + [m] + b) == MaterialSum(a + b)
    ensures MaterialSum(a + [m] + b) == MaterialSum(a + [m2] + b)
  {
    MaterialSumAppend(a + [m], b);
    MaterialSumAppend(a, [m]);
    MaterialSumAppend(a + [m2], b);
    MaterialSumAppend(a, [m2]);
    MaterialSumAppend(a, b);
  }

  /** Only included materials count: the total is the sum of the included
      ones' prices. */
  lemma {:induction false} MaterialSumOfIncluded(ms: seq<MaterialRow>)
    requires forall i :: 0 <= i < |ms| ==> !Excluded(ms[i]) && ms[i].priceTotal.Some?
    ensures MaterialSum(ms) == PriceSum(ms)
    decreases |ms|
  {
    if ms != [] {
      MaterialSumOfIncluded(ms[1..]);
    }
  }

  /** The plain sum of the prices (all present). */
  function PriceSum(ms: seq<MaterialRow>): real
    requires forall i :: 0 <= i < |ms| ==> ms[i].priceTotal.Some?
  {
    if ms == [] then 0.0 else ms[0].priceTotal.value + PriceSum(ms[1..])
  }

  /** `taskBudgetTotal`: null rows count as no tasks. */
  function TaskBudgetTotal(tasks: Option<seq<TaskRow>>): (r: real)
    ensures tasks.None? ==> r == 0.0
  {
    BudgetSum(tasks.GetOr([]))
  }

  /** `materialCostTotal`: null rows count as no materials. */
  function MaterialCostTotal(materials: Option<seq<MaterialRow>>): (r: real)
    ensures materials.None? ==> r == 0.0
  {
    MaterialSum(materials.GetOr([]))
  }

  /** `calculatedSpent`. The queries' errors are not checked, so a failed
      query reads as null rows. */
  function CalculatedSpent(tasks: Option<seq<TaskRow>>, materials: Option<seq<MaterialRow>>): (r: real)
    ensures r == TaskBudgetTotal(tasks) + MaterialCostTotal(materials)
    ensures tasks.None? && materials.None? ==> r == 0.0
  {
    TaskBudgetTotal(tasks) + MaterialCostTotal(materials)
  }

  /** A new task with a budget raises the spent amount by that budget. */
  lemma NewTaskAddsItsBudget(tasks: seq<TaskRow>, t: TaskRow, materials: Option<seq<MaterialRow>>)
    ensures CalculatedSpent(Some(tasks + [t]), materials)
         == CalculatedSpent(Some(tasks), materials) + t.budget.GetOr(0.0)
  {
    BudgetSumAppend(tasks, [t]);
    NumberOrZeroIsNullAsZero(t.budget);
  }

  /** `remainingBudget`: the total budget (null or 0 as 0) minus the spent amount. */
  function RemainingBudget(p: Project, spent: real): (r: real)
    ensures r + spent == p.totalBudget.GetOr(0.0)
  {
    NumberOrZeroIsNullAsZero(p.totalBudget);
    NumberOr(p.totalBudget, 0.0) - spent
  }

  datatype Tone = Destructive | Success

  /** The remaining amount is shown in the destructive colour exactly when it
      is negative, that is, when more was spent than budgeted. */
  function RemainingTone(p: Project, spent: real): (r: Tone)
    ensures r == Destructive <==> spent > p.totalBudget.GetOr(0.0)
  {
    if RemainingBudget(p, spent) < 0.0 then Destructive else Success
  }

  // ---------------------------------------------------------------------
  // Status badge

  /** The position of the first underscore, if any. */
  function FirstUnderscore(s: string): (r: Option<nat>)
    ensures r.None? <==> '_' !in s
    ensures r.Some? ==> r.value < |s| && s[r.value] == '_'
    ensures r.Some? ==> forall j :: 0 <= j < r.value ==> s[j] != '_'
  {
    if s == [] then None
    else if s[0] == '_' then Some(0)
    else
      match FirstUnderscore(s[1..])
      case None => None
      case Some(k) => Some(k + 1)
  }

  /** `status.replace("_", " ")`: a string pattern replaces only its first
      occurrence, so "a_b_c" is shown as "a b_c". */
  function StatusCaption(status: string): (r: string)
    ensures |r| == |status|
    ensures '_' !in status ==> r == status
    ensures FirstUnderscore(status).Some? ==> var k := FirstUnderscore(status).value;
      && r[k] == ' '
      && (forall i :: 0 <= i < |status| && i != k ==> r[i] == status[i])
  {
    match FirstUnderscore(status)
    case None => status
    case Some(k) => status[k := ' ']
  }

  /** At most one underscore disappears: the caption keeps every later one. */
  lemma CaptionKeepsLaterUnderscores(status: string, i: nat)
    requires i < |status| && status[i] == '_'
    ensures StatusCaption(status)[i] == '_' <==> FirstUnderscore(status) != Some(i)
  {
  }

  datatype BadgeVariant = DefaultVariant | SecondaryVariant

  /** The status badge is drawn in the default style only for "completed". */
  function StatusVariant(status: string): (r: BadgeVariant)
    ensures r == DefaultVariant <==> status == "completed"
  {
    if status == "completed" then DefaultVariant else SecondaryVariant
  }

  // ---------------------------------------------------------------------
  // Inline editors

  /** One inline editor: whether it is open and the text being edited. */
  datatype Editor = Editor(editing: bool, draft: string)

  /** The editor's events. `SaveDone(refreshed)` is a successful update;
      `refreshed` says whether `onProjectUpdate` has delivered the updated
      project before the next event. */
  datatype EditEvent = Open | Type(text: string) | Cancel | SaveDone(refreshed: bool) | SaveFailed

  /** The draft an editor holds when the tab opens or an edit is cancelled:
      the stored value, or "" when it is null or empty. */
  function DateDraft(stored: Option<string>): string {
    StringOr(stored, "")
  }

  /** `total_budget?.toString() || ""`: `show` is the number's text. */
  function BudgetDraft(stored: Option<real>, show: real -> string): string {
    if stored.None? then "" else StringOr(Some(show(stored.value)), "")
  }

  /** One editor event; `initial` is the draft derived from the stored
      value. Saving closes the editor only when the update succeeded. */
  function EditStep(e: Editor, ev: EditEvent, initial: string): (r: Editor)
    ensures ev == Cancel ==> r == Editor(false, initial)
    ensures ev == SaveFailed ==> r == e
    ensures ev.SaveDone? ==> r.draft == e.draft && !r.editing
  {
    match ev
    case Open => e.(editing := true)
    case Type(s) => e.(draft := s)
    case Cancel => Editor(false, initial)
    case SaveDone(_) => e.(editing := false)
    case SaveFailed => e
  }

  /** The value a save writes for a date draft: `draft || null`. */
  function DatePayload(draft: string): (r: Option<string>)
    ensures r.None? <==> draft == ""
    ensures r.Some? ==> r.value == draft
  {
    if draft == "" then None else Some(draft)
  }

  /** The value a save writes for the budget draft: null for "", otherwise
      the parsed number (`parse` is `parseFloat`). */
  function BudgetPayload(draft: string, parse: string -> real): (r: Option<real>)
    ensures r.None? <==> draft == ""
    ensures r.Some? ==> r.value == parse(draft)
  {
    if draft == "" then None else Some(parse(draft))
  }

  /** Saving an unedited date draft writes back the stored date; an empty
      stored string is normalised to null. */
  lemma UneditedDateRoundTrip(stored: Option<string>)
    ensures DatePayload(DateDraft(stored)) == if stored == Some("") then None else stored
  {
  }

  /** A date editor together with the stored date it edits. */
  datatype DateField = DateField(editor: Editor, stored: Option<string>)

  /** The tab as first rendered: closed, with the draft taken from the
      stored date. */
  function DateFieldAt(stored: Option<string>): DateField {
    DateField(Editor(false, DateDraft(stored)), stored)
  }

  /** One event on a date editor. The picker, Save and Cancel exist only
      while editing, and the pencil button only while closed, so any other
      event changes nothing. After a successful save the stored date is the
      one written only if `onProjectUpdate` is given and has refreshed
      `project`; otherwise it is still the old one. The draft itself is never
      reset by a refresh, since `useState` ignores later initial values. */
  function DateStep(f: DateField, ev: EditEvent): (r: DateField)
    ensures !f.editor.editing && ev == Open ==> r == f.(editor := Editor(true, f.editor.draft))
    ensures !f.editor.editing && ev != Open ==> r == f
    ensures f.editor.editing && ev == Cancel ==> r == DateField(Editor(false, DateDraft(f.stored)), f.stored)
    ensures f.editor.editing && ev.SaveDone? ==> r.editor == Editor(false, f.editor.draft)
    ensures f.editor.editing && ev == SaveDone(true) ==> r.stored == DatePayload(f.editor.draft)
    ensures ev != SaveDone(true) ==> r.stored == f.stored
  {
    if !f.editor.editing then
      if ev == Open then f.(editor := EditStep(f.editor, ev, DateDraft(f.stored))) else f
    else if ev == SaveDone(true) then
      DateField(EditStep(f.editor, ev, DateDraft(f.stored)), DatePayload(f.editor.draft))
    else
      f.(editor := EditStep(f.editor, ev, DateDraft(f.stored)))
  }

  function DateRun(f: DateField, evs: seq<EditEvent>): DateField
    decreases |evs|
  {
    if evs == [] then f else DateRun(DateStep(f, evs[0]), evs[1..])
  }

  /** A closed editor holds the draft of the stored date, so opening it shows
      what is stored. */
  predicate InSync(f: DateField) {
    !f.editor.editing ==> f.editor.draft == DateDraft(f.stored)
  }

  /** Writing a draft and reading it back gives the same draft. */
  lemma DraftPayloadRoundTrip(draft: string)
    ensures DateDraft(DatePayload(draft)) == draft
  {
  }

  /** Every successful save in `evs` is followed by the refresh. */
  predicate RefreshedSaves(evs: seq<EditEvent>) {
    forall i :: 0 <= i < |evs| ==> evs[i].SaveDone? ==> evs[i].refreshed
  }

  lemma DateStepKeepsInSync(f: DateField, ev: EditEvent)
    requires InSync(f) && ev != SaveDone(false)
    ensures InSync(DateStep(f, ev))
  {
    if f.editor.editing && ev == SaveDone(true) {
      DraftPayloadRoundTrip(f.editor.draft);
    }
  }

  /** After any history of opening, typing, failed and refreshed successful
      saves, the editor is in step with the stored date, and Cancel resets
      the draft from the date stored now, which after such a save is the
      saved one rather than the one the tab opened with. */
  lemma {:induction false} CancelShowsStoredDate(stored: Option<string>, evs: seq<EditEvent>)
    requires RefreshedSaves(evs)
    ensures InSync(DateRun(DateFieldAt(stored), evs))
    ensures var f := DateRun(DateFieldAt(stored), evs);
            f.editor.editing ==> DateStep(f, Cancel) == DateField(Editor(false, DateDraft(f.stored)), f.stored)
  {
    DateRunKeepsInSync(DateFieldAt(stored), evs);
  }

  lemma {:induction false} DateRunKeepsInSync(f: DateField, evs: seq<EditEvent>)
    requires InSync(f) && RefreshedSaves(evs)
    ensures InSync(DateRun(f, evs))
    decreases |evs|
  {
    if evs != [] {
      assert RefreshedSaves(evs[1..]) by {
        forall i | 0 <= i < |evs[1..]| ensures evs[1..][i].SaveDone? ==> evs[1..][i].refreshed {
          assert evs[1..][i] == evs[i + 1];
        }
      }
      DateStepKeepsInSync(f, evs[0]);
      DateRunKeepsInSync(DateStep(f, evs[0]), evs[1..]);
    }
  }

  /** Open, type, save successfully with the refresh, reopen and cancel:
      the editor shows the saved date, not the date the tab opened with. */
  lemma CancelAfterSaveShowsSavedDate(stored: Option<string>, typed: string)
    requires typed != DateDraft(stored)
    ensures var f := DateRun(DateFieldAt(stored), [Open, Type(typed), SaveDone(true), Open, Cancel]);
            && f == DateField(Editor(false, typed), DatePayload(typed))
            && f != DateFieldAt(stored)
  {
    var f0 := DateFieldAt(stored);
    var f1 := DateStep(f0, Open);
    var f2 := DateStep(f1, Type(typed));
    assert f2 == DateField(Editor(true, typed), stored);
    var f3 := DateStep(f2, SaveDone(true));
    assert f3 == DateField(Editor(false, typed), DatePayload(typed));
    var f4 := DateStep(f3, Open);
    DraftPayloadRoundTrip(typed);
    var f5 := DateStep(f4, Cancel);
    assert f5 == f3;
    assert DateRun(f4, [Cancel]) == f5;
    assert DateRun(f3, [Open, Cancel]) == f5 by { assert [Open, Cancel][1..] == [Cancel]; }
    assert DateRun(f2, [SaveDone(true), Open, Cancel]) == f5 by { assert [SaveDone(true), Open, Cancel][1..] == [Open, Cancel]; }
    assert DateRun(f1, [Type(typed), SaveDone(true), Open, Cancel]) == f5 by {
      assert [Type(typed), SaveDone(true), Open, Cancel][1..] == [SaveDone(true), Open, Cancel];
    }
    assert DateRun(f0, [Open, Type(typed), SaveDone(true), Open, Cancel]) == f5 by {
      assert [Open, Type(typed), SaveDone(true), Open, Cancel][1..] == [Type(typed), SaveDone(true), Open, Cancel];
    }
  }

  /** Without the refresh, `project.start_date` still holds the old date:
      reopening shows the typed draft, and Cancel puts the old date back into
      the editor although the new one was written. */
  lemma CancelAfterUnrefreshedSaveShowsOldDate(stored: Option<string>, typed: string)
    requires typed != DateDraft(stored)
    ensures var f3 := DateRun(DateFieldAt(stored), [Open, Type(typed), SaveDone(false)]);
            && f3 == DateField(Editor(false, typed), stored)
            && !InSync(f3)
            && DateRun(f3, [Open, Cancel]) == DateFieldAt(stored)
  {
    var f0 := DateFieldAt(stored);
    var f1 := DateStep(f0, Open);
    var f2 := DateStep(f1, Type(typed));
    assert f2 == DateField(Editor(true, typed), stored);
    var f3 := DateStep(f2, SaveDone(false));
    assert f3 == DateField(Editor(false, typed), stored);
    assert DateRun(f2, [SaveDone(false)]) == f3;
    assert DateRun(f1, [Type(typed), SaveDone(false)]) == f3 by {
      assert [Type(typed), SaveDone(false)][1..] == [SaveDone(false)];
    }
    assert DateRun(f0, [Open, Type(typed), SaveDone(false)]) == f3 by {
      assert [Open, Type(typed), SaveDone(false)][1..] == [Type(typed), SaveDone(false)];
    }
    var f4 := DateStep(f3, Open);
    assert DateStep(f4, Cancel) == f0;
    assert DateRun(f3, [Open, Cancel]) == f0 by { assert [Open, Cancel][1..] == [Cancel]; }
  }

  /** An unset budget opens as an empty draft, and saving an empty draft
      clears the budget rather than writing 0. */
  lemma UnsetBudgetStaysUnset(show: real -> string, parse: string -> real)
    ensures BudgetPayload(BudgetDraft(None, show), parse) == None
  {
  }
}
