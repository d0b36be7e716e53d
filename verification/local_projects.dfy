/** The project list and project detail screens of the local task tracker:
    completion counts and progress, and the two create forms that submit
    only a non-blank name, trimmed. */
module LocalProjects {
  import opened Optional
  import Text
  import Overview
  import Arith

  datatype Task = Task(id: string, name: string, description: string, completed: bool)

  datatype Project = Project(id: string, name: string, description: string, tasks: seq<Task>)

  /** The number of finished tasks (`tasks.filter(t => t.completed).length`). */
  function CompletedCount(tasks: seq<Task>): (r: nat)
    ensures r <= |tasks|
    ensures r == |tasks| <==> forall i :: 0 <= i < |tasks| ==> tasks[i].completed
  {
    if tasks == [] then 0
    else
      var rest := CompletedCount(tasks[1..]);
      assert forall i :: 1 <= i < |tasks| ==> tasks[i] == tasks[1..][i - 1];
      (if tasks[0].completed then 1 else 0) + rest
  }

  /** ProjectList's `getCompletedTasksCount` never exceeds `getTotalTasksCount`. */
  lemma ListCountsConsistent(projects: seq<Project>)
    ensures forall i :: 0 <= i < |projects| ==> CompletedCount(projects[i].tasks) <= |projects[i].tasks|
  {
  }

  /** ProjectDetail's `progress`: 0 without tasks, else the finished share in percent. */
  function Progress(p: Project): (r: real)
    ensures 0.0 <= r <= 100.0
    ensures p.tasks == [] ==> r == 0.0
    ensures p.tasks != [] ==> (r == 100.0 <==> forall i :: 0 <= i < |p.tasks| ==> p.tasks[i].completed)
    ensures p.tasks != [] ==> r * (|p.tasks| as real) == 100.0 * (CompletedCount(p.tasks) as real)
  {
    if p.tasks == [] then 0.0 else Share(CompletedCount(p.tasks), |p.tasks|)
  }

  /** `part / whole * 100` for a part of a positive whole. */
  function Share(part: nat, whole: nat): (r: real)
    requires 0 < whole && part <= whole
    ensures 0.0 <= r <= 100.0
    ensures r * (whole as real) == 100.0 * (part as real)
    ensures r == 100.0 <==> part == whole
  {
    PercentShare(part as real, whole as real);
    (part as real) / (whole as real) * 100.0
  }

  /** A part's share of a positive whole, in percent. */
  lemma PercentShare(part: real, whole: real)
    requires 0.0 <= part <= whole && whole > 0.0
    ensures 0.0 <= part / whole * 100.0 <= 100.0
    ensures part / whole * 100.0 * whole == 100.0 * part
    ensures part / whole * 100.0 == 100.0 <==> part == whole
  {
    var q := part / whole;
    assert q * whole == part;
    assert 0.0 * whole <= q * whole;
    Arith.RealCancelLe(0.0, q, whole);
    assert q * whole <= 1.0 * whole;
    Arith.RealCancelLe(q, 1.0, whole);
    if part == whole {
      assert 1.0 * whole <= q * whole;
      Arith.RealCancelLe(1.0, q, whole);
    }
    assert q * 100.0 * whole == 100.0 * (q * whole);
  }

  /** The header's `Math.round(progress)`: the same rounded share the
      overview tab shows. */
  function ProgressLabel(p: Project): (r: int)
    ensures 0 <= r <= 100
    ensures p.tasks == [] ==> r == 0
  {
    Overview.Percentage(CompletedCount(p.tasks), |p.tasks|)
  }

  /** The label is the progress rounded to the nearest integer, halves up:
      it lies within one half of the exact percentage. */
  lemma LabelRoundsProgress(p: Project)
    ensures 2.0 * Progress(p) - 1.0 < 2.0 * (ProgressLabel(p) as real) <= 2.0 * Progress(p) + 1.0
  {
    if p.tasks != [] {
      RoundedWithinHalf(CompletedCount(p.tasks), |p.tasks|, ProgressLabel(p), Progress(p));
    }
  }

  /** An integer rounded from done/total in percent lies within one half of
      any exact percentage x of the same share. */
  lemma RoundedWithinHalf(done: nat, total: nat, r: int, x: real)
    requires total > 0 && 200 * done - total < 2 * r * total <= 200 * done + total
    requires x * (total as real) == 100.0 * (done as real)
    ensures 2.0 * x - 1.0 < 2.0 * (r as real) <= 2.0 * x + 1.0
  {
    RealBounds(done, total, r);
    DivideBounds(x, r as real, total as real, done as real);
  }

  /** The integer rounding bounds, read over the reals. */
  lemma RealBounds(done: int, total: int, r: int)
    requires 200 * done - total < 2 * r * total <= 200 * done + total
    ensures 200.0 * (done as real) - (total as real) < 2.0 * ((r as real) * (total as real))
    ensures 2.0 * ((r as real) * (total as real)) <= 200.0 * (done as real) + (total as real)
  {
    assert (r * total) as real == (r as real) * (total as real);
  }

  lemma DivideBounds(x: real, r: real, t: real, d: real)
    requires t > 0.0 && x * t == 100.0 * d
    requires 200.0 * d - t < 2.0 * (r * t) <= 200.0 * d + t
    ensures 2.0 * x - 1.0 < 2.0 * r <= 2.0 * x + 1.0
  {
    assert (2.0 * x - 1.0) * t == 2.0 * (x * t) - t;
    assert (2.0 * x + 1.0) * t == 2.0 * (x * t) + t;
    assert (2.0 * r) * t == 2.0 * (r * t);
    Arith.RealCancelLt(2.0 * x - 1.0, 2.0 * r, t);
    Arith.RealCancelLe(2.0 * r, 2.0 * x + 1.0, t);
  }

  /** Toggling one task's completion moves the finished count by exactly one. */
  lemma {:induction false} ToggleMovesCountByOne(tasks: seq<Task>, i: nat)
    requires i < |tasks|
    ensures var toggled := tasks[i := tasks[i].(completed := !tasks[i].completed)];
            CompletedCount(toggled) == CompletedCount(tasks) + (if tasks[i].completed then -1 else 1)
    decreases |tasks|
  {
    var toggled := tasks[i := tasks[i].(completed := !tasks[i].completed)];
    if i > 0 {
      assert toggled[1..] == tasks[1..][i - 1 := tasks[i].(completed := !tasks[i].completed)];
      ToggleMovesCountByOne(tasks[1..], i - 1);
    } else {
      assert toggled[1..] == tasks[1..];
    }
  }

  // ---------------------------------------------------------------------
  // Create forms

  /** A create form: whether it is shown, and its two text fields. */
  datatype Form = Form(show: bool, name: string, description: string)

  /** What a submit hands to the parent: the trimmed name and description. */
  datatype Entry = Entry(name: string, description: string)

  /** The shared `handleSubmit` of both forms: a name that trims to nothing
      changes nothing; otherwise the trimmed pair is handed on once and the
      form is cleared and hidden. */
  function Submit(f: Form): (r: (Form, Option<Entry>))
    ensures r.1.Some? <==> !Text.Blank(f.name)
    ensures r.1.Some? ==> r.1.value == Entry(Text.Trim(f.name), Text.Trim(f.description)) && r.1.value.name != ""
    ensures r.1.Some? ==> r.0 == Form(false, "", "")
    ensures r.1.None? ==> r.0 == f
  {
    Text.TrimEmptyIffBlank(f.name);
    if Text.Trim(f.name) != "" then (Form(false, "", ""), Some(Entry(Text.Trim(f.name), Text.Trim(f.description))))
    else (f, None)
  }

  /** The header button: shows or hides the form, leaving the fields alone. */
  function ToggleForm(f: Form): (r: Form)
    ensures r.show == !f.show && r.name == f.name && r.description == f.description
  {
    f.(show := !f.show)
  }

  /** Toggling twice is no change. */
  lemma ToggleFormTwice(f: Form)
    ensures ToggleForm(ToggleForm(f)) == f
  {
  }

  /** After an accepted submit the form is empty, so an immediate second
      submit hands nothing on: one click, one entry. */
  lemma SubmitOnce(f: Form)
    requires !Text.Blank(f.name)
    ensures Submit(Submit(f).0).1.None?
  {
  }

  /** The `onAddTask(projectId, name, description)` call of ProjectDetail. */
  datatype AddTask = AddTask(projectId: string, name: string, description: string)

  function SubmitTask(projectId: string, f: Form): (r: (Form, Option<AddTask>))
    ensures r.1.Some? <==> !Text.Blank(f.name)
    ensures r.1.Some? ==> r.1.value == AddTask(projectId, Text.Trim(f.name), Text.Trim(f.description))
    ensures r.0 == Submit(f).0
  {
    var (f2, e) := Submit(f);
    (f2, if e.Some? then Some(AddTask(projectId, e.value.name, e.value.description)) else None)
  }

  /** The `onCreateProject(name, description)` call of ProjectList. */
  datatype CreateProject = CreateProject(name: string, description: string)

  function SubmitProject(f: Form): (r: (Form, Option<CreateProject>))
    ensures r.1.Some? <==> !Text.Blank(f.name)
    ensures r.1.Some? ==> r.1.value == CreateProject(Text.Trim(f.name), Text.Trim(f.description))
    ensures r.0 == Submit(f).0
  {
    var (f2, e) := Submit(f);
    (f2, if e.Some? then Some(CreateProject(e.value.name, e.value.description)) else None)
  }
}
