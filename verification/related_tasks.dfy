/** The task list of a room's detail panel: a row of status filter buttons,
    the tasks whose status is switched on, and the empty-state messages. */
module RelatedTasks {
  import opened Optional

  datatype Task = Task(id: string, title: string, status: string, priority: string, assignee: Option<string>)

  /** ALL_STATUSES, in button order. */
  const AllStatuses: seq<string> :=
    ["discovery", "to_do", "in_progress", "on_hold", "doing", "blocked", "completed", "done", "scrapped"]

  /** DEFAULT_HIDDEN: the statuses switched off when the panel opens. */
  const DefaultHidden: set<string> := {"completed", "done", "scrapped"}

  const StatusLabels: map<string, string> := map[
    "discovery" := "Discovery",
    "to_do" := "To Do",
    "in_progress" := "Pågående",
    "on_hold" := "Pausad",
    "doing" := "Utförs",
    "blocked" := "Blockerad",
    "completed" := "Klar",
    "done" := "Färdig",
    "scrapped" := "Struken"
  ]

  const DoneClass: string := "bg-emerald-100 text-emerald-700 border-emerald-200"
  const ActiveClass: string := "bg-blue-100 text-blue-700 border-blue-200"
  const BlockedClass: string := "bg-red-100 text-red-700 border-red-200"
  const OnHoldClass: string := "bg-yellow-100 text-yellow-700 border-yellow-200"
  const ScrappedClass: string := "bg-gray-100 text-gray-500 border-gray-200"
  const DefaultClass: string := "bg-slate-100 text-slate-700 border-slate-200"
  const InactiveButtonClass: string := "bg-transparent text-muted-foreground border-dashed border-muted-foreground/40"

  const LoadingText: string := "Laddar uppgifter..."
  const NoTasksText: string := "Inga uppgifter kopplade till detta rum"
  const NoMatchText: string := "Inga uppgifter matchar filtret"

  /** The initial `activeStatuses`: every status not hidden by default. */
  function InitialActive(): set<string> {
    set s | s in AllStatuses && s !in DefaultHidden
  }

  /** The panel opens with exactly the six open statuses switched on. */
  lemma InitialActiveIsOpenStatuses()
    ensures InitialActive() == {"discovery", "to_do", "in_progress", "on_hold", "doing", "blocked"}
    ensures |InitialActive()| == 6
    ensures InitialActive() <= set s | s in AllStatuses
  {
    var expected: set<string> := {"discovery", "to_do", "in_progress", "on_hold", "doing", "blocked"};
    assert forall s :: s in AllStatuses <==> s in expected + DefaultHidden;
    assert InitialActive() == expected;
  }

  /** The outcome of the room's task query: an error, or rows (possibly null). */
  datatype Fetch = FetchFailed | Fetched(data: Option<seq<Task>>)

  /** `fetchTasks`: an error keeps the tasks already shown, null rows read as
      none, and either way loading ends. */
  function LoadTasks(current: seq<Task>, f: Fetch): (r: (seq<Task>, bool))
    ensures !r.1
    ensures f.FetchFailed? ==> r.0 == current
    ensures f == Fetched(None) ==> r.0 == []
    ensures f.Fetched? && f.data.Some? ==> r.0 == f.data.value
  {
    match f
    case FetchFailed => (current, false)
    case Fetched(data) => (data.GetOr([]), false)
  }

  /** `toggleStatus`: flips the membership of one status. */
  function ToggleStatus(active: set<string>, status: string): (r: set<string>)
    ensures status in r <==> status !in active
    ensures forall s :: s != status ==> (s in r <==> s in active)
  {
    if status in active then active - {status} else active + {status}
  }

  /** Toggling the same status twice restores the set. */
  lemma ToggleTwiceRestores(active: set<string>, status: string)
    ensures ToggleStatus(ToggleStatus(active, status), status) == active
  {
  }

  /** A series of button clicks, one status per click. */
  function ApplyToggles(active: set<string>, clicks: seq<string>): set<string>
    decreases |clicks|
  {
    if clicks == [] then active else ApplyToggles(ToggleStatus(active, clicks[0]), clicks[1..])
  }

  /** Clicks on the button row keep the active set within ALL_STATUSES. */
  lemma {:induction false} ButtonClicksStayWithinStatuses(active: set<string>, clicks: seq<string>)
    requires forall s :: s in active ==> s in AllStatuses
    requires forall i :: 0 <= i < |clicks| ==> clicks[i] in AllStatuses
    ensures forall s :: s in ApplyToggles(active, clicks) ==> s in AllStatuses
    decreases |clicks|
  {
    if clicks != [] {
      ButtonClicksStayWithinStatuses(ToggleStatus(active, clicks[0]), clicks[1..]);
    }
  }

  /** `filtered`: the tasks whose status is switched on, in their order. */
  function Filter(tasks: seq<Task>, active: set<string>): (r: seq<Task>)
    ensures |r| <= |tasks|
    ensures forall i :: 0 <= i < |r| ==> r[i].status in active
    ensures forall t :: multiset(r)[t] == if t.status in active then multiset(tasks)[t] else 0
  {
    if tasks == [] then []
    else
      var rest := Filter(tasks[1..], active);
      assert tasks == [tasks[0]] + tasks[1..];
      if tasks[0].status in active then [tasks[0]] + rest else rest
  }

  /** Filtering commutes with concatenation, so relative order is kept. */
  lemma {:induction false} FilterAppend(a: seq<Task>, b: seq<Task>, active: set<string>)
    ensures Filter(a + b, active) == Filter(a, active) + Filter(b, active)
    decreases |a|
  {
    if a == [] {
      assert a + b == b;
    } else {
      assert (a + b)[0] == a[0];
      assert (a + b)[1..] == a[1..] + b;
      FilterAppend(a[1..], b, active);
    }
  }

  /** The filter keeps a list unchanged exactly when every status is on. */
  lemma FilterKeepsAllIffAllActive(tasks: seq<Task>, active: set<string>)
    ensures Filter(tasks, active) == tasks <==> forall i :: 0 <= i < |tasks| ==> tasks[i].status in active
  {
    if Filter(tasks, active) == tasks {
    } else if forall i :: 0 <= i < |tasks| ==> tasks[i].status in active {
      FilterAllActive(tasks, active);
    }
  }

  lemma {:induction false} FilterAllActive(tasks: seq<Task>, active: set<string>)
    requires forall i :: 0 <= i < |tasks| ==> tasks[i].status in active
    ensures Filter(tasks, active) == tasks
    decreases |tasks|
  {
    if tasks != [] {
      FilterAllActive(tasks[1..], active);
    }
  }

  /** After any clicks on the button row, a task whose status is not one of
      ALL_STATUSES is never listed. */
  lemma UnlistedStatusNeverShown(tasks: seq<Task>, clicks: seq<string>, t: Task)
    requires forall i :: 0 <= i < |clicks| ==> clicks[i] in AllStatuses
    requires t.status !in AllStatuses
    ensures t !in Filter(tasks, ApplyToggles(InitialActive(), clicks))
  {
    InitialActiveIsOpenStatuses();
    ButtonClicksStayWithinStatuses(InitialActive(), clicks);
    var r := Filter(tasks, ApplyToggles(InitialActive(), clicks));
    assert multiset(r)[t] == 0;
  }

  /** `getStatusColor`. */
  function StatusColor(status: string): string {
    match status
    case "completed" => DoneClass
    case "done" => DoneClass
    case "in_progress" => ActiveClass
    case "doing" => ActiveClass
    case "blocked" => BlockedClass
    case "on_hold" => OnHoldClass
    case "scrapped" => ScrappedClass
    case _ => DefaultClass
  }

  /** Statuses of the same meaning share a colour, the six classes (five
      groups and the plain default) are distinct, and every status the switch
      does not name is drawn plain. */
  lemma StatusColorGroups(status: string)
    ensures StatusColor("completed") == StatusColor("done")
    ensures StatusColor("in_progress") == StatusColor("doing")
    ensures |{DoneClass, ActiveClass, BlockedClass, OnHoldClass, ScrappedClass, DefaultClass}| == 6
    ensures status !in {"completed", "done", "in_progress", "doing", "blocked", "on_hold", "scrapped"} ==>
      StatusColor(status) == DefaultClass
    ensures StatusColor(status) == DefaultClass <==>
      status !in {"completed", "done", "in_progress", "doing", "blocked", "on_hold", "scrapped"}
  {
  }

  /** `STATUS_LABELS[s] ?? s`: the label of a known status, else the raw status. */
  function StatusLabel(status: string): (r: string)
    ensures status in StatusLabels ==> r == StatusLabels[status]
    ensures status !in StatusLabels ==> r == status
  {
    if status in StatusLabels then StatusLabels[status] else status
  }

  /** Every button status has its own, non-empty label. */
  lemma StatusLabelsCoverButtons()
    ensures forall i :: 0 <= i < |AllStatuses| ==> AllStatuses[i] in StatusLabels && StatusLabel(AllStatuses[i]) != ""
    ensures forall i, j :: 0 <= i < j < |AllStatuses| ==> StatusLabel(AllStatuses[i]) != StatusLabel(AllStatuses[j])
  {
  }

  datatype Button = Button(status: string, caption: string, style: string)
  datatype Row = Row(caption: string, style: string, title: string)

  datatype SectionView =
    | Loading(message: string)
    | Empty(message: string)
    | Listed(rows: seq<Row>)

  /** The filter buttons: one per status, coloured when on, dashed when off. */
  function Buttons(active: set<string>): (r: seq<Button>)
    ensures |r| == |AllStatuses|
    ensures forall i :: 0 <= i < |r| ==> r[i].status == AllStatuses[i] && r[i].caption == StatusLabel(AllStatuses[i])
    ensures forall i :: 0 <= i < |r| ==> (r[i].style == InactiveButtonClass <==> AllStatuses[i] !in active)
  {
    seq(|AllStatuses|, i requires 0 <= i < |AllStatuses| =>
      var s := AllStatuses[i];
      Button(s, StatusLabel(s), if s in active then StatusColor(s) else InactiveButtonClass))
  }

  function Rows(tasks: seq<Task>): (r: seq<Row>)
    ensures |r| == |tasks|
    ensures forall i :: 0 <= i < |r| ==> r[i] == Row(StatusLabel(tasks[i].status), StatusColor(tasks[i].status), tasks[i].title)
  {
    seq(|tasks|, i requires 0 <= i < |tasks| =>
      Row(StatusLabel(tasks[i].status), StatusColor(tasks[i].status), tasks[i].title))
  }

  /** What the panel shows below the buttons. */
  function View(loading: bool, tasks: seq<Task>, active: set<string>): (r: SectionView)
    ensures loading <==> r.Loading?
    ensures !loading && tasks == [] ==> r == Empty(NoTasksText)
    ensures !loading && tasks != [] && Filter(tasks, active) == [] ==> r == Empty(NoMatchText)
    ensures r.Listed? ==> |r.rows| == |Filter(tasks, active)| > 0
    ensures !loading && Filter(tasks, active) != [] ==> r == Listed(Rows(Filter(tasks, active)))
  {
    if loading then Loading(LoadingText)
    else
      var filtered := Filter(tasks, active);
      if filtered == [] then Empty(if tasks == [] then NoTasksText else NoMatchText)
      else Listed(Rows(filtered))
  }

  /** "No match" is shown exactly when there are tasks but none has a status
      that is switched on. */
  lemma NoMatchIffNothingActive(tasks: seq<Task>, active: set<string>)
    ensures View(false, tasks, active) == Empty(NoMatchText) <==>
      tasks != [] && forall i :: 0 <= i < |tasks| ==> tasks[i].status !in active
  {
    var f := Filter(tasks, active);
    if f != [] {
      assert f[0] in multiset(f);
      var k :| 0 <= k < |tasks| && tasks[k] == f[0] by {
        assert multiset(tasks)[f[0]] > 0;
        assert f[0] in tasks;
      }
    } else {
      forall i | 0 <= i < |tasks| ensures tasks[i].status !in active {
        assert tasks[i] in multiset(tasks);
      }
    }
  }
}
