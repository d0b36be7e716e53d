/** The hover tab menu: a trigger that opens a dropdown on hover and closes it
    150 ms after the pointer leaves, unless the pointer comes back first.

    Timers are explicit: leaving schedules a numbered timer, and a timer going
    off is an event of its own. `held` is `timeoutRef.current`, the one timer
    the component remembers and can cancel; `pending` is every timer that is
    scheduled and neither fired nor cancelled. */
module HoverMenu {
  import opened Optional

  datatype Menu = Menu(isOpen: bool, held: Option<nat>, pending: set<nat>, nextTimer: nat)

  datatype Event =
    | ContainerEnter              // onMouseEnter of the outer element
    | ContainerLeave              // onMouseLeave of the outer element
    | DropdownEnter               // onMouseEnter of the open dropdown
    | DropdownLeave               // onMouseLeave of the open dropdown
    | TimerFires(timer: nat)      // a scheduled close going off
    | ItemClick(value: string)    // a click on a dropdown item

  const Closed: Menu := Menu(false, None, {}, 0)

  /** `clearTimeout(timeoutRef.current)` when a timer is held. Clearing does
      not reset `timeoutRef`, and clearing a timer that already fired does
      nothing. */
  function CancelHeld(m: Menu): (r: Menu)
    ensures r.isOpen == m.isOpen && r.held == m.held && r.nextTimer == m.nextTimer
    ensures m.held.Some? ==> r.pending == m.pending - {m.held.value}
    ensures m.held.None? ==> r.pending == m.pending
  {
    if m.held.Some? then m.(pending := m.pending - {m.held.value}) else m
  }

  /** `handleMouseLeave`: schedule a close and overwrite `timeoutRef`; the
      timer it held before is not cancelled. */
  function ScheduleClose(m: Menu): (r: Menu)
    ensures r.isOpen == m.isOpen
    ensures r.held == Some(m.nextTimer) && r.pending == m.pending + {m.nextTimer}
  {
    Menu(m.isOpen, Some(m.nextTimer), m.pending + {m.nextTimer}, m.nextTimer + 1)
  }

  /** The timers are numbered in order: every scheduled one is older than
      `nextTimer`, and so is the held one. */
  predicate Valid(m: Menu) {
    && (forall t :: t in m.pending ==> t < m.nextTimer)
    && (m.held.Some? ==> m.held.value < m.nextTimer)
  }

  /** One event as the component handles it; the second component is the
      value passed to `onSelect`, if any. The dropdown and its items exist
      only while the menu is open. */
  function Step(m: Menu, e: Event): (r: (Menu, Option<string>))
    requires Valid(m)
    ensures Valid(r.0)
    ensures e == ContainerEnter ==>
      && r.0.isOpen && r.0.held == m.held
      && (m.held.Some? ==> m.held.value !in r.0.pending)
    ensures e.ContainerLeave? || e.DropdownLeave? || e.DropdownEnter? ==> r.0.isOpen == m.isOpen
    ensures e == DropdownEnter ==> r.0.pending <= m.pending
    ensures e.TimerFires? ==> (r.0.isOpen <==> m.isOpen && e.timer !in m.pending)
    ensures e.ItemClick? && m.isOpen ==> !r.0.isOpen && r.1 == Some(e.value)
    ensures r.1.Some? ==> e.ItemClick? && m.isOpen && r.1.value == e.value
  {
    match e
    case ContainerEnter => (CancelHeld(m).(isOpen := true), None)
    case ContainerLeave => (ScheduleClose(m), None)
    case DropdownEnter => (if m.isOpen then CancelHeld(m) else m, None)
    case DropdownLeave => (if m.isOpen then ScheduleClose(m) else m, None)
    case TimerFires(t) =>
      (if t in m.pending then m.(isOpen := false, pending := m.pending - {t}) else m, None)
    case ItemClick(v) => if m.isOpen then (m.(isOpen := false), Some(v)) else (m, None)
  }

  function Run(m: Menu, es: seq<Event>): (r: Menu)
    requires Valid(m)
    ensures Valid(r)
    decreases |es|
  {
    if es == [] then m else Run(Step(m, es[0]).0, es[1..])
  }

  /** Leaving never closes the menu at once, and entering always opens it. */
  lemma LeaveNeverClosesAtOnce(m: Menu)
    requires Valid(m)
    ensures Step(m, ContainerLeave).0.isOpen == m.isOpen
    ensures Step(m, DropdownLeave).0.isOpen == m.isOpen
    ensures Step(m, ContainerEnter).0.isOpen
  {
  }

  /** Leaving the open dropdown to the outside fires both leave handlers, so
      two close timers are scheduled; coming back cancels only the second,
      and the first then closes the menu under the pointer. */
  lemma OrphanedTimerClosesHoveredMenu()
    ensures var open := Run(Closed, [ContainerEnter]);
            var back := Run(open, [DropdownLeave, ContainerLeave, ContainerEnter]);
            && open.isOpen && back.isOpen
            && 0 in back.pending
            && !Step(back, TimerFires(0)).0.isOpen
  {
    var open := Run(Closed, [ContainerEnter]);
    assert open == Menu(true, None, {}, 0);
    var s1 := Step(open, DropdownLeave).0;
    assert s1 == Menu(true, Some(0), {0}, 1);
    var s2 := Step(s1, ContainerLeave).0;
    assert s2 == Menu(true, Some(1), {0, 1}, 2);
    var s3 := Step(s2, ContainerEnter).0;
    assert s3 == Menu(true, Some(1), {0}, 2);
    assert Run(open, [DropdownLeave, ContainerLeave, ContainerEnter]) == s3 by {
      assert [DropdownLeave, ContainerLeave, ContainerEnter][1..] == [ContainerLeave, ContainerEnter];
      assert [ContainerLeave, ContainerEnter][1..] == [ContainerEnter];
    }
  }

  /** A pointer that moves from the open dropdown straight onto the trigger
      stays inside the container, so only the dropdown's leave handler runs:
      its timer is never cancelled and closes the menu under the pointer. */
  lemma DirectMoveToTriggerClosesMenu()
    ensures var m := Run(Closed, [ContainerEnter, DropdownEnter, DropdownLeave]);
            && m.isOpen && 0 in m.pending
            && !Step(m, TimerFires(0)).0.isOpen
  {
    var s1 := Step(Closed, ContainerEnter).0;
    assert s1 == Menu(true, None, {}, 0);
    var s2 := Step(s1, DropdownEnter).0;
    assert s2 == s1;
    var s3 := Step(s2, DropdownLeave).0;
    assert s3 == Menu(true, Some(0), {0}, 1);
    assert Run(Closed, [ContainerEnter, DropdownEnter, DropdownLeave]) == s3 by {
      assert [ContainerEnter, DropdownEnter, DropdownLeave][1..] == [DropdownEnter, DropdownLeave];
      assert [DropdownEnter, DropdownLeave][1..] == [DropdownLeave];
    }
  }

  /** The handlers corrected: the container's leave clears the held timer
      before scheduling a new one, so the component never loses track of a
      pending close, and the dropdown has no leave handler of its own. The
      dropdown is a child of the container, so leaving it for the outside
      also leaves the container, whose handler schedules the close; leaving
      it for the trigger stays inside the container and closes nothing. */
  function StepFixed(m: Menu, e: Event): (r: (Menu, Option<string>))
    requires Valid(m)
    ensures Valid(r.0)
  {
    match e
    case ContainerLeave => (ScheduleClose(CancelHeld(m)), None)
    case DropdownLeave => (m, None)
    case _ => Step(m, e)
  }

  /** The fix keeps the delayed close: leaving the container (directly, or
      out of the dropdown, which fires both leaves) leaves the menu open and
      holds a timer that then closes it; moving from the dropdown onto the
      trigger schedules nothing. */
  lemma FixedLeaveStillCloses(m: Menu)
    requires Valid(m) && m.isOpen
    ensures var m1 := StepFixed(m, ContainerLeave).0;
            && m1.isOpen && m1.held == Some(m.nextTimer)
            && !StepFixed(m1, TimerFires(m.nextTimer)).0.isOpen
    ensures var m2 := RunFixed(m, [DropdownLeave, ContainerLeave]);
            && m2.isOpen && m2.held == Some(m.nextTimer)
            && !StepFixed(m2, TimerFires(m.nextTimer)).0.isOpen
    ensures StepFixed(m, DropdownLeave).0 == m
  {
    assert [DropdownLeave, ContainerLeave][1..] == [ContainerLeave];
  }

  /** At most one close is pending, and it is the held one. */
  predicate Tracked(m: Menu) {
    forall t :: t in m.pending ==> m.held == Some(t)
  }

  lemma StepFixedKeepsTracked(m: Menu, e: Event)
    requires Valid(m) && Tracked(m)
    ensures Tracked(StepFixed(m, e).0)
    ensures StepFixed(m, e).1 == Step(m, e).1
    ensures e == ContainerEnter ==> StepFixed(m, e).0.isOpen && StepFixed(m, e).0.pending == {}
  {
  }

  function RunFixed(m: Menu, es: seq<Event>): (r: Menu)
    requires Valid(m)
    ensures Valid(r)
    decreases |es|
  {
    if es == [] then m else RunFixed(StepFixed(m, es[0]).0, es[1..])
  }

  /** The events that can happen while the pointer stays over the container
      or its dropdown: moving between trigger and dropdown, and timers going
      off. */
  predicate WithinMenu(e: Event) {
    e.DropdownEnter? || e.DropdownLeave? || e.TimerFires?
  }

  /** Whatever happened before, once the pointer has entered the container
      from outside, nothing it does while it stays over the trigger or the
      dropdown, and no timer, can close the menu: with the fix, hovering keeps
      the menu open. */
  lemma {:induction false} FixedHoverStaysOpen(m: Menu, before: seq<Event>, within: seq<Event>)
    requires Valid(m) && Tracked(m)
    requires forall i :: 0 <= i < |within| ==> WithinMenu(within[i])
    ensures RunFixed(StepFixed(RunFixed(m, before), ContainerEnter).0, within).isOpen
  {
    RunFixedTracked(m, before);
    var back := StepFixed(RunFixed(m, before), ContainerEnter).0;
    StepFixedKeepsTracked(RunFixed(m, before), ContainerEnter);
    WithinIsHarmless(back, within);
  }

  lemma {:induction false} RunFixedTracked(m: Menu, es: seq<Event>)
    requires Valid(m) && Tracked(m)
    ensures Tracked(RunFixed(m, es))
    decreases |es|
  {
    if es != [] {
      StepFixedKeepsTracked(m, es[0]);
      RunFixedTracked(StepFixed(m, es[0]).0, es[1..]);
    }
  }

  lemma {:induction false} WithinIsHarmless(m: Menu, es: seq<Event>)
    requires Valid(m) && m.isOpen && m.pending == {}
    requires forall i :: 0 <= i < |es| ==> WithinMenu(es[i])
    ensures RunFixed(m, es).isOpen
    decreases |es|
  {
    if es != [] {
      var m1 := StepFixed(m, es[0]).0;
      assert m1.isOpen && m1.pending == {};
      assert forall i :: 0 <= i < |es[1..]| ==> WithinMenu(es[1..][i]) by {
        forall i | 0 <= i < |es[1..]| ensures WithinMenu(es[1..][i]) {
          assert es[1..][i] == es[i + 1];
        }
      }
      WithinIsHarmless(m1, es[1..]);
    }
  }

  // ---------------------------------------------------------------------
  // Items

  datatype MenuItem = MenuItem(caption: string, value: string, description: Option<string>)

  datatype ItemView = ItemView(caption: string, value: string, highlighted: bool)

  /** The dropdown's buttons: one per item, in order, highlighted exactly
      when the item's value is `activeValue`. Nothing while closed. */
  function Items(isOpen: bool, items: seq<MenuItem>, activeValue: Option<string>): (r: seq<ItemView>)
    ensures !isOpen ==> r == []
    ensures isOpen ==> |r| == |items|
    ensures isOpen ==> forall i :: 0 <= i < |items| ==>
      r[i].value == items[i].value && (r[i].highlighted <==> activeValue == Some(items[i].value))
  {
    if !isOpen then [] else
      seq(|items|, i requires 0 <= i < |items| =>
        ItemView(items[i].caption, items[i].value, activeValue == Some(items[i].value)))
  }

  /** With distinct item values, at most one item is highlighted, and one is
      exactly when `activeValue` names an item. */
  lemma SingleHighlight(items: seq<MenuItem>, activeValue: Option<string>)
    requires forall i, j :: 0 <= i < j < |items| ==> items[i].value != items[j].value
    ensures var v := Items(true, items, activeValue);
            && (forall i, j :: 0 <= i < j < |v| && v[i].highlighted ==> !v[j].highlighted)
            && ((exists i :: 0 <= i < |v| && v[i].highlighted) <==>
                (activeValue.Some? && exists k :: 0 <= k < |items| && items[k].value == activeValue.value))
  {
  }

  /** The trigger is drawn bold whenever some tab value is active. */
  function TriggerBold(activeValue: Option<string>): (r: bool)
    ensures r <==> activeValue.Some? && activeValue.value != ""
  {
    TruthyString(activeValue)
  }
}
