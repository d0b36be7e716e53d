# Renomate floor-plan shapes and project screens, in Dafny

This project models the logic of the Renomate renovation planner.

**Floor-plan shape layer** (`Shapes`, `ShapeMemo`, `ShapeRefs`). Four renderers draw the shape kinds on the canvas:

- rectangle, door and opening
- circle
- text label
- freehand stroke and polygon

For each renderer the model covers:

- the type guard, which makes the renderer draw nothing for other kinds
- what it draws, including the flattened point list of a line
- how an end-of-drag or end-of-resize gesture becomes the single coordinate payload handed to `onTransform`. A drag translates the shape and keeps its size. A resize clamps each side to at least 5. A drag then resets the node's position and a resize its scale.
- the `React.memo` comparator that decides whether a re-render can be skipped
- the registration of the drawn node in the shared `shapeRefsMap`

**The screens around it**, each in its own module:

- `CostCenters`: the cost-centre label and icon lookup.
- `RelatedTasks`: a room's task list with its status filter buttons.
- `Overview`: the project overview tab, with task completion, spent and remaining budget, and the inline editors.
- `Profile`: profile defaults, the language switch on save, and the password-change validator.
- `MaterialRequest`: the purchase-request control and the request it inserts.
- `LocalProjects`: the project list and project detail screens, with counts, progress and the trim-guarded create forms.
- `HoverMenu`: the hover tab menu's open/close state machine with its delayed-close timers.

**Shared helpers.** `Optional` holds `Option` and JavaScript's `||` and `??` fallbacks. `Text` holds `String.prototype.trim` over the ECMAScript white-space set.

**How values are modelled:**

- Coordinates and money are exact `real`s.
- `Math.round` is an integer formula with halves rounded up.
- Every backend call is replaced by its outcome, passed in as a parameter: a query's rows or failure, an update's success.
- The hover menu's timers are numbered. A timer going off is an event of its own.

## Model

| member | source | states |
|---|---|---|
| Optional.StringOr | src/components/floormap/shapes/BasicShapes.tsx:46 | `s \|\| d` on a nullable string: the string when it is non-null and non-empty, the default otherwise |
| Optional.NumberOr | src/components/floormap/shapes/BasicShapes.tsx:294 | `n \|\| d` on a nullable number: the number when non-null and non-zero, the default otherwise |
| Optional.NumberOrZeroIsNullAsZero | src/components/project/OverviewTab.tsx:78 | with default 0, `n \|\| 0` equals `n ?? 0`, so summing budgets treats null as 0 |
| Text.TrimStart | src/components/ProjectDetail.jsx:11 | the result is a suffix of the input, the dropped prefix is all white space, and the result does not start with white space |
| Text.TrimEnd | src/components/ProjectDetail.jsx:11 | the result is a prefix of the input, the dropped suffix is all white space, and the result does not end with white space |
| Text.Trim | src/components/ProjectDetail.jsx:11-12 | `trim()` is a slice of the input between an all-white-space prefix and suffix, with non-white-space ends when non-empty |
| Text.TrimEmptyIffBlank | src/components/ProjectDetail.jsx:11 | the trimmed name is empty exactly when the name is all white space, which is what the submit guard tests |
| Text.TrimIdempotent | src/components/ProjectList.jsx:11-12 | trimming the trimmed name again changes nothing |
| Shapes.GuardsDisjoint | src/components/floormap/shapes/BasicShapes.tsx:30-278 | the four renderers' type guards (lines 30, 127, 202, 278) accept pairwise disjoint sets of kinds |
| Shapes.TranslatePoints | src/components/floormap/shapes/BasicShapes.tsx:319-322 | the shifted list has the same length, and point i is point i moved by (dx, dy) |
| Shapes.Translate | src/components/floormap/shapes/BasicShapes.tsx:313-326 | the reference translation a drag must commit: positions shift by (dx, dy), sizes and radius stay, points shift one by one in order, and a missing point list stays missing |
| Shapes.TranslatePointsRoundTrip | src/components/floormap/shapes/BasicShapes.tsx:319-322 | shifting the points by (dx, dy) and then by (-dx, -dy) gives back the original list |
| Shapes.TranslateRoundTrip | src/components/floormap/shapes/BasicShapes.tsx:313-326 | translating a payload of any kind and translating it back restores it |
| Shapes.FlattenPoints | src/components/floormap/shapes/BasicShapes.tsx:282 | `flatMap` gives length 2n, with flat[2i] = x of point i and flat[2i+1] = y of point i |
| Shapes.PointsOrEmpty | src/components/floormap/shapes/BasicShapes.tsx:281 | `coords.points \|\| []`: the list when present, empty when missing |
| Shapes.FlattenTranslated | src/components/floormap/shapes/BasicShapes.tsx:282 | flattening a shifted list adds dx at even and dy at odd positions of the flat list |
| Shapes.Stroke | src/components/floormap/shapes/BasicShapes.tsx:47 | selection colour while selected, otherwise the stroke colour, falling back to black when null or empty |
| Shapes.RenderRect | src/components/floormap/shapes/BasicShapes.tsx:30-48 | draws exactly for rectangle, door and opening, at the payload's corner and size, filled with `color \|\| 'transparent'`, with the selection-aware stroke and stroke width 2 |
| Shapes.RenderCircle | src/components/floormap/shapes/BasicShapes.tsx:127-144 | draws exactly for circles, at the payload's centre and radius, filled with `color \|\| 'transparent'`, with the selection-aware stroke and stroke width 2 |
| Shapes.RenderText | src/components/floormap/shapes/BasicShapes.tsx:202-228 | draws exactly for text, at the payload's position, showing `text \|\| 'Text'` at font size `lengthMM \|\| 16` in `color \|\| '#000000'`, rotated by `rotation \|\| 0` |
| Shapes.TextIgnoresSelection | src/components/floormap/shapes/BasicShapes.tsx:208-228 | the text renderer reads no selection state, so selecting a label does not change what is drawn |
| Shapes.RenderPath | src/components/floormap/shapes/BasicShapes.tsx:278-294 | draws exactly for freehand and polygon; the line's points are the payload's points flattened as x, y pairs in order (none for a missing list), with stroke width `strokeWidth \|\| 2` |
| Shapes.AtMostOneRenderer | src/components/floormap/shapes/BasicShapes.tsx:30-278 | at most one renderer draws any shape, and none draws a kind outside the four |
| Shapes.AtOrigin | src/components/floormap/shapes/BasicShapes.tsx:75 | `node.position({x: 0, y: 0})` moves the node to the origin and keeps its scale and size |
| Shapes.RectDragEnd | src/components/floormap/shapes/BasicShapes.tsx:62-76 | a rectangle drag commits left/top = the node position and the pre-drag width and height, then resets the node |
| Shapes.RectTransformEnd | src/components/floormap/shapes/BasicShapes.tsx:77-95 | a resize commits max(5, size × scale) on each side, so both are at least 5 for any scale, and resets the scale to 1; with no node, nothing is committed |
| Shapes.CircleDragEnd | src/components/floormap/shapes/BasicShapes.tsx:157-170 | a circle drag commits the node position as centre and keeps the radius, then resets the node |
| Shapes.TextDragEnd | src/components/floormap/shapes/BasicShapes.tsx:232-244 | a text drag commits exactly {x, y} of the node, then resets the node |
| Shapes.PathDragEnd | src/components/floormap/shapes/BasicShapes.tsx:313-329 | a line drag shifts every point by the node offset, keeping length and order, then resets the node |
| Shapes.DragCommitsTranslation | src/components/floormap/shapes/BasicShapes.tsx:62-76 | for every kind, dragging by (dx, dy) commits the old payload translated by (dx, dy) and leaves the node at the origin |
| Shapes.DragEndFixed | src/components/floormap/shapes/BasicShapes.tsx:62-76 | the drag handlers with the position reset kept only for lines: the same payload, and the node left where that payload places it |
| Shapes.DragOfMissingPointsCommitsEmpty | src/components/floormap/shapes/BasicShapes.tsx:281-325 | dragging a line whose payload has no points commits an empty point list |
| Shapes.DragBackRestores | src/components/floormap/shapes/BasicShapes.tsx:313-329 | a drag followed by a drag back by the opposite offset commits the original payload |
| Shapes.UnscaledResizeKeepsSize | src/components/floormap/shapes/BasicShapes.tsx:81-93 | a resize at scale 1 commits a rectangle that already respects the minimum size unchanged |
| ShapeMemo.ComparatorsReflexive | src/components/floormap/shapes/BasicShapes.tsx:98-107 | every comparator reports identical props as unchanged |
| ShapeMemo.ComparatorsSymmetric | src/components/floormap/shapes/BasicShapes.tsx:173-182 | the comparators are symmetric in previous and next props |
| ShapeMemo.SelectionChangeRerenders | src/components/floormap/shapes/BasicShapes.tsx:101-103 | a change of `isSelected` always forces a re-render |
| ShapeMemo.IgnoredFields | src/components/floormap/shapes/BasicShapes.tsx:247-258 | the outlined comparators ignore stroke width, rotation, text and length; the text comparator ignores stroke colour and width |
| ShapeMemo.RectComparatorSound | src/components/floormap/shapes/BasicShapes.tsx:98-108 | when the rectangle comparator skips a render, the skipped render would have drawn the same thing |
| ShapeMemo.CircleComparatorSound | src/components/floormap/shapes/BasicShapes.tsx:173-183 | when the circle comparator skips a render, the skipped render would have drawn the same thing |
| ShapeMemo.TextComparatorSound | src/components/floormap/shapes/BasicShapes.tsx:247-259 | when the text comparator skips a render, the skipped render would have drawn the same thing |
| ShapeMemo.PathComparatorMissesStrokeWidth | src/components/floormap/shapes/BasicShapes.tsx:332-342 | the freehand comparator as written reports unchanged for two shapes that draw lines of width 2 and 8 |
| ShapeMemo.PathComparatorSound | src/components/floormap/shapes/BasicShapes.tsx:286-294 | with stroke width compared, a skipped freehand render would have drawn the same line |
| ShapeMemo.SkipRenderSound | src/components/floormap/shapes/BasicShapes.tsx:332-342 | whichever renderer owns the kind, a skipped render would have drawn the same thing |
| ShapeMemo.StillDragMisplacesNode | src/components/floormap/shapes/BasicShapes.tsx:62-107 | a rectangle, circle or text released where it was picked up (away from the origin) commits an unchanged payload, the comparator skips the render, and the node stays at (0, 0) instead of at its payload's position |
| ShapeMemo.FixedDragSettlesAtCommit | src/components/floormap/shapes/BasicShapes.tsx:62-107 | with the corrected handlers, after any drag the node sits where the committed payload places it, whether or not the render is skipped |
| ShapeRefs.Register | src/components/floormap/shapes/BasicShapes.tsx:21-23 | with a mounted node the id maps to it and the cleanup for that id is returned; without one nothing changes |
| ShapeRefs.Cleanup | src/components/floormap/shapes/BasicShapes.tsx:24-26 | the cleanup deletes exactly its own id and keeps every other entry |
| ShapeRefs.RegisterThenCleanup | src/components/floormap/shapes/BasicShapes.tsx:21-28 | register followed by its own cleanup removes that id and leaves the rest of the map as it was |
| ShapeRefs.RunKeepsOwnership | src/components/floormap/shapes/BasicShapes.tsx:269-276 | through any sequence of mounts, id changes and unmounts, the map holds the other entries plus at most the component's current id |
| ShapeRefs.LifecycleLeavesNoEntry | src/components/floormap/shapes/BasicShapes.tsx:118-125 | once the component unmounts, the map is exactly what it was before the component mounted |
| CostCenters.FindFrom | src/lib/costCenters.ts:39 | `find` stops at the first entry with the id, and reports none exactly when no entry has it |
| CostCenters.Find | src/lib/costCenters.ts:49 | the found entry has the id and is in the table; none exactly when no entry has the id |
| CostCenters.DefaultIdsDistinct | src/lib/costCenters.ts:22-34 | the eleven built-in ids are pairwise distinct |
| CostCenters.FindEntry | src/lib/costCenters.ts:49-50 | looking up any built-in entry's id finds that entry |
| CostCenters.GetCostCenterIcon | src/lib/costCenters.ts:36-44 | null for null or "", the table icon for a known id, Ruler for any other id |
| CostCenters.GetCostCenterLabel | src/lib/costCenters.ts:46-54 | non-null exactly for a non-empty input: the table label for a known id, the id itself otherwise |
| CostCenters.LabelNeverEmpty | src/lib/costCenters.ts:46-54 | every returned label is non-empty |
| CostCenters.RulerMeansCustom | src/lib/costCenters.ts:36-44 | the icon is Ruler exactly for non-empty ids that are not in the table |
| RelatedTasks.InitialActiveIsOpenStatuses | src/components/floormap/room-details/sections/RelatedTasksSection.tsx:66-68 | the panel opens with the six statuses other than completed, done and scrapped |
| RelatedTasks.LoadTasks | src/components/floormap/room-details/sections/RelatedTasksSection.tsx:70-86 | a failed fetch keeps the shown tasks, null rows read as none, and loading ends either way |
| RelatedTasks.ToggleStatus | src/components/floormap/room-details/sections/RelatedTasksSection.tsx:88-98 | flips the membership of that status only |
| RelatedTasks.ToggleTwiceRestores | src/components/floormap/room-details/sections/RelatedTasksSection.tsx:88-98 | toggling the same status twice restores the set |
| RelatedTasks.ButtonClicksStayWithinStatuses | src/components/floormap/room-details/sections/RelatedTasksSection.tsx:112-116 | clicks on the button row keep the active set inside ALL_STATUSES |
| RelatedTasks.Filter | src/components/floormap/room-details/sections/RelatedTasksSection.tsx:100-103 | every kept task's status is active, and each task occurs as often as in the input when its status is active and not at all otherwise |
| RelatedTasks.FilterAppend | src/components/floormap/room-details/sections/RelatedTasksSection.tsx:101 | filtering distributes over concatenation, so the kept tasks stay in their order |
| RelatedTasks.FilterKeepsAllIffAllActive | src/components/floormap/room-details/sections/RelatedTasksSection.tsx:101 | the filter returns the whole list exactly when every task's status is active |
| RelatedTasks.UnlistedStatusNeverShown | src/components/floormap/room-details/sections/RelatedTasksSection.tsx:100-116 | after any button clicks, a task whose status is not in ALL_STATUSES is never listed |
| RelatedTasks.StatusColorGroups | src/components/floormap/room-details/sections/RelatedTasksSection.tsx:39-56 | completed/done and in_progress/doing share classes, the six classes are distinct, and exactly the unnamed statuses get the default class |
| RelatedTasks.StatusLabel | src/components/floormap/room-details/sections/RelatedTasksSection.tsx:123 | the label of a listed status, else the raw status |
| RelatedTasks.StatusLabelsCoverButtons | src/components/floormap/room-details/sections/RelatedTasksSection.tsx:27-37 | every button status has its own non-empty label, and no two buttons share one |
| RelatedTasks.Buttons | src/components/floormap/room-details/sections/RelatedTasksSection.tsx:112-125 | one button per status in order, captioned with its label, dashed exactly when the status is off |
| RelatedTasks.Rows | src/components/floormap/room-details/sections/RelatedTasksSection.tsx:136-143 | one row per listed task with its label, colour and title |
| RelatedTasks.View | src/components/floormap/room-details/sections/RelatedTasksSection.tsx:105-145 | loading text while loading; "no tasks" for an empty list; "no match" when tasks exist but none passes; otherwise the filtered rows |
| RelatedTasks.NoMatchIffNothingActive | src/components/floormap/room-details/sections/RelatedTasksSection.tsx:128-133 | "no match" shows exactly when there are tasks and none has an active status |
| Overview.CountComplete | src/components/project/OverviewTab.tsx:61 | counts the tasks whose status is done or completed; equals the total exactly when all are, and 0 exactly when none is |
| Overview.CountCompleteAppend | src/components/project/OverviewTab.tsx:61 | the count of a concatenation is the sum of the counts, so with the one-task values it is exactly the number of complete tasks |
| Overview.CountCompleteSingle | src/components/project/OverviewTab.tsx:61 | a single task counts one exactly when its status is done or completed |
| Overview.RoundDiv | src/components/project/OverviewTab.tsx:62 | `Math.round(n / d)`: the integer within one half of n/d, halves rounded up |
| Overview.Percentage | src/components/project/OverviewTab.tsx:60-62 | 0 with no tasks; otherwise the rounded share, which lies in [0, 100], is 100 when all are complete and 0 when none is |
| Overview.FetchTaskStats | src/components/project/OverviewTab.tsx:53-71 | a failed query keeps the old statistics; loaded rows (null as none) give total, completed count and percentage |
| Overview.AllCompleteIsHundred | src/components/project/OverviewTab.tsx:60-62 | a non-empty all-complete list reads 100%, and one with nothing complete reads 0% |
| Overview.BudgetSumAppend | src/components/project/OverviewTab.tsx:78 | the task-budget total of two lists is the sum of their totals |
| Overview.MaterialSumAppend | src/components/project/OverviewTab.tsx:85-89 | the material total of two lists is the sum of their totals |
| Overview.ExcludedMaterialsIgnored | src/components/project/OverviewTab.tsx:85-89 | inserting an excluded material, or replacing it by another, never changes the material total |
| Overview.MaterialSumOfIncluded | src/components/project/OverviewTab.tsx:85-89 | with every material included and priced, the total is the plain sum of the prices |
| Overview.TaskBudgetTotal | src/components/project/OverviewTab.tsx:78 | null task rows give a total of 0 |
| Overview.MaterialCostTotal | src/components/project/OverviewTab.tsx:85-89 | null material rows give a total of 0 |
| Overview.CalculatedSpent | src/components/project/OverviewTab.tsx:72-94 | spent is the task-budget total plus the material total, 0 when both queries return nothing |
| Overview.NewTaskAddsItsBudget | src/components/project/OverviewTab.tsx:78-90 | a new task raises the spent amount by its budget, null as 0 |
| Overview.RemainingBudget | src/components/project/OverviewTab.tsx:171-172 | remaining plus spent is the total budget, null as 0 |
| Overview.RemainingTone | src/components/project/OverviewTab.tsx:331 | the remaining amount is drawn destructive exactly when spent exceeds the budget |
| Overview.FirstUnderscore | src/components/project/OverviewTab.tsx:196 | the position of the first underscore, none exactly when there is none |
| Overview.StatusCaption | src/components/project/OverviewTab.tsx:196 | `replace("_", " ")` turns only the first underscore into a space and keeps every other character |
| Overview.CaptionKeepsLaterUnderscores | src/components/project/OverviewTab.tsx:196 | an underscore survives in the caption exactly when it is not the first one |
| Overview.StatusVariant | src/components/project/OverviewTab.tsx:195 | the badge uses the default style exactly for "completed" |
| Overview.EditStep | src/components/project/OverviewTab.tsx:213-242 | cancel closes the editor and resets the draft from the stored value; a failed save changes nothing; a successful save closes the editor and keeps the draft |
| Overview.DatePayload | src/components/project/OverviewTab.tsx:101 | `draft \|\| null`: null exactly for an empty draft |
| Overview.DateStep | src/components/project/OverviewTab.tsx:95-118 | the start-date editor: the pencil opens it; while open, typing sets the draft, a failed save changes nothing, a successful save closes it and, once `onProjectUpdate` has refreshed `project`, the stored date is `draft \|\| null` (without the refresh it is unchanged), and Cancel closes it and resets the draft from the date stored now |
| Overview.DraftPayloadRoundTrip | src/components/project/OverviewTab.tsx:34 | a draft written as `draft \|\| null` reads back as `stored \|\| ""` unchanged |
| Overview.DateStepKeepsInSync | src/components/project/OverviewTab.tsx:222-226 | every event except an unrefreshed successful save keeps a closed editor's draft equal to the stored date's draft |
| Overview.DateRunKeepsInSync | src/components/project/OverviewTab.tsx:222-226 | any sequence of events whose successful saves are all refreshed keeps that agreement |
| Overview.CancelShowsStoredDate | src/components/project/OverviewTab.tsx:222-226 | from the first render and after any history whose successful saves are refreshed, a closed editor shows the stored date, and Cancel resets the draft from the current stored value |
| Overview.CancelAfterSaveShowsSavedDate | src/components/project/OverviewTab.tsx:95-118 | open, type, save with the refresh, reopen and cancel leaves the saved date in the editor and in `project`, not the date the tab opened with |
| Overview.CancelAfterUnrefreshedSaveShowsOldDate | src/components/project/OverviewTab.tsx:95-118 | without the refresh, a saved editor is out of step with `project.start_date`, and reopening then cancelling puts the old date back into the editor although the new one was written |
| Overview.BudgetPayload | src/components/project/OverviewTab.tsx:148 | null exactly for an empty draft, otherwise the parsed number |
| Overview.UneditedDateRoundTrip | src/components/project/OverviewTab.tsx:34-101 | saving an untouched date draft writes back the stored date, with "" normalised to null |
| Overview.UnsetBudgetStaysUnset | src/components/project/OverviewTab.tsx:145-153 | an unset budget opens as "" and saving it unchanged writes null, not 0 |
| Profile.FetchProfile | src/pages/Profile.tsx:70-93 | a loaded row sets the name and phone (null as "") and the language (null or "" as "en"); a failed fetch changes nothing |
| Profile.ReadOnlyFields | src/pages/Profile.tsx:233-257 | email is the profile's, else the account's, else ""; role is the profile's, else "homeowner" |
| Profile.SaveProfile | src/pages/Profile.tsx:95-131 | the update carries the three fields; the language is switched only after a successful update and only when it differs |
| Profile.SecondSaveNeverSwitches | src/pages/Profile.tsx:111-114 | saving the same form again does not switch the language a second time |
| Profile.SaveThenRefetchShowsForm | src/pages/Profile.tsx:95-121 | after a successful save, the refetch shows exactly the saved fields |
| Profile.UnchangedSaveWritesBackRow | src/pages/Profile.tsx:70-121 | saving a freshly loaded form writes back the row's fields (the phone null as "", the language null or "" as "en"), and the refetch shows the same form |
| Profile.ValidatePassword | src/pages/Profile.tsx:136-152 | accepted exactly when both fields match and have at least 6 characters; a mismatch is reported before the length |
| Profile.SubmitPassword | src/pages/Profile.tsx:133-159 | a rejection leaves the form untouched with no update call; otherwise `changingPassword` is set and the new password is sent |
| Profile.PasswordUpdateDone | src/pages/Profile.tsx:156-178 | both fields are cleared only after a successful update; `changingPassword` ends false either way |
| Profile.MismatchReportedFirst | src/pages/Profile.tsx:136-152 | a mismatched short password reports the mismatch, not the length |
| Profile.PasswordRoundOutcome | src/pages/Profile.tsx:133-179 | a whole submission ends idle, with the fields cleared exactly when an update was made and succeeded |
| MaterialRequest.BadgeFor | src/components/project/MaterialRequestButton.tsx:83-89 | approved and rejected get their own badge; every other status gets the pending badge |
| MaterialRequest.RenderControl | src/components/project/MaterialRequestButton.tsx:82-102 | a non-empty status gives its badge; otherwise nothing without permission, and the request button with it |
| MaterialRequest.ButtonOnlyWithoutRequest | src/components/project/MaterialRequestButton.tsx:82-100 | the button appears exactly for permitted users without a request, and a badge does not depend on permission |
| MaterialRequest.NotesPayload | src/components/project/MaterialRequestButton.tsx:55 | `notes.trim() \|\| null`: null exactly for blank notes, otherwise the non-empty trimmed text |
| MaterialRequest.SubmitRequest | src/components/project/MaterialRequestButton.tsx:36-80 | the insert is reached exactly with a user and a profile, and carries a pending request; only success closes and clears the dialog and reloads; submitting always ends |
| MaterialRequest.InsertedRequestShape | src/components/project/MaterialRequestButton.tsx:50-57 | every inserted request is pending, and its notes are null or start with a non-white-space character |
| MaterialRequest.RetryAfterFailure | src/components/project/MaterialRequestButton.tsx:71-79 | a failed insert keeps the dialog and its notes, so a retry inserts the same request |
| LocalProjects.CompletedCount | src/components/ProjectDetail.jsx:19-20 | the finished count is at most the total, and equal to it exactly when every task is finished |
| LocalProjects.ListCountsConsistent | src/components/ProjectList.jsx:19-25 | on every project card the completed count is at most the total count |
| LocalProjects.Progress | src/components/ProjectDetail.jsx:19-21 | 0 with no tasks; otherwise in [0, 100], with progress × total = 100 × done and 100 exactly when all are finished |
| LocalProjects.ProgressLabel | src/components/ProjectDetail.jsx:40 | the shown percentage lies in [0, 100] and is 0 with no tasks |
| LocalProjects.LabelRoundsProgress | src/components/ProjectDetail.jsx:40 | the shown percentage is within one half of the exact progress |
| LocalProjects.ToggleMovesCountByOne | src/components/ProjectDetail.jsx:96-99 | a flip of one task's `completed` flag, which the checkbox asks the parent for through `onToggleTask`, moves `CompletedCount` by exactly one |
| LocalProjects.Submit | src/components/ProjectDetail.jsx:9-17 | an entry is produced exactly when the name is not all white space; it holds the trimmed fields, and the form is then cleared and hidden, otherwise left alone |
| LocalProjects.ToggleForm | src/components/ProjectDetail.jsx:55 | the header button flips the form's visibility and keeps its fields |
| LocalProjects.ToggleFormTwice | src/components/ProjectList.jsx:33 | pressing the header button twice restores the form |
| LocalProjects.SubmitOnce | src/components/ProjectDetail.jsx:13-15 | after an accepted submit an immediate second submit produces nothing |
| LocalProjects.SubmitTask | src/components/ProjectDetail.jsx:11-12 | `onAddTask` gets the project id and the trimmed fields exactly when the name is not blank |
| LocalProjects.SubmitProject | src/components/ProjectList.jsx:9-17 | `onCreateProject` gets the trimmed fields exactly when the name is not blank |
| HoverMenu.CancelHeld | src/components/ui/HoverTabMenu.tsx:32-34 | cancels only the held timer, and keeps the reference to it |
| HoverMenu.ScheduleClose | src/components/ui/HoverTabMenu.tsx:38-42 | schedules a new timer and overwrites the held one without cancelling it |
| HoverMenu.Step | src/components/ui/HoverTabMenu.tsx:31-47 | enter opens and cancels the held timer; leave and dropdown enter never change `isOpen`; a timer closes the menu only while pending; an item click closes the menu and selects exactly its value |
| HoverMenu.LeaveNeverClosesAtOnce | src/components/ui/HoverTabMenu.tsx:38-42 | neither leave handler closes the menu at once, and entering always opens it |
| HoverMenu.OrphanedTimerClosesHoveredMenu | src/components/ui/HoverTabMenu.tsx:38-42 | as written: leaving through the dropdown schedules two timers, re-entering cancels one, and the other closes the hovered menu |
| HoverMenu.DirectMoveToTriggerClosesMenu | src/components/ui/HoverTabMenu.tsx:69-76 | as written, moving from the open dropdown straight onto the trigger runs only the dropdown's leave handler, and its timer then closes the menu under the pointer |
| HoverMenu.StepFixed | src/components/ui/HoverTabMenu.tsx:38-42 | the handlers corrected: the container's leave clears the held timer before scheduling a new one, and the dropdown has no leave handler of its own |
| HoverMenu.StepFixedKeepsTracked | src/components/ui/HoverTabMenu.tsx:31-42 | with the correction, at most one close is ever pending and it is the held one; entering leaves none pending |
| HoverMenu.FixedLeaveStillCloses | src/components/ui/HoverTabMenu.tsx:38-42 | with the correction, leaving the container (directly, or out of the dropdown) keeps the menu open and holds the new timer, which then closes it; moving from the dropdown onto the trigger schedules nothing |
| HoverMenu.FixedHoverStaysOpen | src/components/ui/HoverTabMenu.tsx:31-42 | with the correction, after any history, once the pointer has entered the container from outside, no move between trigger and dropdown and no timer can close the menu |
| HoverMenu.Items | src/components/ui/HoverTabMenu.tsx:78-86 | one button per item while open, none while closed, highlighted exactly when its value equals `activeValue` |
| HoverMenu.SingleHighlight | src/components/ui/HoverTabMenu.tsx:84 | with distinct values at most one item is highlighted, and one is exactly when `activeValue` names an item |
| HoverMenu.TriggerBold | src/components/ui/HoverTabMenu.tsx:60 | the trigger is bold exactly when `activeValue` is non-empty |

## Left out

- Backend I/O: database queries, inserts and updates, auth, toasts, i18n lookups, navigation and `window.location.reload`. Their outcomes are parameters: rows or failure, success flags, the user and profile ids.
- Canvas drawing: Konva rendering, `e.cancelBubble`, `onSelect`, tension, line caps, hit widths and the React memo machinery. What a renderer draws is a `Drawable` record. A comparator is a boolean predicate over the compared props.
- `JSON.stringify` equality of payloads is modelled as structural equality. This assumes both payloads list their keys in the same order.
- Shapes.RenderRect, Shapes.RenderCircle, Shapes.RenderText, Shapes.RenderPath and the drag/transform commits require the payload to have the schema of the shape's kind. The source's `as` cast does not check this. A mismatched payload would be drawn with undefined fields, and that case is not modelled.
- The floor-plan store, the shape type definitions and the wall, room and library renderers are not part of this model. Kinds drawn elsewhere are `Other`.
- Numbers are exact reals: floating-point rounding, NaN, `parseFloat`, `toString`, `toLocaleString` and date formatting are left out. `parseFloat` and `toString` are passed in as functions.
- Profile.ValidatePassword: counts characters, not UTF-16 code units, so a password of astral-plane characters can be judged one length here and another by `length` in the source.
- The `saving`, `submitting` and `changingPassword` flags only disable buttons and show spinners. Double submission while a request is in flight is not modelled. Overview's `saving` flag is left out entirely.
- Profile: the redirect to the sign-in page, the loading spinner, the language list and the avatar are left out. So is the language hook.
- RelatedTasks and MaterialRequest: lookups in `STATUS_LABELS` and `statusConfig` are over their own keys only. Inherited object keys such as "constructor" are not modelled.
- HoverMenu: real time is not modelled; any pending timer may fire at any point. `onMainClick` and item descriptions only pass values through.
- Profile.SaveProfile: the name input is `required` (Profile.tsx:220-226), so the browser refuses to submit an empty name and `handleSaveProfile` never runs with one. The model accepts any name; saves with an empty name are simply unreachable.
- Profile.SubmitPassword: both password inputs are `required` (Profile.tsx:315 and 327), so with either field empty the browser shows its own prompt and `handleChangePassword` never runs. The model reports a mismatch or a short password for such input instead of modelling that prompt; the same goes for Profile.ValidatePassword.
- Overview.DateStep: `onProjectUpdate` is optional and its refetch is asynchronous; the parent that supplies it is not part of this model. `SaveDone(true)` stands for a refresh that has arrived before the next event, `SaveDone(false)` for none; a refresh arriving between later events is not modelled. Overview.DateStepKeepsInSync, Overview.DateRunKeepsInSync and Overview.CancelShowsStoredDate hold only when every successful save is refreshed; Overview.CancelAfterUnrefreshedSaveShowsOldDate shows what happens otherwise.
- LocalProjects: the delete, select and back callbacks and the empty-state texts are left out. They forward values without logic.
- Overview: the timeline and budget-dashboard child components, and the date picker's ISO-date conversion.
- Overview: only the start-date editor is modelled with its stored value (`DateStep`); the goal-date editor is the same code on another field. The budget editor shares `EditStep`, but its draft need not read back unchanged, because `toString(parseFloat(d))` can differ from `d` ("1.50" is stored as 1.5).
- ShapeMemo.Settled assumes that a render which is not skipped places the node at its payload's position. React-konva only re-applies props that changed, so the real outcome can only be worse than this; the finding does not depend on it, because there the render is skipped.

## Findings

| source | as written | input that shows it | evidently intended | confidence | as-written member | corrected member |
|---|---|---|---|---|---|---|
| src/components/floormap/shapes/BasicShapes.tsx:332-342 | the FreehandShape comparator compares id, selection, coordinates, colour and stroke colour, but not `strokeWidth`, which the line is drawn with (line 294) | a freehand shape whose `strokeWidth` changes from 2 to 8 with nothing else changed: the comparator reports unchanged and the old width stays on screen | compare `strokeWidth` as well, so a skipped render never hides a change | medium, not executed | ShapeMemo.PathComparatorMissesStrokeWidth | ShapeMemo.PathComparatorSound |
| src/components/ui/HoverTabMenu.tsx:38-42 | `handleMouseLeave` overwrites `timeoutRef` without clearing the timer already held | open the menu, move the pointer out of the dropdown (both the dropdown's and the container's leave handlers run, scheduling two timers), move back within 150 ms: only the second timer is cancelled, and the first closes the menu under the pointer | clear the held timer before scheduling a new one, so the pointer's return to the container cancels every pending close | medium, not executed | HoverMenu.OrphanedTimerClosesHoveredMenu | HoverMenu.FixedHoverStaysOpen |
| src/components/ui/HoverTabMenu.tsx:69-76 | the dropdown has its own `onMouseLeave={handleMouseLeave}`, although it is a child of the container, whose leave handler already covers leaving it for the outside | open the menu, move into the dropdown, then jump the 4px gap (`mt-1`) straight onto the trigger: only the dropdown's leave runs, the container's enter does not (the pointer never left the container), and 150 ms later the menu closes under the hovered trigger | leave closing to the container alone, so moving between dropdown and trigger schedules nothing | low, not executed | HoverMenu.DirectMoveToTriggerClosesMenu | HoverMenu.FixedHoverStaysOpen |
| src/components/floormap/shapes/BasicShapes.tsx:62-76 | after committing a drag, the rectangle, circle and text handlers reset the node to (0, 0) (lines 75, 168 and 242), although these nodes are drawn at their payload's position; only the line node is drawn at the origin | a rectangle at (10, 20) dragged and released at (10, 20): the committed payload is unchanged, the comparator (lines 98-107) skips the render, and the rectangle is left drawn at (0, 0) | reset the position only for lines, so the node stays where it was dropped, which is where its payload places it | medium, not executed | ShapeMemo.StillDragMisplacesNode | ShapeMemo.FixedDragSettlesAtCommit |
