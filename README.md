# AdaptiveDo: a verified model of the adaptive task engine

AdaptiveDo is a task manager whose interface adapts to the user. Three
things drive it:

- a **mastery score** that unlocks three tiers: BEGINNER, INTERMEDIATE and
  EXPERIENCED;
- a **cognitive load**: LOW, HIGH or PANIC, where PANIC is "focus mode";
- a **proposal protocol** that offers focus mode when the workload grows.
  It remembers the workload at which the user last declined.

This project models that engine in Dafny and proves its properties. It has
three parts.

- **Session store** (`UserContext.Session`). Its state cells are fields of
  a class, and its actions are methods: add, toggle, delete, update,
  set-in-progress, the simulation helpers and reset. Each method states its
  new state as a pure function of the old one. Those functions are defined
  and studied in separate modules:
  - `TaskStore`: the list operations and the default re-sort;
  - `Mastery`: the capped score and the tiers;
  - `Workload`: the board columns, the workload and the calendar-day
    overdue count;
  - `PanicProtocol`: the proposal rule and its dismissal memory.
- **Components.** Each component that handles events is a class holding
  its own state (a ref, a flag, a timer). Its handlers are methods that
  call the session's methods, in the order the component does:
  - the proposal dialog, the focus-mode list refill and the Kanban drops;
  - the all-done celebration and its timers;
  - the missed-deadline prompt and the tier-unlock notification;
  - the quick-add parser, the task dialog, the command palette, the
    calendar, the focus timer and the home page.
- **Pure policies.** The load-dependent display order, the timeline order
  and its headers, and the visibility gates.
  - The three orders rest on one stable insertion sort (`StableSort.SortBy`).
    Each JavaScript comparator is modelled by a function and proved to
    agree with that sort's key.
  - Stability is proved as "each class of equal keys keeps its input order".

Effects become explicit `Evaluate` methods, to be called after each event.
Timers become pending due times, fired by `FireTimer`/`FireTimers` methods
or by `Second` for the focus timer. The clock, today's date and every
random id are parameters.

Dates are `(year, month 1..12, day)` triples:

- `Dates.EpochDay` normalises overflowing months and days, as
  `new Date(y, m, d)` does. The calendar's `new Date(y, m + 1, 0)` and
  `new Date(y, m - 1, 1)` are modelled with it.
- An instant is a local calendar day plus milliseconds into it.

Where the intended design and the code differ, the model follows the code:

- Accepting the proposal does not clear the remembered workload
  (`PanicProtocol.Accept`, `PanicProtocol.AcceptKeepsHysteresis`).
- `setTaskInProgress` clears `completed` for both flag values
  (`TaskStore.SetInProgressEffect`).
- With unique ids, the second branch of the focus-mode refill never
  changes a task (`TaskList.CatchUpIdsEmpty`). With duplicate ids it can
  promote a task.
- The clear branch tests `panicDismissedAt` for truthiness, so a dismissal
  time of 0 survives it (`PanicProtocol.ZeroTimestampSurvivesClear`).
- The timeline comparator answers 1 for two undated tasks in both orders
  (`TimelineView.DueCompareUndatedInconsistent`).

## Model

| member | source | states |
|---|---|---|
| Types.Materialize | src/context/UserContext.tsx:134-139 | The stored task has exactly the fields of the draft, plus the id and creation time the store assigns. |
| Types.PriorityWeightInjective | src/hooks/useSmartSorting.ts:19 | Two priorities have equal weight exactly when they are the same priority. |
| Types.Find | src/components/TaskList.tsx:40 | `find` gives nothing exactly when no task has the id. Otherwise it gives a task of the list with that id, and no earlier task has it. |
| Types.FindUnique | src/components/TaskList.tsx:50 | When ids are unique, looking up a task's id finds that very task. |
| Dates.EpochDay | src/context/UserContext.tsx:74-80 | The day number of a date, normalising month and day overflow as `new Date(y, m, d)` does. `Dates.SameDayIffSameDate` and `Dates.NextMonthStart` state its behaviour. |
| Dates.DaysInMonth | src/app/calendar/page.tsx:18 | A month has 28 to 31 days. 28 happens only for February of a common year, and 29 only for February of a leap year. |
| Dates.NormalMonth | src/app/calendar/page.tsx:28 | An overflowing month index is brought into 1..12, and an in-range month is left alone. |
| Dates.NextMonthStart | src/app/calendar/page.tsx:28 | The 1st of month m+1, wrapping into the next year after December, comes as many days after the 1st of m as month m is long. |
| Dates.DayZeroIsLastDay | src/app/calendar/page.tsx:18 | Day 0 of the following month is the last day of this month, which is a valid date. |
| Dates.Weekday | src/app/calendar/page.tsx:19 | `getDay()`, from 0 for Sunday to 6, computed from the day number. |
| Dates.NextMonthWeekday | src/app/calendar/page.tsx:19 | The weekday of the next month's 1st is this 1st's weekday plus the month length, modulo 7. |
| Dates.SameDayIffSameDate | src/app/calendar/page.tsx:39-42 | Two valid dates have the same day number exactly when year, month and day all agree. |
| StableSort.SortBy | src/context/UserContext.tsx:123 | The result is a permutation of the input, ordered by the key. |
| StableSort.InsertSorted | src/context/UserContext.tsx:123 | Inserting into a key-ordered list keeps it ordered. |
| StableSort.SortByStable | src/context/UserContext.tsx:123 | Among tasks with equal keys, the sort keeps their input order. |
| StableSort.SortBySortedIsIdentity | src/context/UserContext.tsx:123 | Sorting a list that is already ordered gives it back unchanged. |
| TaskSeq.Filter | src/context/UserContext.tsx:162 | A task is in the filtered list exactly when it is in the input and passes the test. The filtered list is never longer. |
| TaskSeq.FilterAppend | src/context/UserContext.tsx:87-88 | Filtering a concatenation filters each part. |
| TaskSeq.FilterIdempotent | src/context/UserContext.tsx:162 | Filtering twice with the same test is filtering once. |
| TaskSeq.FilterCountPermutation | src/context/UserContext.tsx:87-88 | Two lists with the same tasks in any order pass any test equally often. |
| TaskSeq.KeptIndicesEmbed | src/components/CommandPalette.tsx:27 | The filtered tasks sit at strictly increasing positions of the input, so a filter keeps order. |
| TaskSeq.Take | src/components/TaskList.tsx:30 | `slice(0, n)` is the first min(n, length) tasks. |
| TaskSeq.Ids | src/components/TaskList.tsx:23 | The id list has one entry per task, in order. |
| TaskStore.StoreCompare | src/context/UserContext.tsx:123-130 | The `sortTasks` comparator: completion status first, then the weight difference. `TaskStore.StoreCompareAgreesWithKey` proves that it orders as the sort key does. |
| TaskStore.StoreCompareAgreesWithKey | src/context/UserContext.tsx:123-130 | The store comparator orders two tasks exactly as the key (completed last, then weight descending) does, and calls them equal exactly when the keys are equal. |
| TaskStore.SortTasks | src/context/UserContext.tsx:121-131 | The result is a permutation with every incomplete task before every completed one. Within each group, priority weight does not increase. |
| TaskStore.SortTasksStable | src/context/UserContext.tsx:123 | Tasks with equal completion status and priority keep their input order. |
| TaskStore.SortTasksIdempotent | src/context/UserContext.tsx:121-131 | Re-sorting a sorted list changes nothing. |
| TaskStore.ApplyEdit | src/context/UserContext.tsx:145-153 | An edit never changes a task's id or creation time. |
| TaskStore.EditTasks | src/context/UserContext.tsx:166 | The edited list has the same length. Each task with the id is edited and every other task is left in place. |
| TaskStore.EditKeepsOthers | src/context/UserContext.tsx:170 | A task with another id occurs as often after the edit as before. |
| TaskStore.EditAbsent | src/context/UserContext.tsx:166 | Editing an id no task has changes nothing. |
| TaskStore.AddTasks | src/context/UserContext.tsx:140 | Adding gives the old tasks plus the new one, as a multiset. |
| TaskStore.DeleteTasks | src/context/UserContext.tsx:161-163 | The result holds exactly the tasks with another id, and no task with the deleted id. |
| TaskStore.DeleteAbsent | src/context/UserContext.tsx:162 | Deleting an absent id is a no-op. |
| TaskStore.DeleteIdempotent | src/context/UserContext.tsx:162 | Deleting twice is deleting once. |
| TaskStore.DeleteKeepsOrder | src/context/UserContext.tsx:162 | Deleting from a concatenation deletes from each part, so the remaining tasks keep their order. |
| TaskStore.ToggleTasks | src/context/UserContext.tsx:145-157 | The list after `toggleTask`: `completed` flipped on every task with the id, then re-sorted. Its contents are stated by `TaskStore.ToggleContents` and `TaskStore.ToggleUnique`. |
| TaskStore.UpdateTasks | src/context/UserContext.tsx:165-167 | The list after `updateTask`: the patch spread over every task with the id, then re-sorted. Its effect is stated by `TaskEditModal.UpdateStoresForm` and `AdaptiveLayout.FabSaveAddsNothing`. |
| TaskStore.SetInProgress | src/context/UserContext.tsx:169-171 | The list after `setTaskInProgress`, not re-sorted. Its effect is stated by `TaskStore.SetInProgressEffect`. |
| TaskStore.NewlyCompleted | src/context/UserContext.tsx:145-152 | How many times the toggle's map calls the score and count setters: once per incomplete task with the id. `TaskStore.NewlyCompletedUnique` bounds it by one when ids are unique. |
| TaskStore.NewlyCompletedUnique | src/context/UserContext.tsx:147-152 | With unique ids, a toggle completes one task if it was incomplete and none if it was complete. |
| TaskStore.SingleMatch | src/context/UserContext.tsx:146 | With unique ids, exactly one task passes a test that only that task's id can pass. |
| TaskStore.ToggleContents | src/context/UserContext.tsx:143-159 | Tasks with other ids keep their multiplicity. Each task with the id reappears with `completed` flipped, and nothing else with that id appears. |
| TaskStore.ToggleUnique | src/context/UserContext.tsx:143-159 | With unique ids, after the toggle the only task with that id is the old one with `completed` flipped. |
| TaskStore.SetInProgressEffect | src/context/UserContext.tsx:169-171 | Every task with the id ends with the new flag and not completed, whichever flag is set. Every other task keeps its multiplicity. |
| Mastery.ModeOf | src/context/UserContext.tsx:62-66 | The tier the mode effect sets for a score. Its thresholds, monotonicity and one-step rise are stated by `Mastery.ModeThresholds`, `Mastery.ModeMonotone` and `Mastery.CompletionRaisesTierAtMostOne`. |
| Mastery.CompletionBump | src/context/UserContext.tsx:150 | A completion adds 5 or saturates at 100, and never lowers a score of at most 100. |
| Mastery.CappedAddClosedForm | src/context/UserContext.tsx:150 | k completions give min(s + 5k, 100). |
| Mastery.CappedAddInRange | src/context/UserContext.tsx:150 | From a score in [0, 100], completions keep the score in [0, 100] and never lower it. |
| Mastery.ModeThresholds | src/context/UserContext.tsx:62-66 | BEGINNER exactly below 30; INTERMEDIATE exactly from 30 to 79; EXPERIENCED exactly from 80. |
| Mastery.ModeMonotone | src/context/UserContext.tsx:62-66 | A higher score never gives a lower tier. |
| Mastery.CompletionRaisesTierAtMostOne | src/context/UserContext.tsx:150 | One completion raises the tier by at most one step and never lowers it. |
| Mastery.ModeBoundaries | src/context/UserContext.tsx:63-65 | 29 and 30, and 79 and 80, fall on the two sides of each threshold. |
| Workload.TotalWorkload | src/context/UserContext.tsx:87-89 | The backlog count plus the in-progress count. `Workload.TotalWorkloadIsIncomplete` proves that it is the number of incomplete tasks. |
| Workload.TotalWorkloadIsIncomplete | src/components/PanicProposalModal.tsx:14-16 | Backlog plus in-progress is the number of incomplete tasks. |
| Workload.ColumnsPartition | src/components/KanbanBoard.tsx:57-59 | Every task is in exactly one of backlog, in progress and done. The three column sizes add up to the list length. |
| Workload.IsOverdue | src/context/UserContext.tsx:76-83 | Incomplete, dated, and due on a calendar day before today. The day boundaries are stated by `Workload.DueTodayNotOverdue` and `Workload.DueYesterdayOverdue`. |
| Workload.OverdueCount | src/context/UserContext.tsx:76-83 | The overdue count never exceeds the number of incomplete tasks. |
| Workload.OverdueWithinWorkload | src/context/UserContext.tsx:76-89 | The overdue count never exceeds the workload. |
| Workload.OverdueCountAppend | src/context/UserContext.tsx:76-83 | Appending a task raises the count by one exactly when that task is overdue. |
| Workload.DueTodayNotOverdue | src/context/UserContext.tsx:80 | A task due at any time today is not overdue. |
| Workload.DueYesterdayOverdue | src/context/UserContext.tsx:80 | An incomplete task due at any time on the previous calendar day is overdue, across month and year boundaries. |
| Workload.OverdueExample | src/context/UserContext.tsx:74-80 | A task due at 23:00 on 14 June is overdue on 15 June but not on 14 June. |
| Workload.SortKeepsCounts | src/context/UserContext.tsx:140 | Re-sorting changes neither the workload nor the overdue count. |
| PanicProtocol.ShouldPropose | src/context/UserContext.tsx:96-100 | The four-part `shouldPropose` condition. `PanicProtocol.ProposesExactlyWhen` states it as an iff for a whole evaluation. |
| PanicProtocol.Clears | src/context/UserContext.tsx:107 | The clear branch's condition: workload below 4 and nothing overdue. `PanicProtocol.BranchesDisjoint` proves that it never holds together with the propose condition. |
| PanicProtocol.Evaluate | src/context/UserContext.tsx:85-118 | A proposal is only ever set while a trigger holds. The remembered workload is wiped exactly in the clear case. The dismissal time is wiped in the clear case unless it is 0, and kept otherwise. |
| PanicProtocol.Dismiss | src/components/PanicProposalModal.tsx:18-20 | Dismissing withdraws the proposal and records the time and the workload. |
| PanicProtocol.Accept | src/components/PanicProposalModal.tsx:49-53 | Accepting withdraws the proposal and forgets the time, but keeps the remembered workload. |
| PanicProtocol.BranchesDisjoint | src/context/UserContext.tsx:96-117 | The propose and clear conditions never hold together. |
| PanicProtocol.ProposesExactlyWhen | src/context/UserContext.tsx:96-104 | From no proposal, evaluation proposes exactly when (workload ≥ 4 or overdue > 0), load ≠ PANIC, and (nothing remembered or workload > remembered). |
| PanicProtocol.StandingProposal | src/context/UserContext.tsx:106-110 | A standing proposal survives exactly while a trigger holds. |
| PanicProtocol.EvaluateIdempotent | src/context/UserContext.tsx:85-118 | Evaluating twice on the same inputs is evaluating once. |
| PanicProtocol.NoReproposeWhileAtMostSnapshot | src/context/UserContext.tsx:100 | After a dismissal at workload w > 0, no sequence of triggered evaluations (workload ≥ 4 or something overdue) at workload ≤ w proposes again or changes the memory. An untriggered evaluation takes the clear branch and wipes it. |
| PanicProtocol.DismissHolds | src/components/PanicProposalModal.tsx:18-20 | Right after a dismissal at workload w > 0, evaluating at the same workload does not propose again. |
| PanicProtocol.ReproposeAboveSnapshot | src/context/UserContext.tsx:100 | The first evaluation with workload above the remembered one, outside PANIC and with a trigger, proposes. |
| PanicProtocol.ClearThenRepropose | src/context/UserContext.tsx:107-117 | After a dismissal, a drop below 4 with nothing overdue wipes the memory. A later trigger outside PANIC then proposes again. |
| PanicProtocol.AcceptKeepsHysteresis | src/components/PanicProposalModal.tsx:49-53 | After an accept, evaluations at or below the remembered workload still never propose. |
| PanicProtocol.ZeroTimestampSurvivesClear | src/context/UserContext.tsx:111 | A dismissal time of 0 is falsy, so the clear branch leaves it in place. |
| UserContext.Yesterday | src/context/UserContext.tsx:185 | The instant one day (86,400,000 ms) earlier, at the same time of day. |
| UserContext.PanicTasks | src/context/UserContext.tsx:184-189 | Four incomplete, not-in-progress HIGH tasks, due and created one day ago, with efforts 60, 45, 10 and 5. |
| UserContext.PanicTasksRaiseCounts | src/context/UserContext.tsx:179-191 | The simulated overload raises both the overdue count and the workload by exactly 4. |
| UserContext.PanicTasksOverdue | src/context/UserContext.tsx:185-188 | Appending four incomplete tasks due yesterday raises the overdue count by 4. |
| UserContext.PanicTasksWorkload | src/context/UserContext.tsx:185-188 | Appending four incomplete backlog tasks raises the workload by 4. |
| UserContext.TriggerThenEvaluateProposes | src/context/UserContext.tsx:180-181 | Outside PANIC, with no proposal standing and the memory not holding it back, the next evaluation after the overload proposes. |
| UserContext.Toggled | src/context/UserContext.tsx:143-159 | The session after `toggleTask`: one capped +5 and one completion per task completed, and the toggled, re-sorted list. `UserContext.ToggleScore` states the score change. |
| UserContext.ToggleScore | src/context/UserContext.tsx:143-159 | With unique ids, toggling an incomplete task gives one capped +5 bump and toggling a completed one leaves the score. |
| UserContext.ResetThenEvaluateForgets | src/context/UserContext.tsx:193-204 | After a reset, the next evaluation on the empty list proposes nothing and wipes the remembered workload. It wipes the dismissal time unless that was 0. |
| UserContext.Session.constructor | src/context/UserContext.tsx:13-70 | Score 0, BEGINNER, LOW load, DESKTOP, no tasks, zero metrics, nothing proposed or remembered. |
| UserContext.Session.AddTask | src/context/UserContext.tsx:134-141 | The list becomes the re-sorted old list plus the new task, and nothing else changes. |
| UserContext.Session.ToggleTask | src/context/UserContext.tsx:143-159 | Tasks with the id flip `completed` and the list is re-sorted. Each completion adds a capped 5 to the score and 1 to the count. |
| UserContext.Session.DeleteTask | src/context/UserContext.tsx:161-163 | Only the task list changes, to the old one without the id. |
| UserContext.Session.UpdateTask | src/context/UserContext.tsx:165-167 | Tasks with the id take the patch and the list is re-sorted; nothing else changes. |
| UserContext.Session.SetTaskInProgress | src/context/UserContext.tsx:169-171 | Tasks with the id get the flag and `completed = false`, with no re-sort; nothing else changes. |
| UserContext.Session.SimulateMissedDeadline | src/context/UserContext.tsx:174-177 | Only the missed-deadline count changes, by +1. |
| UserContext.Session.TriggerPanicMode | src/context/UserContext.tsx:179-191 | Missed deadlines +3, and the four overload tasks are added and sorted in. |
| UserContext.Session.ResetSimulation | src/context/UserContext.tsx:193-204 | Score 0, LOW, zero metrics, no tasks and nothing proposed. The dismissal memory and the tier are untouched. |
| UserContext.Session.SetMasteryScore | src/context/UserContext.tsx:236 | Only the score changes, to the given value in 0..100. |
| UserContext.Session.SetCognitiveLoad | src/context/UserContext.tsx:237 | Only the load changes. |
| UserContext.Session.SetDeviceType | src/context/UserContext.tsx:239 | Only the device changes. |
| UserContext.Session.SetIsPanicProposed | src/context/UserContext.tsx:232 | Only the proposed flag changes. |
| UserContext.Session.SetPanicDismissedAt | src/context/UserContext.tsx:233 | Only the dismissal time changes. |
| UserContext.Session.SetDismissedTaskCount | src/context/UserContext.tsx:234 | Only the remembered workload changes. |
| UserContext.Session.EvaluateMode | src/context/UserContext.tsx:62-66 | The tier becomes the tier of the current score; nothing else changes. |
| UserContext.Session.EvaluateProposal | src/context/UserContext.tsx:85-118 | The proposal state becomes the rule applied to the current workload, overdue count (for `today`) and load. |
| SmartSorting.SmartCompare | src/hooks/useSmartSorting.ts:11-32 | The comparator each load passes to `sort`. `SmartSorting.SmartCompareAgreesWithKey` proves that each orders as its key does. |
| SmartSorting.SmartCompareAgreesWithKey | src/hooks/useSmartSorting.ts:12-32 | Under each load, the comparator orders two tasks exactly as the load's key does, and calls them equal exactly when the keys are equal. |
| SmartSorting.SmartSort | src/hooks/useSmartSorting.ts:8-33 | The result is a permutation. Under PANIC effort does not decrease. Under HIGH priority weight does not increase, and within one priority dated tasks come first in due-time order. Otherwise creation time does not increase. |
| SmartSorting.SmartSortStable | src/hooks/useSmartSorting.ts:13-32 | Under every load, tasks the comparator calls equal keep their input order. |
| SmartSorting.PanicQuickWinsExample | src/hooks/useSmartSorting.ts:12-14 | Efforts 30, 5, 15 come out as 5, 15, 30. |
| ProposalModal.HandleDismiss | src/components/PanicProposalModal.tsx:10-21 | Only the proposal state changes: to the dismissal at `now` with the current backlog plus in-progress count. |
| ProposalModal.HandleAccept | src/components/PanicProposalModal.tsx:49-53 | The load becomes PANIC and the proposal state becomes the accepted one; the remembered workload stays. |
| ProposalModal.DismissRemembersIncomplete | src/components/PanicProposalModal.tsx:14-20 | The workload a dismissal remembers is the number of incomplete tasks. |
| TaskList.VisibleTasks | src/components/TaskList.tsx:17-18 | Outside PANIC all smart-sorted tasks are visible. In PANIC exactly the tasks in progress and not completed are, in effort order; the list is the in-progress filter of the stable effort sort, so copies and ties keep their store order. |
| TaskList.PromoteAll | src/components/TaskList.tsx:32-34 | The queued `setTaskInProgress(id, true)` calls applied in order. `TaskList.PromoteAllPointwise` states the result task by task. |
| TaskList.PromoteAllPointwise | src/components/TaskList.tsx:32-34 | Promoting a list of ids marks exactly the tasks with one of those ids in progress and not completed. Every other task is unchanged and the length is kept. |
| TaskList.RefillIds | src/components/TaskList.tsx:28-30 | The refill takes min(3, backlog size) ids. |
| TaskList.CatchUpIds | src/components/TaskList.tsx:49-54 | The second branch only promotes ids from the visible list. |
| TaskList.CatchUpIdsEmpty | src/components/TaskList.tsx:45-55 | With unique ids, the second branch promotes nothing, since every visible task is already in progress. |
| TaskList.CatchUpIdsNone | src/components/TaskList.tsx:49-54 | If every id's first task is already in progress, nothing is promoted. |
| TaskList.FocusPromotions | src/components/TaskList.tsx:21-58 | The ids one PANIC run of the effect promotes: the refill when nothing is visible, then the second branch. `TaskList.FocusPromotionsUnique` proves that with unique ids only the refill acts. |
| TaskList.FocusPromotionsUnique | src/components/TaskList.tsx:21-60 | With unique ids, a PANIC run promotes the first backlog ids when nothing is visible, and nothing otherwise. |
| TaskList.RefillEffect | src/components/TaskList.tsx:27-35 | The refill marks exactly the first backlog tasks in progress and not completed; every other task is unchanged. |
| TaskList.EmptyBacklogNoRefill | src/components/TaskList.tsx:28-35 | With an empty backlog the refill changes nothing. |
| TaskList.PromoteAllAppend | src/components/TaskList.tsx:32-34 | Promoting two id lists one after the other is promoting their concatenation. |
| TaskList.FocusList.Evaluate | src/components/TaskList.tsx:21-60 | Outside PANIC nothing changes. In PANIC the session's tasks are promoted as `FocusPromotions` says, and the remembered ids become the visible ids. |
| TaskList.Promote | src/components/TaskList.tsx:32-34 | The loop of `setTaskInProgress(id, true)` calls leaves the tasks promoted for every id; nothing else changes. |
| TaskList.CatchUp | src/components/TaskList.tsx:49-54 | The second branch's loop promotes exactly `CatchUpIds` of the render's list. |
| KanbanBoard.ColumnOf | src/components/KanbanBoard.tsx:83-97 | The targets "backlog", "inprogress" and "done", each recognised by its exact id. |
| KanbanBoard.Moves | src/components/KanbanBoard.tsx:83-101 | The session calls `handleDragEnd` makes for each column, given the task as it was. Their effect is stated by `KanbanBoard.DropOnBacklog`, `KanbanBoard.DropOnInProgress` and `KanbanBoard.DropOnDone`. |
| KanbanBoard.Drop | src/components/KanbanBoard.tsx:65-104 | The session after a drop. `KanbanBoard.DropWithoutEffect` and `KanbanBoard.DropKeepsOthers` state what it leaves alone. |
| KanbanBoard.DropWithoutEffect | src/components/KanbanBoard.tsx:68-80 | A drop outside every column, or of an unknown id, changes nothing. |
| KanbanBoard.ApplyMovesSnoc | src/components/KanbanBoard.tsx:83-102 | Running the calls in order is running all but the last, then the last. |
| KanbanBoard.UniqueCopy | src/components/KanbanBoard.tsx:75 | With unique ids, each task is the only one with its id. |
| KanbanBoard.ProgressCopy | src/context/UserContext.tsx:170 | `setTaskInProgress` turns the only task with an id into its in-progress, not-completed copy. |
| KanbanBoard.Uncomplete | src/components/KanbanBoard.tsx:85-87 | The conditional toggle leaves the only copy of the task not completed and otherwise unchanged. |
| KanbanBoard.DropOnBacklog | src/components/KanbanBoard.tsx:83-90 | With unique ids, the dropped task ends not completed and not in progress, with its other fields unchanged. |
| KanbanBoard.DropOnInProgress | src/components/KanbanBoard.tsx:91-96 | With unique ids, the dropped task ends in progress and not completed, with its other fields unchanged. |
| KanbanBoard.DropOnDone | src/components/KanbanBoard.tsx:97-101 | With unique ids, the dropped task ends completed. Score and completion count rise exactly when it was incomplete before. |
| KanbanBoard.MoveOutOfDoneKeepsScore | src/components/KanbanBoard.tsx:85-95 | Moving a completed task to backlog or in progress leaves score and metrics unchanged. |
| KanbanBoard.MovesKeepOthers | src/components/KanbanBoard.tsx:83-102 | No call of a drop changes the multiplicity of a task with another id. |
| KanbanBoard.DropKeepsOthers | src/components/KanbanBoard.tsx:65-105 | A whole drop leaves every task with another id as often as before. |
| KanbanBoard.Board.HandleDragStart | src/components/KanbanBoard.tsx:61-63 | The dragged id is remembered. |
| KanbanBoard.Board.HandleDragEnd | src/components/KanbanBoard.tsx:65-105 | The session ends in `Drop` of the old state, and the drag ends. |
| KanbanBoard.ReleaseOnBacklog | src/components/KanbanBoard.tsx:83-90 | The backlog branch performs exactly the backlog calls for the task as it was. |
| KanbanBoard.ReleaseOnInProgress | src/components/KanbanBoard.tsx:91-96 | The in-progress branch performs exactly the in-progress calls. |
| KanbanBoard.ReleaseOnDone | src/components/KanbanBoard.tsx:97-101 | The done branch performs exactly the done calls. |
| JsString.LeadingSpaces | src/components/QuickAdd.tsx:14 | The count of leading white space: all counted characters are white space and the next one is not. |
| JsString.TrimEnd | src/components/QuickAdd.tsx:25 | A prefix that does not end in white space, followed in the input only by white space. |
| JsString.Trim | src/components/QuickAdd.tsx:14 | A slice of the input that neither starts nor ends with white space, with only white space cut at both ends. |
| JsString.TrimEmptyIffBlank | src/components/QuickAdd.tsx:14 | A text trims to "" exactly when it is all white space. |
| JsString.TrimIdempotent | src/components/QuickAdd.tsx:25-26 | Trimming twice is trimming once. |
| JsString.ContainsIffOccurs | src/components/QuickAdd.tsx:29-30 | `includes` holds exactly when the text occurs at some position. |
| JsString.ContainsSkip | src/components/QuickAdd.tsx:29-30 | A prefix without the first character of the pattern cannot hold a match. |
| JsString.Before | src/components/QuickAdd.tsx:24-26 | `split(c)[0]` is the longest prefix without `c`; when shorter than the input, it is followed by `c`. |
| JsString.After | src/components/QuickAdd.tsx:26 | The whole suffix after the first `c`: no longer than the input, and empty when `c` does not occur. `parts[1]` is that suffix cut at its next `c`, as `QuickAdd.Tag` composes it. |
| JsString.SplitAtFirst | src/components/QuickAdd.tsx:24-26 | A text holding `c` is its first piece, `c`, and the rest. |
| JsString.BeforeAfterSplit | src/components/QuickAdd.tsx:24-26 | Splitting `a + c + b`, with no `c` in `a`, gives back `a` and `b`. |
| JsString.BeforeAbsent | src/components/QuickAdd.tsx:26 | Without the separator, the first piece is the whole text. |
| JsString.LowerChar | src/components/CommandPalette.tsx:28 | Capital ASCII letters map to their small letters; every other character is unchanged. |
| JsString.Lower | src/components/CommandPalette.tsx:28 | Lower-casing maps each character and keeps the length. |
| JsString.LowerIdempotent | src/components/CommandPalette.tsx:28 | Lower-casing twice is lower-casing once. |
| QuickAdd.Tag | src/components/QuickAdd.tsx:26 | The category holds no `#` and no space. |
| QuickAdd.MarkedPriority | src/components/QuickAdd.tsx:20-30 | MEDIUM exactly when "!medium" occurs; HIGH exactly when "!high" does and "!medium" does not; LOW otherwise. |
| QuickAdd.QuickDraft | src/components/QuickAdd.tsx:18-39 | Not completed, effort 15, due now, priority by the markers. Without `#` the title is the untrimmed input and the category "General". With `#` the title has no `#` and the category is the tag. |
| QuickAdd.TaggedEntry | src/components/QuickAdd.tsx:23-27 | For `a#b` with no `#` in `a`: the title is `a` trimmed, and the category is the first word of `b`'s first `#`-piece, trimmed. |
| QuickAdd.LeadingHashEmptyTitle | src/components/QuickAdd.tsx:24-25 | An entry starting with `#` gets the empty title. |
| QuickAdd.ParserExample | src/components/QuickAdd.tsx:17 | "Buy milk #personal !high 15m" parses to title "Buy milk", category "personal", priority HIGH. |
| QuickAdd.ShowsParserForm | src/components/QuickAdd.tsx:45-60 | The parsing form shows in every tier but BEGINNER, which gets only the add button. |
| QuickAdd.QuickAddBar.constructor | src/components/QuickAdd.tsx:10-43 | Empty input, the add dialog closed, and the dialog's form at the new-task defaults it gets at mount. |
| QuickAdd.QuickAddBar.SetInput | src/components/QuickAdd.tsx:10 | Only the input changes. |
| QuickAdd.QuickAddBar.Submit | src/components/QuickAdd.tsx:12-41 | A blank entry changes nothing. Otherwise the parsed task is added to the session and the input is cleared. |
| QuickAdd.QuickAddBar.OpenModal | src/components/QuickAdd.tsx:49 | The add dialog opens showing the form its previous opening left, for as long as the bar stays mounted. A remount, such as leaving the list view and coming back, starts again from `QuickAdd.QuickAddBar.constructor`. |
| QuickAdd.QuickAddBar.CloseModal | src/components/QuickAdd.tsx:57 | The add dialog closes, and its form and the input are kept. |
| QuickAdd.QuickAddBar.SaveModal | src/components/TaskEditModal.tsx:36-46 | Saving adds the form as a new task and closes the dialog without resetting the form, so the next opening of the same mounted bar shows the saved fields again. |
| ConfettiCelebration.AllDone | src/components/ConfettiCelebration.tsx:15-16 | A non-empty list with no incomplete task. `ConfettiCelebration.AllDoneMeansEveryTaskCompleted` states it as "every task is completed". |
| ConfettiCelebration.AllDoneMeansEveryTaskCompleted | src/components/ConfettiCelebration.tsx:15-16 | All done means a non-empty list whose tasks are all completed. |
| ConfettiCelebration.Fires | src/components/ConfettiCelebration.tsx:19 | The effect fires when all tasks are done and it has not fired yet. `ConfettiCelebration.FiresOnce` proves that it fires once per run of all-done states. |
| ConfettiCelebration.Step | src/components/ConfettiCelebration.tsx:14-66 | On a non-empty list the trigger flag ends equal to "all done", and an empty list changes nothing. Firing shows the celebration and schedules the hide at +4000, plus the exit at +3500 only under PANIC. Not firing schedules nothing. |
| ConfettiCelebration.FiresOnce | src/components/ConfettiCelebration.tsx:19-21 | After firing, further all-done evaluations change nothing. |
| ConfettiCelebration.IncompleteRearms | src/components/ConfettiCelebration.tsx:63-65 | Any incomplete task clears the trigger flag and schedules nothing. |
| ConfettiCelebration.NotDue | src/components/ConfettiCelebration.tsx:51-59 | The timers still pending are exactly those due after now. |
| ConfettiCelebration.LoadAfter | src/components/ConfettiCelebration.tsx:51-53 | The load is unchanged, or becomes LOW only when an exit timer is due. |
| ConfettiCelebration.AfterTimers | src/components/ConfettiCelebration.tsx:51-59 | Firing timers hides the celebration exactly when a hide is due, and leaves only timers due later. |
| ConfettiCelebration.PanicExitThenHide | src/components/ConfettiCelebration.tsx:50-59 | Fired under PANIC, the load is LOW 3500 ms later whatever it was then, the celebration still shows, and it is hidden at 4000 ms. |
| ConfettiCelebration.CalmFiringKeepsLoad | src/components/ConfettiCelebration.tsx:50 | Fired outside PANIC, no timer ever changes the load. |
| ConfettiCelebration.Celebration.constructor | src/components/ConfettiCelebration.tsx:11-12 | Not shown, not triggered, nothing pending. |
| ConfettiCelebration.Celebration.Evaluate | src/components/ConfettiCelebration.tsx:14-66 | The component's state becomes `Step` of the session's tasks and load. |
| ConfettiCelebration.Celebration.FireTimers | src/components/ConfettiCelebration.tsx:51-59 | The component state becomes `AfterTimers`, and the session's load becomes `LoadAfter`; nothing else in the session changes. |
| ConfettiCelebration.Celebration.Close | src/components/ConfettiCelebration.tsx:99 | Only the shown flag is cleared. |
| MotivationalModal.Prompts | src/components/MotivationalModal.tsx:14 | The prompt condition on the missed-deadline count. `MotivationalModal.PromptsAtMultiplesOfThree` and `MotivationalModal.OneInThree` state which counts satisfy it. |
| MotivationalModal.PromptsAtMultiplesOfThree | src/components/MotivationalModal.tsx:14 | The prompt opens exactly for positive multiples of 3, so never for 0. |
| MotivationalModal.OneInThree | src/components/MotivationalModal.tsx:14 | Among three consecutive counts above any n, exactly one prompts. |
| MotivationalModal.MotivationalPrompt.constructor | src/components/MotivationalModal.tsx:10 | Closed, no count seen yet. |
| MotivationalModal.MotivationalPrompt.Evaluate | src/components/MotivationalModal.tsx:12-17 | When the count has changed and is a positive multiple of 3 the prompt opens; otherwise it stays as it was. |
| MotivationalModal.MotivationalPrompt.AcceptHelp | src/components/MotivationalModal.tsx:19-22 | The load becomes PANIC and the prompt closes; nothing else changes, the proposal state included. |
| MotivationalModal.MotivationalPrompt.Dismiss | src/components/MotivationalModal.tsx:24-26 | Only the prompt closes. |
| FeatureUnlock.Classify | src/components/FeatureUnlockNotification.tsx:19-38 | A notification exactly for BEGINNER→INTERMEDIATE, INTERMEDIATE→EXPERIENCED and BEGINNER→EXPERIENCED, each with its own title and message. |
| FeatureUnlock.NotifiesExactlyUpward | src/components/FeatureUnlockNotification.tsx:19-38 | A notification is produced exactly for upward transitions. |
| FeatureUnlock.OnMode | src/components/FeatureUnlockNotification.tsx:14-49 | The remembered mode becomes the current one. No change means nothing happens. A change schedules the clear at +5000, and a downward change keeps the old notification. |
| FeatureUnlock.OnTimer | src/components/FeatureUnlockNotification.tsx:44-46 | A due clear removes the notification and the timer; otherwise nothing changes. |
| FeatureUnlock.ClearedAfterDelay | src/components/FeatureUnlockNotification.tsx:44-47 | 5000 ms after a change the notification is gone, and before then the timer does nothing. |
| FeatureUnlock.LaterChangeRestartsTimer | src/components/FeatureUnlockNotification.tsx:47 | A second change cancels the first timer: the second notification is still shown when the first timer would have fired. |
| FeatureUnlock.UnlockNotifier.constructor | src/components/FeatureUnlockNotification.tsx:11-12 | The current mode remembered, no notification, no timer. |
| FeatureUnlock.UnlockNotifier.Evaluate | src/components/FeatureUnlockNotification.tsx:14-49 | The state becomes `OnMode` of the current mode. |
| FeatureUnlock.UnlockNotifier.FireTimer | src/components/FeatureUnlockNotification.tsx:44-46 | The state becomes `OnTimer`. |
| FeatureUnlock.UnlockNotifier.Close | src/components/FeatureUnlockNotification.tsx:67-69 | The close button clears the notification and leaves the pending clear scheduled. |
| AdaptiveLayout.ShowSidebar | src/components/AdaptiveLayout.tsx:26 | The sidebar shows on desktop outside PANIC. |
| AdaptiveLayout.ShowManualCatchUp | src/components/AdaptiveLayout.tsx:42 | The layout's `showManualCatchUp` condition. The layout computes it but renders nothing with it. `AdaptiveLayout.CatchUpOfferVersusProposal` relates it to the proposal rule, and `HomePage.FocusButtonMatchesLayout` to the page's button. |
| AdaptiveLayout.ShowsCalendarNav | src/components/AdaptiveLayout.tsx:63 | The calendar link shows from INTERMEDIATE up. `AdaptiveLayout.NavigationNested` relates it to the dashboard link. |
| AdaptiveLayout.ShowsDashboardNav | src/components/AdaptiveLayout.tsx:67 | The dashboard link shows in EXPERIENCED only. |
| AdaptiveLayout.ShowsFocusHeader | src/components/AdaptiveLayout.tsx:87 | The focus header, with its Exit button, shows exactly in PANIC. |
| AdaptiveLayout.CatchUpOfferVersusProposal | src/components/AdaptiveLayout.tsx:42 | Whenever the rule would propose, the layout's `showManualCatchUp` condition holds. Beyond that it holds exactly while the dismissal memory holds the proposal back. The layout renders nothing with it; the offer the user sees is the home page's button (src/app/page.tsx:21), whose condition `HomePage.FocusButtonMatchesLayout` proves equal. |
| AdaptiveLayout.OfferCountsIncomplete | src/components/AdaptiveLayout.tsx:38-42 | The offer's workload is the number of incomplete tasks. |
| AdaptiveLayout.NavigationNested | src/components/AdaptiveLayout.tsx:63-67 | The dashboard link never shows without the calendar link. |
| AdaptiveLayout.ExitFocus | src/components/AdaptiveLayout.tsx:98 | The load becomes LOW; the proposal state and everything else stay. |
| AdaptiveLayout.FabTask | src/components/AdaptiveLayout.tsx:116-123 | The blank task has id "", an empty title, MEDIUM priority, effort 15, and is not completed. |
| AdaptiveLayout.OpenFabEditor | src/components/AdaptiveLayout.tsx:116-123 | The dialog opens on the blank task, with its fields as the form's starting values. |
| AdaptiveLayout.FabSaveAddsNothing | src/components/AdaptiveLayout.tsx:116-123 | Saving the blank task takes the update path and matches nothing. No task is added; the list is only re-sorted. |
| TaskEditModal.InitialForm | src/components/TaskEditModal.tsx:19-25 | The form starts from the task's fields, with defaults "", "", LOW, 15 and no date. An empty category becomes "", an effort of 0 becomes 15, and a date shows exactly when the task has one. |
| TaskEditModal.SavedDue | src/components/TaskEditModal.tsx:34 | A chosen day saves as the start of that day; no day saves as no due date. |
| TaskEditModal.PatchOf | src/components/TaskEditModal.tsx:29-35 | The update carries exactly the form's five fields. |
| TaskEditModal.NewDraft | src/components/TaskEditModal.tsx:37-44 | A new task is never untitled ("New Task" replaces "") and never completed, and carries the form's other fields. |
| TaskEditModal.SaveUnchangedRestores | src/components/TaskEditModal.tsx:19-35 | Opening a categorised task with non-zero effort and a day-start due date and saving it unchanged gives the task back. |
| TaskEditModal.UncategorisedGainsEmptyCategory | src/components/TaskEditModal.tsx:20-31 | Saving an uncategorised task unchanged gives it the empty category. |
| TaskEditModal.UpdateStoresForm | src/components/TaskEditModal.tsx:29-35 | After the update, the edited task with the form's fields is in the list, an empty title included. |
| TaskEditModal.BeginnerNewTask | src/components/TaskEditModal.tsx:36-45 | In BEGINNER mode only the title is editable, so a new task gets the default category, priority and effort and no date. |
| TaskEditModal.ShowsDateAndCategory | src/components/TaskEditModal.tsx:82 | The date and category inputs show from INTERMEDIATE up. Their setters require it. |
| TaskEditModal.ShowsPriorityAndEffort | src/components/TaskEditModal.tsx:111 | The priority and effort inputs show in EXPERIENCED only. Their setters require it. |
| TaskEditModal.TaskEditor.constructor | src/components/TaskEditModal.tsx:19-25 | The dialog opens with the initial form. |
| TaskEditModal.TaskEditor.SetTitle | src/components/TaskEditModal.tsx:76 | Only the title field changes. |
| TaskEditModal.TaskEditor.SetDueDate | src/components/TaskEditModal.tsx:82-91 | Only the date field changes, and only from INTERMEDIATE up. |
| TaskEditModal.TaskEditor.SetCategory | src/components/TaskEditModal.tsx:82-102 | Only the category field changes, and only from INTERMEDIATE up. |
| TaskEditModal.TaskEditor.SetPriority | src/components/TaskEditModal.tsx:111-119 | Only the priority changes, and only in EXPERIENCED mode. |
| TaskEditModal.TaskEditor.SetEffort | src/components/TaskEditModal.tsx:111-134 | Only the effort changes, and only in EXPERIENCED mode. |
| TaskEditModal.TaskEditor.Save | src/components/TaskEditModal.tsx:27-47 | With a task, only `updateTask` with the form's patch; without one, only `addTask` with the new draft; then the dialog closes. |
| TimelineView.DueCompare | src/components/TimelineView.tsx:11-15 | The timeline comparator. It is stated by `TimelineView.DueCompareAgreesWithKey` where a task is dated and by `TimelineView.DueCompareUndatedInconsistent` where neither is. |
| TimelineView.DueCompareAgreesWithKey | src/components/TimelineView.tsx:11-15 | Wherever one task is dated, the comparator orders as the due key does. |
| TimelineView.DueCompareUndatedInconsistent | src/components/TimelineView.tsx:12 | For two undated tasks the comparator calls each greater than the other. |
| TimelineView.Timeline | src/components/TimelineView.tsx:11-15 | A permutation in which every dated task precedes every undated one and dated tasks ascend by due time. |
| TimelineView.TimelineStable | src/components/TimelineView.tsx:11-15 | Undated tasks, and tasks due at the same instant, keep their input order. |
| TimelineView.ShowHeader | src/components/TimelineView.tsx:31 | The header rule: the first row, and each row whose due day differs from the previous row's. Its consequences are stated by `TimelineView.AtMostOneNoDateHeader` and `TimelineView.OneHeaderPerDay`. |
| TimelineView.HeaderOf | src/components/TimelineView.tsx:33 | The header is "No Date" exactly for an undated task; otherwise it names the normalised due day, the same day the header rule compares. |
| TimelineView.SameHeaderIffSameDay | src/components/TimelineView.tsx:31-33 | Two rows read the same header exactly when the header rule sees the same due day. |
| TimelineView.AtMostOneNoDateHeader | src/components/TimelineView.tsx:31-33 | Only the first undated row carries a header. |
| TimelineView.MillisOrdersDays | src/components/TimelineView.tsx:14 | With valid times of day, due-time order implies calendar-day order. |
| TimelineView.OneHeaderPerDay | src/components/TimelineView.tsx:31 | A dated row that shares its day with an earlier row gets no header. |
| CommandPalette.Matches | src/components/CommandPalette.tsx:28 | The title, lower-cased, contains the lower-cased query. `CommandPalette.CaseInsensitive` proves that the case of the query does not matter. |
| CommandPalette.FilteredTasks | src/components/CommandPalette.tsx:27-29 | A task is listed exactly when its lower-cased title contains the lower-cased query. |
| CommandPalette.FilteredInOrder | src/components/CommandPalette.tsx:27 | The listed tasks sit at strictly increasing positions of the list. |
| CommandPalette.EmptyQueryListsAll | src/components/CommandPalette.tsx:27-29 | An empty query lists every task, in order. |
| CommandPalette.CaseInsensitive | src/components/CommandPalette.tsx:28 | Queries equal up to case list the same tasks. |
| CommandPalette.LowerQuerySameResult | src/components/CommandPalette.tsx:28 | Lower-casing the query changes nothing. |
| CommandPalette.Palette.constructor | src/components/CommandPalette.tsx:16 | The query starts empty. |
| CommandPalette.Palette.SetQuery | src/components/CommandPalette.tsx:50 | The query becomes the typed text. |
| CommandPalette.Palette.Evaluate | src/components/CommandPalette.tsx:19-25 | Closing clears the query, and opening keeps it. |
| CommandPalette.Palette.Select | src/components/CommandPalette.tsx:69-78 | Choosing a listed task toggles exactly that id in the session. |
| CalendarPage.Days | src/app/calendar/page.tsx:18 | Day 0 of the next month is day n of this one, with n in 28..31. |
| CalendarPage.FirstDay | src/app/calendar/page.tsx:19 | The weekday of the 1st, in 0..6. |
| CalendarPage.Grid | src/app/calendar/page.tsx:23-25 | `firstDay` blanks, then day d at position firstDay + d - 1. |
| CalendarPage.GridColumnIsWeekday | src/app/calendar/page.tsx:19-25 | In seven columns, every day lands in its own weekday's column. |
| CalendarPage.Normalised | src/app/calendar/page.tsx:28-32 | The 1st of an out-of-range month is a valid date on the same day. |
| CalendarPage.NextMonth | src/app/calendar/page.tsx:27-29 | A valid 1st, on the same day as `new Date(y, m + 1, 1)`. |
| CalendarPage.PrevMonth | src/app/calendar/page.tsx:31-33 | A valid 1st, on the same day as `new Date(y, m - 1, 1)`. |
| CalendarPage.NextMonthIsAdjacent | src/app/calendar/page.tsx:27-29 | The next month starts exactly one month length after this one. |
| CalendarPage.PrevAfterNext | src/app/calendar/page.tsx:27-33 | Back after forward returns to the 1st of the original month. |
| CalendarPage.NextAfterPrev | src/app/calendar/page.tsx:27-33 | Forward after back returns to the 1st of the original month. |
| CalendarPage.DueOn | src/app/calendar/page.tsx:36-44 | A task is due on a day when it is dated and its due instant falls on that calendar day. `Dates.SameDayIffSameDate` ties this to the source's year, month and day comparison. |
| CalendarPage.SelectedTasks | src/app/calendar/page.tsx:36-44 | A task is listed exactly when it is dated and due on the selected day. |
| CalendarPage.HasTasks | src/app/calendar/page.tsx:82-86 | Some task is due on that day of the displayed month. `CalendarPage.MarkerMatchesList` proves that it holds exactly when selecting the day would list a task. |
| CalendarPage.IsSelected | src/app/calendar/page.tsx:77-80 | The grid day is the selected date. |
| CalendarPage.ShowsMarker | src/app/calendar/page.tsx:100 | A day shows the task marker when it has tasks and is not the selected day. |
| CalendarPage.MarkerMatchesList | src/app/calendar/page.tsx:82-86 | A day has tasks exactly when selecting it would list some task. |
| CalendarPage.UndatedNeverListed | src/app/calendar/page.tsx:37 | An undated task is never listed. |
| CalendarPage.CalendarView.constructor | src/app/calendar/page.tsx:11-12 | Both dates start at today. |
| CalendarPage.CalendarView.Next | src/app/calendar/page.tsx:27-29 | The displayed month moves forward; the selection stays. |
| CalendarPage.CalendarView.Prev | src/app/calendar/page.tsx:31-33 | The displayed month moves back; the selection stays. |
| CalendarPage.CalendarView.Select | src/app/calendar/page.tsx:91 | The selection becomes that day of the displayed month. |
| PomodoroTimer.Settle | src/components/PomodoroTimer.tsx:15-17 | The time is kept, and the timer stays active only with time left. |
| PomodoroTimer.Tick | src/components/PomodoroTimer.tsx:11-19 | A running timer loses one second and stays active only above zero. A stopped one is only settled. The time stays in [0, 1500]. |
| PomodoroTimer.PlayPause | src/components/PomodoroTimer.tsx:36 | The time is kept; the flag flips, except that a timer at zero stays stopped. |
| PomodoroTimer.Countdown | src/components/PomodoroTimer.tsx:11-19 | From s > 0 and active, n seconds leave s - n running while n < s, and zero and stopped from then on. |
| PomodoroTimer.StoppedStaysPut | src/components/PomodoroTimer.tsx:13 | A stopped timer never changes. |
| PomodoroTimer.FullSession | src/components/PomodoroTimer.tsx:8-19 | Started from 25:00, it still runs after 1499 s and is stopped at zero after 1500 s. |
| PomodoroTimer.PauseResume | src/components/PomodoroTimer.tsx:36 | Pausing and resuming with time left changes nothing. |
| PomodoroTimer.Decimal | src/components/PomodoroTimer.tsx:24 | `String(n)` is digits only, with two or more exactly from 10 up, and no leading zero. |
| PomodoroTimer.DecimalValue | src/components/PomodoroTimer.tsx:24 | The digits read back give n. |
| PomodoroTimer.LeadingZero | src/components/PomodoroTimer.tsx:24 | A padding zero does not change the value. |
| PomodoroTimer.Pad2 | src/components/PomodoroTimer.tsx:24 | One digit gains a leading "0"; two or more are kept. |
| PomodoroTimer.FormatTime | src/components/PomodoroTimer.tsx:21-25 | Digits, a colon, then exactly two digits. The digits before the colon read as the whole minutes and the two after it as the remaining seconds, below 60. |
| PomodoroTimer.FormatTimeRoundTrip | src/components/PomodoroTimer.tsx:21-25 | Reading the display back gives the seconds, as 60 × minutes + seconds. |
| PomodoroTimer.FormatTimeInjective | src/components/PomodoroTimer.tsx:21-25 | Different second counts never show the same text. |
| PomodoroTimer.FormatExamples | src/components/PomodoroTimer.tsx:8-25 | 1500 s shows "25:00" and 5 s shows "0:05". |
| PomodoroTimer.Timer.constructor | src/components/PomodoroTimer.tsx:8-9 | 1500 s and inactive. |
| PomodoroTimer.Timer.Second | src/components/PomodoroTimer.tsx:11-19 | One second of the interval and the effect: the state becomes `Tick` of the old one. |
| PomodoroTimer.Timer.Toggle | src/components/PomodoroTimer.tsx:36 | The state becomes `PlayPause` of the old one. |
| PomodoroTimer.Timer.Reset | src/components/PomodoroTimer.tsx:47 | Inactive with 1500 s. |
| HomePage.ShowManualFocus | src/app/page.tsx:21 | The page's focus button condition, which counts incomplete tasks. `HomePage.FocusButtonMatchesLayout` proves that it agrees with the layout's condition. |
| HomePage.FocusButtonMatchesLayout | src/app/page.tsx:21 | The page's focus button shows exactly when the layout's catch-up offer does. |
| HomePage.ShowsViewSwitcher | src/app/page.tsx:35 | The view switcher shows in EXPERIENCED only. Below that, `HomePage.Home.SelectView` leaves the view unchanged. |
| HomePage.PanelOf | src/app/page.tsx:58-60 | Each view renders its own panel and no other. |
| HomePage.Home.constructor | src/app/page.tsx:14 | The view starts as LIST. |
| HomePage.Home.SelectView | src/app/page.tsx:35-54 | In EXPERIENCED mode the view becomes the chosen one; below it there is no switcher and the view stays. |
| HomePage.Home.EnterFocus | src/app/page.tsx:21-24 | While the button shows, pressing it sets the load to PANIC. Otherwise nothing changes. |

## Left out

- The theme and time-of-day effect, with its hourly checks and 60-second
  interval, is clock-driven styling. So are the theme suggestion, the
  onboarding dialog, the settings and dashboard pages, `TaskItem`,
  `layout.tsx` and the simulation panel. The panel's score buttons appear
  only as `Session.SetMasteryScore`, with a 0..100 precondition.
- `userName`, `hasSeenOnboarding`, `themeMode`, `timeOfDay`, `editingTask`
  and `setMetrics` are not state of the model. `resetSimulation`'s writes
  to them are left out.
- Random ids and `Date.now()`/`new Date()` are parameters (`freshId`, the
  four overload suffixes, `now`, `today`, `createdAt`).
  - Session.AddTask: does not require the new id to be unused. Uniqueness
    of ids is not a session invariant.
  - The lemmas that need unique ids take `Types.UniqueIds` as a
    precondition.
- Time zones, daylight-saving time and `toISOString`. An instant is a
  local calendar day plus milliseconds into it.
  - TaskEditModal.InitialForm: the date shown is the due instant's local
    day, not the UTC day `toISOString` would give.
  - Times of day are not required to lie within one day, except where
    `TimelineView.ValidTimes` says so.
- TaskEditModal.TaskEditor.SetEffort: `parseInt` can produce NaN. The
  model takes an integer.
- JsString.LowerChar: lower-cases ASCII letters only, not all of Unicode.
- React Strict Mode can call the `setTasks` updater twice, with its
  score and metric side effects. The model applies each update once.
- Real timers and intervals are pending due times, fired by explicit
  methods. `clearTimeout` on a second mode change restarts the notifier's
  timer, and the model does the same.
- The confetti animation loop and all rendering are left out.
- Session.UpdateTask: takes the five fields the task dialog passes (title,
  category, priority, effort, due date), not an arbitrary `Partial<Task>`.
  No other caller passes anything else.
- AdaptiveLayout.FabTask: its `createdAt` is a parameter standing for
  `new Date()`. The draft's `completed: false` is modelled; the other
  omitted fields are absent.
- TaskStore.SortTasks: the `|| 1` fallback for an unknown priority cannot
  arise, since a priority is one of three values.
- TimelineView.Timeline: the engine's order for two undated tasks is not
  determined by the inconsistent comparator. The model keeps their input
  order.
- PomodoroTimer.FormatTime: takes a natural number, since the countdown
  never goes below zero (`PomodoroTimer.Tick`).
