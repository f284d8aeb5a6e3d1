# Task manager mini-app: a verified model of its logic

This project models the logic of a small task-manager mini-app. The app has seven parts:

- An in-memory task store (`taskApi`). It fetches, updates and creates tasks. The calendar screen also calls a read, a toggle and a delete that `taskApi.ts` does not define; the model adds them as the evident operations on the same store.
- The task list screen. A reducer drives it with optimistic completion toggles that are rolled back when the store refuses them.
- An edit/create form with validation.
- A month calendar with a 42-cell, Monday-first grid, and a calendar screen that lists the tasks due on the selected day.
- A week strip with a due-date editor.
- A statistics panel: tasks created within a period, a completion percentage, and the weekday with the most completed tasks.
- An application shell that switches between the list and the form and bumps a refresh counter after every save.

The model is organised as follows:

- **Shared modules.** `Wrappers` provides `Option`/`Result`. `Seqs` holds `map`, `filter`, `some` and `findIndex` with their laws. `Dates` holds proleptic Gregorian dates, day numbers, weekdays, `setDate`-style day stepping and time stamps. `Text` holds ECMAScript `trim`. `Types` holds the task records and `Object.assign` on them.
- **Pure functions.** Reducers, predicates and payload builders are functions with named results and lemmas.
- **Classes.** The parts that change state in place are classes whose methods carry `modifies` clauses:
  - the store's array: `TaskApi.TaskStore`;
  - each screen's state: `TaskListScreen.Screen`, `CalendarScreen.Screen`, `CreateForm.CreateTaskForm` and `App.AppShell`.
- **Loop methods.** The three counting loops of the calendar grid, the nine-week loop and the per-weekday counting dictionary are methods with loops. Each is proved against a specification function or predicate.
- **Dates are local.** A `Moment` is a valid date plus milliseconds since local midnight. `Stamp` orders moments as `getTime()` does within one time zone.
- **External inputs are parameters.** The store's random failures are `ok` flags. The clock is a `now` parameter. The id that `create` takes from `Date.now()` is a parameter.

## Model

| member | source | states |
|---|---|---|
| Seqs.Filter | max-messenger-miniapp/src/screens/CalendarScreen/CalendarScreen.tsx:36-40 | `Array.prototype.filter`: the result keeps only passing elements, is a subsequence of the input (order kept) and is no longer than it |
| Seqs.FilterKeeps | max-messenger-miniapp/src/components/organisms/Statistics/Statistics.tsx:33-36 | every passing element survives the filter |
| Seqs.FilterEmptyIff | max-messenger-miniapp/src/components/organisms/Calendar/Calendar.tsx:62-66 | a filter is non-empty exactly when `some` element passes |
| Seqs.FindIndex | max-messenger-miniapp/src/api/taskApi.ts:22 | `find`: -1 exactly when no element passes, otherwise the first passing index |
| Seqs.Map | max-messenger-miniapp/src/screens/TaskListScreen/TaskListScreen.tsx:57-59 | `Array.prototype.map`: same length, each element transformed at its own position |
| Dates.DaysInMonth | max-messenger-miniapp/src/components/organisms/Calendar/Calendar.tsx:24-25 | month lengths are 28..31, and 29 exactly for February of a Gregorian leap year |
| Dates.MondayOffset | max-messenger-miniapp/src/screens/CalendarScreen/TaskForm.tsx:25 | `(getDay() + 6) % 7` lies in 0..6 and equals the day number modulo 7 (day 0, 0001-01-01, is a Monday) |
| Dates.PrevDay | max-messenger-miniapp/src/screens/CalendarScreen/TaskForm.tsx:33 | stepping one day back is undone by stepping one day forward, across month and year ends |
| Dates.DayNumberAddDays | max-messenger-miniapp/src/screens/CalendarScreen/TaskForm.tsx:31-35 | `setDate(getDate() + n)` moves the day number by exactly n |
| Dates.AddDaysAdditive | max-messenger-miniapp/src/screens/CalendarScreen/TaskForm.tsx:31-35 | adding a then b days equals adding a + b days |
| Dates.AddDaysRoundTrip | max-messenger-miniapp/src/screens/CalendarScreen/TaskForm.tsx:31-35 | adding n days and then -n days returns the original date |
| Dates.MondayOffsetAddDays | max-messenger-miniapp/src/screens/CalendarScreen/TaskForm.tsx:25-26 | after adding n days the Monday-based weekday advances by n modulo 7 |
| Types.Merge | max-messenger-miniapp/src/api/taskApi.ts:23 | `Object.assign`: the id and every property present in the patch come from the patch; absent properties keep the stored values |
| Types.MergeIdempotent | max-messenger-miniapp/src/api/taskApi.ts:23 | assigning the same patch twice is assigning it once |
| Types.MergeCompletion | max-messenger-miniapp/src/api/taskApi.ts:23 | `Object.assign` with `{ id, isCompleted }` changes the completion flag and nothing else |
| Types.MergeFull | max-messenger-miniapp/src/api/taskApi.ts:23 | assigning a whole task over the stored one with the same id yields that task; optional properties it lacks keep the stored values |
| TaskApi.SeedTasks | max-messenger-miniapp/src/api/taskApi.ts:5-10 | four seed tasks with distinct ids; the seeded due dates are the loading moment |
| TaskApi.Updated | max-messenger-miniapp/src/api/taskApi.ts:22-24 | a successful update replaces the first task with the id by the merged one; length and every other task are unchanged |
| TaskApi.Without | max-messenger-miniapp/src/screens/CalendarScreen/CalendarScreen.tsx:26-29 | no remaining task has the id, every task with another id is kept, in the original order |
| TaskApi.WithoutRemovesOne | max-messenger-miniapp/src/screens/CalendarScreen/CalendarScreen.tsx:26-29 | with unique ids, deleting a stored id removes exactly that one task and keeps the order of the rest |
| TaskApi.TaskStore.constructor | max-messenger-miniapp/src/api/taskApi.ts:5-10 | the store starts with the four seed tasks |
| TaskApi.TaskStore.Fetch | max-messenger-miniapp/src/api/taskApi.ts:13-16 | success returns the whole store; failure rejects with the network error message |
| TaskApi.TaskStore.Update | max-messenger-miniapp/src/api/taskApi.ts:18-29 | success merges the patch into the stored task and returns it; failure rejects with the update message and leaves the store unchanged |
| TaskApi.TaskStore.Create | max-messenger-miniapp/src/api/taskApi.ts:31-43 | a new uncompleted, medium-priority task with the given id and text is prepended |
| TaskApi.TaskStore.GetTasks | max-messenger-miniapp/src/screens/CalendarScreen/CalendarScreen.tsx:17 | reads the current store |
| TaskApi.TaskStore.ToggleTaskStatus | max-messenger-miniapp/src/screens/CalendarScreen/CalendarScreen.tsx:22 | flips the completion of the first task with the id and returns it; an unknown id changes nothing |
| TaskApi.TaskStore.DeleteTask | max-messenger-miniapp/src/screens/CalendarScreen/CalendarScreen.tsx:27 | the store keeps exactly the tasks with other ids, in order; reports whether the id was present |
| TaskListScreen.Reduce | max-messenger-miniapp/src/screens/TaskListScreen/TaskListScreen.tsx:46-74 | only FETCH_SUCCESS changes which tasks are listed or their order, and it installs its payload; only a revert or a dismissal changes the notification |
| TaskListScreen.FetchStartKeepsData | max-messenger-miniapp/src/screens/TaskListScreen/TaskListScreen.tsx:48-49 | FETCH_START sets loading and clears the error; tasks and notification are unchanged |
| TaskListScreen.RepeatedLoadReplaces | max-messenger-miniapp/src/screens/TaskListScreen/TaskListScreen.tsx:50-51 | FETCH_SUCCESS replaces the tasks with the payload; loading the same payload twice, in either interleaving, leaves exactly the payload |
| TaskListScreen.FetchErrorKeepsTasks | max-messenger-miniapp/src/screens/TaskListScreen/TaskListScreen.tsx:52-53 | FETCH_ERROR sets the error status and records the error; the held tasks are kept |
| TaskListScreen.OnlyFetchChangesStatus | max-messenger-miniapp/src/screens/TaskListScreen/TaskListScreen.tsx:46-74 | only the three fetch actions change status or error |
| TaskListScreen.OptimisticUpdateOnlyCompletion | max-messenger-miniapp/src/screens/TaskListScreen/TaskListScreen.tsx:54-60 | length and order are kept; matching tasks get the new completion flag and nothing else; other tasks are untouched |
| TaskListScreen.RevertNeverInserts | max-messenger-miniapp/src/screens/TaskListScreen/TaskListScreen.tsx:61-68 | matching tasks become the snapshot, others are untouched, the notification carries the error message, and with no matching task the list is unchanged |
| TaskListScreen.RevertUndoesOptimistic | max-messenger-miniapp/src/screens/TaskListScreen/TaskListScreen.tsx:96-103 | an optimistic toggle followed by a revert to the snapshot restores the original list |
| TaskListScreen.UniqueSnapshot | max-messenger-miniapp/src/screens/TaskListScreen/TaskListScreen.tsx:97 | with unique ids, the snapshot of a listed task is the only task carrying its id |
| TaskListScreen.ToggleTwiceRestores | max-messenger-miniapp/src/screens/TaskListScreen/TaskListScreen.tsx:54-60 | toggling a task away from its completion state and back restores the state |
| TaskListScreen.DismissClearsOnlyNotification | max-messenger-miniapp/src/screens/TaskListScreen/TaskListScreen.tsx:69-70 | DISMISS_NOTIFICATION clears the notification and nothing else |
| TaskListScreen.Screen.constructor | max-messenger-miniapp/src/screens/TaskListScreen/TaskListScreen.tsx:39-44 | the screen starts idle with no tasks, error or notification |
| TaskListScreen.Screen.LoadTasks | max-messenger-miniapp/src/screens/TaskListScreen/TaskListScreen.tsx:81-86 | dispatches FETCH_START and then FETCH_SUCCESS with the store's tasks, or FETCH_ERROR with the network error |
| TaskListScreen.Screen.OnStatusChange | max-messenger-miniapp/src/screens/TaskListScreen/TaskListScreen.tsx:88-92 | while idle the screen runs the whole load: FETCH_START then FETCH_SUCCESS with the store's tasks or FETCH_ERROR with the network error; in any other status nothing changes |
| TaskListScreen.Screen.ToggleComplete | max-messenger-miniapp/src/screens/TaskListScreen/TaskListScreen.tsx:96-104 | optimistic update first; on success the store holds the new flag; on failure the store is unchanged, the snapshot is restored and the list equals the original |
| Text.TrimStart | max-messenger-miniapp/src/components/organisms/TaskFormOrganism/TaskFormOrganism.tsx:45 | no whitespace at the front of the result, and everything dropped before it was whitespace |
| Text.TrimStartIsSuffix | max-messenger-miniapp/src/components/organisms/TaskFormOrganism/TaskFormOrganism.tsx:45 | what the leading trim keeps is a suffix of the input |
| Text.TrimEnd | max-messenger-miniapp/src/components/organisms/TaskFormOrganism/TaskFormOrganism.tsx:45 | no whitespace at the back of the result, and everything dropped after it was whitespace |
| Text.TrimEndIsPrefix | max-messenger-miniapp/src/components/organisms/TaskFormOrganism/TaskFormOrganism.tsx:45 | what the trailing trim keeps is a prefix of the input |
| Text.Trim | max-messenger-miniapp/src/organisms/TaskFormOrganism/TaskFormOrganism.tsx:52 | no whitespace at either end; empty exactly when the input is all whitespace |
| Text.TrimIsSlice | max-messenger-miniapp/src/components/organisms/TaskFormOrganism/TaskFormOrganism.tsx:45-46 | the trimmed text is a contiguous slice of the input with only white space before and after it |
| Text.TrimIdempotent | max-messenger-miniapp/src/components/organisms/TaskFormOrganism/TaskFormOrganism.tsx:45-46 | trimming twice is trimming once |
| TaskFormReducer.Validate | max-messenger-miniapp/src/organisms/TaskFormOrganism/TaskFormOrganism.tsx:50-56 | a title error exactly when the trimmed title is empty, with the fixed message |
| TaskFormReducer.Reduce | max-messenger-miniapp/src/organisms/TaskFormOrganism/TaskFormOrganism.tsx:59-89 | touched fields stay touched; any new title error is the required-title message; submitting starts only from a title that is not blank |
| TaskFormReducer.DescriptionNotValidated | max-messenger-miniapp/src/organisms/TaskFormOrganism/TaskFormOrganism.tsx:50-56 | the description never affects validation |
| TaskFormReducer.InitialState | max-messenger-miniapp/src/organisms/TaskFormOrganism/TaskFormOrganism.tsx:93-99 | empty text overridden by the initial data given; nothing touched, no errors, idle |
| TaskFormReducer.SetFieldValueChangesOneField | max-messenger-miniapp/src/organisms/TaskFormOrganism/TaskFormOrganism.tsx:62-66 | only the edited field's value changes; errors are revalidated only when the field was touched |
| TaskFormReducer.SetFieldTouchedIdempotent | max-messenger-miniapp/src/organisms/TaskFormOrganism/TaskFormOrganism.tsx:67-73 | touching a touched field changes nothing, so touching twice is touching once |
| TaskFormReducer.SetFieldTouchedOnlyAddsErrors | max-messenger-miniapp/src/organisms/TaskFormOrganism/TaskFormOrganism.tsx:67-73 | touching marks the field and keeps the values; a title error is never removed, and is added when the title is blank |
| TaskFormReducer.SubmitStartOutcomes | max-messenger-miniapp/src/organisms/TaskFormOrganism/TaskFormOrganism.tsx:74-81 | an invalid form gets its errors and all fields touched, with status unchanged; a valid one starts submitting with the submission error cleared |
| TaskFormReducer.SubmitEndOutcomes | max-messenger-miniapp/src/organisms/TaskFormOrganism/TaskFormOrganism.tsx:82-85 | success returns to idle; an error records its message |
| TaskFormReducer.OnlySetFieldValueChangesValues | max-messenger-miniapp/src/organisms/TaskFormOrganism/TaskFormOrganism.tsx:59-89 | no other action changes the values |
| TaskFormReducer.SubmittingImpliesValid | max-messenger-miniapp/src/organisms/TaskFormOrganism/TaskFormOrganism.tsx:74-81 | SUBMIT_START reaches submitting exactly when the trimmed title is non-empty |
| TaskFormReducer.HandleSubmit | max-messenger-miniapp/src/organisms/TaskFormOrganism/TaskFormOrganism.tsx:120-134 | the values reach `onSubmit` exactly when the title is not blank; success returns to idle; a failure records the thrown message, or the generic one when that is empty |
| Calendar.NextMonth | max-messenger-miniapp/src/components/organisms/Calendar/Calendar.tsx:88-95 | the month index grows by one, across year ends |
| Calendar.PrevMonth | max-messenger-miniapp/src/components/organisms/Calendar/Calendar.tsx:79-86 | the month index drops by one, across year ends |
| Calendar.MonthStepsInverse | max-messenger-miniapp/src/components/organisms/Calendar/Calendar.tsx:79-95 | previous and next month undo each other |
| Calendar.LeadingCount | max-messenger-miniapp/src/components/organisms/Calendar/Calendar.tsx:26 | the number of leading cells is 0..6 and is the first day's Monday-based weekday |
| Calendar.GetDaysInMonth | max-messenger-miniapp/src/components/organisms/Calendar/Calendar.tsx:20-57 | 42 cells: the previous month's tail, every day of the month flagged current, then the next month's head |
| Calendar.GridCurrentMonthExact | max-messenger-miniapp/src/components/organisms/Calendar/Calendar.tsx:40-45 | a cell is flagged current exactly when its date lies in the displayed month |
| Calendar.GridDayNumbers | max-messenger-miniapp/src/components/organisms/Calendar/Calendar.tsx:28-54 | cell k is the first of the month, shifted by k minus the leading count |
| Calendar.GridConsecutive | max-messenger-miniapp/src/components/organisms/Calendar/Calendar.tsx:28-54 | neighbouring cells are consecutive days |
| Calendar.GridColumnsAreWeekdays | max-messenger-miniapp/src/components/organisms/Calendar/Calendar.tsx:18 | column k mod 7 holds exactly the weekday labelled at its head, Monday first |
| Calendar.GridDatesDistinct | max-messenger-miniapp/src/components/organisms/Calendar/Calendar.tsx:69-77 | the cells are distinct days, so today and the selection mark at most one cell |
| Calendar.HasTasksOnDate | max-messenger-miniapp/src/components/organisms/Calendar/Calendar.tsx:61-67 | true exactly when some task is due on the day, at any time of day; tasks without a due date never count |
| Calendar.DayClick | max-messenger-miniapp/src/components/organisms/Calendar/Calendar.tsx:149 | a click selects the cell's date exactly when the cell is in the displayed month |
| Calendar.DotMeansClickableWithTasks | max-messenger-miniapp/src/components/organisms/Calendar/Calendar.tsx:152-154 | the dot is drawn exactly on in-month cells with a task due that day |
| CalendarScreen.TasksForSelectedDate | max-messenger-miniapp/src/screens/CalendarScreen/CalendarScreen.tsx:35-41 | only tasks due on the selected day, in the original order |
| CalendarScreen.SelectedDateKeepsDueTasks | max-messenger-miniapp/src/screens/CalendarScreen/CalendarScreen.tsx:35-41 | no task due on the selected day is dropped |
| CalendarScreen.SelectedDateAgreesWithCalendar | max-messenger-miniapp/src/screens/CalendarScreen/CalendarScreen.tsx:35-41 | the day's list is non-empty exactly when the calendar shows tasks on that day |
| CalendarScreen.Screen.constructor | max-messenger-miniapp/src/screens/CalendarScreen/CalendarScreen.tsx:9-10 | the list starts empty and the selected date is now; the mount effect then runs the load |
| CalendarScreen.Screen.LoadTasks | max-messenger-miniapp/src/screens/CalendarScreen/CalendarScreen.tsx:12-19 | the local list becomes the store's tasks |
| CalendarScreen.Screen.HandleToggleTask | max-messenger-miniapp/src/screens/CalendarScreen/CalendarScreen.tsx:21-24 | the store toggles the task, then the local list is a fresh read of the store |
| CalendarScreen.Screen.HandleDeleteTask | max-messenger-miniapp/src/screens/CalendarScreen/CalendarScreen.tsx:26-29 | the store drops the id, then the local list is a fresh read of the store |
| WeekStrip.StartOfWeek | max-messenger-miniapp/src/screens/CalendarScreen/TaskForm.tsx:23-29 | a Monday at midnight, at most six days before the given day |
| WeekStrip.StartOfWeekIdempotent | max-messenger-miniapp/src/screens/CalendarScreen/TaskForm.tsx:23-29 | the week start of a week start is itself |
| WeekStrip.AddDaysToAlgebra | max-messenger-miniapp/src/screens/CalendarScreen/TaskForm.tsx:31-35 | `addDays(addDays(d, n), -n) == d`, and `addDays` composes additively |
| WeekStrip.DueDayInInitialWeek | max-messenger-miniapp/src/screens/CalendarScreen/TaskForm.tsx:52 | the due day (or today) is shown in the initial week, under its own weekday |
| WeekStrip.Weeks | max-messenger-miniapp/src/screens/CalendarScreen/TaskForm.tsx:53-59 | nine week starts, entry k being (k - 4) weeks from the initial one |
| WeekStrip.WeeksSpacing | max-messenger-miniapp/src/screens/CalendarScreen/TaskForm.tsx:53-59 | the initial week is at index 4; entries are seven days apart; all are Mondays when the initial one is |
| WeekStrip.WeekBlock | max-messenger-miniapp/src/screens/CalendarScreen/TaskForm.tsx:109-110 | a block is the seven days from its week start |
| WeekStrip.WeekBlockLabels | max-messenger-miniapp/src/screens/CalendarScreen/TaskForm.tsx:43 | in a block from a Monday, day di is consecutive and has the weekday of label di |
| WeekStrip.SubmitUpdates | max-messenger-miniapp/src/screens/CalendarScreen/TaskForm.tsx:79-87 | exactly title, description and due date; no date gives no due date, a date without a time means 00:00 |
| Statistics.PeriodStart | max-messenger-miniapp/src/components/organisms/Statistics/Statistics.tsx:21-31 | week: now minus seven days; month: midnight of the first of the month; year: midnight of 1 January of the current year, which is no later than the month start |
| Statistics.FilteredTasks | max-messenger-miniapp/src/components/organisms/Statistics/Statistics.tsx:33-36 | only tasks created since the period start, in the original order |
| Statistics.FilteredKeepsRecent | max-messenger-miniapp/src/components/organisms/Statistics/Statistics.tsx:33-36 | every task created since the period start is kept |
| Statistics.YearCoversMonth | max-messenger-miniapp/src/components/organisms/Statistics/Statistics.tsx:25-30 | every task counted for the month is counted for the year |
| Statistics.CompletedTasks | max-messenger-miniapp/src/components/organisms/Statistics/Statistics.tsx:40 | completed tasks are a subsequence of the filtered ones, so there are no more of them |
| Statistics.CompletionPercentage | max-messenger-miniapp/src/components/organisms/Statistics/Statistics.tsx:41-43 | 0 with nothing counted; otherwise the nearest integer to 100·completed/total, halves up; always 0..100, and 100 when all are completed |
| Statistics.AllCompletedIsFull | max-messenger-miniapp/src/components/organisms/Statistics/Statistics.tsx:40-43 | when every task of the period is completed the percentage is 100 |
| Statistics.DayKeys | max-messenger-miniapp/src/components/organisms/Statistics/Statistics.tsx:48-54 | dictionary keys in insertion order: distinct, no more than the tasks, and present whenever there is a task |
| Statistics.DayKeysExactlyCounted | max-messenger-miniapp/src/components/organisms/Statistics/Statistics.tsx:48-54 | a weekday is a key exactly when some completed task falls on it |
| Statistics.CountPerDay | max-messenger-miniapp/src/components/organisms/Statistics/Statistics.tsx:48-52 | the loop's keys are the weekdays in first-seen order and its dictionary holds each one's count |
| Statistics.Busiest | max-messenger-miniapp/src/components/organisms/Statistics/Statistics.tsx:57 | the reduce picks a key whose count is at least every key's count |
| Statistics.MostProductive | max-messenger-miniapp/src/components/organisms/Statistics/Statistics.tsx:45-59 | no data exactly when nothing is completed; otherwise a weekday with the largest count, which is positive |
| Statistics.TieGoesToLater | max-messenger-miniapp/src/components/organisms/Statistics/Statistics.tsx:57 | every key after the reported one counts strictly fewer tasks |
| Statistics.BucketsSumToCompleted | max-messenger-miniapp/src/components/organisms/Statistics/Statistics.tsx:48-52 | the per-weekday counts sum to the number of completed tasks |
| Statistics.GetMostProductiveDay | max-messenger-miniapp/src/components/organisms/Statistics/Statistics.tsx:45-59 | the counting loop and the reduce compute the specified most productive day |
| CreateForm.SubmitPayload | max-messenger-miniapp/src/components/organisms/TaskFormOrganism/TaskFormOrganism.tsx:40-51 | no draft exactly when the title is blank; otherwise trimmed text, the chosen priority, status todo, and an empty due date as absent |
| CreateForm.PayloadIsStable | max-messenger-miniapp/src/components/organisms/TaskFormOrganism/TaskFormOrganism.tsx:42-46 | a submitted draft passes the guard again unchanged |
| CreateForm.CreateTaskForm.constructor | max-messenger-miniapp/src/components/organisms/TaskFormOrganism/TaskFormOrganism.tsx:15-19 | empty fields, medium priority, not closing |
| CreateForm.CreateTaskForm.SubmitDisabled | max-messenger-miniapp/src/components/organisms/TaskFormOrganism/TaskFormOrganism.tsx:169 | the button is disabled exactly when submitting would be refused |
| CreateForm.CreateTaskForm.ResetOnOpen | max-messenger-miniapp/src/components/organisms/TaskFormOrganism/TaskFormOrganism.tsx:22-30 | opening resets the fields to empty, the priority to medium and stops closing; closing changes nothing |
| CreateForm.CreateTaskForm.HandleClose | max-messenger-miniapp/src/components/organisms/TaskFormOrganism/TaskFormOrganism.tsx:32-33 | the closing animation starts, so the sheet stays drawn even once it is no longer open; the fields are kept |
| CreateForm.CreateTaskForm.FinishClose | max-messenger-miniapp/src/components/organisms/TaskFormOrganism/TaskFormOrganism.tsx:34-37 | the animation ends, so a sheet that is not open is no longer drawn; the fields are kept |
| CreateForm.CreateTaskForm.HandleSubmit | max-messenger-miniapp/src/components/organisms/TaskFormOrganism/TaskFormOrganism.tsx:40-53 | hands over the specified payload and starts closing exactly when it submits; the fields are kept |
| App.Edited | max-messenger-miniapp/src/App.tsx:32 | the spread keeps the task's id and every other property and takes title and description from the form |
| App.SaveEditApplies | max-messenger-miniapp/src/App.tsx:31-32 | after the update, the stored task has the form's text under the same id, with its completion and priority kept |
| App.AppShell.constructor | max-messenger-miniapp/src/App.tsx:17-18 | the list is shown and the refresh key is 0 |
| App.AppShell.HandleShowForm | max-messenger-miniapp/src/App.tsx:20-22 | the form is shown for the given task or a new one |
| App.AppShell.HandleCloseForm | max-messenger-miniapp/src/App.tsx:24-26 | the list is shown again; the refresh key is kept |
| App.AppShell.HandleSubmitForm | max-messenger-miniapp/src/App.tsx:28-39 | outside the form nothing happens; edits update the store and new tasks are prepended; on success the list is shown and the refresh key grows by one; a failed update changes nothing and is passed back to the form |

## Left out

- Rendering, styling, focus effects, scroll centring of the week strip, CSS transitions and the delays of the transition, close and store timers are not modelled. They are presentation and timing.
- Asynchrony is not modelled. Each dispatch and each completed request is one atomic step, so interleavings of overlapping requests are not modelled.
- `Math.random` failure injection is replaced by an explicit `ok` flag, and `Date.now()` by parameters.
- JavaScript `Date` is not modelled: time zones, UTC versus local conversion (`toISOString` next to `toTimeString`), and month overflow of `new Date(y, m ± 1, d)`. Dates are valid local calendar days; months are 1-based.
- Floating point is not modelled. The percentage is exact round-half-up of the rational `100·completed/total`. The progress ring's circumference and its animation are not modelled.
- Locale formatting is not modelled (`toLocaleDateString`, the capitalised weekday name and the "(count)" text). The statistics buckets are keyed by weekday number, one per weekday name, and keep the name dictionary's insertion order.
- The date and time inputs are modelled as an optional date and an optional minute count. Their text formats are not modelled.
- TaskApi.TaskStore.Update: on success it requires the id to be stored. In the original code a missing id makes the non-null `find` result fail inside the timer, so the promise never settles; the model does not capture that hang.
- TaskListScreen.Screen.ToggleComplete and App.AppShell.HandleSubmitForm: these inherit that requirement on a successful update.
- The store hands out its own task objects (`[...mockTasks]` copies the array, not the tasks), so a later update is visible through earlier reads. The model works on values and does not capture that aliasing.
- `getTasks`, `toggleTaskStatus` and `deleteTask`, which the calendar screen calls, are absent from `taskApi.ts`. They are modelled as the evident read, completion flip and filter over the same store.
- `status` and `createdAt`, which the statistics panel and the creation form use, are absent from the declared task type. They are carried by a second record, `PlannerTask`.
- The week strip's `onDateChange` calls an undeclared `setWeekStart`, so it is not modelled. Nor are the date, title and description setters, beyond the submitted values.
- The list screen's `handleDelete` is an empty stub and `handleTaskClick` only forwards the task, so there is nothing to model. App.tsx renders the list screen without the props it declares; only the view switch and the refresh counter are modelled.
- The task item, the statistics screen, the entry point, the build configuration and `utils/date.ts` are not part of this model.
