# Journey tracker: statistics, completion toggle, day navigation, task setup

This project is a Dafny model of the logic inside a habit-tracking web app. A user sets up a
*journey* that lasts a fixed number of days and has a fixed list of daily tasks. On each
day the user marks every task completed or failed. A statistics panel then summarises
the days.

The model covers four components:

- **Statistics panel** (`ProgressStats`, `components/ProgressStats.tsx`). Completion
  records are grouped by date and then by task; for each (date, task) pair the last
  record wins. The elapsed day count is the day difference plus one, capped by the
  duration. Each elapsed day that has records gets one status entry, complete and/or
  failed. The entries are counted, and a rounded percentage and two streaks are derived
  from them.
- **Daily tracker** (`DailyTracker`, `components/DailyTracker.tsx`). Holds a map from task
  id to that day's record. Clicking a status drives a three-state cell (absent, completed,
  failed): the same status clears the cell, the other status switches it, and a click on
  an empty cell inserts a record.
- **Dashboard navigation** (`Dashboard`, `src/components/Dashboard.tsx`). The selected
  date moves only inside the journey's days and never past today. The module also gives
  the day number and the back/forward button predicates.
- **Journey setup** (`JourneySetup`, `src/components/JourneySetup.tsx`). Adds trimmed
  tasks, removes a task by index, rejects an empty list, and inserts the journey and then
  one task row per list entry with `order_index` equal to its position.

Dates are integer day numbers, counted in UTC. Where the source compares a date with
`new Date()`, the current moment is a `Calendar.Instant`: a day plus the milliseconds
since that day's midnight. Lemmas in `Calendar` show that the source's
`getTime`/`floor` arithmetic on such values reduces to day arithmetic.

Component state becomes a class whose methods update its fields:
`ProgressStatsView.stats`, `Tracker.completions`, `DashboardView.selectedDate` and the
fields of `JourneySetupForm`. Each method is proved against a pure function of the old
state and the inputs. The properties are proved as lemmas about those functions. Calls
to the data store are replaced by their answers, which the methods take as parameters:
`Option` rows, a generated id, or a failure.

The model follows the code in three places that may surprise a reader:

- An elapsed day with no records gets no status entry (`components/ProgressStats.tsx:71`).
  So it neither breaks nor extends a streak. It still counts in the completion-rate
  denominator.
- `daysElapsed` is capped by the duration but not clamped at 0
  (`components/ProgressStats.tsx:58-61`). It is 0 on the day before the start and
  negative on earlier days (`ProgressStats.DaysElapsedBeforeStart`).
- `currentStreak` is 1 or 0 (see Findings). In the worked example of two tasks over days
  0–3 (`ProgressStats.WorkedExample`), day 3 has no records and is skipped. The code
  therefore yields `currentStreak = 1`, from day 2. It would be 0 only if a day without
  records broke the streak.

## Model

| member | source | states |
|---|---|---|
| `ProgressStats.ProgressStatsView.constructor` | components/ProgressStats.tsx:19-26 | the panel starts with all six numbers at 0 |
| `ProgressStats.ProgressStatsView.CalculateStats` | components/ProgressStats.tsx:32-118 | with no task rows, an empty task list or no completion rows, the previous stats stay; otherwise the stats become `ComputeStats` of the rows |
| `ProgressStats.GroupCompletions` | components/ProgressStats.tsx:48-54 | the `forEach` loop builds exactly the date → task → status map of `Grouped(rows)` |
| `ProgressStats.GroupedDates` | components/ProgressStats.tsx:48-54 | a date is in the grouping iff some row carries it |
| `ProgressStats.GroupedTasks` | components/ProgressStats.tsx:48-54 | under a date, a task is present iff some row records that (date, task) pair |
| `ProgressStats.GroupedLastRecordWins` | components/ProgressStats.tsx:48-54 | for each (date, task) pair the grouping holds the status of the last row in input order |
| `ProgressStats.DaysElapsed` | components/ProgressStats.tsx:56-61 | the elapsed count is the minimum of today − start + 1 and the duration: it never exceeds the duration and is not clamped at 0 |
| `ProgressStats.DaysElapsedBeforeStart` | components/ProgressStats.tsx:58-61 | before the start the count is today − start + 1: 0 on the day before the start, negative on earlier days |
| `ProgressStats.Classify` | components/ProgressStats.tsx:72-83 | a day is failed iff some recorded status is failed; it is complete iff every task is completed and nothing failed |
| `ProgressStats.BuildDayStatuses` | components/ProgressStats.tsx:63-85 | the loop over elapsed days produces exactly `DayStatuses` |
| `ProgressStats.DayStatusesShape` | components/ProgressStats.tsx:63-85 | one entry per elapsed day that has records, in strictly increasing date order, each classified from its own day; at most max(daysElapsed, 0) entries; none both complete and failed |
| `ProgressStats.CountComplete` | components/ProgressStats.tsx:87 | the number of complete entries is at most the number of entries |
| `ProgressStats.CountFailed` | components/ProgressStats.tsx:88 | the number of failed entries is at most the number of entries |
| `ProgressStats.CompleteAndFailedAreDisjoint` | components/ProgressStats.tsx:81-88 | when no entry is both complete and failed, daysCompleted + daysFailed ≤ the number of entries |
| `ProgressStats.CompletionRate` | components/ProgressStats.tsx:89 | the rate is the integer nearest to 100·completed/elapsed, with halves rounded up, or 0 when no day has elapsed; it lies in [0, 100] when completed ≤ elapsed |
| `ProgressStats.LongestRunIsMaximal` | components/ProgressStats.tsx:91-109 | `LongestRun` is the length of some run of consecutive complete entries, and no run is longer |
| `ProgressStats.LongestRunAtMostCompleted` | components/ProgressStats.tsx:87-109 | the longest streak never exceeds daysCompleted |
| `ProgressStats.ScanStreaks` | components/ProgressStats.tsx:91-109 | the reverse loop yields currentStreak = 1 if the last entry is complete, else 0, and longestStreak = the longest run of complete entries |
| `ProgressStats.CurrentStreakUndercounts` | components/ProgressStats.tsx:98-100 | with the last two entries complete, the run that ends at the last entry (what `ScanStreaksCorrected` returns) is at least 2, while the stored current streak is 1 |
| `ProgressStats.ScanStreaksCorrected` | components/ProgressStats.tsx:95-108 | the corrected loop yields the run of complete entries that ends at the last entry (`IsTrailingRun`: all complete, and the entry before it is not), the same longest streak, and current ≤ longest |
| `ProgressStats.StatsBounds` | components/ProgressStats.tsx:58-117 | every computed result has daysElapsed ≤ duration, completed + failed ≤ max(daysElapsed, 0), a rate in [0, 100], currentStreak in {0, 1}, and currentStreak ≤ longestStreak ≤ daysCompleted |
| `ProgressStats.NoRecordsNoProgress` | components/ProgressStats.tsx:63-116 | without records every count, both streaks and the rate are 0 |
| `ProgressStats.PerfectJourney` | components/ProgressStats.tsx:63-116 | with every task completed and nothing failed on every elapsed day: daysCompleted = daysElapsed, no failed days, rate 100, longestStreak = daysElapsed |
| `ProgressStats.FullRate` | components/ProgressStats.tsx:89 | completed = elapsed > 0 gives a rate of exactly 100 |
| `ProgressStats.WorkedExample` | components/ProgressStats.tsx:48-118 | tasks A and B over days 0–3 with B failed on day 1 and no records on day 3 give (2, 1, 1, 1, 50, 4) |
| `DailyTracker.MapByTask` | components/DailyTracker.tsx:53-55 | every record in the loaded map is filed under its own task id |
| `DailyTracker.MapByTaskKeys` | components/DailyTracker.tsx:53-55 | the loaded map has a task iff some row references it |
| `DailyTracker.MapByTaskKeepsLastRow` | components/DailyTracker.tsx:53-55 | for a task referenced by several rows, the map holds the last one |
| `DailyTracker.Toggle` | components/DailyTracker.tsx:67-105 | every other task keeps its entry; on an opposite-status click, the entry keeps its id and other fields and only its status changes |
| `DailyTracker.ToggleFollowsTransition` | components/DailyTracker.tsx:67-105 | a click moves the clicked cell along absent/completed/failed: same status → absent, other status → switched, absent → marked only if the insert returned a row; other cells are unchanged |
| `DailyTracker.ToggleKeepsKeying` | components/DailyTracker.tsx:74-103 | a click keeps every record filed under its own task |
| `DailyTracker.ToggleTwiceRestores` | components/DailyTracker.tsx:67-105 | clicking the same status twice on an empty cell, with the insert answered, restores the original map |
| `DailyTracker.InsertedRow` | components/DailyTracker.tsx:88-100 | an inserted row exists iff a user is signed in and the store returned an id; the row carries the clicked task, status and date |
| `DailyTracker.Tracker.constructor` | components/DailyTracker.tsx:26-28 | the tracker starts loading, with no tasks and an empty map |
| `DailyTracker.Tracker.LoadTasksAndCompletions` | components/DailyTracker.tsx:34-61 | tasks are replaced when the task query answered; the map is replaced by `MapByTask` only when both queries answered; otherwise the previous map stays |
| `DailyTracker.Tracker.HandleTaskStatus` | components/DailyTracker.tsx:63-111 | the map becomes `Toggle` of the old map; `onUpdate` runs unless no record exists and no user is signed in |
| `DailyTracker.Tracker.GetTaskStatus` | components/DailyTracker.tsx:113-115 | none iff the task's cell is absent, otherwise the cell's status |
| `Dashboard.ChangedDate` | src/components/Dashboard.tsx:60-74 | with a journey and selected + days inside the window, the date becomes selected + days; otherwise it stays; a date inside the window stays inside |
| `Dashboard.NavigationStaysInWindow` | src/components/Dashboard.tsx:71-72 | from a date inside the window, no series of moves made on non-decreasing days leaves the window |
| `Dashboard.GetDayNumber` | src/components/Dashboard.tsx:76-81 | 0 without a journey, else selected − start + 1, which lies in [1, duration] for a date inside the journey |
| `Dashboard.IsToday` | src/components/Dashboard.tsx:83-86 | true iff the current instant falls within the selected day |
| `Dashboard.CanNavigateBack` | src/components/Dashboard.tsx:88-93 | true iff there is a journey and selected > start |
| `Dashboard.BackButtonMatchesMove` | src/components/Dashboard.tsx:60-93 | inside the window, the back button is enabled iff moving back one day succeeds |
| `Dashboard.CanNavigateForward` | src/components/Dashboard.tsx:95-103 | true iff there is a journey, selected < end, and selected is before today or is today after midnight |
| `Dashboard.ForwardButtonEnabledOnToday` | src/components/Dashboard.tsx:95-103 | on today's date after midnight, before the last day, the forward button is enabled but moving forward does not change the date |
| `Dashboard.CanNavigateForwardCorrected` | src/components/Dashboard.tsx:95-103 | inside the window, the day-number comparison holds iff moving forward one day succeeds |
| `Dashboard.DashboardView.constructor` | src/components/Dashboard.tsx:25-27 | no journey yet, the selected date is today, and the view is loading |
| `Dashboard.DashboardView.LoadData` | src/components/Dashboard.tsx:44-57 | the journey is replaced only when the query found one, and loading ends either way |
| `Dashboard.DashboardView.ChangeDate` | src/components/Dashboard.tsx:60-74 | comparing midnights and the current instant by `getTime`, the new date is exactly `ChangedDate` |
| `Calendar.WholeDaysSince` | src/components/Dashboard.tsx:80 | flooring the millisecond difference from a start midnight gives the difference in days |
| `Calendar.CompareWithInstant` | src/components/Dashboard.tsx:71 | a midnight is ≤ an instant iff its day is ≤ the instant's day; it is < iff its day is earlier, or the same day after midnight |
| `JourneySetup.Trim` | src/components/JourneySetup.tsx:25-26 | the result is the stretch of the input that starts after its leading white space and is followed only by white space; it neither starts nor ends with white space; it is empty iff the input is all white space |
| `JourneySetup.TrimIsIdempotent` | src/components/JourneySetup.tsx:25-26 | trimming a trimmed text changes nothing |
| `JourneySetup.RemoveAtRemovesExactlyOne` | src/components/JourneySetup.tsx:31-33 | removes exactly the entry at the index and keeps the rest in order; an out-of-range index changes nothing |
| `JourneySetup.TaskInserts` | src/components/JourneySetup.tsx:62-66 | one row per task, of the same length; row k carries tasks[k], the journey id and order_index k |
| `JourneySetup.TaskInsertsKeepListOrder` | src/components/JourneySetup.tsx:62-66 | order indices increase strictly along the list and equal the list positions |
| `JourneySetup.TaskInsertsRoundTrip` | src/components/JourneySetup.tsx:62-66 | reading the task texts back from the rows, in order_index order, gives the edited list exactly |
| `JourneySetup.JourneySetupForm.constructor` | src/components/JourneySetup.tsx:12-22 | the default title, description, 90 days and three default tasks, all trimmed and non-empty |
| `JourneySetup.JourneySetupForm.AddTask` | src/components/JourneySetup.tsx:24-29 | non-blank input: the trimmed text is appended and the input cleared; blank input: nothing changes; the list stays trimmed |
| `JourneySetup.JourneySetupForm.RemoveTask` | src/components/JourneySetup.tsx:31-33 | the list becomes `RemoveAt(tasks, index)` and stays trimmed |
| `JourneySetup.JourneySetupForm.HandleSubmit` | src/components/JourneySetup.tsx:35-80 | an empty list sets "Add at least one daily task" and sends nothing; task rows are sent only after the journey insert succeeded; `onComplete` runs only when both inserts succeeded; a failure's message, or "Failed to create journey", becomes the error |

## Findings

| source | as written | input that shows it | evidently intended | confidence | as-written member | corrected member |
|---|---|---|---|---|---|---|
| components/ProgressStats.tsx:98-100 | `currentStreak` is set only when `i` is the last index, so it is 1 or 0 | three consecutive complete days: the panel shows a current streak of 1 | the number of consecutive complete entries that end at the most recent entry (3) | high; not executed | `ProgressStats.CurrentStreakUndercounts` | `ProgressStats.ScanStreaksCorrected` |
| src/components/Dashboard.tsx:102 | `current < today` compares the selected date's midnight with the current instant | selected date = today, 10:00, journey not on its last day: the forward button is enabled, but `changeDate(1)` rejects tomorrow and nothing happens | the button is enabled iff moving forward succeeds, i.e. selected < today as days | high; not executed | `Dashboard.ForwardButtonEnabledOnToday` | `Dashboard.CanNavigateForwardCorrected` |

The component models (`ProgressStatsView.CalculateStats`, `Dashboard.CanNavigateForward`)
keep the behaviour as written, so they describe what the app shows. The corrected members
stand beside them, and each has its intended property proved.

## Left out

- Every data-store query, insert, update and delete. Their answers are parameters: rows
  as `Option` values, the id of an inserted row, and a `Failure` or `JourneyAnswer` for a
  rejected write. The query filters (`journey_id`, `completion_date`, ordering) are
  assumed to have produced the rows passed in.
- React hooks and rendering. The effects that re-run a load when props or
  `refreshTrigger` change are not modelled; each load is a method call. For the tracker
  and the dashboard only the values of `loading` between calls are modelled, not the
  intermediate renders. The setup form's `loading` is modelled the same way.
- JavaScript `Date` handling beyond whole UTC days. `setDate` works in local time, and
  across a daylight-saving change it can shift a date by an hour; `toISOString().split`
  can then name a neighbouring day. The model assumes dates advance by exactly one day.
- `ProgressStats.CompletionRate`: uses exact integer rounding instead of the
  floating-point `daysCompleted / daysElapsed * 100`. Where that product is not exact in
  binary (for example 29/200, which gives 14.499…), `Math.round` can yield one less than
  the exact rounding.
- `ProgressStats.PerfectJourney`: states currentStreak = 1 rather than daysElapsed,
  because the component stores at most 1 (see Findings).
- `DailyTracker.Tracker.HandleTaskStatus`: each click is one atomic step over the current
  map. Overlapping asynchronous handlers are not modelled. In the source a handler reads
  `completions` from its render's closure and copies it only after its `await`
  (`components/DailyTracker.tsx:64`, 74, 83, 101). Two clicks within one round trip
  therefore both start from the same old map, and the second `setCompletions` erases the
  first click's change (a lost update). The tracker reloads only when `journeyId` or
  `selectedDate` changes (`components/DailyTracker.tsx:32`). Until then a lost insert
  shows an absent cell while the store holds the row, and the next click inserts a second
  row for the same task and date.
- `DailyTracker.Tracker.HandleTaskStatus`: the failure results of the delete and update
  requests are not modelled. The source ignores them and updates the map anyway. The only
  caught error modelled is the missing signed-in user on the insert path.
- `JourneySetup.JourneySetupForm.HandleSubmit`: the user id is a parameter. The case of
  no signed-in user, where `user!.id` throws and the form shows the thrown message, is not
  modelled. Whether a store failure is an `Error` object is an input flag.
- The dashboard's profile query and sign-out, and the setters for the title and
  description fields, which are plain state assignments.
- `JourneySetup.JourneySetupForm.HandleSubmit`: `durationDays` is an integer. The duration
  field's setter is `parseInt` of the input (`src/components/JourneySetup.tsx:133`), so an
  empty or non-numeric field gives `NaN`. The field's `required`, `min` and `max`
  attributes (`src/components/JourneySetup.tsx:135-137`) leave it to the browser to block
  such a submission. Neither the `NaN` state nor these browser checks are modelled.
- `components/Auth.tsx` (a thin sign-in/sign-up wrapper), `src/App.tsx` (routing on fetch
  results) and `src/components/MotivationalQuote.tsx` (local storage and random choice)
  are not part of this model. `src/types/database.types.ts` only shapes the records
  (`Records`).
