# GateForge core, modelled in Dafny

GateForge is a study planner for the GATE computer-science exam, written as a React
application that keeps all of its data in the browser's `localStorage`. This project
models the application's logic and proves properties of it:

- the date helpers (`parseLocal`, `getEndOfDay`) on a Gregorian calendar of day numbers
  and integer milliseconds, with JavaScript's `new Date(y, m, d)` normalisation (`calendar.dfy`);
- the storage service: every getter with its default, every save with the automatic
  backup it takes, clear, restore, import and export (`storage.dfy`);
- the syllabus tracker and welcome screen: the phase resolver, the countdown, the
  backwards "smart planner", the syllabus check boxes and the schedule editor
  (`syllabus_tracker.dfy`, `welcome.dfy`);
- the revision calendar, the subject dependency graph and the Leitner flashcard deck
  (`calendar_view.dfy`, `dependency_graph.dfy`, `flashcards.dfy`);
- onboarding, the daily tracker, subject yield, the dashboard objectives and insights,
  the mock-test tracker, the error log, the rank estimate and the strategy simulator
  (`onboarding.dfy`, `daily_tracker.dfy`, `subject_yield.dfy`, `dashboard.dfy`,
  `mock_tracker.dfy`, `error_log.dfy`, `rank.dfy`, `strategy.dfy`);
- the virtual calculator's key handling and drill counters, the knowledge bot's
  teach and send flows, the cheat-sheet Markdown preview and editor, and the C logic
  tracer (`calculator.dfy`, `knowledge_bot.dfy`, `cheat_sheet.dfy`, `code_runner.dfy`).

`common.dfy` holds the JavaScript string and array operations the components use
(`trim`, `split`, `toLowerCase`, `String(n)`, `Number(s)`, a stable sort, insertion-ordered
objects), and `model.dfy` the records and constants of `types.ts` and `src/constants.ts`.

Components whose state the source updates through React setters are classes whose
fields are that state; each handler is a method whose postcondition gives the new
state in terms of the old one and of the specification functions, about which the
lemmas are proved. `localStorage` is a class `Storage.Store` holding a map from key to
value; `JSON.stringify` and `JSON.parse` are taken to be inverse, so a stored value is the
object that was saved. The clock is a `now` parameter (integer milliseconds on a local
time line without daylight saving), and each timer callback is a separate method call.

Where the in-app user manual (`src/components/UserManual.tsx`) describes the behaviour
differently from the code, the model follows the code: the flashcard interval is
2^box days (the manual says box 2 comes back every 2 days), the dashboard's "Fix Leaks"
objective appears with any error logged (the manual says more than five), and the
backwards planner finishes the syllabus at or before 30 days ahead of the exam (the
manual says exactly 30 days before).

## Model

| member | source | states |
|---|---|---|
| Common.Trim | src/components/Onboarding.tsx:48 | `trim` leaves no white space at either end and gives the empty string exactly for an all-white-space input |
| Common.TrimIsSlice | src/components/Onboarding.tsx:48 | what `trim` keeps is a contiguous slice of the input with only white space cut on either side |
| Common.ToLower | src/components/KnowledgeBot.tsx:99 | `toLowerCase` on ASCII letters only: the length is kept, `A`-`Z` become `a`-`z`, every other character is kept |
| Common.Split | src/components/CheatSheetGenerator.tsx:27 | splitting at a character gives one more piece than occurrences, no piece contains the separator, and joining the pieces with it gives the text back |
| Common.SplitJoin | src/components/CheatSheetGenerator.tsx:27 | splitting the join of separator-free pieces gives the pieces back |
| Common.DecimalValue | src/components/MockTracker.tsx:31 | `String(n)` of a natural number is a digit string whose value is `n` |
| Common.SortByKey | src/services/storageService.ts:223 | the sort is a permutation of its input |
| Common.SortByKeySorted | src/services/storageService.ts:223 | the sort's output is ordered by its key |
| Common.ToNumber | src/utils/dateHelpers.ts:5 | `Number(s)` of a digit string is its value, and a negative result needs a minus sign in the text |
| Model.Toggled | src/components/SyllabusTracker.tsx:136-142 | toggling flips one flag of the key's record (an all-false record when there was none), keeps its other three flags and every other key |
| Model.ToggleTwice | src/components/SyllabusTracker.tsx:136-142 | toggling the same flag twice restores the status, up to the all-false record a first toggle creates |
| Model.FlagsDetermine | src/components/SyllabusTracker.tsx:138 | a status record is determined by its four flags |
| Model.InitialKnowledgeBase | src/constants.ts:41-110 | the built-in knowledge base holds 47 items |
| Calendar.ParseLocal | src/utils/dateHelpers.ts:2-11 | the empty string gives null; otherwise null exactly when the text does not split on '-' into three parts; a valid result is a local midnight |
| Calendar.GetEndOfDay | src/utils/dateHelpers.ts:13-18 | null exactly when `parseLocal` is null; a valid result is the parsed midnight plus one day less one millisecond |
| Calendar.MalformedPart | src/utils/dateHelpers.ts:6-10 | three parts of which one is not a number give an Invalid Date, not null |
| Calendar.EndOfSameDay | src/utils/dateHelpers.ts:16 | `setHours(23, 59, 59, 999)` stays on the same day, at its last millisecond |
| Calendar.EndOfMidnight | src/utils/dateHelpers.ts:16 | the end of a day is 86,399,999 ms after its midnight |
| Calendar.EndOfDayOfValid | src/utils/dateHelpers.ts:13-18 | for a date in range, `getEndOfDay` is 86,399,999 ms after the parsed midnight |
| Calendar.ParseDateString | src/utils/dateHelpers.ts:2-11 | a `YYYY-MM-DD` text of a valid date (years 100..9999) parses to that date's midnight |
| Calendar.ParseDayString | src/utils/dateHelpers.ts:2-11 | formatting a day as `YYYY-MM-DD` and parsing it back gives the day's midnight |
| Calendar.TwoDigitYear | src/utils/dateHelpers.ts:10 | a year written 0000..0099 is read as 1900..1999 by `new Date`, so such a text parses nineteen centuries later |
| Calendar.CivilOfDayNumber | src/utils/dateHelpers.ts:10 | the day arithmetic behind `new Date(y, m, d)`: every valid date is the date of its own day number |
| Calendar.YearsDisjoint | src/utils/dateHelpers.ts:10 | no day lies in two calendar years |
| Calendar.DayOfTime | src/utils/dateHelpers.ts:16 | a time value `r` ms into day `n` (0 <= r < 86,400,000) falls on day `n` |
| Calendar.IsoDateOfDay | src/components/DailyTracker.tsx:10 | a time value and the midnight of its day have the same `toISOString` date |
| Storage.GetUserProfile | src/services/storageService.ts:7-17 | with nothing stored, the default profile (setup not complete); otherwise the stored profile, whose missing `targetYears` reads as [2027] |
| Storage.GetInfoItems | src/services/storageService.ts:39-47 | every stored item in stored order with its id, title, date and data URL; an item without a type reads as an image; nothing stored gives the empty list |
| Storage.GetKnowledgeBase | src/services/storageService.ts:62-70 | never empty: the built-in base when nothing or an empty list is stored |
| Storage.KnowledgeReadBack | src/services/storageService.ts:62-70 | a stored list that is not empty is read back as it is |
| Storage.Snapshot | src/services/storageService.ts:124-139 | the backup object carries every getter's value and the given time stamp |
| Storage.IndexOfId | src/services/storageService.ts:75 | `findIndex`: the first index with that id, or -1 exactly when no item has it |
| Storage.Upsert | src/services/storageService.ts:72-83 | an item whose id is present replaces the first item with that id in place; otherwise it is appended |
| Storage.UpsertGrows | src/services/storageService.ts:76-82 | upserting never shortens the base |
| Storage.UpsertKeepsIdsUnique | src/services/storageService.ts:72-83 | on a base with unique ids, upserting keeps them unique and the one item with the new id is the new item |
| Storage.UpsertIdempotent | src/services/storageService.ts:72-83 | upserting the same item twice is the same as once |
| Storage.PrependLog | src/services/storageService.ts:173-177 | the new log first, then only older logs of other dates, and every older log of another date is kept |
| Storage.FilterOnePerDate | src/services/storageService.ts:176 | filtering a list with one log per date keeps one log per date |
| Storage.PrependLogOnePerDate | src/services/storageService.ts:173-177 | saving a log keeps at most one log per date |
| Storage.RemoveInfo | src/services/storageService.ts:202-205 | exactly the items with another id remain; an absent id leaves the list as it is |
| Storage.StoredError | src/services/storageService.ts:157-162 | only the image URL may change, and only when it is an inline `data:` URL |
| Storage.StoredInfoItem | src/services/storageService.ts:185-191 | only the data URL may change, and only when it is an inline `data:` URL |
| Storage.SortScheduleSpec | src/services/storageService.ts:221-224 | the stored schedule is a permutation of the input, and the phases with a start date are in order of it |
| Storage.Fields | src/services/storageService.ts:255-265 | one write per field present, each to its own data key with a value of that key's type |
| Storage.RestoreOverwritesPresent | src/services/storageService.ts:249-266 | a restore or import overwrites exactly the keys of the fields present, never the backup or the gauntlet key |
| Storage.Cleared | src/services/storageService.ts:235-247 | every data key is removed; the backup and gauntlet statistics keys are kept |
| Storage.UpdateWellTyped | src/services/storageService.ts:19-22 | writing a value of the key's type keeps the storage well typed |
| Storage.BackupOnlyTouchesBackup | src/services/storageService.ts:124-144 | `createBackup` changes the backup key and no other key, and keeps the storage well typed |
| Storage.Store.CreateBackup | src/services/storageService.ts:124-144 | the backup key receives the snapshot; nothing else changes |
| Storage.Store.Write | src/services/storageService.ts:19-22 | one key written, then a backup taken |
| Storage.Store.SaveUserProfile | src/services/storageService.ts:19-22 | the profile is stored, then backed up, and reads back as given |
| Storage.Store.SaveMock | src/services/storageService.ts:146-155 | the new mock is stored first, before the older ones, then backed up |
| Storage.Store.SaveError | src/services/storageService.ts:157-171 | the entry, with an inline image moved to disk, is stored first, then backed up |
| Storage.Store.SaveDailyLog | src/services/storageService.ts:173-183 | the log replaces any log of its date and goes first, then backed up |
| Storage.Store.SaveInfoItem | src/services/storageService.ts:185-200 | the item, with inline data moved to disk, is stored first, then backed up |
| Storage.Store.DeleteInfoItem | src/services/storageService.ts:202-210 | the items with that id are removed, then backed up |
| Storage.Store.SaveSyllabusStatus | src/services/storageService.ts:212-219 | the status is stored, then backed up, and reads back as given |
| Storage.Store.SaveSchedule | src/services/storageService.ts:221-229 | the phases are stored sorted by start date, then backed up |
| Storage.Store.SaveKnowledgeItem | src/services/storageService.ts:72-89 | the current base with the item upserted is stored, then backed up, and reads back as such |
| Storage.Store.SaveCalcStats | src/services/storageService.ts:96-98 | the statistics are stored, with no backup |
| Storage.Store.SaveFlashcards | src/services/storageService.ts:114-117 | the deck is stored, then backed up, and reads back as given |
| Storage.Store.AddFlashcard | src/services/storageService.ts:119-122 | the current deck with the card appended is stored and backed up |
| Storage.Store.ClearAllData | src/services/storageService.ts:235-247 | the storage becomes `Cleared` of the old one |
| Storage.Store.RestoreBackup | src/services/storageService.ts:249-271 | false exactly when there is no backup, and then nothing changes; otherwise the backup's present fields are written |
| Storage.Store.ImportDataFromFile | src/services/storageService.ts:301-324 | false exactly for unparsable text or a payload without a time stamp, and then nothing changes; otherwise the present fields are written and a backup taken |
| SyllabusTracker.ActiveIsFirstCovering | src/components/SyllabusTracker.tsx:49-57 | the active phase is the first valid phase, in schedule order, whose start midnight to end-of-day span holds `now`; there is none exactly when no valid phase holds it |
| SyllabusTracker.UpcomingIsEarliest | src/components/SyllabusTracker.tsx:75-81 | the upcoming phase is a valid phase starting after `now`, none of those starts earlier, and ties go to the first in schedule order; none exactly when no valid phase starts later |
| SyllabusTracker.Decompose | src/components/SyllabusTracker.tsx:36-42 | days, hours < 24, minutes < 60 and seconds < 60 that make up the whole seconds of the difference; the days are its whole days |
| SyllabusTracker.Countdown | src/components/SyllabusTracker.tsx:34-43 | a difference of zero or less, or NaN, keeps the old countdown |
| SyllabusTracker.Refresh | src/components/SyllabusTracker.tsx:62-72 | a missing or past target keeps the old phase countdown; a future one sets it, with the whole days until the target |
| SyllabusTracker.RemainingCount | src/components/SyllabusTracker.tsx:106 | the number of phases not completed is at most the schedule's length |
| SyllabusTracker.Plan | src/components/SyllabusTracker.tsx:119-129 | the planned schedule has one phase per phase of the input |
| SyllabusTracker.PlanAt | src/components/SyllabusTracker.tsx:122-129 | a completed phase is kept; the k-th phase not completed gets days `day + k·d` to `day + (k+1)·d`, is decided, and keeps id and name |
| SyllabusTracker.PlanWithinBudget | src/components/SyllabusTracker.tsx:109-118 | every planned phase ends within the budget, that is at least 30 days before the exam |
| SyllabusTracker.PlanContiguous | src/components/SyllabusTracker.tsx:122-129 | each phase not completed starts on the day the previous one not completed ends |
| SyllabusTracker.PlanPass | src/components/SyllabusTracker.tsx:118-129 | the `forEach` with the rolling date gives exactly `Plan` from today's day |
| SyllabusTracker.MarkFirstStart | src/components/SyllabusTracker.tsx:122-124 | the schedule keeps its length when the first phase not completed gets a start date |
| SyllabusTracker.MarkFirstStartAt | src/components/SyllabusTracker.tsx:122-124 | only the first phase not completed changes, and only its start |
| SyllabusTracker.MarkUndecided | src/components/SyllabusTracker.tsx:156-159 | every phase is kept except its undecided flag, which is set exactly when a date is missing |
| SyllabusTracker.MarkedValid | src/components/SyllabusTracker.tsx:155-163 | after `saveEdit` a phase takes part in resolution exactly when both its dates are present |
| SyllabusTracker.UpdateField | src/components/SyllabusTracker.tsx:165-167 | the phases with that id get the field's new value, the others are kept |
| SyllabusTracker.FlipUndecided | src/components/SyllabusTracker.tsx:170-179 | the flag flips; becoming undecided clears both dates, becoming decided keeps them |
| SyllabusTracker.ToggleUndecided | src/components/SyllabusTracker.tsx:169-182 | the phases with that id are flipped, the others are kept |
| SyllabusTracker.ToggleUndecidedTwice | src/components/SyllabusTracker.tsx:169-182 | switching to undecided and back leaves a decided phase without its dates |
| SyllabusTracker.NewPhase | src/components/SyllabusTracker.tsx:184-191 | the new phase is decided, starts and ends today, and takes part in resolution |
| SyllabusTracker.WithoutPhase | src/components/SyllabusTracker.tsx:195-199 | exactly the phases with another id remain |
| SyllabusTracker.Relinked | src/components/SyllabusTracker.tsx:120-124 | a shared edit phase reads the schedule phase it is, every other edit phase is kept |
| SyllabusTracker.RelinkedAfterWrite | src/components/SyllabusTracker.tsx:122-124 | a write into one schedule phase reaches exactly the edit phases that are that object, and sharing still agrees afterwards |
| SyllabusTracker.RelinkedAllShared | src/components/SyllabusTracker.tsx:27-28 | while every phase is shared, as after mounting, a write into the schedule shows in the whole edit copy |
| SyllabusTracker.AllShared | src/components/SyllabusTracker.tsx:27-28 | setting both to one array shares phase `i` with phase `i` |
| SyllabusTracker.NoneShared | src/components/SyllabusTracker.tsx:156-161 | fresh objects share nothing |
| SyllabusTracker.AllSharedLinked | src/components/SyllabusTracker.tsx:27-28 | a schedule shared with itself agrees with itself |
| SyllabusTracker.DropLinks | src/components/SyllabusTracker.tsx:165-182 | the phases with the edited id stop being shared; the others keep their link |
| SyllabusTracker.UpdateFieldLinked | src/components/SyllabusTracker.tsx:165-167 | `updateEditData` keeps every remaining shared phase equal to its schedule phase |
| SyllabusTracker.ToggleUndecidedLinked | src/components/SyllabusTracker.tsx:169-182 | `toggleUndecidedEdit` keeps every remaining shared phase equal to its schedule phase |
| SyllabusTracker.KeepLinksLinked | src/components/SyllabusTracker.tsx:195-199 | `deletePhase`'s filter keeps the surviving phases' objects, which still agree with the schedule |
| SyllabusTracker.Progress | src/components/SyllabusTracker.tsx:144-153 | 0 for an id without a record; otherwise a multiple of 25 between 0 and 100 |
| SyllabusTracker.Quarters | src/components/SyllabusTracker.tsx:144-153 | the progress is 25 for each flag set |
| SyllabusTracker.ToggleProgress | src/components/SyllabusTracker.tsx:136-153 | toggling one flag moves the progress by exactly 25: up when the flag was clear, down when it was set |
| SyllabusTracker.GapAlwaysRefreshed | src/components/SyllabusTracker.tsx:83-97 | in a gap the countdown is always refreshed, with the whole days until the next phase starts |
| SyllabusTracker.ActiveRefresh | src/components/SyllabusTracker.tsx:59-73 | for the active phase the end is never before `now`, and only at its last millisecond is the countdown kept |
| SyllabusTracker.Tracker.Tick | src/components/SyllabusTracker.tsx:31-44 | `now` becomes the current time and the exam countdown is updated as `Countdown` says; nothing else changes |
| SyllabusTracker.Tracker.Resolve | src/components/SyllabusTracker.tsx:48-103 | the active phase (not a gap), else the upcoming one (a gap), else none; the phase countdown follows `Refresh` |
| SyllabusTracker.Tracker.ShowPhase | src/components/SyllabusTracker.tsx:59-97 | the phase is shown with the gap flag, and its countdown follows `Refresh` |
| SyllabusTracker.Tracker.RunSmartPlanner | src/components/SyllabusTracker.tsx:105-134 | nothing remaining or a breached buffer changes nothing; an invalid exam date throws after dating the first remaining phase in place, which every edit phase sharing that object shows; otherwise the schedule and the edit copy become the same array holding `Plan` with `floor(budget / remaining)` days each, and this plan is always made when phases remain, the exam date is valid and the budget is positive; shared objects stay in agreement |
| SyllabusTracker.Tracker.ApplyPlan | src/components/SyllabusTracker.tsx:120-132 | the planned schedule is shown and edited, the edit copy being the same array as the schedule |
| SyllabusTracker.Tracker.MarkFirstRemaining | src/components/SyllabusTracker.tsx:122-124 | the first phase not completed gets the start date, written into the phase object, so the edit copy becomes `Relinked` to the new schedule and shared objects stay in agreement |
| SyllabusTracker.Tracker.ToggleCheck | src/components/SyllabusTracker.tsx:136-142 | one flag of one record flips, and the new status is saved |
| SyllabusTracker.Tracker.SaveEdit | src/components/SyllabusTracker.tsx:155-163 | the edit copy with recomputed undecided flags is saved sorted by start date, and the schedule reloads as that sorted list; both hold fresh objects afterwards |
| SyllabusTracker.Tracker.UpdateEditData | src/components/SyllabusTracker.tsx:165-167 | the edit copy becomes `UpdateField` of the old one; the phases with that id become new objects, the others stay shared |
| SyllabusTracker.Tracker.ToggleUndecidedEdit | src/components/SyllabusTracker.tsx:169-182 | the edit copy becomes `ToggleUndecided` of the old one; the phases with that id become new objects, the others stay shared |
| SyllabusTracker.Tracker.AddPhase | src/components/SyllabusTracker.tsx:184-193 | the new phase is appended to the edit copy, as an object of its own |
| SyllabusTracker.Tracker.DeletePhase | src/components/SyllabusTracker.tsx:195-199 | once confirmed the phases with that id leave the edit copy; otherwise nothing changes; the phases kept keep their objects |
| SyllabusTracker.Tracker.constructor | src/components/SyllabusTracker.tsx:12-29 | status, schedule and exam date are read from the store; the edit copy starts as the schedule, the same array, so every phase object is shared |
| Welcome.DaysHours | src/components/Welcome.tsx:52-55 | the days are the whole days of the difference, the hours lie in 0..23, and together they are its whole hours |
| Welcome.ActiveClock | src/components/Welcome.tsx:48-59 | a null end keeps the countdown; a future end sets it to days and hours; an end not in the future sets it to zero |
| Welcome.GapClock | src/components/Welcome.tsx:80-89 | a start in the future sets the countdown to days and hours; otherwise the old countdown is kept |
| Welcome.ZeroClock | src/components/Welcome.tsx:50-58 | the countdown shows zero days and zero hours exactly when less than an hour is left |
| Welcome.ActiveClockSet | src/components/Welcome.tsx:42-59 | for a phase that covers `now` the countdown is always set, and it is zero exactly when less than an hour of the phase is left |
| Welcome.Page.constructor | src/components/Welcome.tsx:20-24 | status, schedule and the user's name are read from the store; no phase is shown yet |
| Welcome.Page.UpdateTime | src/components/Welcome.tsx:29-95 | the active phase with its completed flag, else the upcoming phase as a gap, else no phase; the countdown follows `ActiveClock` or `GapClock`; the name never changes |
| Welcome.Page.ShowActive | src/components/Welcome.tsx:42-59 | the phase is shown, not as a gap, with its completed flag and the `ActiveClock` countdown |
| Welcome.Page.ShowGap | src/components/Welcome.tsx:74-89 | the phase is shown as a gap, not completed, with the `GapClock` countdown |
| CalendarView.LastDayBeforeNext | src/components/CalendarView.tsx:8-10 | day 0 of the next month is the last day of the month |
| CalendarView.DaysInMonthIsLength | src/components/CalendarView.tsx:8-10 | `getDaysInMonth` is the Gregorian length of the month; February has 29 days exactly in leap years |
| CalendarView.FirstDayIsWeekday | src/components/CalendarView.tsx:12-14 | `getFirstDayOfMonth` is the weekday of the first of the month, 0 for Sunday |
| CalendarView.Grid | src/components/CalendarView.tsx:113-117 | the grid has `firstDay + daysInMonth` cells |
| CalendarView.GridLayout | src/components/CalendarView.tsx:113-117 | the first `firstDay` cells are blank, day `k` sits in cell `firstDay + k - 1`, and the days increase strictly |
| CalendarView.GetDayInfo | src/components/CalendarView.tsx:47-76 | a found day carries its phase's completed flag and its date string, and is banked exactly when completed and after today's midnight |
| CalendarView.DayInfoIsActive | src/components/CalendarView.tsx:47-65 | a day has a phase exactly when the resolver finds an active phase at its midnight, and it is the same phase |
| CalendarView.SameTest | src/components/CalendarView.tsx:53-63 | the calendar's test is the resolver's: a valid phase that covers the instant |
| CalendarView.MidnightBetween | src/components/CalendarView.tsx:62 | an instant between a midnight and a day's last millisecond is a midnight exactly when its day lies between theirs |
| CalendarView.StartIsMidnight | src/components/CalendarView.tsx:57 | a phase's parsed start is a midnight |
| CalendarView.EndIsLastMs | src/components/CalendarView.tsx:58 | a phase's end of day is the last millisecond of its day |
| CalendarView.CoversAsDays | src/components/CalendarView.tsx:53-63 | a phase covers a day's midnight exactly when that day lies between its start day and its end day |
| CalendarView.DayTimestampOfDateText | src/components/CalendarView.tsx:102-103 | the date string of a rendered day reads back as that day's midnight |
| CalendarView.DateTextParts | src/components/CalendarView.tsx:73 | the three `-`-separated parts of a rendered date string are the year, the month from 1 and the day |
| CalendarView.DigitParts | src/components/CalendarView.tsx:102 | `Number` of each digit part is its decimal value |
| CalendarView.MakeDayCarry | src/components/CalendarView.tsx:43-44 | month 12 is January of the next year, month -1 December of the year before |
| CalendarView.NextMonthIsFirst | src/components/CalendarView.tsx:44 | `nextMonth` from any day lands on the first of the next month, from December on January of the next year |
| CalendarView.FirstOfNext | src/components/CalendarView.tsx:44 | `new Date(year, month + 1, 1)` is the first of the following month |
| CalendarView.PrevMonthIsFirst | src/components/CalendarView.tsx:43 | `prevMonth` from any day lands on the first of the month before, from January on December of the year before |
| CalendarView.FirstOfPrev | src/components/CalendarView.tsx:43 | `new Date(year, month - 1, 1)` is the first of the month before |
| CalendarView.ToggleBankedAgrees | src/components/CalendarView.tsx:91-111 | after a toggle the modal's banked flag agrees with the grid's rule applied to the new status |
| CalendarView.Page.constructor | src/components/CalendarView.tsx:17-30 | the current month is today's; status and schedule come from the store; no day is selected |
| CalendarView.Page.PrevMonth | src/components/CalendarView.tsx:43 | the date becomes `new Date(year, month - 1, 1)`; nothing else changes |
| CalendarView.Page.NextMonth | src/components/CalendarView.tsx:44 | the date becomes `new Date(year, month + 1, 1)`; nothing else changes |
| CalendarView.Page.GoToToday | src/components/CalendarView.tsx:45 | the date becomes the current time; nothing else changes |
| CalendarView.Page.HandleDayClick | src/components/CalendarView.tsx:78-89 | a day with a phase opens the modal with its date, phase, record (all false when missing) and banked flag; otherwise, or for an Invalid date, nothing changes |
| CalendarView.Page.Select | src/components/CalendarView.tsx:80-88 | a found day is selected with its phase's record; none keeps the selection |
| CalendarView.Page.ToggleStatusFromModal | src/components/CalendarView.tsx:91-111 | without a selection nothing changes; otherwise one flag of the selected phase flips, the status is saved, and the modal's banked flag is recomputed from its date string |
| CalendarView.Page.Reselect | src/components/CalendarView.tsx:106-110 | the selection keeps its day and phase, with the new record and the banked flag from the day's time value |
| DependencyGraph.MissingOfSpec | src/components/DependencyGraph.tsx:65 | the missing parents are exactly the hard parents not completed |
| DependencyGraph.ClassifySpec | src/components/DependencyGraph.tsx:60-71 | a node is done iff completed; safe iff not completed with every hard parent completed; risky otherwise, with a non-empty list of missing parents |
| DependencyGraph.Ids | src/components/DependencyGraph.tsx:18-36 | the ids of the nodes, position by position |
| DependencyGraph.ListsStep | src/components/DependencyGraph.tsx:59-72 | one more node adds its id to exactly the list of its class |
| DependencyGraph.ListsAt | src/components/DependencyGraph.tsx:59-72 | the same step for a prefix of the node list |
| DependencyGraph.AnalyzeDag | src/components/DependencyGraph.tsx:54-77 | the loop's three lists are the nodes of each class in graph order |
| DependencyGraph.KeptConcat | src/components/DependencyGraph.tsx:59-72 | the lists keep graph order: the list of a concatenation is the concatenation of the lists |
| DependencyGraph.RiskyIdsAppend | src/components/DependencyGraph.tsx:69 | the ids of the risky entries distribute over concatenation |
| DependencyGraph.AnalysisPartitions | src/components/DependencyGraph.tsx:54-77 | the three lists together hold every id exactly as often as the graph does |
| DependencyGraph.PartitionStep | src/components/DependencyGraph.tsx:59-72 | one more node adds its id once to the three lists together |
| DependencyGraph.KeptIds | src/components/DependencyGraph.tsx:59-72 | every listed id is the id of a node |
| DependencyGraph.InKept | src/components/DependencyGraph.tsx:59-72 | with unique ids, a node's id is in a list exactly when the node is of that class |
| DependencyGraph.KeptStep | src/components/DependencyGraph.tsx:59-72 | the step of `InKept` for a node before the last |
| DependencyGraph.RiskyFrom | src/components/DependencyGraph.tsx:69 | every risky entry comes from a risky node with those missing parents |
| DependencyGraph.InRiskyKept | src/components/DependencyGraph.tsx:65-70 | with unique ids, a node's entry is in the risky list exactly when it is risky |
| DependencyGraph.RiskyLast | src/components/DependencyGraph.tsx:65-70 | the case of `InRiskyKept` for the last node |
| DependencyGraph.RiskyStep | src/components/DependencyGraph.tsx:65-70 | the step of `InRiskyKept` for a node before the last |
| DependencyGraph.UniqueInit | src/components/DependencyGraph.tsx:18-36 | all nodes but the last keep unique ids, none equal to the last one's |
| DependencyGraph.RiskyKeptIds | src/components/DependencyGraph.tsx:69 | every risky entry bears the id of a node |
| DependencyGraph.RiskyKeptLast | src/components/DependencyGraph.tsx:59-72 | the risky list of a graph is that of all nodes but the last, plus the last when it is risky |
| DependencyGraph.Classification | src/components/DependencyGraph.tsx:54-77 | read off the three lists: done iff completed, safe iff not completed with all hard parents completed, risky otherwise |
| DependencyGraph.RiskyEntries | src/components/DependencyGraph.tsx:65-70 | every risky entry names a node that is not completed, with a non-empty list of its uncompleted hard parents |
| DependencyGraph.RootsNeverRisky | src/components/DependencyGraph.tsx:65-70 | a node without hard parents is never risky |
| DependencyGraph.WeakParentsIgnored | src/components/DependencyGraph.tsx:54-77 | graphs that agree on ids and hard parents are analysed alike, whatever their weak parents and positions |
| DependencyGraph.NodeStateAgrees | src/components/DependencyGraph.tsx:79-83 | from the same status, `getNodeState` is COMPLETED, READY or LOCKED exactly for done, safe and risky nodes |
| DependencyGraph.HighlightedExactly | src/components/DependencyGraph.tsx:97-106 | nothing is highlighted without a hovered node; otherwise a node is highlighted exactly when it is the hovered one or joined to it by an edge either way |
| DependencyGraph.ParentFound | src/components/DependencyGraph.tsx:100-102 | with unique ids the parent test holds exactly when there is an edge from the node into the hovered one |
| DependencyGraph.ChildFound | src/components/DependencyGraph.tsx:104 | the child test holds exactly when there is an edge from the hovered node into the node |
| DependencyGraph.DagNodesRanked | src/components/DependencyGraph.tsx:18-36 | `DAG_NODES` has 11 nodes, node k has rank k, every hard parent ranks before its child and every weak parent is one of the nodes |
| DependencyGraph.DagNodesWellFormed | src/components/DependencyGraph.tsx:18-36 | `DAG_NODES` has unique ids, names only its own nodes and lists every hard parent before its children |
| DependencyGraph.DagNodesClosed | src/components/DependencyGraph.tsx:18-36 | every parent named in `DAG_NODES` is one of its nodes |
| DependencyGraph.DagParentsFirst | src/components/DependencyGraph.tsx:18-36 | every hard parent appears before its child |
| DependencyGraph.Position | src/components/DependencyGraph.tsx:18-36 | the position found holds the id; none exactly when the id is absent |
| DependencyGraph.EdgeGrows | src/components/DependencyGraph.tsx:18-36 | along a hard edge the position strictly grows |
| DependencyGraph.PathGrows | src/components/DependencyGraph.tsx:18-36 | along a chain of hard edges the position strictly grows |
| DependencyGraph.DagAcyclic | src/components/DependencyGraph.tsx:18-36 | no chain of hard edges in `DAG_NODES` returns to where it started |
| DependencyGraph.Graph.constructor | src/components/DependencyGraph.tsx:48-52 | the status is read once and the three lists are its analysis; nothing is hovered or selected |
| DependencyGraph.Graph.Hover | src/components/DependencyGraph.tsx:222-223 | only the hovered node changes |
| DependencyGraph.Graph.Select | src/components/DependencyGraph.tsx:221 | only the selected subject changes |
| Flashcards.LongerIsLater | src/components/FlashcardDeck.tsx:27 | a string that extends the date string compares after it: a full ISO time is never `<=` the date it begins with |
| Flashcards.DueCards | src/components/FlashcardDeck.tsx:26-28 | a card is due exactly when it is in the deck and its review date compares `<=` today's date string |
| Flashcards.SeededCardNotDueThatDay | src/components/FlashcardDeck.tsx:26-28 | the seeded card, dated with the full ISO time of the day it was loaded, is not due on that day |
| Flashcards.BoxesStayInRange | src/components/FlashcardDeck.tsx:57-72 | from a box in 0..5 every grade lands in 1..5; 'forgot' and 'hard' restart at box 1, 'good' and 'easy' never go down |
| Flashcards.EasyWaitsLonger | src/components/FlashcardDeck.tsx:57-72 | 'easy' always waits longer than 'good', 'hard' longer than 'forgot', and from box -1 up 'good' waits at least as long as 'hard' |
| Flashcards.Grade | src/components/FlashcardDeck.tsx:57-72 | the if-chain yields the new box `min(box + 1 or 2, 5)` (1 for forgot and hard) and the days `0`, `1`, `2^box` or `2^box + 2` |
| Flashcards.ReviewCard | src/components/FlashcardDeck.tsx:56-79 | the copied card becomes `Reviewed` of the original |
| Flashcards.Reviewed | src/components/FlashcardDeck.tsx:74-79 | the reviewed card keeps id, front, back and subject, takes the new box, the date `daysToAdd` days after today and the review time |
| Flashcards.ReplaceById | src/components/FlashcardDeck.tsx:81 | same length; each card with the reviewed id is replaced, every other one is kept |
| Flashcards.ReplaceOnlyThatCard | src/components/FlashcardDeck.tsx:81 | a card is in the new deck exactly when it is the reviewed card (and the id was present) or an old card with another id |
| Flashcards.EarlierReviewLost | src/components/FlashcardDeck.tsx:81-86 | a card reviewed earlier in the session, under another id, is not in the deck saved by the next review, since `cards` is not reloaded between reviews |
| Flashcards.AddedCardIsDue | src/components/FlashcardDeck.tsx:37-50 | a card dated today is due today once appended |
| Flashcards.Deck.constructor | src/components/FlashcardDeck.tsx:7-20 | the empty form and the first `loadCards` |
| Flashcards.Deck.LoadCards | src/components/FlashcardDeck.tsx:22-31 | the deck is read from the store, the due cards are `DueCards` of today, the first card is shown face down; the form is kept |
| Flashcards.Deck.HandleAddCard | src/components/FlashcardDeck.tsx:33-51 | a missing front or back changes nothing; otherwise a card in box 1 dated today is appended and saved, the form is cleared and closed, and the new card is among the due ones |
| Flashcards.Deck.AddCard | src/components/FlashcardDeck.tsx:46-50 | the deck is the stored deck plus the card, saved; the reload makes the card due; the form is cleared and closed |
| Flashcards.Deck.ProcessReview | src/components/FlashcardDeck.tsx:53-90 | no current card changes nothing; otherwise the session's deck with the reviewed card replaced is saved, then the next card shows face down or, after the last, the deck reloads |
| Flashcards.Deck.Advance | src/components/FlashcardDeck.tsx:84-89 | the next due card face down, or a reload after the last one |
| Onboarding.AllUndecided | src/components/Onboarding.tsx:20-25 | the template, phase by phase, with only the undecided flag set |
| Onboarding.NoValidPhases | src/components/Onboarding.tsx:20-25 | an all-undecided schedule has no valid phase |
| Onboarding.InitialScheduleInert | src/components/Onboarding.tsx:19-27 | the initial schedule keeps the template's ids, names and dates, and has no active or upcoming phase at any time |
| Onboarding.NextStep | src/components/Onboarding.tsx:29-35 | the step moves on by one exactly from step 1 with a name that is not blank, or from step 2 with a year; otherwise it stays |
| Onboarding.StepsStayInRange | src/components/Onboarding.tsx:29-35 | the wizard stays within steps 1 to 3, never leaves step 3, and reaches step 3 only with a year |
| Onboarding.FilterStrict | src/components/Onboarding.tsx:39 | removing a year keeps the list strictly increasing |
| Onboarding.InsertStrict | src/components/Onboarding.tsx:39 | adding an absent year and sorting keeps the list strictly increasing |
| Onboarding.InsertLast | src/components/Onboarding.tsx:39 | a year no smaller than the others is placed last |
| Onboarding.SortStrict | src/components/Onboarding.tsx:39 | sorting a strictly increasing list leaves it as it is |
| Onboarding.ToggleYearSpec | src/components/Onboarding.tsx:37-41 | on a sorted list without duplicates, the year is removed when present and added when absent, other years are kept, and the list stays sorted without duplicates |
| Onboarding.StrictDetermined | src/components/Onboarding.tsx:37-41 | two strictly increasing lists with the same elements are equal |
| Onboarding.ToggleYearTwice | src/components/Onboarding.tsx:37-41 | toggling the same year twice gives back the list exactly |
| Onboarding.MinYear | src/components/Onboarding.tsx:44 | none exactly for no years; otherwise one of the years, no larger than any |
| Onboarding.PrimaryYearIsFirst | src/components/Onboarding.tsx:44-45 | on the sorted list the primary year is the first, and the exam date is `<year>-02-05T09:00:00` |
| Onboarding.FinishProfile | src/components/Onboarding.tsx:47-52 | trimmed name, the years as chosen, setup complete, and the exam date from the smallest year |
| Onboarding.BlankUndecided | src/components/Onboarding.tsx:55-59 | undecided phases lose both dates, decided ones are kept |
| Onboarding.BlankKeepsValidPhases | src/components/Onboarding.tsx:55-60 | blanking keeps exactly the same valid phases, so the saved schedule resolves as the edited one |
| Onboarding.BlankIdempotent | src/components/Onboarding.tsx:55-59 | blanking twice is blanking once |
| Onboarding.BlankAgreesWithEditor | src/components/Onboarding.tsx:55-60 | when every decided phase has both dates, the tracker's `saveEdit` would store the blanked schedule with the same undecided flags |
| Onboarding.PhasesEdited | src/components/Onboarding.tsx:65-67 | every phase with that id gets the edit; the others are kept |
| Onboarding.UndecidedClickTwice | src/components/Onboarding.tsx:226 | switching the undecided flag here keeps the dates, so a second click restores the schedule exactly |
| Onboarding.CustomPhase | src/components/Onboarding.tsx:69-76 | the new phase is `custom_<now>`, named "New Phase", undecided, starting and ending on the same day |
| Onboarding.AddedPhaseSavedBlank | src/components/Onboarding.tsx:69-78 | a phase added and left undecided is saved without dates, at the end |
| Onboarding.ProfileKept | src/components/Onboarding.tsx:53-60 | saving the schedule leaves the stored profile as it is |
| Onboarding.SaveSetup | src/components/Onboarding.tsx:53-60 | the profile is written, then the schedule sorted by start date; reading back gives both |
| Onboarding.Wizard.constructor | src/components/Onboarding.tsx:12-15 | step 1, no name, no years, an empty schedule |
| Onboarding.Wizard.MountEffect | src/components/Onboarding.tsx:19-27 | the schedule becomes the all-undecided template |
| Onboarding.Wizard.SetName | src/components/Onboarding.tsx:117 | only the name changes |
| Onboarding.Wizard.HandleNextStep | src/components/Onboarding.tsx:29-35 | the step becomes `NextStep`; reaching step 3 needs a year |
| Onboarding.Wizard.Back | src/components/Onboarding.tsx:246 | the step becomes 2 |
| Onboarding.Wizard.ToggleYear | src/components/Onboarding.tsx:37-41 | the years become the toggled list, which holds the year exactly when it did not before and stays sorted without duplicates |
| Onboarding.Wizard.HandleFinish | src/components/Onboarding.tsx:43-63 | the stored profile is `FinishProfile` and the stored schedule is the blanked schedule sorted by start date |
| Onboarding.Wizard.UpdatePhase | src/components/Onboarding.tsx:65-67 | the schedule becomes `PhasesEdited` of the old one |
| Onboarding.Wizard.AddPhase | src/components/Onboarding.tsx:69-78 | the custom phase is appended |
| Onboarding.Wizard.RemovePhase | src/components/Onboarding.tsx:80-82 | exactly the phases with another id remain |
| DailyTracker.WithHours | src/components/DailyTracker.tsx:27-40 | an empty or non-positive input changes nothing; otherwise the subject's total grows by the input, every other subject is kept, and keys stay unique |
| DailyTracker.PutSum | src/components/DailyTracker.tsx:35-38 | setting one subject's hours changes the sum by the difference |
| DailyTracker.TotalAfterAdd | src/components/DailyTracker.tsx:27-42 | adding positive hours adds exactly that much to the day's total |
| DailyTracker.RemoveAbsent | src/components/DailyTracker.tsx:44-48 | deleting a subject that has no hours changes nothing |
| DailyTracker.RemoveSum | src/components/DailyTracker.tsx:44-48 | deleting a subject takes its hours off the sum |
| DailyTracker.TotalAfterRemove | src/components/DailyTracker.tsx:44-48 | `removeSubjectHours` takes exactly that subject's hours off the total, and leaves it none |
| DailyTracker.PositiveSum | src/components/DailyTracker.tsx:71 | a sum of positive hours is never negative, and zero exactly for no entries |
| DailyTracker.AddKeepsPositive | src/components/DailyTracker.tsx:27-40 | adding hours keeps every amount positive |
| DailyTracker.RemoveKeepsPositive | src/components/DailyTracker.tsx:44-48 | removing a subject keeps every other amount positive |
| DailyTracker.HoursOn | src/components/DailyTracker.tsx:81-82 | 0 without a log of that date; otherwise the total of the first log of that date |
| DailyTracker.ShadeBands | src/components/DailyTracker.tsx:84-88 | the colour bands are 0, (0, 2], (2, 5], (5, 8] and above 8 hours, and more hours never give a paler colour |
| DailyTracker.GenerateHeatmap | src/components/DailyTracker.tsx:73-93 | 365 cells, cell `k` for the day `364 - k` days before today, each with that date's hours and colour |
| DailyTracker.Edited | src/components/DailyTracker.tsx:140-214 | a field edit of the form leaves its hours and topics as they were |
| DailyTracker.NewLog | src/components/DailyTracker.tsx:54-64 | the log takes the form's date, hours and weakest concept, with id `Date.now().toString()` |
| DailyTracker.SubmittedDayShows | src/components/DailyTracker.tsx:50-95 | after a submission the heatmap shows the form's total on the form's date |
| DailyTracker.Tracker.constructor | src/components/DailyTracker.tsx:8-25 | the stored logs and the initial form dated today |
| DailyTracker.Tracker.EditForm | src/components/DailyTracker.tsx:140-214 | the form becomes `Edited` of the old one; nothing else changes |
| DailyTracker.Tracker.SetInputs | src/components/DailyTracker.tsx:161-165 | only the subject select and the hours field change |
| DailyTracker.Tracker.AddSubjectHours | src/components/DailyTracker.tsx:27-42 | the form's hours become `WithHours` of the old ones; the field is cleared only when hours were added |
| DailyTracker.Tracker.RemoveSubjectHours | src/components/DailyTracker.tsx:44-48 | the subject leaves the form's hours |
| DailyTracker.Tracker.HandleSubmit | src/components/DailyTracker.tsx:50-69 | without a weakest concept nothing changes; otherwise the new log is saved, replacing any log of that date, and the list reloads from the store |
| DailyTracker.Tracker.TotalHoursToday | src/components/DailyTracker.tsx:71 | never negative, and zero exactly when the form has no hours |
| SubjectYield.AddLogHours | src/components/SubjectYield.tsx:16-18 | each subject's running total grows by that log's hours for it |
| SubjectYield.AccumulateHours | src/components/SubjectYield.tsx:14-19 | every subject's total is the sum of its hours over all logs |
| SubjectYield.CountErrors | src/components/SubjectYield.tsx:21-24 | every subject's count is its number of mistakes |
| SubjectYield.CountsOverStep | src/components/SubjectYield.tsx:21-24 | one more mistake adds one to the counts over a list of subjects for each time its subject is listed |
| SubjectYield.DistinctCount | src/constants.ts:3 | in a list without repeats an element occurs once if present, else not at all |
| SubjectYield.Ordinal | src/constants.ts:3 | the position of a subject in `SUBJECTS` holds that subject |
| SubjectYield.SubjectsDistinct | src/constants.ts:3 | no subject is listed twice in `SUBJECTS` |
| SubjectYield.SubjectsOnce | src/constants.ts:3 | every subject occurs exactly once in `SUBJECTS` |
| SubjectYield.NoErrorsNoCounts | src/components/SubjectYield.tsx:21-24 | no mistakes count nothing |
| SubjectYield.CountsOverOnce | src/components/SubjectYield.tsx:21-29 | over a list naming each subject once, the counts add up to the number of mistakes |
| SubjectYield.CountsAddUp | src/components/SubjectYield.tsx:21-29 | every mistake is counted against exactly one subject: the counts over `SUBJECTS` add up to the number of mistakes |
| SubjectYield.RowsOf | src/components/SubjectYield.tsx:26-29 | one row per subject in list order, with its hours and its mistakes (0 when absent) |
| SubjectYield.MergedDataSpec | src/components/SubjectYield.tsx:26-30 | twelve rows, one per subject with its hours and mistakes, in non-increasing order of hours |
| SubjectYield.TimeSinks | src/components/SubjectYield.tsx:58 | exactly the rows with more than ten hours and more than five mistakes |
| SubjectYield.LoadData | src/components/SubjectYield.tsx:10-33 | from the stored logs and mistakes: one row per subject with its total hours and mistakes, ordered by hours, most first |
| Dashboard.Keys | src/components/Dashboard.tsx:62 | the keys of a dictionary in entry order |
| Dashboard.FirstAppearancesSpec | src/components/Dashboard.tsx:60-61 | the subjects in order of first mistake: each subject with a mistake, once |
| Dashboard.CountStep | src/components/Dashboard.tsx:61 | one step of the counting loop keeps every count right |
| Dashboard.LookupStep | src/components/Dashboard.tsx:61 | one step keeps the count of any one subject right |
| Dashboard.LookupHit | src/components/Dashboard.tsx:61 | the subject just counted has one more mistake |
| Dashboard.LookupMiss | src/components/Dashboard.tsx:61 | every other subject keeps its count |
| Dashboard.ErrorsOfSnoc | src/components/Dashboard.tsx:61 | one more mistake adds one to its subject's count only |
| Dashboard.KeysStep | src/components/Dashboard.tsx:61 | a new subject's key is appended, a known one stays where it was |
| Dashboard.KeysAppend | src/components/Dashboard.tsx:62 | the keys of an appended entry list are the old keys plus the new key |
| Dashboard.SameKeys | src/components/Dashboard.tsx:61 | entry lists with the same keys position by position have the same keys |
| Dashboard.CountBySubject | src/components/Dashboard.tsx:60-61 | one entry per subject with a mistake, in order of its first mistake, holding its number of mistakes |
| Dashboard.WorstUnique | src/components/Dashboard.tsx:62 | there is only one worst subject: most mistakes, ties to the first mistake |
| Dashboard.SortedFirstIsWorst | src/components/Dashboard.tsx:62 | the first entry of the stable sort by count, most first, is the worst subject |
| Dashboard.GenerateObjectives | src/components/Dashboard.tsx:50-68 | two directives: log today until a log is dated today, then keep the streak; fix the worst subject when there are mistakes, else take a mock |
| Dashboard.GenerateInsights | src/components/Dashboard.tsx:70-84 | "Critical" exactly when the newest mock's accuracy is below 75, "Habit" exactly when the newest log is today's without revision, "Steady" exactly when neither fires and there are mocks; no repeats, Critical first |
| Dashboard.GhostPoints | src/components/Dashboard.tsx:37-40 | one point per mock, oldest first, with its date label and score |
| Dashboard.ChartData | src/components/Dashboard.tsx:91-95 | one point per mock, oldest first, with its date label, its score and the ghost's score at the same index when there is one |
| Dashboard.NewMockPlottedLast | src/components/Dashboard.tsx:91-95 | a mock saved at the front becomes the last point of the chart, and the older points stay |
| Dashboard.GhostOfSelf | src/components/Dashboard.tsx:29-48 | racing one's own exported mocks, the ghost line lies exactly on the score line |
| Dashboard.Board.constructor | src/components/Dashboard.tsx:17-27 | the three lists are read from the store, with the insights and directives they give for today; no ghost |
| Dashboard.Board.UploadGhost | src/components/Dashboard.tsx:29-48 | a parsed file with mocks becomes the ghost run; one without leaves it as it was |
| Dashboard.Board.RemoveGhost | src/components/Dashboard.tsx:136 | the ghost run is cleared; nothing else changes |
| MockTracker.Accuracy | src/components/MockTracker.tsx:49 | 0 without attempts; otherwise the number that, times the attempts, is 100 times the correct ones |
| MockTracker.TimeSpent | src/components/MockTracker.tsx:51 | a time of 0 counts as 180 minutes, so the time is never 0 |
| MockTracker.Tenths | src/components/MockTracker.tsx:51 | `toFixed(1)` gives the tenths nearest the number, halves away from zero |
| MockTracker.BadgesCover | src/components/MockTracker.tsx:159-165 | "High Error" and "Solid" never appear together, the dash exactly when no badge does, and every row shows one of the four |
| MockTracker.HighErrorMeansFewCorrect | src/components/MockTracker.tsx:161 | with attempts, "High Error" means fewer than three correct answers in four |
| MockTracker.NoAttemptsHighError | src/components/MockTracker.tsx:48-51 | without attempts the row is "High Error" and not "Slow" |
| MockTracker.SlowThreshold | src/components/MockTracker.tsx:162 | "Slow" appears exactly when the minutes per question are at least 3.55, the smallest time that rounds above 3.5 |
| MockTracker.NewMock | src/components/MockTracker.tsx:30-40 | id `Date.now().toString()`, out of 100 marks, the form's date, provider, score and attempts, and a time of 0 replaced by 180 |
| MockTracker.Page.constructor | src/components/MockTracker.tsx:9-24 | the stored mocks, the form closed and at its initial values dated today |
| MockTracker.Page.ToggleForm | src/components/MockTracker.tsx:66 | the form opens or closes; nothing else changes |
| MockTracker.Page.CloseForm | src/components/MockTracker.tsx:76 | the form closes; nothing else changes |
| MockTracker.Page.SetForm | src/components/MockTracker.tsx:84-117 | only the form changes |
| MockTracker.Page.HandleSubmit | src/components/MockTracker.tsx:26-46 | without a provider nothing changes; otherwise the new mock is saved first in the list, the list reloads, the form closes and its numbers reset |
| ErrorLog.Seconds | src/components/ErrorLog.tsx:59 | an empty time counts as 0 seconds |
| ErrorLog.ImageUrl | src/components/ErrorLog.tsx:61 | the image is kept exactly when one was selected and it is not empty |
| ErrorLog.NewError | src/components/ErrorLog.tsx:52-62 | never reviewed, id `Date.now().toString()`, with the form's fields, its seconds and the selected image |
| ErrorLog.ClearedForm | src/components/ErrorLog.tsx:66 | topic, notes and time are cleared; date, subject and mistake type stay |
| ErrorLog.ClearedNotAccepted | src/components/ErrorLog.tsx:50-66 | a cleared form is not accepted again until a topic and notes are typed |
| ErrorLog.FilteredErrors | src/components/ErrorLog.tsx:71-73 | "All" shows every entry; a subject shows exactly its entries |
| ErrorLog.FilterKeepsOrder | src/components/ErrorLog.tsx:71-73 | filtering a concatenation is concatenating the filtered parts |
| ErrorLog.FilteredCount | src/components/ErrorLog.tsx:71-73 | a subject's filtered list is as long as its mistake count |
| ErrorLog.FiltersPartition | src/components/ErrorLog.tsx:71-73 | every entry passes exactly one subject filter, so together the lists are as long as the whole log |
| ErrorLog.TimeSinkMinutes | src/components/ErrorLog.tsx:195-197 | the badge shows exactly above 180 seconds, with the whole minutes spent, at least 3 |
| ErrorLog.Page.constructor | src/components/ErrorLog.tsx:10-31 | the stored entries; form closed, no filter, no image, the initial form dated today |
| ErrorLog.Page.ToggleForm | src/components/ErrorLog.tsx:83 | the form opens or closes; nothing else changes |
| ErrorLog.Page.SetForm | src/components/ErrorLog.tsx:95-119 | only the form changes |
| ErrorLog.Page.SetFilter | src/components/ErrorLog.tsx:173 | only the filter changes |
| ErrorLog.Page.SelectImage | src/components/ErrorLog.tsx:33-46 | the compressed image becomes the selected one |
| ErrorLog.Page.RemoveImage | src/components/ErrorLog.tsx:144 | the attached image is dropped and nothing else changes |
| ErrorLog.Page.HandleSubmit | src/components/ErrorLog.tsx:48-69 | without topic or notes nothing changes; otherwise the entry is saved first, its image written out, the list reloads, topic, notes and time clear and the image is dropped |
| Rank.AddSyllabusXp | src/App.tsx:65 | the loop adds 200 points for each completed syllabus record |
| Rank.AllVisited | src/App.tsx:65 | visiting every key finds exactly the completed records |
| Rank.CompletedAdd | src/App.tsx:65 | visiting one more key adds it to the completed ones exactly when it is completed |
| Rank.Level | src/App.tsx:66 | the level is at least 1 and is the band of 500 points the total falls in |
| Rank.Progress | src/App.tsx:67 | the progress lies in [0, 100) and is the points into the current level, a fifth of a percent each |
| Rank.TitleMonotone | src/App.tsx:68-69 | the title never drops as the level rises: Novice Smith up to 5, Adept Forger up to 15, Iron Architect above |
| Rank.RankMonotone | src/App.tsx:64-69 | more points never give a lower level or title |
| Rank.CompletingAddsXp | src/App.tsx:64-65 | completing one more syllabus record adds 200 points |
| Rank.CalculateRank | src/App.tsx:60-71 | the rank of 100 points per mock, 50 per log and 200 per completed record, with a level of at least 1 and a progress in [0, 100) |
| Rank.Shell.constructor | src/App.tsx:43-47 | Novice at level 1 with no progress, not set up, still checking |
| Rank.Shell.Refresh | src/App.tsx:49-58 | the setup flag is read from the store and checking ends; after setup the rank is recomputed, before it the old rank stays |
| Rank.Shell.OnboardingComplete | src/App.tsx:73-76 | set up, and the rank recomputed from the store |
| Strategy.ProfileConstants | src/components/StrategySimulator.tsx:13-22 | the stop threshold is never below the recommended attempts, which lie in 45..65 and grow with the risk profile |
| Strategy.CalculateStrategy | src/components/StrategySimulator.tsx:9-29 | the profile's attempts and threshold, and a score of twice the right answers minus half the attempts |
| Strategy.AnswersSplit | src/components/StrategySimulator.tsx:24-25 | at an accuracy in 0..100 the right and wrong answers split the attempts, the right ones the floor of attempts times accuracy |
| Strategy.ScoreIsTwiceCorrectMinusHalf | src/components/StrategySimulator.tsx:24-26 | 1.5 per right answer minus 0.5 per wrong one is twice the right answers minus half the attempts |
| Strategy.ScoreMonotone | src/components/StrategySimulator.tsx:24-26 | for fixed attempts a higher accuracy never lowers the score |
| Strategy.DivMonotone | src/components/StrategySimulator.tsx:24 | the floor division by 100 is monotone |
| Strategy.ScoreBounds | src/components/StrategySimulator.tsx:24-26 | the score lies between minus half a mark and plus one and a half marks per attempt |
| Calculator.Slice14 | src/components/VirtualCalculator.tsx:161 | the first 14 characters, or the whole text when shorter |
| Calculator.ReplaceCaretsSpec | src/components/VirtualCalculator.tsx:176 | no `^` survives, each adds one character, and a text without one is left as it is |
| Calculator.ReplaceCaretsCons | src/components/VirtualCalculator.tsx:176 | the rewrite of a first character followed by the rest |
| Calculator.ReplaceCaretsConcat | src/components/VirtualCalculator.tsx:176 | the rewrite distributes over concatenation |
| Calculator.ReplaceCaretsStep | src/components/VirtualCalculator.tsx:176 | the inductive step of `ReplaceCaretsConcat` |
| Calculator.CaretsRoundTrip | src/components/VirtualCalculator.tsx:176 | on a text without `*`, turning `**` back into `^` restores it |
| Calculator.Fact | src/components/VirtualCalculator.tsx:153-155 | the loop computes the factorial of the number of rounds `i <= val` runs |
| Calculator.NewAverage | src/components/VirtualCalculator.tsx:80 | the new average times the new count of right answers is the old total time plus this one |
| Calculator.Answered | src/components/VirtualCalculator.tsx:76-96 | one more attempt; a right answer also counts as right, makes the average time the running mean over the right answers (new average times new count is old total plus this time) and may lower the best time to this one; a wrong one changes nothing else |
| Calculator.AnsweredKeepsSound | src/components/VirtualCalculator.tsx:76-96 | right answers stay between 0 and the attempts |
| Calculator.BestNeverRises | src/components/VirtualCalculator.tsx:86 | over any run of answers the best time never rises, and each answer adds one attempt |
| Calculator.Calc.constructor | src/components/VirtualCalculator.tsx:7-22 | display "0", empty expression, a new term, no drill with an empty target, answer 0 and start 0, and the stored counters |
| Calculator.Calc.HandleNum | src/components/VirtualCalculator.tsx:99-106 | a new term starts with the key; otherwise a lone "0" gives way to any key but ".", else the key is appended |
| Calculator.Calc.HandleOp | src/components/VirtualCalculator.tsx:108-115 | the display and the operator token are appended to the expression and a new term starts |
| Calculator.Calc.HandleClear | src/components/VirtualCalculator.tsx:188-192 | display "0" and a new term; "C" also empties the expression |
| Calculator.Calc.HandleBackspace | src/components/VirtualCalculator.tsx:194-201 | one character off, or "0" and a new term for one character; the display is never empty |
| Calculator.Calc.StartDrill | src/components/VirtualCalculator.tsx:61-67 | the drawn question and answer become the drill, started now, with display and expression cleared |
| Calculator.Calc.EndDrill | src/components/VirtualCalculator.tsx:351 | "End Drill" clears only the drill flag; target, feedback and statistics stay |
| Calculator.Calc.CheckAnswer | src/components/VirtualCalculator.tsx:70-97 | nothing without a drill; otherwise the counters become `Answered` for the time taken, the feedback says right or wrong, and the counters are stored |
| Calculator.Calc.HandleFact | src/components/VirtualCalculator.tsx:117-164 | the display is the factorial's text cut to 14 characters, a new term starts, and a running drill is answered with it: counters, feedback and the saved counters as `checkAnswer` sets them; the drill target is kept |
| Calculator.Calc.HandleEq | src/components/VirtualCalculator.tsx:170-186 | a throwing evaluation shows "Error" and keeps the expression; otherwise the result's text, cut to 14 characters, is shown, the expression empties, and a running drill is answered: counters, feedback and the saved counters as `checkAnswer` sets them; the drill target is kept |
| KnowledgeBot.CleanPart | src/components/KnowledgeBot.tsx:99 | a comma-free part that survives the clean-up is a clean keyword |
| KnowledgeBot.CleanKeywordsSound | src/components/KnowledgeBot.tsx:99 | comma-free parts give clean keywords, at most one per part |
| KnowledgeBot.CleanKeywordsOfBlanks | src/components/KnowledgeBot.tsx:99 | blank parts give no keywords |
| KnowledgeBot.KeywordsClean | src/components/KnowledgeBot.tsx:99 | every parsed keyword is non-empty, trimmed, comma-free and lower-case, and there are at most as many as comma-separated parts |
| KnowledgeBot.CleanKeywordsAppend | src/components/KnowledgeBot.tsx:99 | the clean-up works part by part |
| KnowledgeBot.SplitAround | src/components/KnowledgeBot.tsx:99 | a comma after a comma-free text splits off exactly that text |
| KnowledgeBot.KeywordsInOrder | src/components/KnowledgeBot.tsx:99 | the keywords before a comma come first, in the input's order |
| KnowledgeBot.SplitBlanks | src/components/KnowledgeBot.tsx:99 | splitting a text of blanks and commas gives blank parts |
| KnowledgeBot.NoKeywordsFromBlanks | src/components/KnowledgeBot.tsx:99 | a text of blanks and commas gives no keywords |
| KnowledgeBot.FindBestMatch | src/components/KnowledgeBot.tsx:49-56 | none exactly for a blank query or no results; otherwise the top result |
| KnowledgeBot.ReplyText | src/components/KnowledgeBot.tsx:74-81 | the matched answer, or the fallback text when nothing matched |
| KnowledgeBot.Chat.constructor | src/components/KnowledgeBot.tsx:9-43 | the stored base, the greeting as the only message, empty input and form, teach form closed, nothing pending |
| KnowledgeBot.Chat.SetInput | src/components/KnowledgeBot.tsx:196 | only the input changes |
| KnowledgeBot.Chat.SetTeachModal | src/components/KnowledgeBot.tsx:156 | only the teach form's visibility changes |
| KnowledgeBot.Chat.HandleSend | src/components/KnowledgeBot.tsx:58-72 | a blank input changes nothing; otherwise the user's message is appended, the input cleared, the typing flag set and the reply queued |
| KnowledgeBot.Chat.Reply | src/components/KnowledgeBot.tsx:73-92 | the oldest queued query is answered with `ReplyText`, id `Date.now() + 1`, and the typing flag is cleared |
| KnowledgeBot.Chat.SetTeachData | src/components/KnowledgeBot.tsx:260-286 | only the teach form changes |
| KnowledgeBot.Chat.HandleTeachSubmit | src/components/KnowledgeBot.tsx:95-130 | without keywords or answer nothing changes; otherwise the item is upserted into the stored base, the base reloaded, the form reset and closed, and a confirmation listing the keywords appended |
| KnowledgeBot.Chat.Teach | src/components/KnowledgeBot.tsx:99-129 | the stored base becomes the upsert of the new item, the shown base is what is stored, the form resets and closes, the confirmation is appended |
| CheatSheetPreview.CloseFrom | src/components/CheatSheetGenerator.tsx:39 | the lazy `.*?\*\*` ends at the nearest `**` after the opening one, with no line terminator before it; no match when every later `**` comes after a line terminator |
| CheatSheetPreview.MatchAt | src/components/CheatSheetGenerator.tsx:39 | a match of the split pattern opens and closes with `**` and is at least four characters long |
| CheatSheetPreview.SplitBoldParts | src/components/CheatSheetGenerator.tsx:39 | the split pieces concatenate back to the text and alternate between plain text and matched spans, the captured spans at odd positions |
| CheatSheetPreview.NoStarsOnePiece | src/components/CheatSheetGenerator.tsx:39 | a text with no `**` splits into itself alone |
| CheatSheetPreview.RenderPartSpec | src/components/CheatSheetGenerator.tsx:40-44 | a piece becomes `<strong>` exactly when it starts and ends with `**`, its text the piece without two characters at each end (empty for `**` and `***`); any other piece stays as it is |
| CheatSheetPreview.LoneStarsEmptyBold | src/components/CheatSheetGenerator.tsx:38-46 | the text `**` renders as one empty bold element |
| CheatSheetPreview.ParseInlineSpans | src/components/CheatSheetGenerator.tsx:38-46 | `parseInline` yields an odd number of elements, one per piece, and every odd-position element is the bold inner text of a matched span |
| CheatSheetPreview.PlainTextStaysPlain | src/components/CheatSheetGenerator.tsx:38-46 | text without `**` renders as one plain element holding the whole text |
| CheatSheetPreview.OneBlockPerLine | src/components/CheatSheetGenerator.tsx:26-36 | `parseMarkdown` makes one block per line (newlines plus one), the i-th block from the i-th line |
| CheatSheetPreview.ParseMarkdownLines | src/components/CheatSheetGenerator.tsx:26-36 | the blocks of a first line, a newline and the rest are the first line's block followed by the rest's blocks |
| CheatSheetPreview.HeadingByHashes | src/components/CheatSheetGenerator.tsx:29-31 | a line is a heading exactly when it starts with `#`; the level is the number of leading `#` capped at three and the text is the rest of the line, not parsed inline |
| CheatSheetPreview.BodyLines | src/components/CheatSheetGenerator.tsx:32-34 | a line not starting with `#` is a list item of its inline-parsed text after `-` when it starts with `-`, otherwise a spacer exactly when blank, otherwise a paragraph of the inline-parsed line |
| CheatSheetPreview.PrefixBeforeBlank | src/components/CheatSheetGenerator.tsx:29-33 | the prefix tests come before the blank test: `-` alone is an empty list item and `#` alone an empty H1 |
| CheatSheetPreview.Editor.constructor | src/components/CheatSheetGenerator.tsx:9-13 | on mount the editor shows the stored sheet's text and time, or the default sheet |
| CheatSheetPreview.Editor.SetContent | src/components/CheatSheetGenerator.tsx:6 | the text area sets the text and leaves the saved time |
| CheatSheetPreview.Editor.HandleSave | src/components/CheatSheetGenerator.tsx:15-24 | saving (also the first step of printing) stores the text with the current time, writes no backup, and the stored sheet then reads back as the text and time shown |
| CodeRunner.OutputsIdentify | src/components/CodeRunner.tsx:23-31 | the three outputs differ from each other, and the trace grows by four, two or no lines |
| CodeRunner.IndirectWriteSnippet | src/components/CodeRunner.tsx:23 | any code with `*p = 20` followed later by `printf` gets the "20" answer, even if it also contains `static` |
| CodeRunner.Runner.constructor | src/components/CodeRunner.tsx:6-14 | the editor starts with the snippet that writes 20 through `p`, an empty output and an empty trace |
| CodeRunner.Runner.SetCode | src/components/CodeRunner.tsx:6 | editing changes the code only |
| CodeRunner.Runner.HandleRun | src/components/CodeRunner.tsx:16-22 | a run shows "Tracing logic...", restarts the trace with the two initialisation lines and schedules the answer for the code as it is now |
| CodeRunner.Runner.Tick | src/components/CodeRunner.tsx:22-32 | the oldest pending timer sets the answer for the code it captured and appends that snippet's lines to the current trace |
| CodeRunner.RunToCompletion | src/components/CodeRunner.tsx:16-32 | a run whose timer fires undisturbed ends with the answer for the code and a trace of the two initialisation lines followed by the snippet's lines |
| Storage.GetBackupTimestamp | src/services/storageService.ts:273-281 | null without a backup, otherwise the backup's time stamp |
| Storage.BackupTimestampAfterBackup | src/services/storageService.ts:124-144 | after any save that takes a backup, the backup time is that save's time stamp |
| Storage.GetAllDataForExport | src/services/storageService.ts:283-299 | the export carries version "1.5" and the time of the call |
| Storage.ExportImportable | src/services/storageService.ts:283-316 | an exported file passes the import's time-stamp check, and importing it writes every data key |
| Storage.ExportImportRoundTrip | src/services/storageService.ts:283-316 | after importing an exported file every getter returns what it returned at export time |
| Storage.CompleteReadBackRecords | src/services/storageService.ts:249-271 | after restoring a backup holding every field, the mocks, errors, daily logs, syllabus, schedule and drill statistics read back as its fields |
| Storage.CompleteReadBackContent | src/services/storageService.ts:249-271 | the same for the knowledge base (when not empty), flashcards, cheat sheet, resources (normalised) and profile (when it has target years) |
| Storage.Store.SaveCheatSheet | src/services/storageService.ts:105-107 | stores the sheet without a backup; it then reads back as saved |
| Storage.Store.ResetSchedule | src/services/storageService.ts:231-233 | saves the default template, ordered by start date, with a backup |

## Left out

- Rendering: the JSX, CSS classes, animations, charts (the dashboard and subject-yield charts are modelled only as the data they are given), icons, the help and detail modals, and the `tailwind.config.js` theme.
- `App.tsx` navigation: the active tab and `renderContent`. Only `calculateRank` and the refresh of the profile after onboarding are modelled.
- Browser persistence: `localStorage` is a map, and JSON serialisation is taken as the identity. Quota errors caught around `createBackup` are not modelled; the backup is always written.
- Dialogs: `alert` is dropped. The answer to a `confirm` dialog is a `confirmed` parameter.
- Timers: each `setTimeout` and `setInterval` callback is a separate method call that takes `now`. The deferred callbacks run in the order they were scheduled.
- KnowledgeBot.Chat.Reply: searches the knowledge base as it is when the reply fires. The source's closure uses the search index of the render that sent the question. The two differ only when an item is taught within the 600 ms before the reply.
- Randomness: `generateDrill` draws a random question, and `StartDrill` takes the drawn question and its answer. The gauntlet (`Gauntlet.tsx`) is random and timer-driven and is not part of this model.
- Calculator floating point: the trigonometric, logarithm and square-root keys (`handleFunc`), the memory keys (`handleMemory`) and the angle mode are not modelled.
- Calculator.Calc.HandleEq: `eval` and the `yroot`/`logbase` rewrites are an `evaluate` parameter. Only the `^` rewrite is modelled.
- Calculator.Fact: computes `n!` on unbounded integers. The source multiplies IEEE doubles, which are exact only up to 22!; from 23! the product is rounded, from 171! it is `Infinity`, and for `val` = `Infinity` the loop never ends. The value passed to `checkAnswer` is that double.
- Calculator.Calc.HandleFact: shows the first 14 characters of the exact decimal digits of `n!`. `String(res)` agrees only up to 21!: from 22! (at least 10^21) it switches to exponent form, so 22! shows `1.124000727777` in the source and `11240007277776` in the model; from 171! the source shows `Infinity`.
- Calculator.IsCorrect: the drill's answer tolerance is modelled on exact reals, not IEEE doubles, and so is the running average time.
- Dashboard average accuracy: not modelled. The source divides without a zero-attempt guard, and its display of the resulting NaN is a floating-point matter.
- MockTracker.Tenths: `toFixed(1)` is modelled as exact rounding to tenths, halves away from zero. Binary floating-point representation error is not modelled.
- Fuse.js ranking in the knowledge bot is a `search` parameter with no constraint on what it returns. `KnowledgeBot.FindBestMatch` and `KnowledgeBot.ReplyText` promise only that the reply is the first result's answer, or the fallback for a blank query or an empty result list; nothing is claimed about which item Fuse.js ranks first.
- `compressImage`: `SelectImage` receives the compressed data URL.
- Desktop file plumbing: `saveFileToDisk` (`utils/fileSystem.ts`, `src/utils/fileSystem.ts`) is the `diskUrl` parameter. Electron's main and preload scripts are not part of this model.
- Model.InitialKnowledgeBase: keeps each built-in item's id, keywords and category. The answer texts are not reproduced and are the empty string.
- Time zones and daylight saving: local time equals UTC, so the date part of `toISOString` and `parseLocal`'s local midnight fall on the same day.
- `new Date(examDate)` on a full date-time string: the exam date is an instant given as a parameter. Only `parseLocal`'s `YYYY-MM-DD` form is parsed.
- Common.ToNumber: `Number(s)` is modelled for white space, the empty string and optionally signed decimal integers. Any other text, decimals and exponents included, is NaN.
- Common.ToLower: lowers only the ASCII letters `A`-`Z`. JavaScript's `toLowerCase` folds all of Unicode (`"Über"` becomes `"über"` there and stays `"Über"` here), so the keyword clean-up built on it, `KnowledgeBot.CleanKeywords`, is modelled for ASCII text only.
- KnowledgeBot.CleanPart: "lower-case" means free of `A`-`Z`, after the ASCII-only `Common.ToLower`; a non-ASCII capital letter may remain.
- KnowledgeBot.CleanKeywordsSound: the clean keywords it promises are lower-case in the ASCII sense of `Common.ToLower` only.
- KnowledgeBot.KeywordsClean: the parsed keywords are lower-case in the ASCII sense of `Common.ToLower` only.
- Rank.Progress: computed on exact reals. The source computes `(xp % 500) / 500 * 100` in doubles, whose last binary place can differ from the exact quotient.
- JavaScript numbers are IEEE doubles throughout the source and exact integers or reals throughout the model, so sums such as the daily hours total (`0.1 + 0.2` is `0.30000000000000004` in the source) and the percentages are exact here. The members with their own lines above say where else this shows.
- Shared-object mutation: phase objects are modelled by their values plus `links`, the index of the schedule phase each edit phase is the same object as. Other object sharing (the status records that `toggleCheck` mutates through its shallow copy) has no observable effect and is not modelled.
- Onboarding.Wizard.ToggleYear: the source sorts the years as strings. The model sorts them numerically; the two agree on four-digit years such as 2026-2030.
- Welcome's display of the sorted target years is not modelled.
- Storage.SortScheduleSpec: phases without a start date are compared through NaN, so their order is up to the JavaScript engine. The model places them after the dated phases in their original order and claims an order only among dated phases. The sort key is modelled with `parseLocal` (local midnight of `new Date(y, m - 1, d)`), whereas `saveSchedule` calls `new Date(start)`, whose date-only ISO form is read as UTC midnight and whose other forms are engine-specific. The two differ on years 0-99 (`"0050-03-01"` is year 50 for `new Date(start)` and 1950 for `parseLocal`), on out-of-range fields (`"2024-13-01"` is NaN for `new Date(start)` and rolls over into January 2025 for `parseLocal`), and on text that is not `YYYY-MM-DD`. `Storage.Store.SaveSchedule`, `Storage.Store.ResetSchedule`, `Onboarding.Wizard.SaveSetup` and `SyllabusTracker.Tracker.SaveEdit` inherit this key.
- The file-handling panels `SyllabusInfo.tsx` (file reading, the 1.5 MiB PDF cap, the image/PDF split) and `DataControl.tsx` (download, clipboard, reload) are not part of this model. The restore and import they call are modelled in `storage.dfy`.
- `UserManual.tsx` is static text and is not part of this model.
- The cheat sheet's print dialog is not modelled. Only the save that precedes it is.
