# TH75 to-do and focus timer: a Dafny model of the domain and state layer

TH75 is an iOS to-do list with a Pomodoro-style focus timer. Under its SwiftUI
screens (all in `TH75/ContentView.swift`) sits a small domain and state layer,
and this project models that layer:

- the records: tasks with priority, category, optional due date, creation and
  completion times and an estimated duration; focus sessions; the four badge
  tiers;
- the keyed coding of those records, and the four-key snapshot the app
  keeps in its key-value store, where each key falls back to empty on its own;
- the state holder `AppStateManager`: add, toggle, delete, record a session,
  reset, complete onboarding. Its aggregates are the completed and total
  counts, the completion ratio and the total focus time. The badge update
  runs after every session and after loading;
- the dashboard query `filteredTasks`: five filters, then one of four sorts;
- the focus countdown: select a duration, start, tick, pause, end, and
  auto-complete;
- the duration and clock texts, and the whitespace trimming that guards the
  new-task form.

Dates are whole-second timestamps (`int`). `Date()` becomes a `now`
parameter, and "today" becomes a `Query.Day` interval. `UUID()` becomes the
state holder's `nextId` counter. Focus durations are whole seconds (`nat`),
because the source only ever assigns the fixed lengths 15, 25 and 45 minutes
and subtracts 1. Stored data is modelled as records of optional fields, not
as JSON bytes.

Layout: `wrappers.dfy` (Option, Result), `text.dfy` (numerals, scanning,
trimming), `model.dfy` (records), `display.dfy` (the two `timeString`
helpers), `codec.dfy` (coding and snapshot), `tasklist.dfy` (list operations
and aggregates), `sessions.dfy` (total time, badge update), `store.dfy` (the
`AppStateManager` class and the new-task guard), `query.dfy` (filter and
sort), `timer.dfy` (the `FocusTimer` class), `scenarios.dfy` (runs from a
fresh store).

Behaviour of the code worth noting:

- An unknown priority or category raw value makes that task fail to decode.
  The decoder's `try ... decodeIfPresent` rethrows; it does not fall back to
  the default. A single bad element makes the whole stored list fall back
  to empty (`Codec.DecodeTaskFailure`, `Codec.CorruptTasksIsolated`).
- The countdown completes on the tick that finds zero seconds left. A
  25-minute session is recorded on the 1501st tick, not the 1500th
  (`Scenarios.RunFullSession`).
- The earned set never falls below the tiers the session count reaches, but
  it can hold more of them. Loading keeps the stored badges even when the
  stored sessions were lost. So `Valid()` states `BadgesFor(count) <= earned`,
  not equality.
- Toggling twice clears the completion time only for a task that started
  open. A completed task toggled twice is completed again, stamped with the
  second toggle's time (`Model.ToggleCompletionTwice`).
- Decoding does not check that a completed task has a completion time, so a
  load can yield a completed task without one (`Codec.DecodeKeepsInconsistency`).
  The state holder's operations keep that agreement where it already holds, and
  do not restore it.
- Only a toggle that finds its task writes the store. A delete always
  writes it.

## Model

| member | source | states |
|---|---|---|
| `Model.ParsePriorityInvertsRaw` | TH75/ContentView.swift:12-16 | a raw value parses to a priority exactly when it is that priority's raw value |
| `Model.ParseCategoryInvertsRaw` | TH75/ContentView.swift:37-45 | a raw value parses to a category exactly when it is that category's raw value |
| `Model.PriorityIndex` | TH75/ContentView.swift:553-554 | the index is the first position of the priority in `allCases`, so the `?? 0` fallback never applies |
| `Model.NewTask` | TH75/ContentView.swift:90-99 | a new task has the caller's fields, the given identity and `createdAt == now`; it is open and has no completion time |
| `Model.ToggleCompletion` | TH75/ContentView.swift:240-241 | the flag flips; the completion time is `now` when it becomes completed and absent otherwise; no other field changes |
| `Model.ToggleCompletionTwice` | TH75/ContentView.swift:238-244 | two toggles restore the flag; an open task with no completion time comes back unchanged |
| `Model.EstimatedDurationTextRoundTrip` | TH75/ContentView.swift:140-152 | reading "Xm", "Xh" or "Xh Ym" back gives the estimated minutes, so hours * 60 + minutes is the duration |
| `Model.EstimatedDurationTextInjective` | TH75/ContentView.swift:140-152 | different durations never show the same text |
| `Model.HoursMinutesTextValue` | TH75/ContentView.swift:149 | an "Xh Ym" text reads back as X * 60 + Y |
| `Model.ParseBadgeInvertsRaw` | TH75/ContentView.swift:182-186 | a raw value parses to a tier exactly when it is that tier's raw value |
| `Model.BadgesFor` | TH75/ContentView.swift:206-213 | a tier is reached exactly when the session count meets its requirement (5/15/30/50) |
| `Model.BadgesForMonotone` | TH75/ContentView.swift:284-288 | a larger session count reaches at least the same tiers |
| `Text.NatToStringValue` | TH75/ContentView.swift:142 | the decimal text of a count reads back as that count |
| `Text.ScanIntToString` | TH75/ContentView.swift:142 | an interpolated integer followed by a non-digit scans back as that integer and the rest |
| `Text.Pad2Value` | TH75/ContentView.swift:1367 | a `%02d` field reads back as its number |
| `Text.TrimSpec` | TH75/ContentView.swift:1152-1153 | the trimmed text is a contiguous piece of the input, everything cut off before and after it is white space, and it starts and ends with non-white-space |
| `Text.TrimEmptyIffBlank` | TH75/ContentView.swift:1161 | trimming gives the empty string exactly when the input is all white space, which disables the Add button |
| `Text.TrimIdempotent` | TH75/ContentView.swift:1152-1153 | trimming twice is trimming once |
| `Display.ClockTextRoundTrip` | TH75/ContentView.swift:1364-1368 | the "MM:SS" clock reads back as the seconds it shows |
| `Display.ClockTextWidth` | TH75/ContentView.swift:1364-1368 | under 100 minutes the clock is exactly five characters with the colon third |
| `Display.HoursMinutesTextRoundTrip` | TH75/ContentView.swift:1476-1485 | the settings text reads back as the whole minutes of the total seconds |
| `Codec.EncodeTask` | TH75/ContentView.swift:114-125 | every coded key but the two optional dates is always written |
| `Codec.DecodeTask` | TH75/ContentView.swift:101-112 | a decoded task carries the fresh identity it is given, never a stored one |
| `Codec.DecodeTaskFailure` | TH75/ContentView.swift:101-112 | decoding fails exactly when title, isCompleted or createdAt is missing, or a priority/category raw value is unknown |
| `Codec.DecodeTaskDefaults` | TH75/ContentView.swift:104-111 | in a decoded task, each optional key on its own is the stored value when present (the enum keys as their raw values) and the default ("", Medium, Personal, 30) when missing; required keys and dates are the stored ones |
| `Codec.DecodeKeepsInconsistency` | TH75/ContentView.swift:101-112 | a stored completed task with no completion time decodes as such |
| `Codec.TaskRoundTrip` | TH75/ContentView.swift:101-125 | encoding then decoding gives a task back with only the identity replaced |
| `Codec.EncodeIgnoresId` | TH75/ContentView.swift:75-88 | the identity is not among the coding keys, so it does not affect the encoding |
| `Codec.Renumbered` | TH75/ContentView.swift:75 | loaded tasks get identities first, first + 1, ... and keep every other field |
| `Codec.DecodeTasks` | TH75/ContentView.swift:307-310 | a list decodes when every element decodes, each with its own identity; otherwise some element fails |
| `Codec.TasksRoundTrip` | TH75/ContentView.swift:292-293 | an encoded task list decodes to the same tasks with identities renumbered |
| `Codec.DecodeSession` | TH75/ContentView.swift:169-173 | a session decodes exactly when both duration and completion time are present |
| `Codec.DecodeSessions` | TH75/ContentView.swift:312-315 | a session list decodes when every element does; otherwise some element fails |
| `Codec.SessionsRoundTrip` | TH75/ContentView.swift:295-296 | an encoded session list decodes to the same sessions |
| `Codec.EncodeBadgesFrom` | TH75/ContentView.swift:298-299 | the written list holds exactly the raw values of the earned tiers |
| `Codec.DecodeBadgeList` | TH75/ContentView.swift:317-320 | a badge list decodes when every raw value names a tier, to those tiers in order; otherwise some raw value is unknown |
| `Codec.DecodeBadges` | TH75/ContentView.swift:317-320 | the decoded set holds exactly the tiers whose raw values are stored |
| `Codec.BadgesRoundTrip` | TH75/ContentView.swift:298-299 | an encoded earned set decodes to the same set |
| `Codec.LoadedIds` | TH75/ContentView.swift:307-310 | loaded tasks carry the fresh identities 0, 1, ... |
| `Codec.SaveLoadRoundTrip` | TH75/ContentView.swift:291-323 | loading what was saved restores all four fields; only task identities are new |
| `Codec.CorruptTasksIsolated` | TH75/ContentView.swift:307-310 | a task list with one bad element loads as empty and leaves the other three fields as they were |
| `Codec.CorruptSessionsIsolated` | TH75/ContentView.swift:312-315 | a session list with one bad element loads as empty and leaves the other fields alone |
| `Codec.CorruptBadgesIsolated` | TH75/ContentView.swift:317-320 | a badge list with one unknown raw value loads as empty and leaves the other fields alone |
| `TaskList.FirstIndexOf` | TH75/ContentView.swift:239 | the index found holds the identity and no earlier task does; no index means no task has it |
| `TaskList.ToggleFlipsFirstMatchOnly` | TH75/ContentView.swift:238-244 | only the first task with the identity changes, and its flag flips with a matching completion time; an absent identity leaves the list unchanged |
| `TaskList.ToggleTwiceRestoresFlags` | TH75/ContentView.swift:238-244 | toggling twice restores every flag, and restores the whole list when that task was open with no completion time |
| `TaskList.ToggleKeepsConsistency` | TH75/ContentView.swift:240-241 | if every completion time matched its flag before a toggle, all still match after it |
| `TaskList.RemoveById` | TH75/ContentView.swift:247 | removal never lengthens the list |
| `TaskList.RemoveByIdContents` | TH75/ContentView.swift:247 | every task with the identity is gone, and every other task keeps its multiplicity |
| `TaskList.RemoveByIdAppend` | TH75/ContentView.swift:247 | removal distributes over concatenation, so the order of the rest is kept |
| `TaskList.RemoveAbsentId` | TH75/ContentView.swift:247 | removing an identity no task has changes nothing |
| `TaskList.RemovePresentId` | TH75/ContentView.swift:246-249 | with distinct identities, removing a present one cuts out exactly that task |
| `TaskList.CompletedCount` | TH75/ContentView.swift:265-271 | completed count is at most the total, equals it exactly when all are completed, and is 0 exactly when none is |
| `TaskList.CompletedCountAppend` | TH75/ContentView.swift:232-236 | appending a task adds one to the completed count exactly when that task is completed |
| `TaskList.ToggleChangesCountByOne` | TH75/ContentView.swift:238-244 | a toggle that finds its task moves the completed count by exactly one in the right direction |
| `TaskList.CompletionRatio` | TH75/ContentView.swift:273-276 | the ratio has a positive denominator and equals completed/total, or 0 for an empty list; it is 0 exactly when nothing is completed and 1 exactly when all of a non-empty list is completed |
| `Sessions.TotalDurationAppend` | TH75/ContentView.swift:278-280 | recording a session adds exactly its duration to the total focus time |
| `Sessions.TotalDurationBounds` | TH75/ContentView.swift:278-280 | the total is at least each session's duration |
| `Sessions.UpdateBadges` | TH75/ContentView.swift:282-289 | the loop over `allCases` yields the old set united with every tier the count reaches, so no tier is removed |
| `Sessions.UpdateIdempotent` | TH75/ContentView.swift:282-289 | updating twice with the same count is the same as once |
| `Sessions.BadgeThresholds` | TH75/ContentView.swift:206-213 | 4 sessions reach no tier, 5 reach bronze, 15 add silver, 30 add gold, 50 add platinum |
| `Store.AppStateManager.constructor` | TH75/ContentView.swift:304-323 | the holder starts from the loaded fields with the badges updated for the loaded session count; nothing is written back |
| `Store.AppStateManager.CompleteOnboarding` | TH75/ContentView.swift:227-230 | sets the flag, changes nothing else, writes the snapshot |
| `Store.AppStateManager.AddTask` | TH75/ContentView.swift:232-236 | appends exactly one new open task with a fresh identity; earlier tasks keep their order; writes the snapshot; if every task's completion time agreed with its flag, they still all do |
| `Store.AppStateManager.ToggleTask` | TH75/ContentView.swift:238-244 | the list becomes the toggled list; the snapshot is written only when the identity was found; agreement of completion times with flags is kept |
| `Store.AppStateManager.DeleteTask` | TH75/ContentView.swift:246-249 | the list becomes the list without that identity; identities stay distinct; writes the snapshot; agreement of completion times with flags is kept |
| `Store.AppStateManager.AddFocusSession` | TH75/ContentView.swift:251-256 | appends exactly one session stamped now, then unites the earned set with the tiers reached; writes the snapshot |
| `Store.AppStateManager.ResetProgress` | TH75/ContentView.swift:258-263 | tasks, sessions and badges all become empty; the onboarding flag stays; writes once |
| `Store.AppStateManager.CompletedTasksCount` | TH75/ContentView.swift:265-271 | the completed count never exceeds the total count |
| `Store.AppStateManager.CompletionPercentage` | TH75/ContentView.swift:273-276 | the ratio lies in [0, 1] and equals completed/total, and is 0 for an empty list |
| `Store.SubmitNewTask` | TH75/ContentView.swift:1150-1161 | a task is added exactly when the trimmed title is non-empty, with trimmed title and notes, one fresh identity used and the snapshot written; otherwise nothing changes, the snapshot included; sessions, badges and the onboarding flag stay either way |
| `Query.FilterTasks` | TH75/ContentView.swift:534-548 | every returned task passes the selected filter |
| `Query.FilterTasksContents` | TH75/ContentView.swift:534-548 | each passing task is kept as often as it occurs; each failing task is dropped |
| `Query.CategoryRawOrder` | TH75/ContentView.swift:561-562 | comparing category raw values as strings is comparing their alphabetical ranks |
| `Query.BeforeIsKeyLess` | TH75/ContentView.swift:550-566 | each of the four comparators is "less than" on a key, so each is a strict weak order |
| `Query.SameKeyIffTied` | TH75/ContentView.swift:550-566 | two tasks share a sort key exactly when the comparator orders neither before the other |
| `Query.SortTasksStable` | TH75/ContentView.swift:550 | the sort is stable: tasks that compare equal keep their input order, e.g. undated tasks under the due-date sort |
| `Query.FilterWithKey` | TH75/ContentView.swift:534-548 | filtering keeps the tasks of each sort key in their input order |
| `Query.SortTasksCorrect` | TH75/ContentView.swift:550-566 | the sort returns a permutation of its input in which no task comes before one that must precede it |
| `Query.FilteredTasksCorrect` | TH75/ContentView.swift:533-567 | the query returns exactly the passing tasks, with their multiplicities, ordered by the chosen comparator; tasks that compare equal keep the store's order |
| `Query.OverdueOnlyOverdue` | TH75/ContentView.swift:127-130 | the overdue filter keeps only open tasks whose due date is before now |
| `Query.DueDateOrder` | TH75/ContentView.swift:556-560 | by due date, every dated task precedes every undated one, and the dated ones ascend |
| `Query.PriorityOrder` | TH75/ContentView.swift:552-555 | by priority, the `allCases` index never increases along the result (urgent first) |
| `Query.CategoryOrder` | TH75/ContentView.swift:561-562 | by category, the raw values appear in alphabetical order |
| `Query.CreatedOrder` | TH75/ContentView.swift:563-564 | by creation, the most recently created tasks come first |
| `Query.HomeBeforeWork` | TH75/ContentView.swift:561-562 | sorting a Work task and a Home task by category puts Home first |
| `Timer.FocusTimer.constructor` | TH75/ContentView.swift:1171-1174 | the countdown starts idle with 25 minutes set and remaining |
| `Timer.FocusTimer.SelectDuration` | TH75/ContentView.swift:1220-1224 | while stopped, choosing one of the offered lengths sets both the length and the remaining time |
| `Timer.FocusTimer.Start` | TH75/ContentView.swift:1324-1325 | from a stopped countdown (the only state that shows Start), only the running flag changes, to true |
| `Timer.FocusTimer.Tick` | TH75/ContentView.swift:1326-1332 | with time left, it counts down by exactly one and touches nothing else; at zero, it stops, records one full-length session, rewinds, and writes the snapshot; tasks, identities and the onboarding flag stay |
| `Timer.FocusTimer.Pause` | TH75/ContentView.swift:1335-1339 | only the running flag changes, to false; nothing is recorded |
| `Timer.FocusTimer.End` | TH75/ContentView.swift:1341-1353 | stops and rewinds; records a session of the time spent exactly when that is at least 60 seconds, writing the snapshot and keeping tasks, identities and the onboarding flag, and otherwise leaves the state holder untouched |
| `Timer.FocusTimer.CompleteSession` | TH75/ContentView.swift:1355-1362 | stops, records one session of the full length, rewinds, writes the snapshot; tasks, identities and the onboarding flag stay |
| `Scenarios.FirstTask` | TH75/ContentView.swift:232-236 | adding a 15-minute task to an empty store gives one task shown as "15m", none completed |
| `Scenarios.RunFullSession` | TH75/ContentView.swift:1324-1362 | 1500 ticks of a 25-minute session record nothing; the 1501st records one 1500-second session and rewinds to 1500 |
| `Scenarios.EndEarly` | TH75/ContentView.swift:1341-1353 | ending after 30 ticks records nothing, stops and rewinds to 1500 |
| `Scenarios.EarnBadges` | TH75/ContentView.swift:251-263 | five sessions earn exactly bronze, fifteen exactly bronze and silver, and a reset empties the set |

## Left out

- The SwiftUI view bodies, animations, navigation and onboarding pages, and `TH75/LoadingView.swift`, are presentation only. From the new-task form, only the trimming guard is modelled.
- `Color(hex:)`, `AppTheme` and the `color`/`icon` tables of the enums are presentation. They end in library colours.
- The bytes of JSON and UserDefaults are left out, so saving is modelled as the snapshot record it writes. A blob that is not a list, or a missing key, is `None`. A value of the wrong JSON type for a field is not modelled; records carry typed fields. A failure to encode is not modelled either, so `Save` is total.
- `Timer.scheduledTimer` and its invalidation are runloop scheduling. `Timer.FocusTimer.Tick` is the timer's body, and it requires a running countdown, because the timer exists only then. Starting twice cannot happen from the screen (the Start button is shown only while stopped, lines 1239-1241), so `Timer.FocusTimer.Start` requires a stopped countdown.
- `dueDateText`, `formatDate` and `Calendar.isDateInToday` depend on locale and calendar libraries. "Today" is a supplied `Query.Day` interval.
- `completionPercentage` is a `Double`, and the screens show `Int(percentage * 100)`. This is floating point, so the model keeps the exact ratio (`TaskList.Ratio`) and no percentage text.
- `totalFocusTime` is a sum of `TimeInterval`s. It is an exact `nat` sum here, because every recorded duration is a whole number of seconds.
- The progress ring's `1 - timeRemaining / sessionDuration` is presentation and is left out.
- `FocusSession.id` is a fresh UUID that the core never reads, so it is left out.
- Swift's 64-bit `Int` traps on overflow. Durations and timestamps are unbounded here, because no operation of the core comes near the limit.
- `Query.SortTasks`: Swift 5's `sorted(by:)` is a stable sort, and the model's insertion sort is stable too (`Query.SortTasksStable`). The algorithm itself, and its running time, are not modelled.
