# Student Life Manager: a Dafny model of its derivation core

The application keeps three collections: tasks, announcements (also called
events) and daily notes. Everything it shows is derived from these
collections and the current instant. It ships in two versions that share one
data model:

- a React/TypeScript version: `src/utils/helpers.ts`, the views, the forms,
  the cards, `Index.tsx` and the `useNotifications` hook;
- a single-file DOM version: `script.js`.

This project models both versions' core as pure Dafny functions and states
what each one guarantees:

- **the date classifier.** "Today", "tomorrow", "overdue" and "upcoming" are
  each written the way the source writes them: date-fns `isToday`, `isPast`
  and `startOfDay` in one version; `setHours`, `toDateString` and millisecond
  comparisons in the other. Each test is proved to reduce to a comparison of
  day numbers.
- **the derivation engine.** This covers the task and announcement filters,
  the filter counts, the tasks' three-key sort, the deadline sort, the
  dashboard figures and previews, the urgent count, rounded progress, and
  both ways of grouping notes. Notes are grouped into 4 buckets in script.js
  and 5 in `NotesView`.
- **the entity mutators.** The forms' prefill and submit, and the list
  updates on edit, toggle and delete. `Index.tsx` updates every record with
  the id. script.js updates only the first one.
- **the deadline watch.** One tick of it is modelled as a pure function of
  the collections, the permission and the instant. The tick yields the
  alerts that would be sent and the tab title.

**Representation.**

- A `YYYY-MM-DD` string is modelled as an integer day number (`Types.Day`).
- An instant is an integer number of local milliseconds (`Clock.Instant`).
- `DayOf(now)` is "today".
- Ids and timestamps are strings.
- Fresh ids and the current ISO time are parameters.

Modules:

| module | file | models |
|---|---|---|
| `Types` | types.dfy | records and enumerations of `src/types/index.ts` |
| `Seqs` | seqs.dfy | `Array.filter`, `map`, `slice(0, n)` and their algebra |
| `Text` | text.dfy | `String.trim`, blankness, decimal rendering of a count |
| `Sorting` | sorting.dfy | a sort by a lexicographic key |
| `Clock` | clock.dfy | the date tests of both versions |
| `Helpers` | helpers.dfy | `src/utils/helpers.ts` |
| `Views` | views.dfy | filters, counts and sorts of the tasks and events views (both versions) |
| `Cards` | cards.dfy | badge flags of the task and announcement cards |
| `NoteGroups` | notegroups.dfy | both `groupNotesByDate` functions |
| `Dashboard` | dashboard.dfy | `DashboardView` and `renderDashboard`, the greeting |
| `Collections` | collections.dfy | the list updates of `Index.tsx` |
| `Forms` | forms.dfy | `TaskForm`, `AnnouncementForm`, `NoteForm` |
| `DomStore` | domstore.dfy | the in-place updates of script.js |
| `Notifications` | notifications.dfy | `useNotifications`, the page effects, script.js's permission request and `checkDeadlines` |

## Model

| member | source | states |
|---|---|---|
| Types.PriorityRankOrder | script.js:566-573 | high ranks before medium before low, and the rank determines the priority |
| Types.Flip | src/pages/Index.tsx:77-85 | a toggle turns pending into completed and completed into pending |
| Types.FlipInvolution | script.js:326-333 | toggling twice restores the status |
| Text.Trim | script.js:300 | the trimmed string has no leading or trailing whitespace and is a slice of the input |
| Text.BlankIffAllSpace | src/components/TaskForm.tsx:51 | `!title.trim()` holds exactly when every character is whitespace |
| Text.TrimFixpoint | src/components/TaskForm.tsx:55 | a string is its own trim exactly when it neither starts nor ends with whitespace |
| Text.TrimIdempotent | src/components/TaskForm.tsx:55 | trimming a trimmed value changes nothing |
| Text.TrimmedNonEmptyIsNotBlank | src/components/NoteForm.tsx:39-43 | a stored trimmed value that is non-empty passes the blank check |
| Text.Decimal | src/hooks/useNotifications.ts:89 | the rendering of a positive count is a non-empty string of digits with no leading zero |
| Text.DecimalRoundTrip | src/hooks/useNotifications.ts:89 | reading the digits back gives the count |
| Seqs.Filter | src/utils/helpers.ts:8-48 | an element is in the result exactly when it is in the input and passes, and the result is a subsequence |
| Seqs.FilterComplement | src/components/views/DashboardView.tsx:71-72 | the two sides of a complementary test split the list's length |
| Seqs.FilterMultiset | src/utils/helpers.ts:32-34 | a filter keeps each passing record as often as it occurs and drops the others |
| Seqs.FilterDisjointUnion | src/utils/helpers.ts:50-59 | a filter by a disjunction of disjoint tests counts the two tests' filters together |
| Seqs.Take | src/components/views/DashboardView.tsx:152 | `slice(0, n)` keeps the first min(n, length) records |
| Sorting.SortByKey | src/components/views/TasksView.tsx:149-158 | the result is a permutation of the input, ordered by the key |
| Clock.DayBounds | script.js:158-159 | an instant lies between its day's midnight and the next one |
| Clock.ComponentTestsReduce | src/utils/helpers.ts:8-48 | date-fns' `isToday`, `isTomorrow`, `isYesterday`, `isPast(startOfDay)` and `isFuture(startOfDay)` on a parsed date are day-number comparisons with today |
| Clock.ScriptTestsReduce | script.js:222-247 | script.js's `isToday`, `isOverdue` (end of day before now and not today), `isUpcoming` and `isTomorrow` are day-number comparisons with today |
| Clock.ScriptClassifierPartition | script.js:222-247 | every date is exactly one of today, overdue and upcoming, and tomorrow is upcoming |
| Clock.ComponentClassifierPartition | src/utils/helpers.ts:8-30 | the component tests sort every date into exactly one of today, past and future |
| Clock.ScriptMidnightTestsReduce | script.js:157-192 | the midnight comparisons of `checkDeadlines` are day-number comparisons |
| Clock.ScriptNoteBoundsReduce | script.js:643-660 | the today, yesterday and week-start thresholds of the note grouping are day-number thresholds |
| Helpers.TodayTasks | src/utils/helpers.ts:8-14 | exactly the pending tasks due today, in list order |
| Helpers.UpcomingTasks | src/utils/helpers.ts:16-22 | exactly the pending tasks due after today |
| Helpers.OverdueTasks | src/utils/helpers.ts:24-30 | exactly the pending tasks due before today |
| Helpers.CompletedTasks | src/utils/helpers.ts:32-34 | exactly the completed tasks |
| Helpers.TaskBucketsPartition | src/utils/helpers.ts:8-34 | every task is in exactly one of the four lists, and their lengths add up to the number of tasks |
| Helpers.UpcomingAnnouncements | src/utils/helpers.ts:36-41 | exactly the announcements whose registration closes today or later |
| Helpers.MissedAnnouncements | src/utils/helpers.ts:43-48 | exactly the announcements whose registration closed before today |
| Helpers.AnnouncementBucketsPartition | src/utils/helpers.ts:36-48 | upcoming and missed split the announcements |
| Helpers.UrgentCount | src/utils/helpers.ts:50-59 | overdue tasks, plus high-priority tasks due today, plus announcements closing today or tomorrow |
| Helpers.UrgentTasksSplit | src/utils/helpers.ts:50-59 | the task part of `getUrgentCount` (overdue length plus high-priority tasks among today's) counts the pending tasks that are overdue or high-priority and due today |
| Helpers.RoundDiv | src/utils/helpers.ts:64 | `Math.round(n / d)` for non-negative n and positive d: the nearest integer, with halves rounded up |
| Helpers.Progress | src/utils/helpers.ts:61-65 | 0 for no tasks; otherwise the completed share as a percentage rounded half up, between 0 and 100; 100 when every task is completed and 0 when none is |
| Helpers.RoundingBounds | src/utils/helpers.ts:64 | a percentage rounded half up from c completed of n tasks lies in [0, 100], is 100 when c = n and 0 when c = 0 |
| Helpers.RoundsHalfUpUnique | src/utils/helpers.ts:64 | at most one integer rounds a quotient half up, so the rounding bracket determines `Math.round`'s result |
| Helpers.ProgressWholePercent | src/utils/helpers.ts:61-65 | whenever the completed share is a whole percentage, the progress is exactly that percentage |
| Views.FilteredTasks | src/components/views/TasksView.tsx:54-67 | 'all' is the list itself; every other filter keeps exactly the tasks of its helper, as a subsequence |
| Views.CountTasks | src/components/views/TasksView.tsx:71-77 | every count is the length of its filtered list, and today, upcoming, overdue and completed add up to all |
| Views.CompareTasksIsKeyOrder | src/components/views/TasksView.tsx:150-158 | the comparator is negative, zero or positive exactly as the (status, priority, due date) key is below, equal to or above, and it is antisymmetric |
| Views.DisplayedTasks | src/components/views/TasksView.tsx:149-158 | the shown tasks are a permutation of the filtered ones, pending before completed, then by priority, then by due date |
| Views.SortedTasksOrder | src/components/views/TasksView.tsx:150-158 | a list sorted by the key puts pending before completed, then higher priority first, then earlier due date |
| Views.FilteredAnnouncements | src/components/views/AnnouncementsView.tsx:30-39 | 'all' is the list itself; 'upcoming' and 'missed' keep exactly the announcements of their helpers, as a subsequence of the input |
| Views.CountAnnouncements | src/components/views/AnnouncementsView.tsx:43-47 | upcoming and missed add up to all |
| Views.DisplayedAnnouncements | src/components/views/AnnouncementsView.tsx:140-147 | the shown announcements are a permutation of the filtered ones, in ascending registration deadline |
| Views.DomTaskFilterAgrees | script.js:547-563 | each filter of `renderTasksList`, with script.js's date tests, selects the same list as the component's filter |
| Views.DomDisplayedTasks | script.js:547-573 | the DOM tasks list is the component's displayed list |
| Views.DomCountTasks | script.js:671-677 | the DOM task filter counts equal the component's counts |
| Views.DomEventFilterAgrees | script.js:587-597 | 'upcoming' (not overdue) and 'missed' (overdue) select the component's upcoming and missed lists |
| Views.DomDisplayedEvents | script.js:587-600 | the DOM events list is the component's displayed list |
| Views.DomCountEvents | script.js:679-682 | the DOM event filter counts equal the component's counts |
| Cards.TaskCardFlags | src/components/TaskCard.tsx:40-42 | the overdue badge shows for a pending task due before today, and the due-today badge for a pending task due today |
| Cards.TaskCardAgreesWithLists | src/components/TaskCard.tsx:40-42 | the two badges never both show, a completed task shows neither, and each agrees with membership in its helper list |
| Cards.AnnouncementCardFlags | src/components/AnnouncementCard.tsx:14-18 | the missed, closes-today and closes-tomorrow flags are deadline < today, = today and = today + 1 |
| Cards.AnnouncementCardAgreesWithLists | src/components/AnnouncementCard.tsx:14-18 | at most one flag holds, none holds two or more days ahead, and "missed" agrees with the missed list |
| NoteGroups.SortNewestFirst | src/components/views/NotesView.tsx:22-24 | the notes sorted by descending date: a permutation of the input |
| NoteGroups.Collect | src/components/views/NotesView.tsx:47-53 | every group belongs to a listed bucket, is non-empty, and holds exactly that bucket's notes in input order |
| NoteGroups.CollectMultiset | src/components/views/NotesView.tsx:32-53 | every note of a listed bucket appears in the groups as often as in the input, and no other note does |
| NoteGroups.CollectConcatenates | script.js:650-668 | when bucket ranks ascend along the input, the groups joined together give back the input |
| NoteGroups.CollectRankOrder | script.js:663-666 | groups come in the order of the bucket list (Today, Yesterday, ...) |
| NoteGroups.CollectWellGrouped | script.js:650-668 | each note sits in the group of its bucket, groups are non-empty and in rank order |
| NoteGroups.DomGroupNotes | script.js:615-669 | the DOM grouping is well formed, its buckets are among Today, Yesterday, This Week and Older, and the groups joined give the notes newest first |
| NoteGroups.FilteredGroupsSorted | script.js:616 | each group's notes are in descending date order |
| NoteGroups.CalendarGroupNotes | src/components/views/NotesView.tsx:20-54 | the five-bucket grouping keeps every note exactly as often as it occurs, and its groups are well formed |
| NoteGroups.CalendarGroupsConcatenate | src/components/views/NotesView.tsx:20-54 | with week and month indices that never decrease and no note after today, the groups joined give the notes newest first |
| NoteGroups.FutureNoteListedAsOlder | src/components/views/NotesView.tsx:32-45 | a note dated tomorrow, when tomorrow is in another week and month, is grouped as Older and listed after today's note |
| NoteGroups.DomFutureNoteIsToday | script.js:652-653 | in the DOM grouping a note dated after today is grouped as Today |
| Dashboard.ComputeStats | src/components/views/DashboardView.tsx:64-72 | pending and completed add up to the task count; today's notes are exactly the notes dated today, in order; the task and announcement lists are the helpers' lists themselves; progress is 0 without tasks, otherwise rounded half up, and at most 100 |
| Dashboard.ShowPanels | src/components/views/DashboardView.tsx:144-256 | the overdue block shows exactly when there are overdue tasks; the previews are the first min(3, n) records; today's tasks are listed in full; the notes card shows exactly when there is a note today |
| Dashboard.PreviewsAreFromTheirLists | src/components/views/DashboardView.tsx:152 | every previewed overdue task is pending and due before today, and every previewed announcement is still open |
| Dashboard.DomComputeStats | script.js:492-545 | `renderDashboard`'s counts add up, its overdue, today and upcoming lists hold exactly the right records, and progress is at most 100 |
| Dashboard.DashboardVariantsAgree | script.js:492-545 | both dashboards show the same lists in the same order, and the same counts and progress |
| Dashboard.TimeOfDayAt | src/components/views/DashboardView.tsx:271-276 | morning before 12, afternoon from 12 to before 17, evening from 17 |
| Dashboard.GreetingsAgree | script.js:249-255 | `updateGreeting` greets with the same word as `getTimeOfDay` for every hour |
| Dashboard.HourOf | script.js:250 | the hour of an instant is below 24 and brackets the instant within its day |
| Collections.ReplaceById | src/pages/Index.tsx:69 | the same length; every record with the submitted id becomes the submitted record, and the others stay |
| Collections.Submit | src/pages/Index.tsx:67-75 | an edit replaces by id; an add appends the record after the unchanged list |
| Collections.SubmitEditUnknownId | src/pages/Index.tsx:68-69 | editing an id that is not in the list leaves the list unchanged |
| Collections.SubmitEditIdempotent | src/pages/Index.tsx:68-69 | submitting the same edit twice is the same as once |
| Collections.ToggleComplete | src/pages/Index.tsx:77-85 | every task with the id has its status flipped and nothing else changes |
| Collections.ToggleInvolution | src/pages/Index.tsx:77-85 | toggling twice restores the list |
| Collections.Delete | src/pages/Index.tsx:87-90 | the result is the subsequence of records whose id differs, with every such record kept |
| Collections.DeleteUnknownId | src/pages/Index.tsx:115-118 | deleting an unknown id changes nothing |
| Collections.DeleteIdempotent | src/pages/Index.tsx:141-144 | deleting twice is the same as once |
| Forms.OpenTaskForm | src/components/TaskForm.tsx:35-47 | a new task starts blank, 'study', 'medium' and due today; an edited task's fields are copied |
| Forms.SubmitTaskForm | src/components/TaskForm.tsx:49-61 | nothing is submitted exactly when the title is blank; the title is trimmed; an edit keeps the id, status and creation time unless they are empty, and a new task is pending with the fresh id and time |
| Forms.TaskFormRoundTrip | src/components/TaskForm.tsx:35-61 | opening a stored task and submitting it unchanged gives back the task |
| Forms.TaskEditFlow | src/pages/Index.tsx:67-75 | submitting an edit of a stored task replaces it in the list and keeps the list's length |
| Forms.OpenAnnouncementForm | src/components/AnnouncementForm.tsx:29-41 | a new announcement starts blank with both dates today; an edited one's fields are copied |
| Forms.SubmitAnnouncementForm | src/components/AnnouncementForm.tsx:43-54 | nothing is submitted exactly when the name is blank; the name and notes are trimmed; id and creation time are kept on edit and fresh on add |
| Forms.AnnouncementFormRoundTrip | src/components/AnnouncementForm.tsx:29-54 | opening a stored announcement and submitting it unchanged gives it back |
| Forms.OpenNoteForm | src/components/NoteForm.tsx:27-35 | a new note starts blank and dated today; an edited note's content and date are copied |
| Forms.SubmitNoteForm | src/components/NoteForm.tsx:37-46 | nothing is submitted exactly when the content is blank; the content is trimmed; id and creation time are kept on edit and fresh on add |
| Forms.NoteFormRoundTrip | src/components/NoteForm.tsx:27-46 | opening a stored note and submitting it unchanged gives it back |
| DomStore.FindIndex | script.js:309 | `findIndex`: the first position with the id, or none exactly when no record has it |
| DomStore.SubmitTask | script.js:294-324 | an add appends a pending task; an edit replaces only the first task with the id and keeps its status and creation time; an unknown id changes nothing |
| DomStore.TaskEditRoundTrip | script.js:294-324 | resubmitting a stored task's own fields leaves the list unchanged |
| DomStore.BlankTitleIsStored | script.js:294-319 | a submitted title that is blank (all white space) is not refused: the task is added with the empty title |
| DomStore.SubmitEvent | script.js:377-405 | the same add, edit and unknown-id behaviour for events, with the name and notes trimmed |
| DomStore.SubmitNote | script.js:447-473 | the same add, edit and unknown-id behaviour for notes, with the content trimmed |
| DomStore.ToggleTask | script.js:326-333 | only the first task with the id is flipped; an unknown id changes nothing |
| DomStore.ToggleTaskInvolution | script.js:326-333 | toggling twice restores the list |
| Notifications.InitialState | src/hooks/useNotifications.ts:6-7 | the hook starts at 'default' and disabled |
| Notifications.Mount | src/hooks/useNotifications.ts:9-14 | with the API, the browser's permission is copied and alerts are enabled exactly when it is 'granted'; without it nothing changes |
| Notifications.RequestPermission | src/hooks/useNotifications.ts:16-31 | false and no change without the API or on a throw; otherwise the result is recorded and the answer is whether it is 'granted' |
| Notifications.RequestsKeepConsistent | src/hooks/useNotifications.ts:16-31 | any series of requests keeps "enabled" equal to "permission is granted" |
| Notifications.ConsistentAfterRequests | src/hooks/useNotifications.ts:9-31 | from the mounted initial state, enabled always means granted |
| Notifications.DomRequestPermission | script.js:130-149 | a grant enables; a refusal, a throw or a missing API leaves the flag as it was |
| Notifications.DomRequestsEnable | script.js:130-149 | after a series of requests the DOM flag is set exactly when it started set or some request was granted |
| Notifications.HookRefusalDisables | src/hooks/useNotifications.ts:23-25 | a refusal after a grant disables the hook's alerts but not the DOM flag |
| Notifications.HookTaskAlert | src/hooks/useNotifications.ts:46-67 | no alert for a completed task; due today, tomorrow or earlier get the today, tomorrow and overdue texts, in that precedence; two or more days ahead gets none |
| Notifications.HookTaskAlerts | src/hooks/useNotifications.ts:46-67 | the task loop's alerts are those of the pending tasks due by tomorrow, in list order |
| Notifications.HookAnnouncementAlert | src/hooks/useNotifications.ts:70-84 | an alert exactly when registration closes today or tomorrow, with the matching text |
| Notifications.HookAnnouncementAlerts | src/hooks/useNotifications.ts:70-84 | the announcement loop's alerts are those of the announcements closing today or tomorrow, in list order |
| Notifications.HookCheckDeadlines | src/hooks/useNotifications.ts:42-85 | no alerts unless permission is 'granted'; then the task alerts followed by the announcement alerts |
| Notifications.HookAlertsWhichTasks | src/hooks/useNotifications.ts:46-67 | a completed task or one due two or more days ahead is never among the tasks the loop alerts; a pending task due today is always alerted, whatever its priority |
| Notifications.TabTitle | src/hooks/useNotifications.ts:87-93 | the title ends with the base title and is longer exactly when the count is positive, then starting with '(' and ending with ") " and the base |
| Notifications.TabTitleRoundTrip | script.js:194-200 | the count read back from the title is the count, or 0 when it is not positive |
| Notifications.IndexTick | src/pages/Index.tsx:40-54 | no alerts while disabled and the hook's deadline check while enabled; alerts imply enabled and granted; the title is the tab title of the urgent count and reads back as that count |
| Notifications.DomCheckDeadlines | script.js:157-201 | alerts only when enabled and granted: high-priority pending tasks due today, then events closing today or tomorrow; the urgent count is pending tasks due today or earlier plus events closing today; the title is the tab title of that count, reads back as it, and is the bare base exactly when it is 0 |
| Notifications.DomTaskPass | script.js:163-180 | the task loop counts pending tasks due today or earlier and alerts the high-priority ones due today |
| Notifications.DomEventPass | script.js:182-193 | the event loop counts events closing today and alerts those closing today or tomorrow |
| Notifications.DomTaskVisit | script.js:166-179 | with its midnight comparisons, one task counts exactly when it is pending and due today or earlier, and raises an alert exactly when alerts are on and it is a pending high-priority task due today |
| Notifications.DomEventVisit | script.js:183-192 | with its midnight comparisons, one event counts exactly when registration closes today, and raises an alert exactly when alerts are on and registration closes today or tomorrow |
| Notifications.UrgentCountsCompared | script.js:163-192 | the DOM urgent count plus the announcements closing tomorrow equals `getUrgentCount` plus the pending non-high tasks due today |

## Left out

- Storage, rendering and UI plumbing are not modelled: localStorage, the DOM, JSX, toasts, modals, view switching and the mobile navigation.
- Timers are not modelled: `setInterval`, and the re-run of effects on every change. One deadline check is one call of the tick functions.
- The Notification API is not modelled. The browser's permission, whether the API exists and how a request settles are parameters. The `icon` option is not modelled.
- `generateId`, `new Date().toISOString()` and `getTodayDateString()` are not modelled; fresh ids, creation times and today's day are parameters.
- Dates are not strings. A `YYYY-MM-DD` string is a day number, so the parsing of malformed dates is not modelled.
- `new Date('YYYY-MM-DD')` in script.js parses to UTC midnight, which west of UTC falls on the previous local day. The model treats every parsed date as local midnight, as `parseISO` does, and has no timezone offset or daylight-saving shifts.
- Helpers.RoundDiv: `Math.round` of a floating-point quotient is modelled as exact integer rounding half up; floating-point error is not modelled.
- NoteGroups.CalendarBucket: date-fns' `isThisWeek` and `isThisMonth` are abstracted as equality of a week index and a month index given as functions. Week starts and month lengths are not modelled.
- Sorting.SortByKey: stability is not stated. The source's sorts are stable, so records with equal keys keep their order there. Only ordering and permutation are proved here.
- `TasksView` and `AnnouncementsView` call `.sort` in place on the filtered array. Under the 'all' filter that array is the state array itself, so the state is reordered as a side effect. The model is pure and leaves the collections as they were.
- Notifications.HookCheckDeadlines: `sendNotification` checks the permission a second time; since the same value is tested, the model gates once.
- Notifications.DomCheckDeadlines: the live `Notification.permission` that `sendNotification` reads is a parameter, read once per tick.
- The DOM edit modals (`openTaskModal`, `openEventModal`, `openNoteModal`) are not modelled as functions. DomStore.TaskEditRoundTrip covers submitting a prefilled task unchanged.
- Date formatting for display (`formatDate`, `format` from date-fns) and the card labels are not modelled.
- `calculateProgress` is shown on the dashboard and the tasks view. Both use Helpers.Progress.

Where the behaviour described for the application and the code differ, the model follows the code:

- script.js's submit handlers do not check for blank input; DomStore.BlankTitleIsStored shows a blank title being stored.
- Editing an id that is not in the list does nothing, in both versions.
- `status: editTask?.status || 'pending'` keeps the stored status on edit; only an empty status would fall back.
- The DOM urgent count differs from `getUrgentCount` (Notifications.UrgentCountsCompared):
  - it counts every pending task due today, not only high-priority ones;
  - it leaves out announcements closing tomorrow.
- `NotesView` does not place a future-dated note under Today. When tomorrow is in another week and month, the note is listed under Older, after today's notes (NoteGroups.FutureNoteListedAsOlder). script.js puts it under Today.
