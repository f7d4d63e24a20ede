# UltimateTaskManager, modelled in Dafny

This project models the core of a single-page task manager, the class
`UltimateTaskManager` in `script.js`, plus the two global handlers of its
sign-up and sign-in forms. The class keeps each user's password hash,
tasks, projects and gamification stats in one `users` object, and the name
of the signed-in user in a separate `currentUser` field.

The list view also keeps:

- a current project, a filter and a search query;
- a 25-minute focus timer;
- a notification log.

The model covers:

- accounts: create, sign in, sign out and change password, with every guard
  and its message;
- the task repository: add (full form and quick add), toggle, delete, the
  board's drop handler, clear completed, mark all completed, track time and
  add project;
- the views computed from it: the filtered list, the statistics header, the
  three board columns, the calendar cell of a day and the due-date alert scan;
- the xp and level rule;
- the focus timer: start, pause, stop, complete, the one-second tick, focus
  with no task and start for a task.

The modules group the class's concerns by topic:

| module | file | contents |
|---|---|---|
| `Seqs` | `seqs.dfy` | `Option`; `Filter` (Array.prototype.filter) and its laws |
| `Text` | `text.dfy` | `trim`, `toLowerCase` on Latin-1, `includes`, `split`, the tag parser, decimal rendering |
| `Notifications` | `notifications.dfy` | the notification record and the texts the core shows |
| `Gamification` | `gamification.dfy` | the stats record, `addXp`'s rule, the payments of a toggle |
| `Tasks` | `tasks.dfy` | the task record and the list transforms of the repository operations |
| `Views` | `views.dfy` | the filter pipeline, the stats, the board columns, calendar day cells, the due scan |
| `Accounts` | `accounts.dfy` | the user record and the guard chains of the account operations |
| `FocusTimer` | `timer.dfy` | the timer object and its transitions, as functions |
| `Manager` | `manager.dfy` | the class `UltimateTaskManager`, its fields, and the methods that change them |

The class keeps the source's mutable fields: `currentUser`, `users`,
`currentProject`, `currentFilter`, `searchQuery`, `timer` and
`notifications`. Each method states its whole new state in terms of the
old state and the pure functions of the other modules. The properties the
application promises are proved about those functions as lemmas.

Instants are integer milliseconds. A due date is one instant, and the
calendar day of an instant is `floor(ms / 86400000)`. Record ids are opaque
integers that the caller supplies. The clock (`now`) is a parameter of
every operation that reads it.

Behaviours this model commits to where a reader might expect otherwise:

- `getStats` counts the tasks of every project, not only the current one
  (`Views.StatsCountEveryProject`, `Views.StatsAndViewDiffer`).
- `markAllCompleted` counts pending tasks after it has marked them all, so
  it always awards 0 xp (`Tasks.CompleteAllLeavesNothingPending`,
  `Manager.UltimateTaskManager.MarkAllCompleted`).
- `timerComplete` calls `stopTimer` before it tests `currentTask`. The
  test always fails, so the session's minutes are never credited to a task
  (`Manager.UltimateTaskManager.TimerComplete`).
- `toggleTask` pays 10 xp and one more completed task inside its `map`, for
  every task with the id that it flips to completed
  (`Manager.UltimateTaskManager.ToggleTask`). With distinct ids that is at
  most one payment (`Tasks.NewlyCompletedAtMostOne`).
- `changePassword` calls `showNotification` with two arguments. The text
  becomes the title, the word "error" or "success" becomes the message, and
  the kind stays the default `info` (`Notifications.TwoArgumentNotice`).
- The drop handler only sets `status`. A task whose id matches the dragged
  id keeps its completion flag, so a pending task moved to the done column
  is displayed there but stays pending (`Views.DropKeepsCompletion`). In
  the source the match itself fails for the tasks the app creates (see
  "Left out").
- When nobody is signed in, `this.users[this.currentUser]` looks up the
  key `"null"` (`Manager.UserKey`). `push` in add-task still works on a
  stored array that is found there. `saveTasks` stores only while someone
  is signed in.
- `btoa` throws on a character outside Latin-1. `HashPassword` returns
  `None` there, and each guard chain stops with `NotEncodable`, which shows
  no message.
- `this.users[name]` is also truthy for the names of `Object.prototype`'s
  members, so such a name counts as taken (`Accounts.NameTaken`).

## Model

| member | source | states |
|---|---|---|
| Text.Trim | script.js:45 | the result has no outer whitespace, is a contiguous slice of the input, and is empty exactly when the input is all whitespace |
| Text.Lower | script.js:669-672 | same length; each character is mapped to lower case, Latin-1 capitals included |
| Text.Contains | script.js:671-672 | `includes`: true exactly when the needle occurs at some offset |
| Text.Split | script.js:430 | at least one piece, no piece holds the separator, and joining the pieces gives back the input |
| Text.SplitJoin | script.js:430 | splitting a join of separator-free pieces gives back the pieces |
| Text.ParseTags | script.js:430 | every tag is non-empty, trimmed and free of commas |
| Text.ParseTagsJoin | script.js:430 | typing a list of valid tags comma-separated gives back exactly that list |
| Text.ParseTagsEmpty | script.js:430 | a tag field left blank gives no tags |
| Text.Decimal | script.js:776 | digits only, no leading zero, and the digits denote the number |
| Notifications.Prepend | script.js:820-836 | `unshift`: the new entry is first and the old log follows unchanged |
| Notifications.LevelUpNotice | script.js:776 | a success entry titled "Level Up!" whose message names the new level in decimal |
| Notifications.TwoArgumentNotice | script.js:123-146 | the text becomes the title, the kind word becomes the message, and the kind is info |
| Notifications.DueSoonNotice | script.js:343-347 | the kind is urgent exactly when 15 minutes or fewer remain, warning otherwise |
| Gamification.GainXp | script.js:769-781 | xp grows by exactly the award; the level rises by at most one, and rises exactly when the new xp reaches level*100; nothing else changes |
| Gamification.LevelUpNotes | script.js:775-777 | at most one entry, present exactly when the level rose, naming the new level with kind success |
| Gamification.GainXpKeepsLevelFormula | script.js:769-781 | with at most 100 xp per award, the level stays the one the xp formula gives |
| Gamification.ZeroAwardChangesNothing | script.js:733 | an award of 0 changes neither stats nor log |
| Gamification.GainXpRisesOneLevelOnly | script.js:773-777 | an award of 250 from level 1 reaches only level 2, behind the formula |
| Gamification.CompleteOne | script.js:487-489 | one completion adds 10 xp and one completed task |
| Gamification.CompletionAwardsTotals | script.js:484-498 | k completions add 10k xp and k completed tasks, raise the level by at most k, and log at most k entries |
| Tasks.EstimateField | script.js:429 | the `parseInt` fallback to null: no estimate for a missing or zero value; otherwise the parsed one |
| Tasks.CombineDue | script.js:421 | a due instant exactly when both date and time are given |
| Tasks.NewTask | script.js:423-436 | a new task is pending with no completedAt, untracked, unnotified, in the todo column, with the given id, text and project |
| Tasks.WithoutTask | script.js:504-508 | an ordered subsequence holding every task with another id as often as before, and none with the id |
| Tasks.DeleteUndoesAdd | script.js:504-508 | appending a task with a fresh id and deleting it restores the list |
| Tasks.DeleteAbsentIsIdentity | script.js:504-508 | deleting an id no task carries changes nothing |
| Tasks.PendingTasks | script.js:720-724 | an ordered subsequence holding every pending task as often as before, and no completed one |
| Tasks.Flip | script.js:486-496 | the flag flips, `completedAt` is now when completed and null otherwise, nothing else changes |
| Tasks.Toggled | script.js:484-498 | same length; tasks with the id are flipped, all others are identical |
| Tasks.ToggleAbsentIsIdentity | script.js:483-502 | toggling an id no task carries changes nothing |
| Tasks.ToggleTwice | script.js:483-502 | a pending task toggled twice is restored exactly; a completed one keeps only the second toggle's stamp |
| Tasks.ToggledKeepsRecorded | script.js:486-496 | toggling keeps "completedAt is set exactly when completed" |
| Tasks.NewlyCompletedAtMostOne | script.js:484-498 | with distinct ids a toggle pays at most once, and pays exactly when there is a pending task with the id |
| Tasks.SecondTogglePaysNothing | script.js:484-498 | toggling a task just completed pays nothing |
| Tasks.CompleteAll | script.js:726-735 | every task is completed; tasks already completed keep their `completedAt`, the others get now |
| Tasks.CompleteAllLeavesNothingPending | script.js:733 | after the marking no task is pending, so the award counts none |
| Tasks.CompleteAllKeepsRecorded | script.js:726-735 | marking all keeps the completedAt record invariant |
| Tasks.WithStatus | script.js:647-657 | same length; tasks with the id take the column's status, nothing else changes |
| Tasks.FindIndex | script.js:321 | `find`: the first index with the id, or the length when there is none |
| Tasks.TrackTimeOn | script.js:316-327 | the first task with the id gains the minutes; every other task is untouched |
| Views.SomeTagContains | script.js:672 | `some`: true exactly when some lowered tag contains the query |
| Views.SearchHit | script.js:670-673 | true exactly when the lowered text or a lowered tag contains the query |
| Views.SearchStep | script.js:668-674 | an ordered subsequence of the list whose tasks all match the query |
| Views.FilteredTasks | script.js:662-700 | an ordered subsequence of the list whose tasks are all in the project and pass the filter button |
| Views.FilteredTasksSelects | script.js:662-700 | the three steps equal one filter by "in the project, matches the search (when there is one), passes the button" |
| Views.FilteredTasksMembers | script.js:662-700 | the result is an ordered subsequence of the list, holding a task exactly when it is selected |
| Views.StatsOf | script.js:738-753 | the total is the list's length, the tracked time is the user's, and no counter exceeds the total |
| Views.StatsBounds | script.js:738-753 | completed and pending tasks split the total; overdue and urgent tasks are pending |
| Views.StatsCountEveryProject | script.js:738-753 | the total is the current project's count plus every other project's |
| Views.StatsAndViewDiffer | script.js:738-753 | one task in another project: the 'all' view is empty while the total is 1 |
| Views.BoardOf | script.js:593-595 | each column is an ordered subsequence of the shown tasks: pending todo, pending in-progress, and completed or done |
| Views.BoardPartitions | script.js:590-610 | the three columns hold every shown task exactly once |
| Views.OneColumn | script.js:593-595 | each task belongs to exactly one column |
| Views.DropKeepsCompletion | script.js:647-657 | a drop never changes completion; a pending task whose id matches, dropped on done, shows in done but stays pending |
| Views.DayTasks | script.js:567-570 | an ordered subsequence of the list, every task in it due on the given day |
| Views.CalendarPlacesTaskOnItsDay | script.js:567-570 | a dated task is in the cell of its own day and in no other |
| Views.ShouldNotify | script.js:332-343 | an alerted task is pending, unnotified, dated, and due after now and within the hour |
| Views.ShouldNotifyWindow | script.js:332-352 | an alert fires exactly for a pending, unnotified task due between one minute and one hour from now |
| Views.AlertUrgency | script.js:338-347 | an alert is urgent exactly when the task is due within 16 minutes |
| Views.DueAlerts | script.js:338-352 | one scan logs at most one entry per task |
| Views.DueAlertsInReverse | script.js:330-352 | one scan logs exactly one alert per task that passes the test and no other, the last such task first, as `unshift` leaves them |
| Views.AfterScan | script.js:338-352 | a task is marked notified exactly when it is alerted; nothing else changes |
| Views.Scanned | script.js:338-352 | the stored list: each task after the scan, in place |
| Views.ScanAlertsOnce | script.js:338-352 | a task alerted once is flagged, and no later scan alerts it again |
| Views.RescanIsQuiet | script.js:330-356 | scanning the stored list again raises no alert |
| Views.TenMinuteAlert | script.js:330-356 | a pending task due in ten minutes gets exactly one urgent alert |
| Accounts.HashPassword | script.js:40-42 | a hash exists exactly for Latin-1 passwords |
| Accounts.HashPasswordInjective | script.js:40-42 | equal hashes mean equal passwords |
| Accounts.NewUser | script.js:60-75 | a new account has no tasks, the four starting projects (inbox among them), level 1 and no xp, which is the level the xp formula gives |
| Accounts.NameTaken | script.js:50 | a stored name is taken; apart from the names every object inherits, a name is taken exactly when it is stored |
| Accounts.ErrorMessage | script.js:44-147 | every rejection shows a message, except the one from `btoa` throwing |
| Accounts.CreateUserCheck | script.js:44-81 | accepted exactly when both fields are non-blank, the name is free, the password has 4 or more characters and can be encoded |
| Accounts.LoginCheck | script.js:83-102 | accepted exactly when both fields are non-blank, the account exists and the hashes match; "not found" exactly when the name is free |
| Accounts.SignUpCheck | script.js:1088-1103 | differing passwords are refused first; otherwise createUser's verdict on the trimmed name |
| Accounts.PasswordFieldsCheck | script.js:117-135 | accepted exactly when all three fields are filled, the new password has 4 or more characters and both copies agree |
| Accounts.CurrentPasswordCheck | script.js:137-143 | accepted exactly when the current password hashes to the stored hash and the new one can be encoded |
| Accounts.CreateThenLogin | script.js:44-102 | after sign-up the same password signs in and any other is refused |
| Accounts.CreateTwiceRejected | script.js:50-53 | a name cannot be registered twice |
| Accounts.PaddedPasswordAccepted | script.js:44-58 | the length guard counts whitespace that the blank guard ignores |
| Accounts.ChangePasswordThenLogin | script.js:117-147 | after a change to a new password that is not blank, that password signs in |
| Accounts.BlankNewPasswordLocksOut | script.js:117-147 | the untrimmed guards accept a whitespace-only new password, and loginUser's trimmed guard then refuses it with the missing-credentials error |
| Accounts.FourSpacesPassFieldGuards | script.js:122-135 | four spaces pass all of changePassword's field guards and are blank |
| FocusTimer.Start | script.js:265-280 | a no-op while running; otherwise only `active` changes |
| FocusTimer.Pause | script.js:282-289 | a no-op while stopped; otherwise only `active` changes, the time left is kept |
| FocusTimer.Stop | script.js:291-297 | stopped, rewound to the session length, no task |
| FocusTimer.Complete | script.js:299-306 | stopped, rewound, no task left to credit |
| FocusTimer.Focus | script.js:242-249 | a fresh 25-minute session with no task; the running state is kept |
| FocusTimer.ForTask | script.js:982-992 | a fresh 25-minute session for the task; the running state is kept |
| FocusTimer.Tick | script.js:269-276 | still running exactly when more than one second was left; the one second off, or else rewound with no task; the session length is kept |
| FocusTimer.TickCases | script.js:269-276 | a tick takes one second off, or on the last second stops and rewinds |
| FocusTimer.OperationsKeepInvariant | script.js:242-306 | every operation keeps a full session length and a time left between 1 and it |
| FocusTimer.CountdownRunsToCompletion | script.js:265-280 | from T seconds left, n < T ticks leave T - n; T ticks stop the timer and rewind it |
| Manager.UserKey | script.js:402-404 | the lookup key is the signed-in name |
| Manager.UltimateTaskManager.CurrentTasks | script.js:402-404 | the signed-in user's tasks; no tasks when there is no record |
| Manager.UltimateTaskManager.CurrentProjects | script.js:359-361 | the signed-in user's projects; none when there is no record |
| Manager.UltimateTaskManager.constructor | script.js:3-28 | the starting view settings and timer; a saved user is signed in exactly when their record exists; the first due scan is applied |
| Manager.UltimateTaskManager.Login | script.js:104-108 | the session belongs to the given account |
| Manager.UltimateTaskManager.ShowNotification | script.js:820-836 | the entry is prepended to the log |
| Manager.UltimateTaskManager.CreateUser | script.js:44-81 | the verdict is CreateUserCheck's; on acceptance exactly the default record is added and the user is signed in; otherwise nothing changes |
| Manager.UltimateTaskManager.LoginUser | script.js:83-102 | the verdict is LoginCheck's; the session changes exactly on acceptance |
| Manager.UltimateTaskManager.Logout | script.js:110-115 | nobody is signed in |
| Manager.UltimateTaskManager.ChangePassword | script.js:117-147 | the field guards, then the current-password check; only acceptance stores the new hash; each outcome's log entry |
| Manager.UltimateTaskManager.SaveTasks | script.js:406-411 | the list is stored in the signed-in record only |
| Manager.UltimateTaskManager.AddXp | script.js:769-781 | the record's stats become GainXp's, and the log gets LevelUpNotes' entry |
| Manager.UltimateTaskManager.AddProject | script.js:363-373 | a trimmed, non-empty new name is appended, and a repeat changes nothing; project names stay distinct |
| Manager.UltimateTaskManager.ChangeProject | script.js:375-378 | the current project is the given one |
| Manager.UltimateTaskManager.FilterTasks | script.js:702-712 | the current filter is the given one |
| Manager.UltimateTaskManager.SearchTasks | script.js:714-717 | the search query is the given one |
| Manager.UltimateTaskManager.CreateTask | script.js:423-451 | the task is appended to the record and 5 xp are paid; nothing else changes |
| Manager.UltimateTaskManager.AddTask | script.js:413-451 | blank text changes nothing; otherwise the task built from the form is appended, in the current project, and 5 xp are paid |
| Manager.UltimateTaskManager.AddQuickTask | script.js:453-481 | the same with no tags and no estimate |
| Manager.UltimateTaskManager.PayCompletion | script.js:487-489 | 10 xp and one more completed task |
| Manager.UltimateTaskManager.ToggleTask | script.js:483-502 | the record gets the toggled list (when signed in) and one payment per task flipped to completed; the log gets their level-up entries |
| Manager.UltimateTaskManager.ToggleOne | script.js:484-498 | one callback: the task is flipped when it has the id, and it is paid for when it becomes completed |
| Manager.UltimateTaskManager.ToggleEach | script.js:484-498 | the map gives the toggled list and pays for every task it completed |
| Manager.UltimateTaskManager.DeleteTask | script.js:504-508 | the record keeps exactly the tasks with another id |
| Manager.UltimateTaskManager.DropOnColumn | script.js:647-657 | the record's tasks with the id take the column's status |
| Manager.UltimateTaskManager.ClearCompleted | script.js:720-724 | the record keeps exactly the pending tasks |
| Manager.UltimateTaskManager.MarkAllCompleted | script.js:726-735 | the record's tasks become CompleteAll's, and the award is GainXp by 0 |
| Manager.UltimateTaskManager.TrackTime | script.js:316-327 | the user's counter and the first task with the id gain the minutes |
| Manager.UltimateTaskManager.GetFilteredTasks | script.js:662-700 | the current project's tasks that match the search and filter, each exactly once, in list order |
| Manager.UltimateTaskManager.GetStats | script.js:738-753 | the counters over all the user's tasks, and their bounds |
| Manager.UltimateTaskManager.RenderBoard | script.js:590-610 | the three columns of the filtered list, which together hold it once |
| Manager.UltimateTaskManager.ScanOne | script.js:338-352 | one callback: the task after the scan, and its alert prepended |
| Manager.UltimateTaskManager.ScanEach | script.js:338-352 | the scanned list, and the run's alerts in front of the log |
| Manager.UltimateTaskManager.CheckDueTasks | script.js:330-356 | the stored record gets the scanned list, and the log the run's alerts |
| Manager.UltimateTaskManager.StartFocusTimer | script.js:242-249 | the timer becomes Focus's |
| Manager.UltimateTaskManager.StartTimer | script.js:265-280 | the timer becomes Start's |
| Manager.UltimateTaskManager.PauseTimer | script.js:282-289 | the timer becomes Pause's |
| Manager.UltimateTaskManager.StopTimer | script.js:291-297 | the timer becomes Stop's |
| Manager.UltimateTaskManager.TimerComplete | script.js:299-306 | the timer becomes Complete's; the "timer complete" entry is logged and no time is tracked |
| Manager.UltimateTaskManager.Tick | script.js:269-276 | the timer becomes Tick's; the entry is logged exactly on the last second |
| Manager.UltimateTaskManager.StartTimerForTask | script.js:982-992 | a fresh session for the first task with the id; the timer is unchanged when there is none |
| Manager.SignUp | script.js:1088-1103 | the verdict is SignUpCheck's; on acceptance the trimmed name is registered and signed in |
| Manager.LogIn | script.js:1105-1113 | the verdict is LoginCheck's on the trimmed name |

## Left out

- The DOM: rendering, modals, form reading and clearing, the theme and
  settings screens. The form values are the operations' parameters.
- `localStorage` and JSON: the constructor's `stored` and `savedUser`
  parameters stand for what `loadUsers` and the saved `currentUser` return.
  `saveUsers` is not modelled; the `users` field is the state it would write.
- Export and import of data: outside the modelled core. The `streak` and
  `achievements` fields of a new record keep their starting values, since
  nothing in the class updates them.
- `setInterval` and `setTimeout`: the tick and the due scan are methods for
  the caller to invoke.
- The id and display time of each notification entry, the badge, and the
  browser's `Notification` API. The log is a
  sequence of title, message and kind.
- Dates: `Date` parsing and formatting, time zones and the month grid of the
  calendar. Instants are integer milliseconds; the calendar cell of a day
  is modelled (`Views.DayTasks`), its layout is not.
- Ids: `Date.now()` and the float ids in the source; an id is a parameter.
- `checkAuth` with a saved name that is an `Object.prototype` member:
  the constructor models own keys only.
- `Text.Lower`: lower-cases ASCII and Latin-1 capitals only, not the rest
  of Unicode.
- String lengths count characters, not UTF-16 code units.
- `Accounts.HashPassword`: keeps the password in place of its base64 text.
  Only injectivity and the failure on non-Latin-1 input are modelled.
- `Manager.UltimateTaskManager.TimerComplete`: the call
  `trackTime(id, originalTime / 60)` cannot be reached and is not modelled.
- `updateStats` and the other display refreshes: they only redraw.
- `Manager.UltimateTaskManager.DropOnColumn`: the dragged id is taken to
  match the task's id. In the source the task id is
  `Date.now() + Math.random()`, a fraction, and `parseInt` of the dragged
  value cuts that fraction off. The `===` comparison then fails for every
  task the app creates, so the drop changes no status there.
- `Manager.UltimateTaskManager.ChangePassword`: requires a record once the
  field guards pass. Without one the source throws a TypeError on
  `user.password`; that path is not modelled.
- `Manager.UltimateTaskManager.AddXp`: requires a record. Without one the
  source throws a TypeError on `.stats`; that path is not modelled.
- `Manager.UltimateTaskManager.AddProject`: requires a record for a non-blank
  name. Without one the source throws a TypeError on `.projects.push`; that
  path is not modelled.
- `Manager.UltimateTaskManager.CreateTask`: requires a record, as `AddXp`
  does.
- `Manager.UltimateTaskManager.AddTask`: requires a record for non-blank text.
  Without one the source pushes onto a discarded `[]` and then throws a
  TypeError inside `addXp(5)`; that path is not modelled.
- `Manager.UltimateTaskManager.AddQuickTask`: the same as `AddTask`.
- `Manager.UltimateTaskManager.MarkAllCompleted`: requires a record. Without
  one the source throws a TypeError inside `addXp(0)`; that path is not
  modelled.
- `Manager.UltimateTaskManager.TrackTime`: requires a record. Without one the
  source throws a TypeError on `user.stats`; that path is not modelled.
- These methods are reached from the interface only while someone is signed
  in, who always has a record.
- `Accounts.PaddedPasswordAccepted`: stated for any password with one
  visible character and four or more characters in all, rather than for
  a single example.
