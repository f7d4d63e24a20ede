/** The read-only views UltimateTaskManager computes from a task list: the
    filtered list of getFilteredTasks, the counters of getStats, the three
    kanban columns of renderBoard, a calendar day of renderCalendar, and the
    decision and effect of the due-date scan checkDueTasks. */
module Views {
  import opened Seqs
  import opened Text
  import opened Tasks
  import opened Notifications

  const MsPerMinute: int := 60000
  const MsPerDay: int := 86400000
  /** The look-ahead of checkDueTasks: one hour. */
  const DueWindowMs: int := 60 * MsPerMinute

  /** toDateString in local time: the day an instant falls on. */
  function DayOf(t: Instant): int {
    t / MsPerDay
  }

  /** The filter buttons: 'all', 'today', 'urgent', 'completed', 'pending';
      any other name falls through the switch unfiltered. */
  datatype FilterName = AllTasks | Today | UrgentPending | CompletedOnly | PendingOnly | OtherFilter(name: string)

  /** The search test: the query, lowered, occurs in the lowered text or in
      some lowered tag. */
  ghost predicate MatchesQuery(t: Task, query: string) {
    Contains(Lower(t.text), query) || exists i :: 0 <= i < |t.tags| && Contains(Lower(t.tags[i]), query)
  }

  /** Array.prototype.some over the tags. */
  function SomeTagContains(tags: seq<string>, query: string): (b: bool)
    ensures b <==> exists i :: 0 <= i < |tags| && Contains(Lower(tags[i]), query)
  {
    if |tags| == 0 then false
    else
      var rest := SomeTagContains(tags[1..], query);
      assert forall i :: 1 <= i < |tags| ==> tags[1..][i - 1] == tags[i];
      Contains(Lower(tags[0]), query) || rest
  }

  /** The callback of the search step. */
  function SearchHit(t: Task, query: string): (b: bool)
    ensures b <==> MatchesQuery(t, query)
  {
    Contains(Lower(t.text), query) || SomeTagContains(t.tags, query)
  }

  predicate DueOn(t: Task, day: int) {
    t.dueDateTime.Some? && DayOf(t.dueDateTime.value) == day
  }

  /** The test each filter button applies; 'all' and unknown names keep everything. */
  predicate PassesFilter(t: Task, filter: FilterName, now: Instant) {
    match filter
    case Today => DueOn(t, DayOf(now))
    case UrgentPending => t.priority == Priority.Urgent && !t.completed
    case CompletedOnly => t.completed
    case PendingOnly => !t.completed
    case _ => true
  }

  /** Everything getFilteredTasks asks of one task, as a single condition. */
  ghost predicate Selected(t: Task, project: string, searchQuery: string, filter: FilterName, now: Instant) {
    t.project == project
    && (searchQuery != [] ==> MatchesQuery(t, Lower(searchQuery)))
    && PassesFilter(t, filter, now)
  }

  /** getFilteredTasks: project, then search (only for a non-empty query),
      then the filter button's switch. */
  function FilteredTasks(ts: seq<Task>, project: string, searchQuery: string, filter: FilterName, now: Instant): (r: seq<Task>)
    ensures IsSubsequence(r, ts)
    ensures forall t :: t in r ==> t in ts && t.project == project && PassesFilter(t, filter, now)
  {
    var inProject := Filter(ts, (t: Task) => t.project == project);
    FilterMembers(ts, (t: Task) => t.project == project);
    var searched := if searchQuery != [] then SearchStep(inProject, Lower(searchQuery)) else inProject;
    assert IsSubsequence(searched, ts) by {
      if searchQuery != [] {
        IsSubsequenceTransitive(searched, inProject, ts);
      }
    }
    match filter
    case Today =>
      var today := DayOf(now);
      var keep := (t: Task) => t.dueDateTime.Some? && DayOf(t.dueDateTime.value) == today;
      FilterWithin(searched, keep, ts);
      Filter(searched, keep)
    case UrgentPending =>
      var keep := (t: Task) => t.priority == Priority.Urgent && !t.completed;
      FilterWithin(searched, keep, ts);
      Filter(searched, keep)
    case CompletedOnly =>
      var keep := (t: Task) => t.completed;
      FilterWithin(searched, keep, ts);
      Filter(searched, keep)
    case PendingOnly =>
      var keep := (t: Task) => !t.completed;
      FilterWithin(searched, keep, ts);
      Filter(searched, keep)
    case _ => searched
  }

  /** The search step: the tasks whose text or tags contain the query, in order. */
  function SearchStep(ts: seq<Task>, query: string): (r: seq<Task>)
    ensures IsSubsequence(r, ts)
    ensures forall t :: t in r ==> t in ts && MatchesQuery(t, query)
  {
    FilterMembers(ts, (t: Task) => SearchHit(t, query));
    Filter(ts, (t: Task) => SearchHit(t, query))
  }

  /** The three steps of getFilteredTasks select exactly the tasks of the
      current project that match the search and the filter, keeping their
      order: one filter by the conjunction of the three tests. */
  lemma FilteredTasksSelects(ts: seq<Task>, project: string, searchQuery: string, filter: FilterName, now: Instant)
    ensures FilteredTasks(ts, project, searchQuery, filter, now)
         == Filter(ts, (t: Task) => Selected(t, project, searchQuery, filter, now))
  {
    var inProj := (t: Task) => t.project == project;
    var inProject := Filter(ts, inProj);
    var q := Lower(searchQuery);
    var hit := (t: Task) => SearchHit(t, q);
    var searchOk := (t: Task) => inProj(t) && (searchQuery != [] ==> MatchesQuery(t, q));
    var searched := if searchQuery != [] then SearchStep(inProject, q) else inProject;
    if searchQuery != [] {
      FilterTwice(ts, inProj, hit, searchOk);
    } else {
      FilterAgree(ts, inProj, searchOk);
    }
    assert searched == Filter(ts, searchOk);
    var pass := (t: Task) => PassesFilter(t, filter, now);
    var result := FilteredTasks(ts, project, searchQuery, filter, now);
    assert result == Filter(searched, pass) by {
      match filter
      case Today =>
        var today := DayOf(now);
        FilterAgree(searched, (t: Task) => t.dueDateTime.Some? && DayOf(t.dueDateTime.value) == today, pass);
      case UrgentPending =>
        FilterAgree(searched, (t: Task) => t.priority == Priority.Urgent && !t.completed, pass);
      case CompletedOnly =>
        FilterAgree(searched, (t: Task) => t.completed, pass);
      case PendingOnly =>
        FilterAgree(searched, (t: Task) => !t.completed, pass);
      case AllTasks =>
        FilterKeepsAll(searched, pass);
      case OtherFilter(_) =>
        FilterKeepsAll(searched, pass);
    }
    FilterTwice(ts, searchOk, pass, (t: Task) => Selected(t, project, searchQuery, filter, now));
  }

  /** What the view promises a reader: every listed task is in the current
      project, matches the search and the filter, and every such task is
      listed, in the order of the task list. */
  lemma FilteredTasksMembers(ts: seq<Task>, project: string, searchQuery: string, filter: FilterName, now: Instant)
    ensures var r := FilteredTasks(ts, project, searchQuery, filter, now);
            IsSubsequence(r, ts) &&
            forall t :: t in r <==> t in ts && Selected(t, project, searchQuery, filter, now)
  {
    FilteredTasksSelects(ts, project, searchQuery, filter, now);
    forall t ensures t in FilteredTasks(ts, project, searchQuery, filter, now)
                     <==> t in ts && Selected(t, project, searchQuery, filter, now) {
      FilterMembership(ts, (t: Task) => Selected(t, project, searchQuery, filter, now), t);
    }
  }

  /** The object getStats returns. */
  datatype TaskStats = TaskStats(total: nat, completed: nat, overdue: nat, urgent: nat, timeTracked: nat)

  predicate IsOverdue(t: Task, now: Instant) {
    t.dueDateTime.Some? && t.dueDateTime.value < now && !t.completed
  }

  predicate IsUrgentPending(t: Task) {
    t.priority == Priority.Urgent && !t.completed
  }

  predicate IsCompleted(t: Task) {
    t.completed
  }

  predicate IsPending(t: Task) {
    !t.completed
  }

  /** getStats: the counters over the whole task list of the user;
      `timeTracked` is the user's stats counter. */
  function StatsOf(ts: seq<Task>, timeTracked: nat, now: Instant): (s: TaskStats)
    ensures s.total == |ts| && s.timeTracked == timeTracked
    ensures s.completed <= s.total && s.overdue <= s.total && s.urgent <= s.total
  {
    TaskStats(|ts|, |Filter(ts, IsCompleted)|, |Filter(ts, (t: Task) => IsOverdue(t, now))|,
              |Filter(ts, IsUrgentPending)|, timeTracked)
  }

  /** The counters are consistent: completed and pending tasks split the
      total, and overdue and urgent tasks are pending ones. */
  lemma StatsBounds(ts: seq<Task>, timeTracked: nat, now: Instant)
    ensures var s := StatsOf(ts, timeTracked, now);
            s.total == |ts| && s.timeTracked == timeTracked &&
            s.completed + |Filter(ts, IsPending)| == s.total &&
            s.completed + s.overdue <= s.total &&
            s.completed + s.urgent <= s.total
  {
    FilterPartition(ts, IsCompleted, IsPending);
    FilterCountMonotone(ts, (t: Task) => IsOverdue(t, now), IsPending);
    FilterCountMonotone(ts, IsUrgentPending, IsPending);
  }

  /** getStats counts the tasks of every project, not only the current one:
      its total is the current project's count plus all the others. */
  lemma StatsCountEveryProject(ts: seq<Task>, project: string, timeTracked: nat, now: Instant)
    ensures StatsOf(ts, timeTracked, now).total
         == |Filter(ts, (t: Task) => t.project == project)| + |Filter(ts, (t: Task) => t.project != project)|
  {
    FilterPartition(ts, (t: Task) => t.project == project, (t: Task) => t.project != project);
  }

  /** A user whose one task is in another project sees an empty list under
      'all' while the header still counts one task. */
  lemma StatsAndViewDiffer(t: Task, project: string, now: Instant)
    requires t.project != project
    ensures FilteredTasks([t], project, [], AllTasks, now) == []
    ensures StatsOf([t], 0, now).total == 1
  {
  }

  predicate InTodoColumn(t: Task) {
    t.status == Todo && !t.completed
  }

  predicate InProgressColumn(t: Task) {
    t.status == InProgress && !t.completed
  }

  predicate InDoneColumn(t: Task) {
    t.completed || t.status == Done
  }

  /** The three columns of renderBoard, each a filter of the shown tasks. */
  datatype Board = Board(todo: seq<Task>, inProgress: seq<Task>, done: seq<Task>)

  function BoardOf(shown: seq<Task>): (b: Board)
    ensures IsSubsequence(b.todo, shown) && IsSubsequence(b.inProgress, shown) && IsSubsequence(b.done, shown)
    ensures forall i :: 0 <= i < |b.todo| ==> b.todo[i].status == Todo && !b.todo[i].completed
    ensures forall i :: 0 <= i < |b.inProgress| ==> b.inProgress[i].status == InProgress && !b.inProgress[i].completed
    ensures forall i :: 0 <= i < |b.done| ==> b.done[i].completed || b.done[i].status == Done
  {
    Board(Filter(shown, InTodoColumn), Filter(shown, InProgressColumn), Filter(shown, InDoneColumn))
  }

  /** Every task is in exactly one column, so the columns together hold each
      shown task once. */
  lemma BoardPartitions(shown: seq<Task>)
    ensures var b := BoardOf(shown);
            multiset(b.todo) + multiset(b.inProgress) + multiset(b.done) == multiset(shown) &&
            |b.todo| + |b.inProgress| + |b.done| == |shown|
  {
    var b := BoardOf(shown);
    forall t ensures (multiset(b.todo) + multiset(b.inProgress) + multiset(b.done))[t] == multiset(shown)[t] {
      OneColumn(t);
    }
    assert multiset(b.todo) + multiset(b.inProgress) + multiset(b.done) == multiset(shown);
    assert |multiset(b.todo) + multiset(b.inProgress) + multiset(b.done)| == |b.todo| + |b.inProgress| + |b.done|;
  }

  lemma OneColumn(t: Task)
    ensures (if InTodoColumn(t) then 1 else 0) + (if InProgressColumn(t) then 1 else 0)
            + (if InDoneColumn(t) then 1 else 0) == 1
  {
  }

  /** Dropping a pending task on the done column moves it there without
      completing it; dropping a completed task elsewhere leaves it in done. */
  lemma DropKeepsCompletion(ts: seq<Task>, id: TaskId, status: Status)
    ensures forall i :: 0 <= i < |ts| ==>
              WithStatus(ts, id, status)[i].completed == ts[i].completed
    ensures forall i :: 0 <= i < |ts| && ts[i].id == id && !ts[i].completed && status == Done ==>
              InDoneColumn(WithStatus(ts, id, status)[i]) && !WithStatus(ts, id, status)[i].completed
    ensures forall i :: 0 <= i < |ts| && ts[i].completed ==> InDoneColumn(WithStatus(ts, id, status)[i])
  {
  }

  /** The tasks of one calendar cell: those due on that day. */
  function DayTasks(ts: seq<Task>, day: int): (r: seq<Task>)
    ensures IsSubsequence(r, ts)
    ensures forall i :: 0 <= i < |r| ==> r[i].dueDateTime.Some? && DayOf(r[i].dueDateTime.value) == day
  {
    Filter(ts, (t: Task) => DueOn(t, day))
  }

  /** Each task with a due date appears in the cell of its own day and in no other. */
  lemma CalendarPlacesTaskOnItsDay(ts: seq<Task>, t: Task, day: int)
    requires t in ts && t.dueDateTime.Some?
    ensures t in DayTasks(ts, day) <==> day == DayOf(t.dueDateTime.value)
  {
    FilterMembership(ts, (x: Task) => DueOn(x, day), t);
  }

  /** Math.floor of the minutes from now until the due time. */
  function MinutesUntilDue(due: Instant, now: Instant): int {
    (due - now) / MsPerMinute
  }

  /** The pre-filter of checkDueTasks: pending, dated, due within the hour. */
  predicate InDueWindow(t: Task, now: Instant) {
    !t.completed && t.dueDateTime.Some? && t.dueDateTime.value <= now + DueWindowMs
  }

  /** The test inside the forEach that decides whether to alert. */
  function ShouldNotify(t: Task, now: Instant): (b: bool)
    ensures b ==> !t.completed && !t.notified && t.dueDateTime.Some?
    ensures b ==> now < t.dueDateTime.value <= now + DueWindowMs
  {
    InDueWindow(t, now)
    && var m := MinutesUntilDue(t.dueDateTime.value, now);
       m <= 60 && m > 0 && !t.notified
  }

  /** The alert fires exactly for an unnotified pending task due between one
      minute and one hour from now. */
  lemma ShouldNotifyWindow(t: Task, now: Instant)
    ensures ShouldNotify(t, now) <==>
              !t.completed && !t.notified && t.dueDateTime.Some?
              && now + MsPerMinute <= t.dueDateTime.value <= now + DueWindowMs
  {
    if t.dueDateTime.Some? {
      var d := t.dueDateTime.value - now;
      if MsPerMinute <= d <= DueWindowMs {
        assert 1 <= d / MsPerMinute <= 60;
      }
      if d < MsPerMinute {
        assert d / MsPerMinute <= 0;
      }
    }
  }

  /** The minutes the alert reports, as a nat once the alert fires. */
  function AlertMinutes(t: Task, now: Instant): nat
    requires ShouldNotify(t, now)
  {
    MinutesUntilDue(t.dueDateTime.value, now)
  }

  /** An alert is urgent exactly when the task is due within the next 16 minutes. */
  lemma AlertUrgency(t: Task, now: Instant)
    requires ShouldNotify(t, now)
    ensures DueSoonNotice(t.text, AlertMinutes(t, now)).kind == Notifications.Urgent
            <==> t.dueDateTime.value < now + 16 * MsPerMinute
  {
  }

  /** The alerts of one checkDueTasks run, newest first as unshift leaves them. */
  function DueAlerts(ts: seq<Task>, now: Instant): (log: seq<Notification>)
    ensures |log| <= |ts|
  {
    if |ts| == 0 then []
    else
      var last := ts[|ts| - 1];
      (if ShouldNotify(last, now) then [DueSoonNotice(last.text, AlertMinutes(last, now))] else [])
      + DueAlerts(ts[..|ts| - 1], now)
  }

  /** The alerts of a list of tasks that all pass the test, last task first. */
  function AlertsFor(fs: seq<Task>, now: Instant): (log: seq<Notification>)
    requires forall i :: 0 <= i < |fs| ==> ShouldNotify(fs[i], now)
  {
    seq(|fs|, i requires 0 <= i < |fs| => DueSoonNotice(fs[|fs| - 1 - i].text, AlertMinutes(fs[|fs| - 1 - i], now)))
  }

  /** A passing task at the end of the list puts its alert first. */
  lemma AlertsForSnoc(fs: seq<Task>, t: Task, now: Instant)
    requires forall i :: 0 <= i < |fs| ==> ShouldNotify(fs[i], now)
    requires ShouldNotify(t, now)
    ensures AlertsFor(fs + [t], now) == [DueSoonNotice(t.text, AlertMinutes(t, now))] + AlertsFor(fs, now)
  {
    var a := AlertsFor(fs + [t], now);
    var b := [DueSoonNotice(t.text, AlertMinutes(t, now))] + AlertsFor(fs, now);
    forall i | 0 <= i < |a| ensures a[i] == b[i] {
      if i > 0 {
        assert (fs + [t])[|fs| - i] == fs[|fs| - 1 - (i - 1)];
      }
    }
  }

  /** One scan logs exactly one alert per task that passes the test, and
      no other, newest first: the alerts of the passing tasks in reverse
      list order. */
  lemma {:induction false} DueAlertsInReverse(ts: seq<Task>, now: Instant)
    ensures DueAlerts(ts, now) == AlertsFor(Filter(ts, (t: Task) => ShouldNotify(t, now)), now)
    ensures |DueAlerts(ts, now)| == |Filter(ts, (t: Task) => ShouldNotify(t, now))|
    decreases |ts|
  {
    if |ts| > 0 {
      var p := (t: Task) => ShouldNotify(t, now);
      var init := ts[..|ts| - 1];
      var last := ts[|ts| - 1];
      assert ts == init + [last];
      FilterSnoc(init, last, p);
      DueAlertsInReverse(init, now);
      if ShouldNotify(last, now) {
        AlertsForSnoc(Filter(init, p), last, now);
      }
    }
  }

  /** The task after the scan: marked notified when it was alerted. */
  function AfterScan(t: Task, now: Instant): (r: Task)
    ensures r.notified == (t.notified || ShouldNotify(t, now))
    ensures r.(notified := t.notified) == t
  {
    if ShouldNotify(t, now) then t.(notified := true) else t
  }

  /** The task list checkDueTasks stores. */
  function Scanned(ts: seq<Task>, now: Instant): (r: seq<Task>)
    ensures |r| == |ts|
    ensures forall i :: 0 <= i < |ts| ==> r[i] == AfterScan(ts[i], now)
  {
    seq(|ts|, i requires 0 <= i < |ts| => AfterScan(ts[i], now))
  }

  /** One more task scanned: its alert goes to the front, its flag is set. */
  lemma ScanStep(ts: seq<Task>, now: Instant, i: int)
    requires 0 <= i < |ts|
    ensures DueAlerts(ts[..i + 1], now)
         == (if ShouldNotify(ts[i], now) then [DueSoonNotice(ts[i].text, AlertMinutes(ts[i], now))] else [])
            + DueAlerts(ts[..i], now)
    ensures Scanned(ts[..i + 1], now) == Scanned(ts[..i], now) + [AfterScan(ts[i], now)]
  {
    assert ts[..i + 1][..i] == ts[..i];
  }

  /** No task that passes the test means no alert. */
  lemma {:induction false} DueAlertsNone(ts: seq<Task>, now: Instant)
    requires forall i :: 0 <= i < |ts| ==> !ShouldNotify(ts[i], now)
    ensures DueAlerts(ts, now) == []
  {
    if |ts| > 0 {
      DueAlertsNone(ts[..|ts| - 1], now);
    }
  }

  /** A task is alerted at most once: after a scan no task passes the test
      again, at that instant or any later one. */
  lemma ScanAlertsOnce(ts: seq<Task>, now: Instant, later: Instant)
    ensures forall i :: 0 <= i < |ts| && ShouldNotify(ts[i], now) ==> !ShouldNotify(Scanned(ts, now)[i], later)
    ensures forall i :: 0 <= i < |ts| && ShouldNotify(ts[i], now) ==> Scanned(ts, now)[i].notified
  {
  }

  /** Scanning the stored list again at the same instant raises nothing. */
  lemma RescanIsQuiet(ts: seq<Task>, now: Instant)
    ensures DueAlerts(Scanned(ts, now), now) == []
  {
    DueAlertsNone(Scanned(ts, now), now);
  }

  /** A pending, unnotified task due in ten minutes gets one urgent alert. */
  lemma TenMinuteAlert(t: Task, now: Instant)
    requires !t.completed && !t.notified && t.dueDateTime == Some(now + 10 * MsPerMinute)
    ensures DueAlerts([t], now) == [DueSoonNotice(t.text, 10)]
    ensures DueSoonNotice(t.text, 10).kind == Notifications.Urgent
  {
    assert MinutesUntilDue(t.dueDateTime.value, now) == 10;
  }
}
