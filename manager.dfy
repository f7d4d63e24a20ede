/** The UltimateTaskManager object: the signed-in user, the `users` object
    holding every account, the list view settings, the focus timer and the
    notification log, with the methods that change them. */
module Manager {
  import opened Seqs
  import opened Text
  import opened Tasks
  import opened Gamification
  import opened Notifications
  import opened Views
  import opened Accounts
  import opened FocusTimer

  /** The property key of `this.users[this.currentUser]`: keys are strings,
      so with nobody signed in the lookup is for the key "null". */
  function UserKey(currentUser: Option<string>): (key: string)
    ensures currentUser.Some? ==> key == currentUser.value
  {
    if currentUser.Some? then currentUser.value else "null"
  }

  /** Storing twice under one key keeps only the second value. */
  lemma OverwriteEntry<K, V>(m: map<K, V>, key: K, a: V, b: V)
    ensures m[key := a][key := b] == m[key := b]
  {
  }

  /** The bookkeeping behind one payment of toggleTask's map: paying once
    more turns the record and log after k completions into those after k + 1. */
  lemma PayStep(base: map<string, User>, key: string, u: User, log0: seq<Notification>, k: nat)
    ensures var m := base[key := u.(stats := CompletionAwards(u.stats, k))];
            m[key := m[key].(stats := CompleteOne(m[key].stats))] == base[key := u.(stats := CompletionAwards(u.stats, k + 1))]
            && LevelUpNotes(m[key].stats, TaskCompletedXp) + (CompletionNotes(u.stats, k) + log0) == CompletionNotes(u.stats, k + 1) + log0
  {
    var st := CompletionAwards(u.stats, k);
    var m := base[key := u.(stats := st)];
    assert m[key] == u.(stats := st);
    CompletionStep(u.stats, k);
    OverwriteEntry(base, key, u.(stats := st), u.(stats := CompleteOne(st)));
    var notes := CompletionNotes(u.stats, k);
    assert LevelUpNotes(st, TaskCompletedXp) + (notes + log0) == (LevelUpNotes(st, TaskCompletedXp) + notes) + log0;
  }

  class UltimateTaskManager {
    var currentUser: Option<string>
    var users: map<string, User>
    var currentProject: string
    var currentFilter: FilterName
    var searchQuery: string
    var timer: Timer
    var notifications: seq<Notification>

    /** A signed-in user has a non-empty name and a record. */
    ghost predicate SessionValid()
      reads this`currentUser, this`users
    {
      currentUser.Some? ==> currentUser.value != [] && currentUser.value in users
    }

    ghost predicate Valid()
      reads this`currentUser, this`users, this`timer
    {
      SessionValid() && TimerInvariant(timer)
    }

    function Key(): string
      reads this`currentUser
    {
      UserKey(currentUser)
    }

    /** `this.users[this.currentUser]` is a record. */
    predicate HasRecord()
      reads this`currentUser, this`users
    {
      Key() in users
    }

    /** getTasks: the signed-in user's list, or none. */
    function CurrentTasks(): (ts: seq<Task>)
      reads this`currentUser, this`users
      ensures SessionValid() && currentUser.Some? ==> ts == users[currentUser.value].tasks
      ensures !HasRecord() ==> ts == []
    {
      if HasRecord() then users[Key()].tasks else []
    }

    /** getProjects: the signed-in user's projects, or none. */
    function CurrentProjects(): (ps: seq<string>)
      reads this`currentUser, this`users
      ensures SessionValid() && currentUser.Some? ==> ps == users[currentUser.value].projects
      ensures !HasRecord() ==> ps == []
    {
      if HasRecord() then users[Key()].projects else []
    }

    /** The user whose tasks and stats the methods work on. */
    function Record(): User
      reads this`currentUser, this`users
      requires HasRecord()
    {
      users[Key()]
    }

    /** The constructor and init: the stored accounts, the starting view
      settings, checkAuth's automatic sign-in, and a first due-date scan. */
    constructor (stored: map<string, User>, savedUser: Option<string>, now: Instant)
      ensures Valid()
      ensures currentUser == if savedUser.Some? && savedUser.value != [] && savedUser.value in stored
                             then savedUser else None
      ensures var key := UserKey(currentUser);
              users == if key in stored then stored[key := stored[key].(tasks := Scanned(stored[key].tasks, now))]
                       else stored
      ensures notifications == DueAlerts(if UserKey(currentUser) in stored then stored[UserKey(currentUser)].tasks else [], now)
      ensures currentProject == "inbox" && currentFilter == AllTasks && searchQuery == [] && timer == Initial()
    {
      currentUser := None;
      users := stored;
      currentProject := "inbox";
      currentFilter := AllTasks;
      searchQuery := [];
      timer := Initial();
      notifications := [];
      new;
      if savedUser.Some? && savedUser.value != [] && savedUser.value in users {
        Login(savedUser.value);
      }
      CheckDueTasks(now);
    }

    /** login: the session now belongs to the given account. */
    method Login(username: string)
      requires TimerInvariant(timer)
      requires username != [] && username in users
      modifies this`currentUser
      ensures Valid() && currentUser == Some(username)
    {
      currentUser := Some(username);
    }

    /** showNotification: the new entry goes to the front of the log. */
    method ShowNotification(n: Notification)
      modifies this`notifications
      ensures notifications == Prepend(old(notifications), n)
    {
      notifications := [n] + notifications;
    }

    /** createUser: runs the guards and, when all pass, stores the default
      record under the name and signs the new user in. */
    method CreateUser(username: string, password: string, now: Instant) returns (v: Verdict)
      requires Valid()
      modifies this`users, this`currentUser
      ensures Valid()
      ensures v == CreateUserCheck(old(users), username, password)
      ensures v == Accepted ==> users == old(users)[username := NewUser(Encoded(password), now)]
                                && currentUser == Some(username)
      ensures v != Accepted ==> users == old(users) && currentUser == old(currentUser)
    {
      if IsBlank(username) || IsBlank(password) {
        return Rejected(MissingCredentials);
      }
      if NameTaken(users, username) {
        return Rejected(UsernameExists);
      }
      if |password| < MinPasswordLength {
        return Rejected(PasswordTooShort);
      }
      var hash := HashPassword(password);
      if hash.None? {
        return Rejected(NotEncodable);
      }
      users := users[username := NewUser(hash.value, now)];
      Login(username);
      return Accepted;
    }

    /** loginUser: signs in when the stored hash matches the password's. */
    method LoginUser(username: string, password: string) returns (v: Verdict)
      requires Valid()
      modifies this`currentUser
      ensures Valid()
      ensures v == LoginCheck(users, username, password)
      ensures currentUser == if v == Accepted then Some(username) else old(currentUser)
    {
      if IsBlank(username) || IsBlank(password) {
        return Rejected(MissingCredentials);
      }
      if !NameTaken(users, username) {
        return Rejected(UserNotFound);
      }
      var hash := HashPassword(password);
      if hash.None? {
        return Rejected(NotEncodable);
      }
      if username !in users || users[username].password != hash.value {
        return Rejected(InvalidPassword);
      }
      assert username != [];
      Login(username);
      return Accepted;
    }

    /** logout. */
    method Logout()
      requires Valid()
      modifies this`currentUser
      ensures Valid() && currentUser == None
    {
      currentUser := None;
    }

    /** changePassword: the form guards, then the current password, then the
      new hash is stored. Its messages are built with two arguments, so
      the text is the title and "error"/"success" the message. */
    method ChangePassword(current: string, newPassword: string, confirm: string) returns (v: Verdict)
      requires Valid()
      requires PasswordFieldsCheck(current, newPassword, confirm) == Accepted ==> HasRecord()
      modifies this`users, this`notifications
      ensures Valid()
      ensures PasswordFieldsCheck(current, newPassword, confirm) != Accepted ==>
                v == PasswordFieldsCheck(current, newPassword, confirm)
      ensures PasswordFieldsCheck(current, newPassword, confirm) == Accepted ==>
                v == CurrentPasswordCheck(old(Record()), current, newPassword)
      ensures v == Accepted ==>
                users == old(users)[Key() := old(Record()).(password := Encoded(newPassword))]
                && notifications == [TwoArgumentNotice("Password changed successfully!", "success")] + old(notifications)
      ensures v.Rejected? ==> users == old(users)
      ensures v.Rejected? && v.error != NotEncodable ==>
                notifications == [TwoArgumentNotice(ErrorMessage(v.error).value, "error")] + old(notifications)
      ensures v == Rejected(NotEncodable) ==> notifications == old(notifications)
    {
      v := PasswordFieldsCheck(current, newPassword, confirm);
      if v.Rejected? {
        ShowNotification(TwoArgumentNotice(ErrorMessage(v.error).value, "error"));
        return;
      }
      var user := users[Key()];
      var currentHash := HashPassword(current);
      if currentHash.None? {
        return Rejected(NotEncodable);
      }
      if user.password != currentHash.value {
        v := Rejected(CurrentPasswordIncorrect);
        ShowNotification(TwoArgumentNotice(ErrorMessage(v.error).value, "error"));
        return;
      }
      var newHash := HashPassword(newPassword);
      if newHash.None? {
        return Rejected(NotEncodable);
      }
      users := users[Key() := user.(password := newHash.value)];
      ShowNotification(TwoArgumentNotice("Password changed successfully!", "success"));
    }

    /** saveTasks: stores the list, only when somebody is signed in. */
    method SaveTasks(tasks: seq<Task>)
      requires Valid()
      modifies this`users
      ensures Valid()
      ensures users == if currentUser.Some?
                       then old(users)[currentUser.value := old(users[currentUser.value]).(tasks := tasks)]
                       else old(users)
    {
      if currentUser.Some? {
        var name := currentUser.value;
        users := users[name := users[name].(tasks := tasks)];
      }
    }

    /** addXp: the award and the level-up rule of GainXp, with its notice. */
    method AddXp(amount: nat)
      requires SessionValid() && HasRecord()
      modifies this`users, this`notifications
      ensures SessionValid()
      ensures users == old(users)[Key() := old(Record()).(stats := GainXp(old(Record()).stats, amount))]
      ensures notifications == LevelUpNotes(old(Record()).stats, amount) + old(notifications)
    {
      var key := Key();
      var stats := users[key].stats;
      stats := stats.(xp := stats.xp + amount);
      if stats.xp >= stats.level * XpPerLevel {
        stats := stats.(level := stats.level + 1);
        ShowNotification(LevelUpNotice(stats.level));
      }
      users := users[key := users[key].(stats := stats)];
    }

    /** addProject: a trimmed, non-empty name not yet in the list is appended. */
    method AddProject(input: string)
      requires Valid()
      requires !IsBlank(input) ==> HasRecord()
      modifies this`users
      ensures Valid()
      ensures var name := Trim(input);
              if name != [] && name !in old(CurrentProjects())
              then users == old(users)[Key() := old(Record()).(projects := old(Record()).projects + [name])]
              else users == old(users)
      ensures (forall i, j :: 0 <= i < j < |old(CurrentProjects())| ==> old(CurrentProjects())[i] != old(CurrentProjects())[j])
              ==> forall i, j :: 0 <= i < j < |CurrentProjects()| ==> CurrentProjects()[i] != CurrentProjects()[j]
    {
      var name := Trim(input);
      if name != [] && name !in CurrentProjects() {
        var key := Key();
        users := users[key := users[key].(projects := users[key].projects + [name])];
      }
    }

    method ChangeProject(project: string)
      modifies this`currentProject
      ensures currentProject == project
    {
      currentProject := project;
    }

    /** filterTasks. */
    method FilterTasks(filter: FilterName)
      modifies this`currentFilter
      ensures currentFilter == filter
    {
      currentFilter := filter;
    }

    /** searchTasks. */
    method SearchTasks(query: string)
      modifies this`searchQuery
      ensures searchQuery == query
    {
      searchQuery := query;
    }

    /** What addTask and addQuickTask share once the text is non-blank: a
      new task in the current project is appended to the account's list
      and the creation award is paid. push works on the stored array
      itself, so the task is kept even where saveTasks would not store. */
    method CreateTask(id: TaskId, text: string, priority: Priority, due: Option<Instant>,
                      estimate: Option<int>, tags: seq<string>, now: Instant)
      requires Valid() && HasRecord()
      modifies this`users, this`notifications
      ensures Valid()
      ensures var task := NewTask(id, text, currentProject, priority, due, estimate, tags, now);
              CurrentTasks() == old(CurrentTasks()) + [task]
              && users == old(users)[Key() := old(Record()).(tasks := old(Record()).tasks + [task],
                                                            stats := GainXp(old(Record()).stats, TaskCreatedXp))]
              && notifications == LevelUpNotes(old(Record()).stats, TaskCreatedXp) + old(notifications)
    {
      var task := NewTask(id, text, currentProject, priority, due, estimate, tags, now);
      var key := Key();
      users := users[key := users[key].(tasks := users[key].tasks + [task])];
      AddXp(TaskCreatedXp);
    }

    /** addTask: the full form; nothing happens when the trimmed text is empty. */
    method AddTask(text: string, priority: Priority, dueDate: Option<Instant>, dueTime: Option<int>,
                   estimate: Option<int>, tagsInput: string, id: TaskId, now: Instant)
      requires Valid()
      requires !IsBlank(text) ==> HasRecord()
      modifies this`users, this`notifications
      ensures Valid()
      ensures IsBlank(text) ==> users == old(users) && notifications == old(notifications)
      ensures !IsBlank(text) ==>
                var task := NewTask(id, Trim(text), currentProject, priority, CombineDue(dueDate, dueTime),
                                    EstimateField(estimate), ParseTags(tagsInput), now);
                CurrentTasks() == old(CurrentTasks()) + [task]
                && users == old(users)[Key() := old(Record()).(tasks := old(Record()).tasks + [task],
                                                              stats := GainXp(old(Record()).stats, TaskCreatedXp))]
                && notifications == LevelUpNotes(old(Record()).stats, TaskCreatedXp) + old(notifications)
    {
      var trimmed := Trim(text);
      if trimmed == [] {
        return;
      }
      var tags := ParseTags(tagsInput);
      CreateTask(id, trimmed, priority, CombineDue(dueDate, dueTime), EstimateField(estimate), tags, now);
    }

    /** addQuickTask: text, priority and an optional due time; no tags and
      no estimate. */
    method AddQuickTask(text: string, priority: Priority, due: Option<Instant>, id: TaskId, now: Instant)
      requires Valid()
      requires !IsBlank(text) ==> HasRecord()
      modifies this`users, this`notifications
      ensures Valid()
      ensures IsBlank(text) ==> users == old(users) && notifications == old(notifications)
      ensures !IsBlank(text) ==>
                var task := NewTask(id, Trim(text), currentProject, priority, due, None, [], now);
                CurrentTasks() == old(CurrentTasks()) + [task]
                && users == old(users)[Key() := old(Record()).(tasks := old(Record()).tasks + [task],
                                                              stats := GainXp(old(Record()).stats, TaskCreatedXp))]
                && notifications == LevelUpNotes(old(Record()).stats, TaskCreatedXp) + old(notifications)
    {
      var trimmed := Trim(text);
      if trimmed == [] {
        return;
      }
      CreateTask(id, trimmed, priority, due, None, [], now);
    }

    /** One completion inside toggleTask's map: addXp(10), then tasksCompleted++. */
    method PayCompletion()
      requires SessionValid() && HasRecord()
      modifies this`users, this`notifications
      ensures SessionValid() && HasRecord()
      ensures users == old(users)[Key() := old(Record()).(stats := CompleteOne(old(Record()).stats))]
      ensures notifications == LevelUpNotes(old(Record()).stats, TaskCompletedXp) + old(notifications)
    {
      AddXp(TaskCompletedXp);
      var key := Key();
      var stats := users[key].stats;
      users := users[key := users[key].(stats := stats.(tasksCompleted := stats.tasksCompleted + 1))];
    }

    /** toggleTask: the map over the list flips each task with the id, and
      every flip to completed pays addXp(10) and one more tasksCompleted
      on the spot. The flipped list is stored only when signed in. */
    method ToggleTask(id: TaskId, now: Instant)
      requires Valid()
      modifies this`users, this`notifications
      ensures Valid()
      ensures var ts := old(CurrentTasks());
              var k := NewlyCompleted(ts, id);
              if old(HasRecord()) then
                var u := old(Record());
                users == old(users)[Key() := u.(tasks := if currentUser.Some? then Toggled(ts, id, now) else u.tasks,
                                                stats := CompletionAwards(u.stats, k))]
                && notifications == CompletionNotes(u.stats, k) + old(notifications)
              else users == old(users) && notifications == old(notifications)
    {
      var ts := CurrentTasks();
      if !HasRecord() {
        SaveTasks(ts);
        return;
      }
      var result := ToggleEach(ts, id, now);
      SaveTasks(result);
    }

    /** The map callback of toggleTask on the task at index i, phrased
      against the state before the map started: afterwards the record has
      paid for every task of ts[..i+1] that the map completed. */
    method ToggleOne(ts: seq<Task>, id: TaskId, now: Instant, i: nat,
                    ghost base: map<string, User>, ghost u: User, ghost log0: seq<Notification>)
      returns (t: Task)
      requires i < |ts| && SessionValid() && HasRecord()
      requires users == base[Key() := u.(stats := CompletionAwards(u.stats, NewlyCompleted(ts[..i], id)))]
      requires notifications == CompletionNotes(u.stats, NewlyCompleted(ts[..i], id)) + log0
      modifies this`users, this`notifications
      ensures SessionValid() && HasRecord()
      ensures t == if ts[i].id == id then Flip(ts[i], now) else ts[i]
      ensures users == base[Key() := u.(stats := CompletionAwards(u.stats, NewlyCompleted(ts[..i+1], id)))]
      ensures notifications == CompletionNotes(u.stats, NewlyCompleted(ts[..i+1], id)) + log0
    {
      ghost var k := NewlyCompleted(ts[..i], id);
      NewlyCompletedStep(ts, id, now, i);
      var task := ts[i];
      if task.id == id {
        var completed := !task.completed;
        if completed {
          assert Record() == u.(stats := CompletionAwards(u.stats, k));
          PayStep(base, Key(), u, log0, k);
          PayCompletion();
          assert users == base[Key() := u.(stats := CompletionAwards(u.stats, k + 1))];
          assert notifications == CompletionNotes(u.stats, k + 1) + log0;
        } else {
          assert NewlyCompleted(ts[..i + 1], id) == k;
        }
        t := task.(completed := completed, completedAt := if completed then Some(now) else None);
      } else {
        assert NewlyCompleted(ts[..i + 1], id) == k;
        t := task;
      }
    }

    /** The map of toggleTask over the whole list. */
    method ToggleEach(ts: seq<Task>, id: TaskId, now: Instant) returns (result: seq<Task>)
      requires SessionValid() && HasRecord()
      modifies this`users, this`notifications
      ensures SessionValid() && HasRecord()
      ensures result == Toggled(ts, id, now)
      ensures users == old(users)[Key() := old(Record()).(stats := CompletionAwards(old(Record()).stats, NewlyCompleted(ts, id)))]
      ensures notifications == CompletionNotes(old(Record()).stats, NewlyCompleted(ts, id)) + old(notifications)
    {
      ghost var base := users;
      ghost var u := Record();
      ghost var log0 := notifications;
      assert ts[..0] == [];
      result := [];
      var i := 0;
      while i < |ts|
        invariant 0 <= i <= |ts|
        invariant SessionValid() && HasRecord()
        invariant result == Toggled(ts[..i], id, now)
        invariant users == base[Key() := u.(stats := CompletionAwards(u.stats, NewlyCompleted(ts[..i], id)))]
        invariant notifications == CompletionNotes(u.stats, NewlyCompleted(ts[..i], id)) + log0
      {
        var t := ToggleOne(ts, id, now, i, base, u, log0);
        NewlyCompletedStep(ts, id, now, i);
        result := result + [t];
        i := i + 1;
      }
      assert ts[..i] == ts;
    }

    /** deleteTask. */
    method DeleteTask(id: TaskId)
      requires Valid()
      modifies this`users
      ensures Valid()
      ensures users == if currentUser.Some?
                       then old(users)[Key() := old(Record()).(tasks := WithoutTask(old(CurrentTasks()), id))]
                       else old(users)
    {
      SaveTasks(WithoutTask(CurrentTasks(), id));
    }

    /** The drop handler of a board column: the task takes the column's status. */
    method DropOnColumn(id: TaskId, status: Status)
      requires Valid()
      modifies this`users
      ensures Valid()
      ensures users == if currentUser.Some?
                       then old(users)[Key() := old(Record()).(tasks := WithStatus(old(CurrentTasks()), id, status))]
                       else old(users)
    {
      SaveTasks(WithStatus(CurrentTasks(), id, status));
    }

    /** clearCompleted. */
    method ClearCompleted()
      requires Valid()
      modifies this`users
      ensures Valid()
      ensures users == if currentUser.Some?
                       then old(users)[Key() := old(Record()).(tasks := PendingTasks(old(CurrentTasks())))]
                       else old(users)
    {
      SaveTasks(PendingTasks(CurrentTasks()));
    }

    /** markAllCompleted: completes every task, then pays 10 xp for each task
      of the marked list that is still pending, which is none. */
    method MarkAllCompleted(now: Instant)
      requires Valid() && HasRecord()
      modifies this`users, this`notifications
      ensures Valid()
      ensures var u := old(Record());
              users == old(users)[Key() := u.(tasks := if currentUser.Some? then CompleteAll(u.tasks, now) else u.tasks,
                                              stats := GainXp(u.stats, 0))]
              && notifications == LevelUpNotes(u.stats, 0) + old(notifications)
    {
      var tasks := CompleteAll(CurrentTasks(), now);
      SaveTasks(tasks);
      CompleteAllLeavesNothingPending(old(CurrentTasks()), now);
      AddXp(|PendingTasks(tasks)| * TaskCompletedXp);
    }

    /** trackTime: the minutes go to the user's counter and to the first
      task with the id, if there is one. */
    method TrackTime(id: TaskId, minutes: nat)
      requires Valid() && HasRecord()
      modifies this`users
      ensures Valid()
      ensures var u := old(Record());
              users == old(users)[Key() := u.(stats := u.stats.(timeTracked := u.stats.timeTracked + minutes),
                                              tasks := TrackTimeOn(u.tasks, id, minutes))]
    {
      var key := Key();
      var user := users[key];
      user := user.(stats := user.stats.(timeTracked := user.stats.timeTracked + minutes));
      user := user.(tasks := TrackTimeOn(user.tasks, id, minutes));
      users := users[key := user];
    }

    /** getFilteredTasks: the current project's tasks that match the search
      and the filter, in list order. */
    method GetFilteredTasks(now: Instant) returns (r: seq<Task>)
      ensures r == FilteredTasks(CurrentTasks(), currentProject, searchQuery, currentFilter, now)
      ensures IsSubsequence(r, CurrentTasks())
      ensures forall t :: t in r <==> t in CurrentTasks() && Selected(t, currentProject, searchQuery, currentFilter, now)
    {
      r := FilteredTasks(CurrentTasks(), currentProject, searchQuery, currentFilter, now);
      FilteredTasksMembers(CurrentTasks(), currentProject, searchQuery, currentFilter, now);
    }

    /** getStats: counted over all the user's tasks. */
    method GetStats(now: Instant) returns (s: TaskStats)
      ensures s == StatsOf(CurrentTasks(), if HasRecord() then Record().stats.timeTracked else 0, now)
      ensures s.total == |CurrentTasks()|
      ensures s.completed + s.overdue <= s.total && s.completed + s.urgent <= s.total
    {
      var tracked := if HasRecord() then users[Key()].stats.timeTracked else 0;
      s := StatsOf(CurrentTasks(), tracked, now);
      StatsBounds(CurrentTasks(), tracked, now);
    }

    /** renderBoard's three columns over the filtered tasks. */
    method RenderBoard(now: Instant) returns (b: Board)
      ensures b == BoardOf(FilteredTasks(CurrentTasks(), currentProject, searchQuery, currentFilter, now))
      ensures |b.todo| + |b.inProgress| + |b.done| == |FilteredTasks(CurrentTasks(), currentProject, searchQuery, currentFilter, now)|
    {
      var shown := GetFilteredTasks(now);
      b := BoardOf(shown);
      BoardPartitions(shown);
    }

    /** The forEach callback of checkDueTasks on the task at index i,
      phrased against the log before the scan started: afterwards the log
      holds the alerts for ts[..i+1]. */
    method ScanOne(ts: seq<Task>, now: Instant, i: nat, ghost log0: seq<Notification>) returns (r: Task)
      requires i < |ts|
      requires notifications == DueAlerts(ts[..i], now) + log0
      modifies this`notifications
      ensures r == AfterScan(ts[i], now)
      ensures notifications == DueAlerts(ts[..i + 1], now) + log0
    {
      ScanStep(ts, now, i);
      var task := ts[i];
      r := task;
      if InDueWindow(task, now) {
        var minutes := MinutesUntilDue(task.dueDateTime.value, now);
        if minutes <= 60 && minutes > 0 && !task.notified {
          var alert := DueSoonNotice(task.text, minutes);
          assert [alert] + (DueAlerts(ts[..i], now) + log0) == ([alert] + DueAlerts(ts[..i], now)) + log0;
          ShowNotification(alert);
          r := task.(notified := true);
        }
      }
    }

    /** The forEach of checkDueTasks over the whole list. */
    method ScanEach(ts: seq<Task>, now: Instant) returns (scanned: seq<Task>)
      modifies this`notifications
      ensures scanned == Scanned(ts, now)
      ensures notifications == DueAlerts(ts, now) + old(notifications)
    {
      ghost var log0 := notifications;
      assert ts[..0] == [];
      scanned := [];
      var i := 0;
      while i < |ts|
        invariant 0 <= i <= |ts|
        invariant scanned == Scanned(ts[..i], now)
        invariant notifications == DueAlerts(ts[..i], now) + log0
      {
        var t := ScanOne(ts, now, i, log0);
        ScanStep(ts, now, i);
        scanned := scanned + [t];
        i := i + 1;
      }
      assert ts[..i] == ts;
    }

    /** checkDueTasks: one pass of the due-date scan. The `notified` flag is
      set on the task objects of the stored list, so the record is updated
      whoever is signed in. */
    method CheckDueTasks(now: Instant)
      requires SessionValid()
      modifies this`users, this`notifications
      ensures SessionValid()
      ensures users == if old(HasRecord()) then old(users)[Key() := old(Record()).(tasks := Scanned(old(CurrentTasks()), now))]
                       else old(users)
      ensures notifications == DueAlerts(old(CurrentTasks()), now) + old(notifications)
    {
      var ts := CurrentTasks();
      var scanned := ScanEach(ts, now);
      if HasRecord() {
        var key := Key();
        users := users[key := users[key].(tasks := scanned)];
      }
    }

    /** startFocusTimer. */
    method StartFocusTimer()
      requires Valid()
      modifies this`timer
      ensures Valid() && timer == Focus(old(timer))
    {
      timer := timer.(time := FocusSeconds, originalTime := FocusSeconds, currentTask := None);
    }

    /** startTimer. */
    method StartTimer()
      requires Valid()
      modifies this`timer
      ensures Valid() && timer == Start(old(timer))
    {
      if timer.active {
        return;
      }
      timer := timer.(active := true);
    }

    /** pauseTimer. */
    method PauseTimer()
      modifies this`timer
      ensures timer == Pause(old(timer))
    {
      if !timer.active {
        return;
      }
      timer := timer.(active := false);
    }

    /** stopTimer. */
    method StopTimer()
      modifies this`timer
      ensures timer == Stop(old(timer))
    {
      PauseTimer();
      timer := timer.(time := timer.originalTime, currentTask := None);
    }

    /** timerComplete: stops, then announces. Its credit of the session to
      the timer's task tests currentTask after stopTimer has cleared it,
      so trackTime is never called from here. */
    method TimerComplete()
      requires SessionValid() && timer.originalTime == FocusSeconds
      modifies this`timer, this`notifications
      ensures Valid()
      ensures timer == Complete(old(timer))
      ensures notifications == [TimerDoneNotice()] + old(notifications)
    {
      StopTimer();
      ShowNotification(TimerDoneNotice());
      assert timer.currentTask == None;
    }

    /** The body of the interval startTimer installs, run once a second
      while the timer is active. */
    method Tick()
      requires Valid() && timer.active
      modifies this`timer, this`notifications
      ensures Valid()
      ensures timer == FocusTimer.Tick(old(timer))
      ensures notifications == (if old(timer).time <= 1 then [TimerDoneNotice()] else []) + old(notifications)
    {
      timer := timer.(time := timer.time - 1);
      if timer.time <= 0 {
        TimerComplete();
      }
    }

    /** startTimerForTask: a fresh session for the first task with the id;
      nothing when there is none. */
    method StartTimerForTask(id: TaskId)
      requires Valid()
      modifies this`timer
      ensures Valid()
      ensures var ts := old(CurrentTasks());
              var k := FindIndex(ts, id);
              timer == if k < |ts| then ForTask(old(timer), ts[k]) else old(timer)
    {
      var ts := CurrentTasks();
      var k := FindIndex(ts, id);
      if k < |ts| {
        timer := timer.(currentTask := Some(ts[k]), time := FocusSeconds, originalTime := FocusSeconds);
      }
    }
  }

  /** The global signup handler: trims the name, compares the two password
      fields, then calls createUser. */
  method SignUp(app: UltimateTaskManager, username: string, password: string, confirm: string, now: Instant)
    returns (v: Verdict)
    requires app.Valid()
    modifies app`users, app`currentUser
    ensures app.Valid()
    ensures v == SignUpCheck(old(app.users), username, password, confirm)
    ensures v == Accepted ==> app.currentUser == Some(Trim(username))
                              && app.users == old(app.users)[Trim(username) := NewUser(Encoded(password), now)]
    ensures v != Accepted ==> app.users == old(app.users) && app.currentUser == old(app.currentUser)
  {
    if password != confirm {
      return Rejected(PasswordsDoNotMatch);
    }
    v := app.CreateUser(Trim(username), password, now);
  }

  /** The global login handler: trims the name, then calls loginUser. */
  method LogIn(app: UltimateTaskManager, username: string, password: string) returns (v: Verdict)
    requires app.Valid()
    modifies app`currentUser
    ensures app.Valid()
    ensures v == LoginCheck(app.users, Trim(username), password)
    ensures app.currentUser == if v == Accepted then Some(Trim(username)) else old(app.currentUser)
  {
    v := app.LoginUser(Trim(username), password);
  }
}
