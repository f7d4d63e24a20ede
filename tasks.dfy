/** The task record and the list transformations behind the task repository
    operations of UltimateTaskManager: each builds the new task list that the
    operation stores back into the user record with saveTasks. */
module Tasks {
  import opened Seqs
  import opened Text

  /** `Date.now() + Math.random()` ids, taken as opaque integers. */
  type TaskId = int
  /** A point in time in milliseconds, read in local time. */
  type Instant = int

  datatype Priority = Low | Medium | High | Urgent
  datatype Status = Todo | InProgress | Done

  datatype Task = Task(
    id: TaskId,
    text: string,
    project: string,
    priority: Priority,
    dueDateTime: Option<Instant>,
    timeEstimate: Option<int>,
    tags: seq<string>,
    completed: bool,
    createdAt: Instant,
    completedAt: Option<Instant>,
    timeTracked: nat,
    status: Status,
    notified: bool)

  /** The record invariant: completedAt is set exactly when the task is completed. */
  ghost predicate CompletionRecorded(t: Task) {
    t.completed <==> t.completedAt.Some?
  }

  ghost predicate AllRecorded(ts: seq<Task>) {
    forall i :: 0 <= i < |ts| ==> CompletionRecorded(ts[i])
  }

  ghost predicate IdsDistinct(ts: seq<Task>) {
    forall i, j :: 0 <= i < j < |ts| ==> ts[i].id != ts[j].id
  }

  ghost predicate HasId(ts: seq<Task>, id: TaskId) {
    exists i :: 0 <= i < |ts| && ts[i].id == id
  }

  /** `parseInt(estimate) || null`: a missing number (NaN) and 0 are both falsy. */
  function EstimateField(parsed: Option<int>): (r: Option<int>)
    ensures r.Some? <==> parsed.Some? && parsed.value != 0
    ensures r.Some? ==> r == parsed
  {
    if parsed.Some? && parsed.value != 0 then parsed else None
  }

  /** addTask's due field: the date and the time-of-day inputs joined, and
      null unless both are filled in. */
  function CombineDue(date: Option<Instant>, time: Option<int>): (r: Option<Instant>)
    ensures r.Some? <==> date.Some? && time.Some?
  {
    if date.Some? && time.Some? then Some(date.value + time.value) else None
  }

  /** The object literal of addTask and addQuickTask: a new task starts
      pending, untracked, unnotified, in the todo column, and satisfies the
      record invariant. */
  function NewTask(id: TaskId, text: string, project: string, priority: Priority,
                   due: Option<Instant>, estimate: Option<int>, tags: seq<string>, now: Instant): (t: Task)
    ensures !t.completed && t.completedAt == None && t.timeTracked == 0 && t.status == Todo
            && !t.notified && t.project == project && t.id == id && t.text == text && CompletionRecorded(t)
  {
    Task(id, text, project, priority, due, estimate, tags, false, now, None, 0, Todo, false)
  }

  /** deleteTask: the tasks whose id differs, in their original order. */
  function WithoutTask(ts: seq<Task>, id: TaskId): (r: seq<Task>)
    ensures IsSubsequence(r, ts)
    ensures forall t :: multiset(r)[t] == if t.id != id then multiset(ts)[t] else 0
    ensures forall i :: 0 <= i < |r| ==> r[i].id != id
  {
    var r := Filter(ts, (t: Task) => t.id != id);
    assert forall i :: 0 <= i < |r| ==> multiset(r)[r[i]] > 0;
    r
  }

  /** Adding a task with a fresh id and then deleting it restores the list. */
  lemma DeleteUndoesAdd(ts: seq<Task>, t: Task)
    requires !HasId(ts, t.id)
    ensures WithoutTask(ts + [t], t.id) == ts
  {
    FilterConcat(ts, [t], (x: Task) => x.id != t.id);
    FilterKeepsAll(ts, (x: Task) => x.id != t.id);
  }

  /** Deleting an id that no task carries leaves the list as it was. */
  lemma DeleteAbsentIsIdentity(ts: seq<Task>, id: TaskId)
    requires !HasId(ts, id)
    ensures WithoutTask(ts, id) == ts
  {
    FilterKeepsAll(ts, (x: Task) => x.id != id);
  }

  /** clearCompleted: the tasks not completed, in their original order. */
  function PendingTasks(ts: seq<Task>): (r: seq<Task>)
    ensures IsSubsequence(r, ts)
    ensures forall t :: multiset(r)[t] == if !t.completed then multiset(ts)[t] else 0
    ensures forall i :: 0 <= i < |r| ==> !r[i].completed
  {
    var r := Filter(ts, (t: Task) => !t.completed);
    assert forall i :: 0 <= i < |r| ==> multiset(r)[r[i]] > 0;
    r
  }

  /** The spread in toggleTask: the completion flag flips and completedAt
      is set exactly when the new flag is true. */
  function Flip(t: Task, now: Instant): (r: Task)
    ensures r.completed == !t.completed
    ensures r.completedAt == if r.completed then Some(now) else None
    ensures CompletionRecorded(r)
    ensures r.(completed := t.completed, completedAt := t.completedAt) == t
  {
    var completed := !t.completed;
    t.(completed := completed, completedAt := if completed then Some(now) else None)
  }

  /** The list toggleTask stores: only tasks with the given id are flipped. */
  function Toggled(ts: seq<Task>, id: TaskId, now: Instant): (r: seq<Task>)
    ensures |r| == |ts|
    ensures forall i :: 0 <= i < |ts| ==> r[i] == if ts[i].id == id then Flip(ts[i], now) else ts[i]
  {
    seq(|ts|, i requires 0 <= i < |ts| => if ts[i].id == id then Flip(ts[i], now) else ts[i])
  }

  /** Toggling an absent id leaves the list identical. */
  lemma ToggleAbsentIsIdentity(ts: seq<Task>, id: TaskId, now: Instant)
    requires !HasId(ts, id)
    ensures Toggled(ts, id, now) == ts
  {
  }

  /** Toggling a pending task twice restores it exactly; a completed one
      comes back completed, stamped with the second toggle's time. */
  lemma ToggleTwice(ts: seq<Task>, id: TaskId, first: Instant, second: Instant)
    requires AllRecorded(ts)
    ensures var r := Toggled(Toggled(ts, id, first), id, second);
            |r| == |ts| &&
            forall i :: 0 <= i < |ts| ==>
              if ts[i].id == id && ts[i].completed then r[i] == ts[i].(completedAt := Some(second))
              else r[i] == ts[i]
  {
    var r := Toggled(Toggled(ts, id, first), id, second);
    forall i | 0 <= i < |ts|
      ensures if ts[i].id == id && ts[i].completed then r[i] == ts[i].(completedAt := Some(second))
              else r[i] == ts[i]
    {
      assert CompletionRecorded(ts[i]);
    }
  }

  /** toggleTask keeps the record invariant. */
  lemma ToggledKeepsRecorded(ts: seq<Task>, id: TaskId, now: Instant)
    requires AllRecorded(ts)
    ensures AllRecorded(Toggled(ts, id, now))
  {
  }

  /** The number of tasks toggleTask turns from pending to completed; each one
      is paid with addXp(10) and one more tasksCompleted. Counted from the end
      of the list, as the map callback processes one task after another. */
  function NewlyCompleted(ts: seq<Task>, id: TaskId): nat {
    if |ts| == 0 then 0
    else NewlyCompleted(ts[..|ts| - 1], id) + (if ts[|ts| - 1].id == id && !ts[|ts| - 1].completed then 1 else 0)
  }

  /** One more task of the list: its payment is added to the count so far. */
  lemma NewlyCompletedStep(ts: seq<Task>, id: TaskId, now: Instant, i: int)
    requires 0 <= i < |ts|
    ensures NewlyCompleted(ts[..i + 1], id)
         == NewlyCompleted(ts[..i], id) + (if ts[i].id == id && !ts[i].completed then 1 else 0)
    ensures Toggled(ts[..i + 1], id, now) == Toggled(ts[..i], id, now) + [if ts[i].id == id then Flip(ts[i], now) else ts[i]]
  {
    assert ts[..i + 1][..i] == ts[..i];
  }

  /** With no pending task carrying the id there is nothing to pay. */
  lemma {:induction false} NewlyCompletedNone(ts: seq<Task>, id: TaskId)
    requires forall i :: 0 <= i < |ts| && ts[i].id == id ==> ts[i].completed
    ensures NewlyCompleted(ts, id) == 0
  {
    if |ts| > 0 {
      NewlyCompletedNone(ts[..|ts| - 1], id);
    }
  }

  /** With distinct ids a toggle pays for at most one completion, and for
      one exactly when the task with that id is pending. */
  lemma {:induction false} NewlyCompletedAtMostOne(ts: seq<Task>, id: TaskId)
    requires IdsDistinct(ts)
    ensures NewlyCompleted(ts, id) <= 1
    ensures NewlyCompleted(ts, id) == 1 <==> exists i :: 0 <= i < |ts| && ts[i].id == id && !ts[i].completed
  {
    if |ts| > 0 {
      var init := ts[..|ts| - 1];
      var last := ts[|ts| - 1];
      NewlyCompletedAtMostOne(init, id);
      if last.id == id {
        assert forall i :: 0 <= i < |init| ==> init[i].id != id;
        NewlyCompletedNone(init, id);
        if !last.completed {
          assert ts[|ts| - 1].id == id && !ts[|ts| - 1].completed;
        }
      } else {
        assert (exists i :: 0 <= i < |ts| && ts[i].id == id && !ts[i].completed) ==>
               (exists i :: 0 <= i < |init| && init[i].id == id && !init[i].completed) by {
          if i :| 0 <= i < |ts| && ts[i].id == id && !ts[i].completed {
            assert init[i] == ts[i];
          }
        }
      }
    }
  }

  /** After a toggle every task with the id that was pending is completed, so
      toggling it back pays nothing. */
  lemma SecondTogglePaysNothing(ts: seq<Task>, id: TaskId, now: Instant)
    requires forall i :: 0 <= i < |ts| && ts[i].id == id ==> !ts[i].completed
    ensures NewlyCompleted(Toggled(ts, id, now), id) == 0
  {
    NewlyCompletedNone(Toggled(ts, id, now), id);
  }

  /** markAllCompleted's map: every task completed, already completed tasks
      keeping their completedAt. */
  function CompleteAll(ts: seq<Task>, now: Instant): (r: seq<Task>)
    ensures |r| == |ts|
    ensures forall i :: 0 <= i < |ts| ==>
              r[i] == ts[i].(completed := true, completedAt := if ts[i].completed then ts[i].completedAt else Some(now))
  {
    seq(|ts|, i requires 0 <= i < |ts| =>
      ts[i].(completed := true, completedAt := if ts[i].completed then ts[i].completedAt else Some(now)))
  }

  /** markAllCompleted counts the pending tasks of the list it has just marked,
      so its award `pending * 10` is always 0. */
  lemma CompleteAllLeavesNothingPending(ts: seq<Task>, now: Instant)
    ensures PendingTasks(CompleteAll(ts, now)) == []
    ensures forall i :: 0 <= i < |ts| ==> CompleteAll(ts, now)[i].completed
  {
    FilterKeepsNone(CompleteAll(ts, now), (t: Task) => !t.completed);
  }

  /** markAllCompleted keeps the record invariant. */
  lemma CompleteAllKeepsRecorded(ts: seq<Task>, now: Instant)
    requires AllRecorded(ts)
    ensures AllRecorded(CompleteAll(ts, now))
  {
    forall i | 0 <= i < |ts| ensures CompletionRecorded(CompleteAll(ts, now)[i]) {
      assert CompletionRecorded(ts[i]);
    }
  }

  /** The board's drop handler: tasks with the id get the column's status;
      nothing else, the completion flag included, changes. */
  function WithStatus(ts: seq<Task>, id: TaskId, status: Status): (r: seq<Task>)
    ensures |r| == |ts|
    ensures forall i :: 0 <= i < |ts| ==> r[i] == if ts[i].id == id then ts[i].(status := status) else ts[i]
  {
    seq(|ts|, i requires 0 <= i < |ts| => if ts[i].id == id then ts[i].(status := status) else ts[i])
  }

  /** Array.prototype.find, as an index: the first task with the id, or |ts|. */
  function FindIndex(ts: seq<Task>, id: TaskId): (k: nat)
    ensures k <= |ts|
    ensures k < |ts| ==> ts[k].id == id
    ensures forall j :: 0 <= j < k ==> ts[j].id != id
  {
    if |ts| == 0 then 0 else if ts[0].id == id then 0 else 1 + FindIndex(ts[1..], id)
  }

  /** trackTime's update of the task list: the first task with the id gains
      the minutes; the rest of the list is untouched. */
  function TrackTimeOn(ts: seq<Task>, id: TaskId, minutes: nat): (r: seq<Task>)
    ensures |r| == |ts|
    ensures forall i :: 0 <= i < |ts| && i != FindIndex(ts, id) ==> r[i] == ts[i]
    ensures FindIndex(ts, id) < |ts| ==>
              var k := FindIndex(ts, id);
              r[k] == ts[k].(timeTracked := ts[k].timeTracked + minutes)
  {
    var k := FindIndex(ts, id);
    if k < |ts| then ts[k := ts[k].(timeTracked := ts[k].timeTracked + minutes)] else ts
  }
}
