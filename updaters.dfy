/** The pure updaters the board's handlers pass to `setTasks`: each maps or filters
    the task list, and every one of them leaves task order alone. */
module Updaters {
  import opened Options
  import opened BoardTypes
  import opened SeqUtils

  function HasId(id: string): Task -> bool {
    (t: Task) => t.id == id
  }

  function IdIsNot(id: string): Task -> bool {
    (t: Task) => t.id != id
  }

  function Always(t: Task): Task -> Task {
    (_: Task) => t
  }

  /** `{ ...task, ...updates }` */
  function Merge(t: Task, u: TaskUpdate): Task {
    t.(title := u.title.GetOr(t.title), columnId := u.columnId.GetOr(t.columnId))
  }

  function MergeWith(u: TaskUpdate): Task -> Task {
    (t: Task) => Merge(t, u)
  }

  /** The optimistic task update: the update is merged into exactly the tasks with
      the given id; every other task, every id and every subtask list stays as it was. */
  function MergeTask(ts: seq<Task>, id: string, u: TaskUpdate): (r: seq<Task>)
    ensures |r| == |ts|
    ensures forall i :: 0 <= i < |ts| && ts[i].id != id ==> r[i] == ts[i]
    ensures forall i :: 0 <= i < |ts| ==> r[i].id == ts[i].id && r[i].subtasks == ts[i].subtasks
    ensures forall i :: 0 <= i < |ts| && ts[i].id == id ==>
              (u.title.Some? ==> r[i].title == u.title.value)
              && (u.title.None? ==> r[i].title == ts[i].title)
              && (u.columnId.Some? ==> r[i].columnId == u.columnId.value)
              && (u.columnId.None? ==> r[i].columnId == ts[i].columnId)
  {
    MapIf(ts, HasId(id), MergeWith(u))
  }

  /** The optimistic task delete: exactly the tasks with that id go, the rest keep their order. */
  function RemoveTask(ts: seq<Task>, id: string): (r: seq<Task>)
    ensures forall i :: 0 <= i < |r| ==> r[i].id != id && r[i] in ts
    ensures forall i :: 0 <= i < |ts| && ts[i].id != id ==> ts[i] in r
    ensures (forall i :: 0 <= i < |ts| ==> ts[i].id != id) ==> r == ts
  {
    FilterMembers(ts, IdIsNot(id));
    if forall i :: 0 <= i < |ts| ==> ts[i].id != id then FilterKeepsAll(ts, IdIsNot(id)); Filter(ts, IdIsNot(id))
    else Filter(ts, IdIsNot(id))
  }

  /** Deleting from a concatenation deletes from each part: the survivors keep their
      relative order. */
  lemma RemoveTaskKeepsOrder(a: seq<Task>, b: seq<Task>, id: string)
    ensures RemoveTask(a + b, id) == RemoveTask(a, id) + RemoveTask(b, id)
  {
    FilterConcat(a, b, IdIsNot(id));
  }

  function WithSubtasks(ss: seq<Subtask>): Task -> Task {
    (t: Task) => t.(subtasks := t.subtasks + ss)
  }

  /** `{ ...t, subtasks: [...t.subtasks, ...ss] }` for the tasks with the given id. */
  function AppendSubtasks(ts: seq<Task>, taskId: string, ss: seq<Subtask>): (r: seq<Task>)
    ensures |r| == |ts|
    ensures forall i :: 0 <= i < |ts| && ts[i].id != taskId ==> r[i] == ts[i]
    ensures forall i :: 0 <= i < |ts| && ts[i].id == taskId ==>
              r[i] == ts[i].(subtasks := ts[i].subtasks + ss)
  {
    MapIf(ts, HasId(taskId), WithSubtasks(ss))
  }

  /** Appending twice to the same task is appending the concatenation once. */
  lemma AppendSubtasksTwice(ts: seq<Task>, taskId: string, a: seq<Subtask>, b: seq<Subtask>)
    ensures AppendSubtasks(AppendSubtasks(ts, taskId, a), taskId, b) == AppendSubtasks(ts, taskId, a + b)
  {
    var lhs := AppendSubtasks(AppendSubtasks(ts, taskId, a), taskId, b);
    var rhs := AppendSubtasks(ts, taskId, a + b);
    forall i | 0 <= i < |ts| ensures lhs[i] == rhs[i] {
      if ts[i].id == taskId {
        assert ts[i].subtasks + a + b == ts[i].subtasks + (a + b);
      }
    }
  }

  /** Appending no subtasks changes nothing. */
  lemma AppendNothing(ts: seq<Task>, taskId: string)
    ensures AppendSubtasks(ts, taskId, []) == ts
  {
    var r := AppendSubtasks(ts, taskId, []);
    forall i | 0 <= i < |ts| ensures r[i] == ts[i] {
      assert ts[i].subtasks + [] == ts[i].subtasks;
    }
  }

  /** `{ ...subtask, ...updates }` */
  function PatchSubtask(s: Subtask, u: SubtaskUpdate): Subtask {
    s.(text := u.text.GetOr(s.text), completed := u.completed.GetOr(s.completed))
  }

  function SubtaskHasId(id: string): Subtask -> bool {
    (s: Subtask) => s.id == id
  }

  function SubtaskIdIsNot(id: string): Subtask -> bool {
    (s: Subtask) => s.id != id
  }

  function PatchWith(u: SubtaskUpdate): Subtask -> Subtask {
    (s: Subtask) => PatchSubtask(s, u)
  }

  /** The updated copy of one task: the subtask with the given id gets the update. */
  function PatchTask(subtaskId: string, u: SubtaskUpdate): Task -> Task {
    (t: Task) => t.(subtasks := MapIf(t.subtasks, SubtaskHasId(subtaskId), PatchWith(u)))
  }

  /** The optimistic subtask update: only the targeted subtask of the targeted task
      changes; ids, titles, columns, subtask order and all other subtasks stay. */
  function PatchSubtaskIn(ts: seq<Task>, taskId: string, subtaskId: string, u: SubtaskUpdate): (r: seq<Task>)
    ensures |r| == |ts|
    ensures forall i :: 0 <= i < |ts| && ts[i].id != taskId ==> r[i] == ts[i]
    ensures forall i :: 0 <= i < |ts| ==>
              r[i].id == ts[i].id && r[i].title == ts[i].title && r[i].columnId == ts[i].columnId
              && |r[i].subtasks| == |ts[i].subtasks|
    ensures forall i, j :: 0 <= i < |ts| && 0 <= j < |ts[i].subtasks| && ts[i].id == taskId ==>
              r[i].subtasks[j] == if ts[i].subtasks[j].id == subtaskId
                                  then PatchSubtask(ts[i].subtasks[j], u) else ts[i].subtasks[j]
  {
    MapIf(ts, HasId(taskId), PatchTask(subtaskId, u))
  }

  /** The rollback after a failed subtask write: the saved copy (if any) replaces the
      tasks with that id. */
  function Rollback(optimistic: seq<Task>, taskId: string, saved: Option<Task>): seq<Task> {
    match saved
    case None => optimistic
    case Some(t) => MapIf(optimistic, HasId(taskId), Always(t))
  }

  /** Task ids are distinct (they are primary keys of the remote table). */
  ghost predicate UniqueIds(ts: seq<Task>) {
    forall i, j :: 0 <= i < |ts| && 0 <= j < |ts| && ts[i].id == ts[j].id ==> i == j
  }

  /** Rolling back an optimistic subtask update with the copy saved before it restores
      the task list exactly. */
  lemma {:induction false} RollbackIsExact(ts: seq<Task>, taskId: string, subtaskId: string, u: SubtaskUpdate)
    requires UniqueIds(ts)
    ensures Rollback(PatchSubtaskIn(ts, taskId, subtaskId, u), taskId, LastWhere(ts, HasId(taskId))) == ts
  {
    var optimistic := PatchSubtaskIn(ts, taskId, subtaskId, u);
    var saved := LastWhere(ts, HasId(taskId));
    var r := Rollback(optimistic, taskId, saved);
    match saved
    case None =>
      forall i | 0 <= i < |ts| ensures optimistic[i] == ts[i] {
        assert !HasId(taskId)(ts[i]);
      }
    case Some(t) =>
      var k :| 0 <= k < |ts| && ts[k] == t;
      forall i | 0 <= i < |ts| ensures r[i] == ts[i] {
        if ts[i].id == taskId {
          assert HasId(taskId)(t);
          assert i == k;
        }
      }
  }

  /** `t.subtasks.some(s => s.id === subtaskId)` */
  function Holds(subtaskId: string): Task -> bool {
    (t: Task) => exists j :: 0 <= j < |t.subtasks| && t.subtasks[j].id == subtaskId
  }

  function Without(subtaskId: string): Task -> Task {
    (t: Task) => t.(subtasks := Filter(t.subtasks, SubtaskIdIsNot(subtaskId)))
  }

  /** The optimistic subtask delete: the subtask id disappears from every task; task
      ids, titles, columns and order stay, and every other subtask keeps its place. */
  function DropSubtask(ts: seq<Task>, subtaskId: string): (r: seq<Task>)
    ensures |r| == |ts|
    ensures forall i :: 0 <= i < |ts| ==>
              r[i].id == ts[i].id && r[i].title == ts[i].title && r[i].columnId == ts[i].columnId
              && r[i].subtasks == Filter(ts[i].subtasks, SubtaskIdIsNot(subtaskId))
    ensures forall i, j :: 0 <= i < |r| && 0 <= j < |r[i].subtasks| ==> r[i].subtasks[j].id != subtaskId
    ensures forall i :: 0 <= i < |ts| && !Holds(subtaskId)(ts[i]) ==> r[i] == ts[i]
  {
    var r := MapIf(ts, Holds(subtaskId), Without(subtaskId));
    assert forall i :: 0 <= i < |ts| && !Holds(subtaskId)(ts[i]) ==>
      Filter(ts[i].subtasks, SubtaskIdIsNot(subtaskId)) == ts[i].subtasks by {
      forall i | 0 <= i < |ts| && !Holds(subtaskId)(ts[i])
        ensures Filter(ts[i].subtasks, SubtaskIdIsNot(subtaskId)) == ts[i].subtasks
      {
        FilterKeepsAll(ts[i].subtasks, SubtaskIdIsNot(subtaskId));
      }
    }
    r
  }

  /** The id of the last task holding the subtask: the `taskId` the delete handler
      records while it filters. */
  function HolderId(ts: seq<Task>, subtaskId: string): (r: Option<string>)
    ensures r.None? <==> forall i :: 0 <= i < |ts| ==> !Holds(subtaskId)(ts[i])
    ensures r.Some? ==> exists i :: 0 <= i < |ts| && ts[i].id == r.value && Holds(subtaskId)(ts[i])
  {
    match LastWhere(ts, Holds(subtaskId))
    case None => None
    case Some(t) => Some(t.id)
  }

  /** The recorded id is that of the last task holding the subtask: no task after it
      holds the subtask, since each match overwrites `taskId`. */
  lemma HolderIdIsLast(ts: seq<Task>, subtaskId: string)
    ensures HolderId(ts, subtaskId).Some? ==>
              exists k :: 0 <= k < |ts| && ts[k].id == HolderId(ts, subtaskId).value && Holds(subtaskId)(ts[k])
                          && forall j :: k < j < |ts| ==> !Holds(subtaskId)(ts[j])
  {
    LastWhereIsLast(ts, Holds(subtaskId));
  }

  /** `{ ...t, subtasks: t.subtasks || [] }` */
  function FromRow(row: TaskRow): Task {
    Task(row.id, row.title, row.columnId, row.subtasks.GetOr([]))
  }

  /** The task list a fetch leaves in view: an error or an empty answer clears it rather
      than leaving stale tasks; rows are taken in the order the server sent them
      (oldest first), and a row without a subtask list gets an empty one. */
  function LoadView(f: Fetch): (r: seq<Task>)
    ensures !f.Rows? ==> r == []
    ensures f.Rows? ==> |r| == |f.rows|
    ensures f.Rows? ==> forall i :: 0 <= i < |r| ==>
              r[i].id == f.rows[i].id && r[i].title == f.rows[i].title
              && r[i].columnId == f.rows[i].columnId
              && r[i].subtasks == (if f.rows[i].subtasks.Some? then f.rows[i].subtasks.value else [])
  {
    match f
    case FetchError => []
    case NoData => []
    case Rows(rows) => seq(|rows|, i requires 0 <= i < |rows| => FromRow(rows[i]))
  }
}
