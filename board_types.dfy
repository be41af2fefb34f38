/** The records the board keeps: tasks, their ordered subtasks, the three columns,
    the partial updates the handlers accept, and what the remote store answers. */
module BoardTypes {
  import opened Options

  /** The fixed columns 'todo', 'in-progress' and 'done'. */
  datatype ColumnId = Todo | InProgress | Done

  datatype Subtask = Subtask(id: string, text: string, completed: bool, taskId: string)

  datatype Task = Task(id: string, title: string, columnId: ColumnId, subtasks: seq<Subtask>)

  /** The fields a caller of the task-update handler changes: `{ title }` or `{ column_id }`. */
  datatype TaskUpdate = TaskUpdate(title: Option<string>, columnId: Option<ColumnId>)

  /** The fields a caller of the subtask-update handler changes: `{ text }` or `{ completed }`. */
  datatype SubtaskUpdate = SubtaskUpdate(text: Option<string>, completed: Option<bool>)

  /** One row of `select('*, subtasks(*)')`: the nested subtask list may be missing. */
  datatype TaskRow = TaskRow(id: string, title: string, columnId: ColumnId, subtasks: Option<seq<Subtask>>)

  /** The answer to a fetch of all tasks: rows, neither rows nor an error, or an error. */
  datatype Fetch = Rows(rows: seq<TaskRow>) | NoData | FetchError

  /** The answer to an insert: the id the server assigned to the new row, or no row
      (an error, or no data returned). */
  datatype Insert = Inserted(id: string) | NotInserted

  /** A task freshly inserted with `{ title, column_id: 'todo' }` and given `subtasks: []`. */
  function NewTask(id: string, title: string): Task {
    Task(id, title, Todo, [])
  }

  /** A subtask freshly inserted with `{ task_id, text, completed: false }`. */
  function NewSubtask(id: string, text: string, taskId: string): Subtask {
    Subtask(id, text, false, taskId)
  }

  /** The update a column move sends: `{ column_id: c }`. */
  function MoveTo(c: ColumnId): TaskUpdate {
    TaskUpdate(None, Some(c))
  }

  /** The completion flags of a subtask list, in order. */
  function Completions(subs: seq<Subtask>): seq<bool> {
    seq(|subs|, i requires 0 <= i < |subs| => subs[i].completed)
  }

  /** `subtasks.some(s => s.completed)` */
  predicate AnyCompleted(done: seq<bool>) {
    true in done
  }

  /** `subtasks.length > 0 && subtasks.every(s => s.completed)` */
  predicate AllCompleted(done: seq<bool>) {
    |done| > 0 && false !in done
  }

  lemma AllCompletedImpliesAny(done: seq<bool>)
    ensures AllCompleted(done) ==> AnyCompleted(done)
  {
    if AllCompleted(done) {
      assert done[0] in done && done[0];
    }
  }
}
