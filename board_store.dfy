/** The kanban page's task state: the `tasks` state cell and the handlers that change
    it. Each remote call is a parameter giving its outcome: `ok` for a write, an
    `Insert` for an insert, a `Fetch` for the re-fetch a failure triggers. */
module Kanban {
  import opened Options
  import opened BoardTypes
  import opened SeqUtils
  import opened Updaters
  import opened Transition
  import opened InputChecks

  /** The task list after the task-update handler: the optimistic merge when the
      remote write succeeds, otherwise whatever the re-fetch loads. */
  function AfterUpdateTask(ts: seq<Task>, taskId: string, u: TaskUpdate, ok: bool, refetch: Fetch): seq<Task> {
    if ok then MergeTask(ts, taskId, u) else LoadView(refetch)
  }

  /** The follow-up column move after a successful subtask write, given the copy of
      the task saved before the optimistic update. */
  function FollowUp(saved: Option<Task>, subtaskId: string, u: SubtaskUpdate): (r: Option<ColumnId>)
    ensures r.Some? ==> saved.Some? && r.value != saved.value.columnId && r.value != Todo
    ensures r.Some? ==> r == KanbanTarget(saved.value.columnId, Completions(PatchTask(subtaskId, u)(saved.value).subtasks))
    ensures saved.Some? ==>
              var target := KanbanTarget(saved.value.columnId, Completions(PatchTask(subtaskId, u)(saved.value).subtasks));
              target.Some? && target.value != saved.value.columnId ==> r == target
  {
    match saved
    case None => None
    case Some(t) => KanbanMove(t.columnId, Completions(PatchTask(subtaskId, u)(t).subtasks))
  }

  /** The task list and the follow-up move the subtask-update handler leaves. */
  function AfterUpdateSubtask(ts: seq<Task>, taskId: string, subtaskId: string, u: SubtaskUpdate,
                              ok: bool, moveOk: bool, moveRefetch: Fetch): (seq<Task>, Option<ColumnId>)
  {
    var saved := LastWhere(ts, HasId(taskId));
    var optimistic := PatchSubtaskIn(ts, taskId, subtaskId, u);
    if !ok then (Rollback(optimistic, taskId, saved), None)
    else
      var move := FollowUp(saved, subtaskId, u);
      if move.Some? then (AfterUpdateTask(optimistic, taskId, MoveTo(move.value), moveOk, moveRefetch), move)
      else (optimistic, None)
  }

  /** When the subtask write fails, the board is exactly as before the call and no
      column move is issued. */
  lemma FailedSubtaskWriteRestores(ts: seq<Task>, taskId: string, subtaskId: string, u: SubtaskUpdate,
                                   moveOk: bool, moveRefetch: Fetch)
    requires UniqueIds(ts)
    ensures AfterUpdateSubtask(ts, taskId, subtaskId, u, false, moveOk, moveRefetch) == (ts, None)
  {
    RollbackIsExact(ts, taskId, subtaskId, u);
  }

  /** A column move follows a subtask update only when the write succeeded, the task
      was on the board and the rule's target differs from its column; after a
      successful write without a move, the board shows just the optimistic subtask
      change. */
  lemma SubtaskMoveOnlyAfterWrite(ts: seq<Task>, taskId: string, subtaskId: string, u: SubtaskUpdate,
                                  ok: bool, moveOk: bool, moveRefetch: Fetch)
    ensures var (after, move) := AfterUpdateSubtask(ts, taskId, subtaskId, u, ok, moveOk, moveRefetch);
            var saved := LastWhere(ts, HasId(taskId));
            (move.Some? ==> ok && saved.Some? && saved.value.id == taskId
                            && move.value != saved.value.columnId && move.value != Todo)
            && (ok && move.None? ==> after == PatchSubtaskIn(ts, taskId, subtaskId, u))
  {
  }

  /** Conversely, once the write succeeds and the rule's target for the saved task
      differs from its column, that move is issued and applied through the
      task-update handler on top of the optimistic subtask change. */
  lemma SubtaskMoveAfterWrite(ts: seq<Task>, taskId: string, subtaskId: string, u: SubtaskUpdate,
                              moveOk: bool, moveRefetch: Fetch)
    ensures var (after, move) := AfterUpdateSubtask(ts, taskId, subtaskId, u, true, moveOk, moveRefetch);
            var saved := LastWhere(ts, HasId(taskId));
            saved.Some? ==>
              var target := KanbanTarget(saved.value.columnId, Completions(PatchTask(subtaskId, u)(saved.value).subtasks));
              target.Some? && target.value != saved.value.columnId ==>
                move == target
                && after == AfterUpdateTask(PatchSubtaskIn(ts, taskId, subtaskId, u), taskId, MoveTo(target.value),
                                            moveOk, moveRefetch)
  {
  }

  /** The subtasks whose inserts succeeded, in the order they were inserted. */
  function Confirmed(texts: seq<string>, inserts: seq<Insert>, taskId: string): (r: seq<Subtask>)
    requires |inserts| == |texts|
    ensures |r| <= |texts|
    ensures forall j :: 0 <= j < |r| ==> r[j].taskId == taskId && !r[j].completed
  {
    if texts == [] then []
    else
      var n := |texts| - 1;
      Confirmed(texts[..n], inserts[..n], taskId)
        + match inserts[n]
          case Inserted(id) => [NewSubtask(id, texts[n], taskId)]
          case NotInserted => []
  }

  /** The suggestions are confirmed independently: the confirmed subtasks of two runs
      of suggestions are those of the first run followed by those of the second. */
  lemma {:induction false} ConfirmedConcat(ta: seq<string>, ia: seq<Insert>, tb: seq<string>, ib: seq<Insert>,
                                           taskId: string)
    requires |ia| == |ta| && |ib| == |tb|
    ensures Confirmed(ta + tb, ia + ib, taskId) == Confirmed(ta, ia, taskId) + Confirmed(tb, ib, taskId)
  {
    if tb == [] {
      assert ta + tb == ta && ia + ib == ia;
    } else {
      var n := |tb| - 1;
      ConfirmedConcat(ta, ia, tb[..n], ib[..n], taskId);
      assert (ta + tb)[..|ta| + n] == ta + tb[..n];
      assert (ia + ib)[..|ia| + n] == ia + ib[..n];
      assert (ta + tb)[|ta| + n] == tb[n] && (ia + ib)[|ia| + n] == ib[n];
    }
  }

  /** A failed insert skips only its own suggestion: the suggestions before and after
      it are confirmed as if it had not been there, in order. */
  lemma ConfirmedSkipsFailed(ta: seq<string>, ia: seq<Insert>, text: string, tb: seq<string>, ib: seq<Insert>,
                             taskId: string)
    requires |ia| == |ta| && |ib| == |tb|
    ensures Confirmed(ta + [text] + tb, ia + [NotInserted] + ib, taskId)
            == Confirmed(ta, ia, taskId) + Confirmed(tb, ib, taskId)
  {
    ConfirmedConcat(ta + [text], ia + [NotInserted], tb, ib, taskId);
    ConfirmedConcat(ta, ia, [text], [NotInserted], taskId);
  }

  /** A successful insert adds its suggestion, with the server's id, between the
      subtasks confirmed before it and those confirmed after it. */
  lemma ConfirmedKeepsInserted(ta: seq<string>, ia: seq<Insert>, text: string, id: string,
                               tb: seq<string>, ib: seq<Insert>, taskId: string)
    requires |ia| == |ta| && |ib| == |tb|
    ensures Confirmed(ta + [text] + tb, ia + [Inserted(id)] + ib, taskId)
            == Confirmed(ta, ia, taskId) + [NewSubtask(id, text, taskId)] + Confirmed(tb, ib, taskId)
  {
    ConfirmedConcat(ta + [text], ia + [Inserted(id)], tb, ib, taskId);
    ConfirmedConcat(ta, ia, [text], [Inserted(id)], taskId);
  }

  /** When every insert succeeds, the suggestions are added in full and in order. */
  lemma {:induction false} ConfirmedAll(texts: seq<string>, inserts: seq<Insert>, taskId: string)
    requires |inserts| == |texts|
    requires forall j :: 0 <= j < |inserts| ==> inserts[j].Inserted?
    ensures |Confirmed(texts, inserts, taskId)| == |texts|
    ensures forall j :: 0 <= j < |texts| ==>
              Confirmed(texts, inserts, taskId)[j] == NewSubtask(inserts[j].id, texts[j], taskId)
  {
    if texts != [] {
      var n := |texts| - 1;
      var t', i' := texts[..n], inserts[..n];
      var init := Confirmed(t', i', taskId);
      ConfirmedAll(t', i', taskId);
      var last := NewSubtask(inserts[n].id, texts[n], taskId);
      assert Confirmed(texts, inserts, taskId) == init + [last] by {
        assert inserts[n] == Inserted(inserts[n].id);
      }
      assert forall j :: 0 <= j < n ==> t'[j] == texts[j] && i'[j] == inserts[j];
    }
  }

  /** The subtask-update handler's `map` over the task list, which also records the
      pre-update copy of the task (`originalTask`) for a later rollback. */
  method PatchAndSave(ts: seq<Task>, taskId: string, subtaskId: string, u: SubtaskUpdate)
    returns (next: seq<Task>, saved: Option<Task>)
    ensures next == PatchSubtaskIn(ts, taskId, subtaskId, u)
    ensures saved == LastWhere(ts, HasId(taskId))
  {
    next, saved := [], None;
    var i := 0;
    while i < |ts|
      invariant 0 <= i <= |ts|
      invariant next == MapIf(ts[..i], HasId(taskId), PatchTask(subtaskId, u))
      invariant saved == LastWhere(ts[..i], HasId(taskId))
    {
      var t := ts[i];
      if t.id == taskId {
        saved := Some(t);
        next := next + [PatchTask(subtaskId, u)(t)];
      } else {
        next := next + [t];
      }
      assert ts[..i + 1][..i] == ts[..i];
      i := i + 1;
    }
    assert ts[..i] == ts;
  }

  /** The subtask-delete handler's `map` over the task list, which also records the id
      of the task that held the subtask (`taskId`). */
  method DropAndRecord(ts: seq<Task>, subtaskId: string) returns (next: seq<Task>, holder: Option<string>)
    ensures next == DropSubtask(ts, subtaskId)
    ensures holder == HolderId(ts, subtaskId)
  {
    next, holder := [], None;
    var i := 0;
    while i < |ts|
      invariant 0 <= i <= |ts|
      invariant next == MapIf(ts[..i], Holds(subtaskId), Without(subtaskId))
      invariant holder == HolderId(ts[..i], subtaskId)
    {
      var t := ts[i];
      if Holds(subtaskId)(t) {
        holder := Some(t.id);
        next := next + [Without(subtaskId)(t)];
      } else {
        next := next + [t];
      }
      assert ts[..i + 1][..i] == ts[..i];
      assert LastWhere(ts[..i + 1], Holds(subtaskId))
             == if Holds(subtaskId)(t) then Some(t) else LastWhere(ts[..i], Holds(subtaskId));
      i := i + 1;
    }
    assert ts[..i] == ts;
  }

  class BoardStore {
    /** The tasks in view, oldest first. */
    var tasks: seq<Task>

    /** The page starts with no tasks. */
    constructor ()
      ensures tasks == []
    {
      tasks := [];
    }

    /** What the load handler does with the result of fetching every task. */
    method FetchTasks(f: Fetch)
      modifies this
      ensures tasks == LoadView(f)
    {
      match f {
        case FetchError =>
          tasks := [];
        case Rows(rows) =>
          tasks := seq(|rows|, i requires 0 <= i < |rows| => FromRow(rows[i]));
        case NoData =>
          tasks := [];
      }
    }

    /** Adds a task once the server has inserted it: one new 'todo' task with no
        subtasks at the end of the list. Nothing changes when the insert fails. */
    method AddTask(title: string, reply: Insert)
      modifies this
      ensures tasks == if reply.Inserted? then old(tasks) + [NewTask(reply.id, title)] else old(tasks)
    {
      match reply {
        case Inserted(id) =>
          tasks := tasks + [NewTask(id, title)];
        case NotInserted =>
      }
    }

    /** Merges the update into the task at once, then writes it; a failed write is
        undone by re-fetching everything. */
    method UpdateTask(taskId: string, u: TaskUpdate, ok: bool, refetch: Fetch)
      modifies this
      ensures tasks == AfterUpdateTask(old(tasks), taskId, u, ok, refetch)
    {
      tasks := MergeTask(tasks, taskId, u);
      if !ok {
        FetchTasks(refetch);
      }
    }

    /** Removes the task at once, then deletes it remotely; a failed delete is undone
        by re-fetching everything. */
    method DeleteTask(taskId: string, ok: bool, refetch: Fetch)
      modifies this
      ensures tasks == if ok then RemoveTask(old(tasks), taskId) else LoadView(refetch)
    {
      tasks := RemoveTask(tasks, taskId);
      if !ok {
        FetchTasks(refetch);
      }
    }

    /** Appends the subtask the server inserted to the end of its task's list.
        Nothing changes when the insert fails. */
    method AddSubtask(taskId: string, text: string, reply: Insert)
      modifies this
      ensures tasks == if reply.Inserted?
                       then AppendSubtasks(old(tasks), taskId, [NewSubtask(reply.id, text, taskId)])
                       else old(tasks)
    {
      match reply {
        case Inserted(id) =>
          tasks := AppendSubtasks(tasks, taskId, [NewSubtask(id, text, taskId)]);
        case NotInserted =>
      }
    }

    /** Applies the subtask update at once, then writes it. A failed write restores
        the saved copy of the task and evaluates no transition; a successful one runs
        the column-transition rule and issues the move it yields, if it differs from
        the task's column. Returns that move. */
    method UpdateSubtask(taskId: string, subtaskId: string, u: SubtaskUpdate,
                         ok: bool, moveOk: bool, moveRefetch: Fetch)
      returns (move: Option<ColumnId>)
      modifies this
      ensures (tasks, move) == AfterUpdateSubtask(old(tasks), taskId, subtaskId, u, ok, moveOk, moveRefetch)
    {
      var next, saved := PatchAndSave(tasks, taskId, subtaskId, u);
      tasks := next;
      move := None;
      if !ok {
        if saved.Some? {
          tasks := MapIf(tasks, HasId(taskId), Always(saved.value));
        }
        return;
      }
      if saved.Some? {
        var updated := PatchTask(subtaskId, u)(saved.value);
        var target := KanbanTarget(saved.value.columnId, Completions(updated.subtasks));
        if target.Some? && target.value != updated.columnId {
          move := target;
          UpdateTask(taskId, MoveTo(target.value), moveOk, moveRefetch);
        }
      }
    }

    /** Removes the subtask from whichever task holds it, then deletes it remotely. A
        failed delete re-fetches everything, but only if the last task that held the
        subtask has a non-empty id. Returns whether it re-fetched. */
    method DeleteSubtask(subtaskId: string, ok: bool, refetch: Fetch) returns (refetched: bool)
      modifies this
      ensures refetched == (!ok && match HolderId(old(tasks), subtaskId)
                                   case Some(id) => id != ""
                                   case None => false)
      ensures tasks == if refetched then LoadView(refetch) else DropSubtask(old(tasks), subtaskId)
    {
      var next, holder := DropAndRecord(tasks, subtaskId);
      tasks := next;
      refetched := false;
      if !ok && holder.Some? && holder.value != "" {
        refetched := true;
        FetchTasks(refetch);
      }
    }

    /** Adds AI-suggested subtasks one at a time through the add-subtask handler, each
        insert awaited before the next. A failed suggestion call adds nothing; a
        failed insert skips that one suggestion. */
    method SuggestSubtasks(taskId: string, suggestion: Option<seq<string>>, inserts: seq<Insert>)
      requires suggestion.Some? ==> |inserts| == |suggestion.value|
      modifies this
      ensures tasks == if suggestion.Some?
                       then AppendSubtasks(old(tasks), taskId, Confirmed(suggestion.value, inserts, taskId))
                       else old(tasks)
    {
      AppendNothing(tasks, taskId);
      if suggestion.Some? && |suggestion.value| > 0 {
        var texts := suggestion.value;
        var i := 0;
        while i < |texts|
          invariant 0 <= i <= |texts|
          invariant tasks == AppendSubtasks(old(tasks), taskId, Confirmed(texts[..i], inserts[..i], taskId))
        {
          ghost var before := Confirmed(texts[..i], inserts[..i], taskId);
          AddSubtask(taskId, texts[i], inserts[i]);
          assert texts[..i + 1][..i] == texts[..i];
          assert inserts[..i + 1][..i] == inserts[..i];
          assert Confirmed(texts[..i + 1], inserts[..i + 1], taskId)
                 == before + match inserts[i]
                             case Inserted(id) => [NewSubtask(id, texts[i], taskId)]
                             case NotInserted => [];
          if inserts[i].Inserted? {
            AppendSubtasksTwice(old(tasks), taskId, before, [NewSubtask(inserts[i].id, texts[i], taskId)]);
          } else {
            assert before + [] == before;
          }
          i := i + 1;
        }
        assert texts[..i] == texts && inserts[..i] == inserts;
      }
    }

    /** The new-task dialog: the trimmed title is submitted only when it is not blank. */
    method SubmitNewTask(input: string, reply: Insert) returns (called: bool)
      modifies this
      ensures called <==> exists i :: 0 <= i < |input| && !IsSpace(input[i])
      ensures tasks == if called && reply.Inserted? then old(tasks) + [NewTask(reply.id, Trim(input))]
                       else old(tasks)
    {
      var title := Submitted(input);
      called := title.Some?;
      if called {
        AddTask(title.value, reply);
      }
    }

    /** The in-place title edit: the trimmed title is sent only when it is not blank
        and differs from the task's title. */
    method SubmitTitleEdit(task: Task, input: string, ok: bool, refetch: Fetch) returns (called: bool)
      modifies this
      ensures called <==> Trim(input) != [] && Trim(input) != task.title
      ensures tasks == if called then AfterUpdateTask(old(tasks), task.id, TaskUpdate(Some(Trim(input)), None), ok, refetch)
                       else old(tasks)
    {
      var title := Edited(input, task.title);
      called := title.Some?;
      if called {
        UpdateTask(task.id, TaskUpdate(title, None), ok, refetch);
      }
    }

    /** The edit-task dialog: the trimmed title is sent whenever it is not blank. */
    method SubmitTaskDialog(task: Task, input: string, ok: bool, refetch: Fetch) returns (called: bool)
      modifies this
      ensures called <==> Trim(input) != []
      ensures tasks == if called then AfterUpdateTask(old(tasks), task.id, TaskUpdate(Some(Trim(input)), None), ok, refetch)
                       else old(tasks)
    {
      var title := Submitted(input);
      called := title.Some?;
      if called {
        UpdateTask(task.id, TaskUpdate(title, None), ok, refetch);
      }
    }

    /** The add-subtask field: the trimmed text is submitted only when it is not blank. */
    method SubmitNewSubtask(taskId: string, input: string, reply: Insert) returns (called: bool)
      modifies this
      ensures called <==> Trim(input) != []
      ensures tasks == if called && reply.Inserted?
                       then AppendSubtasks(old(tasks), taskId, [NewSubtask(reply.id, Trim(input), taskId)])
                       else old(tasks)
    {
      var text := Submitted(input);
      called := text.Some?;
      if called {
        AddSubtask(taskId, text.value, reply);
      }
    }

    /** The in-place subtask edit: the trimmed text is sent only when it is not blank
        and differs from the subtask's text. */
    method SubmitSubtaskText(taskId: string, sub: Subtask, input: string, ok: bool, moveOk: bool, moveRefetch: Fetch)
      returns (called: bool, move: Option<ColumnId>)
      modifies this
      ensures called <==> Trim(input) != [] && Trim(input) != sub.text
      ensures (tasks, move) == if called
        then AfterUpdateSubtask(old(tasks), taskId, sub.id, SubtaskUpdate(Some(Trim(input)), None), ok, moveOk, moveRefetch)
        else (old(tasks), None)
    {
      var text := Edited(input, sub.text);
      called := text.Some?;
      move := None;
      if called {
        move := UpdateSubtask(taskId, sub.id, SubtaskUpdate(text, None), ok, moveOk, moveRefetch);
      }
    }

    /** The subtask checkbox: sends the negated completion flag. */
    method ToggleSubtask(taskId: string, sub: Subtask, ok: bool, moveOk: bool, moveRefetch: Fetch)
      returns (move: Option<ColumnId>)
      modifies this
      ensures (tasks, move) ==
        AfterUpdateSubtask(old(tasks), taskId, sub.id, SubtaskUpdate(None, Some(!sub.completed)), ok, moveOk, moveRefetch)
    {
      move := UpdateSubtask(taskId, sub.id, SubtaskUpdate(None, Some(!sub.completed)), ok, moveOk, moveRefetch);
    }
  }
}

/** What a caller can conclude from the handlers' contracts alone: toggling the only
    subtask of a 'todo' task moves it to 'in-progress', not to 'done'; toggling it when
    the write fails leaves the board as it was. */
module KanbanClient {
  import opened Options
  import opened BoardTypes
  import opened SeqUtils
  import opened Updaters
  import opened Kanban

  method ToggleOnlySubtaskFromTodo() {
    var sub := Subtask("s1", "draft", false, "t1");
    var board := new BoardStore();
    board.tasks := [Task("t1", "Write report", Todo, [sub])];
    var task := board.tasks[0];
    var u := SubtaskUpdate(None, Some(true));
    var move := board.ToggleSubtask("t1", sub, true, true, NoData);
    assert LastWhere([task], HasId("t1")) == Some(task);
    assert PatchTask("s1", u)(task).subtasks == [PatchSubtask(sub, u)];
    assert Completions([PatchSubtask(sub, u)]) == [true];
    assert move == Some(InProgress);
    assert board.tasks[0].columnId == InProgress;
    assert board.tasks[0].subtasks[0].completed;
  }

  method FailedToggleChangesNothing() {
    var sub := Subtask("s1", "draft", false, "t1");
    var board := new BoardStore();
    var before := [Task("t1", "Write report", Todo, [sub]), Task("t2", "Review", Done, [])];
    board.tasks := before;
    var move := board.ToggleSubtask("t1", sub, false, true, NoData);
    FailedSubtaskWriteRestores(before, "t1", "s1", SubtaskUpdate(None, Some(true)), true, NoData);
    assert move == None;
    assert board.tasks == before;
  }
}
