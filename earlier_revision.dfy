/** The column-transition step of the earlier page revision. It runs only after the
    subtask write and a re-fetch of the task both succeed, reads the column from that
    re-fetched copy, and has no "differs from the current column" guard. */
module EarlierRevision {
  import opened Options
  import opened BoardTypes
  import opened Transition

  /** The column the earlier revision asks for, or None when it asks for nothing. */
  function EarlierTarget(fetched: ColumnId, done: seq<bool>): (r: Option<ColumnId>)
    ensures AllCompleted(done) ==> r == Some(Done)
    ensures fetched == Done && !AllCompleted(done) ==> r == Some(InProgress)
    ensures fetched == Todo && AnyCompleted(done) && !AllCompleted(done) ==> r == Some(InProgress)
    ensures fetched == InProgress && !AllCompleted(done) ==> r == None
    ensures fetched == Todo && !AnyCompleted(done) ==> r == None
    ensures r != Some(Todo)
  {
    AllCompletedImpliesAny(done);
    if AllCompleted(done) then Some(Done)
    else if fetched == Done && !AllCompleted(done) then Some(InProgress)
    else if fetched == Todo && AnyCompleted(done) then Some(InProgress)
    else None
  }

  /** The move the earlier handler requests, given whether the subtask write succeeded
      and what the re-fetch of the task returned. */
  function EarlierFollowUp(written: bool, refetched: Option<Task>): (r: Option<ColumnId>)
    ensures r.Some? ==> written && refetched.Some?
    ensures written && refetched.Some? ==>
              r == EarlierTarget(refetched.value.columnId, Completions(refetched.value.subtasks))
  {
    if !written then None
    else match refetched
      case None => None
      case Some(t) => EarlierTarget(t.columnId, Completions(t.subtasks))
  }

  /** The column a task ends in once the earlier revision's request (if any) is applied. */
  function EarlierNext(fetched: ColumnId, done: seq<bool>): ColumnId {
    EarlierTarget(fetched, done).GetOr(fetched)
  }

  /** The two revisions place the task in the same column except in exactly one case:
      a 'todo' task whose subtasks are non-empty and all complete, which the earlier
      revision sends to 'done' and the kanban board to 'in-progress'. */
  lemma RevisionsAgreeExceptTodoAllComplete(prev: ColumnId, done: seq<bool>)
    ensures KanbanNext(prev, done) == EarlierNext(prev, done)
            <==> !(prev == Todo && AllCompleted(done))
    ensures prev == Todo && AllCompleted(done) ==>
            KanbanNext(prev, done) == InProgress && EarlierNext(prev, done) == Done
  {
    KanbanMoveByColumn(prev, done);
    AllCompletedImpliesAny(done);
  }

  /** The earlier revision requests a move to 'done' for a task that is already there;
      the kanban board issues no move in that case. */
  lemma EarlierRequestsRedundantDone(done: seq<bool>)
    requires AllCompleted(done)
    ensures EarlierTarget(Done, done) == Some(Done)
    ensures KanbanMove(Done, done) == None
  {
  }
}
