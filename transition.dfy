/** The column-transition rule of the kanban board, run after a subtask write succeeds.
    It reads the task's column from before the write and the completion flags after it. */
module Transition {
  import opened Options
  import opened BoardTypes

  /** The target column `newColumnId`, or None when no rule fires. The checks run
      top to bottom: leaving 'todo' on any completion wins over "all complete". */
  function KanbanTarget(prev: ColumnId, done: seq<bool>): (r: Option<ColumnId>)
    ensures r != Some(Todo)
    ensures r != Some(prev)
    ensures prev == Todo && AnyCompleted(done) ==> r == Some(InProgress)
    ensures prev == Todo && !AnyCompleted(done) ==> r == None
    ensures prev == InProgress && !AllCompleted(done) ==> r == None
    ensures prev == InProgress && AllCompleted(done) ==> r == Some(Done)
    ensures prev == Done && AllCompleted(done) ==> r == None
    ensures prev == Done && !AllCompleted(done) ==> r == Some(InProgress)
  {
    AllCompletedImpliesAny(done);
    if prev == Todo && AnyCompleted(done) then Some(InProgress)
    else if prev != Done && AllCompleted(done) then Some(Done)
    else if prev == Done && !AllCompleted(done) then Some(InProgress)
    else None
  }

  /** The follow-up column move the handler issues: the target, but only when it
      differs from the task's current column. */
  function KanbanMove(prev: ColumnId, done: seq<bool>): (r: Option<ColumnId>)
    ensures r.Some? ==> r.value != prev && r == KanbanTarget(prev, done)
    ensures r.None? ==> KanbanTarget(prev, done) == None || KanbanTarget(prev, done) == Some(prev)
  {
    match KanbanTarget(prev, done)
    case Some(c) => if c != prev then Some(c) else None
    case None => None
  }

  /** The rule never targets the task's own column, so the "differs" guard never
      suppresses a target: the issued move is always the rule's target. */
  lemma KanbanGuardRedundant(prev: ColumnId, done: seq<bool>)
    ensures KanbanMove(prev, done) == KanbanTarget(prev, done)
  {
  }

  /** The column a task ends in once the follow-up move (if any) has been applied. */
  function KanbanNext(prev: ColumnId, done: seq<bool>): ColumnId {
    KanbanMove(prev, done).GetOr(prev)
  }

  /** The rule column by column: from 'todo' any completion moves the task to
      'in-progress' (never straight to 'done'); from 'in-progress' only a complete
      non-empty list moves it, to 'done'; from 'done' anything short of that moves it
      back to 'in-progress'. */
  lemma KanbanMoveByColumn(prev: ColumnId, done: seq<bool>)
    ensures KanbanMove(prev, done) ==
      match prev
      case Todo => if AnyCompleted(done) then Some(InProgress) else None
      case InProgress => if AllCompleted(done) then Some(Done) else None
      case Done => if AllCompleted(done) then None else Some(InProgress)
  {
    AllCompletedImpliesAny(done);
  }

  /** Re-running the rule on its own output with the same subtasks settles after at
      most two moves ('todo' -> 'in-progress' -> 'done'), and after one from any other column. */
  lemma {:induction false} KanbanSettles(prev: ColumnId, done: seq<bool>)
    ensures var once := KanbanNext(prev, done);
            var twice := KanbanNext(once, done);
            KanbanNext(twice, done) == twice
            && (prev != Todo ==> twice == once)
  {
    KanbanMoveByColumn(prev, done);
    var once := KanbanNext(prev, done);
    KanbanMoveByColumn(once, done);
    KanbanMoveByColumn(KanbanNext(once, done), done);
  }

  /** One application does not always settle: a 'todo' task whose only subtask is
      complete goes to 'in-progress', and the rule would then move it on to 'done'. */
  lemma KanbanNotSettledAfterOne()
    ensures KanbanNext(Todo, [true]) == InProgress
    ensures KanbanNext(InProgress, [true]) == Done
  {
    assert AnyCompleted([true]);
    assert AllCompleted([true]);
  }
}
