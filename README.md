# Kanban board task state, modelled in Dafny

This project models the client-side task state of a task-tracking board. The board has three
columns: To-Do, In-Progress and Done. Each task has an ordered list of checklist items
(subtasks). The page keeps the task list in one state cell, `tasks`. Its handlers change that
list optimistically around calls to a hosted database. After a successful subtask write, a
small rule moves the task to another column depending on which subtasks are complete.

What is modelled:

- `BoardTypes`: tasks, subtasks, the closed set of columns, the partial updates the handlers
  accept, and the answers the remote store can give (a fetch, an insert).
- `Transition`: the kanban page's column-transition rule and the "differs from the current
  column" guard on the follow-up move.
- `EarlierRevision`: the earlier page revision's rule. It reads the column from a re-fetched
  copy of the task, runs only when both the subtask write and the re-fetch succeed, and has no
  "differs" guard. The module also compares the two rules.
- `Updaters`: the pure `map`/`filter` updaters that the handlers pass to `setTasks`, and the
  normalisation of a fetch result.
- `Display`: the grouping of tasks by column, which the source writes as a `reduce` that pushes
  into arrays and the model writes as a loop. It also holds the order in which a card lists its
  subtasks.
- `InputChecks`: the callers' checks. A text is trimmed the way `String.prototype.trim` does it
  and must not be blank. An in-place edit must also differ from the current text.
- `Kanban`: class `BoardStore`, with the `tasks` field and one method per handler and per
  caller-side check. Each remote call is a parameter: `ok` for a write, an `Insert` for an
  insert, and a `Fetch` for the re-fetch that a failure triggers.
  - `PatchAndSave` and `DropAndRecord` are loops that mirror the `map` callbacks. Those
    callbacks also assign the `originalTask` and `taskId` variables.
  - `KanbanClient` shows what a caller can conclude from the contracts alone.

Some behaviours of the code are easy to mistake for others:

- Applying the rule twice with unchanged subtasks need not settle. A 'todo' task whose subtasks
  are all complete goes to 'in-progress', and the rule would then move it on to 'done'
  (`Transition.KanbanNotSettledAfterOne`). What does hold is that the rule settles after at most
  two moves (`Transition.KanbanSettles`).
- The "differs from the current column" guard on the follow-up move never fires for this
  rule, because no branch targets the column the task is already in
  (`Transition.KanbanGuardRedundant`). Where the earlier revision leaves a task in a different
  column, that comes from the order of its checks, not from its missing guard.
- The "'todo' with all complete goes to 'in-progress'" tie-break is not limited to a single
  subtask. It applies to every non-empty, all-complete list.
- Suggested subtasks are not inserted as one batch. They are inserted one at a time, and an insert
  that fails skips only that suggestion (`Kanban.ConfirmedSkipsFailed`,
  `Kanban.BoardStore.SuggestSubtasks`).
- On a failed subtask delete, the code re-fetches only when some task held the subtask. It tests
  only the id of the last task that held it, because each match overwrites `taskId`
  (`Updaters.HolderIdIsLast`). That id must also be non-empty, because of the JavaScript
  truthiness test `if (taskId)`. An earlier holder with a non-empty id does not count.
- The column rule runs only after a subtask update (src/app/kanban/page.tsx:707-727). Adding or
  deleting a subtask never moves its task, even when that changes which subtasks are complete:
  `Updaters.AppendSubtasks` and `Updaters.DropSubtask` keep every task's column.

The menu's "move to column" action (src/app/kanban/page.tsx:358-360) is `UpdateTask` with
`MoveTo(c)`. The earlier revision's `tasksByColumn` (src/app/page.tsx:618-628) is the same
code as the kanban page's. Its fetch error branch (src/app/page.tsx:487-490) clears the list,
just as `LoadView` does for `FetchError`.

## Model

| member | source | states |
|---|---|---|
| `Transition.KanbanTarget` | src/app/kanban/page.tsx:709-722 | The rule never targets 'todo', nor the task's current column. From 'todo', any completed subtask gives 'in-progress' and never 'done', even when all are complete, and no completed subtask gives no target. From 'in-progress', a non-empty all-complete list gives 'done' and anything else no target. From 'done', the same list gives no target, and anything else gives 'in-progress'. |
| `Transition.KanbanMove` | src/app/kanban/page.tsx:724-726 | A move is issued only for a target that differs from the task's column. A target equal to the column, or no target, issues nothing. |
| `Transition.KanbanGuardRedundant` | src/app/kanban/page.tsx:716-726 | The rule never targets the task's current column, so the "differs" guard never suppresses a move. The issued move always equals the rule's target. |
| `Transition.KanbanMoveByColumn` | src/app/kanban/page.tsx:709-726 | The issued move for each column. From 'todo': 'in-progress' iff any subtask is complete. From 'in-progress': 'done' iff all are complete. From 'done': 'in-progress' iff not all are complete. |
| `Transition.KanbanSettles` | src/app/kanban/page.tsx:716-726 | Re-applying the rule to its own output settles after at most two moves, and after one move from any column other than 'todo'. |
| `Transition.KanbanNotSettledAfterOne` | src/app/kanban/page.tsx:716-719 | Two moves can be needed. 'todo' with its only subtask complete goes to 'in-progress', and from there the same list goes to 'done'. |
| `EarlierRevision.EarlierTarget` | src/app/page.tsx:593-603 | A non-empty all-complete list requests 'done' from any column, because that check comes first. From 'done', anything short of all complete requests 'in-progress'. From 'todo', some but not all complete requests 'in-progress', and none complete requests nothing. From 'in-progress', anything short of all complete requests nothing. 'todo' is never requested. |
| `EarlierRevision.EarlierFollowUp` | src/app/page.tsx:570-603 | A move is requested only if the subtask write and the re-fetch of the task both succeeded. When both succeed, the request is exactly the earlier rule's target for the re-fetched column and subtasks. |
| `EarlierRevision.RevisionsAgreeExceptTodoAllComplete` | src/app/page.tsx:594-603 | The two revisions leave a task in the same column iff it is not a 'todo' task whose subtasks are non-empty and all complete. In that one case the earlier revision gives 'done' and the kanban page gives 'in-progress'. |
| `EarlierRevision.EarlierRequestsRedundantDone` | src/app/page.tsx:597-598 | The earlier revision requests 'done' for a task already in 'done', because it has no "differs" guard. The kanban page issues no move there. |
| `Updaters.MergeTask` | src/app/kanban/page.tsx:624-628 | The update is merged into exactly the tasks with the matching id, field by field. Every other task, every id, every subtask list and the order are unchanged. |
| `Updaters.RemoveTask` | src/app/kanban/page.tsx:644 | Exactly the tasks with that id disappear. Every other task survives. If no task has the id, the list is unchanged. |
| `Updaters.RemoveTaskKeepsOrder` | src/app/kanban/page.tsx:644 | Deletion distributes over concatenation, so the surviving tasks keep their relative order. |
| `Updaters.AppendSubtasks` | src/app/kanban/page.tsx:671 | New subtasks go at the end of the matching task's list only. All other tasks are unchanged. |
| `Updaters.AppendSubtasksTwice` | src/app/kanban/page.tsx:343-345 | Two successive appends to a task are one append of the concatenation. This is why the suggestion loop adds its subtasks in order. |
| `Updaters.PatchSubtaskIn` | src/app/kanban/page.tsx:679-691 | Only the subtask with the target id, in the task with the target id, gets the update. Task ids, titles, columns, subtask order and all other subtasks are unchanged. |
| `Updaters.RollbackIsExact` | src/app/kanban/page.tsx:698-703 | Restoring the saved pre-update copy after a failed write gives back exactly the original list, provided task ids are distinct. |
| `Updaters.DropSubtask` | src/app/kanban/page.tsx:732-739 | The subtask id disappears from every task. Task ids, titles, columns and order are unchanged. Each task keeps its other subtasks in order, and a task that did not hold the subtask is untouched. |
| `Updaters.HolderId` | src/app/kanban/page.tsx:731-739 | The recorded `taskId` is absent iff no task held the subtask. Otherwise it is the id of a task that held it. |
| `Updaters.HolderIdIsLast` | src/app/kanban/page.tsx:733-737 | The recorded id belongs to a task that held the subtask, and no task after it in the list holds the subtask, since each match overwrites `taskId`. |
| `Updaters.LoadView` | src/app/kanban/page.tsx:575-583 | A fetch error, or an answer with no data, clears the view instead of leaving stale tasks. Rows are kept in server order with their fields, and a missing subtask list becomes empty. |
| `Display.TasksByColumn` | src/app/kanban/page.tsx:753-763 | Each bucket is exactly its column's tasks, in board order. A column has an entry iff it has a task, and every task is in the bucket of its own column. |
| `Display.BucketSizesSum` | src/app/page.tsx:618-628 | The three buckets partition the tasks. Their sizes sum to the task count, and their multisets add up to the task list. |
| `Display.DisplayOrderIsStableSort` | src/app/kanban/page.tsx:372-377 | The listed order is a permutation of the subtasks with every incomplete one first. It is stable: each group keeps the list order. |
| `Display.DisplayOrderIsUnique` | src/app/kanban/page.tsx:372-377 | Any incomplete-first order that keeps each group's order is the listed order. This matches a stable sort with that comparator. |
| `InputChecks.Trim` | src/app/kanban/page.tsx:117 | The trimmed text is the slice of the input left after removing the leading white space and then the trailing white space. It neither starts nor ends with white space. |
| `InputChecks.TrimEmptyIff` | src/app/kanban/page.tsx:117 | The trimmed text is empty iff the input is all white space. |
| `InputChecks.Submitted` | src/app/kanban/page.tsx:330-335 | A text is submitted iff it has a non-space character, and what is sent is the trimmed, non-empty text. |
| `InputChecks.Edited` | src/app/kanban/page.tsx:184-189 | An edit is sent iff the trimmed text is non-blank and differs from the current text. What is sent is that trimmed text. |
| `Kanban.FollowUp` | src/app/kanban/page.tsx:707-726 | A follow-up move exists only if a saved copy exists. It differs from the saved column, is never 'todo', and is the rule's target for the updated subtasks. Conversely, whenever that target exists and differs from the saved column, it is the move. |
| `Kanban.FailedSubtaskWriteRestores` | src/app/kanban/page.tsx:698-705 | If the subtask write fails, the list is exactly as before the call and no move is issued, provided task ids are distinct. |
| `Kanban.SubtaskMoveOnlyAfterWrite` | src/app/kanban/page.tsx:698-726 | A move follows only a successful write, on a task that was present, toward a column other than its own and other than 'todo'. After a successful write without a move, the board shows just the optimistic change. |
| `Kanban.SubtaskMoveAfterWrite` | src/app/kanban/page.tsx:707-726 | After a successful write, if the rule's target for the saved task differs from its column, that move is issued. The board is then the task-update handler's result for that move, applied to the optimistic subtask change. |
| `Kanban.Confirmed` | src/app/kanban/page.tsx:343-345 | The suggestions whose inserts succeeded are at most as many as the suggestions. Each one is an incomplete subtask of that task. |
| `Kanban.ConfirmedConcat` | src/app/kanban/page.tsx:341-345 | Each suggestion is confirmed on its own. The confirmed subtasks of two runs of suggestions are those of the first run followed by those of the second. |
| `Kanban.ConfirmedSkipsFailed` | src/app/kanban/page.tsx:343-345 | A failed insert skips only its own suggestion. The suggestions around it are confirmed as if it were absent, in order. |
| `Kanban.ConfirmedKeepsInserted` | src/app/kanban/page.tsx:343-345 | A successful insert adds its suggestion with the server's id, between the subtasks confirmed before and after it. |
| `Kanban.ConfirmedAll` | src/app/kanban/page.tsx:341-345 | When every insert succeeds, all suggestions are added in order, each with its server-assigned id. |
| `SeqUtils.LastWhereIsLast` | src/app/kanban/page.tsx:680-684 | The element a match-assigning `map` callback leaves in its variable is a matching element after which no element matches. |
| `Kanban.PatchAndSave` | src/app/kanban/page.tsx:676-691 | The updater loop produces the optimistic list and saves, as `originalTask`, the last task with the target id before the update. |
| `Kanban.DropAndRecord` | src/app/kanban/page.tsx:731-739 | The updater loop produces the list without the subtask and records the id of the last task that held it. |
| `Kanban.BoardStore.constructor` | src/app/kanban/page.tsx:554 | The board starts with no tasks. |
| `Kanban.BoardStore.FetchTasks` | src/app/kanban/page.tsx:568-586 | The list becomes the fetched view: cleared on error or on no data, normalised rows otherwise. |
| `Kanban.BoardStore.AddTask` | src/app/kanban/page.tsx:607-620 | On a successful insert, one task with column 'todo' and no subtasks is appended at the end. On failure the list is unchanged. |
| `Kanban.BoardStore.UpdateTask` | src/app/kanban/page.tsx:622-641 | The list becomes the optimistic merge if the write succeeds, and the re-fetched view if it fails. |
| `Kanban.BoardStore.DeleteTask` | src/app/kanban/page.tsx:643-651 | The list loses exactly the task if the delete succeeds, and becomes the re-fetched view if it fails. |
| `Kanban.BoardStore.AddSubtask` | src/app/kanban/page.tsx:660-673 | On a successful insert, the new incomplete subtask is appended to the matching task only. On failure the list is unchanged. |
| `Kanban.BoardStore.UpdateSubtask` | src/app/kanban/page.tsx:675-728 | The final list and the issued move are those of `AfterUpdateSubtask`. A failure rolls back with no move. Success runs the rule from the saved column and issues a move only when it differs. |
| `Kanban.BoardStore.DeleteSubtask` | src/app/kanban/page.tsx:730-751 | The subtask is removed from every task. A failed delete re-fetches iff the last task that held the subtask has a non-empty id. |
| `Kanban.BoardStore.SuggestSubtasks` | src/app/kanban/page.tsx:337-356 | The suggestions are added one at a time. The successfully inserted ones are appended to the task in order. A failed suggestion call adds nothing. |
| `Kanban.BoardStore.SubmitNewTask` | src/app/kanban/page.tsx:116-124 | The add-task handler runs iff the title has a non-space character. It receives the trimmed title. |
| `Kanban.BoardStore.SubmitTitleEdit` | src/app/kanban/page.tsx:311-316 | The task-update handler runs iff the trimmed title is non-blank and differs from the task's title. |
| `Kanban.BoardStore.SubmitTaskDialog` | src/app/kanban/page.tsx:238-245 | The task-update handler runs iff the trimmed title is non-blank. There is no "differs" check. |
| `Kanban.BoardStore.SubmitNewSubtask` | src/app/kanban/page.tsx:330-335 | The add-subtask handler runs iff the trimmed text is non-blank, and it receives that text. |
| `Kanban.BoardStore.SubmitSubtaskText` | src/app/kanban/page.tsx:184-189 | The subtask-update handler runs iff the trimmed text is non-blank and differs from the subtask's text. Otherwise nothing changes. |
| `Kanban.BoardStore.ToggleSubtask` | src/app/kanban/page.tsx:318-320 | The checkbox sends the negated completion flag through the subtask-update handler. |

## Left out

- Rendering, dialogs, dropdowns, toasts, icons and drag-and-drop: presentation only. This
  includes the drop handler (src/app/kanban/page.tsx:653-658), which reads the task id from
  the drag payload and then calls the task-update handler.
- The dialogs' `loading` flags, which block a second submit while one is in flight, and the
  page's `loading`/`isSyncing` flags: they are UI state about concurrent clicks.
- The hosted database client and the realtime channel (src/app/kanban/page.tsx:591-604): I/O.
  Each remote call's outcome is a method parameter. A change notification amounts to a call of
  `FetchTasks`.
- Concurrency: each handler is modelled as running to completion. Its un-awaited re-fetch is
  modelled as landing at once. Races between a realtime re-fetch and an in-flight rollback are
  not modelled.
- Server-returned records: only the id is taken from the server. The other fields are those
  the handler inserted, so the model assumes the store echoes them.
- Column values from the server are assumed to be one of the three columns, as the source's
  cast assumes.
- Partial updates carry only the fields the callers send: title or column for a task, text or
  completion for a subtask.
- `completionPercentage` (src/app/kanban/page.tsx:362-366, src/app/page.tsx:295-299):
  floating-point division and rounding.
- The earlier revision's `fetchTasks` success branches (src/app/page.tsx:491-498): inverted
  and syntactically broken. Its other handlers only write to the remote store and keep no
  local state.
- The AI suggestion flow (src/ai/flows/suggest-subtasks.ts): a foreign call. Its result is an
  arbitrary optional list of strings.
- Session guard, login page, user administration and routing: outside the task state.
- Updaters.RollbackIsExact: holds only when task ids are distinct (they are primary keys). With
  duplicate ids, the source's rollback writes the last saved copy over every task with that id,
  and the model does the same.
- Kanban.FailedSubtaskWriteRestores: likewise needs distinct task ids.
