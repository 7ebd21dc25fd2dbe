# Kanban board store, modelled in Dafny

This project models the state store of a small Kanban board application
(`src/store/useBoardStore.ts`). The store holds one board and the id of the
task open in the detail view. A board has a map of tasks, a map of columns
("lists"), the display order of the columns and a title. A task has content
and a list of comments; a column has a title and the ordered ids of its tasks.
The store's actions move columns and tasks by drag and drop, rename things,
add and delete lists, clear a list, add tasks and add comments.

Files:

- `splice.dfy`, module `Splice`: the array operations the store uses.
  `RemoveAt` and `InsertAt` are JavaScript's `splice(i, 1)` and
  `splice(i, 0, x)`; an insertion index past the end means "at the end"
  (`Clamped`). `Move` is remove-then-insert, with the destination counted
  in the shortened array. `Without` is `filter(y => y !== x)`.
- `types.dfy`, module `BoardTypes`: the records of `src/types/index.ts`,
  and the consistency conditions a board keeps (`WellFormed`):
  - every id in the column order names a column, and none appears twice;
  - every task id a column lists names a task;
  - every record is stored under its own id;
  - no task id appears twice in a column or in two columns.
- `ops.dfy`, module `BoardOps`: each store action as a function from the old
  board to the new one, plus lemmas about these functions. The lemmas cover
  permutation, where the moved element lands, undoing a move, add-then-delete,
  last-write-wins renames, newest-first comments and preservation of
  `WellFormed`. `DeleteTasks` is the `forEach` delete loop of `clearList`,
  written as a method with a loop.
- `store.dfy`, module `BoardStore`: the demo board `InitialData` and the
  class `Store`. Its fields `board` and `activeTaskId` are replaced by its
  methods. `MoveColumn`, `MoveTask`, `DeleteList` and `ClearList` follow the
  source's steps: copy, splice or delete, then write the new board. The
  spread-built updates call the matching `BoardOps` function. The contract of
  each action method except `SetBoard` and `SetActiveTask` has two parts:
  - the new board equals the `BoardOps` function of the old board;
  - a well-formed board stays well formed.

  `SetBoard` only promises that the board is the one given, and
  `SetActiveTask` only that the open task id is the one given.

The store does not check titles, task content or comment text. Empty or
blank strings are accepted; the blank-string checks live in the UI
components. The model follows the code, so every rename and `AddComment`
is unconditional.

`moveTask` tests "same column" by comparing the two column objects. Each key
holds its own object, so the model compares the two column ids.

Fresh ids (`uuidv4()`) and the comment timestamp (`Date.now()`) are supplied
by the caller. The store prefixes the uuid with `col-` or `task-`
(`ColumnId`, `TaskId`); a comment's id is the bare uuid. An action that adds
a record requires that the new id is not already a key.

## Model

| member | source | states |
|---|---|---|
| Splice.RemoveAt | src/store/useBoardStore.ts:48 | `splice(i, 1)` leaves an array one shorter |
| Splice.Clamped | src/store/useBoardStore.ts:49 | the position `splice(i, 0, x)` inserts at: `i` when it is within the array, otherwise its length |
| Splice.RemoveAtShifts | src/store/useBoardStore.ts:48 | after `splice(i, 1)` the elements before `i` stay put and those after it move up by one |
| Splice.InsertAtShifts | src/store/useBoardStore.ts:49 | after `splice(i, 0, x)` the elements before the insertion point stay put and those after it move down by one |
| Splice.RemoveAtCount | src/store/useBoardStore.ts:48 | removing takes out exactly one occurrence of the element at `i` |
| Splice.InsertAt | src/store/useBoardStore.ts:49 | `splice(i, 0, x)` leaves an array one longer with `x` at `i`, or at the end if `i` is past it |
| Splice.InsertAtCount | src/store/useBoardStore.ts:49 | inserting adds exactly one occurrence of `x` |
| Splice.InsertThenRemove | src/store/useBoardStore.ts:48-49 | removing at the position just inserted at restores the array |
| Splice.RemoveThenInsert | src/store/useBoardStore.ts:48-49 | inserting the removed element back where it was restores the array |
| Splice.Move | src/store/useBoardStore.ts:47-49 | remove-then-insert keeps the length and puts the moved element at the clamped destination, counted after the removal |
| Splice.MovePermutes | src/store/useBoardStore.ts:47-49 | a move is a permutation: same multiset of elements |
| Splice.MoveKeepsOthersInOrder | src/store/useBoardStore.ts:47-49 | the elements not moved keep their relative order |
| Splice.MoveInPlace | src/store/useBoardStore.ts:47-49 | a move to the same index changes nothing |
| Splice.MoveBack | src/store/useBoardStore.ts:47-49 | moving the element back from where it landed restores the array |
| Splice.RemoveAtKeepsDistinct | src/store/useBoardStore.ts:66 | removing from an array without repeats leaves none, and the removed id is gone |
| Splice.InsertAtKeepsDistinct | src/store/useBoardStore.ts:69-71 | inserting an id not yet present creates no repeat |
| Splice.MoveKeepsDistinct | src/store/useBoardStore.ts:66-69 | a move creates no repeat |
| Splice.Without | src/store/useBoardStore.ts:119 | `filter` removes every occurrence of the id and keeps every other element as often as it occurred |
| Splice.WithoutAppend | src/store/useBoardStore.ts:119 | filtering works piece by piece, so the kept elements stay in order |
| Splice.WithoutKeepsDistinct | src/store/useBoardStore.ts:119 | filtering creates no repeat |
| Splice.WithoutDistinctIsRemoveAt | src/store/useBoardStore.ts:119 | in an array without repeats, filtering an element out equals removing it at its position |
| Splice.MoveLastExample | src/store/useBoardStore.ts:45-54 | `[A,B,C]` moved from 0 to 2 gives `[B,C,A]` |
| Splice.MoveFirstExample | src/store/useBoardStore.ts:45-54 | `[A,B,C]` moved from 2 to 0 gives `[C,A,B]` |
| Splice.MoveWithinExample | src/store/useBoardStore.ts:61-69 | `[1,2,3,4]` moved from 0 to 2 gives `[2,3,1,4]` |
| BoardOps.ColumnId | src/store/useBoardStore.ts:93 | a new column's id is `col-` followed by the uuid |
| BoardOps.TaskId | src/store/useBoardStore.ts:151 | a new task's id is `task-` followed by the uuid |
| BoardOps.FreshIdsDiffer | src/store/useBoardStore.ts:93-151 | distinct uuids give distinct ids, and a column id never equals a task id |
| BoardOps.MoveColumn | src/store/useBoardStore.ts:45-54 | only the column order changes; it is a permutation with the moved id at the destination and the others in order |
| BoardOps.MoveColumnPreservesWellFormed | src/store/useBoardStore.ts:45-54 | moving a column keeps the board well formed |
| BoardOps.MoveColumnInPlace | src/store/useBoardStore.ts:45-54 | a drop at the drag's own index leaves the board as it was |
| BoardOps.MoveColumnBack | src/store/useBoardStore.ts:45-54 | moving the column back from where it landed restores the board |
| BoardOps.MoveTask | src/store/useBoardStore.ts:56-84 | tasks, column order and title are unchanged; only the two named columns change; within one column the ids are moved, across two the source loses the id at `sourceIndex` and the destination gains it at `destIndex` |
| BoardOps.MoveTaskWithinColumn | src/store/useBoardStore.ts:61-69 | within one column the ids are permuted, the moved id lands at the clamped destination and the others keep their order |
| BoardOps.MoveTaskAcrossColumns | src/store/useBoardStore.ts:56-84 | across columns the source shrinks by exactly that id, the destination grows by it at `destIndex`, and the two together hold the same ids |
| BoardOps.MoveTaskMembership | src/store/useBoardStore.ts:56-84 | after a move only the destination holds the moved id; every other id is in a column that held it before |
| BoardOps.MoveTaskKeepsColumnsDistinct | src/store/useBoardStore.ts:56-84 | no column lists an id twice after a move |
| BoardOps.MoveTaskPreservesWellFormed | src/store/useBoardStore.ts:56-84 | moving a task keeps the board well formed |
| BoardOps.MoveTaskInPlace | src/store/useBoardStore.ts:56-84 | a drop at the drag's own position leaves the board as it was |
| BoardOps.MoveTaskBackWithinColumns | src/store/useBoardStore.ts:61-69 | moving a task back within its column restores the column map |
| BoardOps.MoveTaskBackWithin | src/store/useBoardStore.ts:61-69 | moving a task back within its column restores the board |
| BoardOps.MoveTaskBackAcross | src/store/useBoardStore.ts:56-84 | moving a task back to the column it came from restores the board |
| BoardOps.UpdateBoardTitle | src/store/useBoardStore.ts:86-89 | the title becomes the given string, whatever it is, and nothing else changes |
| BoardOps.UpdateListTitle | src/store/useBoardStore.ts:104-113 | only that column's title changes, to the given string |
| BoardOps.UpdateTaskTitle | src/store/useBoardStore.ts:167-176 | only that task's content changes, to the given string |
| BoardOps.UpdateBoardTitleLastWins | src/store/useBoardStore.ts:86-89 | renaming twice keeps the second title; renaming to the current title changes nothing |
| BoardOps.UpdateListTitleLastWins | src/store/useBoardStore.ts:104-113 | the same for a column title |
| BoardOps.UpdateTaskTitleLastWins | src/store/useBoardStore.ts:167-176 | the same for task content |
| BoardOps.UpdateListTitlePreservesWellFormed | src/store/useBoardStore.ts:104-113 | renaming an existing column keeps the board well formed |
| BoardOps.UpdateTaskTitlePreservesWellFormed | src/store/useBoardStore.ts:167-176 | renaming an existing task keeps the board well formed |
| BoardOps.AddList | src/store/useBoardStore.ts:91-102 | adds the empty column `col-<uuid>` with the title, appends its id to the order, and leaves the tasks and the other columns alone |
| BoardOps.AddListPreservesWellFormed | src/store/useBoardStore.ts:91-102 | adding a list with a fresh id keeps the board well formed |
| BoardOps.AddListThenDelete | src/store/useBoardStore.ts:91-127 | deleting a list just added gives back the previous board |
| BoardOps.DeleteList | src/store/useBoardStore.ts:115-127 | the column and every mention of it in the order are gone; other columns and all tasks are kept |
| BoardOps.DeleteListKeepsOrder | src/store/useBoardStore.ts:119 | on a well-formed board the remaining columns keep their order |
| BoardOps.DeleteListPreservesWellFormed | src/store/useBoardStore.ts:115-127 | deleting a list keeps the board well formed |
| BoardOps.DeleteListOrphansTasks | src/store/useBoardStore.ts:115-127 | the deleted list's tasks stay in the task map, and no column lists them |
| BoardOps.ClearList | src/store/useBoardStore.ts:129-147 | exactly the column's tasks leave the task map, the column becomes empty, and the other columns are unchanged |
| BoardOps.DeleteTasks | src/store/useBoardStore.ts:132-135 | deleting each listed id in turn leaves exactly the tasks not listed, with unchanged values |
| BoardOps.ClearListSparesOtherLists | src/store/useBoardStore.ts:129-147 | on a well-formed board no other column loses a task |
| BoardOps.ClearListPreservesWellFormed | src/store/useBoardStore.ts:129-147 | clearing a list keeps the board well formed |
| BoardOps.AddTask | src/store/useBoardStore.ts:149-165 | adds task `task-<uuid>` with no comments and appends its id to the column; nothing else changes |
| BoardOps.AddTaskPreservesWellFormed | src/store/useBoardStore.ts:149-165 | adding a task with a fresh id keeps the board well formed |
| BoardOps.AddComment | src/store/useBoardStore.ts:182-203 | the new comment comes first and the old comments follow in their order; only that task changes |
| BoardOps.CommentsNewestFirst | src/store/useBoardStore.ts:182-203 | two comments added in a row appear newest first, ahead of the older ones |
| BoardOps.AddCommentPreservesWellFormed | src/store/useBoardStore.ts:182-203 | adding a comment keeps the board well formed |
| BoardStore.InitialOrderResolves | src/store/useBoardStore.ts:6-19 | the demo board's column order names its columns once each |
| BoardStore.InitialTaskRefsResolve | src/store/useBoardStore.ts:6-19 | every demo column is stored under its id and lists only existing tasks |
| BoardStore.InitialTasksUnshared | src/store/useBoardStore.ts:6-19 | no demo task is listed twice |
| BoardStore.InitialDataWellFormed | src/store/useBoardStore.ts:6-19 | the demo board is well formed |
| BoardStore.Store.constructor | src/store/useBoardStore.ts:38-41 | a new store holds the demo board and no open task |
| BoardStore.Store.SetBoard | src/store/useBoardStore.ts:43 | the board is replaced as given |
| BoardStore.Store.MoveColumn | src/store/useBoardStore.ts:45-54 | the copy-splice-splice steps give `BoardOps.MoveColumn` of the old board, and it stays well formed |
| BoardStore.Store.MoveTask | src/store/useBoardStore.ts:56-84 | the copy-splice steps with a shared copy for one column give `BoardOps.MoveTask`, and the board stays well formed |
| BoardStore.Store.UpdateBoardTitle | src/store/useBoardStore.ts:86-89 | the board becomes `BoardOps.UpdateBoardTitle` of the old one |
| BoardStore.Store.AddList | src/store/useBoardStore.ts:91-102 | the board becomes `BoardOps.AddList` of the old one and stays well formed |
| BoardStore.Store.UpdateListTitle | src/store/useBoardStore.ts:104-113 | the board becomes `BoardOps.UpdateListTitle` of the old one and stays well formed |
| BoardStore.Store.DeleteList | src/store/useBoardStore.ts:115-127 | copy, delete the key and filter the order: `BoardOps.DeleteList` of the old board, still well formed |
| BoardStore.Store.ClearList | src/store/useBoardStore.ts:129-147 | the delete loop then emptying the column gives `BoardOps.ClearList`, still well formed |
| BoardStore.Store.AddTask | src/store/useBoardStore.ts:149-165 | the board becomes `BoardOps.AddTask` of the old one and stays well formed |
| BoardStore.Store.UpdateTaskTitle | src/store/useBoardStore.ts:167-176 | the board becomes `BoardOps.UpdateTaskTitle` of the old one and stays well formed |
| BoardStore.Store.SetActiveTask | src/store/useBoardStore.ts:178-180 | the open task id is set as given (or cleared) and the board is untouched |
| BoardStore.Store.AddComment | src/store/useBoardStore.ts:182-203 | the board becomes `BoardOps.AddComment` of the old one and stays well formed |

## Left out

- Persistence: the store is wrapped in a `persist` middleware that saves to
  `localStorage` and hydrates on demand (src/store/useBoardStore.ts:205-209).
  Serialisation and hydration happen in a library outside this model.
- `uuidv4()` and `Date.now()` are foreign calls. They are parameters here,
  and each fresh id is required not to be a key already.
- The React components (board, lists, cards, list menu, inline editor, task
  modal) are rendering and event handling and are not modelled. The
  drag-end handler (src/components/Board.tsx:32-33) makes no store call for a
  drop outside any target or on the drag's own position. For the second
  case, `MoveColumnInPlace` and `MoveTaskInPlace` show the call would change
  nothing anyway.
- BoardOps.MoveColumn: requires `sourceIndex` to be an index of the order and
  both indices to be non-negative. With an out-of-range source, `splice`
  would remove nothing and insert `undefined`; a negative index would count
  from the end. Drag events always carry valid indices.
- BoardOps.MoveTask: requires both columns to exist, `sourceIndex` to be in
  range and both indices to be non-negative, for the same reason. With a
  missing column the source throws; a negative index would count from the
  end of the array.
- BoardOps.UpdateListTitle: requires the column to exist. With an unknown id
  the source would store a partial column holding only a title, which the
  `Column` record cannot represent.
- BoardOps.UpdateTaskTitle: requires the task to exist, for the same reason.
- BoardOps.ClearList, BoardOps.AddTask and BoardOps.AddComment: require the
  column or task to exist. Otherwise the source throws on reading the
  missing record's fields.
- BoardStore.Store.SetBoard: the source accepts any board, so the contract
  does not promise well-formedness afterwards.
- Zustand's subscription and notification of components after `set` is not
  modelled. Each method is one atomic replacement of the field it sets.
