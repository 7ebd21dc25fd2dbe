/** The board store itself (src/store/useBoardStore.ts): an object holding the
    current board and the id of the task open in the detail view. The actions
    that copy and then mutate arrays or maps (`MoveColumn`, `MoveTask`,
    `DeleteList`, `ClearList`) follow those steps; the spread-built updates
    call the `BoardOps` function that builds the new board. Every board
    action's contract ties the new board to the `BoardOps` function of the old
    one and says that a well-formed board stays well formed. */
module BoardStore {
  import opened Splice
  import opened BoardTypes
  import BoardOps

  /** The demo board the store holds until it is replaced. */
  const InitialData: BoardData := BoardData(
    map[
      "task-1" := Task("task-1", "Create Kanban", []),
      "task-2" := Task("task-2", "Review Drag & Drop", []),
      "task-3" := Task("task-3", "Set up Next.js project", [])],
    map[
      "col-1" := Column("col-1", "Todo", ["task-1", "task-2"]),
      "col-2" := Column("col-2", "In Progress", ["task-3"]),
      "col-3" := Column("col-3", "Done", [])],
    ["col-1", "col-2", "col-3"],
    "Demo Board")

  /** The demo ids are pairwise different. */
  lemma InitialIdsDiffer()
    ensures "col-1" != "col-2" && "col-1" != "col-3" && "col-2" != "col-3"
    ensures "task-1" != "task-2" && "task-1" != "task-3" && "task-2" != "task-3"
  {
    assert "col-1"[4] != "col-2"[4] && "col-1"[4] != "col-3"[4] && "col-2"[4] != "col-3"[4];
    assert "task-1"[5] != "task-2"[5] && "task-1"[5] != "task-3"[5] && "task-2"[5] != "task-3"[5];
  }

  /** The demo board's keys and what it stores under them. */
  lemma InitialContents()
    ensures InitialData.columns.Keys == {"col-1", "col-2", "col-3"}
    ensures InitialData.tasks.Keys == {"task-1", "task-2", "task-3"}
    ensures InitialData.columns["col-1"] == Column("col-1", "Todo", ["task-1", "task-2"])
    ensures InitialData.columns["col-2"] == Column("col-2", "In Progress", ["task-3"])
    ensures InitialData.columns["col-3"] == Column("col-3", "Done", [])
    ensures forall t :: t in InitialData.tasks ==> InitialData.tasks[t].id == t
  {
    InitialIdsDiffer();
  }

  lemma InitialOrderResolves()
    ensures OrderResolves(InitialData)
  {
    InitialIdsDiffer();
    InitialContents();
    var order := InitialData.columnOrder;
    assert order == ["col-1", "col-2", "col-3"];
    assert Distinct(order);
  }

  lemma InitialTaskRefsResolve()
    ensures TaskRefsResolve(InitialData) && KeysMatchIds(InitialData)
  {
    InitialContents();
    var cs := InitialData.columns;
    forall c | c in cs ensures cs[c].id == c {
      if c == "col-1" {
      } else if c == "col-2" {
      } else {
        assert c == "col-3";
      }
    }
    forall c, t | c in cs && t in cs[c].taskIds ensures t in InitialData.tasks {
      if c == "col-1" {
      } else if c == "col-2" {
      }
    }
  }

  lemma InitialTasksUnshared()
    ensures TasksUnshared(InitialData)
  {
    InitialIdsDiffer();
    InitialContents();
    var cs := InitialData.columns;
    var todo, doing: seq<string> := ["task-1", "task-2"], ["task-3"];
    assert Distinct(todo) && Disjoint(todo, doing) && Disjoint(doing, todo);
    forall c | c in cs ensures Distinct(cs[c].taskIds) {
      if c == "col-1" {
      } else if c == "col-2" {
      } else {
        assert c == "col-3";
      }
    }
    forall c, d | c in cs && d in cs && c != d
      ensures Disjoint(cs[c].taskIds, cs[d].taskIds)
    {
      if c == "col-3" || d == "col-3" {
      } else if c == "col-1" {
        assert cs[c].taskIds == todo && cs[d].taskIds == doing;
      } else {
        assert cs[c].taskIds == doing && cs[d].taskIds == todo;
      }
    }
  }

  /** The demo board satisfies every consistency condition. */
  lemma InitialDataWellFormed()
    ensures WellFormed(InitialData)
  {
    InitialOrderResolves();
    InitialTaskRefsResolve();
    InitialTasksUnshared();
  }

  class Store {
    var board: BoardData
    /** `null` in the source is `None`. */
    var activeTaskId: Option<string>

    /** A fresh store holds the demo board and no open task. */
    constructor ()
      ensures board == InitialData && activeTaskId == None
      ensures WellFormed(board)
    {
      board := InitialData;
      activeTaskId := None;
      InitialDataWellFormed();
    }

    /** Replace the whole board; nothing about the new one is checked. */
    method SetBoard(newBoard: BoardData)
      modifies this`board
      ensures board == newBoard
    {
      board := newBoard;
    }

    method MoveColumn(sourceIndex: nat, destIndex: nat)
      requires sourceIndex < |board.columnOrder|
      modifies this`board
      ensures board == BoardOps.MoveColumn(old(board), sourceIndex, destIndex)
      ensures WellFormed(old(board)) ==> WellFormed(board)
    {
      if WellFormed(board) {
        BoardOps.MoveColumnPreservesWellFormed(board, sourceIndex, destIndex);
      }
      var newColumnOrder := board.columnOrder;
      var removed := newColumnOrder[sourceIndex];
      newColumnOrder := RemoveAt(newColumnOrder, sourceIndex);
      newColumnOrder := InsertAt(newColumnOrder, destIndex, removed);
      board := board.(columnOrder := newColumnOrder);
    }

    /** Within one column the insertion goes into the same copy the removal
        shortened, so both updates of the column map write the same list. */
    method MoveTask(sourceColId: string, destColId: string, sourceIndex: nat, destIndex: nat)
      requires sourceColId in board.columns && destColId in board.columns
      requires sourceIndex < |board.columns[sourceColId].taskIds|
      modifies this`board
      ensures board == BoardOps.MoveTask(old(board), sourceColId, destColId, sourceIndex, destIndex)
      ensures WellFormed(old(board)) ==> WellFormed(board)
    {
      if WellFormed(board) {
        BoardOps.MoveTaskPreservesWellFormed(board, sourceColId, destColId, sourceIndex, destIndex);
      }
      var sourceCol := board.columns[sourceColId];
      var destCol := board.columns[destColId];
      var newSourceTaskIds := sourceCol.taskIds;
      var newDestTaskIds := destCol.taskIds;
      var movedTaskId := newSourceTaskIds[sourceIndex];
      newSourceTaskIds := RemoveAt(newSourceTaskIds, sourceIndex);
      if sourceColId == destColId {
        newSourceTaskIds := InsertAt(newSourceTaskIds, destIndex, movedTaskId);
        newDestTaskIds := newSourceTaskIds;
      } else {
        newDestTaskIds := InsertAt(newDestTaskIds, destIndex, movedTaskId);
      }
      board := board.(columns := board.columns
        [sourceColId := sourceCol.(taskIds := newSourceTaskIds)]
        [destColId := destCol.(taskIds := newDestTaskIds)]);
    }

    method UpdateBoardTitle(title: string)
      modifies this`board
      ensures board == BoardOps.UpdateBoardTitle(old(board), title)
      ensures WellFormed(old(board)) ==> WellFormed(board)
    {
      board := BoardOps.UpdateBoardTitle(board, title);
    }

    /** Append a new empty column `col-<uuid>`. */
    method AddList(uuid: string, title: string)
      requires BoardOps.ColumnId(uuid) !in board.columns
      modifies this`board
      ensures board == BoardOps.AddList(old(board), uuid, title)
      ensures WellFormed(old(board)) ==> WellFormed(board)
    {
      if WellFormed(board) {
        BoardOps.AddListPreservesWellFormed(board, uuid, title);
      }
      board := BoardOps.AddList(board, uuid, title);
    }

    method UpdateListTitle(listId: string, title: string)
      requires listId in board.columns
      modifies this`board
      ensures board == BoardOps.UpdateListTitle(old(board), listId, title)
      ensures WellFormed(old(board)) ==> WellFormed(board)
    {
      if WellFormed(board) {
        BoardOps.UpdateListTitlePreservesWellFormed(board, listId, title);
      }
      board := BoardOps.UpdateListTitle(board, listId, title);
    }

    method DeleteList(listId: string)
      modifies this`board
      ensures board == BoardOps.DeleteList(old(board), listId)
      ensures WellFormed(old(board)) ==> WellFormed(board)
    {
      if WellFormed(board) {
        BoardOps.DeleteListPreservesWellFormed(board, listId);
      }
      var newColumns := board.columns - {listId};
      var newColumnOrder := Without(board.columnOrder, listId);
      board := board.(columns := newColumns, columnOrder := newColumnOrder);
    }

    /** Delete the column's tasks one by one from a copy of the task map,
        then empty the column. */
    method ClearList(listId: string)
      requires listId in board.columns
      modifies this`board
      ensures board == BoardOps.ClearList(old(board), listId)
      ensures WellFormed(old(board)) ==> WellFormed(board)
    {
      if WellFormed(board) {
        BoardOps.ClearListPreservesWellFormed(board, listId);
      }
      var column := board.columns[listId];
      var newTasks := BoardOps.DeleteTasks(board.tasks, column.taskIds);
      assert newTasks == board.tasks - BoardOps.IdSet(column.taskIds);
      board := board.(tasks := newTasks,
                      columns := board.columns[listId := column.(taskIds := [])]);
    }

    /** Create task `task-<uuid>` and append it to the column. */
    method AddTask(listId: string, uuid: string, content: string)
      requires listId in board.columns && BoardOps.TaskId(uuid) !in board.tasks
      modifies this`board
      ensures board == BoardOps.AddTask(old(board), listId, uuid, content)
      ensures WellFormed(old(board)) ==> WellFormed(board)
    {
      if WellFormed(board) {
        BoardOps.AddTaskPreservesWellFormed(board, listId, uuid, content);
      }
      board := BoardOps.AddTask(board, listId, uuid, content);
    }

    method UpdateTaskTitle(taskId: string, content: string)
      requires taskId in board.tasks
      modifies this`board
      ensures board == BoardOps.UpdateTaskTitle(old(board), taskId, content)
      ensures WellFormed(old(board)) ==> WellFormed(board)
    {
      if WellFormed(board) {
        BoardOps.UpdateTaskTitlePreservesWellFormed(board, taskId, content);
      }
      board := BoardOps.UpdateTaskTitle(board, taskId, content);
    }

    /** Open (`Some`) or close (`None`) the task detail view; the board is
        not touched. */
    method SetActiveTask(id: Option<string>)
      modifies this`activeTaskId
      ensures activeTaskId == id
    {
      activeTaskId := id;
    }

    /** Put a new comment, with the caller's uuid and timestamp, in front of
        the task's comments. */
    method AddComment(taskId: string, uuid: string, text: string, now: int)
      requires taskId in board.tasks
      modifies this`board
      ensures board == BoardOps.AddComment(old(board), taskId, uuid, text, now)
      ensures WellFormed(old(board)) ==> WellFormed(board)
    {
      if WellFormed(board) {
        BoardOps.AddCommentPreservesWellFormed(board, taskId, uuid, text, now);
      }
      board := BoardOps.AddComment(board, taskId, uuid, text, now);
    }
  }
}
