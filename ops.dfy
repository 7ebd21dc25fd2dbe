/** The board store's mutations (src/store/useBoardStore.ts), each as the new
    board it computes from the old one, with the properties the board keeps.

    Fresh ids are supplied by the caller in place of `uuidv4()` and the
    comment timestamp in place of `Date.now()`; the store itself prefixes the
    uuid with `col-` or `task-`, as modelled by `ColumnId` and `TaskId`. */
module BoardOps {
  import opened Splice
  import opened BoardTypes

  /** The id `col-<uuid>` of a new column. */
  function ColumnId(uuid: string): (r: string)
    ensures |r| == |uuid| + 4 && r[..4] == "col-" && r[4..] == uuid
  {
    "col-" + uuid
  }

  /** The id `task-<uuid>` of a new task. */
  function TaskId(uuid: string): (r: string)
    ensures |r| == |uuid| + 5 && r[..5] == "task-" && r[5..] == uuid
  {
    "task-" + uuid
  }

  /** Different uuids give different ids, and a column id is never a task
      id. */
  lemma FreshIdsDiffer(u: string, v: string)
    ensures ColumnId(u) == ColumnId(v) <==> u == v
    ensures TaskId(u) == TaskId(v) <==> u == v
    ensures ColumnId(u) != TaskId(v)
  {
    if ColumnId(u) == ColumnId(v) {
      assert u == ColumnId(u)[4..] == ColumnId(v)[4..] == v;
    }
    if TaskId(u) == TaskId(v) {
      assert u == TaskId(u)[5..] == TaskId(v)[5..] == v;
    }
    assert ColumnId(u)[0] == 'c' && TaskId(v)[0] == 't';
  }

  // ---------------------------------------------------------------- moveColumn

  /** Drag a column from `sourceIndex` to `destIndex` of the column order,
      `destIndex` counted after the removal. */
  function MoveColumn(b: BoardData, sourceIndex: nat, destIndex: nat): (r: BoardData)
    requires sourceIndex < |b.columnOrder|
    ensures r.tasks == b.tasks && r.columns == b.columns && r.boardTitle == b.boardTitle
    ensures |r.columnOrder| == |b.columnOrder|
    ensures multiset(r.columnOrder) == multiset(b.columnOrder)
    ensures var k := Clamped(|b.columnOrder| - 1, destIndex);
      && r.columnOrder[k] == b.columnOrder[sourceIndex]
      && RemoveAt(r.columnOrder, k) == RemoveAt(b.columnOrder, sourceIndex)
  {
    MovePermutes(b.columnOrder, sourceIndex, destIndex);
    MoveKeepsOthersInOrder(b.columnOrder, sourceIndex, destIndex);
    b.(columnOrder := Move(b.columnOrder, sourceIndex, destIndex))
  }

  lemma MoveColumnPreservesWellFormed(b: BoardData, sourceIndex: nat, destIndex: nat)
    requires WellFormed(b) && sourceIndex < |b.columnOrder|
    ensures WellFormed(MoveColumn(b, sourceIndex, destIndex))
  {
    MoveKeepsDistinct(b.columnOrder, sourceIndex, destIndex);
    var r := MoveColumn(b, sourceIndex, destIndex);
    assert TaskRefsResolve(r) && KeysMatchIds(r) && TasksUnshared(r);
    forall c | c in r.columnOrder ensures c in r.columns {
      assert c in multiset(r.columnOrder);
    }
  }

  /** A drop back onto the drag's own position leaves the board as it was. */
  lemma MoveColumnInPlace(b: BoardData, i: nat)
    requires i < |b.columnOrder|
    ensures MoveColumn(b, i, i) == b
  {
    MoveInPlace(b.columnOrder, i);
  }

  /** Dragging the column back from where it landed undoes the move. */
  lemma MoveColumnBack(b: BoardData, sourceIndex: nat, destIndex: nat)
    requires sourceIndex < |b.columnOrder|
    ensures var k := Clamped(|b.columnOrder| - 1, destIndex);
      MoveColumn(MoveColumn(b, sourceIndex, destIndex), k, sourceIndex) == b
  {
    var k := Clamped(|b.columnOrder| - 1, destIndex);
    var r := MoveColumn(b, sourceIndex, destIndex);
    assert r.columnOrder == Move(b.columnOrder, sourceIndex, destIndex);
    MoveBack(b.columnOrder, sourceIndex, destIndex);
    assert MoveColumn(r, k, sourceIndex).columnOrder == b.columnOrder;
  }

  // ------------------------------------------------------------------ moveTask

  /** Drag the task at `sourceIndex` of one column to `destIndex` of a column.
      Within one column the index counts positions after the removal; across
      columns it counts positions of the untouched destination. */
  function MoveTask(b: BoardData, sourceColId: string, destColId: string,
                    sourceIndex: nat, destIndex: nat): (r: BoardData)
    requires sourceColId in b.columns && destColId in b.columns
    requires sourceIndex < |b.columns[sourceColId].taskIds|
    ensures r.tasks == b.tasks && r.columnOrder == b.columnOrder && r.boardTitle == b.boardTitle
    ensures r.columns.Keys == b.columns.Keys
    ensures forall c :: c in b.columns ==>
      r.columns[c].id == b.columns[c].id && r.columns[c].title == b.columns[c].title
    ensures forall c :: c in b.columns && c != sourceColId && c != destColId ==>
      r.columns[c] == b.columns[c]
    ensures sourceColId == destColId ==>
      r.columns[sourceColId].taskIds == Move(b.columns[sourceColId].taskIds, sourceIndex, destIndex)
    ensures sourceColId != destColId ==>
      var s := b.columns[sourceColId].taskIds;
      && r.columns[sourceColId].taskIds == RemoveAt(s, sourceIndex)
      && r.columns[destColId].taskIds == InsertAt(b.columns[destColId].taskIds, destIndex, s[sourceIndex])
  {
    var sourceCol := b.columns[sourceColId];
    var movedTaskId := sourceCol.taskIds[sourceIndex];
    if sourceColId == destColId then
      var moved := Move(sourceCol.taskIds, sourceIndex, destIndex);
      b.(columns := b.columns[sourceColId := sourceCol.(taskIds := moved)])
    else
      var destCol := b.columns[destColId];
      var shortened := RemoveAt(sourceCol.taskIds, sourceIndex);
      var lengthened := InsertAt(destCol.taskIds, destIndex, movedTaskId);
      b.(columns := b.columns
        [sourceColId := sourceCol.(taskIds := shortened)]
        [destColId := destCol.(taskIds := lengthened)])
  }

  /** Within one column the task ids are permuted: the moved id lands at the
      (clamped) destination index and the others keep their order. */
  lemma MoveTaskWithinColumn(b: BoardData, colId: string, sourceIndex: nat, destIndex: nat)
    requires colId in b.columns && sourceIndex < |b.columns[colId].taskIds|
    ensures var s := b.columns[colId].taskIds;
      var s' := MoveTask(b, colId, colId, sourceIndex, destIndex).columns[colId].taskIds;
      var k := Clamped(|s| - 1, destIndex);
      && |s'| == |s|
      && multiset(s') == multiset(s)
      && s'[k] == s[sourceIndex]
      && RemoveAt(s', k) == RemoveAt(s, sourceIndex)
  {
    var col := b.columns[colId];
    var r := MoveTask(b, colId, colId, sourceIndex, destIndex);
    MovePermutes(col.taskIds, sourceIndex, destIndex);
    MoveKeepsOthersInOrder(col.taskIds, sourceIndex, destIndex);
  }

  /** Across two columns the source loses exactly the id at `sourceIndex`, the
      destination gains it at the (clamped) `destIndex`, and the two columns
      together hold the same ids as before. */
  lemma MoveTaskAcrossColumns(b: BoardData, sourceColId: string, destColId: string,
                              sourceIndex: nat, destIndex: nat)
    requires sourceColId in b.columns && destColId in b.columns && sourceColId != destColId
    requires sourceIndex < |b.columns[sourceColId].taskIds|
    ensures var r := MoveTask(b, sourceColId, destColId, sourceIndex, destIndex);
      var s, s' := b.columns[sourceColId].taskIds, r.columns[sourceColId].taskIds;
      var d, d' := b.columns[destColId].taskIds, r.columns[destColId].taskIds;
      var k := Clamped(|d|, destIndex);
      && |s'| == |s| - 1
      && (forall j :: 0 <= j < sourceIndex ==> s'[j] == s[j])
      && (forall j :: sourceIndex <= j < |s'| ==> s'[j] == s[j + 1])
      && |d'| == |d| + 1
      && d'[k] == s[sourceIndex]
      && (forall j :: 0 <= j < k ==> d'[j] == d[j])
      && (forall j :: k < j < |d'| ==> d'[j] == d[j - 1])
      && multiset(s') + multiset(d') == multiset(s) + multiset(d)
  {
    var s := b.columns[sourceColId].taskIds;
    var d := b.columns[destColId].taskIds;
    var r := MoveTask(b, sourceColId, destColId, sourceIndex, destIndex);
    RemoveAtShifts(s, sourceIndex);
    InsertAtShifts(d, destIndex, s[sourceIndex]);
    RemoveAtCount(s, sourceIndex);
    InsertAtCount(d, destIndex, s[sourceIndex]);
  }

  /** Where each id sits after a move of task `x`: only the destination holds
      `x`, and every other id is still in a column that held it before. */
  lemma MoveTaskMembership(b: BoardData, sourceColId: string, destColId: string,
                           sourceIndex: nat, destIndex: nat)
    requires TasksUnshared(b)
    requires sourceColId in b.columns && destColId in b.columns
    requires sourceIndex < |b.columns[sourceColId].taskIds|
    ensures var r := MoveTask(b, sourceColId, destColId, sourceIndex, destIndex);
      var x := b.columns[sourceColId].taskIds[sourceIndex];
      forall c, t :: c in r.columns && t in r.columns[c].taskIds ==>
        (t == x ==> c == destColId) && (t != x ==> t in b.columns[c].taskIds)
  {
    var r := MoveTask(b, sourceColId, destColId, sourceIndex, destIndex);
    var s := b.columns[sourceColId].taskIds;
    var x := s[sourceIndex];
    forall c, t | c in r.columns && t in r.columns[c].taskIds
      ensures (t == x ==> c == destColId) && (t != x ==> t in b.columns[c].taskIds)
    {
      if sourceColId == destColId && c == sourceColId {
        MoveTaskWithinColumn(b, sourceColId, sourceIndex, destIndex);
        assert t in multiset(r.columns[c].taskIds);
      } else if c == sourceColId {
        MoveTaskAcrossColumns(b, sourceColId, destColId, sourceIndex, destIndex);
        RemoveAtKeepsDistinct(s, sourceIndex);
        assert r.columns[c].taskIds == RemoveAt(s, sourceIndex);
        assert t in multiset(RemoveAt(s, sourceIndex));
      } else if c == destColId {
        MoveTaskAcrossColumns(b, sourceColId, destColId, sourceIndex, destIndex);
        var d := b.columns[destColId].taskIds;
        assert r.columns[c].taskIds == InsertAt(d, destIndex, x);
        assert t in multiset(InsertAt(d, destIndex, x));
      } else {
        assert r.columns[c] == b.columns[c];
        assert Disjoint(s, b.columns[c].taskIds);
      }
    }
  }

  /** Each column still lists every id at most once. */
  lemma MoveTaskKeepsColumnsDistinct(b: BoardData, sourceColId: string, destColId: string,
                                     sourceIndex: nat, destIndex: nat)
    requires TasksUnshared(b)
    requires sourceColId in b.columns && destColId in b.columns
    requires sourceIndex < |b.columns[sourceColId].taskIds|
    ensures var r := MoveTask(b, sourceColId, destColId, sourceIndex, destIndex);
      forall c :: c in r.columns ==> Distinct(r.columns[c].taskIds)
  {
    var r := MoveTask(b, sourceColId, destColId, sourceIndex, destIndex);
    var s := b.columns[sourceColId].taskIds;
    if sourceColId == destColId {
      MoveKeepsDistinct(s, sourceIndex, destIndex);
      assert r.columns[sourceColId].taskIds == Move(s, sourceIndex, destIndex);
    } else {
      var d := b.columns[destColId].taskIds;
      RemoveAtKeepsDistinct(s, sourceIndex);
      assert Disjoint(s, d);
      InsertAtKeepsDistinct(d, destIndex, s[sourceIndex]);
      assert r.columns[sourceColId].taskIds == RemoveAt(s, sourceIndex);
      assert r.columns[destColId].taskIds == InsertAt(d, destIndex, s[sourceIndex]);
    }
  }

  lemma MoveTaskPreservesWellFormed(b: BoardData, sourceColId: string, destColId: string,
                                    sourceIndex: nat, destIndex: nat)
    requires WellFormed(b)
    requires sourceColId in b.columns && destColId in b.columns
    requires sourceIndex < |b.columns[sourceColId].taskIds|
    ensures WellFormed(MoveTask(b, sourceColId, destColId, sourceIndex, destIndex))
  {
    var r := MoveTask(b, sourceColId, destColId, sourceIndex, destIndex);
    var x := b.columns[sourceColId].taskIds[sourceIndex];
    MoveTaskMembership(b, sourceColId, destColId, sourceIndex, destIndex);
    MoveTaskKeepsColumnsDistinct(b, sourceColId, destColId, sourceIndex, destIndex);
    assert OrderResolves(r) && KeysMatchIds(r);
    assert TaskRefsResolve(r);
    forall c, d | c in r.columns && d in r.columns && c != d
      ensures Disjoint(r.columns[c].taskIds, r.columns[d].taskIds)
    {
      assert Disjoint(b.columns[c].taskIds, b.columns[d].taskIds);
    }
  }

  /** A drop back onto the drag's own position leaves the board as it was. */
  lemma MoveTaskInPlace(b: BoardData, colId: string, i: nat)
    requires colId in b.columns && i < |b.columns[colId].taskIds|
    ensures MoveTask(b, colId, colId, i, i) == b
  {
    MoveInPlace(b.columns[colId].taskIds, i);
    assert b.columns[colId].(taskIds := b.columns[colId].taskIds) == b.columns[colId];
  }

  lemma MoveTaskBackWithinColumns(b: BoardData, colId: string, sourceIndex: nat, destIndex: nat)
    requires colId in b.columns && sourceIndex < |b.columns[colId].taskIds|
    ensures var k := Clamped(|b.columns[colId].taskIds| - 1, destIndex);
      MoveTask(MoveTask(b, colId, colId, sourceIndex, destIndex), colId, colId, k, sourceIndex).columns
        == b.columns
  {
    var col := b.columns[colId];
    var s := col.taskIds;
    var k := Clamped(|s| - 1, destIndex);
    var r := MoveTask(b, colId, colId, sourceIndex, destIndex);
    MoveBack(s, sourceIndex, destIndex);
    var r' := MoveTask(r, colId, colId, k, sourceIndex);
    forall c | c in b.columns ensures r'.columns[c] == b.columns[c] {
      if c == colId {
        assert r'.columns[c].taskIds == s;
      }
    }
    assert r'.columns.Keys == b.columns.Keys;
  }

  /** Dragging the task back from where it landed undoes a move within one
      column. */
  lemma MoveTaskBackWithin(b: BoardData, colId: string, sourceIndex: nat, destIndex: nat)
    requires colId in b.columns && sourceIndex < |b.columns[colId].taskIds|
    ensures var k := Clamped(|b.columns[colId].taskIds| - 1, destIndex);
      MoveTask(MoveTask(b, colId, colId, sourceIndex, destIndex), colId, colId, k, sourceIndex) == b
  {
    MoveTaskBackWithinColumns(b, colId, sourceIndex, destIndex);
  }

  /** Dragging the task back from where it landed undoes a move across two
      columns. */
  lemma MoveTaskBackAcross(b: BoardData, sourceColId: string, destColId: string,
                           sourceIndex: nat, destIndex: nat)
    requires sourceColId in b.columns && destColId in b.columns && sourceColId != destColId
    requires sourceIndex < |b.columns[sourceColId].taskIds|
    ensures var k := Clamped(|b.columns[destColId].taskIds|, destIndex);
      MoveTask(MoveTask(b, sourceColId, destColId, sourceIndex, destIndex),
               destColId, sourceColId, k, sourceIndex) == b
  {
    var src, dst := b.columns[sourceColId], b.columns[destColId];
    var s, d := src.taskIds, dst.taskIds;
    var x := s[sourceIndex];
    var k := Clamped(|d|, destIndex);
    var r := MoveTask(b, sourceColId, destColId, sourceIndex, destIndex);
    assert r.columns[sourceColId] == src.(taskIds := RemoveAt(s, sourceIndex));
    assert r.columns[destColId] == dst.(taskIds := InsertAt(d, destIndex, x));
    InsertThenRemove(d, destIndex, x);
    RemoveThenInsert(s, sourceIndex);
    var r' := MoveTask(r, destColId, sourceColId, k, sourceIndex);
    assert r'.columns[sourceColId] == src;
    assert r'.columns[destColId] == dst;
    assert r'.columns == b.columns;
  }

  // ------------------------------------------------------------- title updates

  /** Replace the board title; the store accepts any string, empty included. */
  function UpdateBoardTitle(b: BoardData, title: string): (r: BoardData)
    ensures r.boardTitle == title
    ensures r.tasks == b.tasks && r.columns == b.columns && r.columnOrder == b.columnOrder
  {
    b.(boardTitle := title)
  }

  /** Replace one column's title; the store accepts any string, empty included. */
  function UpdateListTitle(b: BoardData, listId: string, title: string): (r: BoardData)
    requires listId in b.columns
    ensures r.columns.Keys == b.columns.Keys
    ensures r.columns[listId].title == title
    ensures r.columns[listId].id == b.columns[listId].id
    ensures r.columns[listId].taskIds == b.columns[listId].taskIds
    ensures forall c :: c in b.columns && c != listId ==> r.columns[c] == b.columns[c]
    ensures r.tasks == b.tasks && r.columnOrder == b.columnOrder && r.boardTitle == b.boardTitle
  {
    b.(columns := b.columns[listId := b.columns[listId].(title := title)])
  }

  /** Replace one task's content; the store accepts any string, empty included. */
  function UpdateTaskTitle(b: BoardData, taskId: string, content: string): (r: BoardData)
    requires taskId in b.tasks
    ensures r.tasks.Keys == b.tasks.Keys
    ensures r.tasks[taskId].content == content
    ensures r.tasks[taskId].id == b.tasks[taskId].id
    ensures r.tasks[taskId].comments == b.tasks[taskId].comments
    ensures forall t :: t in b.tasks && t != taskId ==> r.tasks[t] == b.tasks[t]
    ensures r.columns == b.columns && r.columnOrder == b.columnOrder && r.boardTitle == b.boardTitle
  {
    b.(tasks := b.tasks[taskId := b.tasks[taskId].(content := content)])
  }

  /** Renaming the board twice keeps only the second title, and renaming it to
      its current title changes nothing. */
  lemma UpdateBoardTitleLastWins(b: BoardData, first: string, second: string)
    ensures UpdateBoardTitle(UpdateBoardTitle(b, first), second) == UpdateBoardTitle(b, second)
    ensures UpdateBoardTitle(b, b.boardTitle) == b
  {
  }

  /** The same for a column's title. */
  lemma UpdateListTitleLastWins(b: BoardData, listId: string, first: string, second: string)
    requires listId in b.columns
    ensures UpdateListTitle(UpdateListTitle(b, listId, first), listId, second)
         == UpdateListTitle(b, listId, second)
    ensures UpdateListTitle(b, listId, b.columns[listId].title) == b
  {
  }

  /** The same for a task's content. */
  lemma UpdateTaskTitleLastWins(b: BoardData, taskId: string, first: string, second: string)
    requires taskId in b.tasks
    ensures UpdateTaskTitle(UpdateTaskTitle(b, taskId, first), taskId, second)
         == UpdateTaskTitle(b, taskId, second)
    ensures UpdateTaskTitle(b, taskId, b.tasks[taskId].content) == b
  {
  }

  lemma UpdateListTitlePreservesWellFormed(b: BoardData, listId: string, title: string)
    requires WellFormed(b) && listId in b.columns
    ensures WellFormed(UpdateListTitle(b, listId, title))
  {
  }

  lemma UpdateTaskTitlePreservesWellFormed(b: BoardData, taskId: string, content: string)
    requires WellFormed(b) && taskId in b.tasks
    ensures WellFormed(UpdateTaskTitle(b, taskId, content))
  {
  }

  // ------------------------------------------------------------------- addList

  /** Add an empty column with the fresh id `col-<uuid>` at the end of the order. */
  function AddList(b: BoardData, uuid: string, title: string): (r: BoardData)
    requires ColumnId(uuid) !in b.columns
    ensures |r.columnOrder| == |b.columnOrder| + 1
    ensures var c := ColumnId(uuid);
      && r.columns.Keys == b.columns.Keys + {c}
      && r.columns[c] == Column(c, title, [])
      && (forall c' :: c' in b.columns ==> r.columns[c'] == b.columns[c'])
      && r.columnOrder[..|b.columnOrder|] == b.columnOrder
      && r.columnOrder[|b.columnOrder|..] == [c]
    ensures r.tasks == b.tasks && r.boardTitle == b.boardTitle
  {
    var newId := ColumnId(uuid);
    b.(columns := b.columns[newId := Column(newId, title, [])],
       columnOrder := b.columnOrder + [newId])
  }

  lemma AddListPreservesWellFormed(b: BoardData, uuid: string, title: string)
    requires WellFormed(b) && ColumnId(uuid) !in b.columns
    ensures WellFormed(AddList(b, uuid, title))
  {
    var r := AddList(b, uuid, title);
    var c := ColumnId(uuid);
    assert c !in b.columnOrder;
    assert forall j :: 0 <= j < |b.columnOrder| ==> r.columnOrder[j] == b.columnOrder[j];
  }

  /** Deleting a column just added gives back the board it was added to. */
  lemma AddListThenDelete(b: BoardData, uuid: string, title: string)
    requires WellFormed(b) && ColumnId(uuid) !in b.columns
    ensures DeleteList(AddList(b, uuid, title), ColumnId(uuid)) == b
  {
    var c := ColumnId(uuid);
    assert c !in b.columnOrder;
    WithoutAppend(b.columnOrder, [c], c);
    assert Without([c], c) == [];
    assert b.columns[c := Column(c, title, [])] - {c} == b.columns;
  }

  // ---------------------------------------------------------------- deleteList

  /** Drop a column and every mention of it in the order. Its tasks stay in
      the task map. A missing id only filters nothing. */
  function DeleteList(b: BoardData, listId: string): (r: BoardData)
    ensures r.columns.Keys == b.columns.Keys - {listId}
    ensures forall c :: c in r.columns ==> r.columns[c] == b.columns[c]
    ensures listId !in r.columnOrder
    ensures multiset(r.columnOrder) == multiset(b.columnOrder)[listId := 0]
    ensures r.tasks == b.tasks && r.boardTitle == b.boardTitle
  {
    b.(columns := b.columns - {listId}, columnOrder := Without(b.columnOrder, listId))
  }

  /** The other columns keep their relative order: deleting the column at
      position `i` of a well-formed order is taking out position `i`. */
  lemma DeleteListKeepsOrder(b: BoardData, i: nat)
    requires WellFormed(b) && i < |b.columnOrder|
    ensures DeleteList(b, b.columnOrder[i]).columnOrder == RemoveAt(b.columnOrder, i)
  {
    WithoutDistinctIsRemoveAt(b.columnOrder, i);
  }

  lemma DeleteListPreservesWellFormed(b: BoardData, listId: string)
    requires WellFormed(b)
    ensures WellFormed(DeleteList(b, listId))
  {
    WithoutKeepsDistinct(b.columnOrder, listId);
    var r := DeleteList(b, listId);
    forall c | c in r.columnOrder ensures c in r.columns {
      assert multiset(r.columnOrder)[c] > 0;
    }
  }

  /** The tasks of a deleted column stay in the task map but no column lists
      them any more. */
  lemma DeleteListOrphansTasks(b: BoardData, listId: string)
    requires WellFormed(b) && listId in b.columns
    ensures var r := DeleteList(b, listId);
      forall t :: t in b.columns[listId].taskIds ==>
        t in r.tasks && forall c :: c in r.columns ==> t !in r.columns[c].taskIds
  {
    var r := DeleteList(b, listId);
    forall t, c | t in b.columns[listId].taskIds && c in r.columns
      ensures t !in r.columns[c].taskIds
    {
      assert Disjoint(b.columns[listId].taskIds, b.columns[c].taskIds);
    }
  }

  // ----------------------------------------------------------------- clearList

  /** The set of ids a sequence lists. */
  function IdSet(ids: seq<string>): (r: set<string>)
    ensures forall t :: t in r <==> t in ids
  {
    set t | t in ids
  }

  /** Delete every task the column lists from the task map, then empty the
      column. */
  function ClearList(b: BoardData, listId: string): (r: BoardData)
    requires listId in b.columns
    ensures forall t :: t in r.tasks <==> t in b.tasks && t !in b.columns[listId].taskIds
    ensures forall t :: t in r.tasks ==> r.tasks[t] == b.tasks[t]
    ensures r.columns.Keys == b.columns.Keys
    ensures r.columns[listId].taskIds == []
    ensures r.columns[listId].id == b.columns[listId].id
    ensures r.columns[listId].title == b.columns[listId].title
    ensures forall c :: c in b.columns && c != listId ==> r.columns[c] == b.columns[c]
    ensures r.columnOrder == b.columnOrder && r.boardTitle == b.boardTitle
  {
    var column := b.columns[listId];
    b.(tasks := b.tasks - IdSet(column.taskIds),
       columns := b.columns[listId := column.(taskIds := [])])
  }

  /** `column.taskIds.forEach(id => delete newTasks[id])` on a copy of the
      task map. */
  method DeleteTasks(tasks: map<string, Task>, ids: seq<string>) returns (newTasks: map<string, Task>)
    ensures forall t :: t in newTasks <==> t in tasks && t !in ids
    ensures forall t :: t in newTasks ==> newTasks[t] == tasks[t]
  {
    newTasks := tasks;
    var i := 0;
    while i < |ids|
      invariant i <= |ids|
      invariant forall t :: t in newTasks <==> t in tasks && t !in ids[..i]
      invariant forall t :: t in newTasks ==> newTasks[t] == tasks[t]
    {
      assert ids[..i + 1] == ids[..i] + [ids[i]];
      newTasks := newTasks - {ids[i]};
      i := i + 1;
    }
    assert ids[..i] == ids;
  }

  /** Clearing one column keeps every task another column lists. */
  lemma ClearListSparesOtherLists(b: BoardData, listId: string)
    requires WellFormed(b) && listId in b.columns
    ensures var r := ClearList(b, listId);
      forall c, t :: c in b.columns && c != listId && t in b.columns[c].taskIds ==>
        t in r.tasks && r.tasks[t] == b.tasks[t]
  {
    forall c, t | c in b.columns && c != listId && t in b.columns[c].taskIds
      ensures t !in b.columns[listId].taskIds
    {
      assert Disjoint(b.columns[c].taskIds, b.columns[listId].taskIds);
    }
  }

  lemma ClearListPreservesWellFormed(b: BoardData, listId: string)
    requires WellFormed(b) && listId in b.columns
    ensures WellFormed(ClearList(b, listId))
  {
    ClearListSparesOtherLists(b, listId);
  }

  // ------------------------------------------------------------------- addTask

  /** Add a task with the fresh id `task-<uuid>` and no comments at the end
      of a column. */
  function AddTask(b: BoardData, listId: string, uuid: string, content: string): (r: BoardData)
    requires listId in b.columns && TaskId(uuid) !in b.tasks
    ensures var t := TaskId(uuid);
      && r.tasks.Keys == b.tasks.Keys + {t}
      && r.tasks[t] == Task(t, content, [])
      && (forall t' :: t' in b.tasks ==> r.tasks[t'] == b.tasks[t'])
    ensures r.columns.Keys == b.columns.Keys
    ensures |r.columns[listId].taskIds| == |b.columns[listId].taskIds| + 1
    ensures var s, s' := b.columns[listId].taskIds, r.columns[listId].taskIds;
      s'[..|s|] == s && s'[|s|..] == [TaskId(uuid)]
    ensures r.columns[listId].id == b.columns[listId].id
    ensures r.columns[listId].title == b.columns[listId].title
    ensures forall c :: c in b.columns && c != listId ==> r.columns[c] == b.columns[c]
    ensures r.columnOrder == b.columnOrder && r.boardTitle == b.boardTitle
  {
    var newTaskId := TaskId(uuid);
    var column := b.columns[listId];
    b.(tasks := b.tasks[newTaskId := Task(newTaskId, content, [])],
       columns := b.columns[listId := column.(taskIds := column.taskIds + [newTaskId])])
  }

  lemma AddTaskPreservesWellFormed(b: BoardData, listId: string, uuid: string, content: string)
    requires WellFormed(b) && listId in b.columns && TaskId(uuid) !in b.tasks
    ensures WellFormed(AddTask(b, listId, uuid, content))
  {
    var r := AddTask(b, listId, uuid, content);
    var t := TaskId(uuid);
    var s := b.columns[listId].taskIds;
    assert forall c :: c in b.columns ==> t !in b.columns[c].taskIds;
    var s' := r.columns[listId].taskIds;
    assert forall j :: 0 <= j < |s| ==> s'[j] == s[j];
    assert forall u :: u in s' ==> u in s || u == t;
  }

  // ---------------------------------------------------------------- addComment

  /** Put a new comment with id `uuid`, taken at `now`, in front of a task's
      comments; the store accepts any text, empty included. */
  function AddComment(b: BoardData, taskId: string, uuid: string, text: string, now: int): (r: BoardData)
    requires taskId in b.tasks
    ensures r.tasks.Keys == b.tasks.Keys
    ensures var cs, cs' := b.tasks[taskId].comments, r.tasks[taskId].comments;
      |cs'| == |cs| + 1 && cs'[0] == Comment(uuid, text, now) && cs'[1..] == cs
    ensures r.tasks[taskId].id == b.tasks[taskId].id
    ensures r.tasks[taskId].content == b.tasks[taskId].content
    ensures forall t :: t in b.tasks && t != taskId ==> r.tasks[t] == b.tasks[t]
    ensures r.columns == b.columns && r.columnOrder == b.columnOrder && r.boardTitle == b.boardTitle
  {
    var task := b.tasks[taskId];
    b.(tasks := b.tasks[taskId := task.(comments := [Comment(uuid, text, now)] + task.comments)])
  }

  /** Comments read newest first: two in a row come out in reverse order of
      adding, in front of the older ones. */
  lemma CommentsNewestFirst(b: BoardData, taskId: string,
                            first: string, firstText: string, firstAt: int,
                            second: string, secondText: string, secondAt: int)
    requires taskId in b.tasks
    ensures var r := AddComment(AddComment(b, taskId, first, firstText, firstAt),
                                taskId, second, secondText, secondAt);
      r.tasks[taskId].comments
        == [Comment(second, secondText, secondAt), Comment(first, firstText, firstAt)]
           + b.tasks[taskId].comments
  {
  }

  lemma AddCommentPreservesWellFormed(b: BoardData, taskId: string, uuid: string, text: string, now: int)
    requires WellFormed(b) && taskId in b.tasks
    ensures WellFormed(AddComment(b, taskId, uuid, text, now))
  {
  }
}
