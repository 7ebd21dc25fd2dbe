/** The board's data: tasks and columns keyed by id, the column display
    order and the board title, and the consistency conditions every store
    operation keeps. */
module BoardTypes {
  import opened Splice

  datatype Option<T> = None | Some(value: T)

  /** A comment; `createdAt` is a millisecond timestamp. */
  datatype Comment = Comment(id: string, text: string, createdAt: int)

  /** A task (a card); `comments` are newest first. */
  datatype Task = Task(id: string, content: string, comments: seq<Comment>)

  /** A column (a list) and the ids of its tasks in display order. */
  datatype Column = Column(id: string, title: string, taskIds: seq<string>)

  datatype BoardData = BoardData(
    tasks: map<string, Task>,
    columns: map<string, Column>,
    columnOrder: seq<string>,
    boardTitle: string)

  /** Every id in the column order names a column, and none is listed twice. */
  predicate OrderResolves(b: BoardData)
  {
    && (forall c :: c in b.columnOrder ==> c in b.columns)
    && Distinct(b.columnOrder)
  }

  /** Every task id a column lists names a task. */
  predicate TaskRefsResolve(b: BoardData)
  {
    forall c, t :: c in b.columns && t in b.columns[c].taskIds ==> t in b.tasks
  }

  /** Each record is stored under its own id. */
  predicate KeysMatchIds(b: BoardData)
  {
    && (forall c :: c in b.columns ==> b.columns[c].id == c)
    && (forall t :: t in b.tasks ==> b.tasks[t].id == t)
  }

  /** A task id occurs at most once in at most one column. */
  predicate TasksUnshared(b: BoardData)
  {
    && (forall c :: c in b.columns ==> Distinct(b.columns[c].taskIds))
    && (forall c, d :: c in b.columns && d in b.columns && c != d ==>
          Disjoint(b.columns[c].taskIds, b.columns[d].taskIds))
  }

  predicate WellFormed(b: BoardData)
  {
    OrderResolves(b) && TaskRefsResolve(b) && KeysMatchIds(b) && TasksUnshared(b)
  }
}
