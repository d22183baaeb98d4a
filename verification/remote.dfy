/** What the component asks of the hosted store and its identity provider,
    and what comes back. The store itself is not modelled: each handler is
    given the reply as a parameter and records the request it made. */
module Remote {
  import opened Text
  import opened Projection

  /** The signed-in user's id, as the identity provider reports it. */
  type UserId = string

  /** One call into the store or the identity provider. */
  datatype Request =
    | ListTasks                                  // select every visible row, newest first
    | InsertTask(title: string, userId: UserId)  // insert one row
    | SetDone(id: TaskId, isDone: bool)          // update is_done of the row with this id
    | Rename(id: TaskId, title: string)          // update title of the row with this id
    | Remove(id: TaskId)                         // delete the row with this id
    | EndSession                                 // sign out

  /** A title the request writes to the store is non-empty and has no white
      space at either end. */
  ghost predicate WritesCleanTitle(r: Request) {
    match r
    case InsertTask(title, _) => title != [] && !IsSpace(title[0]) && !IsSpace(title[|title| - 1])
    case Rename(_, title) => title != [] && !IsSpace(title[0]) && !IsSpace(title[|title| - 1])
    case _ => true
  }

  /** The `{ data, error }` pair the client library resolves to: either no
      error and the data, or an error and its message. */
  datatype Response<T> = Ok(data: T) | Err(message: string)

  /** The data of a list call, which the library may report as null. */
  datatype Rows = Null | Rows(rows: seq<Task>)

  /** `data || []`: the rows, or none when the data is null. */
  function RowsOrEmpty(d: Rows): (r: seq<Task>)
    ensures d.Null? ==> r == []
    ensures d.Rows? ==> r == d.rows
  {
    match d
    case Null => []
    case Rows(rows) => rows
  }
}
