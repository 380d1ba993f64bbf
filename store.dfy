/**
 * What the API routes read and write: the session of the caller, the stored
 * users, boards and tasks, and the status-coded response a route returns.
 * The ORM's tables are sequences of records; the ORM itself is not modelled.
 */
module Store {
  import opened Wrappers
  import opened Dates
  import opened Types

  /** The signed-in user as the session provider reports it; either part may be missing. */
  datatype Session = Session(userId: Option<string>, email: Option<string>)

  /** `session?.user?.id`, when it is present and not empty. */
  function SignedInId(session: Option<Session>): (uid: Option<string>)
    ensures uid.Some? <==> session.Some? && session.value.userId.Some? && session.value.userId.value != ""
    ensures uid.Some? ==> uid.value == session.value.userId.value
  {
    match session
    case None => None
    case Some(s) =>
      match s.userId
      case None => None
      case Some(id) => if id == "" then None else Some(id)
  }

  datatype User = User(id: string, name: string, email: string)

  datatype Column = Column(name: string, order: int)

  datatype Board = Board(
    id: string,
    name: Option<string>,
    description: Option<string>,
    ownerId: string,
    memberIds: seq<string>,
    columns: seq<Column>)

  datatype SubtaskRecord = SubtaskRecord(
    title: string,
    description: string,
    priority: Priority,
    status: Status,
    progress: int,
    ownerId: string)

  /** A stored task; `createdAt` is the creation instant as a number. */
  datatype TaskRecord = TaskRecord(
    id: string,
    title: string,
    description: string,
    priority: Priority,
    status: Status,
    dueDate: Option<Date>,
    recurring: Option<Recurrence>,
    ownerId: string,
    boardId: string,
    createdAt: int,
    subtasks: seq<SubtaskRecord>)

  datatype Db = Db(users: seq<User>, boards: seq<Board>, tasks: seq<TaskRecord>)

  predicate HasUser(db: Db, id: string)
  {
    exists i :: 0 <= i < |db.users| && db.users[i].id == id
  }

  predicate HasBoard(db: Db, id: string)
  {
    exists i :: 0 <= i < |db.boards| && db.boards[i].id == id
  }

  /** A route's answer: a JSON value with a success status, or an error status. */
  datatype Response<T> = Ok(status: int, value: T) | Error(status: int)

  /** A route's answer together with the store as the route leaves it. */
  datatype Handled<T> = Handled(response: Response<T>, db: Db)
}
