/**
 * `/api/tasks`: listing the caller's tasks, newest first, and creating a
 * task (with its subtasks) on a board.
 */
module TasksRoute {
  import opened Wrappers
  import opened Dates
  import opened Types
  import opened Seqs
  import opened Store

  /** Sort key for `orderBy: { createdAt: 'desc' }`: ascending in this key is newest first. */
  function NewestFirst(t: TaskRecord): int
  {
    -t.createdAt
  }

  function OwnedBy(uid: string): TaskRecord -> bool
  {
    (t: TaskRecord) => t.ownerId == uid
  }

  function AllTasks(): TaskRecord -> bool
  {
    (t: TaskRecord) => true
  }

  /**
   * GET as written: only a missing session is refused. A session without a
   * user id reaches the query with `ownerId: undefined`, which the ORM drops
   * from the filter, so every stored task is listed.
   */
  function GetAsWritten(db: Db, session: Option<Session>): (r: Response<seq<TaskRecord>>)
    ensures r.Error? <==> session.None?
    ensures r.Error? ==> r.status == 401
    ensures r.Ok? ==> r.status == 200 && multiset(r.value) <= multiset(db.tasks)
  {
    match session
    case None => Error(401)
    case Some(s) =>
      var keep := if s.userId.Some? then OwnedBy(s.userId.value) else AllTasks();
      SortBySortsAndPermutes(Filter(db.tasks, keep), NewestFirst);
      FilterSubMultiset(db.tasks, keep);
      Ok(200, SortBy(Filter(db.tasks, keep), NewestFirst))
  }

  /**
   * GET: without a signed-in user id, 401; otherwise the tasks owned by the
   * caller, each exactly as often as stored, newest created first.
   */
  function Get(db: Db, session: Option<Session>): (r: Response<seq<TaskRecord>>)
    ensures r.Error? <==> SignedInId(session).None?
    ensures r.Error? ==> r.status == 401
    ensures r.Ok? ==> r.status == 200
    ensures r.Ok? ==> multiset(r.value) == multiset(Filter(db.tasks, OwnedBy(SignedInId(session).value)))
    ensures r.Ok? ==> SortedBy(r.value, NewestFirst)
  {
    match SignedInId(session)
    case None => Error(401)
    case Some(uid) =>
      SortBySortsAndPermutes(Filter(db.tasks, OwnedBy(uid)), NewestFirst);
      Ok(200, SortBy(Filter(db.tasks, OwnedBy(uid)), NewestFirst))
  }

  /** For a caller with a user id, the list handler as written answers exactly like the corrected one. */
  lemma AsWrittenAgreesWhenSignedIn(db: Db, session: Option<Session>)
    requires SignedInId(session).Some?
    ensures GetAsWritten(db, session) == Get(db, session)
  {
  }

  /** The listing holds exactly the caller's stored tasks. */
  lemma GetListsOwnTasks(db: Db, session: Option<Session>, t: TaskRecord)
    requires SignedInId(session).Some?
    ensures t in Get(db, session).value <==> t in db.tasks && t.ownerId == SignedInId(session).value
  {
    var uid := SignedInId(session).value;
    var r := Get(db, session).value;
    assert t in r <==> t in multiset(r);
    FilterMembers(db.tasks, OwnedBy(uid), t);
  }

  /** A session without a user id: refused by `Get`, but given every task by `GetAsWritten`. */
  lemma GetAsWrittenLeaksTasks()
    ensures var db := Db([], [], [TaskRecord("t1", "Plan", "", Medium, Todo, None, None, "u1", "b1", 0, [])]);
            var session := Some(Session(None, None));
            Get(db, session) == Error(401) && GetAsWritten(db, session) == Ok(200, db.tasks)
  {
    var db := Db([], [], [TaskRecord("t1", "Plan", "", Medium, Todo, None, None, "u1", "b1", 0, [])]);
    var t := db.tasks[0];
    assert Filter(db.tasks, AllTasks()) == [t] by {
      assert Filter(db.tasks[1..], AllTasks()) == [];
    }
    assert SortBy([t], NewestFirst) == [t] by {
      assert SortBy([t][1..], NewestFirst) == [];
    }
  }

  /** A subtask as the request lists it. */
  datatype SubtaskInput = SubtaskInput(title: string, completed: bool)

  /** The request's `subtasks`: anything that is not an array, or an array of items. */
  datatype SubtasksField = NotArray | ArrayOf(items: seq<SubtaskInput>)

  /**
   * The parsed POST body. An absent or `null` field is `None`; a falsy
   * `dueDate` is `None` as well.
   */
  datatype TaskBody = TaskBody(
    title: Option<string>,
    description: Option<string>,
    priority: Option<Priority>,
    dueDate: Option<Date>,
    recurring: Option<Recurrence>,
    subtasks: SubtasksField,
    boardId: Option<string>)

  /** A string field that JavaScript treats as true: present and not empty. */
  predicate Truthy(s: Option<string>)
  {
    s.Some? && s.value != ""
  }

  /** `x || default` for an optional string. */
  function OrDefault(s: Option<string>, default: string): (r: string)
    ensures Truthy(s) ==> r == s.value
    ensures !Truthy(s) ==> r == default
  {
    if Truthy(s) then s.value else default
  }

  /** One created subtask: no description, the parent's priority, TODO, progress from `completed`. */
  function NewSubtask(input: SubtaskInput, priority: Priority, ownerId: string): SubtaskRecord
  {
    SubtaskRecord(input.title, "", priority, Todo, if input.completed then 100 else 0, ownerId)
  }

  /** The subtasks created with a task: none unless the request sent an array. */
  function NewSubtasks(field: SubtasksField, priority: Priority, ownerId: string): (r: seq<SubtaskRecord>)
    ensures field.NotArray? ==> r == []
    ensures field.ArrayOf? ==> |r| == |field.items|
    ensures field.ArrayOf? ==> forall i :: 0 <= i < |r| ==>
      r[i].title == field.items[i].title && r[i].description == "" && r[i].priority == priority &&
      r[i].status == Todo && r[i].progress == (if field.items[i].completed then 100 else 0) &&
      r[i].ownerId == ownerId
  {
    match field
    case NotArray => []
    case ArrayOf(items) => seq(|items|, i requires 0 <= i < |items| => NewSubtask(items[i], priority, ownerId))
  }

  /** The record `prisma.task.create` stores for a request that passed the guards. */
  function NewTask(body: TaskBody, ownerId: string, newId: string, now: int): TaskRecord
    requires Truthy(body.title) && Truthy(body.boardId)
  {
    var priority := body.priority.GetOr(Medium);
    TaskRecord(newId, body.title.value, OrDefault(body.description, ""), priority, Todo,
      body.dueDate, body.recurring, ownerId, body.boardId.value, now,
      NewSubtasks(body.subtasks, priority, ownerId))
  }

  /**
   * POST. The guards run in order: no signed-in user id gives 401 before the
   * body is read; a body that does not parse gives 400; a missing title or
   * board id gives 400. A board or owner the store does not hold makes the
   * create fail, and the route answers 500. Only a 200 stores anything.
   * `newId` and `now` are the id and timestamp the database assigns.
   */
  function Post(db: Db, session: Option<Session>, body: Option<TaskBody>, newId: string, now: int): (h: Handled<TaskRecord>)
    ensures h.response.status == 401 <==> SignedInId(session).None?
    ensures h.response.status == 400 <==>
      SignedInId(session).Some? && (body.None? || !Truthy(body.value.title) || !Truthy(body.value.boardId))
    ensures h.response.status == 500 <==>
      SignedInId(session).Some? && body.Some? && Truthy(body.value.title) && Truthy(body.value.boardId) &&
      !(HasBoard(db, body.value.boardId.value) && HasUser(db, SignedInId(session).value))
    ensures h.response.Error? <==> h.response.status != 200
    ensures h.response.Error? ==> h.db == db
    ensures h.response.Ok? ==> h.response.status == 200 && h.db == db.(tasks := db.tasks + [h.response.value])
  {
    match SignedInId(session)
    case None => Handled(Error(401), db)
    case Some(uid) =>
      if body.None? then Handled(Error(400), db)
      else if !Truthy(body.value.title) || !Truthy(body.value.boardId) then Handled(Error(400), db)
      else if !HasBoard(db, body.value.boardId.value) || !HasUser(db, uid) then Handled(Error(500), db)
      else
        var task := NewTask(body.value, uid, newId, now);
        Handled(Ok(200, task), db.(tasks := db.tasks + [task]))
  }

  /** The created task carries the request's title and board, the caller as owner, and the defaults. */
  lemma CreatedTaskDefaults(db: Db, session: Option<Session>, body: Option<TaskBody>, newId: string, now: int)
    requires Post(db, session, body, newId, now).response.Ok?
    ensures var t := Post(db, session, body, newId, now).response.value;
      t.id == newId && t.createdAt == now &&
      t.title == body.value.title.value && t.boardId == body.value.boardId.value &&
      t.ownerId == SignedInId(session).value && t.status == Todo &&
      t.description == OrDefault(body.value.description, "") &&
      t.priority == body.value.priority.GetOr(Medium) &&
      (body.value.priority.None? ==> t.priority == Medium) &&
      t.dueDate == body.value.dueDate && t.recurring == body.value.recurring &&
      t.subtasks == NewSubtasks(body.value.subtasks, t.priority, t.ownerId)
  {
  }

  /** A task created later than every stored one heads the creator's listing. */
  lemma {:induction false} CreatedTaskListedFirst(db: Db, session: Option<Session>, body: Option<TaskBody>, newId: string, now: int)
    requires Post(db, session, body, newId, now).response.Ok?
    requires forall t :: t in db.tasks ==> t.createdAt < now
    ensures var after := Post(db, session, body, newId, now).db;
      |Get(after, session).value| > 0 &&
      Get(after, session).value[0] == Post(db, session, body, newId, now).response.value
  {
    var uid := SignedInId(session).value;
    var after := Post(db, session, body, newId, now).db;
    var created := Post(db, session, body, newId, now).response.value;
    var r := Get(after, session).value;
    assert created in after.tasks;
    GetListsOwnTasks(after, session, created);
    assert created in r;
    var j :| 0 <= j < |r| && r[j] == created;
    assert NewestFirst(r[0]) <= NewestFirst(r[j]);
    GetListsOwnTasks(after, session, r[0]);
    assert r[0] in after.tasks;
  }
}
