/**
 * `/api/boards`: listing the boards the caller owns or belongs to, and
 * creating a board with its four default columns.
 */
module BoardsRoute {
  import opened Wrappers
  import opened Types
  import opened Seqs
  import opened Store
  import Dashboard

  /** The `OR` of the listing query: the caller owns the board or is among its members. */
  function Visible(uid: string): Board -> bool
  {
    (b: Board) => b.ownerId == uid || uid in b.memberIds
  }

  function ColumnOrder(c: Column): int
  {
    c.order
  }

  function OnBoard(boardId: string): TaskRecord -> bool
  {
    (t: TaskRecord) => t.boardId == boardId
  }

  /** A listed board: its columns ordered by `order`, and the id and status of each of its tasks. */
  datatype BoardListing = BoardListing(board: Board, tasks: seq<TaskSummary>)

  /** `tasks: { select: { id, status } }` for one board. */
  function Summaries(db: Db, boardId: string): (r: seq<TaskSummary>)
    ensures |r| == |Filter(db.tasks, OnBoard(boardId))|
    ensures forall i :: 0 <= i < |r| ==>
      r[i] == TaskSummary(Filter(db.tasks, OnBoard(boardId))[i].id, Filter(db.tasks, OnBoard(boardId))[i].status)
  {
    var onBoard := Filter(db.tasks, OnBoard(boardId));
    seq(|onBoard|, i requires 0 <= i < |onBoard| => TaskSummary(onBoard[i].id, onBoard[i].status))
  }

  function Listing(db: Db, b: Board): BoardListing
  {
    BoardListing(b.(columns := SortBy(b.columns, ColumnOrder)), Summaries(db, b.id))
  }

  /** `l` shows board `b`: the same board with its columns ordered, and the board's own tasks. */
  ghost predicate Shows(db: Db, b: Board, l: BoardListing)
  {
    l.board.(columns := b.columns) == b &&
    SortedBy(l.board.columns, ColumnOrder) && multiset(l.board.columns) == multiset(b.columns) &&
    l.tasks == Summaries(db, b.id)
  }

  lemma ListingShows(db: Db, b: Board)
    ensures Shows(db, b, Listing(db, b))
  {
    SortBySortsAndPermutes(b.columns, ColumnOrder);
  }

  /**
   * GET: without a signed-in user id, 401; otherwise one listing per visible
   * board, in store order.
   */
  function Get(db: Db, session: Option<Session>): (r: Response<seq<BoardListing>>)
    ensures r.Error? <==> SignedInId(session).None?
    ensures r.Error? ==> r.status == 401
    ensures r.Ok? ==> r.status == 200
    ensures r.Ok? ==> |r.value| == |Filter(db.boards, Visible(SignedInId(session).value))|
    ensures r.Ok? ==> forall i :: 0 <= i < |r.value| ==>
      Shows(db, Filter(db.boards, Visible(SignedInId(session).value))[i], r.value[i])
  {
    match SignedInId(session)
    case None => Error(401)
    case Some(uid) =>
      var visible := Filter(db.boards, Visible(uid));
      forall b | b in visible ensures Shows(db, b, Listing(db, b)) {
        ListingShows(db, b);
      }
      Ok(200, seq(|visible|, i requires 0 <= i < |visible| => Listing(db, visible[i])))
  }

  /** A stored board is listed exactly when the caller owns it or is one of its members. */
  lemma VisibleExactly(db: Db, uid: string, b: Board)
    ensures b in Filter(db.boards, Visible(uid)) <==> b in db.boards && (b.ownerId == uid || uid in b.memberIds)
  {
    FilterMembers(db.boards, Visible(uid), b);
  }

  /** The parsed POST body. */
  datatype BoardBody = BoardBody(name: Option<string>, description: Option<string>)

  const DefaultColumns: seq<Column> :=
    [Column("To Do", 0), Column("In Progress", 1), Column("Review", 2), Column("Done", 3)]

  /**
   * POST: without a signed-in user id, 401. A body that does not parse, or a
   * caller the store does not hold, makes the route answer 500. Otherwise the
   * board is stored with the caller as owner and sole member and the default
   * columns, and the answer is 201.
   */
  function Post(db: Db, session: Option<Session>, body: Option<BoardBody>, newId: string): (h: Handled<Board>)
    ensures h.response.status == 401 <==> SignedInId(session).None?
    ensures h.response.status == 500 <==>
      SignedInId(session).Some? && (body.None? || !HasUser(db, SignedInId(session).value))
    ensures h.response.Error? <==> h.response.status != 201
    ensures h.response.Error? ==> h.db == db
    ensures h.response.Ok? ==> h.response.status == 201 && h.db == db.(boards := db.boards + [h.response.value])
    ensures h.response.Ok? ==>
      var b := h.response.value;
      b.id == newId && b.name == body.value.name && b.description == body.value.description &&
      b.ownerId == SignedInId(session).value && b.memberIds == [SignedInId(session).value] &&
      b.columns == DefaultColumns
  {
    match SignedInId(session)
    case None => Handled(Error(401), db)
    case Some(uid) =>
      if body.None? || !HasUser(db, uid) then Handled(Error(500), db)
      else
        var board := Board(newId, body.value.name, body.value.description, uid, [uid], DefaultColumns);
        Handled(Ok(201, board), db.(boards := db.boards + [board]))
  }

  /** The default columns are four, To Do, In Progress, Review and Done, already in `order`. */
  lemma DefaultColumnsOrdered()
    ensures |DefaultColumns| == 4
    ensures forall i :: 0 <= i < 4 ==> DefaultColumns[i].order == i
    ensures DefaultColumns[0].name == "To Do" && DefaultColumns[1].name == "In Progress"
    ensures DefaultColumns[2].name == "Review" && DefaultColumns[3].name == "Done"
  {
  }

  /** Listing a board orders its columns by `order`; the default columns already are. */
  lemma DefaultColumnsListed(columns: seq<Column>)
    requires columns == DefaultColumns
    ensures SortBy(columns, ColumnOrder) == columns
  {
    DefaultColumnsSorted();
    SortByOfSorted(columns, ColumnOrder);
  }

  lemma DefaultColumnsSorted()
    ensures SortedBy(DefaultColumns, ColumnOrder)
  {
    forall i, j | 0 <= i < j < |DefaultColumns| ensures ColumnOrder(DefaultColumns[i]) <= ColumnOrder(DefaultColumns[j]) {
      assert DefaultColumns[i].order == i && DefaultColumns[j].order == j;
    }
  }

  /** A created board shows up, last and with its columns in default order, in the creator's listing. */
  lemma {:induction false} CreatedBoardListed(db: Db, session: Option<Session>, body: Option<BoardBody>, newId: string)
    requires Post(db, session, body, newId).response.Ok?
    ensures var r := Get(Post(db, session, body, newId).db, session).value;
      |r| > 0 && r[|r| - 1].board == Post(db, session, body, newId).response.value &&
      r[|r| - 1].board.columns == DefaultColumns
  {
    var uid := SignedInId(session).value;
    var created := Post(db, session, body, newId).response.value;
    var after := Post(db, session, body, newId).db;
    FilterAppend(db.boards, created, Visible(uid));
    assert Visible(uid)(created);
    var visible := Filter(after.boards, Visible(uid));
    assert visible[|visible| - 1] == created;
    var r := Get(after, session).value;
    assert r[|r| - 1] == Listing(after, created);
    DefaultColumnsListed(created.columns);
  }

  /** A created board on which no task is stored yet shows 0% on the board list. */
  lemma {:induction false} CreatedBoardStartsAtZero(db: Db, session: Option<Session>, body: Option<BoardBody>, newId: string)
    requires Post(db, session, body, newId).response.Ok?
    requires forall t :: t in db.tasks ==> t.boardId != newId
    ensures var r := Get(Post(db, session, body, newId).db, session).value;
      |r| > 0 && Dashboard.CalculateProgress(r[|r| - 1].tasks) == 0
  {
    var after := Post(db, session, body, newId).db;
    CreatedBoardListed(db, session, body, newId);
    assert forall i :: 0 <= i < |after.tasks| ==> after.tasks[i] in db.tasks;
    CountBounds(after.tasks, OnBoard(newId));
    FilterLength(after.tasks, OnBoard(newId));
  }
}
