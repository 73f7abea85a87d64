/** `GET` and `POST /api/boards` (app/api/boards/route.ts): list the signed-in
    user's boards, and create a board with the four default columns. */
module ApiBoards {
  import opened Common
  import opened Types
  import opened ApiCommon

  /** What `GET` answers with on success: the boards owned by `owner` (the
      query itself, and its newest-first order, belong to the database). */
  datatype BoardsQuery = BoardsQuery(owner: string)

  function ListChecks(session: Session, user: Option<User>): seq<Check> {
    [ Check(SignedInWithEmail(session), Unauthorized),
      Check(user.Some?, NotFound) ]
  }

  function ListBoards(session: Session, user: Option<User>): (r: Reply<BoardsQuery>)
    ensures r.record.Some? <==> r.status == Ok
    ensures r.status == Ok ==> user.Some? && r.record.value.owner == user.value.id
  {
    if !SignedInWithEmail(session) then Fail(Unauthorized)
    else if user.None? then Fail(NotFound)
    else Reply(Ok, Some(BoardsQuery(user.value.id)))
  }

  /** `GET` answers 401 without a session, then 404 for an unknown user, and
      lists the boards of any known user, viewers included. */
  lemma ListBoardsFollowsLadder(session: Session, user: Option<User>)
    ensures ListBoards(session, user).status == Ladder(ListChecks(session, user), Ok)
  {
    var checks := ListChecks(session, user);
    if !SignedInWithEmail(session) {
      LadderFirstFailureWins(checks, Ok, 0);
    } else if user.None? {
      LadderFirstFailureWins(checks, Ok, 1);
    }
  }

  /** The columns of every new board: To Do, In Progress, Review, Done. */
  function DefaultColumns(): (cols: seq<Column>)
    ensures |cols| == 4
    ensures cols[0].id == "todo" && cols[1].id == "in-progress"
    ensures cols[2].id == "review" && cols[3].id == "done"
    ensures forall i :: 0 <= i < |cols| ==> cols[i].order == i
    ensures forall i, j :: 0 <= i < j < |cols| ==> cols[i].id != cols[j].id
  {
    [ Column("todo", "To Do", 0),
      Column("in-progress", "In Progress", 1),
      Column("review", "Review", 2),
      Column("done", "Done", 3) ]
  }

  /** The JSON body's `title`; `None` when absent. */
  datatype BoardBody = BoardBody(title: Option<string>)

  function CreateChecks(session: Session, body: Option<BoardBody>, user: Option<User>): seq<Check> {
    [ Check(SignedInWithEmail(session), Unauthorized),
      Check(body.Some?, ServerError),                     // `req.json()` throws
      Check(body.Some? && Truthy(body.value.title), BadRequest),
      Check(user.Some?, NotFound),
      Check(user.Some? && user.value.role != Viewer, Forbidden) ]
  }

  function CreateBoard(session: Session, body: Option<BoardBody>, user: Option<User>, stamp: Stamp): (r: Reply<Board>)
    ensures r.record.Some? <==> r.status == Created
    ensures r.status == Created ==>
      && body.Some? && Truthy(body.value.title) && user.Some?
      && r.record.value.title == body.value.title.value
      && r.record.value.owner == user.value.id
      && r.record.value.columns == DefaultColumns()
  {
    if !SignedInWithEmail(session) then Fail(Unauthorized)
    else if body.None? then Fail(ServerError)
    else if !Truthy(body.value.title) then Fail(BadRequest)
    else if user.None? then Fail(NotFound)
    else if user.value.role == Viewer then Fail(Forbidden)
    else Reply(Created, Some(Board(stamp.id, body.value.title.value, user.value.id, DefaultColumns(),
                                   stamp.now, stamp.now)))
  }

  /** `POST` answers 401, 500 for an unreadable body, 400, 404, 403 in that
      order, and 201 when all pass. */
  lemma CreateBoardFollowsLadder(session: Session, body: Option<BoardBody>, user: Option<User>, stamp: Stamp)
    ensures CreateBoard(session, body, user, stamp).status == Ladder(CreateChecks(session, body, user), Created)
  {
    var checks := CreateChecks(session, body, user);
    if !SignedInWithEmail(session) {
      LadderFirstFailureWins(checks, Created, 0);
    } else if body.None? {
      LadderFirstFailureWins(checks, Created, 1);
    } else if !Truthy(body.value.title) {
      LadderFirstFailureWins(checks, Created, 2);
    } else if user.None? {
      LadderFirstFailureWins(checks, Created, 3);
    } else if user.value.role == Viewer {
      LadderFirstFailureWins(checks, Created, 4);
    }
  }
}
