/** `GET` and `POST /api/sprints` (app/api/sprints/route.ts): list a board's
    sprints, and create a sprint, always in status planned. */
module ApiSprints {
  import opened Common
  import opened Types
  import opened ApiCommon

  /** What `GET` answers with on success: the sprints of board `boardId` (the
      query and its start-date order belong to the database). */
  datatype SprintsQuery = SprintsQuery(boardId: string)

  function ListChecks(session: Session, boardId: Option<string>): seq<Check> {
    [ Check(SignedInWithEmail(session), Unauthorized),
      Check(Truthy(boardId), BadRequest) ]
  }

  /** `boardId` is the `boardId` search parameter, `None` when absent. */
  function ListSprints(session: Session, boardId: Option<string>): (r: Reply<SprintsQuery>)
    ensures r.record.Some? <==> r.status == Ok
    ensures r.status == Ok ==> Truthy(boardId) && r.record.value.boardId == boardId.value
  {
    if !SignedInWithEmail(session) then Fail(Unauthorized)
    else if !Truthy(boardId) then Fail(BadRequest)
    else Reply(Ok, Some(SprintsQuery(boardId.value)))
  }

  /** `GET` tests the session before the board id, and looks up no user. */
  lemma ListSprintsFollowsLadder(session: Session, boardId: Option<string>)
    ensures ListSprints(session, boardId).status == Ladder(ListChecks(session, boardId), Ok)
  {
    var checks := ListChecks(session, boardId);
    if !SignedInWithEmail(session) {
      LadderFirstFailureWins(checks, Ok, 0);
    } else if !Truthy(boardId) {
      LadderFirstFailureWins(checks, Ok, 1);
    }
  }

  /** The JSON body's fields; a date is `None` when absent or empty and
      otherwise the instant it names. */
  datatype SprintBody = SprintBody(name: Option<string>, startDate: Option<int>, endDate: Option<int>,
                                   boardId: Option<string>, goal: Option<string>)

  predicate HasRequiredFields(b: SprintBody) {
    Truthy(b.name) && b.startDate.Some? && b.endDate.Some? && Truthy(b.boardId)
  }

  function CreateChecks(session: Session, body: Option<SprintBody>, user: Option<User>): seq<Check> {
    [ Check(SignedInWithEmail(session), Unauthorized),
      Check(body.Some?, ServerError),                     // `req.json()` throws
      Check(body.Some? && HasRequiredFields(body.value), BadRequest),
      Check(user.Some?, NotFound),
      Check(user.Some? && user.value.role != Viewer, Forbidden) ]
  }

  function CreateSprint(session: Session, body: Option<SprintBody>, user: Option<User>, stamp: Stamp): (r: Reply<Sprint>)
    ensures r.record.Some? <==> r.status == Created
    ensures r.status == Created ==>
      && body.Some? && HasRequiredFields(body.value)
      && r.record.value.status == Planned
      && r.record.value.name == body.value.name.value
      && r.record.value.boardId == body.value.boardId.value
      && r.record.value.startDate == body.value.startDate.value
      && r.record.value.endDate == body.value.endDate.value
      && r.record.value.goal == body.value.goal
  {
    if !SignedInWithEmail(session) then Fail(Unauthorized)
    else if body.None? then Fail(ServerError)
    else if !HasRequiredFields(body.value) then Fail(BadRequest)
    else if user.None? then Fail(NotFound)
    else if user.value.role == Viewer then Fail(Forbidden)
    else
      var b := body.value;
      Reply(Created, Some(Sprint(stamp.id, b.name.value, b.goal, b.startDate.value, b.endDate.value,
                                 Planned, b.boardId.value, stamp.now, stamp.now)))
  }

  /** `POST` answers 401, 500 for an unreadable body, 400, 404, 403 in that
      order, and 201 when all pass. */
  lemma CreateSprintFollowsLadder(session: Session, body: Option<SprintBody>, user: Option<User>, stamp: Stamp)
    ensures CreateSprint(session, body, user, stamp).status == Ladder(CreateChecks(session, body, user), Created)
  {
    var checks := CreateChecks(session, body, user);
    if !SignedInWithEmail(session) {
      LadderFirstFailureWins(checks, Created, 0);
    } else if body.None? {
      LadderFirstFailureWins(checks, Created, 1);
    } else if !HasRequiredFields(body.value) {
      LadderFirstFailureWins(checks, Created, 2);
    } else if user.None? {
      LadderFirstFailureWins(checks, Created, 3);
    } else if user.value.role == Viewer {
      LadderFirstFailureWins(checks, Created, 4);
    }
  }

  /** Nothing compares the dates: a sprint that ends before it starts is
      created like any other, and without a goal as well as with one. */
  lemma EndBeforeStartAccepted(session: Session, b: SprintBody, u: User, stamp: Stamp)
    requires SignedInWithEmail(session) && HasRequiredFields(b) && u.role != Viewer
    requires b.endDate.value < b.startDate.value
    ensures CreateSprint(session, Some(b), Some(u), stamp).status == Created
  {
  }
}
