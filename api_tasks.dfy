/** `POST /api/tasks` (app/api/tasks/route.ts): create a task on a board. */
module ApiTasks {
  import opened Common
  import opened Types
  import opened ApiCommon

  /** The JSON body's fields the handler reads; `None` is an absent field. */
  datatype TaskBody = TaskBody(title: Option<string>, boardId: Option<string>,
                               status: Option<string>, priority: Option<string>)

  predicate HasRequiredFields(b: TaskBody) {
    Truthy(b.title) && Truthy(b.boardId) && Truthy(b.status)
  }

  /** `priority || "medium"`, checked against the schema's enum: `None` when a
      given priority is none of the three names, which makes `Task.create` throw. */
  function PriorityOf(given: Option<string>): (p: Option<Priority>)
    ensures !Truthy(given) ==> p == Some(Medium)
    ensures Truthy(given) && p.Some? ==> PriorityName(p.value) == given.value
    ensures Truthy(given) && p.None? ==> given.value !in ["low", "medium", "high"]
  {
    if Truthy(given) then ParsePriority(given.value) else Some(Medium)
  }

  /** The rungs in the order the handler tests them. */
  function TaskChecks(session: Session, body: Option<TaskBody>, user: Option<User>): seq<Check> {
    [ Check(SignedInWithEmail(session), Unauthorized),
      Check(body.Some?, ServerError),                     // `req.json()` throws
      Check(body.Some? && HasRequiredFields(body.value), BadRequest),
      Check(user.Some?, NotFound),
      Check(user.Some? && user.value.role != Viewer, Forbidden),
      Check(body.Some? && PriorityOf(body.value.priority).Some?, ServerError) ]
  }

  /** The handler. `body` is `None` when the request body is not JSON; `user` is
      what `User.findOne` returns for the session's email; `stamp` is what the
      database assigns to the new document. */
  function CreateTask(session: Session, body: Option<TaskBody>, user: Option<User>, stamp: Stamp): (r: Reply<Task>)
    ensures r.record.Some? <==> r.status == Created
    ensures r.status == Created ==>
      && body.Some? && user.Some? && HasRequiredFields(body.value)
      && r.record.value.title == body.value.title.value
      && r.record.value.boardId == body.value.boardId.value
      && r.record.value.status == body.value.status.value
      && Some(r.record.value.priority) == PriorityOf(body.value.priority)
      && r.record.value.assignee == Some(user.value.id)
      && r.record.value.sprintId == None
      && !r.record.value.archived && r.record.value.order == 0
  {
    if !SignedInWithEmail(session) then Fail(Unauthorized)
    else if body.None? then Fail(ServerError)
    else if !HasRequiredFields(body.value) then Fail(BadRequest)
    else if user.None? then Fail(NotFound)
    else if user.value.role == Viewer then Fail(Forbidden)
    else
      var b := body.value;
      var p := PriorityOf(b.priority);
      if p.None? then Fail(ServerError)
      else
        Reply(Created, Some(Task(
          stamp.id, b.title.value, None, b.status.value, p.value, b.boardId.value,
          Some(user.value.id), None, None, None, [], [], 0, false, stamp.now, stamp.now)))
  }

  /** The handler answers with the status of the first rung that fails, in the
      order 401, 500 for an unreadable body, 400, 404, 403, 500 for a priority
      outside the enum; 201 when all pass. */
  lemma CreateTaskFollowsLadder(session: Session, body: Option<TaskBody>, user: Option<User>, stamp: Stamp)
    ensures CreateTask(session, body, user, stamp).status == Ladder(TaskChecks(session, body, user), Created)
  {
    var checks := TaskChecks(session, body, user);
    if !SignedInWithEmail(session) {
      LadderFirstFailureWins(checks, Created, 0);
    } else if body.None? {
      LadderFirstFailureWins(checks, Created, 1);
    } else if !HasRequiredFields(body.value) {
      LadderFirstFailureWins(checks, Created, 2);
    } else if user.None? {
      LadderFirstFailureWins(checks, Created, 3);
    } else if user.value.role == Viewer {
      LadderFirstFailureWins(checks, Created, 4);
    } else if PriorityOf(body.value.priority).None? {
      LadderFirstFailureWins(checks, Created, 5);
    }
  }

  /** A viewer never creates a task, and a signed-in viewer with a complete
      body is told 403. */
  lemma ViewerCannotCreateTask(session: Session, body: Option<TaskBody>, u: User, stamp: Stamp)
    requires u.role == Viewer
    ensures CreateTask(session, body, Some(u), stamp).status != Created
    ensures SignedInWithEmail(session) && body.Some? && HasRequiredFields(body.value) ==>
      CreateTask(session, body, Some(u), stamp).status == Forbidden
  {
    var checks := TaskChecks(session, body, Some(u));
    if SignedInWithEmail(session) && body.Some? && HasRequiredFields(body.value) {
      assert !checks[4].passes;
    }
  }

  /** With no priority in the body the task is created with priority medium. */
  lemma DefaultPriorityIsMedium(session: Session, b: TaskBody, u: User, stamp: Stamp)
    requires SignedInWithEmail(session) && HasRequiredFields(b) && u.role != Viewer
    requires !Truthy(b.priority)
    ensures var r := CreateTask(session, Some(b), Some(u), stamp);
      r.status == Created && r.record.value.priority == Medium
  {
  }
}
