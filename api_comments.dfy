/** `GET` and `POST /api/comments` (app/api/comments/route.ts): list a task's
    comments, and add a comment as the signed-in user. */
module ApiComments {
  import opened Common
  import opened Types
  import opened ApiCommon

  /** What `GET` answers with on success: the comments on task `taskId`. */
  datatype CommentsQuery = CommentsQuery(taskId: string)

  /** A `Comment` document. */
  datatype Comment = Comment(id: string, content: string, taskId: string, userId: string, createdAt: int)

  /** `GET` tests the task id before the session, and only that a session
      exists: a session without an email passes. */
  function ListChecks(session: Session, taskId: Option<string>): seq<Check> {
    [ Check(Truthy(taskId), BadRequest),
      Check(session.Session?, Unauthorized) ]
  }

  function ListComments(session: Session, taskId: Option<string>): (r: Reply<CommentsQuery>)
    ensures r.record.Some? <==> r.status == Ok
    ensures r.status == Ok ==> Truthy(taskId) && r.record.value.taskId == taskId.value
  {
    if !Truthy(taskId) then Fail(BadRequest)
    else if session.NoSession? then Fail(Unauthorized)
    else Reply(Ok, Some(CommentsQuery(taskId.value)))
  }

  lemma ListCommentsFollowsLadder(session: Session, taskId: Option<string>)
    ensures ListComments(session, taskId).status == Ladder(ListChecks(session, taskId), Ok)
  {
    var checks := ListChecks(session, taskId);
    if !Truthy(taskId) {
      LadderFirstFailureWins(checks, Ok, 0);
    } else if session.NoSession? {
      LadderFirstFailureWins(checks, Ok, 1);
    }
  }

  /** Unlike every other handler, an anonymous request without a task id is
      told 400, not 401. */
  lemma ListCommentsBadRequestFirst(taskId: Option<string>)
    requires !Truthy(taskId)
    ensures ListComments(NoSession, taskId).status == BadRequest
  {
  }

  /** The JSON body's fields. */
  datatype CommentBody = CommentBody(taskId: Option<string>, content: Option<string>)

  function CreateChecks(session: Session, body: Option<CommentBody>, user: Option<User>): seq<Check> {
    [ Check(SignedInWithEmail(session), Unauthorized),
      Check(body.Some?, ServerError),                     // `req.json()` throws
      Check(body.Some? && Truthy(body.value.taskId) && Truthy(body.value.content), BadRequest),
      Check(user.Some?, NotFound) ]
  }

  /** `POST`: there is no role rung, and success is a plain 200. */
  function CreateComment(session: Session, body: Option<CommentBody>, user: Option<User>, stamp: Stamp): (r: Reply<Comment>)
    ensures r.record.Some? <==> r.status == Ok
    ensures r.status == Ok ==>
      && body.Some? && Truthy(body.value.taskId) && Truthy(body.value.content) && user.Some?
      && r.record.value.userId == user.value.id
      && r.record.value.taskId == body.value.taskId.value
      && r.record.value.content == body.value.content.value
  {
    if !SignedInWithEmail(session) then Fail(Unauthorized)
    else if body.None? then Fail(ServerError)
    else if !Truthy(body.value.taskId) || !Truthy(body.value.content) then Fail(BadRequest)
    else if user.None? then Fail(NotFound)
    else
      var b := body.value;
      Reply(Ok, Some(Comment(stamp.id, b.content.value, b.taskId.value, user.value.id, stamp.now)))
  }

  lemma CreateCommentFollowsLadder(session: Session, body: Option<CommentBody>, user: Option<User>, stamp: Stamp)
    ensures CreateComment(session, body, user, stamp).status == Ladder(CreateChecks(session, body, user), Ok)
  {
    var checks := CreateChecks(session, body, user);
    if !SignedInWithEmail(session) {
      LadderFirstFailureWins(checks, Ok, 0);
    } else if body.None? {
      LadderFirstFailureWins(checks, Ok, 1);
    } else if !Truthy(body.value.taskId) || !Truthy(body.value.content) {
      LadderFirstFailureWins(checks, Ok, 2);
    } else if user.None? {
      LadderFirstFailureWins(checks, Ok, 3);
    }
  }

  /** Viewers may comment: whatever the role, a complete request from a known
      user is accepted. */
  lemma ViewersMayComment(session: Session, b: CommentBody, u: User, stamp: Stamp)
    requires SignedInWithEmail(session) && Truthy(b.taskId) && Truthy(b.content)
    requires u.role == Viewer
    ensures CreateComment(session, Some(b), Some(u), stamp).status == Ok
  {
  }
}
