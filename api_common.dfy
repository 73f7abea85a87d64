/** What every route handler shares: the session NextAuth returns, the user
    record looked up by the session's email, and the response as a status code
    with an optional record. The database and NextAuth are outside the model:
    their answers are the handlers' parameters. */
module ApiCommon {
  import opened Common
  import opened Types

  /** `getServerSession(...)`: no session, or one whose `user.email` may be missing. */
  datatype Session = NoSession | Session(email: Option<string>)

  /** `session && session.user?.email` is truthy. */
  predicate SignedInWithEmail(s: Session) {
    s.Session? && Truthy(s.email)
  }

  /** A `User` document: its id and its role. */
  datatype User = User(id: string, email: string, role: Role)

  /** What a handler returns: the HTTP status and, on success, the record it sends. */
  datatype Reply<T> = Reply(status: int, record: Option<T>)

  const Ok: int := 200
  const Created: int := 201
  const BadRequest: int := 400
  const Unauthorized: int := 401
  const Forbidden: int := 403
  const NotFound: int := 404
  const ServerError: int := 500

  function Fail<T>(status: int): (r: Reply<T>)
    ensures r.status == status && r.record.None?
  {
    Reply(status, None)
  }

  /** Identifiers and timestamps the database assigns to a new document. */
  datatype Stamp = Stamp(id: string, now: int)

  /** One rung of a handler's early-return ladder: when it does not pass, the
      handler returns `status`. */
  datatype Check = Check(passes: bool, status: int)

  /** The index of the first check that does not pass, or `|checks|`. */
  function FirstFailure(checks: seq<Check>): (k: nat)
    ensures k <= |checks|
    ensures forall i :: 0 <= i < k ==> checks[i].passes
    ensures k < |checks| ==> !checks[k].passes
  {
    if checks == [] then 0
    else if !checks[0].passes then 0
    else 1 + FirstFailure(checks[1..])
  }

  /** The status an early-return ladder answers: the status of the rung that
      fails first, whatever the later rungs say, or `success` when every rung
      passes. */
  function Ladder(checks: seq<Check>, success: int): (status: int)
    ensures (forall i :: 0 <= i < |checks| ==> checks[i].passes) ==> status == success
    ensures forall k :: 0 <= k < |checks| && !checks[k].passes && (forall i :: 0 <= i < k ==> checks[i].passes) ==>
      status == checks[k].status
  {
    var k := FirstFailure(checks);
    if k < |checks| then checks[k].status else success
  }

  lemma LadderFirstFailureWins(checks: seq<Check>, success: int, k: int)
    requires 0 <= k < |checks| && !checks[k].passes
    requires forall i :: 0 <= i < k ==> checks[i].passes
    ensures Ladder(checks, success) == checks[k].status
  {
  }
}
