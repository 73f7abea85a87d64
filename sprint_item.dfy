/** One sprint card (components/sprint/SprintItem.tsx): the lifecycle button it
    offers for the sprint's status, the status change request behind it, and
    the short task references it lists. */
module SprintItem {
  import opened Common
  import opened Text
  import opened Types

  /** "Start Sprint" and "Complete Sprint". */
  datatype SprintAction = StartSprint | CompleteSprint

  /** The status each button asks for. */
  function Requested(a: SprintAction): (s: SprintStatus)
    ensures s != Planned
  {
    match a
    case StartSprint => Active
    case CompleteSprint => Completed
  }

  /** Order of the lifecycle: planned, then active, then completed. */
  function Stage(s: SprintStatus): nat {
    match s
    case Planned => 0
    case Active => 1
    case Completed => 2
  }

  /** The buttons rendered for a sprint in status `status`. */
  function OfferedActions(status: SprintStatus): (acts: seq<SprintAction>)
    ensures StartSprint in acts <==> status == Planned
    ensures CompleteSprint in acts <==> status == Active
    ensures status == Completed ==> acts == []
    ensures forall a :: a in acts ==> Stage(Requested(a)) == Stage(status) + 1
  {
    match status
    case Planned => [StartSprint]
    case Active => [CompleteSprint]
    case Completed => []
  }

  /** A button can be pressed when it is rendered and no request is in flight. */
  predicate Enabled(status: SprintStatus, isLoading: bool, a: SprintAction) {
    a in OfferedActions(status) && !isLoading
  }

  /** Every transition the card can request moves the sprint one stage forward:
      never backward, never skipping a stage, never out of `completed`. */
  lemma OnlyForward(status: SprintStatus, isLoading: bool, a: SprintAction)
    requires Enabled(status, isLoading, a)
    ensures status != Completed
    ensures Stage(Requested(a)) == Stage(status) + 1
  {
  }

  /** `PATCH /api/sprints/{sprintId}` with body `{ status }`. */
  datatype SprintPatch = SprintPatch(sprintId: string, status: SprintStatus)

  /** `#{task._id.slice(-4)}`: the last four characters of the id, or the whole
      id when it is shorter. */
  function ShortRef(taskId: string): (r: string)
    ensures |r| <= 4
    ensures |taskId| >= 4 ==> |r| == 4
    ensures |taskId| < 4 ==> r == taskId
    ensures taskId == taskId[..|taskId| - |r|] + r
  {
    SliceLast(taskId, 4)
  }

  class SprintCard {
    const sprint: Sprint
    var isLoading: bool

    constructor (sprint: Sprint)
      ensures this.sprint == sprint && !isLoading
    {
      this.sprint := sprint;
      isLoading := false;
    }

    /** `handleStatusChange(newStatus)`: sends only the new status, asks for a
        refresh only on an OK response, and ends not loading whatever happened. */
    method HandleStatusChange(newStatus: SprintStatus, outcome: FetchOutcome)
      returns (patch: SprintPatch, refreshed: bool)
      requires newStatus != Planned
      modifies this
      ensures patch == SprintPatch(sprint.id, newStatus)
      ensures refreshed <==> outcome == Responded(true)
      ensures !isLoading
    {
      isLoading := true;
      patch := SprintPatch(sprint.id, newStatus);
      refreshed := outcome.Responded? && outcome.ok;
      isLoading := false;
    }
  }
}
