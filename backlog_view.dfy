/** The backlog (components/sprint/BacklogView.tsx): the tasks that belong to
    no sprint, shown next to the sprint list built from the same tasks. */
module BacklogView {
  import opened Common
  import opened Types
  import opened SprintList

  function NotInSprintFn(): Task -> bool {
    (t: Task) => !InSprint(t)
  }

  /** `tasks.filter(t => !t.sprintId)`: every task without a sprint, in order. */
  function Backlog(tasks: seq<Task>): (r: seq<Task>)
    ensures forall t :: t in r <==> t in tasks && !InSprint(t)
    ensures IsSubsequence(r, tasks)
  {
    FilterIsSubsequence(tasks, NotInSprintFn());
    Filter(tasks, NotInSprintFn())
  }

  /** The "{n} issues" counter: every task not counted in some sprint. */
  function IssueCount(tasks: seq<Task>): (n: nat)
    ensures n == |tasks| - |Filter(tasks, (t: Task) => InSprint(t))|
  {
    FilterComplementLength(tasks, (t: Task) => InSprint(t), NotInSprintFn());
    |Backlog(tasks)|
  }

  /** "Your backlog is empty" is shown. */
  predicate ShowsEmptyMessage(tasks: seq<Task>) {
    |Backlog(tasks)| == 0
  }

  /** The empty message shows exactly when the counter reads 0, which is
      exactly when every task belongs to a sprint. */
  lemma EmptyMessageIff(tasks: seq<Task>)
    ensures ShowsEmptyMessage(tasks) <==> IssueCount(tasks) == 0
    ensures ShowsEmptyMessage(tasks) <==> forall t :: t in tasks ==> InSprint(t)
  {
    if !ShowsEmptyMessage(tasks) {
      var r := Backlog(tasks);
      assert r[0] in r;
    }
  }

  /** On the sprint page every task is listed exactly once: in the backlog
      when it has no sprint, otherwise under its own sprint. */
  lemma BacklogOrSprint(groups: map<string, seq<Task>>, tasks: seq<Task>, t: Task)
    requires GroupsOf(groups, tasks) && t in tasks
    ensures t in Backlog(tasks) <==> !InSprint(t)
    ensures InSprint(t) ==> t in TasksOfSprint(groups, t.sprintId.value)
    ensures t in Backlog(tasks) ==> forall id :: id in groups ==> t !in groups[id]
  {
    if InSprint(t) {
      TasksOfSprintIsGroup(groups, tasks, t.sprintId.value);
    }
  }

  /** The backlog count and the group sizes together count every task. */
  lemma BacklogAndGroupsCountAll(groups: map<string, seq<Task>>, tasks: seq<Task>, ids: seq<string>)
    requires GroupsOf(groups, tasks)
    requires forall a, b :: 0 <= a < b < |ids| ==> ids[a] != ids[b]
    requires forall id :: id in groups <==> id in ids
    ensures IssueCount(tasks) + TotalSize(tasks, ids) == |tasks|
  {
    GroupSizesSum(groups, tasks, ids);
    FilterComplementLength(tasks, (t: Task) => InSprint(t), NotInSprintFn());
  }
}
