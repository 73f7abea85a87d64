/** The sprint list (components/sprint/SprintList.tsx): tasks grouped by the
    sprint they belong to, and the sprints ordered active first, completed
    last, otherwise by start date. */
module SprintList {
  import opened Common
  import opened Types
  import StableSort

  // ---------------------------------------------------------------------------
  // Grouping

  function InSprintFn(sprintId: string): Task -> bool {
    (t: Task) => InSprint(t) && t.sprintId.value == sprintId
  }

  /** The tasks of sprint `sprintId`, in input order. */
  function SprintGroup(tasks: seq<Task>, sprintId: string): (g: seq<Task>)
    ensures forall t :: t in g <==> t in tasks && InSprint(t) && t.sprintId.value == sprintId
    ensures IsSubsequence(g, tasks)
  {
    FilterIsSubsequence(tasks, InSprintFn(sprintId));
    Filter(tasks, InSprintFn(sprintId))
  }

  /** `groups` is the dictionary the `reduce` builds from `tasks`: a key for
      every sprint id some task carries, holding that sprint's tasks in order. */
  ghost predicate GroupsOf(groups: map<string, seq<Task>>, tasks: seq<Task>) {
    && (forall id :: id in groups <==> SprintGroup(tasks, id) != [])
    && (forall id :: id in groups ==> groups[id] == SprintGroup(tasks, id))
  }

  /** `tasks.reduce(...)`: for each task with a truthy `sprintId`, create the
      key if missing, then push the task onto its list. */
  method GroupBySprint(tasks: seq<Task>) returns (groups: map<string, seq<Task>>)
    ensures groups == GroupMap(tasks)
    ensures GroupsOf(groups, tasks)
  {
    groups := map[];
    var i := 0;
    while i < |tasks|
      invariant 0 <= i <= |tasks|
      invariant groups == GroupMap(tasks[..i])
    {
      var t := tasks[i];
      if InSprint(t) {
        var id := t.sprintId.value;
        if id !in groups {
          groups := groups[id := []];
        }
        groups := groups[id := groups[id] + [t]];
      }
      assert tasks[..i + 1][..i] == tasks[..i];
      i := i + 1;
    }
    assert tasks[..i] == tasks;
    GroupMapGroups(tasks);
  }

  /** The `reduce` as a fold: the dictionary built from `s`, one task at a time. */
  function GroupMap(s: seq<Task>): map<string, seq<Task>> {
    if s == [] then map[] else Pushed(GroupMap(s[..|s| - 1]), s[|s| - 1])
  }

  /** The fold groups its input: a key for every sprint id some task carries,
      holding that sprint's tasks in input order. */
  lemma {:induction false} GroupMapGroups(s: seq<Task>)
    ensures GroupsOf(GroupMap(s), s)
  {
    if s != [] {
      var front, last := s[..|s| - 1], s[|s| - 1];
      GroupMapGroups(front);
      GroupStep(GroupMap(front), front, last);
      assert s == front + [last];
    }
  }

  /** The dictionary after one step of the `reduce` on task `t`. */
  function Pushed(groups: map<string, seq<Task>>, t: Task): map<string, seq<Task>> {
    if InSprint(t) then groups[t.sprintId.value := TasksOfSprint(groups, t.sprintId.value) + [t]]
    else groups
  }

  /** One step of the `reduce`: pushing `t` onto its sprint's list (created
      empty when missing) groups the prefix extended by `t`. */
  lemma GroupStep(groups: map<string, seq<Task>>, prefix: seq<Task>, t: Task)
    requires GroupsOf(groups, prefix)
    ensures GroupsOf(Pushed(groups, t), prefix + [t])
  {
    var next := Pushed(groups, t);
    forall id
      ensures id in next <==> SprintGroup(prefix + [t], id) != []
      ensures id in next ==> next[id] == SprintGroup(prefix + [t], id)
    {
      FilterAppend(prefix, [t], InSprintFn(id));
      assert Filter([t], InSprintFn(id)) == if InSprintFn(id)(t) then [t] else [];
    }
  }

  /** `tasksBySprint[sprint._id] || []`. */
  function TasksOfSprint(groups: map<string, seq<Task>>, sprintId: string): seq<Task> {
    if sprintId in groups then groups[sprintId] else []
  }

  /** Each sprint is handed exactly its own tasks, in input order; a sprint no
      task points at gets the empty list. */
  lemma TasksOfSprintIsGroup(groups: map<string, seq<Task>>, tasks: seq<Task>, sprintId: string)
    requires GroupsOf(groups, tasks)
    ensures TasksOfSprint(groups, sprintId) == SprintGroup(tasks, sprintId)
    ensures IsSubsequence(TasksOfSprint(groups, sprintId), tasks)
  {
  }

  /** A task without a sprint is in no group. */
  lemma NoSprintNoGroup(groups: map<string, seq<Task>>, tasks: seq<Task>, t: Task)
    requires GroupsOf(groups, tasks) && !InSprint(t)
    ensures forall id :: id in groups ==> t !in groups[id]
  {
  }

  function TotalSize(tasks: seq<Task>, ids: seq<string>): nat {
    if ids == [] then 0 else |SprintGroup(tasks, ids[0])| + TotalSize(tasks, ids[1..])
  }

  function InSomeSprintFn(ids: seq<string>): Task -> bool {
    (t: Task) => InSprint(t) && t.sprintId.value in ids
  }

  lemma {:induction false} TotalSizeCounts(tasks: seq<Task>, ids: seq<string>)
    requires forall a, b :: 0 <= a < b < |ids| ==> ids[a] != ids[b]
    ensures TotalSize(tasks, ids) == |Filter(tasks, InSomeSprintFn(ids))|
  {
    if ids == [] {
      FilterComplementLength(tasks, InSomeSprintFn(ids), (t: Task) => true);
      FilterAll(tasks, (t: Task) => true);
    } else {
      TotalSizeCounts(tasks, ids[1..]);
      assert ids[0] !in ids[1..];
      FilterDisjointUnionLength(tasks, InSprintFn(ids[0]), InSomeSprintFn(ids[1..]), InSomeSprintFn(ids));
    }
  }

  /** Summed over the distinct sprint ids the tasks carry, the group sizes add
      up to the number of tasks that have a sprint. */
  lemma GroupSizesSum(groups: map<string, seq<Task>>, tasks: seq<Task>, ids: seq<string>)
    requires GroupsOf(groups, tasks)
    requires forall a, b :: 0 <= a < b < |ids| ==> ids[a] != ids[b]
    requires forall id :: id in groups <==> id in ids
    ensures TotalSize(tasks, ids) == |Filter(tasks, (t: Task) => InSprint(t))|
  {
    TotalSizeCounts(tasks, ids);
    forall t | t in tasks ensures InSomeSprintFn(ids)(t) == InSprint(t) {
      if InSprint(t) {
        assert t in SprintGroup(tasks, t.sprintId.value);
      }
    }
    FilterCongruent(tasks, InSomeSprintFn(ids), (t: Task) => InSprint(t));
  }

  // ---------------------------------------------------------------------------
  // Ordering

  /** The comparator of `sortedSprints`, branch for branch. */
  function CompareSprints(a: Sprint, b: Sprint): int {
    if a.status == Active then -1
    else if b.status == Active then 1
    else if a.status == Completed && b.status != Completed then 1
    else if b.status == Completed && a.status != Completed then -1
    else a.startDate - b.startDate
  }

  function SprintComparator(): (Sprint, Sprint) -> int {
    (a: Sprint, b: Sprint) => CompareSprints(a, b)
  }

  /** `[...sprints].sort(...)`: a sorted copy. */
  function SortSprints(sprints: seq<Sprint>): (r: seq<Sprint>)
    ensures multiset(r) == multiset(sprints)
  {
    StableSort.Sort(sprints, SprintComparator())
  }

  /** Position of a status in the displayed order. */
  function StatusRank(s: SprintStatus): (rank: nat)
    ensures rank <= 2
    ensures rank == 0 <==> s == Active
    ensures rank == 2 <==> s == Completed
  {
    match s
    case Active => 0
    case Planned => 1
    case Completed => 2
  }

  ghost predicate AtMostOneActive(sprints: seq<Sprint>) {
    forall a, b :: a in sprints && b in sprints && a.status == Active && b.status == Active ==> a == b
  }

  /** With at most one active sprint the comparator is a consistent preorder. */
  lemma SprintComparatorConsistent(sprints: seq<Sprint>)
    requires AtMostOneActive(sprints)
    ensures StableSort.ConsistentOn(SprintComparator(), sprints)
  {
  }

  /** With at most one active sprint, the list shows the active sprint first,
      then the planned ones, then the completed ones, each group by start date. */
  lemma SortedSprintsOrder(sprints: seq<Sprint>, i: int, j: int)
    requires AtMostOneActive(sprints)
    requires 0 <= i < j < |sprints|
    ensures var r := SortSprints(sprints);
      && StatusRank(r[i].status) <= StatusRank(r[j].status)
      && (r[i].status == r[j].status != Active ==> r[i].startDate <= r[j].startDate)
  {
    SprintComparatorConsistent(sprints);
    StableSort.SortSorted(sprints, SprintComparator());
    var r := SortSprints(sprints);
    assert CompareSprints(r[i], r[j]) <= 0;
  }

  /** Two different active sprints each compare before the other, so the
      comparator is not consistent and the order `sort` produces is not fixed. */
  lemma TwoActiveInconsistent(a: Sprint, b: Sprint)
    requires a.status == Active && b.status == Active && a != b
    ensures CompareSprints(a, b) < 0 && CompareSprints(b, a) < 0
    ensures !StableSort.ConsistentOn(SprintComparator(), [a, b])
  {
    assert StableSort.Pair(a, b);
  }
}
