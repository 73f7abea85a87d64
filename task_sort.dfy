/** `sortTasks` (components/board/TaskSort.tsx): a copy of the task list sorted
    by priority, due date, assignee or creation time, ascending or descending. */
module TaskSort {
  import opened Common
  import opened Text
  import opened Types
  import StableSort

  /** The `sortBy` half of the chosen option; `NoKey` is the empty "Sort by..."
      option, which matches no `case` of the `switch`. */
  datatype SortKey = ByPriority | ByDueDate | ByAssignee | ByCreatedAt | NoKey
  /** The `direction` half; `Unset` is the `undefined` that splitting the empty
      option leaves, and like every value other than `asc` it negates. */
  datatype Direction = Asc | Desc | Unset

  /** The numeric weight of a priority: high=3, medium=2, low=1. */
  function PriorityWeight(p: Priority): (w: int)
    ensures 1 <= w <= 3
    ensures p == Low <==> w == 1
    ensures p == High <==> w == 3
  {
    match p
    case High => 3
    case Medium => 2
    case Low => 1
  }

  /** `a.assignee || ""`. */
  function AssigneeKey(t: Task): string {
    if IsAssigned(t) then t.assignee.value else ""
  }

  /** `!task.dueDate`. */
  predicate Undated(t: Task) {
    t.dueDate.None?
  }

  /** The comparison before the direction is applied. */
  function Ascending(a: Task, b: Task, key: SortKey): int
    requires key == ByDueDate ==> !Undated(a) && !Undated(b)
  {
    match key
    case ByPriority => PriorityWeight(a.priority) - PriorityWeight(b.priority)
    case ByDueDate => a.dueDate.value - b.dueDate.value
    case ByAssignee => LexCompare(AssigneeKey(a), AssigneeKey(b))
    case ByCreatedAt => a.createdAt - b.createdAt
    case NoKey => 0
  }

  /** The comparator handed to `sort`: the due-date early returns for undated
      tasks come before, and so escape, the negation for `desc`. */
  function Compare(a: Task, b: Task, key: SortKey, dir: Direction): int {
    if key == ByDueDate && Undated(a) && Undated(b) then 0
    else if key == ByDueDate && Undated(a) then 1
    else if key == ByDueDate && Undated(b) then -1
    else if dir == Asc then Ascending(a, b, key)
    else -Ascending(a, b, key)
  }

  function Comparator(key: SortKey, dir: Direction): (Task, Task) -> int {
    (a: Task, b: Task) => Compare(a, b, key, dir)
  }

  /** `sortTasks(tasks, sortBy, direction)`: a new list; `tasks` is not touched. */
  function SortTasks(tasks: seq<Task>, key: SortKey, dir: Direction): (r: seq<Task>)
    ensures multiset(r) == multiset(tasks)
  {
    StableSort.Sort(tasks, Comparator(key, dir))
  }

  /** Tasks `a` and `b` are in order in the result of a sort. */
  ghost predicate SortedBy(r: seq<Task>, key: SortKey, dir: Direction) {
    forall i, j :: 0 <= i < j < |r| ==> Compare(r[i], r[j], key, dir) <= 0
  }

  /** Every comparator `sortTasks` builds is a consistent total preorder. */
  lemma ComparatorConsistent(tasks: seq<Task>, key: SortKey, dir: Direction)
    ensures StableSort.ConsistentOn(Comparator(key, dir), tasks)
  {
    var cmp := Comparator(key, dir);
    forall a, b | a in tasks && b in tasks
      ensures (cmp(a, b) < 0 <==> cmp(b, a) > 0) && (cmp(a, b) == 0 <==> cmp(b, a) == 0)
    {
      if key == ByAssignee {
        LexCompareAntisymmetric(AssigneeKey(a), AssigneeKey(b));
      }
    }
    forall a, b, c | a in tasks && b in tasks && c in tasks && cmp(a, b) <= 0 && cmp(b, c) <= 0
      ensures cmp(a, c) <= 0
    {
      if key == ByAssignee {
        var ka, kb, kc := AssigneeKey(a), AssigneeKey(b), AssigneeKey(c);
        LexCompareAntisymmetric(ka, kb);
        LexCompareAntisymmetric(kb, kc);
        LexCompareAntisymmetric(ka, kc);
        if dir == Asc {
          LexCompareTransitive(ka, kb, kc);
        } else {
          LexCompareTransitive(kc, kb, ka);
        }
      }
    }
    forall a | a in tasks ensures cmp(a, a) <= 0 {
      if key == ByAssignee {
        LexCompareAntisymmetric(AssigneeKey(a), AssigneeKey(a));
      }
    }
  }

  /** The result is ordered by the comparator. */
  lemma SortTasksSorted(tasks: seq<Task>, key: SortKey, dir: Direction)
    ensures SortedBy(SortTasks(tasks, key, dir), key, dir)
  {
    ComparatorConsistent(tasks, key, dir);
    StableSort.SortSorted(tasks, Comparator(key, dir));
  }

  /** Tasks that compare equal to `x` keep their relative input order. */
  lemma SortTasksStable(tasks: seq<Task>, key: SortKey, dir: Direction, x: Task)
    requires x in tasks
    ensures StableSort.Ties(SortTasks(tasks, key, dir), x, Comparator(key, dir))
         == StableSort.Ties(tasks, x, Comparator(key, dir))
  {
    ComparatorConsistent(tasks, key, dir);
    StableSort.SortStable(tasks, x, Comparator(key, dir));
  }

  /** By priority: ascending puts every low before every medium before every
      high; descending is the reverse. */
  lemma PriorityOrder(tasks: seq<Task>, dir: Direction, i: int, j: int)
    requires 0 <= i < j < |tasks|
    ensures var r := SortTasks(tasks, ByPriority, dir);
      if dir == Asc then PriorityWeight(r[i].priority) <= PriorityWeight(r[j].priority)
      else PriorityWeight(r[i].priority) >= PriorityWeight(r[j].priority)
  {
    SortTasksSorted(tasks, ByPriority, dir);
  }

  /** By due date, in either direction, no dated task follows an undated one. */
  lemma UndatedLast(tasks: seq<Task>, dir: Direction, i: int, j: int)
    requires 0 <= i < j < |tasks|
    ensures var r := SortTasks(tasks, ByDueDate, dir);
      Undated(r[i]) ==> Undated(r[j])
  {
    SortTasksSorted(tasks, ByDueDate, dir);
  }

  /** By due date, dated tasks are ordered by date, earliest first for `asc`. */
  lemma DatedOrder(tasks: seq<Task>, dir: Direction, i: int, j: int)
    requires 0 <= i < j < |tasks|
    ensures var r := SortTasks(tasks, ByDueDate, dir);
      !Undated(r[i]) && !Undated(r[j]) ==>
        if dir == Asc then r[i].dueDate.value <= r[j].dueDate.value
        else r[i].dueDate.value >= r[j].dueDate.value
  {
    SortTasksSorted(tasks, ByDueDate, dir);
  }

  /** Two undated tasks compare equal, so undated tasks keep their input order. */
  lemma UndatedKeepInputOrder(tasks: seq<Task>, dir: Direction)
    ensures Filter(SortTasks(tasks, ByDueDate, dir), Undated) == Filter(tasks, Undated)
  {
    var r := SortTasks(tasks, ByDueDate, dir);
    if x :| x in tasks && Undated(x) {
      SortTasksStable(tasks, ByDueDate, dir, x);
      TiesAreUndated(r, x, dir);
      TiesAreUndated(tasks, x, dir);
    } else {
      forall t | t in r ensures !Undated(t) {
        assert t in multiset(r);
      }
      NoneUndated(r);
      NoneUndated(tasks);
    }
  }

  lemma {:induction false} NoneUndated(s: seq<Task>)
    requires forall t :: t in s ==> !Undated(t)
    ensures Filter(s, Undated) == []
  {
    if s != [] {
      assert s[0] in s;
      NoneUndated(s[1..]);
    }
  }

  lemma {:induction false} TiesAreUndated(s: seq<Task>, x: Task, dir: Direction)
    requires Undated(x)
    ensures StableSort.Ties(s, x, Comparator(ByDueDate, dir)) == Filter(s, Undated)
  {
    if s != [] {
      TiesAreUndated(s[1..], x, dir);
    }
  }

  /** By assignee, a task without an assignee comes before every assigned one in
      `asc` (its key is the empty string) and after every one in `desc`. */
  lemma UnassignedPlacement(tasks: seq<Task>, dir: Direction, i: int, j: int)
    requires 0 <= i < j < |tasks|
    ensures var r := SortTasks(tasks, ByAssignee, dir);
      (dir == Asc && !IsAssigned(r[j]) ==> !IsAssigned(r[i])) &&
      (dir != Asc && !IsAssigned(r[i]) ==> !IsAssigned(r[j]))
  {
    SortTasksSorted(tasks, ByAssignee, dir);
    var r := SortTasks(tasks, ByAssignee, dir);
    var ki, kj := AssigneeKey(r[i]), AssigneeKey(r[j]);
    EmptyIsLeast(ki);
    EmptyIsLeast(kj);
    LexCompareZeroIffEqual(ki, kj);
    LexCompareAntisymmetric(ki, kj);
  }

  /** Outside the undated early returns, `desc` is exactly the negation of `asc`. */
  lemma DescNegatesAsc(a: Task, b: Task, key: SortKey)
    requires key != ByDueDate || (!Undated(a) && !Undated(b))
    ensures Compare(a, b, key, Desc) == -Compare(a, b, key, Asc)
  {
  }

  /** The empty "Sort by..." option: every comparison is 0 (negated or not), so
      the stable sort hands the list back unchanged. */
  lemma NoKeyKeepsOrder(tasks: seq<Task>, dir: Direction)
    ensures SortTasks(tasks, NoKey, dir) == tasks
  {
    StableSort.SortAllTies(tasks, Comparator(NoKey, dir));
  }
}
