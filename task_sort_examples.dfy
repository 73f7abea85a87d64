/** Worked examples of `sortTasks` on concrete task lists. */
module TaskSortExamples {
  import opened Common
  import opened Types
  import opened TaskSort
  import StableSort

  /** A task that differs from `base` only in priority and due date. */
  function WithKeys(base: Task, p: Priority, due: Option<int>): Task {
    base.(priority := p, dueDate := due)
  }

  /** Priorities [low, high, medium] sorted descending become [high, medium, low]. */
  lemma PriorityDescExample(base: Task)
    ensures var lo, hi, med := WithKeys(base, Low, None), WithKeys(base, High, None), WithKeys(base, Medium, None);
      SortTasks([lo, hi, med], ByPriority, Desc) == [hi, med, lo]
  {
    var lo, hi, med := WithKeys(base, Low, None), WithKeys(base, High, None), WithKeys(base, Medium, None);
    var cmp := Comparator(ByPriority, Desc);
    assert [lo, hi][..1] == [lo];
    assert [lo, hi, med][..2] == [lo, hi];
    assert [hi, lo][..1] == [hi];
    var s1 := StableSort.Sort([lo], cmp);
    assert s1 == [lo];
    var s2 := StableSort.Sort([lo, hi], cmp);
    assert s2 == StableSort.Insert(s1, hi, cmp);
    assert cmp(lo, hi) > 0;
    assert s2 == StableSort.Insert([], hi, cmp) + [lo];
    assert StableSort.Insert([], hi, cmp) + [lo] == [hi, lo];
    var s3 := StableSort.Sort([lo, hi, med], cmp);
    assert s3 == StableSort.Insert(s2, med, cmp);
    assert cmp(lo, med) > 0;
    assert cmp(hi, med) <= 0;
    assert s3 == StableSort.Insert([hi], med, cmp) + [lo];
    assert StableSort.Insert([hi], med, cmp) == [hi, med];
  }

  /** Due dates [none, d1, d2] with d1 < d2 sorted ascending give [d1, d2, none]. */
  lemma DueDateAscExample(base: Task, d1: int, d2: int)
    requires d1 < d2
    ensures var n, a, b := WithKeys(base, Medium, None), WithKeys(base, Medium, Some(d1)), WithKeys(base, Medium, Some(d2));
      SortTasks([n, a, b], ByDueDate, Asc) == [a, b, n]
  {
    var n, a, b := WithKeys(base, Medium, None), WithKeys(base, Medium, Some(d1)), WithKeys(base, Medium, Some(d2));
    var cmp := Comparator(ByDueDate, Asc);
    assert [n, a][..1] == [n];
    assert [n, a, b][..2] == [n, a];
    assert [a, n][..1] == [a];
    var s1 := StableSort.Sort([n], cmp);
    assert s1 == [n];
    var s2 := StableSort.Sort([n, a], cmp);
    assert s2 == StableSort.Insert(s1, a, cmp);
    assert cmp(n, a) > 0;
    assert s2 == StableSort.Insert([], a, cmp) + [n];
    assert StableSort.Insert([], a, cmp) + [n] == [a, n];
    var s3 := StableSort.Sort([n, a, b], cmp);
    assert s3 == StableSort.Insert(s2, b, cmp);
    assert cmp(n, b) > 0;
    assert cmp(a, b) <= 0;
    assert s3 == StableSort.Insert([a], b, cmp) + [n];
    assert StableSort.Insert([a], b, cmp) == [a, b];
  }

  /** The same tasks sorted descending give [d2, d1, none]: the undated task stays last. */
  lemma DueDateDescExample(base: Task, d1: int, d2: int)
    requires d1 < d2
    ensures var n, a, b := WithKeys(base, Medium, None), WithKeys(base, Medium, Some(d1)), WithKeys(base, Medium, Some(d2));
      SortTasks([n, a, b], ByDueDate, Desc) == [b, a, n]
  {
    var n, a, b := WithKeys(base, Medium, None), WithKeys(base, Medium, Some(d1)), WithKeys(base, Medium, Some(d2));
    var cmp := Comparator(ByDueDate, Desc);
    assert [n, a][..1] == [n];
    assert [n, a, b][..2] == [n, a];
    assert [a, n][..1] == [a];
    var s1 := StableSort.Sort([n], cmp);
    assert s1 == [n];
    var s2 := StableSort.Sort([n, a], cmp);
    assert s2 == StableSort.Insert(s1, a, cmp);
    assert cmp(n, a) > 0;
    assert s2 == StableSort.Insert([], a, cmp) + [n];
    assert StableSort.Insert([], a, cmp) + [n] == [a, n];
    var s3 := StableSort.Sort([n, a, b], cmp);
    assert s3 == StableSort.Insert(s2, b, cmp);
    assert cmp(n, b) > 0;
    assert cmp(a, b) > 0;
    assert s3 == StableSort.Insert([a], b, cmp) + [n];
    assert StableSort.Insert([a], b, cmp) == StableSort.Insert([], b, cmp) + [a];
    assert StableSort.Insert([], b, cmp) + [a] == [b, a];
  }
}
