/** The search box and facet filters (components/board/TaskSearchFilter.tsx):
    a pure filter chain over the board's tasks, and the component state
    (search term, selected facet values) whose handlers republish the
    filtered list to the board. */
module TaskSearchFilter {
  import opened Common
  import opened Text
  import opened Types

  /** The selected values of each facet; an empty list leaves that facet open. */
  datatype Facets = Facets(priority: seq<string>, status: seq<string>,
                           assignee: seq<string>, labels: seq<string>)

  const NoFacets: Facets := Facets([], [], [], [])

  datatype FacetKind = PriorityFacet | StatusFacet | AssigneeFacet | LabelsFacet

  /** The assignee facet value that selects tasks nobody is assigned to. */
  const Unassigned: string := "unassigned"

  /** Title, or description when there is one, contains the search, ignoring case. */
  predicate MatchesSearch(t: Task, search: string) {
    Contains(Lower(t.title), Lower(search)) ||
    (t.description.Some? && Contains(Lower(t.description.value), Lower(search)))
  }

  predicate PassesPriority(t: Task, f: Facets) {
    PriorityName(t.priority) in f.priority
  }

  predicate PassesStatus(t: Task, f: Facets) {
    t.status in f.status
  }

  predicate PassesAssignee(t: Task, f: Facets) {
    if IsAssigned(t) then t.assignee.value in f.assignee else Unassigned in f.assignee
  }

  predicate SearchCriterion(search: string, t: Task) {
    search == "" || MatchesSearch(t, search)
  }

  predicate PriorityCriterion(f: Facets, t: Task) {
    |f.priority| == 0 || PassesPriority(t, f)
  }

  predicate StatusCriterion(f: Facets, t: Task) {
    |f.status| == 0 || PassesStatus(t, f)
  }

  predicate AssigneeCriterion(f: Facets, t: Task) {
    |f.assignee| == 0 || PassesAssignee(t, f)
  }

  /** `applyFilters(search, filters)`: the search step, then one step per
      non-empty facet among priority, status and assignee. */
  function ApplyFilters(tasks: seq<Task>, search: string, f: Facets): seq<Task> {
    var afterSearch := if search != "" then Filter(tasks, t => MatchesSearch(t, search)) else tasks;
    var afterPriority :=
      if |f.priority| > 0 then Filter(afterSearch, t => PassesPriority(t, f)) else afterSearch;
    var afterStatus :=
      if |f.status| > 0 then Filter(afterPriority, t => PassesStatus(t, f)) else afterPriority;
    if |f.assignee| > 0 then Filter(afterStatus, t => PassesAssignee(t, f)) else afterStatus
  }

  /** The criterion the whole chain applies to one task: every active
      criterion must hold (AND across facets, OR within one). */
  predicate Keeps(t: Task, search: string, f: Facets) {
    SearchCriterion(search, t) && PriorityCriterion(f, t) && StatusCriterion(f, t) && AssigneeCriterion(f, t)
  }

  function KeepsFn(search: string, f: Facets): Task -> bool {
    t => Keeps(t, search, f)
  }

  /** One step of the chain: filtering by `p` when `active`, otherwise leaving
      the list alone, is filtering by `criterion`, which is `p` when active and
      accepts everything otherwise. */
  lemma Step(s: seq<Task>, active: bool, p: Task -> bool, criterion: Task -> bool)
    requires forall t :: criterion(t) == (!active || p(t))
    ensures (if active then Filter(s, p) else s) == Filter(s, criterion)
  {
    if active {
      FilterCongruent(s, p, criterion);
    } else {
      FilterAll(s, criterion);
    }
  }

  /** The chain of filters is one filter by `Keeps`. */
  lemma ApplyFiltersIsOneFilter(tasks: seq<Task>, search: string, f: Facets)
    ensures ApplyFilters(tasks, search, f) == Filter(tasks, KeepsFn(search, f))
  {
    var c0: Task -> bool := t => SearchCriterion(search, t);
    var k1: Task -> bool := t => SearchCriterion(search, t) && PriorityCriterion(f, t);
    var k2: Task -> bool := t => k1(t) && StatusCriterion(f, t);
    var afterSearch := if search != "" then Filter(tasks, t => MatchesSearch(t, search)) else tasks;
    Step(tasks, search != "", t => MatchesSearch(t, search), c0);
    var afterPriority :=
      if |f.priority| > 0 then Filter(afterSearch, t => PassesPriority(t, f)) else afterSearch;
    Step(afterSearch, |f.priority| > 0, t => PassesPriority(t, f), t => PriorityCriterion(f, t));
    FilterFilter(tasks, c0, t => PriorityCriterion(f, t), k1);
    var afterStatus :=
      if |f.status| > 0 then Filter(afterPriority, t => PassesStatus(t, f)) else afterPriority;
    Step(afterPriority, |f.status| > 0, t => PassesStatus(t, f), t => StatusCriterion(f, t));
    FilterFilter(tasks, k1, t => StatusCriterion(f, t), k2);
    Step(afterStatus, |f.assignee| > 0, t => PassesAssignee(t, f), t => AssigneeCriterion(f, t));
    FilterFilter(tasks, k2, t => AssigneeCriterion(f, t), KeepsFn(search, f));
  }

  /** A task is in the result exactly when it is in the input and meets every
      active criterion; the result keeps input order (a subsequence). */
  lemma ApplyFiltersSpec(tasks: seq<Task>, search: string, f: Facets)
    ensures var r := ApplyFilters(tasks, search, f);
      (forall t :: t in r <==> t in tasks && Keeps(t, search, f)) && IsSubsequence(r, tasks)
  {
    ApplyFiltersIsOneFilter(tasks, search, f);
    FilterIsSubsequence(tasks, KeepsFn(search, f));
  }

  /** What each active criterion demands of a task that is kept: the search
      matches; its priority name is selected; its status is selected; its
      assignee is selected, or "unassigned" is when it has none. */
  lemma KeptTaskMeetsCriteria(tasks: seq<Task>, search: string, f: Facets, t: Task)
    requires t in ApplyFilters(tasks, search, f)
    ensures t in tasks
    ensures search != "" ==> MatchesSearch(t, search)
    ensures |f.priority| > 0 ==> PriorityName(t.priority) in f.priority
    ensures |f.status| > 0 ==> t.status in f.status
    ensures |f.assignee| > 0 && IsAssigned(t) ==> t.assignee.value in f.assignee
    ensures |f.assignee| > 0 && !IsAssigned(t) ==> Unassigned in f.assignee
  {
    ApplyFiltersSpec(tasks, search, f);
  }

  /** Filtering the filtered list again with the same criteria changes nothing. */
  lemma ApplyFiltersIdempotent(tasks: seq<Task>, search: string, f: Facets)
    ensures ApplyFilters(ApplyFilters(tasks, search, f), search, f) == ApplyFilters(tasks, search, f)
  {
    ApplyFiltersIsOneFilter(tasks, search, f);
    ApplyFiltersIsOneFilter(ApplyFilters(tasks, search, f), search, f);
    FilterIdempotent(tasks, KeepsFn(search, f));
  }

  /** With no search and no facet selected, every task is kept, in order. */
  lemma NoCriteriaKeepsAll(tasks: seq<Task>, labels: seq<string>)
    ensures ApplyFilters(tasks, "", NoFacets.(labels := labels)) == tasks
  {
  }

  /** The search is not trimmed: a search of one space drops a task whose title
      has no space and which has no description. */
  lemma WhitespaceSearchFilters(t: Task)
    requires !Contains(Lower(t.title), " ") && t.description.None?
    ensures ApplyFilters([t], " ", NoFacets) == []
  {
    assert Lower(" ") == " ";
  }

  /** The search ignores case: searching for `s` and for its lower-case form agree. */
  lemma SearchIgnoresCase(tasks: seq<Task>, search: string, f: Facets)
    ensures ApplyFilters(tasks, search, f) == ApplyFilters(tasks, Lower(search), f)
  {
    LowerIdempotent(search);
    ApplyFiltersIsOneFilter(tasks, search, f);
    ApplyFiltersIsOneFilter(tasks, Lower(search), f);
    FilterCongruent(tasks, KeepsFn(search, f), KeepsFn(Lower(search), f));
  }

  /** The search match is a substring test: the lower-cased search occurs at some
      offset of the lower-cased title or description. */
  lemma MatchesSearchIsSubstring(t: Task, search: string)
    ensures MatchesSearch(t, search) <==>
      Occurs(Lower(t.title), Lower(search)) ||
      (t.description.Some? && Occurs(Lower(t.description.value), Lower(search)))
  {
    ContainsIffOccurs(Lower(t.title), Lower(search));
    if t.description.Some? {
      ContainsIffOccurs(Lower(t.description.value), Lower(search));
    }
  }

  /** The labels facet never constrains the result. */
  lemma LabelsIgnored(tasks: seq<Task>, search: string, f: Facets, labels: seq<string>)
    ensures ApplyFilters(tasks, search, f.(labels := labels)) == ApplyFilters(tasks, search, f)
  {
    var g := f.(labels := labels);
    ApplyFiltersIsOneFilter(tasks, search, f);
    ApplyFiltersIsOneFilter(tasks, search, g);
    forall t | t in tasks ensures KeepsFn(search, f)(t) == KeepsFn(search, g)(t) {
      assert PriorityCriterion(f, t) == PriorityCriterion(g, t);
      assert StatusCriterion(f, t) == StatusCriterion(g, t);
      assert AssigneeCriterion(f, t) == AssigneeCriterion(g, t);
    }
    FilterCongruent(tasks, KeepsFn(search, f), KeepsFn(search, g));
  }

  /** The values selected in one facet. */
  function Selected(f: Facets, kind: FacetKind): seq<string> {
    match kind
    case PriorityFacet => f.priority
    case StatusFacet => f.status
    case AssigneeFacet => f.assignee
    case LabelsFacet => f.labels
  }

  lemma {:induction false} RemoveAllCount(values: seq<string>, v: string)
    ensures |Filter(values, w => w != v)| == |values| - multiset(values)[v]
  {
    if values != [] {
      RemoveAllCount(values[1..], v);
      assert values == [values[0]] + values[1..];
    }
  }

  /** Selecting `v` when it is not selected appends it; otherwise every copy of
      it is removed. Nothing else changes. */
  function Toggle(values: seq<string>, v: string): (r: seq<string>)
    ensures v in r <==> v !in values
    ensures forall w :: w != v ==> (w in r <==> w in values)
    ensures v !in values ==> r == values + [v]
    ensures v in values ==> |r| == |values| - multiset(values)[v] && IsSubsequence(r, values)
  {
    if v in values then
      RemoveAllCount(values, v);
      FilterIsSubsequence(values, w => w != v);
      Filter(values, w => w != v)
    else values + [v]
  }

  /** `toggleFilter(kind, v)` on the facet record: only the named facet changes. */
  function ToggleFacet(f: Facets, kind: FacetKind, v: string): (g: Facets)
    ensures Selected(g, kind) == Toggle(Selected(f, kind), v)
    ensures kind != PriorityFacet ==> g.priority == f.priority
    ensures kind != StatusFacet ==> g.status == f.status
    ensures kind != AssigneeFacet ==> g.assignee == f.assignee
    ensures kind != LabelsFacet ==> g.labels == f.labels
  {
    match kind
    case PriorityFacet => f.(priority := Toggle(f.priority, v))
    case StatusFacet => f.(status := Toggle(f.status, v))
    case AssigneeFacet => f.(assignee := Toggle(f.assignee, v))
    case LabelsFacet => f.(labels := Toggle(f.labels, v))
  }

  /** Toggling the same value twice restores which values are selected. */
  lemma ToggleTwice(values: seq<string>, v: string)
    ensures forall w :: w in Toggle(Toggle(values, v), v) <==> w in values
  {
  }

  /** `activeFilterCount`: how many facet values are selected, labels included.
      The badge and the "Clear all" button show exactly when it is positive. */
  function ActiveFilterCount(f: Facets): (n: nat)
    ensures n == 0 <==> f == NoFacets
    ensures n >= |f.labels|
  {
    |f.priority| + |f.status| + |f.assignee| + |f.labels|
  }

  /** The filter component's state. `published` is the list most recently
      handed to the board through `onFilteredTasksChange`. */
  class FilterPanel {
    var tasks: seq<Task>
    var searchTerm: string
    var filters: Facets
    var published: seq<Task>

    /** What the board shows is the filtered list for the current criteria. */
    ghost predicate Consistent()
      reads this
    {
      published == ApplyFilters(tasks, searchTerm, filters)
    }

    /** Mounting: empty search, no facet, and the first effect run publishes `tasks`. */
    constructor (tasks: seq<Task>)
      ensures this.tasks == tasks && searchTerm == "" && filters == NoFacets
      ensures published == tasks && Consistent()
    {
      this.tasks := tasks;
      searchTerm := "";
      filters := NoFacets;
      published := tasks;
      new;
      NoCriteriaKeepsAll(tasks, []);
    }

    /** The effect that re-runs the filters when the board hands over a new list. */
    method TasksChanged(newTasks: seq<Task>)
      modifies this
      ensures tasks == newTasks && searchTerm == old(searchTerm) && filters == old(filters)
      ensures published == ApplyFilters(newTasks, searchTerm, filters) && Consistent()
    {
      tasks := newTasks;
      published := ApplyFilters(tasks, searchTerm, filters);
    }

    /** `handleSearch(value)`. */
    method HandleSearch(value: string)
      modifies this
      ensures searchTerm == value && tasks == old(tasks) && filters == old(filters)
      ensures published == ApplyFilters(tasks, value, filters) && Consistent()
    {
      searchTerm := value;
      published := ApplyFilters(tasks, value, filters);
    }

    /** `toggleFilter(kind, value)`: one facet changes and the list is republished. */
    method ToggleFilter(kind: FacetKind, value: string)
      modifies this
      ensures filters == ToggleFacet(old(filters), kind, value)
      ensures tasks == old(tasks) && searchTerm == old(searchTerm)
      ensures published == ApplyFilters(tasks, searchTerm, filters) && Consistent()
    {
      filters := ToggleFacet(filters, kind, value);
      published := ApplyFilters(tasks, searchTerm, filters);
    }

    /** `clearFilters()`: publishes `tasks` unfiltered, which is what the
        cleared criteria select. */
    method ClearFilters()
      modifies this
      ensures searchTerm == "" && filters == NoFacets && tasks == old(tasks)
      ensures published == tasks && Consistent()
    {
      searchTerm := "";
      filters := NoFacets;
      published := tasks;
      NoCriteriaKeepsAll(tasks, []);
    }
  }
}
