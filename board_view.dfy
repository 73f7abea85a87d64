/** The board screen (components/board/BoardView.tsx): the list of unarchived
    tasks, the archived toggle, sorting of the filtered list, the optimistic
    drag-and-drop status change with its rollback, and the partition of the
    filtered list into the board's columns. */
module BoardView {
  import opened Common
  import opened Types
  import opened TaskSort
  import opened Text
  import KeyboardShortcuts

  /** `initialTasks.filter(task => !task.archived)`. */
  function ActiveTasks(initialTasks: seq<Task>): (r: seq<Task>)
    ensures forall t :: t in r <==> t in initialTasks && !t.archived
    ensures IsSubsequence(r, initialTasks)
  {
    FilterIsSubsequence(initialTasks, (t: Task) => !t.archived);
    Filter(initialTasks, (t: Task) => !t.archived)
  }

  // ---------------------------------------------------------------------------
  // Locating and moving the dragged task

  /** Some task carries the id `id`. */
  predicate HasTask(tasks: seq<Task>, id: string) {
    exists i :: 0 <= i < |tasks| && tasks[i].id == id
  }

  /** `tasks.findIndex(t => t._id === id)`: the first index holding `id`, or -1. */
  function FindIndex(tasks: seq<Task>, id: string): (k: int)
    ensures -1 <= k < |tasks|
    ensures k == -1 <==> !HasTask(tasks, id)
    ensures k >= 0 ==> tasks[k].id == id && forall i :: 0 <= i < k ==> tasks[i].id != id
  {
    if tasks == [] then -1
    else if tasks[0].id == id then 0
    else
      var k := FindIndex(tasks[1..], id);
      assert forall i :: 1 <= i < |tasks| ==> tasks[i] == tasks[1..][i - 1];
      if k == -1 then -1 else k + 1
  }

  /** `findIndex` as the loop it runs. */
  method FindTaskIndex(tasks: seq<Task>, id: string) returns (k: int)
    ensures k == FindIndex(tasks, id)
  {
    var i := 0;
    while i < |tasks|
      invariant 0 <= i <= |tasks|
      invariant forall j :: 0 <= j < i ==> tasks[j].id != id
    {
      if tasks[i].id == id {
        return i;
      }
      i := i + 1;
    }
    return -1;
  }

  /** `t._id === id ? { ...t, status: dest } : t`. */
  function Moved(t: Task, id: string, dest: string): Task {
    if t.id == id then t.(status := dest) else t
  }

  /** The list handed to `setTasks` after a drop on column `dest`: same length
      and order, every task with id `id` now has status `dest`, every other task
      is untouched. */
  function MoveToColumn(tasks: seq<Task>, id: string, dest: string): (r: seq<Task>)
    ensures |r| == |tasks|
    ensures forall i :: 0 <= i < |tasks| ==> r[i].id == tasks[i].id
    ensures forall i :: 0 <= i < |tasks| && tasks[i].id == id ==> r[i] == tasks[i].(status := dest)
    ensures forall i :: 0 <= i < |tasks| && tasks[i].id != id ==> r[i] == tasks[i]
  {
    if tasks == [] then []
    else [Moved(tasks[0], id, dest)] + MoveToColumn(tasks[1..], id, dest)
  }

  /** Dropping a task that is not in the list changes nothing. */
  lemma MoveAbsentIsIdentity(tasks: seq<Task>, id: string, dest: string)
    requires !HasTask(tasks, id)
    ensures MoveToColumn(tasks, id, dest) == tasks
  {
  }

  /** Dropping the same task on the same column twice is dropping it once. */
  lemma MoveIdempotent(tasks: seq<Task>, id: string, dest: string)
    ensures MoveToColumn(MoveToColumn(tasks, id, dest), id, dest) == MoveToColumn(tasks, id, dest)
  {
  }

  /** After the move, the dragged task shows in column `dest` and in no other. */
  lemma MoveLandsInColumn(tasks: seq<Task>, id: string, dest: string, column: string, t: Task)
    requires t in MoveToColumn(tasks, id, dest) && t.id == id
    ensures t in ColumnTasks(MoveToColumn(tasks, id, dest), column) <==> column == dest
  {
    var r := MoveToColumn(tasks, id, dest);
    var i :| 0 <= i < |r| && r[i] == t;
    assert tasks[i].id == id;
  }

  /** Replacing the found task by its moved copy, as the two `splice` calls do
      when the task is found, leaves nothing for the `map` to do differently. */
  lemma MoveAfterReplace(tasks: seq<Task>, k: int, id: string, dest: string)
    requires 0 <= k < |tasks| && tasks[k].id == id
    ensures MoveToColumn(tasks[k := tasks[k].(status := dest)], id, dest) == MoveToColumn(tasks, id, dest)
  {
    var a := MoveToColumn(tasks[k := tasks[k].(status := dest)], id, dest);
    var b := MoveToColumn(tasks, id, dest);
    assert forall i :: 0 <= i < |tasks| ==> a[i] == b[i];
  }

  // ---------------------------------------------------------------------------
  // The optimistic update as written, on a list that may hold a phantom entry

  /** An element of the working copy: a task, or the object `{ status }` that
      the update builds when `findIndex` finds nothing (spreading `undefined`
      contributes no fields, so it has no id). */
  datatype Entry = Card(task: Task) | Phantom(status: string)

  function Cards(tasks: seq<Task>): (r: seq<Entry>)
    ensures |r| == |tasks|
    ensures forall i :: 0 <= i < |tasks| ==> r[i] == Card(tasks[i])
  {
    if tasks == [] then [] else [Card(tasks[0])] + Cards(tasks[1..])
  }

  /** Where `Array.prototype.splice` starts: a negative start counts from the end. */
  function SpliceStart(len: nat, start: int): (a: nat)
    ensures a <= len
    ensures start < 0 && len + start >= 0 ==> a == len + start
    ensures start < 0 && len + start < 0 ==> a == 0
    ensures 0 <= start <= len ==> a == start
    ensures start > len ==> a == len
  {
    if start < 0 then (if len + start < 0 then 0 else len + start)
    else if start > len then len
    else start
  }

  /** `s.splice(start, deleteCount, ...items)`, as the resulting array. */
  function Splice<T>(s: seq<T>, start: int, deleteCount: nat, items: seq<T>): (r: seq<T>)
    ensures var a := SpliceStart(|s|, start);
      var d := if deleteCount <= |s| - a then deleteCount else |s| - a;
      && |r| == |s| - d + |items|
      && r[..a] == s[..a]
      && r[a..a + |items|] == items
      && r[a + |items|..] == s[a + d..]
  {
    var a := SpliceStart(|s|, start);
    var d := if deleteCount <= |s| - a then deleteCount else |s| - a;
    s[..a] + items + s[a + d..]
  }

  function RestatusEntry(e: Entry, id: string, dest: string): Entry {
    match e
    case Card(t) => Card(Moved(t, id, dest))
    case Phantom(_) => e
  }

  function RestatusAll(es: seq<Entry>, id: string, dest: string): (r: seq<Entry>)
    ensures |r| == |es|
    ensures forall i :: 0 <= i < |es| ==> r[i] == RestatusEntry(es[i], id, dest)
  {
    if es == [] then [] else [RestatusEntry(es[0], id, dest)] + RestatusAll(es[1..], id, dest)
  }

  /** The optimistic update exactly as `onDragEnd` computes it: copy, find,
      build the updated task, remove one element at the found index, insert the
      updated task there, then map over the ids. */
  function DragAsWritten(tasks: seq<Task>, id: string, dest: string): seq<Entry> {
    var k := FindIndex(tasks, id);
    var updated := if k >= 0 then Card(tasks[k].(status := dest)) else Phantom(dest);
    var removed := Splice(Cards(tasks), k, 1, []);
    var inserted := Splice(removed, k, 0, [updated]);
    RestatusAll(inserted, id, dest)
  }

  /** The same update with the two `splice` calls made only when the task was
      found: what the update is evidently meant to do. */
  function DragGuarded(tasks: seq<Task>, id: string, dest: string): seq<Entry> {
    var k := FindIndex(tasks, id);
    var copy := Cards(tasks);
    var inserted :=
      if k >= 0 then Splice(Splice(copy, k, 1, []), k, 0, [Card(tasks[k].(status := dest))])
      else copy;
    RestatusAll(inserted, id, dest)
  }

  /** Removing the element at `k` and inserting `x` at `k` replaces it. */
  lemma SpliceReplace<T>(s: seq<T>, k: int, x: T)
    requires 0 <= k < |s|
    ensures Splice(Splice(s, k, 1, []), k, 0, [x]) == s[k := x]
  {
    var removed := Splice(s, k, 1, []);
    assert removed == s[..k] + s[k + 1..];
    var inserted := Splice(removed, k, 0, [x]);
    assert inserted == removed[..k] + [x] + removed[k..];
    assert removed[..k] == s[..k];
    assert removed[k..] == s[k + 1..];
  }

  /** With start -1, the element removed is the last one and `x` goes in
      before the new last one. */
  lemma SpliceFromEnd<T>(s: seq<T>, x: T)
    requires |s| >= 2
    ensures Splice(Splice(s, -1, 1, []), -1, 0, [x]) == s[..|s| - 2] + [x] + [s[|s| - 2]]
  {
    var n := |s|;
    var removed := Splice(s, -1, 1, []);
    assert removed == s[..n - 1];
    var inserted := Splice(removed, -1, 0, [x]);
    assert inserted == removed[..n - 2] + [x] + removed[n - 2..];
    assert removed[n - 2..] == [s[n - 2]];
  }

  lemma CardsUpdate(tasks: seq<Task>, k: int, x: Task)
    requires 0 <= k < |tasks|
    ensures Cards(tasks)[k := Card(x)] == Cards(tasks[k := x])
  {
    var a := Cards(tasks)[k := Card(x)];
    var b := Cards(tasks[k := x]);
    assert forall i :: 0 <= i < |tasks| ==> a[i] == b[i];
  }

  lemma RestatusCards(tasks: seq<Task>, id: string, dest: string)
    ensures RestatusAll(Cards(tasks), id, dest) == Cards(MoveToColumn(tasks, id, dest))
  {
    var a := RestatusAll(Cards(tasks), id, dest);
    var b := Cards(MoveToColumn(tasks, id, dest));
    assert forall i :: 0 <= i < |tasks| ==> a[i] == b[i];
  }

  /** When the dragged task is in the list, the update as written is the
      intended one: only that task's status changes. */
  lemma DragAsWrittenWhenPresent(tasks: seq<Task>, id: string, dest: string)
    requires HasTask(tasks, id)
    ensures DragAsWritten(tasks, id, dest) == Cards(MoveToColumn(tasks, id, dest))
  {
    var k := FindIndex(tasks, id);
    var x := tasks[k].(status := dest);
    SpliceReplace(Cards(tasks), k, Card(x));
    CardsUpdate(tasks, k, x);
    RestatusCards(tasks[k := x], id, dest);
    MoveAfterReplace(tasks, k, id, dest);
  }

  /** When the dragged id is not in the list, `findIndex` gives -1 and both
      splices act at the end. With two or more tasks the update as written
      loses the last task and puts the phantom `{ status }` object second to
      last; with one task or none the list becomes the phantom alone. Either
      way the result is not the intended one. */
  lemma DragAsWrittenWhenAbsent(tasks: seq<Task>, id: string, dest: string)
    requires !HasTask(tasks, id)
    ensures var r := DragAsWritten(tasks, id, dest);
      && (|tasks| <= 1 ==> r == [Phantom(dest)])
      && (|tasks| >= 2 ==>
            && |r| == |tasks|
            && r[..|tasks| - 2] == Cards(tasks[..|tasks| - 2])
            && r[|tasks| - 2] == Phantom(dest)
            && r[|tasks| - 1] == Card(tasks[|tasks| - 2]))
      && r != Cards(MoveToColumn(tasks, id, dest))
  {
    if |tasks| <= 1 {
      DragAsWrittenShortList(tasks, id, dest);
    } else {
      DragAsWrittenLongList(tasks, id, dest);
    }
  }

  lemma DragAsWrittenShortList(tasks: seq<Task>, id: string, dest: string)
    requires !HasTask(tasks, id) && |tasks| <= 1
    ensures DragAsWritten(tasks, id, dest) == [Phantom(dest)]
    ensures [Phantom(dest)] != Cards(MoveToColumn(tasks, id, dest))
  {
    var copy := Cards(tasks);
    var removed := Splice(copy, -1, 1, []);
    assert removed == [];
    var inserted := Splice(removed, -1, 0, [Phantom(dest)]);
    assert inserted == [Phantom(dest)];
    MoveAbsentIsIdentity(tasks, id, dest);
    if |tasks| == 1 {
      assert Cards(MoveToColumn(tasks, id, dest))[0] == Card(tasks[0]);
    }
  }

  lemma DragAsWrittenLongList(tasks: seq<Task>, id: string, dest: string)
    requires !HasTask(tasks, id) && |tasks| >= 2
    ensures var r := DragAsWritten(tasks, id, dest);
      && |r| == |tasks|
      && r[..|tasks| - 2] == Cards(tasks[..|tasks| - 2])
      && r[|tasks| - 2] == Phantom(dest)
      && r[|tasks| - 1] == Card(tasks[|tasks| - 2])
      && r != Cards(MoveToColumn(tasks, id, dest))
  {
    var n := |tasks|;
    var copy := Cards(tasks);
    SpliceFromEnd(copy, Phantom(dest));
    var inserted := copy[..n - 2] + [Phantom(dest)] + [copy[n - 2]];
    var r := DragAsWritten(tasks, id, dest);
    assert r == RestatusAll(inserted, id, dest);
    assert r[n - 2] == Phantom(dest);
    assert r[n - 1] == Card(tasks[n - 2]);
    assert r[..n - 2] == Cards(tasks[..n - 2]);
    MoveAbsentIsIdentity(tasks, id, dest);
    assert Cards(MoveToColumn(tasks, id, dest))[n - 2] == Card(tasks[n - 2]);
  }

  /** With the splices guarded, every drop is the intended update, whether or
      not the dragged id is in the list. */
  lemma DragGuardedIsMove(tasks: seq<Task>, id: string, dest: string)
    ensures DragGuarded(tasks, id, dest) == Cards(MoveToColumn(tasks, id, dest))
  {
    if HasTask(tasks, id) {
      var k := FindIndex(tasks, id);
      var x := tasks[k].(status := dest);
      SpliceReplace(Cards(tasks), k, Card(x));
      CardsUpdate(tasks, k, x);
      RestatusCards(tasks[k := x], id, dest);
      MoveAfterReplace(tasks, k, id, dest);
    } else {
      RestatusCards(tasks, id, dest);
      MoveAbsentIsIdentity(tasks, id, dest);
    }
  }

  // ---------------------------------------------------------------------------
  // Columns

  /** `filteredTasks.filter(task => task.status === column.id)`. */
  function ColumnTasks(filtered: seq<Task>, columnId: string): (r: seq<Task>)
    ensures forall t :: t in r <==> t in filtered && t.status == columnId
    ensures IsSubsequence(r, filtered)
  {
    FilterIsSubsequence(filtered, InColumn(columnId));
    Filter(filtered, InColumn(columnId))
  }

  function InColumn(columnId: string): Task -> bool {
    (t: Task) => t.status == columnId
  }

  function ColumnIds(columns: seq<Column>): (ids: seq<string>)
    ensures |ids| == |columns|
    ensures forall i :: 0 <= i < |columns| ==> ids[i] == columns[i].id
  {
    if columns == [] then [] else [columns[0].id] + ColumnIds(columns[1..])
  }

  /** The task lists `board.columns.map(...)` renders, one per column in board order. */
  function ColumnLists(columns: seq<Column>, filtered: seq<Task>): (lists: seq<seq<Task>>)
    ensures |lists| == |columns|
    ensures forall i :: 0 <= i < |columns| ==> lists[i] == ColumnTasks(filtered, columns[i].id)
  {
    if columns == [] then []
    else [ColumnTasks(filtered, columns[0].id)] + ColumnLists(columns[1..], filtered)
  }

  /** A task is shown in a column exactly when its status is that column's id;
      a task whose status is no column's id is shown nowhere. */
  lemma ShownIn(columns: seq<Column>, filtered: seq<Task>, t: Task, i: int)
    requires 0 <= i < |columns|
    ensures t in ColumnLists(columns, filtered)[i] <==> t in filtered && t.status == columns[i].id
  {
  }

  /** With distinct column ids, no task is shown in two columns. */
  lemma ShownOnce(columns: seq<Column>, filtered: seq<Task>, t: Task, i: int, j: int)
    requires forall a, b :: 0 <= a < b < |columns| ==> columns[a].id != columns[b].id
    requires 0 <= i < |columns| && 0 <= j < |columns|
    requires t in ColumnLists(columns, filtered)[i] && t in ColumnLists(columns, filtered)[j]
    ensures i == j
  {
  }

  function TotalLength(lists: seq<seq<Task>>): nat {
    if lists == [] then 0 else |lists[0]| + TotalLength(lists[1..])
  }

  function OnBoard(ids: seq<string>): Task -> bool {
    (t: Task) => t.status in ids
  }

  /** With distinct column ids, the columns together show exactly as many
      cards as there are filtered tasks whose status is some column's id. */
  lemma {:induction false} ShownCount(columns: seq<Column>, filtered: seq<Task>)
    requires forall a, b :: 0 <= a < b < |columns| ==> columns[a].id != columns[b].id
    ensures TotalLength(ColumnLists(columns, filtered)) == |Filter(filtered, OnBoard(ColumnIds(columns)))|
  {
    if columns == [] {
      FilterComplementLength(filtered, OnBoard([]), t => true);
      FilterAll(filtered, (t: Task) => true);
    } else {
      var rest := columns[1..];
      ShownCount(rest, filtered);
      var lists := ColumnLists(columns, filtered);
      assert lists[1..] == ColumnLists(rest, filtered);
      var ids := ColumnIds(columns);
      assert ids == [columns[0].id] + ColumnIds(rest);
      assert columns[0].id !in ColumnIds(rest);
      FilterDisjointUnionLength(filtered, InColumn(columns[0].id), OnBoard(ColumnIds(rest)), OnBoard(ids));
    }
  }

  // ---------------------------------------------------------------------------
  // The component state

  /** Where a card was picked up or dropped. */
  datatype Location = Location(droppableId: string, index: int)

  /** `PATCH /api/tasks/{taskId}` with body `{ status }`. */
  datatype StatusPatch = StatusPatch(taskId: string, status: string)

  datatype SortConfig = SortConfig(key: SortKey, direction: Direction)

  /** The shortcuts the board registers: "n" opens quick add, "/" focuses the
      search box, "Escape" closes quick add. */
  const BoardShortcuts: seq<KeyboardShortcuts.Shortcut> := [
    KeyboardShortcuts.Shortcut("n", false, false, false, "Create new task"),
    KeyboardShortcuts.Shortcut("/", false, false, false, "Focus search"),
    KeyboardShortcuts.Shortcut("Escape", false, false, false, "Close dialog")
  ]

  /** A key press fires at most one of the board's shortcuts: their keys differ
      even after lower-casing. */
  lemma AtMostOneBoardShortcut(e: KeyboardShortcuts.KeyEvent, i: int, j: int)
    requires 0 <= i < |BoardShortcuts| && 0 <= j < |BoardShortcuts|
    requires KeyboardShortcuts.Fires(BoardShortcuts[i], e) && KeyboardShortcuts.Fires(BoardShortcuts[j], e)
    ensures i == j
  {
    assert Lower("n") == "n";
    assert Lower("/") == "/";
    assert Lower("Escape") == "escape";
  }

  class BoardViewState {
    const board: Board
    const initialTasks: seq<Task>
    var tasks: seq<Task>
    var filteredTasks: seq<Task>
    var showArchived: bool
    var sortConfig: Option<SortConfig>
    var quickAddOpen: bool

    /** Mounting: both lists start as the unarchived tasks. */
    constructor (board: Board, initialTasks: seq<Task>)
      ensures this.board == board && this.initialTasks == initialTasks
      ensures tasks == ActiveTasks(initialTasks) && filteredTasks == ActiveTasks(initialTasks)
      ensures !showArchived && sortConfig == None && !quickAddOpen
    {
      this.board := board;
      this.initialTasks := initialTasks;
      tasks := ActiveTasks(initialTasks);
      filteredTasks := ActiveTasks(initialTasks);
      showArchived := false;
      sortConfig := None;
      quickAddOpen := false;
    }

    /** `handleSort(sortBy, direction)`: records the choice and replaces the
        filtered list by its sorted copy, a permutation of it. */
    method HandleSort(key: SortKey, direction: Direction)
      modifies this
      ensures sortConfig == Some(SortConfig(key, direction))
      ensures filteredTasks == SortTasks(old(filteredTasks), key, direction)
      ensures multiset(filteredTasks) == multiset(old(filteredTasks))
      ensures key == NoKey ==> filteredTasks == old(filteredTasks)
      ensures tasks == old(tasks) && showArchived == old(showArchived)
      ensures quickAddOpen == old(quickAddOpen)
    {
      NoKeyKeepsOrder(filteredTasks, direction);
      sortConfig := Some(SortConfig(key, direction));
      filteredTasks := SortTasks(filteredTasks, key, direction);
    }

    /** `toggleArchived()`: turning the flag on shows every initial task,
        turning it off shows the unarchived ones again. */
    method ToggleArchived()
      modifies this
      ensures showArchived == !old(showArchived)
      ensures !old(showArchived) ==> tasks == initialTasks && filteredTasks == initialTasks
      ensures old(showArchived) ==> tasks == ActiveTasks(initialTasks) && filteredTasks == ActiveTasks(initialTasks)
      ensures sortConfig == old(sortConfig) && quickAddOpen == old(quickAddOpen)
    {
      var wasShowing := showArchived;
      showArchived := !wasShowing;
      if !wasShowing {
        tasks := initialTasks;
        filteredTasks := initialTasks;
      } else {
        tasks := ActiveTasks(initialTasks);
        filteredTasks := ActiveTasks(initialTasks);
      }
    }

    /** `onDragEnd(result)`. Without a destination nothing happens. Otherwise the
        PATCH is sent, even for a drop back where the card came from; the task
        list first takes the optimistic update and is reset to `initialTasks`
        only if `fetch` throws. The splices are made only when the task is found. */
    method OnDragEnd(destination: Option<Location>, source: Location, draggableId: string,
                     outcome: FetchOutcome) returns (patch: Option<StatusPatch>)
      modifies this
      ensures destination.None? ==> patch.None? && tasks == old(tasks)
      ensures destination.Some? ==> patch == Some(StatusPatch(draggableId, destination.value.droppableId))
      ensures destination.Some? && outcome.Responded? ==>
        tasks == MoveToColumn(old(tasks), draggableId, destination.value.droppableId)
      ensures destination.Some? && outcome.Threw? ==> tasks == initialTasks
      ensures filteredTasks == old(filteredTasks) && showArchived == old(showArchived)
      ensures sortConfig == old(sortConfig) && quickAddOpen == old(quickAddOpen)
    {
      if destination.None? {
        return None;
      }
      var dest := destination.value.droppableId;
      var newTasks := tasks;
      var k := FindTaskIndex(newTasks, draggableId);
      if k >= 0 {
        MoveAfterReplace(newTasks, k, draggableId, dest);
        newTasks := newTasks[k := newTasks[k].(status := dest)];
      }
      tasks := MoveToColumn(newTasks, draggableId, dest);
      patch := Some(StatusPatch(draggableId, dest));
      if outcome.Threw? {
        tasks := initialTasks;
      }
    }
  
    /** A key press on the board: every shortcut that fires runs its callback
        in list order. */
    method OnKeyDown(e: KeyboardShortcuts.KeyEvent) returns (searchFocused: bool)
      modifies this
      ensures KeyboardShortcuts.Fires(BoardShortcuts[0], e) ==> quickAddOpen
      ensures KeyboardShortcuts.Fires(BoardShortcuts[2], e) ==> !quickAddOpen
      ensures !KeyboardShortcuts.Fires(BoardShortcuts[0], e) && !KeyboardShortcuts.Fires(BoardShortcuts[2], e) ==>
        quickAddOpen == old(quickAddOpen)
      ensures searchFocused <==> KeyboardShortcuts.Fires(BoardShortcuts[1], e)
      ensures tasks == old(tasks) && filteredTasks == old(filteredTasks)
      ensures showArchived == old(showArchived) && sortConfig == old(sortConfig)
    {
      var fired, _ := KeyboardShortcuts.HandleKeyDown(BoardShortcuts, e);
      searchFocused := false;
      var i := 0;
      while i < |fired|
        invariant 0 <= i <= |fired|
        invariant (0 in fired[..i]) ==> (quickAddOpen || 2 in fired[..i])
        invariant (2 in fired[..i]) ==> !quickAddOpen
        invariant !(0 in fired[..i]) && !(2 in fired[..i]) ==> quickAddOpen == old(quickAddOpen)
        invariant searchFocused <==> 1 in fired[..i]
        invariant tasks == old(tasks) && filteredTasks == old(filteredTasks)
        invariant showArchived == old(showArchived) && sortConfig == old(sortConfig)
      {
        assert fired[..i + 1] == fired[..i] + [fired[i]];
        if fired[i] == 0 {
          quickAddOpen := true;
        } else if fired[i] == 1 {
          searchFocused := true;
        } else if fired[i] == 2 {
          quickAddOpen := false;
        }
        i := i + 1;
      }
      assert fired[..i] == fired;
      if KeyboardShortcuts.Fires(BoardShortcuts[0], e) && KeyboardShortcuts.Fires(BoardShortcuts[2], e) {
        AtMostOneBoardShortcut(e, 0, 2);
      }
    }
  }
}
