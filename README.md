# Kanban-AI task views and API ladders, modelled in Dafny

Kanban-AI is a Next.js Kanban board with sprints. This project models the
logic between the records the server sends and what the board shows, and the
request ladders of the main API handlers:

- **Task sort** (`sortTasks`): a sorted copy of the task list by priority, due
  date, assignee or creation time, ascending or descending. JavaScript's
  `Array.prototype.sort` is stable. It is modelled by a stable insertion sort
  over the same comparator (module `StableSort`). For a comparator that is a
  consistent total preorder, a stable sort's output is fixed.
- **Search and facet filter** (`TaskSearchFilter`):
  - a case-insensitive substring search on title or description;
  - priority, status and assignee facets, with OR inside a facet and AND
    across facets; the value `unassigned` stands for tasks without an assignee;
  - a labels facet that is counted but never filters;
  - the component's state (`searchTerm`, `filters`, the list it publishes) as
    the class `FilterPanel`.
- **Board view** (`BoardView`):
  - the non-archived tasks;
  - the archived toggle and the sort handler;
  - the optimistic drag-and-drop update, with its `PATCH` and rollback;
  - the partition of the filtered tasks into columns;
  - the board's keyboard shortcuts;
  - all of the above as the class `BoardViewState`.
- **Sprint page**:
  - the grouping `reduce` of tasks by sprint id, an imperative loop over a
    dictionary;
  - the sprint comparator: active first, completed last, otherwise by start
    date;
  - the backlog of tasks without a sprint;
  - the lifecycle buttons of a sprint card (planned → active → completed) and
    its status request, as the class `SprintCard`.
- **Keyboard shortcuts** (`useKeyboardShortcuts`):
  - the match predicate: case-insensitive key, ctrl/meta, shift, alt;
  - the text-field rule for non-Escape keys;
  - the `forEach` that fires every matching shortcut in list order.
- **API handlers**: `POST /api/tasks`, `GET`/`POST /api/boards`,
  `GET`/`POST /api/sprints` and `GET`/`POST /api/comments`. Each handler is a
  function from an abstract request to a status and a created record. The
  request is the session, the parsed body (`None` when it is not JSON) and the
  user the email lookup found. Each handler is proved to answer with the status
  of the first failing rung of an explicit ladder (`ApiCommon.Ladder`).

Conventions:

- Dates are integers.
- Strings are sequences of characters.
- Lowercasing is ASCII lowercasing.
- `localeCompare` is code-point lexicographic order.
- JavaScript truthiness of optional strings is explicit: `Some("")` is falsy.

On these points the model follows the code as written:

- A drop on the same column and index is not short-circuited: the empty `if`
  falls through, so the task is re-statused and a `PATCH` is still sent.
- The empty "Sort by..." option calls the sort handler with key `""` and an
  undefined direction. The handler records that choice, and the comparator
  matches no `case`, so every comparison is 0 and the list keeps its order.
- The rollback after a thrown `fetch` restores `initialTasks`, including
  archived tasks, not the pre-drag list. A non-OK response does not roll back.
- `POST /api/comments` gives no status, so a created comment is answered with 200.
- A task priority outside `low`/`medium`/`high` fails the schema's enum
  validation. The handler's `catch` then answers 500.

## Model

| member | source | states |
|---|---|---|
| `Types.ParsePriority` | models/Task.ts:28-32 | Only the three enum names parse, each to the priority spelled that way; every other string is rejected |
| `TaskSort.PriorityWeight` | components/board/TaskSort.tsx:59-60 | Weights lie in 1..3; low alone weighs 1 and high alone weighs 3 |
| `TaskSort.SortTasks` | components/board/TaskSort.tsx:49-82 | The result is a permutation of the input list |
| `TaskSort.ComparatorConsistent` | components/board/TaskSort.tsx:54-79 | For every key and direction, the comparator is a consistent total preorder on the tasks: antisymmetric, reflexive, transitive |
| `TaskSort.SortTasksSorted` | components/board/TaskSort.tsx:54-79 | Every earlier task compares at most 0 against every later task |
| `TaskSort.SortTasksStable` | components/board/TaskSort.tsx:54 | Tasks that compare equal to a given task appear in the same relative order as in the input |
| `TaskSort.PriorityOrder` | components/board/TaskSort.tsx:58-61 | By priority, weights never decrease in `asc` and never increase in `desc` |
| `TaskSort.UndatedLast` | components/board/TaskSort.tsx:62-65 | By due date, in every direction, no dated task follows an undated one |
| `TaskSort.DatedOrder` | components/board/TaskSort.tsx:66-67 | By due date, dated tasks are in date order: earliest first in `asc`, latest first in `desc` |
| `TaskSort.UndatedKeepInputOrder` | components/board/TaskSort.tsx:63 | For any list and direction, the undated tasks of the result are exactly the undated tasks of the input, in input order |
| `TaskSort.NoneUndated` | components/board/TaskSort.tsx:63 | A list with no undated task has no undated sub-list |
| `TaskSort.TiesAreUndated` | components/board/TaskSort.tsx:63 | Under the due-date comparator, the tasks tying with an undated task are exactly the undated tasks |
| `TaskSort.UnassignedPlacement` | components/board/TaskSort.tsx:70 | By assignee, unassigned tasks come before assigned ones in `asc` and after them in any other direction |
| `TaskSort.NoKeyKeepsOrder` | components/board/TaskSort.tsx:24-33 | With the empty "Sort by..." option, in any direction, the sorted list is the input list unchanged |
| `StableSort.SortAllTies` | components/board/TaskSort.tsx:54 | When every pair compares 0, the stable sort returns its input unchanged |
| `TaskSort.DescNegatesAsc` | components/board/TaskSort.tsx:78 | Outside the undated early returns, the `desc` comparison is the negation of the `asc` one |
| `TaskSortExamples.PriorityDescExample` | components/board/TaskSort.tsx:58-61 | Priorities low, high, medium sorted `desc` give high, medium, low |
| `TaskSortExamples.DueDateAscExample` | components/board/TaskSort.tsx:62-67 | An undated task followed by two dated ones, sorted `asc`, gives the two dates in order, then the undated task |
| `TaskSortExamples.DueDateDescExample` | components/board/TaskSort.tsx:62-67 | The same list sorted `desc` gives the later date, the earlier date, then the undated task |
| `StableSort.SortSorted` | components/board/TaskSort.tsx:54 | For a consistent comparator, the stable sort's output is ordered |
| `StableSort.SortStable` | components/board/TaskSort.tsx:54 | For a consistent comparator, the stable sort keeps the input order of every group of equal elements |
| `Text.LowerIdempotent` | components/board/TaskSearchFilter.tsx:33-34 | Lowercasing twice is lowercasing once |
| `Text.ContainsIffOccurs` | components/board/TaskSearchFilter.tsx:33-34 | The substring test is true exactly when the needle occurs at some position of the haystack |
| `Text.LexCompareTransitive` | components/board/TaskSort.tsx:70 | The assignee order is transitive |
| `Text.LexCompareAntisymmetric` | components/board/TaskSort.tsx:70 | Swapping the arguments of the assignee order negates the result |
| `Text.LexCompareZeroIffEqual` | components/board/TaskSort.tsx:70 | The assignee order is 0 exactly for equal strings |
| `Text.EmptyIsLeast` | components/board/TaskSort.tsx:70 | The empty string, the key of an unassigned task, is the least key |
| `TaskSearchFilter.ApplyFiltersIsOneFilter` | components/board/TaskSearchFilter.tsx:27-59 | The chain of up to four filters equals a single filter by the conjunction of the active criteria |
| `TaskSearchFilter.ApplyFiltersSpec` | components/board/TaskSearchFilter.tsx:27-59 | The result is an order-preserving subsequence of the tasks, and a task is kept exactly when it meets every active criterion |
| `TaskSearchFilter.KeptTaskMeetsCriteria` | components/board/TaskSearchFilter.tsx:38-59 | A kept task matches a non-empty search and is in every non-empty facet: priority, status, and its assignee or `unassigned` |
| `TaskSearchFilter.ApplyFiltersIdempotent` | components/board/TaskSearchFilter.tsx:25-64 | Filtering the output again with the same search and facets changes nothing |
| `TaskSearchFilter.NoCriteriaKeepsAll` | components/board/TaskSearchFilter.tsx:30-53 | With an empty search and empty priority, status and assignee facets, the result is the whole list, whatever the labels |
| `TaskSearchFilter.WhitespaceSearchFilters` | components/board/TaskSearchFilter.tsx:30-35 | A search of one space is not trimmed: it drops a task whose title has no space and that has no description |
| `TaskSearchFilter.MatchesSearchIsSubstring` | components/board/TaskSearchFilter.tsx:31-35 | A task matches exactly when the lowercased search occurs in its lowercased title, or in its lowercased description when it has one |
| `TaskSearchFilter.SearchIgnoresCase` | components/board/TaskSearchFilter.tsx:33-34 | Searching for a string and for its lowercase give the same result |
| `TaskSearchFilter.LabelsIgnored` | components/board/TaskSearchFilter.tsx:38-59 | The labels facet never changes the result |
| `TaskSearchFilter.RemoveAllCount` | components/board/TaskSearchFilter.tsx:81 | Removing a value drops exactly its occurrences |
| `TaskSearchFilter.Toggle` | components/board/TaskSearchFilter.tsx:80-84 | A selected value is removed with all its copies, keeping the others in order; an unselected value is appended; no other value changes membership |
| `TaskSearchFilter.ToggleFacet` | components/board/TaskSearchFilter.tsx:76-86 | Only the named facet changes, and it is toggled |
| `TaskSearchFilter.ToggleTwice` | components/board/TaskSearchFilter.tsx:80-84 | Toggling a value twice restores every value's membership |
| `TaskSearchFilter.ActiveFilterCount` | components/board/TaskSearchFilter.tsx:101-105 | The count is 0 exactly when all four facets are empty, and labels count towards it |
| `TaskSearchFilter.FilterPanel.constructor` | components/board/TaskSearchFilter.tsx:16-23 | Starts with an empty search, empty facets, and the tasks published unfiltered |
| `TaskSearchFilter.FilterPanel.TasksChanged` | components/board/TaskSearchFilter.tsx:66-69 | New tasks are re-filtered with the current search and facets, which are kept |
| `TaskSearchFilter.FilterPanel.HandleSearch` | components/board/TaskSearchFilter.tsx:71-74 | Records the search and publishes the tasks filtered with it and the current facets |
| `TaskSearchFilter.FilterPanel.ToggleFilter` | components/board/TaskSearchFilter.tsx:76-88 | Toggles one value in one facet and publishes the tasks filtered with the new facets |
| `TaskSearchFilter.FilterPanel.ClearFilters` | components/board/TaskSearchFilter.tsx:90-99 | Empties the search and every facet, and publishes the tasks unfiltered |
| `BoardView.ActiveTasks` | components/board/BoardView.tsx:25 | The non-archived tasks, in their original order |
| `BoardView.FindIndex` | components/board/BoardView.tsx:90 | `findIndex`: -1 exactly when no task has the id, otherwise the first index holding it |
| `BoardView.FindTaskIndex` | components/board/BoardView.tsx:90 | The search loop returns `findIndex`'s answer |
| `BoardView.MoveToColumn` | components/board/BoardView.tsx:101-105 | Same length and ids; tasks with the dragged id get the destination status; every other task is unchanged |
| `BoardView.MoveAbsentIsIdentity` | components/board/BoardView.tsx:101-105 | Moving an id no task has changes nothing |
| `BoardView.MoveIdempotent` | components/board/BoardView.tsx:101-105 | Moving a task twice to the same column is moving it once |
| `BoardView.MoveLandsInColumn` | components/board/BoardView.tsx:101-105 | After the move, the dragged task is shown in the destination column and in no other |
| `BoardView.MoveAfterReplace` | components/board/BoardView.tsx:89-105 | Re-statusing the task at its index first and then mapping gives the same list as the map alone |
| `BoardView.SpliceReplace` | components/board/BoardView.tsx:98-99 | At a valid index, deleting one element and inserting one at the same index replaces that element |
| `BoardView.SpliceFromEnd` | components/board/BoardView.tsx:98-99 | With index -1, the same pair of calls drops the last element and inserts the new one before the old second-to-last |
| `BoardView.RestatusCards` | components/board/BoardView.tsx:101-105 | The re-status map over a list of cards is the move of the underlying tasks |
| `BoardView.DragAsWrittenWhenPresent` | components/board/BoardView.tsx:89-105 | When the dragged id is present, the code as written yields the tasks moved to the destination |
| `BoardView.DragAsWrittenWhenAbsent` | components/board/BoardView.tsx:89-99 | When the id is absent, the result is never the move. With two or more tasks the last task is lost and a status-only entry sits second to last; with one task or none the list becomes that entry alone |
| `BoardView.DragAsWrittenShortList` | components/board/BoardView.tsx:89-99 | With an absent id and at most one task, the result is the status-only entry alone |
| `BoardView.DragAsWrittenLongList` | components/board/BoardView.tsx:89-99 | With an absent id and two or more tasks, the last task is lost and the status-only entry is second to last |
| `BoardView.DragGuardedIsMove` | components/board/BoardView.tsx:89-105 | With the splices done only for a found index, every drag yields exactly the move |
| `BoardView.ColumnTasks` | components/board/BoardView.tsx:149-152 | A column shows exactly the filtered tasks whose status is its id, in filtered order |
| `BoardView.ColumnLists` | components/board/BoardView.tsx:149-152 | One list per column, each that column's tasks |
| `BoardView.ShownIn` | components/board/BoardView.tsx:149-152 | A task is in a column's list exactly when it is filtered and its status is the column's id, so a task matching no column is shown nowhere |
| `BoardView.ShownOnce` | components/board/BoardView.tsx:149-152 | With distinct column ids, a task is shown in at most one column |
| `BoardView.ShownCount` | components/board/BoardView.tsx:149-152 | With distinct column ids, the columns hold as many cards as there are filtered tasks whose status is some column's id |
| `BoardView.AtMostOneBoardShortcut` | components/board/BoardView.tsx:54-75 | No key event fires two of the board's three shortcuts |
| `BoardView.BoardViewState.constructor` | components/board/BoardView.tsx:25-33 | Both lists start as the active tasks; archived hidden, no sort, quick-add closed |
| `BoardView.BoardViewState.HandleSort` | components/board/BoardView.tsx:36-40 | Records the sort and replaces the filtered list by its sorted copy, a permutation of it; the empty option leaves the list as it was; nothing else changes |
| `BoardView.BoardViewState.ToggleArchived` | components/board/BoardView.tsx:42-51 | Flips the flag; turning it on shows all initial tasks in both lists; turning it off shows the active tasks; the sort and quick-add state are kept |
| `BoardView.BoardViewState.OnDragEnd` | components/board/BoardView.tsx:77-120 | No destination: no `PATCH` and no task changes; the filtered list, flags, sort and quick-add state are always kept. Otherwise the `PATCH` carries the destination status, even for a same-place drop. If the fetch responds, the tasks are moved; if it throws, the tasks are reset to the initial tasks |
| `BoardView.BoardViewState.OnKeyDown` | components/board/BoardView.tsx:54-75 | `n` opens quick-add, Escape closes it, `/` focuses the search, and the task lists do not change |
| `SprintList.SprintGroup` | components/sprint/SprintList.tsx:18-26 | A sprint's group is the tasks carrying its id, in input order |
| `SprintList.GroupBySprint` | components/sprint/SprintList.tsx:18-26 | The loop builds the fold's dictionary: a key for exactly the sprint ids some task carries, each holding that sprint's group |
| `SprintList.GroupStep` | components/sprint/SprintList.tsx:19-24 | One `reduce` step, which creates the key if missing and pushes the task, turns the grouping of a prefix into the grouping of the longer prefix |
| `SprintList.GroupMapGroups` | components/sprint/SprintList.tsx:18-26 | The fold's dictionary has a key for exactly the sprint ids some task carries, each holding that sprint's tasks in input order |
| `SprintList.TasksOfSprintIsGroup` | components/sprint/SprintList.tsx:59 | Each sprint card is handed exactly its sprint's tasks in input order, and `[]` when none |
| `SprintList.NoSprintNoGroup` | components/sprint/SprintList.tsx:19 | A task without a sprint id is in no group |
| `SprintList.TotalSizeCounts` | components/sprint/SprintList.tsx:18-26 | Over distinct sprint ids, the group sizes add up to the number of tasks in one of those sprints |
| `SprintList.GroupSizesSum` | components/sprint/SprintList.tsx:18-26 | Over the dictionary's keys, the group sizes add up to the number of tasks with a sprint id |
| `SprintList.SortSprints` | components/sprint/SprintList.tsx:29 | The sorted sprints are a permutation of the input, which is not reordered |
| `SprintList.StatusRank` | components/sprint/SprintList.tsx:30-33 | Active ranks first, completed last |
| `SprintList.SprintComparatorConsistent` | components/sprint/SprintList.tsx:29-35 | With at most one active sprint, the comparator is a consistent preorder |
| `SprintList.SortedSprintsOrder` | components/sprint/SprintList.tsx:29-35 | With at most one active sprint: the active sprint first, then planned, then completed, and within planned or within completed by start date |
| `SprintList.TwoActiveInconsistent` | components/sprint/SprintList.tsx:30-31 | Two different active sprints each sort before the other, so the comparator is inconsistent |
| `BacklogView.Backlog` | components/sprint/BacklogView.tsx:17 | The backlog is exactly the tasks without a sprint id, in input order |
| `BacklogView.IssueCount` | components/sprint/BacklogView.tsx:17-28 | The count shown is the number of tasks minus those with a sprint id |
| `BacklogView.EmptyMessageIff` | components/sprint/BacklogView.tsx:35-38 | The empty message shows exactly when the count is 0, that is when every task has a sprint |
| `BacklogView.BacklogOrSprint` | components/sprint/BacklogView.tsx:17-21 | Each task is in the backlog exactly when it has no sprint, and otherwise in its own sprint's group, never both |
| `BacklogView.BacklogAndGroupsCountAll` | components/sprint/BacklogView.tsx:17-28 | The backlog count plus the group sizes is the number of tasks |
| `SprintItem.Requested` | components/sprint/SprintItem.tsx:109-119 | No button requests `planned` |
| `SprintItem.OfferedActions` | components/sprint/SprintItem.tsx:107-126 | Start is offered exactly for planned sprints and Complete exactly for active ones; completed sprints get none; every offer moves one stage forward |
| `SprintItem.OnlyForward` | components/sprint/SprintItem.tsx:107-126 | An enabled button never acts on a completed sprint and requests the next stage |
| `SprintItem.ShortRef` | components/sprint/SprintItem.tsx:170 | The reference is the id's last four characters, or the whole id when shorter |
| `SprintItem.SprintCard.constructor` | components/sprint/SprintItem.tsx:31 | A card starts not loading |
| `SprintItem.SprintCard.HandleStatusChange` | components/sprint/SprintItem.tsx:35-52 | Sends only the new status for this sprint, refreshes exactly on an OK response, and ends not loading |
| `KeyboardShortcuts.HandleKeyDown` | hooks/useKeyboardShortcuts.ts:16-37 | Fires exactly the matching shortcuts that the text-field rule lets through, in list order, and prevents the default once per fired shortcut |
| `KeyboardShortcuts.KeyMatchIgnoresCase` | hooks/useKeyboardShortcuts.ts:18 | Matching ignores the case of the event key and of the shortcut key |
| `KeyboardShortcuts.SaveFiresOnCtrlOrMeta` | hooks/useKeyboardShortcuts.ts:48 | Outside a text field and without shift or alt, S fires Save exactly when ctrl or meta is held |
| `KeyboardShortcuts.HelpNeedsShift` | hooks/useKeyboardShortcuts.ts:49 | Help fires only with shift held |
| `KeyboardShortcuts.EscapeFiresInTextFields` | hooks/useKeyboardShortcuts.ts:25-31 | In a text field, a matching shortcut fires exactly when it is Escape |
| `ApiCommon.FirstFailure` | app/api/tasks/route.ts:11-36 | The index of the first failing rung: every earlier rung passes |
| `ApiCommon.Ladder` | app/api/tasks/route.ts:11-46 | The answer is the status of the first failing rung, or the success status when all pass |
| `ApiCommon.LadderFirstFailureWins` | app/api/tasks/route.ts:11-36 | Once a rung fails after passing rungs, the later rungs do not matter |
| `ApiTasks.PriorityOf` | app/api/tasks/route.ts:42 | An absent or empty priority becomes medium; a given one is kept when it names an enum value and rejected otherwise |
| `ApiTasks.CreateTask` | app/api/tasks/route.ts:38-46 | A record exactly on 201, holding the given title, board and status, the defaulted priority, the creator as assignee, no sprint, not archived, order 0 |
| `ApiTasks.CreateTaskFollowsLadder` | app/api/tasks/route.ts:10-36 | 401, then 500 for an unreadable body, 400, 404, 403 for a viewer, 500 for a bad priority, and 201 when all pass |
| `ApiTasks.ViewerCannotCreateTask` | app/api/tasks/route.ts:31-36 | A viewer never gets 201, and gets 403 once signed in with a complete body |
| `ApiTasks.DefaultPriorityIsMedium` | app/api/tasks/route.ts:42 | A permitted request without a priority creates a medium-priority task |
| `ApiBoards.ListBoards` | app/api/boards/route.ts:8-22 | 200 exactly with a query for the boards the user owns |
| `ApiBoards.ListBoardsFollowsLadder` | app/api/boards/route.ts:10-19 | 401, then 404, then 200, viewers included |
| `ApiBoards.DefaultColumns` | app/api/boards/route.ts:57-62 | Four columns `todo`, `in-progress`, `review`, `done`, with orders 0 to 3 and distinct ids |
| `ApiBoards.CreateBoard` | app/api/boards/route.ts:54-65 | A record exactly on 201, with the given title, the user as owner and the default columns |
| `ApiBoards.CreateBoardFollowsLadder` | app/api/boards/route.ts:32-52 | 401, then 500 for an unreadable body, 400 for a falsy title, 404, 403 for a viewer, and 201 |
| `ApiSprints.ListSprints` | app/api/sprints/route.ts:8-24 | 200 exactly with a query for the given board's sprints |
| `ApiSprints.ListSprintsFollowsLadder` | app/api/sprints/route.ts:11-20 | 401 before 400 for a missing board id |
| `ApiSprints.CreateSprint` | app/api/sprints/route.ts:62-71 | A record exactly on 201, with status planned and the given name, dates, board and optional goal |
| `ApiSprints.CreateSprintFollowsLadder` | app/api/sprints/route.ts:36-60 | 401, then 500 for an unreadable body, 400 for a falsy name, start, end or board, 404, 403 for a viewer, and 201 |
| `ApiSprints.EndBeforeStartAccepted` | app/api/sprints/route.ts:44-69 | A sprint ending before it starts is created |
| `ApiComments.ListComments` | app/api/comments/route.ts:8-27 | 200 exactly with a query for the given task's comments |
| `ApiComments.ListCommentsFollowsLadder` | app/api/comments/route.ts:13-20 | 400 for a missing task id before 401, then 200 |
| `ApiComments.ListCommentsBadRequestFirst` | app/api/comments/route.ts:13-15 | An anonymous request without a task id is told 400 |
| `ApiComments.CreateComment` | app/api/comments/route.ts:58-69 | A record exactly on 200, with the given content and task and the user as author |
| `ApiComments.CreateCommentFollowsLadder` | app/api/comments/route.ts:39-56 | 401, then 500 for an unreadable body, 400, 404, and 200 |
| `ApiComments.ViewersMayComment` | app/api/comments/route.ts:37-69 | A viewer's complete request succeeds |

## Left out

- Rendering, dialogs, the `Column` and card components, and the board's tab
  switch are JSX with no logic of their own.
- The `fetch` calls are left out. So are `router.refresh`, toasts,
  `console.error` and the search-input `focus()`. They are browser and network
  I/O. A fetch is abstracted to "responded (ok or not)" or "threw". The
  requests the code sends are returned as values.
- React's asynchronous state updates and effect ordering are left out. The
  `useEffect` that re-runs `applyFilters` is modelled as the sequential method
  `FilterPanel.TasksChanged`. The time between a drop and the fetch's outcome
  is not modelled.
- `SprintItem.SprintCard.HandleStatusChange`: `isLoading` is true only while
  the request is in flight. The model states only that it ends false. The
  buttons' `disabled` state is modelled by `SprintItem.Enabled`.
- `handleDelete`, the edit menu and the release-notes menu of a sprint card are
  left out. They are confirm dialogs and fetches.
- `new Date(...).getTime()` is left out: dates are integers. So is Unicode
  `toLowerCase`: lowercasing is ASCII. `localeCompare` becomes code-point order.
- The database is left out: `connectDB`, `User.findOne`, `Board.find`, and the
  queries' `sort` and `populate`. Lookups are parameters. `GET` answers are
  query descriptors. Server-side sort order is not modelled.
- Database and cast failures are left out: an ill-formed object id or date
  string, and a lost connection. Any of them makes a handler's `catch` answer
  500. The model covers two 500 paths: an unparsable JSON body, and a task
  priority outside the enum.
- `TaskSort.SortTasks`: `Array.prototype.sort` is modelled by a stable
  insertion sort. This is exact when the comparator is a consistent preorder,
  which `TaskSort.ComparatorConsistent` proves for every task comparator. For
  two or more active sprints, the sprint comparator is inconsistent
  (`SprintList.TwoActiveInconsistent`). The engine's order is then
  unspecified, and the model's order is one possibility.
- `BoardView.BoardViewState.OnDragEnd` uses the guarded splice from the
  finding below. It therefore does not reproduce the lost task that the code
  as written produces for an unknown `draggableId`. That case is modelled
  separately by `BoardView.DragAsWritten`.
- Authentication, the AI routes, the users and notifications routes, and the
  client stores are outside the modelled core.

## Findings

| source | as written | input that shows it | evidently intended | confidence | as-written member | corrected member |
|---|---|---|---|---|---|---|
| components/board/BoardView.tsx:89-99 | `findIndex` yields -1 for an unknown `draggableId`, and `splice(-1, 1)` then `splice(-1, 0, updated)` act on the end of the list | any task list with no task of the dragged id (a stale or foreign card id): with two or more tasks the last is lost, with one it is replaced, with none a stray entry appears | leave the list as it is, apart from the status map | low, not executed: the board renders only cards from `tasks`, so only a stale id reaches it | `BoardView.DragAsWrittenWhenAbsent` | `BoardView.DragGuardedIsMove` |
