/** The client-side records: Task, Board (with its columns) and Sprint, and the
    enumerations their schemas fix. Dates are instants in milliseconds. */
module Types {
  import opened Common

  /** Task priority; the schema default is `medium`. */
  datatype Priority = Low | Medium | High

  /** The wire spelling of a priority, as the facet filter compares it. */
  function PriorityName(p: Priority): (name: string)
    ensures name in ["low", "medium", "high"]
  {
    match p
    case Low => "low"
    case Medium => "medium"
    case High => "high"
  }

  /** Reading a priority string: the three names of the schema enum and nothing else. */
  function ParsePriority(name: string): (p: Option<Priority>)
    ensures p.Some? ==> PriorityName(p.value) == name
    ensures p.None? ==> name !in ["low", "medium", "high"]
  {
    if name == "low" then Some(Low)
    else if name == "medium" then Some(Medium)
    else if name == "high" then Some(High)
    else None
  }

  datatype Subtask = Subtask(id: string, title: string, completed: bool)

  datatype Task = Task(
    id: string,
    title: string,
    description: Option<string>,
    status: string,             // the id of the board column it sits in
    priority: Priority,
    boardId: string,
    assignee: Option<string>,   // a user id
    sprintId: Option<string>,
    storyPoints: Option<int>,
    dueDate: Option<int>,       // an absent or empty date string is None
    labels: seq<string>,
    subtasks: seq<Subtask>,
    order: int,
    archived: bool,             // an absent flag reads as false
    createdAt: int,
    updatedAt: int)

  /** `task.assignee` is truthy. */
  predicate IsAssigned(t: Task) {
    Truthy(t.assignee)
  }

  /** `task.sprintId` is truthy. */
  predicate InSprint(t: Task) {
    Truthy(t.sprintId)
  }

  datatype Column = Column(id: string, title: string, order: int)

  datatype Board = Board(id: string, title: string, owner: string, columns: seq<Column>,
                         createdAt: int, updatedAt: int)

  /** Sprint lifecycle; the schema default is `planned`. */
  datatype SprintStatus = Planned | Active | Completed

  datatype Sprint = Sprint(
    id: string,
    name: string,
    goal: Option<string>,
    startDate: int,
    endDate: int,
    status: SprintStatus,
    boardId: string,
    createdAt: int,
    updatedAt: int)

  /** User roles; the schema default is `viewer`. */
  datatype Role = Admin | ProjectManager | Developer | Viewer

  const DefaultRole: Role := Viewer
}
