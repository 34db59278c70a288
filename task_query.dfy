/** Task queries as the report and search procedures write them: a Prisma `where` object over
    the task table, modelled as a condition a task row satisfies, and the filter conventions
    the procedures share (a filter value applies when it is truthy and not "all"). */
module TaskQuery {
  import opened Wrappers
  import opened Seqs
  import opened Strings
  import opened Schema

  function StatusKey(t: Task): string { StatusName(t.status) }

  function PriorityKey(t: Task): string { PriorityName(t.priority) }

  function TaskCreatedAt(t: Task): int { t.createdAt }

  /** A numeric `where` value: a number, or the `NaN` that `parseInt` gives for a text without
      digits, which equals no stored id. */
  datatype IdFilter = Id(n: int) | NotANumber

  /** `parseInt(projectId)`. */
  function ProjectIdFilter(s: string): (r: IdFilter)
    ensures r == NotANumber <==> ParseInt(s).None?
    ensures r.Id? ==> ParseInt(s) == Some(r.n)
  {
    match ParseInt(s)
    case None => NotANumber
    case Some(n) => Id(n)
  }

  /** `{ contains: text, mode: "insensitive" }`: the text occurs in the value, ignoring the
      case of ASCII letters. */
  predicate ContainsInsensitive(value: string, text: string)
  {
    Contains(ToLower(value), ToLower(text))
  }

  /** One flat Prisma condition on a task: every present field must hold.
      - `createdBy: { id }` and `createdById` are the same condition;
      - `assignedToId: { not: null }` (`assignedNotNull`) asks for some assignee id;
      - `project: { createdById }` asks for the task's project row to exist and be created by
        that user;
      - `title` and `description` hold a case-insensitive `contains`; a missing description
        contains nothing. */
  datatype Clause = Clause(
    createdById: Option<string>, status: Option<string>, priority: Option<string>,
    projectId: Option<IdFilter>, assignedToId: Option<string>, assignedNotNull: bool,
    projectCreatedById: Option<string>, titleContains: Option<string>,
    descriptionContains: Option<string>)

  /** The clause without fields, which every task satisfies. */
  const AnyTask := Clause(None, None, None, None, None, false, None, None, None)

  /** A `where` object: its own fields and, when present, an `OR` list of which one clause must
      hold. */
  datatype TaskWhere = TaskWhere(all: Clause, anyOf: Option<seq<Clause>>)

  predicate ClauseHolds(c: Clause, projects: seq<Project>, t: Task)
  {
    && (c.createdById.Some? ==> t.createdById == c.createdById.value)
    && (c.status.Some? ==> StatusName(t.status) == c.status.value)
    && (c.priority.Some? ==> PriorityName(t.priority) == c.priority.value)
    && (c.projectId.Some? ==> c.projectId.value == Id(t.projectId))
    && (c.assignedToId.Some? ==> t.assignedToId == c.assignedToId)
    && (c.assignedNotNull ==> t.assignedToId.Some?)
    && (c.projectCreatedById.Some? ==>
          FindProject(projects, t.projectId).Some?
          && FindProject(projects, t.projectId).value.createdById == c.projectCreatedById.value)
    && (c.titleContains.Some? ==> ContainsInsensitive(t.title, c.titleContains.value))
    && (c.descriptionContains.Some? ==>
          t.description.Some? && ContainsInsensitive(t.description.value, c.descriptionContains.value))
  }

  predicate WhereHolds(w: TaskWhere, projects: seq<Project>, t: Task)
  {
    && ClauseHolds(w.all, projects, t)
    && (w.anyOf.Some? ==> exists i :: 0 <= i < |w.anyOf.value| && ClauseHolds(w.anyOf.value[i], projects, t))
  }

  function Holds(w: TaskWhere, projects: seq<Project>): Task -> bool
  {
    (t: Task) => WhereHolds(w, projects, t)
  }

  /** The enumeration columns accept only the names of their values. */
  predicate ClauseEnumsKnown(c: Clause)
  {
    && (c.status.Some? ==> ParseStatus(c.status.value).Some?)
    && (c.priority.Some? ==> ParsePriority(c.priority.value).Some?)
  }

  predicate EnumsKnown(w: TaskWhere)
  {
    && ClauseEnumsKnown(w.all)
    && (w.anyOf.Some? ==> forall i :: 0 <= i < |w.anyOf.value| ==> ClauseEnumsKnown(w.anyOf.value[i]))
  }

  /** `task.findMany({ where })`: a status or priority that is not a value of its enumeration
      is rejected by the query layer; otherwise the tasks that satisfy the condition, in table
      order. */
  function FindTasks(tasks: seq<Task>, projects: seq<Project>, w: TaskWhere): (r: Result<seq<Task>>)
    ensures r.Err? <==> !EnumsKnown(w)
    ensures r.Err? ==> r.error.ServerError?
    ensures r.Ok? ==> forall i :: 0 <= i < |r.value| ==> r.value[i] in tasks && WhereHolds(w, projects, r.value[i])
    ensures r.Ok? ==> forall i :: 0 <= i < |tasks| && WhereHolds(w, projects, tasks[i]) ==> tasks[i] in r.value
  {
    if !EnumsKnown(w) then Err(ServerError("Invalid value for enum filter"))
    else Ok(Filter(tasks, Holds(w, projects)))
  }

  /** A filter value is applied when it is truthy and not "all". */
  predicate Active(f: Option<string>) { Present(f) && f.value != "all" }

  /** The active status and priority filters name values of their enumerations. */
  predicate FilterEnumsKnown(status: Option<string>, priority: Option<string>)
  {
    && (Active(status) ==> ParseStatus(status.value).Some?)
    && (Active(priority) ==> ParsePriority(priority.value).Some?)
  }

  /** A task passes the active status and priority filters. */
  predicate PassesFilters(status: Option<string>, priority: Option<string>, t: Task)
  {
    && (Active(status) ==> StatusName(t.status) == status.value)
    && (Active(priority) ==> PriorityName(t.priority) == priority.value)
  }
}
