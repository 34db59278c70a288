/** The report procedures over the caller's tasks: breakdowns by status, priority, project and
    assignee, the summary, the CSV export, the overdue report, and the per-project and per-user
    overviews with the task lists behind them. */
module ReportRouter {
  import opened Wrappers
  import opened Seqs
  import opened Strings
  import opened Schema
  import opened TaskRouter
  import opened ProjectRouter
  import opened TaskQuery

  /** `task.project?.name ?? fallback`: the name of the task's project, or `fallback` when the
      project row is not there. */
  function ProjectNameOr(projects: seq<Project>, fallback: string): Task -> string
  {
    (t: Task) => match FindProject(projects, t.projectId)
      case None => fallback
      case Some(p) => p.name
  }

  function FindUser(users: seq<User>, id: string): Option<User>
  {
    Find(users, (u: User) => u.id == id)
  }

  /** `task.assignedTo?.name ?? "Unassigned"`: a task without an assignee, with an assignee row
      that is not there, or with an assignee without a name counts as unassigned. */
  function AssigneeName(users: seq<User>): Task -> string
  {
    (t: Task) =>
      if t.assignedToId.None? then "Unassigned"
      else match FindUser(users, t.assignedToId.value)
        case None => "Unassigned"
        case Some(u) => u.name.GetOr("Unassigned")
  }

  /** A breakdown answer: its type tag and the counter per key. The generation time is not
      modelled. */
  datatype Breakdown = Breakdown(kind: string, data: map<string, nat>)

  /** `tasksByStatus`: the caller's tasks counted by status name. */
  method TasksByStatus(tasks: seq<Task>, userId: string) returns (r: Breakdown)
    ensures r.kind == "STATUS"
    ensures r.data == Counts(MapSeq(TasksCreatedBy(tasks, userId), StatusKey))
  {
    var data := TallyBy(TasksCreatedBy(tasks, userId), StatusKey);
    r := Breakdown("STATUS", data);
  }

  /** `tasksByPriority`: the caller's tasks counted by priority name. */
  method TasksByPriority(tasks: seq<Task>, userId: string) returns (r: Breakdown)
    ensures r.kind == "PRIORITY"
    ensures r.data == Counts(MapSeq(TasksCreatedBy(tasks, userId), PriorityKey))
  {
    var data := TallyBy(TasksCreatedBy(tasks, userId), PriorityKey);
    r := Breakdown("PRIORITY", data);
  }

  /** `tasksByProject`: the caller's tasks counted by project name, "No Project" for a task
      whose project is not there. */
  method TasksByProject(tasks: seq<Task>, projects: seq<Project>, userId: string) returns (r: Breakdown)
    ensures r.kind == "PROJECT"
    ensures r.data == Counts(MapSeq(TasksCreatedBy(tasks, userId), ProjectNameOr(projects, "No Project")))
  {
    var data := TallyBy(TasksCreatedBy(tasks, userId), ProjectNameOr(projects, "No Project"));
    r := Breakdown("PROJECT", data);
  }

  /** `tasksByAssignee`: the caller's tasks counted by assignee name, "Unassigned" for a task
      without a named assignee. */
  method TasksByAssignee(tasks: seq<Task>, users: seq<User>, userId: string) returns (r: Breakdown)
    ensures r.kind == "ASSIGNEE"
    ensures r.data == Counts(MapSeq(TasksCreatedBy(tasks, userId), AssigneeName(users)))
  {
    var data := TallyBy(TasksCreatedBy(tasks, userId), AssigneeName(users));
    r := Breakdown("ASSIGNEE", data);
  }

  /** In every breakdown the counter of a key is the number of the caller's tasks with that
      key, and the counters add up to the number of the caller's tasks. */
  lemma BreakdownIsExact(tasks: seq<Task>, userId: string, key: Task -> string, k: string)
    ensures var mine := TasksCreatedBy(tasks, userId);
      && Get(Counts(MapSeq(mine, key)), k) == |Filter(mine, HasKey(key, k))|
      && SumOf(Distinct(MapSeq(mine, key)), Counts(MapSeq(mine, key))) == |mine|
  {
    BreakdownCounts(TasksCreatedBy(tasks, userId), key, k);
  }

  predicate ProjectMissing(projects: seq<Project>, t: Task) { FindProject(projects, t.projectId).None? }

  /** Every task whose project is not there is counted under "No Project". */
  lemma MissingProjectsUnderNoProject(tasks: seq<Task>, projects: seq<Project>, userId: string)
    ensures var mine := TasksCreatedBy(tasks, userId);
      |Filter(mine, (t: Task) => ProjectMissing(projects, t))|
        <= Get(Counts(MapSeq(mine, ProjectNameOr(projects, "No Project"))), "No Project")
  {
    var mine := TasksCreatedBy(tasks, userId);
    var key := ProjectNameOr(projects, "No Project");
    BreakdownCounts(mine, key, "No Project");
    FilterImplies(mine, (t: Task) => ProjectMissing(projects, t), HasKey(key, "No Project"));
  }

  /** Every task without an assignee is counted under "Unassigned". */
  lemma UnassignedUnderUnassigned(tasks: seq<Task>, users: seq<User>, userId: string)
    ensures var mine := TasksCreatedBy(tasks, userId);
      |Filter(mine, (t: Task) => t.assignedToId.None?)|
        <= Get(Counts(MapSeq(mine, AssigneeName(users))), "Unassigned")
  {
    var mine := TasksCreatedBy(tasks, userId);
    BreakdownCounts(mine, AssigneeName(users), "Unassigned");
    FilterImplies(mine, (t: Task) => t.assignedToId.None?, HasKey(AssigneeName(users), "Unassigned"));
  }

  predicate IsAssigned(t: Task) { Present(t.assignedToId) }

  predicate NotAssigned(t: Task) { !Present(t.assignedToId) }

  /** What `summary` answers; the generation time is not modelled. */
  datatype ReportSummary = ReportSummary(
    total: nat, completed: nat, pending: nat, completionRate: nat, assignedCount: nat, unassignedCount: nat,
    byStatus: map<string, nat>, byPriority: map<string, nat>, byProject: map<string, nat>)

  /** `summary`: the counts of the caller's tasks and three breakdowns. Pending tasks are the
      ones not completed and unassigned ones the ones without a (truthy) assignee, so both
      differences are counts of tasks. */
  method Summary(tasks: seq<Task>, projects: seq<Project>, userId: string) returns (r: ReportSummary)
    ensures var mine := TasksCreatedBy(tasks, userId);
      && r.total == |mine|
      && r.completed == |Filter(mine, IsCompleted)|
      && r.pending == r.total - r.completed == |Filter(mine, NotCompleted)|
      && r.assignedCount == |Filter(mine, IsAssigned)|
      && r.unassignedCount == r.total - r.assignedCount == |Filter(mine, NotAssigned)|
      && (r.total == 0 ==> r.completionRate == 0)
      && (r.total > 0 ==> r.completionRate == RoundedPercent(r.completed, r.total))
      && r.byStatus == Counts(MapSeq(mine, StatusKey))
      && r.byPriority == Counts(MapSeq(mine, PriorityKey))
      && r.byProject == Counts(MapSeq(mine, ProjectNameOr(projects, "No Project")))
  {
    var mine := TasksCreatedBy(tasks, userId);
    var completed := |Filter(mine, IsCompleted)|;
    var total := |mine|;
    FilterPartition(mine, IsCompleted, NotCompleted);
    var rate := if total > 0 then RoundedPercent(completed, total) else 0;
    var byStatus := TallyBy(mine, StatusKey);
    var byPriority := TallyBy(mine, PriorityKey);
    var byProject := TallyBy(mine, ProjectNameOr(projects, "No Project"));
    var assignedCount := |Filter(mine, IsAssigned)|;
    FilterPartition(mine, IsAssigned, NotAssigned);
    r := ReportSummary(total, completed, total - completed, rate, assignedCount, total - assignedCount,
                       byStatus, byPriority, byProject);
  }

  // ---------------------------------------------------------------------------------------
  // CSV export

  /** The optional filters of `exportTasksAsCSV`. */
  datatype ExportFilters = ExportFilters(
    status: Option<string>, priority: Option<string>, projectId: Option<string>, assignedToId: Option<string>)

  /** `input.filters?.field`: an absent filter object has no fields. */
  function FiltersOf(filters: Option<ExportFilters>): ExportFilters
  {
    filters.GetOr(ExportFilters(None, None, None, None))
  }

  /** The tasks the export selects: the caller's, passing every active filter. */
  predicate ExportSelects(userId: string, f: ExportFilters, t: Task)
  {
    && t.createdById == userId
    && PassesFilters(f.status, f.priority, t)
    && (Active(f.projectId) ==> ParseInt(f.projectId.value) == Some(t.projectId))
    && (Active(f.assignedToId) ==> t.assignedToId == f.assignedToId)
  }

  function ExportSelector(userId: string, f: ExportFilters): Task -> bool
  {
    (t: Task) => ExportSelects(userId, f, t)
  }

  /** The export's `whereConditions`: the creator, then each filter field set only when that
      filter is active. The condition holds of exactly the tasks the export selects. */
  method ExportWhere(userId: string, filters: Option<ExportFilters>) returns (w: TaskWhere)
    ensures w.anyOf.None?
    ensures var f := FiltersOf(filters);
      && (w.all.status.Some? <==> Active(f.status))
      && (w.all.priority.Some? <==> Active(f.priority))
      && (w.all.projectId.Some? <==> Active(f.projectId))
      && (w.all.assignedToId.Some? <==> Active(f.assignedToId))
    ensures EnumsKnown(w) <==> FilterEnumsKnown(FiltersOf(filters).status, FiltersOf(filters).priority)
    ensures forall projects, t :: WhereHolds(w, projects, t) <==> ExportSelects(userId, FiltersOf(filters), t)
  {
    var f := FiltersOf(filters);
    var c := AnyTask.(createdById := Some(userId));
    if Active(f.status) {
      c := c.(status := f.status);
    }
    if Active(f.priority) {
      c := c.(priority := f.priority);
    }
    if Active(f.projectId) {
      c := c.(projectId := Some(ProjectIdFilter(f.projectId.value)));
    }
    if Active(f.assignedToId) {
      c := c.(assignedToId := f.assignedToId);
    }
    w := TaskWhere(c, None);
  }

  const CSV_HEADERS: seq<string> := [
    "ID", "Title", "Description", "Status", "Priority", "Project", "Assigned To", "Created At",
    "Updated At", "Due Date"]

  /** A text field as the export writes it: in double quotes, each quote inside doubled. */
  function Quote(s: string): string
  {
    "\"" + EscapeQuotes(s) + "\""
  }

  /** A quoted field starts with a quote and reads back as the original text when what follows
      it is not another quote. */
  lemma QuoteReadsBack(s: string, rest: string)
    requires rest == [] || rest[0] != '"'
    ensures Quote(s)[0] == '"'
    ensures ReadQuoted(Quote(s)[1..] + rest) == Some((s, rest))
  {
    assert Quote(s)[1..] + rest == EscapeQuotes(s) + "\"" + rest;
    ReadQuotedEscape(s, rest);
  }

  /** The fields of one exported task; `iso` renders a time as `toISOString` does. */
  function CsvFields(t: Task, projects: seq<Project>, users: seq<User>, iso: int -> string): seq<string>
  {
    [NatToString(t.id), Quote(t.title), Quote(t.description.GetOr("")), StatusName(t.status),
     PriorityName(t.priority), ProjectNameOr(projects, "N/A")(t), AssigneeName(users)(t),
     iso(t.createdAt), iso(t.updatedAt), if t.dueDate.Some? then iso(t.dueDate.value) else "N/A"]
  }

  function CsvLineOf(projects: seq<Project>, users: seq<User>, iso: int -> string): Task -> string
  {
    (t: Task) => Join(CsvFields(t, projects, users, iso), ",")
  }

  /** The whole CSV text: the header line and one line per task, joined by line feeds, with a
      final line feed. */
  function CsvText(ts: seq<Task>, projects: seq<Project>, users: seq<User>, iso: int -> string): string
  {
    Join([Join(CSV_HEADERS, ",")] + MapSeq(ts, CsvLineOf(projects, users, iso)), "\n") + "\n"
  }

  /** The CSV is the header line followed by one line per task, the i-th line being the fields
      of the i-th task, and every line ends in a line feed. */
  lemma CsvIsHeaderAndRows(ts: seq<Task>, projects: seq<Project>, users: seq<User>, iso: int -> string)
    ensures var rows := MapSeq(ts, CsvLineOf(projects, users, iso));
      && CsvText(ts, projects, users, iso) == Join(CSV_HEADERS, ",") + "\n" + Lines(rows)
      && |rows| == |ts|
      && (forall i :: 0 <= i < |ts| ==> rows[i] == Join(CsvFields(ts[i], projects, users, iso), ","))
  {
    var rows := MapSeq(ts, CsvLineOf(projects, users, iso));
    var ls := [Join(CSV_HEADERS, ",")] + rows;
    JoinLines(ls);
    assert ls[1..] == rows;
  }

  /** Joining three parts and a non-empty rest puts a separator after each of the three. */
  lemma JoinThree(a: string, b: string, c: string, rest: seq<string>, sep: string)
    requires rest != []
    ensures Join([a, b, c] + rest, sep) == a + sep + b + sep + c + sep + Join(rest, sep)
  {
    var ps := [a, b, c] + rest;
    assert ps[1..] == [b, c] + rest;
    assert ([b, c] + rest)[1..] == [c] + rest;
    assert ([c] + rest)[1..] == rest;
    assert Join([c] + rest, sep) == c + sep + Join(rest, sep);
    assert Join([b, c] + rest, sep) == b + sep + (c + sep + Join(rest, sep));
    assert Join(ps, sep) == a + sep + (b + sep + (c + sep + Join(rest, sep)));
  }

  /** In a row line the id comes first, then the quoted title and the quoted description. */
  lemma CsvLineLayout(t: Task, projects: seq<Project>, users: seq<User>, iso: int -> string)
    ensures var fs := CsvFields(t, projects, users, iso);
      Join(fs, ",") == NatToString(t.id) + "," + Quote(t.title) + "," + Quote(t.description.GetOr(""))
                       + "," + Join(fs[3..], ",")
  {
    var fs := CsvFields(t, projects, users, iso);
    assert fs == [fs[0], fs[1], fs[2]] + fs[3..];
    JoinThree(fs[0], fs[1], fs[2], fs[3..], ",");
  }

  /** Two quoted fields in a row: reading after the first opening quote gives the first text
      back, and reading after the second gives the second text back. */
  lemma QuotedPairReadsBack(first: string, second: string, rest: string)
    requires rest == [] || rest[0] == ','
    ensures ReadQuoted(Quote(first)[1..] + ("," + Quote(second) + rest)) == Some((first, "," + Quote(second) + rest))
    ensures ReadQuoted(Quote(second)[1..] + rest) == Some((second, rest))
  {
    QuoteReadsBack(first, "," + Quote(second) + rest);
    QuoteReadsBack(second, rest);
  }

  /** Reading a row line after the id and its comma gives the title back, and reading on after
      the next comma gives the description back. */
  lemma CsvLineQuotesText(t: Task, projects: seq<Project>, users: seq<User>, iso: int -> string)
    ensures var rest := "," + Join(CsvFields(t, projects, users, iso)[3..], ",");
      var desc := t.description.GetOr("");
      && ReadQuoted(Quote(t.title)[1..] + ("," + Quote(desc) + rest)) == Some((t.title, "," + Quote(desc) + rest))
      && ReadQuoted(Quote(desc)[1..] + rest) == Some((desc, rest))
  {
    var rest := "," + Join(CsvFields(t, projects, users, iso)[3..], ",");
    QuotedPairReadsBack(t.title, t.description.GetOr(""), rest);
  }

  /** What `exportTasksAsCSV` answers. */
  datatype CsvExport = CsvExport(csv: string, filename: string, count: nat)

  /** `exportTasksAsCSV`: the selected tasks, newest first, as CSV text, with their number.
      `today` is the date part of the current time. */
  method ExportTasksAsCSV(tasks: seq<Task>, projects: seq<Project>, users: seq<User>, userId: string,
                          filters: Option<ExportFilters>, iso: int -> string, today: string)
    returns (r: Result<CsvExport>)
    ensures var f := FiltersOf(filters);
      r.Err? <==> !FilterEnumsKnown(f.status, f.priority)
    ensures r.Err? ==> r.error.ServerError?
    ensures r.Ok? ==>
      var rows := SortDescBy(Filter(tasks, ExportSelector(userId, FiltersOf(filters))), TaskCreatedAt);
      && r.value.csv == CsvText(rows, projects, users, iso)
      && r.value.count == |rows|
      && r.value.filename == "tasks-export-" + today + ".csv"
  {
    var w := ExportWhere(userId, filters);
    var found := FindTasks(tasks, projects, w);
    if found.Err? {
      return Err(found.error);
    }
    FilterEquiv(tasks, Holds(w, projects), ExportSelector(userId, FiltersOf(filters)));
    var rows := SortDescBy(found.value, TaskCreatedAt);
    r := Ok(CsvExport(CsvText(rows, projects, users, iso), "tasks-export-" + today + ".csv", |rows|));
  }

  /** Every exported row is a task of the caller that passes the active filters, and every
      such task is exported. */
  lemma ExportSelectsExactly(tasks: seq<Task>, userId: string, f: ExportFilters, t: Task)
    ensures var rows := SortDescBy(Filter(tasks, ExportSelector(userId, f)), TaskCreatedAt);
      t in rows <==> t in tasks && ExportSelects(userId, f, t)
  {
    var sel := Filter(tasks, ExportSelector(userId, f));
    var rows := SortDescBy(sel, TaskCreatedAt);
    assert t in rows <==> t in multiset(sel);
    if t in tasks && ExportSelects(userId, f, t) {
      var j :| 0 <= j < |tasks| && tasks[j] == t;
    }
  }

  // ---------------------------------------------------------------------------------------
  // Overdue report and overviews

  /** `t.dueDate && t.dueDate < now && t.status !== "COMPLETED"`. */
  predicate IsOverdue(now: int, t: Task)
  {
    t.dueDate.Some? && t.dueDate.value < now && t.status != Completed
  }

  function OverdueAt(now: int): Task -> bool
  {
    (t: Task) => IsOverdue(now, t)
  }

  function DueValue(t: Task): int { t.dueDate.GetOr(0) }

  /** What `overdueReport` answers; the report time is not modelled. */
  datatype OverdueReport = OverdueReport(total: nat, tasks: seq<Task>, byPriority: map<string, nat>,
                                         byProject: map<string, nat>)

  /** `overdueReport`: the caller's overdue tasks by ascending due date, with breakdowns by
      priority and project. */
  method GetOverdueReport(tasks: seq<Task>, projects: seq<Project>, userId: string, now: int)
    returns (r: OverdueReport)
    ensures var overdue := Filter(TasksCreatedBy(tasks, userId), OverdueAt(now));
      && r.total == |r.tasks| == |overdue|
      && SortedBy(r.tasks, DueValue)
      && multiset(r.tasks) == multiset(overdue)
      && r.byPriority == Counts(MapSeq(r.tasks, PriorityKey))
      && r.byProject == Counts(MapSeq(r.tasks, ProjectNameOr(projects, "No Project")))
  {
    var overdue := Filter(TasksCreatedBy(tasks, userId), OverdueAt(now));
    var sorted := SortBy(overdue, DueValue);
    var byPriority := TallyBy(sorted, PriorityKey);
    var byProject := TallyBy(sorted, ProjectNameOr(projects, "No Project"));
    r := OverdueReport(|sorted|, sorted, byPriority, byProject);
  }

  /** Each task of the overdue report is an overdue task of the caller, due before now. */
  lemma OverdueReportTasks(tasks: seq<Task>, userId: string, now: int, t: Task)
    ensures var overdue := Filter(TasksCreatedBy(tasks, userId), OverdueAt(now));
      t in overdue <==> t in tasks && t.createdById == userId && IsOverdue(now, t)
  {
    var mine := TasksCreatedBy(tasks, userId);
    if t in tasks && t.createdById == userId {
      var j :| 0 <= j < |tasks| && tasks[j] == t;
      var k :| 0 <= k < |mine| && mine[k] == t;
    }
  }

  /** The counts of an overview of the tasks `ts`; the average resolution time is not
      modelled. */
  datatype Overview = Overview(
    total: nat, completed: nat, pending: nat, overdue: nat, completionRate: nat,
    byStatus: map<string, nat>, byPriority: map<string, nat>)

  /** `o` describes `ts` at time `now`: pending counts the tasks not completed, overdue ones
      are among them, and the two breakdowns count every task once. */
  predicate Describes(o: Overview, ts: seq<Task>, now: int)
  {
    && o.total == |ts|
    && o.completed == |Filter(ts, IsCompleted)|
    && o.pending == o.total - o.completed == |Filter(ts, NotCompleted)|
    && o.overdue == |Filter(ts, OverdueAt(now))|
    && o.overdue <= o.pending
    && (o.total == 0 ==> o.completionRate == 0)
    && (o.total > 0 ==> o.completionRate == RoundedPercent(o.completed, o.total))
    && o.byStatus == Counts(MapSeq(ts, StatusKey))
    && o.byPriority == Counts(MapSeq(ts, PriorityKey))
  }

  /** The loop of the overviews: one pass over the tasks bumping a status counter and a
      priority counter. */
  method CountStatusAndPriority(ts: seq<Task>) returns (byStatus: map<string, nat>, byPriority: map<string, nat>)
    ensures byStatus == Counts(MapSeq(ts, StatusKey))
    ensures byPriority == Counts(MapSeq(ts, PriorityKey))
  {
    byStatus, byPriority := map[], map[];
    var i := 0;
    while i < |ts|
      invariant 0 <= i <= |ts|
      invariant byStatus == Counts(MapSeq(ts[..i], StatusKey))
      invariant byPriority == Counts(MapSeq(ts[..i], PriorityKey))
    {
      TallyStep(ts, i, StatusKey);
      TallyStep(ts, i, PriorityKey);
      byStatus := byStatus[StatusKey(ts[i]) := Get(byStatus, StatusKey(ts[i])) + 1];
      byPriority := byPriority[PriorityKey(ts[i]) := Get(byPriority, PriorityKey(ts[i])) + 1];
      i := i + 1;
    }
    assert ts[..|ts|] == ts;
  }

  /** The counts shared by `projectOverview` and `userOverview`. */
  method ComputeOverview(ts: seq<Task>, now: int) returns (o: Overview)
    ensures Describes(o, ts, now)
  {
    var completed := |Filter(ts, IsCompleted)|;
    FilterPartition(ts, IsCompleted, NotCompleted);
    var overdue := |Filter(ts, OverdueAt(now))|;
    FilterImplies(ts, OverdueAt(now), NotCompleted);
    var rate := if |ts| > 0 then RoundedPercent(completed, |ts|) else 0;
    var byStatus, byPriority := CountStatusAndPriority(ts);
    o := Overview(|ts|, completed, |ts| - completed, overdue, rate, byStatus, byPriority);
  }

  /** What `projectOverview` answers: the project's row and the overview of its tasks. */
  datatype ProjectOverview = ProjectOverview(project: Project, stats: Overview)

  /** `projectOverview`: the project must exist and be the caller's, or the procedure fails
      with "Project not found"; otherwise the overview of its tasks. */
  method GetProjectOverview(projects: seq<Project>, tasks: seq<Task>, projectId: int, userId: string, now: int)
    returns (r: Result<ProjectOverview>)
    ensures r.Ok? <==> FindProject(projects, projectId).Some? && FindProject(projects, projectId).value.createdById == userId
    ensures r.Err? ==> r.error == ServerError("Project not found")
    ensures r.Ok? ==> r.value.project == FindProject(projects, projectId).value
                      && Describes(r.value.stats, TasksOfProject(tasks, projectId), now)
  {
    var found := FindProject(projects, projectId);
    if found.None? || found.value.createdById != userId {
      return Err(ServerError("Project not found"));
    }
    var o := ComputeOverview(TasksOfProject(tasks, projectId), now);
    r := Ok(ProjectOverview(found.value, o));
  }

  /** The tasks a user report covers: for the caller's own id, the tasks assigned to or
      created by the caller; for another user, the tasks assigned to that user among those
      the caller created. */
  predicate InUserScope(me: string, userId: string, t: Task)
  {
    if userId == me then t.assignedToId == Some(userId) || t.createdById == me
    else t.assignedToId == Some(userId) && t.createdById == me
  }

  function UserScopeSelector(me: string, userId: string): Task -> bool
  {
    (t: Task) => InUserScope(me, userId, t)
  }

  /** The `where` of `userOverview` and the start of that of `tasksForUser`. */
  function UserScope(me: string, userId: string): TaskWhere
  {
    if userId == me
    then TaskWhere(AnyTask, Some([AnyTask.(assignedToId := Some(userId)), AnyTask.(createdById := Some(me))]))
    else TaskWhere(AnyTask.(assignedToId := Some(userId), createdById := Some(me)), None)
  }

  /** The user scope condition holds of exactly the tasks in the user's scope. */
  lemma UserScopeIff(me: string, userId: string, projects: seq<Project>, t: Task)
    ensures WhereHolds(UserScope(me, userId), projects, t) <==> InUserScope(me, userId, t)
  {
    if userId == me {
      var cs := UserScope(me, userId).anyOf.value;
      if t.assignedToId == Some(userId) {
        assert ClauseHolds(cs[0], projects, t);
      } else if t.createdById == me {
        assert ClauseHolds(cs[1], projects, t);
      }
    }
  }

  /** What `userOverview` answers. */
  datatype UserOverview = UserOverview(userId: string, stats: Overview)

  /** `userOverview`: the overview of the tasks in the user's scope. */
  method GetUserOverview(tasks: seq<Task>, projects: seq<Project>, me: string, userId: string, now: int)
    returns (r: UserOverview)
    ensures r.userId == userId
    ensures Describes(r.stats, Filter(tasks, UserScopeSelector(me, userId)), now)
  {
    var w := UserScope(me, userId);
    forall i | 0 <= i < |tasks|
      ensures Holds(w, projects)(tasks[i]) == UserScopeSelector(me, userId)(tasks[i])
    {
      UserScopeIff(me, userId, projects, tasks[i]);
    }
    FilterEquiv(tasks, Holds(w, projects), UserScopeSelector(me, userId));
    var o := ComputeOverview(Filter(tasks, Holds(w, projects)), now);
    r := UserOverview(userId, o);
  }

  /** The `whereConditions` of `tasksForUser`: the user scope, then the status and priority
      fields set only when those filters are active. */
  method TasksForUserWhere(me: string, userId: string, status: Option<string>, priority: Option<string>)
    returns (w: TaskWhere)
    ensures (w.all.status.Some? <==> Active(status)) && (w.all.priority.Some? <==> Active(priority))
    ensures EnumsKnown(w) <==> FilterEnumsKnown(status, priority)
    ensures forall projects, t :: WhereHolds(w, projects, t) <==> InUserScope(me, userId, t) && PassesFilters(status, priority, t)
  {
    w := UserScope(me, userId);
    if Active(status) {
      w := w.(all := w.all.(status := status));
    }
    if Active(priority) {
      w := w.(all := w.all.(priority := priority));
    }
    forall projects, t ensures WhereHolds(w, projects, t) <==> InUserScope(me, userId, t) && PassesFilters(status, priority, t) {
      UserScopeIff(me, userId, projects, t);
    }
    assert EnumsKnown(UserScope(me, userId));
  }

  predicate HasDue(t: Task) { t.dueDate.Some? }

  predicate NoDue(t: Task) { t.dueDate.None? }

  /** `orderBy: { dueDate: "asc" }`: tasks with a due date by ascending due date, then the
      tasks without one (nulls sort last). */
  function OrderByDue(ts: seq<Task>): (r: seq<Task>)
    ensures |r| == |ts|
  {
    FilterPartition(ts, HasDue, NoDue);
    SortBy(Filter(ts, HasDue), DueValue) + Filter(ts, NoDue)
  }

  /** The due-date order keeps exactly the tasks it is given. */
  lemma OrderByDueKeepsTasks(ts: seq<Task>, t: Task)
    ensures t in OrderByDue(ts) <==> t in ts
  {
    var dated := Filter(ts, HasDue);
    var sorted := SortBy(dated, DueValue);
    assert OrderByDue(ts) == sorted + Filter(ts, NoDue);
    assert t in sorted <==> t in multiset(dated);
    if t in ts {
      var j :| 0 <= j < |ts| && ts[j] == t;
    }
  }

  /** The due-date order puts the dated tasks first and the undated ones after them. */
  lemma OrderByDueDatedFirst(ts: seq<Task>)
    ensures var r := OrderByDue(ts);
      var k := |Filter(ts, HasDue)|;
      && (forall i :: 0 <= i < k ==> r[i].dueDate.Some?)
      && (forall i :: k <= i < |r| ==> r[i].dueDate.None?)
  {
    var dated := Filter(ts, HasDue);
    var undated := Filter(ts, NoDue);
    var sorted := SortBy(dated, DueValue);
    var r := OrderByDue(ts);
    assert r == sorted + undated;
    var k := |sorted|;
    forall i | 0 <= i < k ensures r[i].dueDate.Some? {
      assert r[i] == sorted[i];
      assert sorted[i] in multiset(dated);
    }
    forall i | k <= i < |r| ensures r[i].dueDate.None? {
      assert r[i] == undated[i - k];
    }
  }

  /** The dated tasks come in ascending order of due date. */
  lemma OrderByDueAscending(ts: seq<Task>)
    ensures var r := OrderByDue(ts);
      forall i, j :: 0 <= i < j < |Filter(ts, HasDue)| ==> DueValue(r[i]) <= DueValue(r[j])
  {
    var sorted := SortBy(Filter(ts, HasDue), DueValue);
    var r := OrderByDue(ts);
    assert r == sorted + Filter(ts, NoDue);
    assert forall i :: 0 <= i < |sorted| ==> r[i] == sorted[i];
  }

  /** A task list with its length. */
  datatype TaskList = TaskList(tasks: seq<Task>, count: nat)

  /** `tasksForUser`: the tasks in the user's scope that pass the active filters, by due date;
      an unknown status or priority is rejected by the query layer. */
  method TasksForUser(tasks: seq<Task>, projects: seq<Project>, me: string, userId: string,
                      status: Option<string>, priority: Option<string>)
    returns (r: Result<TaskList>)
    ensures r.Err? <==> !FilterEnumsKnown(status, priority)
    ensures r.Err? ==> r.error.ServerError?
    ensures r.Ok? ==> r.value.count == |r.value.tasks|
    ensures r.Ok? ==> r.value.tasks == OrderByDue(Filter(tasks, UserTaskSelector(me, userId, status, priority)))
  {
    var w := TasksForUserWhere(me, userId, status, priority);
    var found := FindTasks(tasks, projects, w);
    if found.Err? {
      return Err(found.error);
    }
    FilterEquiv(tasks, Holds(w, projects), UserTaskSelector(me, userId, status, priority));
    var ordered := OrderByDue(found.value);
    r := Ok(TaskList(ordered, |ordered|));
  }

  function UserTaskSelector(me: string, userId: string, status: Option<string>, priority: Option<string>): Task -> bool
  {
    (t: Task) => InUserScope(me, userId, t) && PassesFilters(status, priority, t)
  }
}
