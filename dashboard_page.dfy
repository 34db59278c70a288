/** The manager dashboard's derived values: the KPI counts (total, pending, in progress, overdue),
    the status distribution, the tasks per project and the five nearest open due dates. The page
    types its rows loosely, so a status, a due date and a project may be missing. */
module DashboardPage {
  import opened Wrappers
  import opened Seqs
  import opened Strings

  /** An id the page receives: a number or a string. */
  datatype Id = NumId(n: int) | TextId(s: string)

  /** `String(id)`. */
  function IdString(id: Id): string
  {
    match id
    case NumId(n) => IntToString(n)
    case TextId(s) => s
  }

  /** The fields of a task the derived values read; a missing or null field is `None`. The due
      date is its time value in milliseconds. */
  datatype ClientTask = ClientTask(status: Option<string>, dueDate: Option<int>, projectId: Option<Id>)

  /** The fields of a project the page reads. */
  datatype ClientProject = ClientProject(id: Option<Id>, name: Option<string>)

  /** `t.status === s`. */
  function WithStatus(s: string): ClientTask -> bool
  {
    (t: ClientTask) => t.status == Some(s)
  }

  /** `t.status !== s`. */
  function WithoutStatus(s: string): ClientTask -> bool
  {
    (t: ClientTask) => t.status != Some(s)
  }

  /** `pendingCount` and `inProgressCount`: the number of tasks whose status is `s`. */
  function StatusCount(tasks: seq<ClientTask>, s: string): (r: nat)
    ensures r <= |tasks|
  {
    |Filter(tasks, WithStatus(s))|
  }

  const PENDING: string := "PENDING"

  const IN_PROGRESS: string := "IN_PROGRESS"

  /** No task is both pending and in progress, so the two cards never count more than the total. */
  lemma PendingAndInProgressWithinTotal(tasks: seq<ClientTask>)
    ensures StatusCount(tasks, PENDING) + StatusCount(tasks, IN_PROGRESS) <= |tasks|
  {
    forall t ensures WithStatus("PENDING")(t) ==> WithoutStatus("IN_PROGRESS")(t) {}
    FilterImplies(tasks, WithStatus("PENDING"), WithoutStatus("IN_PROGRESS"));
    FilterPartition(tasks, WithStatus("IN_PROGRESS"), WithoutStatus("IN_PROGRESS"));
  }

  /** Overdue at time `now`: a due date is present, it lies before `now`, and the task is not
      completed. */
  predicate Overdue(now: int, t: ClientTask)
  {
    t.dueDate.Some? && t.dueDate.value < now && t.status != Some("COMPLETED")
  }

  function OverdueAt(now: int): ClientTask -> bool
  {
    (t: ClientTask) => Overdue(now, t)
  }

  /** `overdueCount`, with `Date.now()` as `now`. */
  function OverdueCount(tasks: seq<ClientTask>, now: int): (r: nat)
    ensures r <= |tasks|
  {
    |Filter(tasks, OverdueAt(now))|
  }

  /** A completed task is never overdue: the overdue and completed tasks together are at most
      the total. */
  lemma OverdueExcludesCompleted(tasks: seq<ClientTask>, now: int)
    ensures OverdueCount(tasks, now) + |Filter(tasks, WithStatus("COMPLETED"))| <= |tasks|
  {
    forall t ensures OverdueAt(now)(t) ==> WithoutStatus("COMPLETED")(t) {}
    FilterImplies(tasks, OverdueAt(now), WithoutStatus("COMPLETED"));
    FilterPartition(tasks, WithStatus("COMPLETED"), WithoutStatus("COMPLETED"));
  }

  /** As time passes, the overdue count can only grow. */
  lemma OverdueGrowsWithTime(tasks: seq<ClientTask>, now: int, later: int)
    requires now <= later
    ensures OverdueCount(tasks, now) <= OverdueCount(tasks, later)
  {
    FilterImplies(tasks, OverdueAt(now), OverdueAt(later));
  }

  /** `t.status ?? "UNKNOWN"`. */
  function StatusKey(t: ClientTask): string
  {
    if t.status.Some? then t.status.value else "UNKNOWN"
  }

  /** `STATUS_LABELS`. */
  const STATUS_LABELS: map<string, string> := map[
    "PENDING" := "Pendiente", "IN_PROGRESS" := "En progreso", "COMPLETED" := "Completado",
    "CANCELLED" := "Cancelado"]

  /** `STATUS_LABELS[k] ?? k`. */
  function DisplayName(k: string): string
  {
    if k in STATUS_LABELS then STATUS_LABELS[k] else k
  }

  /** One slice of the status pie chart. */
  datatype StatusSlice = StatusSlice(code: string, displayName: string, value: nat)

  /** `statusDistribution`: the tasks counted by status key in a loop, one slice per key. */
  method StatusDistribution(tasks: seq<ClientTask>) returns (r: map<string, StatusSlice>)
    ensures var counts := Counts(MapSeq(tasks, StatusKey));
      && r.Keys == counts.Keys
      && forall k :: k in r ==> r[k] == StatusSlice(k, DisplayName(k), counts[k])
  {
    var m := TallyBy(tasks, StatusKey);
    r := map k | k in m :: StatusSlice(k, DisplayName(k), m[k]);
  }

  /** A task without a status. */
  predicate NoStatus(t: ClientTask)
  {
    t.status.None?
  }

  /** Each slice counts the tasks with its key, and the slices add up to the number of tasks. */
  lemma StatusDistributionAddsUp(tasks: seq<ClientTask>, k: string)
    ensures var keys := MapSeq(tasks, StatusKey);
      && Get(Counts(keys), k) == |Filter(tasks, HasKey(StatusKey, k))|
      && SumOf(Distinct(keys), Counts(keys)) == |tasks|
  {
    BreakdownCounts(tasks, StatusKey, k);
  }

  /** The tasks without a status are counted under "UNKNOWN". */
  lemma NullStatusUnderUnknown(tasks: seq<ClientTask>)
    ensures |Filter(tasks, NoStatus)| <= Get(Counts(MapSeq(tasks, StatusKey)), "UNKNOWN")
  {
    CountsOfMapped(tasks, StatusKey, "UNKNOWN");
    forall t | NoStatus(t) ensures HasKey(StatusKey, "UNKNOWN")(t) {
      assert StatusKey(t) == "UNKNOWN";
    }
    FilterImplies(tasks, NoStatus, HasKey(StatusKey, "UNKNOWN"));
  }

  /** The pending and in-progress slices of the chart agree with the two KPI cards. */
  lemma ChartAgreesWithCards(tasks: seq<ClientTask>)
    ensures Get(Counts(MapSeq(tasks, StatusKey)), "PENDING") == StatusCount(tasks, PENDING)
    ensures Get(Counts(MapSeq(tasks, StatusKey)), "IN_PROGRESS") == StatusCount(tasks, IN_PROGRESS)
  {
    CountsOfMapped(tasks, StatusKey, "PENDING");
    FilterEquiv(tasks, HasKey(StatusKey, "PENDING"), WithStatus("PENDING"));
    CountsOfMapped(tasks, StatusKey, "IN_PROGRESS");
    FilterEquiv(tasks, HasKey(StatusKey, "IN_PROGRESS"), WithStatus("IN_PROGRESS"));
  }

  /** `String(t.projectId ?? "unassigned")`. */
  function ProjectKey(t: ClientTask): string
  {
    if t.projectId.Some? then IdString(t.projectId.value) else "unassigned"
  }

  /** `String(p.id)`, which is "undefined" for a project without an id. */
  function ProjectIdString(p: ClientProject): string
  {
    if p.id.Some? then IdString(p.id.value) else "undefined"
  }

  /** The project whose id reads as `pid`. */
  function IdReads(pid: string): ClientProject -> bool
  {
    (p: ClientProject) => ProjectIdString(p) == pid
  }

  /** `projects.find(p => String(p.id) === pid)?.name ?? "Sin proyecto"`. */
  function ProjectLabel(projects: seq<ClientProject>, pid: string): string
  {
    var found := Find(projects, IdReads(pid));
    if found.Some? && found.value.name.Some? then found.value.name.value else "Sin proyecto"
  }

  /** The label is the name of the first project whose id reads as the key, and "Sin proyecto"
      when there is no such project or it has no name. */
  lemma {:induction false} ProjectLabelCases(projects: seq<ClientProject>, pid: string, i: nat)
    requires i < |projects| && ProjectIdString(projects[i]) == pid
    requires forall j :: 0 <= j < i ==> ProjectIdString(projects[j]) != pid
    ensures ProjectLabel(projects, pid)
         == if projects[i].name.Some? then projects[i].name.value else "Sin proyecto"
  {
    if i > 0 {
      assert projects[1..][i - 1] == projects[i];
      ProjectLabelCases(projects[1..], pid, i - 1);
    }
  }

  /** A key that no project's id reads as is labelled "Sin proyecto". */
  lemma UnknownProjectLabel(projects: seq<ClientProject>, pid: string)
    requires forall j :: 0 <= j < |projects| ==> ProjectIdString(projects[j]) != pid
    ensures ProjectLabel(projects, pid) == "Sin proyecto"
  {
  }

  /** One bar of the tasks-per-project chart. */
  datatype ProjectSlice = ProjectSlice(project: string, value: nat)

  /** `tasksPerProject`: the tasks counted by project key in a loop, one bar per key. */
  method TasksPerProject(tasks: seq<ClientTask>, projects: seq<ClientProject>) returns (r: map<string, ProjectSlice>)
    ensures var counts := Counts(MapSeq(tasks, ProjectKey));
      && r.Keys == counts.Keys
      && forall k :: k in r ==> r[k] == ProjectSlice(ProjectLabel(projects, k), counts[k])
  {
    var m := TallyBy(tasks, ProjectKey);
    r := map k | k in m :: ProjectSlice(ProjectLabel(projects, k), m[k]);
  }

  /** A task without a project. */
  predicate NoProject(t: ClientTask)
  {
    t.projectId.None?
  }

  /** Each bar counts the tasks whose project reads as its key, and the bars add up to the
      number of tasks. */
  lemma TasksPerProjectAddsUp(tasks: seq<ClientTask>, k: string)
    ensures var keys := MapSeq(tasks, ProjectKey);
      && Get(Counts(keys), k) == |Filter(tasks, HasKey(ProjectKey, k))|
      && SumOf(Distinct(keys), Counts(keys)) == |tasks|
  {
    BreakdownCounts(tasks, ProjectKey, k);
  }

  /** The tasks without a project are counted under "unassigned". */
  lemma MissingProjectUnassigned(tasks: seq<ClientTask>)
    ensures |Filter(tasks, NoProject)| <= Get(Counts(MapSeq(tasks, ProjectKey)), "unassigned")
  {
    CountsOfMapped(tasks, ProjectKey, "unassigned");
    forall t | NoProject(t) ensures HasKey(ProjectKey, "unassigned")(t) {
      assert ProjectKey(t) == "unassigned";
    }
    FilterImplies(tasks, NoProject, HasKey(ProjectKey, "unassigned"));
  }

  /** A numeric project id never reads "unassigned", so with numeric ids the "unassigned" bar
      counts exactly the tasks without a project. */
  lemma UnassignedExactly(tasks: seq<ClientTask>)
    requires forall i :: 0 <= i < |tasks| && tasks[i].projectId.Some? ==> tasks[i].projectId.value.NumId?
    ensures Get(Counts(MapSeq(tasks, ProjectKey)), "unassigned") == |Filter(tasks, NoProject)|
  {
    CountsOfMapped(tasks, ProjectKey, "unassigned");
    forall i | 0 <= i < |tasks| ensures HasKey(ProjectKey, "unassigned")(tasks[i]) == NoProject(tasks[i]) {
      if tasks[i].projectId.Some? {
        var n := tasks[i].projectId.value.n;
        var s := IntToString(n);
        if n >= 0 {
          assert IsDigit(s[0]);
        }
        assert s[0] != 'u';
      }
    }
    FilterEquiv(tasks, HasKey(ProjectKey, "unassigned"), NoProject);
  }

  /** Open with a due date: `t.dueDate && t.status !== "COMPLETED"`. */
  predicate DueOpen(t: ClientTask)
  {
    t.dueDate.Some? && t.status != Some("COMPLETED")
  }

  /** The due time a task is sorted by. */
  function DueTime(t: ClientTask): int
  {
    if t.dueDate.Some? then t.dueDate.value else 0
  }

  /** `upcomingDue`: the open tasks with a due date, by due date ascending, the first five. */
  function UpcomingDue(tasks: seq<ClientTask>): (r: seq<ClientTask>)
    ensures |r| <= 5
    ensures |r| == if |Filter(tasks, DueOpen)| < 5 then |Filter(tasks, DueOpen)| else 5
    ensures forall i :: 0 <= i < |r| ==> DueOpen(r[i]) && r[i] in tasks
    ensures SortedBy(r, DueTime)
  {
    var open := Filter(tasks, DueOpen);
    var sorted := SortBy(open, DueTime);
    var r := Take(sorted, 5);
    assert |r| == if |open| < 5 then |open| else 5;
    OpenPrefixMembers(tasks, r, sorted);
    r
  }

  /** Every task of a prefix of a sorting of the open tasks is an open task of `tasks`. */
  lemma OpenPrefixMembers(tasks: seq<ClientTask>, r: seq<ClientTask>, sorted: seq<ClientTask>)
    requires |r| <= |sorted| && r == sorted[..|r|]
    requires multiset(sorted) == multiset(Filter(tasks, DueOpen))
    ensures forall i :: 0 <= i < |r| ==> DueOpen(r[i]) && r[i] in tasks
  {
    forall i | 0 <= i < |r| ensures DueOpen(r[i]) && r[i] in tasks {
      assert r[i] == sorted[i];
      assert sorted[i] in multiset(Filter(tasks, DueOpen));
    }
  }

  /** An open task with a due date left out of `upcomingDue` is due no earlier than every task
      in it. */
  lemma UpcomingDueAreEarliest(tasks: seq<ClientTask>, y: ClientTask)
    requires y in tasks && DueOpen(y) && y !in UpcomingDue(tasks)
    ensures forall x :: x in UpcomingDue(tasks) ==> DueTime(x) <= DueTime(y)
  {
    var open := Filter(tasks, DueOpen);
    var sorted := SortBy(open, DueTime);
    assert y in multiset(sorted);
    TakeSortedIsLeast(sorted, 5, DueTime, y);
  }

  /** With at most five open tasks with a due date, `upcomingDue` holds all of them. */
  lemma UpcomingDueKeepsAllWhenFew(tasks: seq<ClientTask>)
    requires |Filter(tasks, DueOpen)| <= 5
    ensures multiset(UpcomingDue(tasks)) == multiset(Filter(tasks, DueOpen))
  {
  }
}
