/** The search procedures: the caller's tasks that match a text and a set of filters, newest
    first, either all of them or one page; the caller's projects that match a text; the
    caller's tasks counted by status and by priority; the tasks assigned to the caller. */
module SearchRouter {
  import opened Wrappers
  import opened Seqs
  import opened Strings
  import opened Schema
  import opened TaskQuery
  import opened TaskRouter
  import opened ProjectRouter

  /** The longest search text the input schema accepts. */
  const MAX_TEXT: int := 500

  /** The input of `tasks` and `tasksWithPagination`. */
  datatype SearchInput = SearchInput(
    text: Option<string>, status: Option<string>, priority: Option<string>,
    projectId: Option<string>, assignedOnly: Option<bool>)

  /** `z.string().max(500).optional()`. */
  predicate ValidText(text: Option<string>)
  {
    text.None? || |text.value| <= MAX_TEXT
  }

  /** `input.text?.trim()` is truthy: the text is present and not only white space. */
  predicate TextActive(text: Option<string>)
  {
    text.Some? && Trim(text.value) != ""
  }

  /** The title or the description contains the text (the untrimmed text is searched for). */
  predicate MatchesText(text: string, t: Task)
  {
    || ContainsInsensitive(t.title, text)
    || (t.description.Some? && ContainsInsensitive(t.description.value, text))
  }

  /** The tasks a search selects: the caller's, matching the text when one is given, passing
      the active status and priority filters, in the project `parseInt` reads from the project
      filter, and with an assignee when only assigned tasks are asked for. */
  predicate SearchSelects(userId: string, i: SearchInput, t: Task)
  {
    && t.createdById == userId
    && (TextActive(i.text) ==> MatchesText(i.text.value, t))
    && PassesFilters(i.status, i.priority, t)
    && (Active(i.projectId) ==> ParseInt(i.projectId.value) == Some(t.projectId))
    && (i.assignedOnly == Some(true) ==> t.assignedToId.Some?)
  }

  function SearchSelector(userId: string, i: SearchInput): Task -> bool
  {
    (t: Task) => SearchSelects(userId, i, t)
  }

  /** The `whereConditions` of a task search, built field by field: the creator, an `OR` of
      title and description when there is a text, and each filter only when it is active. It
      holds of exactly the tasks the search selects. */
  method SearchWhere(userId: string, i: SearchInput) returns (w: TaskWhere)
    ensures w.anyOf.Some? <==> TextActive(i.text)
    ensures && (w.all.status.Some? <==> Active(i.status))
            && (w.all.priority.Some? <==> Active(i.priority))
            && (w.all.projectId.Some? <==> Active(i.projectId))
            && (w.all.assignedNotNull <==> i.assignedOnly == Some(true))
    ensures EnumsKnown(w) <==> FilterEnumsKnown(i.status, i.priority)
    ensures forall projects, t :: WhereHolds(w, projects, t) <==> SearchSelects(userId, i, t)
  {
    var c := BuildClause(userId, i);
    var anyOf: Option<seq<Clause>> := None;
    if TextActive(i.text) {
      anyOf := Some([AnyTask.(titleContains := i.text), AnyTask.(descriptionContains := i.text)]);
    }
    w := TaskWhere(c, anyOf);
    FieldsKnown(userId, i, c);
    if anyOf.Some? {
      assert ClauseEnumsKnown(anyOf.value[0]) && ClauseEnumsKnown(anyOf.value[1]);
    }
    forall projects, t ensures WhereHolds(w, projects, t) <==> SearchSelects(userId, i, t) {
      FieldsHold(userId, i, c, projects, t);
      if anyOf.Some? {
        TextClausesHold(i.text, projects, t);
      }
    }
  }

  /** The flat part of the search condition: the caller's tasks, with each active filter. */
  function SearchClause(userId: string, i: SearchInput): Clause
  {
    Clause(Some(userId), if Active(i.status) then i.status else None,
           if Active(i.priority) then i.priority else None,
           if Active(i.projectId) then Some(ProjectIdFilter(i.projectId.value)) else None,
           None, i.assignedOnly == Some(true), None, None, None)
  }

  /** The flat part of the condition, filled in one active filter after another. */
  method BuildClause(userId: string, i: SearchInput) returns (c: Clause)
    ensures c == SearchClause(userId, i)
  {
    c := AnyTask.(createdById := Some(userId));
    if Active(i.status) {
      c := c.(status := i.status);
    }
    if Active(i.priority) {
      c := c.(priority := i.priority);
    }
    if Active(i.projectId) {
      c := c.(projectId := Some(ProjectIdFilter(i.projectId.value)));
    }
    if i.assignedOnly == Some(true) {
      c := c.(assignedNotNull := true);
    }
  }

  /** The flat fields of the search condition name known enumeration values exactly when the
      active filters do. */
  lemma FieldsKnown(userId: string, i: SearchInput, c: Clause)
    requires c == SearchClause(userId, i)
    ensures ClauseEnumsKnown(c) <==> FilterEnumsKnown(i.status, i.priority)
  {
  }

  /** The flat fields of the search condition hold of the caller's tasks that pass the active
      filters. */
  lemma FieldsHold(userId: string, i: SearchInput, c: Clause, projects: seq<Project>, t: Task)
    requires c == SearchClause(userId, i)
    ensures ClauseHolds(c, projects, t) <==>
      && t.createdById == userId
      && PassesFilters(i.status, i.priority, t)
      && (Active(i.projectId) ==> ParseInt(i.projectId.value) == Some(t.projectId))
      && (i.assignedOnly == Some(true) ==> t.assignedToId.Some?)
  {
  }

  /** The `OR` of the title and the description clauses holds of the tasks matching the text. */
  lemma TextClausesHold(text: Option<string>, projects: seq<Project>, t: Task)
    requires text.Some?
    ensures var cs := [AnyTask.(titleContains := text), AnyTask.(descriptionContains := text)];
      (exists i :: 0 <= i < |cs| && ClauseHolds(cs[i], projects, t)) <==> MatchesText(text.value, t)
  {
    var cs := [AnyTask.(titleContains := text), AnyTask.(descriptionContains := text)];
    if ContainsInsensitive(t.title, text.value) {
      assert ClauseHolds(cs[0], projects, t);
    } else if t.description.Some? && ContainsInsensitive(t.description.value, text.value) {
      assert ClauseHolds(cs[1], projects, t);
    }
  }

  /** `tasks`: a text over the limit is refused; an active status or priority that names no
      value of its enumeration is rejected by the query layer; otherwise the tasks the search
      selects, newest first. */
  method SearchTasks(tasks: seq<Task>, projects: seq<Project>, userId: string, i: SearchInput)
    returns (r: Result<seq<Task>>)
    ensures r.Err? <==> !ValidText(i.text) || !FilterEnumsKnown(i.status, i.priority)
    ensures !ValidText(i.text) ==> r == Err(BadRequest)
    ensures ValidText(i.text) && r.Err? ==> r.error.ServerError?
    ensures r.Ok? ==> r.value == SortDescBy(Filter(tasks, SearchSelector(userId, i)), TaskCreatedAt)
  {
    if !ValidText(i.text) {
      return Err(BadRequest);
    }
    var w := SearchWhere(userId, i);
    var found := FindTasks(tasks, projects, w);
    if found.Err? {
      return Err(found.error);
    }
    FilterEquiv(tasks, Holds(w, projects), SearchSelector(userId, i));
    r := Ok(SortDescBy(found.value, TaskCreatedAt));
  }

  /** A search returns exactly the tasks it selects, newest first. */
  lemma SearchFindsExactly(tasks: seq<Task>, userId: string, i: SearchInput, t: Task)
    ensures var r := SortDescBy(Filter(tasks, SearchSelector(userId, i)), TaskCreatedAt);
      && SortedDescBy(r, TaskCreatedAt)
      && (t in r <==> t in tasks && SearchSelects(userId, i, t))
  {
    var sel := Filter(tasks, SearchSelector(userId, i));
    var r := SortDescBy(sel, TaskCreatedAt);
    assert t in r <==> t in multiset(sel);
    if t in tasks && SearchSelects(userId, i, t) {
      var j :| 0 <= j < |tasks| && tasks[j] == t;
    }
  }

  // ---------------------------------------------------------------------------------------
  // Pagination

  const DEFAULT_PAGE: int := 1

  const DEFAULT_PAGE_SIZE: int := 10

  /** `Math.ceil(total / pageSize)`: the fewest pages of `pageSize` that hold `total` items. */
  function TotalPages(total: nat, pageSize: int): (r: nat)
    requires pageSize > 0
    ensures total <= r * pageSize
    ensures r == 0 || (r - 1) * pageSize < total
  {
    var q := (total + pageSize - 1) / pageSize;
    assert total + pageSize - 1 == q * pageSize + (total + pageSize - 1) % pageSize;
    q
  }

  lemma MulMono(a: int, b: int, c: int)
    requires a <= b && c >= 0
    ensures a * c <= b * c
  {
    assert b * c - a * c == (b - a) * c;
  }

  /** Page `n + 1` exists exactly when the first `n` pages leave an item over. */
  lemma BelowTotalPages(n: int, total: nat, pageSize: int)
    requires n >= 0 && pageSize > 0
    ensures n < TotalPages(total, pageSize) <==> n * pageSize < total
  {
    var q := TotalPages(total, pageSize);
    if n < q {
      MulMono(n, q - 1, pageSize);
    } else {
      MulMono(q, n, pageSize);
    }
  }

  /** `(page - 1) * pageSize`: the number of items before page `page`. */
  function Skip(page: int, pageSize: int): nat
    requires page >= 1 && pageSize >= 1
  {
    MulMono(0, page - 1, pageSize);
    (page - 1) * pageSize
  }

  /** Page `page` of `s`: `skip` then `take`. It holds the items from position `Skip` on, as
      many as fit on a page and as many as there are. */
  function PageOf<T>(s: seq<T>, page: int, pageSize: int): (r: seq<T>)
    requires page >= 1 && pageSize >= 1
    ensures |r| == if Skip(page, pageSize) < |s| then Min(pageSize, |s| - Skip(page, pageSize)) else 0
    ensures forall k :: 0 <= k < |r| ==> Skip(page, pageSize) + k < |s| && r[k] == s[Skip(page, pageSize) + k]
  {
    Take(Drop(s, Skip(page, pageSize)), pageSize)
  }

  function Min(a: int, b: int): int { if a <= b then a else b }

  /** Item `k` is on page `page` exactly when `page` is `k / pageSize + 1`: every item is on
      one page and on no other. */
  lemma OnExactlyOnePage(k: nat, page: int, pageSize: int)
    requires page >= 1 && pageSize >= 1
    ensures Skip(page, pageSize) <= k < Skip(page, pageSize) + pageSize <==> page == k / pageSize + 1
  {
    var q := k / pageSize;
    assert k == q * pageSize + k % pageSize;
    if page - 1 < q {
      MulMono(page, q, pageSize);
    } else if page - 1 > q {
      MulMono(q + 1, page - 1, pageSize);
    }
  }

  /** The page an item is on exists, and the item is at its place on it. */
  lemma EveryItemOnItsPage<T>(s: seq<T>, k: nat, pageSize: int)
    requires k < |s| && pageSize >= 1
    ensures var page := k / pageSize + 1;
      && page <= TotalPages(|s|, pageSize)
      && Skip(page, pageSize) <= k
      && k - Skip(page, pageSize) < |PageOf(s, page, pageSize)|
      && PageOf(s, page, pageSize)[k - Skip(page, pageSize)] == s[k]
  {
    var page := k / pageSize + 1;
    OnExactlyOnePage(k, page, pageSize);
    BelowTotalPages(page - 1, |s|, pageSize);
  }

  /** The pagination block of a page. */
  datatype Pagination = Pagination(
    page: int, pageSize: int, total: nat, totalPages: nat, hasNextPage: bool, hasPreviousPage: bool)

  datatype TaskPage = TaskPage(tasks: seq<Task>, pagination: Pagination)

  /** There is a next page exactly when some item lies after this page, and a previous one
      exactly when this is not the first. */
  lemma NextPageIffMore(total: nat, page: int, pageSize: int)
    requires page >= 1 && pageSize >= 1
    ensures page < TotalPages(total, pageSize) <==> Skip(page, pageSize) + pageSize < total
  {
    BelowTotalPages(page, total, pageSize);
  }

  /** `tasksWithPagination`: the input is refused when the text is over the limit or the page
      or the page size (1 and 10 when absent) is not positive; an unknown status or priority
      is rejected by the query layer; otherwise one page of the search's tasks, newest first,
      with the count of all of them and the page arithmetic. */
  method TasksWithPagination(tasks: seq<Task>, projects: seq<Project>, userId: string, i: SearchInput,
                             page: Option<int>, pageSize: Option<int>)
    returns (r: Result<TaskPage>)
    ensures var p := page.GetOr(DEFAULT_PAGE); var ps := pageSize.GetOr(DEFAULT_PAGE_SIZE);
      r.Err? <==> !ValidText(i.text) || p <= 0 || ps <= 0 || !FilterEnumsKnown(i.status, i.priority)
    ensures var p := page.GetOr(DEFAULT_PAGE); var ps := pageSize.GetOr(DEFAULT_PAGE_SIZE);
      !ValidText(i.text) || p <= 0 || ps <= 0 ==> r == Err(BadRequest)
    ensures r.Ok? ==>
      var p := page.GetOr(DEFAULT_PAGE); var ps := pageSize.GetOr(DEFAULT_PAGE_SIZE);
      var all := SortDescBy(Filter(tasks, SearchSelector(userId, i)), TaskCreatedAt);
      && p >= 1 && ps >= 1
      && r.value.tasks == PageOf(all, p, ps)
      && r.value.pagination == Pagination(p, ps, |all|, TotalPages(|all|, ps), p < TotalPages(|all|, ps), p > 1)
  {
    var p := page.GetOr(DEFAULT_PAGE);
    var ps := pageSize.GetOr(DEFAULT_PAGE_SIZE);
    if !ValidText(i.text) || p <= 0 || ps <= 0 {
      return Err(BadRequest);
    }
    var w := SearchWhere(userId, i);
    var skip := Skip(p, ps);
    var found := FindTasks(tasks, projects, w);
    if found.Err? {
      return Err(found.error);
    }
    FilterEquiv(tasks, Holds(w, projects), SearchSelector(userId, i));
    var total := |found.value|;
    var pageTasks := Take(Drop(SortDescBy(found.value, TaskCreatedAt), skip), ps);
    var totalPages := TotalPages(total, ps);
    r := Ok(TaskPage(pageTasks, Pagination(p, ps, total, totalPages, p < totalPages, p > 1)));
  }

  // ---------------------------------------------------------------------------------------
  // Projects

  /** The name or the description contains the text. */
  predicate ProjectMatchesText(text: string, p: Project)
  {
    || ContainsInsensitive(p.name, text)
    || (p.description.Some? && ContainsInsensitive(p.description.value, text))
  }

  predicate ProjectSearchSelects(userId: string, text: Option<string>, p: Project)
  {
    p.createdById == userId && (TextActive(text) ==> ProjectMatchesText(text.value, p))
  }

  function ProjectSearchSelector(userId: string, text: Option<string>): Project -> bool
  {
    (p: Project) => ProjectSearchSelects(userId, text, p)
  }

  /** `projects`: a text over the limit is refused; otherwise the caller's projects that match
      the text, newest first, each with its task count. */
  function SearchProjects(projects: seq<Project>, tasks: seq<Task>, userId: string, text: Option<string>)
    : (r: Result<seq<ListedProject>>)
    ensures r.Err? <==> !ValidText(text)
    ensures r.Err? ==> r.error == BadRequest
    ensures r.Ok? ==> |r.value| == |Filter(projects, ProjectSearchSelector(userId, text))|
  {
    if !ValidText(text) then Err(BadRequest)
    else Ok(MapSeq(SortDescBy(Filter(projects, ProjectSearchSelector(userId, text)), ProjectCreatedAt),
                   WithCount(tasks)))
  }

  /** The projects found are newest first, each with the number of its tasks. */
  lemma SearchProjectsOrdered(projects: seq<Project>, tasks: seq<Task>, userId: string, text: Option<string>)
    requires ValidText(text)
    ensures var r := SearchProjects(projects, tasks, userId, text).value;
      && (forall i, j :: 0 <= i < j < |r| ==> r[i].project.createdAt >= r[j].project.createdAt)
      && (forall i :: 0 <= i < |r| ==> r[i].taskCount == |TasksOfProject(tasks, r[i].project.id)|)
  {
    var sorted := SortDescBy(Filter(projects, ProjectSearchSelector(userId, text)), ProjectCreatedAt);
    var r := SearchProjects(projects, tasks, userId, text).value;
    assert forall i :: 0 <= i < |r| ==> r[i] == ListedProject(sorted[i], |TasksOfProject(tasks, sorted[i].id)|);
  }

  /** Every project found is one of the caller's projects that match the text. */
  lemma SearchProjectsSound(projects: seq<Project>, tasks: seq<Task>, userId: string, text: Option<string>)
    requires ValidText(text)
    ensures var r := SearchProjects(projects, tasks, userId, text).value;
      forall i :: 0 <= i < |r| ==> r[i].project in projects && ProjectSearchSelects(userId, text, r[i].project)
  {
    var sel := Filter(projects, ProjectSearchSelector(userId, text));
    var sorted := SortDescBy(sel, ProjectCreatedAt);
    var r := SearchProjects(projects, tasks, userId, text).value;
    forall i | 0 <= i < |r|
      ensures r[i].project in projects && ProjectSearchSelects(userId, text, r[i].project)
    {
      assert r[i].project == sorted[i];
      assert sorted[i] in multiset(sel);
    }
  }

  /** Every project of the caller that matches the text is found. */
  lemma SearchProjectsComplete(projects: seq<Project>, tasks: seq<Task>, userId: string, text: Option<string>,
                               p: Project)
    requires ValidText(text)
    requires p in projects && ProjectSearchSelects(userId, text, p)
    ensures var r := SearchProjects(projects, tasks, userId, text).value;
      exists i :: 0 <= i < |r| && r[i].project == p
  {
    var sel := Filter(projects, ProjectSearchSelector(userId, text));
    var sorted := SortDescBy(sel, ProjectCreatedAt);
    var r := SearchProjects(projects, tasks, userId, text).value;
    var j :| 0 <= j < |projects| && projects[j] == p;
    assert p in multiset(sorted);
    var k :| 0 <= k < |sorted| && sorted[k] == p;
    assert r[k].project == p;
  }

  // ---------------------------------------------------------------------------------------
  // Counters

  /** `tasksByStatus`: the status names of the caller's tasks folded into a counter each. */
  function CountByStatus(tasks: seq<Task>, userId: string): map<string, nat>
  {
    CountFold(TasksCreatedBy(tasks, userId), StatusKey)
  }

  /** `tasksByPriority`: the priority names of the caller's tasks folded into a counter each. */
  function CountByPriority(tasks: seq<Task>, userId: string): map<string, nat>
  {
    CountFold(TasksCreatedBy(tasks, userId), PriorityKey)
  }

  /** The status counters are those of the report's status breakdown: each is the number of
      the caller's tasks with that status, only statuses that occur have one, and together
      they count every task of the caller. */
  lemma CountByStatusIsBreakdown(tasks: seq<Task>, userId: string, s: TaskStatus)
    ensures var mine := TasksCreatedBy(tasks, userId);
      var r := CountByStatus(tasks, userId);
      && r == Counts(MapSeq(mine, StatusKey))
      && Get(r, StatusName(s)) == |Filter(mine, HasKey(StatusKey, StatusName(s)))|
      && (StatusName(s) in r <==> exists i :: 0 <= i < |mine| && StatusKey(mine[i]) == StatusName(s))
      && SumOf(Distinct(MapSeq(mine, StatusKey)), r) == |mine|
  {
    var mine := TasksCreatedBy(tasks, userId);
    CountFoldIsCounts(mine, StatusKey);
    BreakdownCounts(mine, StatusKey, StatusName(s));
  }

  /** The priority counters are those of the report's priority breakdown. */
  lemma CountByPriorityIsBreakdown(tasks: seq<Task>, userId: string, p: TaskPriority)
    ensures var mine := TasksCreatedBy(tasks, userId);
      var r := CountByPriority(tasks, userId);
      && r == Counts(MapSeq(mine, PriorityKey))
      && Get(r, PriorityName(p)) == |Filter(mine, HasKey(PriorityKey, PriorityName(p)))|
      && (PriorityName(p) in r <==> exists i :: 0 <= i < |mine| && PriorityKey(mine[i]) == PriorityName(p))
      && SumOf(Distinct(MapSeq(mine, PriorityKey)), r) == |mine|
  {
    var mine := TasksCreatedBy(tasks, userId);
    CountFoldIsCounts(mine, PriorityKey);
    BreakdownCounts(mine, PriorityKey, PriorityName(p));
  }

  // ---------------------------------------------------------------------------------------
  // Assigned tasks

  function AssignedToUser(userId: string): Task -> bool
  {
    (t: Task) => t.assignedToId == Some(userId)
  }

  /** `myAssignedTasks`: the tasks assigned to the caller, whoever created them, newest
      first. */
  function MyAssignedTasks(tasks: seq<Task>, userId: string): seq<Task>
  {
    SortDescBy(Filter(tasks, AssignedToUser(userId)), TaskCreatedAt)
  }

  /** The assigned tasks are exactly those whose assignee is the caller, newest first. */
  lemma MyAssignedTasksExactly(tasks: seq<Task>, userId: string, t: Task)
    ensures var r := MyAssignedTasks(tasks, userId);
      && SortedDescBy(r, TaskCreatedAt)
      && (t in r <==> t in tasks && t.assignedToId == Some(userId))
  {
    var sel := Filter(tasks, AssignedToUser(userId));
    assert t in MyAssignedTasks(tasks, userId) <==> t in multiset(sel);
    if t in tasks && t.assignedToId == Some(userId) {
      var j :| 0 <= j < |tasks| && tasks[j] == t;
    }
  }
}
