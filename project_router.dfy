/** The project procedures: the caller's projects newest first, one project with its tasks,
    and create, update and delete, each guarded by the creator check; create and delete record
    a system event, update records none. */
module ProjectRouter {
  import opened Wrappers
  import opened Seqs
  import opened Schema
  import opened EventService

  function ProjectCreatedAt(p: Project): int { p.createdAt }

  /** A listed project with the number of its tasks (`_count.tasks`). */
  datatype ListedProject = ListedProject(project: Project, taskCount: nat)

  /** The tasks of project `id`, in table order. */
  function TasksOfProject(tasks: seq<Task>, id: int): seq<Task>
  {
    Filter(tasks, (t: Task) => t.projectId == id)
  }

  function ProjectsOf(projects: seq<Project>, userId: string): seq<Project>
  {
    Filter(projects, (p: Project) => p.createdById == userId)
  }

  function WithCount(tasks: seq<Task>): Project -> ListedProject
  {
    (p: Project) => ListedProject(p, |TasksOfProject(tasks, p.id)|)
  }

  /** `list`: the caller's projects, newest first, each with its task count. */
  function List(projects: seq<Project>, tasks: seq<Task>, userId: string): (r: seq<ListedProject>)
    ensures |r| == |ProjectsOf(projects, userId)|
  {
    MapSeq(SortDescBy(ProjectsOf(projects, userId), ProjectCreatedAt), WithCount(tasks))
  }

  /** The listed projects are the caller's, newest first, with their task counts. */
  lemma ListIsCallersProjects(projects: seq<Project>, tasks: seq<Task>, userId: string)
    ensures var r := List(projects, tasks, userId);
      && (forall i :: 0 <= i < |r| ==> r[i].project in projects && r[i].project.createdById == userId)
      && (forall i :: 0 <= i < |r| ==> r[i].taskCount == |TasksOfProject(tasks, r[i].project.id)|)
      && (forall i, j :: 0 <= i < j < |r| ==> r[i].project.createdAt >= r[j].project.createdAt)
  {
    var mine := ProjectsOf(projects, userId);
    var sorted := SortDescBy(mine, ProjectCreatedAt);
    var r := List(projects, tasks, userId);
    assert forall i :: 0 <= i < |r| ==> r[i] == ListedProject(sorted[i], |TasksOfProject(tasks, sorted[i].id)|);
    forall i | 0 <= i < |r| ensures r[i].project in projects && r[i].project.createdById == userId {
      assert sorted[i] in multiset(mine);
    }
  }

  /** Every project of the caller is listed. */
  lemma ListHasAll(projects: seq<Project>, tasks: seq<Task>, userId: string, p: Project)
    requires p in projects && p.createdById == userId
    ensures exists i :: 0 <= i < |List(projects, tasks, userId)| && List(projects, tasks, userId)[i].project == p
  {
    var mine := ProjectsOf(projects, userId);
    var sorted := SortDescBy(mine, ProjectCreatedAt);
    var j :| 0 <= j < |projects| && projects[j] == p;
    assert p in mine;
    assert p in multiset(sorted);
    var k :| 0 <= k < |sorted| && sorted[k] == p;
    assert List(projects, tasks, userId)[k].project == p;
  }

  /** A project as `getById` returns it, with its tasks. */
  datatype ProjectView = ProjectView(project: Project, tasks: seq<Task>)

  /** Why a project procedure is refused before it reads or writes more: a bad id, a missing
      project, or a caller who is not its creator. */
  function GuardProject(projects: seq<Project>, id: int, userId: string): (r: Result<Project>)
    ensures id <= 0 ==> r == Err(BadRequest)
    ensures id > 0 && FindProject(projects, id).None? ==> r == Err(NotFound)
    ensures r.Ok? <==> id > 0 && FindProject(projects, id).Some? && FindProject(projects, id).value.createdById == userId
    ensures r.Ok? ==> r.value == FindProject(projects, id).value && r.value.id == id
    ensures r.Err? ==> r.error in {BadRequest, NotFound, Forbidden}
  {
    if id <= 0 then Err(BadRequest)
    else match FindProject(projects, id)
      case None => Err(NotFound)
      case Some(p) => if p.createdById != userId then Err(Forbidden) else Ok(p)
  }

  /** `getById`: after the checks, the project and its tasks. */
  function GetById(projects: seq<Project>, tasks: seq<Task>, id: int, userId: string): (r: Result<ProjectView>)
    ensures r.Ok? <==> GuardProject(projects, id, userId).Ok?
    ensures r.Err? ==> r.error == GuardProject(projects, id, userId).error
    ensures r.Ok? ==> r.value.project.id == id && r.value.project.createdById == userId
    ensures r.Ok? ==> forall i :: 0 <= i < |r.value.tasks| ==> r.value.tasks[i] in tasks && r.value.tasks[i].projectId == id
    ensures r.Ok? ==> forall i :: 0 <= i < |tasks| && tasks[i].projectId == id ==> tasks[i] in r.value.tasks
  {
    match GuardProject(projects, id, userId)
    case Err(e) => Err(e)
    case Ok(p) => Ok(ProjectView(p, TasksOfProject(tasks, id)))
  }

  /** The fields of `create` and `update`. */
  datatype ProjectInput = ProjectInput(name: string, description: Option<string>)

  /** The create schema: a name of 1 to 255 characters and a description of at most 1000. */
  predicate ValidProject(i: ProjectInput)
  {
    1 <= |i.name| <= 255 && (i.description.Some? ==> |i.description.value| <= 1000)
  }

  function ProjectEvent(kind: EventKind, s: Session, id: int, verb: string, name: string): EventDraft
  {
    EventDraft(kind, s.userId, Some(ActorName(s)), Some(id), None, verb + name,
               Some(map["projectName" := name]))
  }

  /** `create`: a bad input is refused; otherwise one project created by the caller and one
      PROJECT_CREATED event naming it. */
  method Create(db: Database, s: Session, i: ProjectInput, now: int, eventFails: bool)
    returns (r: Result<Project>)
    requires db.Valid()
    modifies db`projects, db`nextProjectId, db`events, db`nextEventId
    ensures db.Valid()
    ensures r.Ok? <==> ValidProject(i)
    ensures r.Err? ==> r.error == BadRequest && unchanged(db)
    ensures r.Ok? ==>
      && r.value == Project(old(db.nextProjectId), i.name, i.description, s.userId, now)
      && db.projects == old(db.projects) + [r.value]
      && db.events == old(db.events) + StampEvents(ProjectEvent(ProjectCreatedEvent, s, r.value.id, "Created project: ", i.name),
                                                   old(db.nextEventId), now, eventFails)
  {
    if !ValidProject(i) {
      return Err(BadRequest);
    }
    var p := db.InsertProject(i.name, i.description, s.userId, now);
    CreateSystemEvent(db, ProjectEvent(ProjectCreatedEvent, s, p.id, "Created project: ", p.name), now, eventFails);
    r := Ok(p);
  }

  /** The row after `project.update`: a new name, the description replaced unless absent, and
      nothing else changed. */
  function Renamed(p: Project, i: ProjectInput): (r: Project)
    ensures r.id == p.id && r.createdById == p.createdById && r.createdAt == p.createdAt
    ensures r.name == i.name
    ensures r.description == if i.description.Some? then i.description else p.description
  {
    p.(name := i.name, description := Keep(i.description, p.description))
  }

  /** `update`: after the input and creator checks, rewrites the name and description of that
      one project; no event is recorded. */
  method Update(db: Database, s: Session, id: int, i: ProjectInput) returns (r: Result<Project>)
    requires db.Valid()
    modifies db`projects
    ensures db.Valid()
    ensures !ValidProject(i) ==> r == Err(BadRequest)
    ensures ValidProject(i) && GuardProject(old(db.projects), id, s.userId).Err? ==> r == GuardProject(old(db.projects), id, s.userId)
    ensures r.Ok? <==> ValidProject(i) && GuardProject(old(db.projects), id, s.userId).Ok?
    ensures r.Err? ==> unchanged(db)
    ensures r.Ok? ==> r.value == Renamed(GuardProject(old(db.projects), id, s.userId).value, i)
                      && db.projects == ReplaceByKey(old(db.projects), ProjectKey, r.value)
  {
    if !ValidProject(i) {
      return Err(BadRequest);
    }
    var g := GuardProject(db.projects, id, s.userId);
    if g.Err? {
      return g;
    }
    var n := Renamed(g.value, i);
    db.UpdateProjectRow(n);
    r := Ok(n);
  }

  /** An update rewrites only the row it names: every other project is as it was, and the named
      one keeps its id, creator and creation time. */
  lemma UpdateOnlyThatProject(projects: seq<Project>, p: Project, i: ProjectInput, k: int)
    requires 0 <= k < |projects|
    ensures var r := ReplaceByKey(projects, ProjectKey, Renamed(p, i));
      && (projects[k].id != p.id ==> r[k] == projects[k])
      && (projects[k].id == p.id ==> r[k].createdById == p.createdById && r[k].createdAt == p.createdAt)
  {
  }

  /** `delete`: after the checks, removes the project and records PROJECT_DELETED with its
      name; the result is the id. */
  method Delete(db: Database, s: Session, id: int, now: int, eventFails: bool) returns (r: Result<int>)
    requires db.Valid()
    modifies db`projects, db`events, db`nextEventId
    ensures db.Valid()
    ensures r.Ok? <==> GuardProject(old(db.projects), id, s.userId).Ok?
    ensures r.Err? ==> r.error == GuardProject(old(db.projects), id, s.userId).error && unchanged(db)
    ensures r.Ok? ==> var p := GuardProject(old(db.projects), id, s.userId).value;
      && r.value == id
      && db.projects == WithoutKey(old(db.projects), ProjectKey, id)
      && db.events == old(db.events) + StampEvents(ProjectEvent(ProjectDeletedEvent, s, id, "Deleted project: ", p.name),
                                                   old(db.nextEventId), now, eventFails)
  {
    var g := GuardProject(db.projects, id, s.userId);
    if g.Err? {
      return Err(g.error);
    }
    db.DeleteProjectRow(id);
    CreateSystemEvent(db, ProjectEvent(ProjectDeletedEvent, s, id, "Deleted project: ", g.value.name), now, eventFails);
    r := Ok(id);
  }
}
