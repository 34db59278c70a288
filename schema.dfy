/** The database the procedures read and write: the enumerations and rows of the tables the
    audit and notification pipeline touches, and the in-memory `Database` whose tables are
    sequences in id order, each with its auto-increment counter. */
module Schema {
  import opened Wrappers
  import opened Seqs
  import opened Strings

  datatype TaskStatus = Pending | InProgress | Completed | Cancelled

  /** The enum value as stored and sent to the client. */
  function StatusName(s: TaskStatus): string
  {
    match s
    case Pending => "PENDING"
    case InProgress => "IN_PROGRESS"
    case Completed => "COMPLETED"
    case Cancelled => "CANCELLED"
  }

  /** The status a stored or submitted name denotes, if any. */
  function ParseStatus(name: string): Option<TaskStatus>
  {
    if name == "PENDING" then Some(Pending)
    else if name == "IN_PROGRESS" then Some(InProgress)
    else if name == "COMPLETED" then Some(Completed)
    else if name == "CANCELLED" then Some(Cancelled)
    else None
  }

  /** Every status is read back from its name, so distinct statuses have distinct names. */
  lemma ParseStatusName(t: TaskStatus)
    ensures ParseStatus(StatusName(t)) == Some(t)
  {
    match t
    case Pending =>
    case InProgress =>
      assert StatusName(t)[0] == 'I';
    case Completed =>
      assert StatusName(t)[0] == 'C' && StatusName(t)[1] == 'O';
    case Cancelled =>
      assert StatusName(t)[0] == 'C' && StatusName(t)[1] == 'A';
  }

  datatype TaskPriority = Low | Medium | High | Critical

  function PriorityName(p: TaskPriority): string
  {
    match p
    case Low => "LOW"
    case Medium => "MEDIUM"
    case High => "HIGH"
    case Critical => "CRITICAL"
  }

  function ParsePriority(name: string): Option<TaskPriority>
  {
    if name == "LOW" then Some(Low)
    else if name == "MEDIUM" then Some(Medium)
    else if name == "HIGH" then Some(High)
    else if name == "CRITICAL" then Some(Critical)
    else None
  }

  lemma ParsePriorityName(p: TaskPriority)
    ensures ParsePriority(PriorityName(p)) == Some(p)
  {
    match p
    case Low =>
    case Medium =>
      assert PriorityName(p)[0] == 'M';
    case High =>
      assert PriorityName(p)[0] == 'H';
    case Critical =>
      assert PriorityName(p)[0] == 'C';
  }

  datatype HistoryAction =
    | Created | StatusChanged | TitleChanged | PriorityChanged | Assigned | DueDateChanged | Deleted

  function ActionName(a: HistoryAction): string
  {
    match a
    case Created => "CREATED"
    case StatusChanged => "STATUS_CHANGED"
    case TitleChanged => "TITLE_CHANGED"
    case PriorityChanged => "PRIORITY_CHANGED"
    case Assigned => "ASSIGNED"
    case DueDateChanged => "DUE_DATE_CHANGED"
    case Deleted => "DELETED"
  }

  /** Distinct actions have distinct names. */
  lemma ActionNameInjective(a: HistoryAction, b: HistoryAction)
    requires ActionName(a) == ActionName(b)
    ensures a == b
  {
  }

  /** The notification types the server writes and the client knows. */
  datatype NotificationType =
    | TaskAssigned | TaskUpdated | TaskCompleted | TaskCreated | TaskDeleted | TaskStatusChanged
    | ProjectCreated | ProjectDeleted | CommentAdded

  function TypeName(t: NotificationType): string
  {
    match t
    case TaskAssigned => "TASK_ASSIGNED"
    case TaskUpdated => "TASK_UPDATED"
    case TaskCompleted => "TASK_COMPLETED"
    case TaskCreated => "TASK_CREATED"
    case TaskDeleted => "TASK_DELETED"
    case TaskStatusChanged => "TASK_STATUS_CHANGED"
    case ProjectCreated => "PROJECT_CREATED"
    case ProjectDeleted => "PROJECT_DELETED"
    case CommentAdded => "COMMENT_ADDED"
  }

  /** The event types of the audit trail: the six the procedures record, and any other value
      of the stored enumeration under its name. */
  datatype EventKind =
    | ProjectCreatedEvent | ProjectDeletedEvent | TaskCreatedEvent | TaskUpdatedEvent
    | TaskDeletedEvent | CommentAddedEvent | OtherEvent(name: string)

  datatype User = User(id: string, email: string, name: Option<string>, role: string)

  datatype Project = Project(
    id: nat, name: string, description: Option<string>, createdById: string, createdAt: int)

  /** A task row. Hours are numbers of the client, kept as reals. */
  datatype Task = Task(
    id: nat, title: string, description: Option<string>, status: TaskStatus,
    priority: TaskPriority, projectId: int, assignedToId: Option<string>, createdById: string,
    dueDate: Option<int>, estimatedHours: real, actualHours: Option<real>,
    createdAt: int, updatedAt: int)

  datatype Comment = Comment(id: nat, text: string, taskId: int, userId: string, createdAt: int)

  datatype History = History(
    id: nat, taskId: int, userId: string, action: HistoryAction,
    oldValue: string, newValue: string, timestamp: int)

  datatype Notification = Notification(
    id: nat, userId: string, message: string, kind: NotificationType, read: bool, createdAt: int)

  /** The `details` object of an event, field name to value; fields whose value is
      `undefined` are absent, as `JSON.stringify` drops them. The stored text is identified
      with the object it serializes. */
  type Details = map<string, string>

  datatype SystemEvent = SystemEvent(
    id: nat, kind: EventKind, userId: string, userName: Option<string>, projectId: Option<int>,
    taskId: Option<int>, action: string, details: Option<Details>, processed: bool,
    processedAt: Option<int>, createdAt: int)

  /** A string id is truthy: present and not empty. */
  predicate Present(a: Option<string>)
  {
    a.Some? && a.value != ""
  }

  /** Prisma's reading of an optional field: `undefined` keeps the stored value. */
  function Keep<T>(given: Option<T>, stored: Option<T>): (r: Option<T>)
    ensures given.None? ==> r == stored
    ensures given.Some? ==> r == given
  {
    if given.Some? then given else stored
  }

  /** The signed-in user as the session carries it. */
  datatype Session = Session(userId: string, name: Option<string>, email: Option<string>)

  /** `session.user.name ?? session.user.email ?? "Unknown"`, the name events record. */
  function ActorName(s: Session): (r: string)
    ensures s.name.Some? ==> r == s.name.value
    ensures s.name.None? && s.email.Some? ==> r == s.email.value
    ensures s.name.None? && s.email.None? ==> r == "Unknown"
  {
    match s.name
    case Some(n) => n
    case None => s.email.GetOr("Unknown")
  }

  /** A row to insert, before the database gives it an id and a time stamp. */
  datatype HistoryDraft = HistoryDraft(
    taskId: int, userId: string, action: HistoryAction, oldValue: string, newValue: string)

  datatype NotificationDraft = NotificationDraft(userId: string, message: string, kind: NotificationType)

  datatype EventDraft = EventDraft(
    kind: EventKind, userId: string, userName: Option<string>, projectId: Option<int>,
    taskId: Option<int>, action: string, details: Option<Details>)

  function ProjectKey(p: Project): int { p.id }
  function TaskKey(t: Task): int { t.id }
  function CommentKey(c: Comment): int { c.id }
  function HistoryKey(h: History): int { h.id }
  function NotificationKey(n: Notification): int { n.id }
  function EventKey(e: SystemEvent): int { e.id }

  /** History rows for `ds` with ids from `first` on, all stamped `now`. */
  function StampHistory(ds: seq<HistoryDraft>, first: nat, now: int): (r: seq<History>)
    ensures |r| == |ds| && Consecutive(r, HistoryKey, first)
    ensures forall i :: 0 <= i < |ds| ==>
      r[i] == History(first + i, ds[i].taskId, ds[i].userId, ds[i].action, ds[i].oldValue, ds[i].newValue, now)
  {
    seq(|ds|, i requires 0 <= i < |ds| =>
      History(first + i, ds[i].taskId, ds[i].userId, ds[i].action, ds[i].oldValue, ds[i].newValue, now))
  }

  /** Unread notification rows for `ds` with ids from `first` on. */
  function StampNotifications(ds: seq<NotificationDraft>, first: nat, now: int): (r: seq<Notification>)
    ensures |r| == |ds| && Consecutive(r, NotificationKey, first)
    ensures forall i :: 0 <= i < |ds| ==>
      r[i] == Notification(first + i, ds[i].userId, ds[i].message, ds[i].kind, false, now)
  {
    seq(|ds|, i requires 0 <= i < |ds| =>
      Notification(first + i, ds[i].userId, ds[i].message, ds[i].kind, false, now))
  }

  /** Stamping rows in two batches gives the same rows as stamping them at once. */
  lemma StampNotificationsAppend(a: seq<NotificationDraft>, b: seq<NotificationDraft>, first: nat, now: int)
    ensures StampNotifications(a + b, first, now)
         == StampNotifications(a, first, now) + StampNotifications(b, first + |a|, now)
  {
  }

  /** Appending a second stamped batch to a table extends it as stamping both batches at once. */
  lemma AppendStampedNotifications(table: seq<Notification>, a: seq<NotificationDraft>, b: seq<NotificationDraft>,
                                   first: nat, now: int)
    ensures (table + StampNotifications(a, first, now)) + StampNotifications(b, first + |a|, now)
         == table + StampNotifications(a + b, first, now)
  {
    StampNotificationsAppend(a, b, first, now);
    var x := StampNotifications(a, first, now);
    var y := StampNotifications(b, first + |a|, now);
    assert (table + x) + y == table + (x + y);
  }

  lemma StampHistoryAppend(a: seq<HistoryDraft>, b: seq<HistoryDraft>, first: nat, now: int)
    ensures StampHistory(a + b, first, now) == StampHistory(a, first, now) + StampHistory(b, first + |a|, now)
  {
  }

  /** The rows of one table, as the procedures find them. */
  function FindTask(tasks: seq<Task>, id: int): Option<Task> { FindByKey(tasks, TaskKey, id) }
  function FindProject(projects: seq<Project>, id: int): Option<Project> { FindByKey(projects, ProjectKey, id) }
  function FindComment(comments: seq<Comment>, id: int): Option<Comment> { FindByKey(comments, CommentKey, id) }
  function FindNotification(ns: seq<Notification>, id: int): Option<Notification> { FindByKey(ns, NotificationKey, id) }

  /** A table's ids: increasing in row order and all below the table's counter. */
  predicate KeyedBy<T>(s: seq<T>, key: T -> int, next: int)
  {
    Increasing(s, key) && AllBelow(s, key, next)
  }

  /** The tables, each a sequence of rows in id order, and their id counters. */
  class Database {
    var users: seq<User>
    var projects: seq<Project>
    var tasks: seq<Task>
    var comments: seq<Comment>
    var history: seq<History>
    var notifications: seq<Notification>
    var events: seq<SystemEvent>
    var nextProjectId: nat
    var nextTaskId: nat
    var nextCommentId: nat
    var nextHistoryId: nat
    var nextNotificationId: nat
    var nextEventId: nat

    /** Ids are unique: every table is in increasing id order below its counter, and no two
        users share an id. */
    ghost predicate Valid()
      reads this
    {
      && KeyedBy(projects, ProjectKey, nextProjectId)
      && KeyedBy(tasks, TaskKey, nextTaskId)
      && KeyedBy(comments, CommentKey, nextCommentId)
      && KeyedBy(history, HistoryKey, nextHistoryId)
      && KeyedBy(notifications, NotificationKey, nextNotificationId)
      && KeyedBy(events, EventKey, nextEventId)
      && (forall i, j :: 0 <= i < j < |users| ==> users[i].id != users[j].id)
    }

    /** An empty database with the given users. */
    constructor (users0: seq<User>)
      requires forall i, j :: 0 <= i < j < |users0| ==> users0[i].id != users0[j].id
      ensures Valid()
      ensures users == users0 && projects == [] && tasks == [] && comments == []
      ensures history == [] && notifications == [] && events == []
    {
      users := users0;
      projects, tasks, comments, history, notifications, events := [], [], [], [], [], [];
      nextProjectId, nextTaskId, nextCommentId := 1, 1, 1;
      nextHistoryId, nextNotificationId, nextEventId := 1, 1, 1;
    }

    method InsertProject(name: string, description: Option<string>, createdById: string, now: int)
      returns (p: Project)
      requires Valid()
      modifies this`projects, this`nextProjectId
      ensures Valid()
      ensures p == Project(old(nextProjectId), name, description, createdById, now)
      ensures projects == old(projects) + [p] && nextProjectId == old(nextProjectId) + 1
    {
      p := Project(nextProjectId, name, description, createdById, now);
      AppendConsecutive(projects, [p], ProjectKey, nextProjectId);
      projects := projects + [p];
      nextProjectId := nextProjectId + 1;
    }

    /** Inserts `t` under the next task id, stamped `now`. */
    method InsertTask(t: Task, now: int) returns (row: Task)
      requires Valid()
      modifies this`tasks, this`nextTaskId
      ensures Valid()
      ensures row == t.(id := old(nextTaskId), createdAt := now, updatedAt := now)
      ensures tasks == old(tasks) + [row] && nextTaskId == old(nextTaskId) + 1
    {
      row := t.(id := nextTaskId, createdAt := now, updatedAt := now);
      AppendConsecutive(tasks, [row], TaskKey, nextTaskId);
      tasks := tasks + [row];
      nextTaskId := nextTaskId + 1;
    }

    method InsertComment(text: string, taskId: int, userId: string, now: int) returns (c: Comment)
      requires Valid()
      modifies this`comments, this`nextCommentId
      ensures Valid()
      ensures c == Comment(old(nextCommentId), text, taskId, userId, now)
      ensures comments == old(comments) + [c] && nextCommentId == old(nextCommentId) + 1
    {
      c := Comment(nextCommentId, text, taskId, userId, now);
      AppendConsecutive(comments, [c], CommentKey, nextCommentId);
      comments := comments + [c];
      nextCommentId := nextCommentId + 1;
    }

    method InsertHistory(d: HistoryDraft, now: int)
      requires Valid()
      modifies this`history, this`nextHistoryId
      ensures Valid()
      ensures history == old(history) + StampHistory([d], old(nextHistoryId), now)
      ensures nextHistoryId == old(nextHistoryId) + 1
    {
      var rows := StampHistory([d], nextHistoryId, now);
      AppendConsecutive(history, rows, HistoryKey, nextHistoryId);
      history := history + rows;
      nextHistoryId := nextHistoryId + 1;
    }

    /** `notification.create` for one draft, or `createMany` for several. */
    method InsertNotifications(ds: seq<NotificationDraft>, now: int)
      requires Valid()
      modifies this`notifications, this`nextNotificationId
      ensures Valid()
      ensures notifications == old(notifications) + StampNotifications(ds, old(nextNotificationId), now)
      ensures nextNotificationId == old(nextNotificationId) + |ds|
    {
      var rows := StampNotifications(ds, nextNotificationId, now);
      AppendConsecutive(notifications, rows, NotificationKey, nextNotificationId);
      notifications := notifications + rows;
      nextNotificationId := nextNotificationId + |ds|;
    }

    /** `systemEvent.create`: the new row is unprocessed. */
    method InsertEvent(d: EventDraft, now: int) returns (e: SystemEvent)
      requires Valid()
      modifies this`events, this`nextEventId
      ensures Valid()
      ensures e == SystemEvent(old(nextEventId), d.kind, d.userId, d.userName, d.projectId,
                               d.taskId, d.action, d.details, false, None, now)
      ensures events == old(events) + [e] && nextEventId == old(nextEventId) + 1
    {
      e := SystemEvent(nextEventId, d.kind, d.userId, d.userName, d.projectId, d.taskId,
                       d.action, d.details, false, None, now);
      AppendConsecutive(events, [e], EventKey, nextEventId);
      events := events + [e];
      nextEventId := nextEventId + 1;
    }

    /** `task.update` by id: the row with the id of `row` becomes `row`. */
    method UpdateTaskRow(row: Task)
      requires Valid()
      modifies this`tasks
      ensures Valid() && tasks == ReplaceByKey(old(tasks), TaskKey, row)
    {
      tasks := ReplaceByKey(tasks, TaskKey, row);
    }

    /** `task.delete` by id. */
    method DeleteTaskRow(id: int)
      requires Valid()
      modifies this`tasks
      ensures Valid() && tasks == WithoutKey(old(tasks), TaskKey, id)
    {
      tasks := WithoutKey(tasks, TaskKey, id);
    }

    method UpdateProjectRow(row: Project)
      requires Valid()
      modifies this`projects
      ensures Valid() && projects == ReplaceByKey(old(projects), ProjectKey, row)
    {
      projects := ReplaceByKey(projects, ProjectKey, row);
    }

    method DeleteProjectRow(id: int)
      requires Valid()
      modifies this`projects
      ensures Valid() && projects == WithoutKey(old(projects), ProjectKey, id)
    {
      projects := WithoutKey(projects, ProjectKey, id);
    }

    method DeleteCommentRow(id: int)
      requires Valid()
      modifies this`comments
      ensures Valid() && comments == WithoutKey(old(comments), CommentKey, id)
    {
      comments := WithoutKey(comments, CommentKey, id);
    }

    method UpdateNotificationRow(row: Notification)
      requires Valid()
      modifies this`notifications
      ensures Valid() && notifications == ReplaceByKey(old(notifications), NotificationKey, row)
    {
      notifications := ReplaceByKey(notifications, NotificationKey, row);
    }

    method DeleteNotificationRow(id: int)
      requires Valid()
      modifies this`notifications
      ensures Valid() && notifications == WithoutKey(old(notifications), NotificationKey, id)
    {
      notifications := WithoutKey(notifications, NotificationKey, id);
    }
  }
}
