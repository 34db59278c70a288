/** The task procedures: create, update and delete with their audit rows (one History row per
    changed tracked field, assignment and completion notifications, one system event), and the
    per-user statistics. The input records hold the values after schema parsing, so omitted
    `status`/`priority`/`estimatedHours` already carry their defaults. */
module TaskRouter {
  import opened Wrappers
  import opened Seqs
  import opened Strings
  import opened Schema
  import opened EventService

  /** The fields an update is diffed on, in the order their History rows are written. */
  datatype TrackedField = StatusField | TitleField | PriorityField | AssigneeField | DueDateField

  const TRACKED_FIELDS: seq<TrackedField> := [StatusField, TitleField, PriorityField, AssigneeField, DueDateField]

  function FieldRank(f: TrackedField): int
  {
    match f
    case StatusField => 0
    case TitleField => 1
    case PriorityField => 2
    case AssigneeField => 3
    case DueDateField => 4
  }

  function FieldAction(f: TrackedField): HistoryAction
  {
    match f
    case StatusField => StatusChanged
    case TitleField => TitleChanged
    case PriorityField => PriorityChanged
    case AssigneeField => Assigned
    case DueDateField => DueDateChanged
  }

  /** The text of a date; the ISO rendering is replaced by the decimal one, which like it is
      injective. */
  function DateText(d: int): (r: string)
    ensures r != []
  {
    IntToString(d)
  }

  /** A due date as compared and recorded: its text, or "" when absent. */
  function DueText(d: Option<int>): string
  {
    match d
    case Some(x) => DateText(x)
    case None => ""
  }

  /** Due dates are compared through their text without losing anything. */
  lemma DueTextInjective(a: Option<int>, b: Option<int>)
    ensures DueText(a) == DueText(b) <==> a == b
  {
    if a.Some? && b.Some? && DueText(a) == DueText(b) {
      IntToStringInjective(a.value, b.value);
    }
  }

  /** `String(assignedToId ?? "")`. */
  function AssigneeText(a: Option<string>): string
  {
    a.GetOr("")
  }

  /** The recorded value of a tracked field. */
  function FieldText(t: Task, f: TrackedField): string
  {
    match f
    case StatusField => StatusName(t.status)
    case TitleField => t.title
    case PriorityField => PriorityName(t.priority)
    case AssigneeField => AssigneeText(t.assignedToId)
    case DueDateField => DueText(t.dueDate)
  }

  /** The test the update applies to each field: status, title and priority raw, the assignee
      with absence read as "", the due date through its text. */
  predicate Differs(o: Task, n: Task, f: TrackedField)
  {
    match f
    case StatusField => o.status != n.status
    case TitleField => o.title != n.title
    case PriorityField => o.priority != n.priority
    case AssigneeField => AssigneeText(o.assignedToId) != AssigneeText(n.assignedToId)
    case DueDateField => DueText(o.dueDate) != DueText(n.dueDate)
  }

  /** The tests agree with the recorded text: a field differs exactly when the values written
      for it differ. */
  lemma DiffersIffTextDiffers(o: Task, n: Task, f: TrackedField)
    ensures Differs(o, n, f) <==> FieldText(o, f) != FieldText(n, f)
  {
    match f
    case StatusField =>
      ParseStatusName(o.status);
      ParseStatusName(n.status);
    case PriorityField =>
      ParsePriorityName(o.priority);
      ParsePriorityName(n.priority);
    case _ =>
  }

  /** `[f]` when the update changes `f`, else nothing. */
  function IfChanged(o: Task, n: Task, f: TrackedField): seq<TrackedField>
  {
    if Differs(o, n, f) then [f] else []
  }

  /** The fields an update changes. */
  function ChangedFields(o: Task, n: Task): seq<TrackedField>
  {
    IfChanged(o, n, StatusField) + IfChanged(o, n, TitleField) + IfChanged(o, n, PriorityField)
    + IfChanged(o, n, AssigneeField) + IfChanged(o, n, DueDateField)
  }

  lemma InIfChanged(o: Task, n: Task, g: TrackedField, f: TrackedField)
    ensures f in IfChanged(o, n, g) <==> f == g && Differs(o, n, f)
  {
  }

  /** A field is listed exactly when the update changes it. */
  lemma ChangedFieldsIff(o: Task, n: Task, f: TrackedField)
    ensures f in ChangedFields(o, n) <==> Differs(o, n, f)
  {
    InIfChanged(o, n, StatusField, f);
    InIfChanged(o, n, TitleField, f);
    InIfChanged(o, n, PriorityField, f);
    InIfChanged(o, n, AssigneeField, f);
    InIfChanged(o, n, DueDateField, f);
  }

  /** The changed fields come in the order status, title, priority, assignee, due date. */
  lemma ChangedFieldsOrdered(o: Task, n: Task)
    ensures Increasing(ChangedFields(o, n), FieldRank)
  {
  }

  /** The History row recording a change of `f`. */
  function ChangeEntry(taskId: int, userId: string, o: Task, n: Task, f: TrackedField): HistoryDraft
  {
    HistoryDraft(taskId, userId, FieldAction(f), FieldText(o, f), FieldText(n, f))
  }

  /** The change entries of `fs`, in order. */
  function EntriesOf(taskId: int, userId: string, o: Task, n: Task, fs: seq<TrackedField>): (r: seq<HistoryDraft>)
    ensures |r| == |fs|
    ensures forall i :: 0 <= i < |fs| ==> r[i] == ChangeEntry(taskId, userId, o, n, fs[i])
  {
    if fs == [] then [] else [ChangeEntry(taskId, userId, o, n, fs[0])] + EntriesOf(taskId, userId, o, n, fs[1..])
  }

  lemma EntriesOfAppend(taskId: int, userId: string, o: Task, n: Task, a: seq<TrackedField>, b: seq<TrackedField>)
    ensures EntriesOf(taskId, userId, o, n, a + b) == EntriesOf(taskId, userId, o, n, a) + EntriesOf(taskId, userId, o, n, b)
  {
    var l := EntriesOf(taskId, userId, o, n, a + b);
    var r := EntriesOf(taskId, userId, o, n, a) + EntriesOf(taskId, userId, o, n, b);
    assert forall i :: 0 <= i < |l| ==> l[i] == r[i];
  }

  /** The rows of one field, as `createHistoryEntries` pushes them: the change entry when the
      field differs. */
  function FieldEntry(taskId: int, userId: string, o: Task, n: Task, f: TrackedField): seq<HistoryDraft>
  {
    if Differs(o, n, f) then [ChangeEntry(taskId, userId, o, n, f)] else []
  }

  /** The History rows `createHistoryEntries` writes, field by field. */
  function HistoryEntries(taskId: int, userId: string, o: Task, n: Task): seq<HistoryDraft>
  {
    FieldEntry(taskId, userId, o, n, StatusField) + FieldEntry(taskId, userId, o, n, TitleField)
    + FieldEntry(taskId, userId, o, n, PriorityField) + FieldEntry(taskId, userId, o, n, AssigneeField)
    + FieldEntry(taskId, userId, o, n, DueDateField)
  }

  lemma FieldEntryOf(taskId: int, userId: string, o: Task, n: Task, f: TrackedField)
    ensures FieldEntry(taskId, userId, o, n, f) == EntriesOf(taskId, userId, o, n, IfChanged(o, n, f))
  {
  }

  /** The rows are exactly one change entry per changed field, in field order. */
  lemma HistoryEntriesAreChanges(taskId: int, userId: string, o: Task, n: Task)
    ensures HistoryEntries(taskId, userId, o, n) == EntriesOf(taskId, userId, o, n, ChangedFields(o, n))
  {
    var s, t, p, a, d := IfChanged(o, n, StatusField), IfChanged(o, n, TitleField),
      IfChanged(o, n, PriorityField), IfChanged(o, n, AssigneeField), IfChanged(o, n, DueDateField);
    FieldEntryOf(taskId, userId, o, n, StatusField);
    FieldEntryOf(taskId, userId, o, n, TitleField);
    FieldEntryOf(taskId, userId, o, n, PriorityField);
    FieldEntryOf(taskId, userId, o, n, AssigneeField);
    FieldEntryOf(taskId, userId, o, n, DueDateField);
    EntriesOfAppend(taskId, userId, o, n, s + t + p + a, d);
    EntriesOfAppend(taskId, userId, o, n, s + t + p, a);
    EntriesOfAppend(taskId, userId, o, n, s + t, p);
    EntriesOfAppend(taskId, userId, o, n, s, t);
  }

  /** Each row records a real change of its field, with the old and the new value as text. */
  lemma HistoryEntriesRecordChanges(taskId: int, userId: string, o: Task, n: Task, i: int)
    requires 0 <= i < |HistoryEntries(taskId, userId, o, n)|
    ensures var e := HistoryEntries(taskId, userId, o, n)[i];
      exists f :: Differs(o, n, f) && e.action == FieldAction(f)
        && e.oldValue == FieldText(o, f) && e.newValue == FieldText(n, f) && e.oldValue != e.newValue
  {
    HistoryEntriesAreChanges(taskId, userId, o, n);
    var f := ChangedFields(o, n)[i];
    ChangedFieldsIff(o, n, f);
    DiffersIffTextDiffers(o, n, f);
  }

  /** An update writes no History row exactly when the five tracked fields agree. */
  lemma NoEntriesIffUnchanged(taskId: int, userId: string, o: Task, n: Task)
    ensures HistoryEntries(taskId, userId, o, n) == [] <==>
      o.status == n.status && o.title == n.title && o.priority == n.priority
      && AssigneeText(o.assignedToId) == AssigneeText(n.assignedToId) && o.dueDate == n.dueDate
  {
    DueTextInjective(o.dueDate, n.dueDate);
    HistoryEntriesAreChanges(taskId, userId, o, n);
  }

  /** The first half of `createHistoryEntries`: pushes one entry per changed field. */
  method BuildHistoryEntries(taskId: int, userId: string, o: Task, n: Task) returns (entries: seq<HistoryDraft>)
    ensures entries == HistoryEntries(taskId, userId, o, n)
  {
    entries := [];
    if o.status != n.status {
      entries := entries + [ChangeEntry(taskId, userId, o, n, StatusField)];
    }
    assert entries == FieldEntry(taskId, userId, o, n, StatusField);
    ghost var done := entries;
    if o.title != n.title {
      entries := entries + [ChangeEntry(taskId, userId, o, n, TitleField)];
    }
    assert entries == done + FieldEntry(taskId, userId, o, n, TitleField);
    done := entries;
    if o.priority != n.priority {
      entries := entries + [ChangeEntry(taskId, userId, o, n, PriorityField)];
    }
    assert entries == done + FieldEntry(taskId, userId, o, n, PriorityField);
    done := entries;
    if AssigneeText(o.assignedToId) != AssigneeText(n.assignedToId) {
      entries := entries + [ChangeEntry(taskId, userId, o, n, AssigneeField)];
    }
    assert entries == done + FieldEntry(taskId, userId, o, n, AssigneeField);
    done := entries;
    var oldDue := DueText(o.dueDate);
    var newDue := DueText(n.dueDate);
    if oldDue != newDue {
      entries := entries + [HistoryDraft(taskId, userId, DueDateChanged, oldDue, newDue)];
    }
    assert entries == done + FieldEntry(taskId, userId, o, n, DueDateField);
  }

  lemma HistoryStep(table: seq<History>, ds: seq<HistoryDraft>, k: int, first: nat, now: int,
                    pre: seq<History>, post: seq<History>)
    requires 0 <= k < |ds|
    requires pre == table + StampHistory(ds[..k], first, now)
    requires post == pre + StampHistory([ds[k]], first + k, now)
    ensures post == table + StampHistory(ds[..k + 1], first, now)
  {
    assert ds[..k + 1] == ds[..k] + [ds[k]];
    StampHistoryAppend(ds[..k], [ds[k]], first, now);
    var x := StampHistory(ds[..k], first, now);
    var y := StampHistory([ds[k]], first + k, now);
    assert (table + x) + y == table + (x + y);
  }

  /** The second half: inserts the entries one by one, in order. */
  method InsertHistoryEntries(db: Database, entries: seq<HistoryDraft>, now: int)
    requires db.Valid()
    modifies db`history, db`nextHistoryId
    ensures db.Valid()
    ensures db.history == old(db.history) + StampHistory(entries, old(db.nextHistoryId), now)
    ensures db.nextHistoryId == old(db.nextHistoryId) + |entries|
  {
    ghost var table := db.history;
    ghost var first := db.nextHistoryId;
    assert entries[..0] == [];
    for k := 0 to |entries|
      invariant db.Valid()
      invariant db.history == table + StampHistory(entries[..k], first, now)
      invariant db.nextHistoryId == first + k
    {
      ghost var pre := db.history;
      db.InsertHistory(entries[k], now);
      HistoryStep(table, entries, k, first, now, pre, db.history);
    }
    assert entries[..|entries|] == entries;
  }

  /** `createHistoryEntries`: appends the History rows of the update from `o` to `n`. */
  method CreateHistoryEntries(db: Database, taskId: int, userId: string, o: Task, n: Task, now: int)
    requires db.Valid()
    modifies db`history, db`nextHistoryId
    ensures db.Valid()
    ensures db.history == old(db.history) + StampHistory(HistoryEntries(taskId, userId, o, n), old(db.nextHistoryId), now)
    ensures db.nextHistoryId == old(db.nextHistoryId) + |HistoryEntries(taskId, userId, o, n)|
  {
    var entries := BuildHistoryEntries(taskId, userId, o, n);
    InsertHistoryEntries(db, entries, now);
  }

  /** The notice of a first assignment: the task had no assignee and now has one. */
  function NewAssignmentNotice(o: Task, n: Task): seq<NotificationDraft>
  {
    if !Present(o.assignedToId) && Present(n.assignedToId)
    then [NotificationDraft(n.assignedToId.value, "New task assigned: " + n.title, TaskAssigned)] else []
  }

  /** The notice of a reassignment: both assignees present and different. */
  function ReassignmentNotice(o: Task, n: Task): seq<NotificationDraft>
  {
    if Present(o.assignedToId) && Present(n.assignedToId) && o.assignedToId != n.assignedToId
    then [NotificationDraft(n.assignedToId.value, "Task reassigned: " + n.title, TaskAssigned)] else []
  }

  /** The notice of a completion: the status moves into COMPLETED and an assignee is present. */
  function CompletionNotice(o: Task, n: Task): seq<NotificationDraft>
  {
    if o.status != Completed && n.status == Completed && Present(n.assignedToId)
    then [NotificationDraft(n.assignedToId.value, "Task completed: " + n.title, TaskCompleted)] else []
  }

  /** The notifications `createNotifications` writes for an update from `o` to `n`, in order. */
  function UpdateNotifications(o: Task, n: Task): (r: seq<NotificationDraft>)
    ensures |r| <= 2
    ensures forall i :: 0 <= i < |r| ==> Present(n.assignedToId) && r[i].userId == n.assignedToId.value
  {
    NewAssignmentNotice(o, n) + ReassignmentNotice(o, n) + CompletionNotice(o, n)
  }

  predicate IsAssignedNotice(d: NotificationDraft) { d.kind == TaskAssigned }

  predicate IsCompletedNotice(d: NotificationDraft) { d.kind == TaskCompleted }

  /** A list of at most one notice of kind `k` is kept whole by the filter for `k` and dropped
      by the filter for the other kind. */
  lemma KindFilter(ds: seq<NotificationDraft>, k: NotificationType)
    requires |ds| <= 1 && forall i :: 0 <= i < |ds| ==> ds[i].kind == k
    ensures Filter(ds, IsAssignedNotice) == if k == TaskAssigned then ds else []
    ensures Filter(ds, IsCompletedNotice) == if k == TaskCompleted then ds else []
  {
    if ds != [] {
      assert ds == [ds[0]];
      FilterOne(ds[0], IsAssignedNotice);
      FilterOne(ds[0], IsCompletedNotice);
    }
  }

  /** Each notice list keeps or drops as a whole under a kind filter. */
  lemma NoticeKinds(o: Task, n: Task)
    ensures Filter(NewAssignmentNotice(o, n), IsAssignedNotice) == NewAssignmentNotice(o, n)
    ensures Filter(ReassignmentNotice(o, n), IsAssignedNotice) == ReassignmentNotice(o, n)
    ensures Filter(CompletionNotice(o, n), IsAssignedNotice) == []
    ensures Filter(NewAssignmentNotice(o, n), IsCompletedNotice) == []
    ensures Filter(ReassignmentNotice(o, n), IsCompletedNotice) == []
    ensures Filter(CompletionNotice(o, n), IsCompletedNotice) == CompletionNotice(o, n)
  {
    NewAssignmentKind(o, n);
    ReassignmentKind(o, n);
    CompletionKind(o, n);
  }

  lemma NewAssignmentKind(o: Task, n: Task)
    ensures Filter(NewAssignmentNotice(o, n), IsAssignedNotice) == NewAssignmentNotice(o, n)
    ensures Filter(NewAssignmentNotice(o, n), IsCompletedNotice) == []
  {
    KindFilter(NewAssignmentNotice(o, n), TaskAssigned);
  }

  lemma ReassignmentKind(o: Task, n: Task)
    ensures Filter(ReassignmentNotice(o, n), IsAssignedNotice) == ReassignmentNotice(o, n)
    ensures Filter(ReassignmentNotice(o, n), IsCompletedNotice) == []
  {
    KindFilter(ReassignmentNotice(o, n), TaskAssigned);
  }

  lemma CompletionKind(o: Task, n: Task)
    ensures Filter(CompletionNotice(o, n), IsAssignedNotice) == []
    ensures Filter(CompletionNotice(o, n), IsCompletedNotice) == CompletionNotice(o, n)
  {
    KindFilter(CompletionNotice(o, n), TaskCompleted);
  }

  /** The assignment notice an update should send: to a present new assignee that differs from
      the old one, "New task assigned" after no assignee and "Task reassigned" otherwise. */
  function ExpectedAssignedNotice(o: Task, n: Task): seq<NotificationDraft>
  {
    if Present(n.assignedToId) && AssigneeText(o.assignedToId) != AssigneeText(n.assignedToId)
    then [NotificationDraft(n.assignedToId.value,
            (if Present(o.assignedToId) then "Task reassigned: " else "New task assigned: ") + n.title,
            TaskAssigned)]
    else []
  }

  /** The two assignment notices together are the expected one. */
  lemma AssignmentPair(o: Task, n: Task)
    ensures NewAssignmentNotice(o, n) + ReassignmentNotice(o, n) == ExpectedAssignedNotice(o, n)
  {
    var a, b := NewAssignmentNotice(o, n), ReassignmentNotice(o, n);
    if !Present(n.assignedToId) {
      assert a == [] && b == [];
    } else if !Present(o.assignedToId) {
      assert AssigneeText(o.assignedToId) != AssigneeText(n.assignedToId);
      assert b == [];
    } else if o.assignedToId == n.assignedToId {
      assert a == [] && b == [];
    } else {
      assert AssigneeText(o.assignedToId) != AssigneeText(n.assignedToId);
      assert a == [];
    }
  }

  /** One TASK_ASSIGNED notification is sent exactly when the new assignee is present and is
      not the old one; it says "New task assigned" when there was no assignee before and
      "Task reassigned" otherwise. Clearing the assignee sends none. */
  lemma AssignedNoticeIff(o: Task, n: Task)
    ensures Filter(UpdateNotifications(o, n), IsAssignedNotice) == ExpectedAssignedNotice(o, n)
  {
    var a, b, c := NewAssignmentNotice(o, n), ReassignmentNotice(o, n), CompletionNotice(o, n);
    assert Filter(UpdateNotifications(o, n), IsAssignedNotice) == a + b by {
      FilterAppend(a + b, c, IsAssignedNotice);
      FilterAppend(a, b, IsAssignedNotice);
      NoticeKinds(o, n);
    }
    AssignmentPair(o, n);
  }

  /** One TASK_COMPLETED notification is sent exactly when the status moves into COMPLETED and
      an assignee is present; re-saving a completed task sends none. */
  lemma CompletedNoticeIff(o: Task, n: Task)
    ensures Filter(UpdateNotifications(o, n), IsCompletedNotice)
         == if o.status != Completed && n.status == Completed && Present(n.assignedToId)
            then [NotificationDraft(n.assignedToId.value, "Task completed: " + n.title, TaskCompleted)]
            else []
  {
    var a, b, c := NewAssignmentNotice(o, n), ReassignmentNotice(o, n), CompletionNotice(o, n);
    assert Filter(UpdateNotifications(o, n), IsCompletedNotice) == c by {
      FilterAppend(a + b, c, IsCompletedNotice);
      FilterAppend(a, b, IsCompletedNotice);
      NoticeKinds(o, n);
    }
  }

  /** Appends the notifications `ds` after those already written since `notes0`. */
  method AppendNotices(db: Database, ds: seq<NotificationDraft>, now: int,
                       ghost notes0: seq<Notification>, ghost next0: nat, ghost done: seq<NotificationDraft>)
    requires db.Valid()
    requires db.notifications == notes0 + StampNotifications(done, next0, now)
    requires db.nextNotificationId == next0 + |done|
    modifies db`notifications, db`nextNotificationId
    ensures db.Valid()
    ensures db.notifications == notes0 + StampNotifications(done + ds, next0, now)
    ensures db.nextNotificationId == next0 + |done + ds|
  {
    db.InsertNotifications(ds, now);
    AppendStampedNotifications(notes0, done, ds, next0, now);
  }

  /** `createNotifications`: each notice that applies is inserted on its own. */
  method CreateNotifications(db: Database, o: Task, n: Task, now: int)
    requires db.Valid()
    modifies db`notifications, db`nextNotificationId
    ensures db.Valid()
    ensures db.notifications
         == old(db.notifications) + StampNotifications(UpdateNotifications(o, n), old(db.nextNotificationId), now)
    ensures db.nextNotificationId == old(db.nextNotificationId) + |UpdateNotifications(o, n)|
  {
    ghost var notes0 := db.notifications;
    ghost var next0 := db.nextNotificationId;
    ghost var done: seq<NotificationDraft> := [];
    assert notes0 + StampNotifications([], next0, now) == notes0;
    if !Present(o.assignedToId) && Present(n.assignedToId) {
      AppendNotices(db, NewAssignmentNotice(o, n), now, notes0, next0, done);
    }
    done := NewAssignmentNotice(o, n);
    if Present(o.assignedToId) && Present(n.assignedToId) && o.assignedToId != n.assignedToId {
      AppendNotices(db, ReassignmentNotice(o, n), now, notes0, next0, done);
    }
    assert ReassignmentNotice(o, n) == [] ==> done + ReassignmentNotice(o, n) == done;
    done := done + ReassignmentNotice(o, n);
    if o.status != Completed && n.status == Completed {
      if Present(n.assignedToId) {
        AppendNotices(db, CompletionNotice(o, n), now, notes0, next0, done);
      }
    }
    assert CompletionNotice(o, n) == [] ==> done + CompletionNotice(o, n) == done;
  }

  /** The fields of `create`, after parsing. */
  datatype CreateInput = CreateInput(
    title: string, description: Option<string>, status: TaskStatus, priority: TaskPriority,
    projectId: int, assignedToId: Option<string>, dueDate: Option<int>, estimatedHours: real)

  /** The fields of `update`, after parsing; an absent optional field is `undefined`. */
  datatype UpdateInput = UpdateInput(
    id: int, title: string, description: Option<string>, status: TaskStatus, priority: TaskPriority,
    projectId: int, assignedToId: Option<string>, dueDate: Option<int>, estimatedHours: real,
    actualHours: Option<real>)

  /** The bounds of the create schema: a title of 1 to 500 characters, a description of at most
      2000, a positive project id and non-negative hours. */
  predicate ValidTaskFields(title: string, description: Option<string>, projectId: int, hours: real)
  {
    1 <= |title| <= 500 && (description.Some? ==> |description.value| <= 2000)
    && projectId > 0 && hours >= 0.0
  }

  predicate ValidCreate(i: CreateInput)
  {
    ValidTaskFields(i.title, i.description, i.projectId, i.estimatedHours)
  }

  predicate ValidUpdate(u: UpdateInput)
  {
    ValidTaskFields(u.title, u.description, u.projectId, u.estimatedHours)
    && u.id > 0 && (u.actualHours.Some? ==> u.actualHours.value >= 0.0)
  }

  /** The row after `task.update`: the given fields are written, the absent optional ones kept,
      and id, creator and creation time never change. */
  function ApplyUpdate(t: Task, u: UpdateInput, now: int): (r: Task)
    ensures r.id == t.id && r.createdById == t.createdById && r.createdAt == t.createdAt
    ensures r.title == u.title && r.status == u.status && r.priority == u.priority
    ensures r.projectId == u.projectId && r.estimatedHours == u.estimatedHours
    ensures u.assignedToId.None? ==> r.assignedToId == t.assignedToId
    ensures u.dueDate.None? ==> r.dueDate == t.dueDate
    ensures u.description.None? ==> r.description == t.description
    ensures u.actualHours.None? ==> r.actualHours == t.actualHours
  {
    t.(title := u.title, description := Keep(u.description, t.description), status := u.status,
       priority := u.priority, projectId := u.projectId, assignedToId := Keep(u.assignedToId, t.assignedToId),
       dueDate := Keep(u.dueDate, t.dueDate), estimatedHours := u.estimatedHours,
       actualHours := Keep(u.actualHours, t.actualHours), updatedAt := now)
  }

  /** The `details` of the TASK_CREATED event; an absent assignee is dropped by the
      serialization. */
  function CreatedDetails(title: string, i: CreateInput): Details
  {
    var base := map["taskTitle" := title, "priority" := PriorityName(i.priority)];
    if i.assignedToId.Some? then base["assignedTo" := i.assignedToId.value] else base
  }

  /** The row `create` writes for the caller under the next task id. */
  function CreatedTask(id: nat, s: Session, i: CreateInput, now: int): Task
  {
    Task(id, i.title, i.description, i.status, i.priority, i.projectId, i.assignedToId, s.userId,
         i.dueDate, i.estimatedHours, None, now, now)
  }

  /** The TASK_ASSIGNED notification of `create`, sent only when an assignee is given. */
  function CreatedNotices(i: CreateInput, title: string): seq<NotificationDraft>
  {
    if Present(i.assignedToId) then [NotificationDraft(i.assignedToId.value, "New task assigned: " + title, TaskAssigned)]
    else []
  }

  /** The TASK_CREATED event of `create`. */
  function CreatedEvent(s: Session, i: CreateInput, t: Task): EventDraft
  {
    EventDraft(TaskCreatedEvent, s.userId, Some(ActorName(s)), Some(i.projectId), Some(t.id),
               "Created task: " + t.title, Some(CreatedDetails(t.title, i)))
  }

  /** The writes of `create` once the input is valid: the task row, one CREATED History row
      (old value "", new value the title), the assignment notification and the event. */
  method WriteCreated(db: Database, s: Session, i: CreateInput, now: int, eventFails: bool)
    returns (t: Task)
    requires db.Valid()
    modifies db`tasks, db`nextTaskId, db`history, db`nextHistoryId
    modifies db`notifications, db`nextNotificationId, db`events, db`nextEventId
    ensures db.Valid()
    ensures t == CreatedTask(old(db.nextTaskId), s, i, now)
    ensures db.tasks == old(db.tasks) + [t]
    ensures db.history == old(db.history) + StampHistory([HistoryDraft(t.id, s.userId, Created, "", t.title)],
                                                         old(db.nextHistoryId), now)
    ensures db.notifications == old(db.notifications) + StampNotifications(CreatedNotices(i, t.title),
                                                                           old(db.nextNotificationId), now)
    ensures db.events == old(db.events) + StampEvents(CreatedEvent(s, i, t), old(db.nextEventId), now, eventFails)
  {
    t := db.InsertTask(CreatedTask(0, s, i, now), now);
    db.InsertHistory(HistoryDraft(t.id, s.userId, Created, "", t.title), now);
    db.InsertNotifications(CreatedNotices(i, t.title), now);
    CreateSystemEvent(db, CreatedEvent(s, i, t), now, eventFails);
  }

  /** `create`: a bad input is refused before any write; otherwise the writes of
      `WriteCreated`. */
  method Create(db: Database, s: Session, i: CreateInput, now: int, eventFails: bool)
    returns (r: Result<Task>)
    requires db.Valid()
    modifies db`tasks, db`nextTaskId, db`history, db`nextHistoryId
    modifies db`notifications, db`nextNotificationId, db`events, db`nextEventId
    ensures db.Valid()
    ensures !ValidCreate(i) <==> r == Err(BadRequest)
    ensures r.Ok? <==> ValidCreate(i)
    ensures r.Err? ==> unchanged(db)
    ensures r.Ok? ==> var t := r.value;
      && t == CreatedTask(old(db.nextTaskId), s, i, now)
      && db.tasks == old(db.tasks) + [t]
      && db.history == old(db.history) + StampHistory([HistoryDraft(t.id, s.userId, Created, "", t.title)],
                                                      old(db.nextHistoryId), now)
      && db.notifications == old(db.notifications) + StampNotifications(CreatedNotices(i, t.title),
                                                                        old(db.nextNotificationId), now)
      && db.events == old(db.events) + StampEvents(CreatedEvent(s, i, t), old(db.nextEventId), now, eventFails)
  {
    if !ValidCreate(i) {
      return Err(BadRequest);
    }
    var t := WriteCreated(db, s, i, now, eventFails);
    r := Ok(t);
  }

  /** The `details` of the TASK_UPDATED event. */
  function UpdatedDetails(o: Task, n: Task): Details
  {
    map["taskTitle" := n.title, "oldStatus" := StatusName(o.status), "newStatus" := StatusName(n.status),
        "oldPriority" := PriorityName(o.priority), "newPriority" := PriorityName(n.priority)]
  }

  /** Why an update or delete is refused before any write: bad input, a missing task, or a
      caller who is not its creator. */
  function GuardTask(tasks: seq<Task>, id: int, userId: string): (r: Result<Task>)
    ensures r.Ok? <==> FindTask(tasks, id).Some? && FindTask(tasks, id).value.createdById == userId
    ensures r.Ok? ==> r.value == FindTask(tasks, id).value
    ensures r == Err(NotFound) <==> FindTask(tasks, id).None?
    ensures r.Err? ==> r.error == NotFound || r.error == Forbidden
  {
    match FindTask(tasks, id)
    case None => Err(NotFound)
    case Some(t) => if t.createdById != userId then Err(Forbidden) else Ok(t)
  }

  /** `update`: after the checks, writes the new row, then the History rows of the change, the
      notifications of the change and a TASK_UPDATED event. The History and notification rows
      are written outside the transaction, so nothing here ties them to the task write. */
  method Update(db: Database, s: Session, u: UpdateInput, now: int, eventFails: bool)
    returns (r: Result<Task>)
    requires db.Valid()
    modifies db`tasks, db`history, db`nextHistoryId
    modifies db`notifications, db`nextNotificationId, db`events, db`nextEventId
    ensures db.Valid()
    ensures !ValidUpdate(u) ==> r == Err(BadRequest)
    ensures ValidUpdate(u) && GuardTask(old(db.tasks), u.id, s.userId).Err? ==> r == GuardTask(old(db.tasks), u.id, s.userId)
    ensures r.Err? ==> unchanged(db)
    ensures r.Ok? <==> ValidUpdate(u) && GuardTask(old(db.tasks), u.id, s.userId).Ok?
    ensures r.Ok? ==> var o := GuardTask(old(db.tasks), u.id, s.userId).value; var n := r.value;
      && n == ApplyUpdate(o, u, now)
      && db.tasks == ReplaceByKey(old(db.tasks), TaskKey, n)
      && db.history == old(db.history) + StampHistory(HistoryEntries(u.id, s.userId, o, n), old(db.nextHistoryId), now)
      && db.notifications == old(db.notifications) + StampNotifications(UpdateNotifications(o, n), old(db.nextNotificationId), now)
      && db.events == old(db.events) + (if eventFails then [] else
           [SystemEvent(old(db.nextEventId), TaskUpdatedEvent, s.userId, Some(ActorName(s)), Some(u.projectId),
                        Some(u.id), "Updated task: " + n.title, Some(UpdatedDetails(o, n)), false, None, now)])
  {
    if !ValidUpdate(u) {
      return Err(BadRequest);
    }
    var g := GuardTask(db.tasks, u.id, s.userId);
    if g.Err? {
      return g;
    }
    var o := g.value;
    var n := ApplyUpdate(o, u, now);
    db.UpdateTaskRow(n);
    CreateHistoryEntries(db, u.id, s.userId, o, n, now);
    CreateNotifications(db, o, n, now);
    CreateSystemEvent(db, EventDraft(TaskUpdatedEvent, s.userId, Some(ActorName(s)), Some(u.projectId),
                                     Some(u.id), "Updated task: " + n.title, Some(UpdatedDetails(o, n))),
                      now, eventFails);
    r := Ok(n);
  }

  /** An update changes only the row it names. */
  lemma UpdateTouchesOneRow(tasks: seq<Task>, n: Task, i: int)
    requires 0 <= i < |tasks| && tasks[i].id != n.id
    ensures ReplaceByKey(tasks, TaskKey, n)[i] == tasks[i]
  {
  }

  /** `delete`: after the checks, writes one DELETED History row (old value the title, new value
      ""), removes the task and records a TASK_DELETED event; the result is the id. */
  method Delete(db: Database, s: Session, id: int, now: int, eventFails: bool) returns (r: Result<int>)
    requires db.Valid()
    modifies db`tasks, db`history, db`nextHistoryId, db`events, db`nextEventId
    ensures db.Valid()
    ensures id <= 0 ==> r == Err(BadRequest)
    ensures id > 0 && GuardTask(old(db.tasks), id, s.userId).Err? ==> r == Err(GuardTask(old(db.tasks), id, s.userId).error)
    ensures r.Err? ==> unchanged(db)
    ensures r.Ok? <==> id > 0 && GuardTask(old(db.tasks), id, s.userId).Ok?
    ensures r.Ok? ==> r.value == id
    ensures r.Ok? ==> var t := GuardTask(old(db.tasks), id, s.userId).value;
      && db.history == old(db.history) + StampHistory([HistoryDraft(t.id, s.userId, Deleted, t.title, "")],
                                                      old(db.nextHistoryId), now)
      && db.tasks == WithoutKey(old(db.tasks), TaskKey, id)
      && db.events == old(db.events) + (if eventFails then [] else
           [SystemEvent(old(db.nextEventId), TaskDeletedEvent, s.userId, Some(ActorName(s)), Some(t.projectId),
                        Some(id), "Deleted task: " + t.title, Some(map["taskTitle" := t.title]), false, None, now)])
  {
    if id <= 0 {
      return Err(BadRequest);
    }
    var g := GuardTask(db.tasks, id, s.userId);
    if g.Err? {
      return Err(g.error);
    }
    var t := g.value;
    db.InsertHistory(HistoryDraft(t.id, s.userId, Deleted, t.title, ""), now);
    db.DeleteTaskRow(id);
    CreateSystemEvent(db, EventDraft(TaskDeletedEvent, s.userId, Some(ActorName(s)), Some(t.projectId),
                                     Some(id), "Deleted task: " + t.title, Some(map["taskTitle" := t.title])),
                      now, eventFails);
    r := Ok(id);
  }

  datatype TaskStats = TaskStats(total: nat, completed: nat, pending: nat, completionRate: nat)

  predicate IsCompleted(t: Task) { t.status == Completed }

  predicate NotCompleted(t: Task) { t.status != Completed }

  /** The tasks `userId` created, in table order. */
  function TasksCreatedBy(tasks: seq<Task>, userId: string): (r: seq<Task>)
    ensures forall i :: 0 <= i < |r| ==> r[i] in tasks && r[i].createdById == userId
    ensures forall i :: 0 <= i < |tasks| && tasks[i].createdById == userId ==> tasks[i] in r
  {
    Filter(tasks, (t: Task) => t.createdById == userId)
  }

  /** The completion rate of a share of a positive whole: the exact percentage rounded half up,
      computed on integers. */
  function RoundedPercent(part: nat, whole: nat): (r: nat)
    requires part <= whole && whole > 0
    ensures 2 * whole * r <= 200 * part + whole < 2 * whole * (r + 1)
    ensures r <= 100
  {
    var q := (200 * part + whole) / (2 * whole);
    assert q < 101 by {
      DivBelow(200 * part + whole, 2 * whole, 101);
    }
    q
  }

  lemma DivBelow(a: nat, d: nat, b: nat)
    requires d > 0 && a < d * b
    ensures a / d < b
  {
    var q := a / d;
    assert d * q <= a;
    assert d * (b - q) > 0;
  }

  /** `getStats`: counts of the caller's tasks. */
  function GetStats(tasks: seq<Task>, userId: string): (r: TaskStats)
    ensures r.total == |TasksCreatedBy(tasks, userId)|
    ensures r.completed == |Filter(TasksCreatedBy(tasks, userId), IsCompleted)|
    ensures r.completed + r.pending == r.total
    ensures r.total == 0 ==> r.completionRate == 0
    ensures r.total > 0 ==> r.completionRate == RoundedPercent(r.completed, r.total)
  {
    var mine := TasksCreatedBy(tasks, userId);
    var completed := |Filter(mine, IsCompleted)|;
    var pending := |Filter(mine, NotCompleted)|;
    FilterPartition(mine, IsCompleted, NotCompleted);
    TaskStats(|mine|, completed, pending, if |mine| > 0 then RoundedPercent(completed, |mine|) else 0)
  }
}
