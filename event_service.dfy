/** The audit-event service: appending system events, fetching the oldest unprocessed batch,
    bulk-marking events as processed, and fanning out one notification per admin.
    Every database call may fail; a failure is a boolean parameter, and as in the service
    no failure escapes: fetches then return nothing and writes are skipped. */
module EventService {
  import opened Wrappers
  import opened Seqs
  import opened Schema

  /** The largest number of events one fetch returns. */
  const BATCH_SIZE: nat := 100

  /** The rows a `createSystemEvent` call adds: one unprocessed row under the next id, or none
      when the insert fails. */
  function StampEvents(d: EventDraft, id: nat, now: int, fails: bool): seq<SystemEvent>
  {
    if fails then [] else [SystemEvent(id, d.kind, d.userId, d.userName, d.projectId, d.taskId,
                                     d.action, d.details, false, None, now)]
  }

  /** `createSystemEvent`: inserts exactly one unprocessed event row, or nothing when the insert
      fails. It neither notifies anybody nor marks the row processed. The `details` object is
      stored as given (`null` when absent). */
  method CreateSystemEvent(db: Database, d: EventDraft, now: int, fails: bool)
    requires db.Valid()
    modifies db`events, db`nextEventId
    ensures db.Valid()
    ensures fails ==> db.events == old(db.events) && db.nextEventId == old(db.nextEventId)
    ensures !fails ==> db.events == old(db.events) + [SystemEvent(old(db.nextEventId), d.kind,
      d.userId, d.userName, d.projectId, d.taskId, d.action, d.details, false, None, now)]
    ensures db.events == old(db.events) + StampEvents(d, old(db.nextEventId), now, fails)
  {
    if !fails {
      var _ := db.InsertEvent(d, now);
    }
  }

  predicate Unprocessed(e: SystemEvent) { !e.processed }

  function CreatedAt(e: SystemEvent): int { e.createdAt }

  /** `getUnprocessedEvents`: `BATCH_SIZE` unprocessed events of the table, or all of them when
      there are fewer, oldest first; none when the query fails. */
  function GetUnprocessedEvents(events: seq<SystemEvent>, fails: bool): (r: seq<SystemEvent>)
    ensures |r| <= BATCH_SIZE
    ensures !fails ==> |r| == if |Filter(events, Unprocessed)| < BATCH_SIZE then |Filter(events, Unprocessed)| else BATCH_SIZE
    ensures forall i :: 0 <= i < |r| ==> r[i] in events && !r[i].processed
    ensures SortedBy(r, CreatedAt)
    ensures fails ==> r == []
  {
    if fails then []
    else
      var pending := Filter(events, Unprocessed);
      var sorted := SortBy(pending, CreatedAt);
      var r := Take(sorted, BATCH_SIZE);
      assert |r| == if |pending| < BATCH_SIZE then |pending| else BATCH_SIZE;
      PrefixMembers(r, sorted, pending);
      r
  }

  /** Every event of a prefix of a sorting of `pending` is one of `pending`'s events. */
  lemma PrefixMembers(r: seq<SystemEvent>, sorted: seq<SystemEvent>, pending: seq<SystemEvent>)
    requires |r| <= |sorted| && r == sorted[..|r|] && multiset(sorted) == multiset(pending)
    ensures forall i :: 0 <= i < |r| ==> r[i] in pending
  {
    forall i | 0 <= i < |r| ensures r[i] in pending {
      assert r[i] == sorted[i];
      assert sorted[i] in multiset(sorted);
    }
  }

  /** The batch holds the oldest unprocessed events: an unprocessed event left out of it is no
      older than any event in it. */
  lemma BatchIsOldest(events: seq<SystemEvent>, y: SystemEvent)
    requires y in events && !y.processed
    requires y !in GetUnprocessedEvents(events, false)
    ensures forall x :: x in GetUnprocessedEvents(events, false) ==> x.createdAt <= y.createdAt
  {
    var sorted := SortBy(Filter(events, Unprocessed), CreatedAt);
    assert y in multiset(sorted);
    TakeSortedIsLeast(sorted, BATCH_SIZE, CreatedAt, y);
  }

  /** When there are no more than `BATCH_SIZE` unprocessed events, one fetch returns all of
      them. */
  lemma BatchHoldsAllPending(events: seq<SystemEvent>, y: SystemEvent)
    requires |Filter(events, Unprocessed)| <= BATCH_SIZE
    requires y in events && !y.processed
    ensures y in GetUnprocessedEvents(events, false)
  {
    var pending := Filter(events, Unprocessed);
    var sorted := SortBy(pending, CreatedAt);
    assert GetUnprocessedEvents(events, false) == sorted by {
      assert |sorted| <= BATCH_SIZE;
      assert Take(sorted, BATCH_SIZE) == sorted;
    }
    assert y in pending;
    assert y in multiset(sorted);
  }

  /** The ids of a batch, in batch order. */
  function EventIds(batch: seq<SystemEvent>): (ids: seq<int>)
    ensures |ids| == |batch|
    ensures forall i :: 0 <= i < |batch| ==> ids[i] == batch[i].id
  {
    MapSeq(batch, EventKey)
  }

  /** The table after `updateMany({ where: { id: { in: ids } }, data: { processed: true,
      processedAt: now } })`: exactly the listed events become processed at `now`; every other
      event is unchanged. */
  function MarkProcessed(events: seq<SystemEvent>, ids: seq<int>, now: int): (r: seq<SystemEvent>)
    ensures |r| == |events|
    ensures forall i :: 0 <= i < |events| && events[i].id in ids ==>
      r[i] == events[i].(processed := true, processedAt := Some(now))
    ensures forall i :: 0 <= i < |events| && events[i].id !in ids ==> r[i] == events[i]
  {
    UpdateWhere(events, (e: SystemEvent) => e.id in ids,
                (e: SystemEvent) => e.(processed := true, processedAt := Some(now)))
  }

  /** Marking keeps every event id, so the table stays in id order below its counter. */
  lemma MarkProcessedKeepsIds(events: seq<SystemEvent>, ids: seq<int>, now: int, next: int)
    requires Increasing(events, EventKey) && AllBelow(events, EventKey, next)
    ensures Increasing(MarkProcessed(events, ids, now), EventKey)
    ensures AllBelow(MarkProcessed(events, ids, now), EventKey, next)
  {
    var r := MarkProcessed(events, ids, now);
    assert forall i :: 0 <= i < |events| ==> r[i].id == events[i].id;
  }

  /** Events whose ids were marked are never fetched again. */
  lemma MarkedNotRefetched(events: seq<SystemEvent>, ids: seq<int>, now: int, e: SystemEvent)
    requires e in GetUnprocessedEvents(MarkProcessed(events, ids, now), false)
    ensures e.id !in ids
  {
    var r := MarkProcessed(events, ids, now);
    var k :| 0 <= k < |r| && r[k] == e;
  }

  /** With ids unique, marking the ids of a batch drawn from the table marks exactly the
      events of the batch. */
  lemma MarkProcessedExactlyBatch(events: seq<SystemEvent>, batch: seq<SystemEvent>, now: int, i: int)
    requires Increasing(events, EventKey)
    requires forall j :: 0 <= j < |batch| ==> batch[j] in events
    requires 0 <= i < |events|
    ensures events[i].id in EventIds(batch) <==> events[i] in batch
  {
    var ids := EventIds(batch);
    if events[i].id in ids {
      var j :| 0 <= j < |ids| && ids[j] == events[i].id;
      var k :| 0 <= k < |events| && events[k] == batch[j];
      assert EventKey(events[k]) == EventKey(events[i]);
      assert k == i;
    }
    if events[i] in batch {
      var j :| 0 <= j < |batch| && batch[j] == events[i];
      assert ids[j] == events[i].id;
    }
  }

  /** `markEventsAsProcessed`: no write at all for an empty id list or a failed update;
      otherwise the listed events are marked processed at `now`. */
  method MarkEventsAsProcessed(db: Database, ids: seq<int>, now: int, fails: bool)
    requires db.Valid()
    modifies db`events
    ensures db.Valid()
    ensures |ids| == 0 || fails ==> db.events == old(db.events)
    ensures |ids| > 0 && !fails ==> db.events == MarkProcessed(old(db.events), ids, now)
  {
    if |ids| == 0 {
      return;
    }
    if !fails {
      MarkProcessedKeepsIds(db.events, ids, now, db.nextEventId);
      db.events := MarkProcessed(db.events, ids, now);
    }
  }

  predicate IsAdmin(u: User) { u.role == "ADMIN" }

  /** `getAdminUsers`: the users whose role is "ADMIN", in table order; none when the query
      fails. */
  function GetAdminUsers(users: seq<User>, fails: bool): (r: seq<User>)
    ensures fails ==> r == []
    ensures forall i :: 0 <= i < |r| ==> r[i] in users && r[i].role == "ADMIN"
    ensures !fails ==> forall i :: 0 <= i < |users| && users[i].role == "ADMIN" ==> users[i] in r
  {
    if fails then [] else Filter(users, IsAdmin)
  }

  /** The notification type recorded for an event type: the project and task creation and
      deletion types keep their names, an update becomes a status change, and every other type
      becomes a comment. */
  function MapEventType(kind: EventKind): (t: NotificationType)
    ensures kind.ProjectCreatedEvent? <==> t == ProjectCreated
    ensures kind.ProjectDeletedEvent? <==> t == ProjectDeleted
    ensures kind.TaskCreatedEvent? <==> t == TaskCreated
    ensures kind.TaskDeletedEvent? <==> t == TaskDeleted
    ensures kind.TaskUpdatedEvent? <==> t == TaskStatusChanged
    ensures kind.CommentAddedEvent? || kind.OtherEvent? <==> t == CommentAdded
  {
    match kind
    case ProjectCreatedEvent => ProjectCreated
    case ProjectDeletedEvent => ProjectDeleted
    case TaskCreatedEvent => TaskCreated
    case TaskDeletedEvent => TaskDeleted
    case TaskUpdatedEvent => TaskStatusChanged
    case _ => CommentAdded
  }

  /** `id` is the id of an admin user. */
  predicate AdminId(users: seq<User>, id: string)
  {
    exists j :: 0 <= j < |users| && users[j].role == "ADMIN" && users[j].id == id
  }

  /** The rows handed to `createMany`, one per admin in admin order. */
  function AdminDrafts(admins: seq<User>, kind: EventKind, message: string): (r: seq<NotificationDraft>)
    ensures |r| == |admins|
    ensures forall i :: 0 <= i < |admins| ==>
      r[i] == NotificationDraft(admins[i].id, message, MapEventType(kind))
  {
    MapSeq(admins, (a: User) => NotificationDraft(a.id, message, MapEventType(kind)))
  }

  /** The notifications `notifyAdminsOfEvent` ends up inserting: none when there are no admins
      or a query fails, otherwise one row per admin. `Distinct` drops equal rows within the
      batch; Prisma's `skipDuplicates` instead skips rows that clash on a unique key. With unique
      user ids no two rows are equal, so `Distinct` changes nothing (`FanOutOnePerAdmin`). */
  function AdminFanOut(users: seq<User>, kind: EventKind, message: string, fetchFails: bool, writeFails: bool)
    : (r: seq<NotificationDraft>)
    ensures fetchFails || writeFails ==> r == []
    ensures NoDuplicates(r)
    ensures forall i :: 0 <= i < |r| ==>
      r[i].message == message && r[i].kind == MapEventType(kind) && AdminId(users, r[i].userId)
  {
    var admins := GetAdminUsers(users, fetchFails);
    if |admins| == 0 || writeFails then []
    else
      var drafts := AdminDrafts(admins, kind, message);
      DraftsForAdmins(users, fetchFails, kind, message);
      Distinct(drafts)
  }

  /** Every admin row carries the message, the mapped type and an admin's id. */
  lemma DraftsForAdmins(users: seq<User>, fetchFails: bool, kind: EventKind, message: string)
    ensures forall d :: d in AdminDrafts(GetAdminUsers(users, fetchFails), kind, message) ==>
      d.message == message && d.kind == MapEventType(kind) && AdminId(users, d.userId)
  {
    var admins := GetAdminUsers(users, fetchFails);
    var drafts := AdminDrafts(admins, kind, message);
    forall d | d in drafts
      ensures d.message == message && d.kind == MapEventType(kind) && AdminId(users, d.userId)
    {
      var k :| 0 <= k < |drafts| && drafts[k] == d;
      var j :| 0 <= j < |users| && users[j] == admins[k];
    }
  }

  /** When user ids are unique and no query fails, every admin gets exactly one notification,
      in admin order, with the same message and the same mapped type. */
  lemma FanOutOnePerAdmin(users: seq<User>, kind: EventKind, message: string)
    requires forall i, j :: 0 <= i < j < |users| ==> users[i].id != users[j].id
    ensures AdminFanOut(users, kind, message, false, false)
         == AdminDrafts(GetAdminUsers(users, false), kind, message)
  {
    var admins := GetAdminUsers(users, false);
    var drafts := AdminDrafts(admins, kind, message);
    FilterKeysDistinct(users, IsAdmin, (u: User) => u.id);
    assert forall i, j :: 0 <= i < j < |admins| ==> admins[i].id != admins[j].id;
    assert forall i, j :: 0 <= i < j < |drafts| ==> drafts[i].userId != drafts[j].userId;
    DistinctOfNoDuplicates(drafts);
  }

  /** `notifyAdminsOfEvent`: fetches the admins, returns with no write when there are none, and
      otherwise inserts their notifications; a failing insert is swallowed. */
  method NotifyAdminsOfEvent(db: Database, kind: EventKind, message: string, now: int,
                             fetchFails: bool, writeFails: bool) returns (rows: seq<NotificationDraft>)
    requires db.Valid()
    modifies db`notifications, db`nextNotificationId
    ensures db.Valid()
    ensures rows == AdminFanOut(db.users, kind, message, fetchFails, writeFails)
    ensures db.notifications == old(db.notifications) + StampNotifications(rows, old(db.nextNotificationId), now)
    ensures db.nextNotificationId == old(db.nextNotificationId) + |rows|
  {
    var admins := GetAdminUsers(db.users, fetchFails);
    if |admins| == 0 || writeFails {
      return [];
    }
    rows := Distinct(AdminDrafts(admins, kind, message));
    db.InsertNotifications(rows, now);
  }
}
