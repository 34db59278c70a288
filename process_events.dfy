/** The sweep that turns unprocessed audit events into admin notifications: fetch one batch,
    notify the admins of each event in fetch order, then mark the whole batch processed. */
module ProcessEvents {
  import opened Wrappers
  import opened Seqs
  import opened Schema
  import opened EventService

  /** The bracketed tag that heads the message of a known event type; other types have
      none. */
  function EventTag(kind: EventKind): (t: string)
    ensures t == [] <==> kind.OtherEvent?
  {
    match kind
    case ProjectCreatedEvent => "[PROYECTO CREADO] "
    case ProjectDeletedEvent => "[PROYECTO ELIMINADO] "
    case TaskCreatedEvent => "[TAREA CREADA] "
    case TaskUpdatedEvent => "[TAREA ACTUALIZADA] "
    case TaskDeletedEvent => "[TAREA ELIMINADA] "
    case CommentAddedEvent => "[COMENTARIO AGREGADO] "
    case OtherEvent(_) => ""
  }

  /** `buildEventMessage`: "[TAG] user action" for the six known types, "user action" for any
      other, where a missing user name reads "Unknown User". */
  function BuildEventMessage(kind: EventKind, userName: Option<string>, action: string): (m: string)
    ensures var user := userName.GetOr("Unknown User");
      && (kind == ProjectCreatedEvent ==> m == "[PROYECTO CREADO] " + user + " " + action)
      && (kind == ProjectDeletedEvent ==> m == "[PROYECTO ELIMINADO] " + user + " " + action)
      && (kind == TaskCreatedEvent ==> m == "[TAREA CREADA] " + user + " " + action)
      && (kind == TaskUpdatedEvent ==> m == "[TAREA ACTUALIZADA] " + user + " " + action)
      && (kind == TaskDeletedEvent ==> m == "[TAREA ELIMINADA] " + user + " " + action)
      && (kind == CommentAddedEvent ==> m == "[COMENTARIO AGREGADO] " + user + " " + action)
      && (kind.OtherEvent? ==> m == user + " " + action)
  {
    var user := userName.GetOr("Unknown User");
    var tag := EventTag(kind);
    assert kind.OtherEvent? ==> tag + user == user;
    tag + user + " " + action
  }

  /** Every message ends with the event's action, after the user and a space. */
  lemma MessageEndsWithAction(kind: EventKind, userName: Option<string>, action: string)
    ensures var m := BuildEventMessage(kind, userName, action);
      var user := userName.GetOr("Unknown User");
      |m| >= |user| + 1 + |action| && m[|m| - |action| - |user| - 1..] == user + " " + action
  {
    var user := userName.GetOr("Unknown User");
    var m := BuildEventMessage(kind, userName, action);
    var tail := user + " " + action;
    if EventTag(kind) != [] {
      var head := EventTag(kind);
      assert m == head + tail;
      assert m[|m| - |tail|..] == tail;
    } else {
      assert m == tail;
    }
  }

  function EventMessage(e: SystemEvent): string
  {
    BuildEventMessage(e.kind, e.userName, e.action)
  }

  /** Which database calls of a sweep fail: the fetch of the batch, the admin query and the
      insert while notifying about the event at a given batch position, and the final update. */
  datatype SweepFaults = SweepFaults(fetch: bool, adminFetch: set<int>, write: set<int>, mark: bool)

  /** `d` carries the message and the mapped type of some event of `batch`. */
  predicate FromBatch(d: NotificationDraft, batch: seq<SystemEvent>)
  {
    exists i :: 0 <= i < |batch| && d.message == EventMessage(batch[i]) && d.kind == MapEventType(batch[i].kind)
  }

  predicate AllFromBatch(ds: seq<NotificationDraft>, batch: seq<SystemEvent>)
  {
    forall k :: 0 <= k < |ds| ==> FromBatch(ds[k], batch)
  }

  /** The notifications written while notifying about the events of `batch`, in batch order. */
  function SweepDrafts(users: seq<User>, batch: seq<SystemEvent>, f: SweepFaults): seq<NotificationDraft>
  {
    if batch == [] then []
    else
      var n := |batch| - 1;
      SweepDrafts(users, batch[..n], f) + FanOutAt(users, batch[n], n, f)
  }

  /** Every notification of a sweep carries the message and the mapped type of one of the
      events of the batch. */
  lemma {:induction false} SweepDraftsFromBatch(users: seq<User>, batch: seq<SystemEvent>, f: SweepFaults)
    ensures AllFromBatch(SweepDrafts(users, batch, f), batch)
  {
    if batch != [] {
      var n := |batch| - 1;
      var init := SweepDrafts(users, batch[..n], f);
      var last := FanOutAt(users, batch[n], n, f);
      SweepDraftsFromBatch(users, batch[..n], f);
      AllFromBatchPrefix(init, batch, n);
      AllFromBatchAt(users, batch, n, f);
      AllFromBatchAppend(init, last, batch);
    }
  }

  /** The notifications written while notifying about the event at position `n`. */
  function FanOutAt(users: seq<User>, e: SystemEvent, n: int, f: SweepFaults): seq<NotificationDraft>
  {
    AdminFanOut(users, e.kind, EventMessage(e), n in f.adminFetch, n in f.write)
  }

  lemma AllFromBatchPrefix(ds: seq<NotificationDraft>, batch: seq<SystemEvent>, n: int)
    requires 0 <= n <= |batch|
    requires AllFromBatch(ds, batch[..n])
    ensures AllFromBatch(ds, batch)
  {
    forall k | 0 <= k < |ds|
      ensures FromBatch(ds[k], batch)
    {
      var d := ds[k];
      var i :| 0 <= i < n && d.message == EventMessage(batch[..n][i]) && d.kind == MapEventType(batch[..n][i].kind);
      assert batch[..n][i] == batch[i];
    }
  }

  lemma AllFromBatchAt(users: seq<User>, batch: seq<SystemEvent>, n: int, f: SweepFaults)
    requires 0 <= n < |batch|
    ensures AllFromBatch(FanOutAt(users, batch[n], n, f), batch)
  {
    var ds := FanOutAt(users, batch[n], n, f);
    forall k | 0 <= k < |ds|
      ensures FromBatch(ds[k], batch)
    {
      assert ds[k].message == EventMessage(batch[n]);
    }
  }

  lemma AllFromBatchAppend(a: seq<NotificationDraft>, b: seq<NotificationDraft>, batch: seq<SystemEvent>)
    requires AllFromBatch(a, batch) && AllFromBatch(b, batch)
    ensures AllFromBatch(a + b, batch)
  {
    forall k | 0 <= k < |a + b|
      ensures FromBatch((a + b)[k], batch)
    {
      if k < |a| {
        assert (a + b)[k] == a[k];
      } else {
        assert (a + b)[k] == b[k - |a|];
      }
    }
  }

  /** How many notifications the first `n` events of a batch yield when every unfaulted event
      notifies `admins` users and every faulty one notifies nobody. */
  function Expected(n: nat, f: SweepFaults, admins: nat): nat
  {
    if n == 0 then 0
    else Expected(n - 1, f, admins) + (if n - 1 in f.adminFetch || n - 1 in f.write then 0 else admins)
  }

  /** Error isolation: with unique user ids, every event notified without a fault yields one
      notification per admin and every faulty one yields none, whatever happens to the others. */
  lemma {:induction false} SweepCount(users: seq<User>, batch: seq<SystemEvent>, f: SweepFaults)
    requires forall i, j :: 0 <= i < j < |users| ==> users[i].id != users[j].id
    ensures |SweepDrafts(users, batch, f)| == Expected(|batch|, f, |GetAdminUsers(users, false)|)
  {
    if batch != [] {
      var n := |batch| - 1;
      SweepCount(users, batch[..n], f);
      FanOutAtLength(users, batch, n, f);
    }
  }

  /** One event yields one notification per admin, or none when it is faulty. */
  lemma FanOutAtLength(users: seq<User>, batch: seq<SystemEvent>, n: int, f: SweepFaults)
    requires forall i, j :: 0 <= i < j < |users| ==> users[i].id != users[j].id
    requires 0 <= n < |batch|
    ensures |FanOutAt(users, batch[n], n, f)|
         == if n in f.adminFetch || n in f.write then 0 else |GetAdminUsers(users, false)|
  {
    if !(n in f.adminFetch || n in f.write) {
      FanOutOnePerAdmin(users, batch[n].kind, EventMessage(batch[n]));
    }
  }

  /** Without faults every event counts in full. */
  lemma {:induction false} ExpectedNoFaults(n: nat, f: SweepFaults, admins: nat)
    requires f.adminFetch == {} && f.write == {}
    ensures Expected(n, f, admins) == admins * n
  {
    if n > 0 {
      ExpectedNoFaults(n - 1, f, admins);
      assert admins * n == admins * (n - 1) + admins;
    }
  }

  /** With no faults at all every event of the batch notifies every admin. */
  lemma SweepCountNoFaults(users: seq<User>, batch: seq<SystemEvent>, f: SweepFaults)
    requires forall i, j :: 0 <= i < j < |users| ==> users[i].id != users[j].id
    requires f.adminFetch == {} && f.write == {}
    ensures |SweepDrafts(users, batch, f)| == |GetAdminUsers(users, false)| * |batch|
  {
    SweepCount(users, batch, f);
    ExpectedNoFaults(|batch|, f, |GetAdminUsers(users, false)|);
  }

  /** With nothing to process a sweep fetches an empty batch, so it changes nothing. */
  lemma IdleSweepFetchesNothing(events: seq<SystemEvent>, fails: bool)
    requires forall i :: 0 <= i < |events| ==> events[i].processed
    ensures GetUnprocessedEvents(events, fails) == []
  {
  }

  /** Unless the final update fails, a sweep marks as processed at `now` exactly the events of
      the batch, whatever happened while notifying, and leaves every other event as it was. */
  lemma SweepMarksBatch(events: seq<SystemEvent>, fetchFails: bool, now: int, i: int)
    requires Increasing(events, EventKey)
    requires 0 <= i < |events|
    ensures var batch := GetUnprocessedEvents(events, fetchFails);
      var e := MarkProcessed(events, EventIds(batch), now)[i];
      if events[i] in batch then e == events[i].(processed := true, processedAt := Some(now))
      else e == events[i]
  {
    var batch := GetUnprocessedEvents(events, fetchFails);
    MarkProcessedExactlyBatch(events, batch, now, i);
  }

  /** Notifying about one more event appends its notifications. */
  lemma SweepDraftsSnoc(users: seq<User>, batch: seq<SystemEvent>, i: int, f: SweepFaults)
    requires 0 <= i < |batch|
    ensures SweepDrafts(users, batch[..i + 1], f) == SweepDrafts(users, batch[..i], f) + FanOutAt(users, batch[i], i, f)
  {
    var b := batch[..i + 1];
    assert b != [] && |b| - 1 == i;
    assert SweepDrafts(users, b, f) == SweepDrafts(users, b[..i], f) + FanOutAt(users, b[i], i, f);
    assert b[..i] == batch[..i];
  }

  /** One loop step: the rows of the next event land right after those of the events before. */
  lemma StampStep(notes0: seq<Notification>, done: seq<NotificationDraft>, rows: seq<NotificationDraft>,
                  next0: nat, pre: seq<Notification>, preNext: nat, post: seq<Notification>, now: int)
    requires pre == notes0 + StampNotifications(done, next0, now)
    requires preNext == next0 + |done|
    requires post == pre + StampNotifications(rows, preNext, now)
    ensures post == notes0 + StampNotifications(done + rows, next0, now)
  {
    AppendStampedNotifications(notes0, done, rows, next0, now);
  }

  /** One turn of the loop of `processSystemEvents`: notifies the admins of the event at
      position `i`, after those of the events before it. */
  method NotifyEventAt(db: Database, batch: seq<SystemEvent>, i: int, now: int, f: SweepFaults,
                       ghost notes0: seq<Notification>, ghost next0: nat)
    requires 0 <= i < |batch| && db.Valid()
    requires db.notifications == notes0 + StampNotifications(SweepDrafts(db.users, batch[..i], f), next0, now)
    requires db.nextNotificationId == next0 + |SweepDrafts(db.users, batch[..i], f)|
    modifies db`notifications, db`nextNotificationId
    ensures db.Valid()
    ensures db.notifications == notes0 + StampNotifications(SweepDrafts(db.users, batch[..i + 1], f), next0, now)
    ensures db.nextNotificationId == next0 + |SweepDrafts(db.users, batch[..i + 1], f)|
  {
    var e := batch[i];
    var message := EventMessage(e);
    ghost var done := SweepDrafts(db.users, batch[..i], f);
    ghost var added := FanOutAt(db.users, batch[i], i, f);
    ghost var pre := db.notifications;
    ghost var preNext := db.nextNotificationId;
    var rows := NotifyAdminsOfEvent(db, e.kind, message, now, i in f.adminFetch, i in f.write);
    assert rows == added;
    StampStep(notes0, done, rows, next0, pre, preNext, db.notifications, now);
    SweepDraftsSnoc(db.users, batch, i, f);
  }

  /** The loop of `processSystemEvents`: notifies the admins of each event of `batch` in order;
      a fault while notifying about one event is confined to that event. */
  method NotifyBatch(db: Database, batch: seq<SystemEvent>, now: int, f: SweepFaults)
    requires db.Valid()
    modifies db`notifications, db`nextNotificationId
    ensures db.Valid()
    ensures db.notifications
         == old(db.notifications) + StampNotifications(SweepDrafts(db.users, batch, f), old(db.nextNotificationId), now)
    ensures db.nextNotificationId == old(db.nextNotificationId) + |SweepDrafts(db.users, batch, f)|
  {
    ghost var notes0 := db.notifications;
    ghost var next0 := db.nextNotificationId;
    assert batch[..0] == [];
    var i := 0;
    while i < |batch|
      invariant 0 <= i <= |batch|
      invariant db.Valid()
      invariant db.notifications == notes0 + StampNotifications(SweepDrafts(db.users, batch[..i], f), next0, now)
      invariant db.nextNotificationId == next0 + |SweepDrafts(db.users, batch[..i], f)|
    {
      NotifyEventAt(db, batch, i, now, f, notes0, next0);
      i := i + 1;
    }
    assert batch[..|batch|] == batch;
  }

  /** The tables of `db` went from their old state to their state after one sweep at `now`:
      the batch's notifications are appended and, unless the batch is empty or the final update
      fails, the batch is marked processed. */
  twostate predicate Swept(db: Database, now: int, f: SweepFaults)
    reads db
  {
    var batch := GetUnprocessedEvents(old(db.events), f.fetch);
    && db.notifications == old(db.notifications)
      + StampNotifications(SweepDrafts(db.users, batch, f), old(db.nextNotificationId), now)
    && db.nextNotificationId == old(db.nextNotificationId) + |SweepDrafts(db.users, batch, f)|
    && db.events == if batch == [] || f.mark then old(db.events)
                    else MarkProcessed(old(db.events), EventIds(batch), now)
  }

  lemma NothingStamped(table: seq<Notification>, next: nat, now: int)
    ensures table + StampNotifications([], next, now) == table
  {
  }

  /** The writes of a sweep over a non-empty batch: the admins of every event are notified,
      then the batch is marked processed unless that update fails. */
  method SweepBatch(db: Database, batch: seq<SystemEvent>, now: int, f: SweepFaults)
    requires db.Valid() && batch != []
    modifies db`events, db`notifications, db`nextNotificationId
    ensures db.Valid()
    ensures db.notifications == old(db.notifications)
      + StampNotifications(SweepDrafts(db.users, batch, f), old(db.nextNotificationId), now)
    ensures db.nextNotificationId == old(db.nextNotificationId) + |SweepDrafts(db.users, batch, f)|
    ensures db.events == if f.mark then old(db.events) else MarkProcessed(old(db.events), EventIds(batch), now)
  {
    NotifyBatch(db, batch, now, f);
    var ids := EventIds(batch);
    assert |ids| > 0;
    MarkEventsAsProcessed(db, ids, now, f.mark);
  }

  /** `processSystemEvents`: fetches a batch, returns at once when it is empty, notifies the
      admins of each event in fetch order, and then marks every fetched event processed,
      whatever happened while notifying. */
  method ProcessSystemEvents(db: Database, now: int, f: SweepFaults) returns (batch: seq<SystemEvent>)
    requires db.Valid()
    modifies db`events, db`notifications, db`nextNotificationId
    ensures db.Valid()
    ensures batch == GetUnprocessedEvents(old(db.events), f.fetch)
    ensures db.notifications == old(db.notifications)
      + StampNotifications(SweepDrafts(db.users, batch, f), old(db.nextNotificationId), now)
    ensures db.nextNotificationId == old(db.nextNotificationId) + |SweepDrafts(db.users, batch, f)|
    ensures db.events == if batch == [] || f.mark then old(db.events)
                         else MarkProcessed(old(db.events), EventIds(batch), now)
  {
    batch := GetUnprocessedEvents(db.events, f.fetch);
    if |batch| == 0 {
      NothingStamped(db.notifications, db.nextNotificationId, now);
      return;
    }
    SweepBatch(db, batch, now, f);
  }
}
