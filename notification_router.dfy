/** The notification procedures: the caller's unread and recent notifications, marking one or
    all as read, deleting one, the unread count and the grouping by type. Every procedure sees
    only the caller's own notifications. */
module NotificationRouter {
  import opened Wrappers
  import opened Seqs
  import opened Schema

  function NotificationCreatedAt(n: Notification): int { n.createdAt }

  function NotificationKind(n: Notification): NotificationType { n.kind }

  predicate IsUnreadOf(userId: string, n: Notification) { n.userId == userId && !n.read }

  /** The caller's notifications, in table order. */
  function NotificationsOf(ns: seq<Notification>, userId: string): seq<Notification>
  {
    Filter(ns, (n: Notification) => n.userId == userId)
  }

  /** The caller's unread notifications, in table order. */
  function UnreadOf(ns: seq<Notification>, userId: string): seq<Notification>
  {
    Filter(ns, (n: Notification) => IsUnreadOf(userId, n))
  }

  /** `getUnread`: the caller's unread notifications, newest first. */
  function GetUnread(ns: seq<Notification>, userId: string): (r: seq<Notification>)
    ensures SortedDescBy(r, NotificationCreatedAt)
    ensures multiset(r) == multiset(UnreadOf(ns, userId))
  {
    SortDescBy(UnreadOf(ns, userId), NotificationCreatedAt)
  }

  /** Everything `getUnread` returns is an unread notification of the caller, and every one of
      those is returned. */
  lemma GetUnreadExactly(ns: seq<Notification>, userId: string)
    ensures forall i :: 0 <= i < |GetUnread(ns, userId)| ==>
      GetUnread(ns, userId)[i] in ns && IsUnreadOf(userId, GetUnread(ns, userId)[i])
    ensures forall i :: 0 <= i < |ns| && IsUnreadOf(userId, ns[i]) ==> ns[i] in GetUnread(ns, userId)
  {
    var u := UnreadOf(ns, userId);
    var r := GetUnread(ns, userId);
    forall i | 0 <= i < |r| ensures r[i] in ns && IsUnreadOf(userId, r[i]) {
      assert r[i] in multiset(u);
    }
    forall i | 0 <= i < |ns| && IsUnreadOf(userId, ns[i]) ensures ns[i] in r {
      assert ns[i] in multiset(r);
    }
  }

  /** `getUnreadCount`: the number of the caller's unread notifications. */
  function GetUnreadCount(ns: seq<Notification>, userId: string): nat
  {
    |UnreadOf(ns, userId)|
  }

  /** The unread count is the length of the unread list. */
  lemma UnreadCountIsUnreadLength(ns: seq<Notification>, userId: string)
    ensures GetUnreadCount(ns, userId) == |GetUnread(ns, userId)|
  {
    assert |multiset(GetUnread(ns, userId))| == |multiset(UnreadOf(ns, userId))|;
  }

  /** The default page size of `getAll`. */
  const DEFAULT_LIMIT: int := 50

  /** `getAll`: a non-positive limit is refused; otherwise the first `limit` (50 when absent)
      of the caller's notifications, newest first. */
  function GetAll(ns: seq<Notification>, userId: string, limit: Option<int>): (r: Result<seq<Notification>>)
    ensures r.Err? <==> limit.GetOr(DEFAULT_LIMIT) <= 0
    ensures r.Err? ==> r.error == BadRequest
    ensures r.Ok? ==> |r.value| <= limit.GetOr(DEFAULT_LIMIT)
  {
    var n := limit.GetOr(DEFAULT_LIMIT);
    if n <= 0 then Err(BadRequest)
    else Ok(Take(SortDescBy(NotificationsOf(ns, userId), NotificationCreatedAt), n))
  }

  /** `getAll` returns only the caller's notifications, newest first, and leaves one out only
      when the limit is reached; what it returns is a prefix of all of them in that order. */
  lemma GetAllIsNewestOfCallers(ns: seq<Notification>, userId: string, limit: Option<int>)
    requires GetAll(ns, userId, limit).Ok?
    ensures var r := GetAll(ns, userId, limit).value;
      var all := SortDescBy(NotificationsOf(ns, userId), NotificationCreatedAt);
      && SortedDescBy(r, NotificationCreatedAt)
      && (forall i :: 0 <= i < |r| ==> r[i] in ns && r[i].userId == userId)
      && |r| <= |all| && r == all[..|r|]
      && (|r| == limit.GetOr(DEFAULT_LIMIT) || r == all)
  {
    var mine := NotificationsOf(ns, userId);
    var all := SortDescBy(mine, NotificationCreatedAt);
    var r := GetAll(ns, userId, limit).value;
    assert r == Take(all, limit.GetOr(DEFAULT_LIMIT));
    forall i | 0 <= i < |r| ensures r[i] in ns && r[i].userId == userId {
      assert r[i] == all[i];
      assert all[i] in multiset(mine);
    }
    forall i, j | 0 <= i < j < |r| ensures r[i].createdAt >= r[j].createdAt {
      assert r[i] == all[i] && r[j] == all[j];
    }
  }

  /** Why a change to one notification is refused before any write: a bad id, a missing
      notification, or a caller who is not its recipient. */
  function GuardNotification(ns: seq<Notification>, id: int, userId: string): (r: Result<Notification>)
    ensures id <= 0 ==> r == Err(BadRequest)
    ensures id > 0 && FindNotification(ns, id).None? ==> r == Err(NotFound)
    ensures r.Ok? <==> id > 0 && FindNotification(ns, id).Some? && FindNotification(ns, id).value.userId == userId
    ensures r.Ok? ==> r.value == FindNotification(ns, id).value && r.value.id == id
    ensures r.Err? ==> r.error in {BadRequest, NotFound, Forbidden}
  {
    if id <= 0 then Err(BadRequest)
    else match FindNotification(ns, id)
      case None => Err(NotFound)
      case Some(n) => if n.userId != userId then Err(Forbidden) else Ok(n)
  }

  /** `markAsRead`: after the checks, sets `read` on that one notification and nothing else. */
  method MarkAsRead(db: Database, s: Session, id: int) returns (r: Result<Notification>)
    requires db.Valid()
    modifies db`notifications
    ensures db.Valid()
    ensures r.Ok? <==> GuardNotification(old(db.notifications), id, s.userId).Ok?
    ensures r.Err? ==> r.error == GuardNotification(old(db.notifications), id, s.userId).error && unchanged(db)
    ensures r.Ok? ==> r.value == GuardNotification(old(db.notifications), id, s.userId).value.(read := true)
                      && db.notifications == ReplaceByKey(old(db.notifications), NotificationKey, r.value)
  {
    var g := GuardNotification(db.notifications, id, s.userId);
    if g.Err? {
      return Err(g.error);
    }
    var n := g.value.(read := true);
    db.UpdateNotificationRow(n);
    r := Ok(n);
  }

  /** The table after `updateMany({ where: { userId, read: false }, data: { read: true } })`. */
  function ReadAll(ns: seq<Notification>, userId: string): (r: seq<Notification>)
    ensures |r| == |ns|
    ensures forall i :: 0 <= i < |ns| ==> r[i] == if IsUnreadOf(userId, ns[i]) then ns[i].(read := true) else ns[i]
  {
    UpdateWhere(ns, (n: Notification) => IsUnreadOf(userId, n), (n: Notification) => n.(read := true))
  }

  /** `markAllAsRead`: sets `read` on the caller's unread notifications only and answers how
      many there were. */
  method MarkAllAsRead(db: Database, s: Session) returns (updated: nat)
    requires db.Valid()
    modifies db`notifications
    ensures db.Valid()
    ensures updated == GetUnreadCount(old(db.notifications), s.userId)
    ensures db.notifications == ReadAll(old(db.notifications), s.userId)
  {
    updated := GetUnreadCount(db.notifications, s.userId);
    UpdateKeepsKeys(db.notifications, (n: Notification) => IsUnreadOf(s.userId, n), (n: Notification) => n.(read := true),
                    NotificationKey, db.nextNotificationId);
    db.notifications := ReadAll(db.notifications, s.userId);
  }

  /** Marking everything read leaves the caller nothing unread, so a second `markAllAsRead`
      answers 0. */
  lemma ReadAllLeavesNoneUnread(ns: seq<Notification>, userId: string)
    ensures GetUnreadCount(ReadAll(ns, userId), userId) == 0
  {
    FilterNone(ReadAll(ns, userId), (n: Notification) => IsUnreadOf(userId, n));
  }

  /** `delete`: after the checks, removes exactly that notification; the result is its id. */
  method Delete(db: Database, s: Session, id: int) returns (r: Result<int>)
    requires db.Valid()
    modifies db`notifications
    ensures db.Valid()
    ensures r.Ok? <==> GuardNotification(old(db.notifications), id, s.userId).Ok?
    ensures r.Err? ==> r.error == GuardNotification(old(db.notifications), id, s.userId).error && unchanged(db)
    ensures r.Ok? ==> r.value == id && db.notifications == WithoutKey(old(db.notifications), NotificationKey, id)
  {
    var g := GuardNotification(db.notifications, id, s.userId);
    if g.Err? {
      return Err(g.error);
    }
    db.DeleteNotificationRow(id);
    r := Ok(id);
  }

  /** The buckets of `getByType` after the notifications of `s`, in turn: each goes at the end
      of the bucket of its type, which is created when missing. */
  function Buckets(s: seq<Notification>): map<NotificationType, seq<Notification>>
  {
    if s == [] then map[]
    else
      var b := Buckets(s[..|s| - 1]);
      var x := s[|s| - 1];
      b[x.kind := (if x.kind in b then b[x.kind] else []) + [x]]
  }

  /** One loop turn of `getByType` extends the buckets of a prefix by the next notification. */
  lemma BucketsStep(s: seq<Notification>, i: int)
    requires 0 <= i < |s|
    ensures Buckets(s[..i + 1])
         == Buckets(s[..i])[s[i].kind := (if s[i].kind in Buckets(s[..i]) then Buckets(s[..i])[s[i].kind] else []) + [s[i]]]
  {
    var t := s[..i + 1];
    assert t[..|t| - 1] == s[..i];
    assert t[|t| - 1] == s[i];
  }

  /** `getByType`: fills one bucket per type, appending each of the caller's notifications in
      turn to the bucket of its type. */
  method GetByType(ns: seq<Notification>, userId: string) returns (byType: map<NotificationType, seq<Notification>>)
    ensures byType == Buckets(NotificationsOf(ns, userId))
  {
    var mine := NotificationsOf(ns, userId);
    byType := map[];
    var i := 0;
    while i < |mine|
      invariant 0 <= i <= |mine|
      invariant byType == Buckets(mine[..i])
    {
      var n := mine[i];
      BucketsStep(mine, i);
      var bucket := if n.kind in byType then byType[n.kind] else [];
      byType := byType[n.kind := bucket + [n]];
      i := i + 1;
    }
    assert mine[..|mine|] == mine;
  }

  /** A type has a bucket exactly when some notification has that type, and its bucket holds
      the notifications of that type in list order. */
  lemma {:induction false} BucketsAreFilters(s: seq<Notification>, k: NotificationType)
    ensures k in Buckets(s) <==> Filter(s, HasKey(NotificationKind, k)) != []
    ensures k in Buckets(s) ==> Buckets(s)[k] == Filter(s, HasKey(NotificationKind, k))
  {
    if s != [] {
      var q := s[..|s| - 1];
      var x := s[|s| - 1];
      var p := HasKey(NotificationKind, k);
      assert s == q + [x];
      BucketsAreFilters(q, k);
      FilterAppend(q, [x], p);
      FilterOne(x, p);
    }
  }

  /** Every notification is in the bucket of its type and in no other. */
  lemma BucketOfEach(s: seq<Notification>, i: int, k: NotificationType)
    requires 0 <= i < |s|
    ensures s[i].kind in Buckets(s) && s[i] in Buckets(s)[s[i].kind]
    ensures k in Buckets(s) ==> (s[i] in Buckets(s)[k] <==> s[i].kind == k)
  {
    BucketsAreFilters(s, s[i].kind);
    assert HasKey(NotificationKind, s[i].kind)(s[i]);
    BucketsAreFilters(s, k);
    if k in Buckets(s) && s[i] in Buckets(s)[k] {
      var r := Buckets(s)[k];
      var j :| 0 <= j < |r| && r[j] == s[i];
      assert HasKey(NotificationKind, k)(r[j]);
    }
  }
}
