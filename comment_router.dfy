/** The comment procedures: the comments of a task oldest first, adding a comment (with a
    notification to the task's assignee and a COMMENT_ADDED event), and deleting one by its
    author or by the task's creator. */
module CommentRouter {
  import opened Wrappers
  import opened Seqs
  import opened Schema
  import opened EventService

  function CommentCreatedAt(c: Comment): int { c.createdAt }

  /** The comments on task `taskId`, in table order. */
  function CommentsOf(comments: seq<Comment>, taskId: int): seq<Comment>
  {
    Filter(comments, (c: Comment) => c.taskId == taskId)
  }

  /** `getByTask`: a bad id is refused and a missing task is NOT_FOUND; otherwise the comments
      of the task ordered by creation time. */
  function GetByTask(tasks: seq<Task>, comments: seq<Comment>, taskId: int): (r: Result<seq<Comment>>)
    ensures taskId <= 0 ==> r == Err(BadRequest)
    ensures taskId > 0 && FindTask(tasks, taskId).None? ==> r == Err(NotFound)
    ensures r.Ok? <==> taskId > 0 && FindTask(tasks, taskId).Some?
  {
    if taskId <= 0 then Err(BadRequest)
    else if FindTask(tasks, taskId).None? then Err(NotFound)
    else Ok(SortBy(CommentsOf(comments, taskId), CommentCreatedAt))
  }

  /** The comments `getByTask` returns are exactly those of the task, oldest first. */
  lemma GetByTaskIsTaskComments(tasks: seq<Task>, comments: seq<Comment>, taskId: int)
    requires GetByTask(tasks, comments, taskId).Ok?
    ensures var r := GetByTask(tasks, comments, taskId).value;
      && SortedBy(r, CommentCreatedAt)
      && multiset(r) == multiset(CommentsOf(comments, taskId))
      && (forall i :: 0 <= i < |r| ==> r[i] in comments && r[i].taskId == taskId)
      && (forall i :: 0 <= i < |comments| && comments[i].taskId == taskId ==> comments[i] in r)
  {
    var mine := CommentsOf(comments, taskId);
    var r := SortBy(mine, CommentCreatedAt);
    forall i | 0 <= i < |r| ensures r[i] in comments && r[i].taskId == taskId {
      assert r[i] in multiset(mine);
    }
    forall i | 0 <= i < |comments| && comments[i].taskId == taskId ensures comments[i] in r {
      assert comments[i] in multiset(r);
    }
  }

  /** The fields of `create`. */
  datatype CommentInput = CommentInput(taskId: int, text: string)

  /** The create schema: a positive task id and a text of 1 to 5000 characters. */
  predicate ValidComment(i: CommentInput)
  {
    i.taskId > 0 && 1 <= |i.text| <= 5000
  }

  /** `text.substring(0, 100)`: the text cut to its first 100 characters. */
  function Excerpt(text: string): (r: string)
    ensures |r| <= |text| && r == text[..|r|]
    ensures |text| <= 100 ==> r == text
    ensures |text| > 100 ==> |r| == 100
  {
    if |text| <= 100 then text else text[..100]
  }

  /** The assignee is told of a new comment unless there is none or they wrote it. */
  function CommentNotices(t: Task, commenter: string): seq<NotificationDraft>
  {
    if Present(t.assignedToId) && t.assignedToId.value != commenter
    then [NotificationDraft(t.assignedToId.value, "New comment on task: " + t.title, CommentAdded)]
    else []
  }

  /** Exactly one notice, to the assignee, when the task has an assignee other than the
      commenter; none otherwise. */
  lemma CommentNoticeIff(t: Task, commenter: string)
    ensures |CommentNotices(t, commenter)| == 1 <==> Present(t.assignedToId) && t.assignedToId.value != commenter
    ensures |CommentNotices(t, commenter)| <= 1
    ensures forall i :: 0 <= i < |CommentNotices(t, commenter)| ==>
      CommentNotices(t, commenter)[i].userId == t.assignedToId.value != commenter
      && CommentNotices(t, commenter)[i].kind == CommentAdded
  {
  }

  /** The COMMENT_ADDED event of `create`; it names the task but no project. */
  function CommentEvent(s: Session, i: CommentInput, t: Task): EventDraft
  {
    EventDraft(CommentAddedEvent, s.userId, Some(ActorName(s)), None, Some(i.taskId),
               "Added comment to task: " + t.title,
               Some(map["comment" := Excerpt(i.text), "taskTitle" := t.title]))
  }

  /** The writes of `create` once the task is found: the comment, the assignee's notice and the
      event. */
  method WriteComment(db: Database, s: Session, i: CommentInput, t: Task, now: int, eventFails: bool)
    returns (c: Comment)
    requires db.Valid()
    modifies db`comments, db`nextCommentId, db`notifications, db`nextNotificationId, db`events, db`nextEventId
    ensures db.Valid()
    ensures c == Comment(old(db.nextCommentId), i.text, i.taskId, s.userId, now)
    ensures db.comments == old(db.comments) + [c]
    ensures db.notifications == old(db.notifications) + StampNotifications(CommentNotices(t, s.userId),
                                                                           old(db.nextNotificationId), now)
    ensures db.events == old(db.events) + StampEvents(CommentEvent(s, i, t), old(db.nextEventId), now, eventFails)
  {
    c := db.InsertComment(i.text, i.taskId, s.userId, now);
    db.InsertNotifications(CommentNotices(t, s.userId), now);
    CreateSystemEvent(db, CommentEvent(s, i, t), now, eventFails);
  }

  /** `create`: a bad input is refused and a missing task is NOT_FOUND, both before any write;
      otherwise one comment by the caller, the assignee's notice and the event. */
  method Create(db: Database, s: Session, i: CommentInput, now: int, eventFails: bool)
    returns (r: Result<Comment>)
    requires db.Valid()
    modifies db`comments, db`nextCommentId, db`notifications, db`nextNotificationId, db`events, db`nextEventId
    ensures db.Valid()
    ensures !ValidComment(i) ==> r == Err(BadRequest)
    ensures ValidComment(i) && FindTask(db.tasks, i.taskId).None? ==> r == Err(NotFound)
    ensures r.Ok? <==> ValidComment(i) && FindTask(db.tasks, i.taskId).Some?
    ensures r.Err? ==> unchanged(db)
    ensures r.Ok? ==> var t := FindTask(db.tasks, i.taskId).value;
      && r.value == Comment(old(db.nextCommentId), i.text, i.taskId, s.userId, now)
      && db.comments == old(db.comments) + [r.value]
      && db.notifications == old(db.notifications) + StampNotifications(CommentNotices(t, s.userId),
                                                                        old(db.nextNotificationId), now)
      && db.events == old(db.events) + StampEvents(CommentEvent(s, i, t), old(db.nextEventId), now, eventFails)
  {
    if !ValidComment(i) {
      return Err(BadRequest);
    }
    var found := FindTask(db.tasks, i.taskId);
    if found.None? {
      return Err(NotFound);
    }
    var c := WriteComment(db, s, i, found.value, now, eventFails);
    r := Ok(c);
  }

  /** Who may delete a comment: its author or the creator of its task. */
  predicate MayDelete(c: Comment, t: Task, userId: string)
  {
    c.userId == userId || t.createdById == userId
  }

  /** Why a delete is refused before any write: a bad id, a missing comment, a comment whose
      task is gone (the handler then reads a field of `null`), or a caller who is neither the
      author nor the task's creator. */
  function GuardDelete(tasks: seq<Task>, comments: seq<Comment>, id: int, userId: string): (r: Result<Comment>)
    ensures r.Ok? <==> id > 0 && FindComment(comments, id).Some?
                       && FindTask(tasks, FindComment(comments, id).value.taskId).Some?
                       && MayDelete(FindComment(comments, id).value,
                                    FindTask(tasks, FindComment(comments, id).value.taskId).value, userId)
    ensures r.Ok? ==> r.value == FindComment(comments, id).value
    ensures id > 0 && FindComment(comments, id).None? ==> r == Err(NotFound)
    ensures (r.Err? && id > 0 && FindComment(comments, id).Some?
             && FindTask(tasks, FindComment(comments, id).value.taskId).Some?) ==> r == Err(Forbidden)
  {
    if id <= 0 then Err(BadRequest)
    else match FindComment(comments, id)
      case None => Err(NotFound)
      case Some(c) =>
        match FindTask(tasks, c.taskId)
        case None => Err(ServerError("Cannot read properties of null (reading 'createdById')"))
        case Some(t) => if MayDelete(c, t, userId) then Ok(c) else Err(Forbidden)
  }

  /** `delete`: after the checks, removes exactly that comment and answers with its id. */
  method Delete(db: Database, s: Session, id: int) returns (r: Result<int>)
    requires db.Valid()
    modifies db`comments
    ensures db.Valid()
    ensures r.Ok? <==> GuardDelete(db.tasks, old(db.comments), id, s.userId).Ok?
    ensures r.Err? ==> r.error == GuardDelete(db.tasks, old(db.comments), id, s.userId).error && unchanged(db)
    ensures r.Ok? ==> r.value == id && db.comments == WithoutKey(old(db.comments), CommentKey, id)
  {
    var g := GuardDelete(db.tasks, db.comments, id, s.userId);
    if g.Err? {
      return Err(g.error);
    }
    db.DeleteCommentRow(id);
    r := Ok(id);
  }

  /** A delete keeps every other comment. */
  lemma DeleteKeepsOthers(comments: seq<Comment>, id: int, c: Comment)
    requires c in comments && c.id != id
    ensures c in WithoutKey(comments, CommentKey, id)
  {
    var j :| 0 <= j < |comments| && comments[j] == c;
  }
}
