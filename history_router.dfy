/** The history procedures: the audit entries of a task oldest first, the caller's most recent
    entries, the entries of one user on one task, and the caller's activity summary. */
module HistoryRouter {
  import opened Wrappers
  import opened Seqs
  import opened Schema

  function HistoryTimestamp(h: History): int { h.timestamp }

  function HistoryActionName(h: History): string { ActionName(h.action) }

  /** The entries of task `taskId`, in table order. */
  function HistoryOfTask(history: seq<History>, taskId: int): seq<History>
  {
    Filter(history, (h: History) => h.taskId == taskId)
  }

  /** The entries written by `userId`, in table order. */
  function HistoryOfUser(history: seq<History>, userId: string): seq<History>
  {
    Filter(history, (h: History) => h.userId == userId)
  }

  /** `getByTask`: a bad id is refused and a missing task is NOT_FOUND; otherwise the entries
      of the task in ascending timestamp order. */
  function GetByTask(tasks: seq<Task>, history: seq<History>, taskId: int): (r: Result<seq<History>>)
    ensures taskId <= 0 ==> r == Err(BadRequest)
    ensures taskId > 0 && FindTask(tasks, taskId).None? ==> r == Err(NotFound)
    ensures r.Ok? <==> taskId > 0 && FindTask(tasks, taskId).Some?
  {
    if taskId <= 0 then Err(BadRequest)
    else if FindTask(tasks, taskId).None? then Err(NotFound)
    else Ok(SortBy(HistoryOfTask(history, taskId), HistoryTimestamp))
  }

  /** The entries `getByTask` returns are exactly those of the task, oldest first. */
  lemma GetByTaskIsTaskHistory(tasks: seq<Task>, history: seq<History>, taskId: int)
    requires GetByTask(tasks, history, taskId).Ok?
    ensures var r := GetByTask(tasks, history, taskId).value;
      && SortedBy(r, HistoryTimestamp)
      && multiset(r) == multiset(HistoryOfTask(history, taskId))
      && (forall i :: 0 <= i < |r| ==> r[i] in history && r[i].taskId == taskId)
      && (forall i :: 0 <= i < |history| && history[i].taskId == taskId ==> history[i] in r)
  {
    var mine := HistoryOfTask(history, taskId);
    var r := SortBy(mine, HistoryTimestamp);
    forall i | 0 <= i < |r| ensures r[i] in history && r[i].taskId == taskId {
      assert r[i] in multiset(mine);
    }
    forall i | 0 <= i < |history| && history[i].taskId == taskId ensures history[i] in r {
      assert history[i] in multiset(r);
    }
  }

  /** The default page size of `getAll`. */
  const DEFAULT_LIMIT: int := 100

  /** `getAll`: a non-positive limit is refused; otherwise the first `limit` (100 when absent)
      of the caller's entries, newest first. */
  function GetAll(history: seq<History>, userId: string, limit: Option<int>): (r: Result<seq<History>>)
    ensures r.Err? <==> limit.GetOr(DEFAULT_LIMIT) <= 0
    ensures r.Err? ==> r.error == BadRequest
    ensures r.Ok? ==> |r.value| <= limit.GetOr(DEFAULT_LIMIT)
  {
    var n := limit.GetOr(DEFAULT_LIMIT);
    if n <= 0 then Err(BadRequest)
    else Ok(Take(SortDescBy(HistoryOfUser(history, userId), HistoryTimestamp), n))
  }

  /** `getAll` returns only the caller's entries, newest first, and leaves one out only when
      the limit is reached; what it returns is a prefix of all of them in that order. */
  lemma GetAllIsNewestOfCallers(history: seq<History>, userId: string, limit: Option<int>)
    requires GetAll(history, userId, limit).Ok?
    ensures var r := GetAll(history, userId, limit).value;
      var all := SortDescBy(HistoryOfUser(history, userId), HistoryTimestamp);
      && (forall i :: 0 <= i < |r| ==> r[i] in history && r[i].userId == userId)
      && |r| <= |all| && r == all[..|r|]
      && (|r| == limit.GetOr(DEFAULT_LIMIT) || r == all)
  {
    var mine := HistoryOfUser(history, userId);
    var all := SortDescBy(mine, HistoryTimestamp);
    var r := GetAll(history, userId, limit).value;
    assert r == Take(all, limit.GetOr(DEFAULT_LIMIT));
    forall i | 0 <= i < |r| ensures r[i] in history && r[i].userId == userId {
      assert r[i] == all[i];
      assert all[i] in multiset(mine);
    }
  }

  /** The entries `getAll` returns are newest first, and every entry it leaves out is no newer
      than any it returns. */
  lemma GetAllLeavesOutOlder(history: seq<History>, userId: string, limit: Option<int>)
    requires GetAll(history, userId, limit).Ok?
    ensures var r := GetAll(history, userId, limit).value;
      var all := SortDescBy(HistoryOfUser(history, userId), HistoryTimestamp);
      && SortedDescBy(r, HistoryTimestamp)
      && (forall i, j :: 0 <= i < |r| <= j < |all| ==> r[i].timestamp >= all[j].timestamp)
  {
    var all := SortDescBy(HistoryOfUser(history, userId), HistoryTimestamp);
    var r := GetAll(history, userId, limit).value;
    assert r == all[..|r|];
    forall i, j | 0 <= i < j < |r| ensures r[i].timestamp >= r[j].timestamp {
      assert r[i] == all[i] && r[j] == all[j];
    }
    forall i, j | 0 <= i < |r| <= j < |all| ensures r[i].timestamp >= all[j].timestamp {
      assert r[i] == all[i];
    }
  }

  /** The entries of one user on one task, in table order. */
  function HistoryOfUserOnTask(history: seq<History>, taskId: int, userId: string): seq<History>
  {
    Filter(history, (h: History) => h.taskId == taskId && h.userId == userId)
  }

  /** `getByUserAndTask`: a bad task id is refused; otherwise that user's entries on that task
      in ascending timestamp order. The task is not looked up, so a missing task gives an
      empty list. */
  function GetByUserAndTask(history: seq<History>, taskId: int, userId: string): (r: Result<seq<History>>)
    ensures r.Err? <==> taskId <= 0
    ensures r.Err? ==> r.error == BadRequest
    ensures r.Ok? ==> |r.value| <= |history|
  {
    if taskId <= 0 then Err(BadRequest)
    else Ok(SortBy(HistoryOfUserOnTask(history, taskId, userId), HistoryTimestamp))
  }

  /** `getByUserAndTask` returns exactly the entries of that task written by that user, oldest
      first. */
  lemma GetByUserAndTaskExactly(history: seq<History>, taskId: int, userId: string, h: History)
    requires taskId > 0
    ensures var r := GetByUserAndTask(history, taskId, userId).value;
      && SortedBy(r, HistoryTimestamp)
      && (h in r <==> h in history && h.taskId == taskId && h.userId == userId)
  {
    var mine := HistoryOfUserOnTask(history, taskId, userId);
    var r := SortBy(mine, HistoryTimestamp);
    assert h in r <==> h in multiset(mine);
    if h in history && h.taskId == taskId && h.userId == userId {
      var j :| 0 <= j < |history| && history[j] == h;
    }
  }

  /** When the task exists, `getByUserAndTask` is the part of `getByTask` written by that user. */
  lemma GetByUserAndTaskWithinTask(tasks: seq<Task>, history: seq<History>, taskId: int, userId: string, h: History)
    requires taskId > 0 && FindTask(tasks, taskId).Some?
    ensures h in GetByUserAndTask(history, taskId, userId).value
        <==> h in GetByTask(tasks, history, taskId).value && h.userId == userId
  {
    GetByUserAndTaskExactly(history, taskId, userId, h);
    var all := HistoryOfTask(history, taskId);
    var t := SortBy(all, HistoryTimestamp);
    assert h in t <==> h in multiset(all);
    if h in history && h.taskId == taskId {
      var j :| 0 <= j < |history| && history[j] == h;
    }
  }

  /** What `getActivitySummary` answers: the number of the caller's entries, the count of each
      action name among them, and the timestamp of the last of them, if any. */
  datatype ActivitySummary = ActivitySummary(total: nat, byAction: map<string, nat>, lastActivity: Option<int>)

  /** `getActivitySummary`: the caller's entries are counted one by one into a counter per
      action name. */
  method GetActivitySummary(history: seq<History>, userId: string) returns (r: ActivitySummary)
    ensures var mine := HistoryOfUser(history, userId);
      && r.total == |mine|
      && r.byAction == Counts(MapSeq(mine, HistoryActionName))
      && r.lastActivity == (if mine == [] then None else Some(mine[|mine| - 1].timestamp))
  {
    var mine := HistoryOfUser(history, userId);
    var byAction := TallyBy(mine, HistoryActionName);
    var last := if |mine| > 0 then Some(mine[|mine| - 1].timestamp) else None;
    r := ActivitySummary(|mine|, byAction, last);
  }

  /** The counters of the summary add up to the total, and the counter of each action is the
      number of the caller's entries with that action; an action that never occurs has none. */
  lemma ActivitySummaryAddsUp(history: seq<History>, userId: string, a: HistoryAction)
    ensures var mine := HistoryOfUser(history, userId);
      var names := MapSeq(mine, HistoryActionName);
      && SumOf(Distinct(names), Counts(names)) == |mine|
      && Get(Counts(names), ActionName(a)) == |Filter(mine, HasKey(HistoryActionName, ActionName(a)))|
      && (ActionName(a) in Counts(names) <==> exists i :: 0 <= i < |mine| && mine[i].action == a)
  {
    var mine := HistoryOfUser(history, userId);
    BreakdownCounts(mine, HistoryActionName, ActionName(a));
    if ActionName(a) in Counts(MapSeq(mine, HistoryActionName)) {
      var i :| 0 <= i < |mine| && HistoryActionName(mine[i]) == ActionName(a);
      ActionNameInjective(mine[i].action, a);
    }
  }
}
