# LegacyApp audit and notification core, in Dafny

LegacyApp is a task and project manager built on Next.js, tRPC and Prisma. This project
models its audit and notification pipeline and the code around it, and proves properties of
that model:

- **Audit events.** Every project, task and comment mutation records a `SystemEvent`
  (`eventService.ts`).
- **The sweep.** A cron job runs once a minute (`cron/init.ts`). Each run takes a batch of at most 100 unprocessed events, oldest
  first, and notifies every admin of each event with a message such as "[TAREA CREADA] user
  action". It then marks the whole batch processed (`cron/processEvents.ts`).
- **The tRPC routers.**
  - task: create, update and delete write the task history and the notifications for an
    assignee;
  - comment, project, notification and history;
  - report: breakdowns, summary, CSV export, overdue, overviews;
  - search: filters, text search, pagination, counters.
- **The client code.** The register and login forms, the manager layout's tab routing, the
  notification page's filters and labels, the dashboard's derived values, the team form and
  the profile editor.

The database is a class `Schema.Database` whose tables are sequences of rows, with one id
counter per table. `Database.Valid()` is its invariant: ids increase along each table and lie
below that table's counter. A router procedure that writes is a method on the database, and
its `ensures` gives every table's new contents. A read-only procedure is a function over the
tables. Procedures that say what they return and change nothing are proved against reference
definitions: filters, sorts, counters and Prisma-style `where` conditions.

Modelling conventions:
- Time is an integer `now`, which each call receives as a parameter.
- A database call that can fail takes a boolean fault flag. A failing call writes nothing, or
  reads `[]`, exactly where the source catches the error.
- A tRPC error is `Err(NotFound)`, `Err(Forbidden)`, `Err(BadRequest)` or `Err(ServerError)`.

Modules, one per source file, plus shared modules:

- **Shared:** `Wrappers` (Option, errors), `Seqs` (filter, sort, take/drop, counting), `Strings`
  (the JavaScript string operations used), `Schema` (rows, enums, the database class) and
  `TaskQuery` (the Prisma `where` conditions on tasks).
- **Server:** `EventService`, `ProcessEvents`, `CronInit`, `TaskRouter`, `CommentRouter`,
  `ProjectRouter`, `NotificationRouter`, `HistoryRouter`, `ReportRouter` and `SearchRouter`.
- **Client:** `RegisterForm`, `LoginForm`, `ManagerLayout`, `NotificationsPage`,
  `DashboardPage`, `TeamForm` and `EditProfile`.

## Model

| member | source | states |
|---|---|---|
| EventService.CreateSystemEvent | src/server/api/services/eventService.ts:18-35 | appends one event with the next id, the input's fields, `processed` false and `createdAt` now; on a failing insert the table and counter are unchanged and nothing is raised |
| EventService.GetUnprocessedEvents | src/server/api/services/eventService.ts:40-52 | 100 unprocessed events of the table, or all of them when fewer are pending, oldest first; `[]` when the query fails |
| EventService.BatchIsOldest | src/server/api/services/eventService.ts:42-46 | an unprocessed event left out of the batch is no older than any event in it |
| EventService.BatchHoldsAllPending | src/server/api/services/eventService.ts:42-46 | with at most 100 unprocessed events, the batch holds every one of them |
| EventService.EventIds | src/server/cron/processEvents.ts:42 | the ids of the batch, one per event, in batch order |
| EventService.MarkProcessed | src/server/api/services/eventService.ts:61-67 | exactly the events whose id is listed become processed at now; every other event is unchanged; the table keeps its length |
| EventService.MarkProcessedKeepsIds | src/server/api/services/eventService.ts:61-67 | marking keeps every id, so the table stays in id order below its counter |
| EventService.MarkedNotRefetched | src/server/api/services/eventService.ts:43-67 | an event whose id was marked is never fetched again |
| EventService.MarkProcessedExactlyBatch | src/server/api/services/eventService.ts:61-67 | with unique ids, marking a batch's ids marks an event exactly when it is in the batch |
| EventService.MarkEventsAsProcessed | src/server/api/services/eventService.ts:57-71 | an empty id list or a failing update leaves the events as they were; otherwise the table becomes MarkProcessed of the old table |
| EventService.GetAdminUsers | src/server/api/services/eventService.ts:76-88 | exactly the users whose role is "ADMIN"; `[]` when the query fails |
| EventService.MapEventType | src/server/api/services/eventService.ts:108-119 | each of the five named event types maps to the notification type of the same name (TASK_UPDATED to TASK_STATUS_CHANGED); every other type maps to COMMENT_ADDED |
| EventService.AdminDrafts | src/server/api/services/eventService.ts:104-120 | one row per admin, in admin order, with the admin's id, the message and the mapped type |
| EventService.AdminFanOut | src/server/api/services/eventService.ts:98-122 | no rows when a query fails or there are no admins; otherwise rows without duplicates, each carrying the message, the mapped type and an admin's id |
| EventService.FanOutOnePerAdmin | src/server/api/services/eventService.ts:99-122 | with unique user ids and no failure, every admin gets exactly one notification, in admin order |
| EventService.NotifyAdminsOfEvent | src/server/api/services/eventService.ts:93-126 | appends exactly the AdminFanOut rows, with consecutive notification ids from the counter; a failing query is swallowed |
| ProcessEvents.EventTag | src/server/cron/processEvents.ts:60-75 | the bracketed tag is empty exactly for an event type outside the six named ones |
| ProcessEvents.BuildEventMessage | src/server/cron/processEvents.ts:53-76 | "[TAG] user action" for the six named types and "user action" otherwise, with "Unknown User" for a missing user name |
| ProcessEvents.MessageEndsWithAction | src/server/cron/processEvents.ts:58-75 | every message ends with the user name, a space and the action |
| ProcessEvents.SweepDraftsFromBatch | src/server/cron/processEvents.ts:24-39 | every notification a sweep writes carries the message and the mapped type of one of the batch's events |
| ProcessEvents.SweepCount | src/server/cron/processEvents.ts:24-39 | error isolation: with unique user ids, an event notified without a fault yields one notification per admin and a faulty one yields none, whatever happens to the others |
| ProcessEvents.SweepCountNoFaults | src/server/cron/processEvents.ts:24-39 | without faults a sweep writes (number of admins) × (batch size) notifications |
| ProcessEvents.IdleSweepFetchesNothing | src/server/cron/processEvents.ts:14-19 | with every event processed the fetched batch is empty |
| ProcessEvents.SweepMarksBatch | src/server/cron/processEvents.ts:41-43 | the final update marks as processed exactly the fetched events and leaves the others as they were |
| ProcessEvents.NotifyEventAt | src/server/cron/processEvents.ts:25-38 | one loop turn appends the notifications of the event at that position after those of the events before it |
| ProcessEvents.NotifyBatch | src/server/cron/processEvents.ts:24-39 | the loop appends the notifications of every event of the batch, in batch order, and changes no other table |
| ProcessEvents.SweepBatch | src/server/cron/processEvents.ts:24-43 | for a non-empty batch, appends its notifications and then marks the batch processed unless that update fails |
| ProcessEvents.ProcessSystemEvents | src/server/cron/processEvents.ts:12-48 | fetches the batch; an empty batch changes nothing; otherwise the notifications of all events are appended, and every fetched event is marked processed unless the final update fails, whatever happened while notifying |
| CronInit.ScheduledJob.Stop | src/server/cron/init.ts:34 | the job is stopped |
| CronInit.CronJobs.InitializeCronJobs | src/server/cron/init.ts:10-27 | starts only when no job is scheduled: then a fresh job is stored and one sweep runs at once; otherwise nothing changes |
| CronInit.CronJobs.StopCronJobs | src/server/cron/init.ts:32-38 | a scheduled job is stopped and the latch is cleared; without one nothing happens |
| CronInit.CronJobs.Tick | src/server/cron/init.ts:20-22 | a minute tick runs one sweep exactly when a job is scheduled, and otherwise leaves the database unchanged |
| CommentRouter.GetByTask | src/server/api/routers/comment.ts:23-63 | a non-positive task id is refused; a missing task is NOT_FOUND; otherwise the answer is Ok |
| CommentRouter.GetByTaskIsTaskComments | src/server/api/routers/comment.ts:37-60 | the comments returned are exactly the task's comments (none lost, none foreign), ordered by `createdAt` ascending |
| CommentRouter.Excerpt | src/server/api/routers/comment.ts:138 | the event's comment excerpt is a prefix of the text, the whole text when it has at most 100 characters and exactly 100 characters otherwise (characters counted as code points) |
| CommentRouter.CommentNoticeIff | src/server/api/routers/comment.ts:115-128 | exactly one "New comment" notice is written, to the assignee, when the task has an assignee other than the commenter, and none otherwise |
| CommentRouter.WriteComment | src/server/api/routers/comment.ts:92-141 | appends the comment with the next id, the caller as author and `createdAt` now, then the assignee's notice and the COMMENT_ADDED event |
| CommentRouter.Create | src/server/api/routers/comment.ts:69-146 | an input outside the schema is BAD_REQUEST and a missing task NOT_FOUND, both with the database unchanged; otherwise the comment, its notice and its event are written |
| CommentRouter.GuardDelete | src/server/api/routers/comment.ts:152-182 | a delete passes exactly when the comment exists, its task exists and the caller wrote the comment or created the task; a missing comment is NOT_FOUND, a refused caller FORBIDDEN |
| CommentRouter.Delete | src/server/api/routers/comment.ts:152-191 | on a refusal nothing changes and the error is the guard's; otherwise exactly the comment with that id is removed and its id returned |
| CommentRouter.DeleteKeepsOthers | src/server/api/routers/comment.ts:184-186 | every other comment survives a delete |
| ProjectRouter.List | src/server/api/routers/project.ts:28-46 | one entry per project of the caller |
| ProjectRouter.ListIsCallersProjects | src/server/api/routers/project.ts:29-43 | every listed project is the caller's, carries the number of its tasks, and the list is newest first |
| ProjectRouter.ListHasAll | src/server/api/routers/project.ts:29-33 | every project the caller created is listed |
| ProjectRouter.GuardProject | src/server/api/routers/project.ts:98-114 | a non-positive id is BAD_REQUEST, a missing project NOT_FOUND, another user's project FORBIDDEN; the check passes exactly for the caller's own project with that id |
| ProjectRouter.GetById | src/server/api/routers/project.ts:192-237 | refused exactly as the guard refuses; otherwise the caller's project with that id and exactly the tasks of that project |
| ProjectRouter.Create | src/server/api/routers/project.ts:52-88 | an input outside the schema is BAD_REQUEST with nothing written; otherwise one project with the next id, created by the caller at now, and one PROJECT_CREATED event |
| ProjectRouter.Renamed | src/server/api/routers/project.ts:116-122 | the updated row has the new name, the new description unless none was given, and the old id, creator and creation time |
| ProjectRouter.Update | src/server/api/routers/project.ts:94-139 | refused with the schema's or the guard's error and nothing changed; otherwise that row is rewritten as Renamed describes, with no event recorded |
| ProjectRouter.UpdateOnlyThatProject | src/server/api/routers/project.ts:116-119 | an update leaves every other project as it was |
| ProjectRouter.Delete | src/server/api/routers/project.ts:146-187 | refused exactly as the guard refuses, with nothing changed; otherwise exactly that project is removed and a PROJECT_DELETED event naming it is recorded |
| NotificationRouter.GetUnread | src/server/api/routers/notification.ts:13-25 | the caller's unread notifications, newest first, as a permutation of them |
| NotificationRouter.GetUnreadExactly | src/server/api/routers/notification.ts:14-18 | every notification returned is an unread one of the caller, and every unread one of the caller is returned |
| NotificationRouter.UnreadCountIsUnreadLength | src/server/api/routers/notification.ts:141-150 | the unread count equals the length of the unread list |
| NotificationRouter.GetAll | src/server/api/routers/notification.ts:30-48 | a non-positive limit is BAD_REQUEST; otherwise at most `limit` (50 when absent) notifications |
| NotificationRouter.GetAllIsNewestOfCallers | src/server/api/routers/notification.ts:34-44 | the page is a prefix of the caller's notifications sorted newest first; it is shorter than the limit only when it holds them all |
| NotificationRouter.GuardNotification | src/server/api/routers/notification.ts:56-72 | a non-positive id is BAD_REQUEST, a missing notification NOT_FOUND, another user's FORBIDDEN; the check passes exactly for the caller's own notification |
| NotificationRouter.MarkAsRead | src/server/api/routers/notification.ts:53-82 | refused exactly as the guard refuses, with nothing changed; otherwise that notification alone is rewritten with `read` set and returned |
| NotificationRouter.ReadAll | src/server/api/routers/notification.ts:88-96 | the table keeps its length; exactly the caller's unread notifications become read |
| NotificationRouter.MarkAllAsRead | src/server/api/routers/notification.ts:87-102 | the table becomes ReadAll of the old one and the count answered is the number of the caller's unread notifications |
| NotificationRouter.ReadAllLeavesNoneUnread | src/server/api/routers/notification.ts:87-102 | after marking all read the caller's unread count is 0, so a second call updates nothing |
| NotificationRouter.Delete | src/server/api/routers/notification.ts:107-136 | refused exactly as the guard refuses, with nothing changed; otherwise exactly that notification is removed and its id returned |
| NotificationRouter.BucketsStep | src/server/api/routers/notification.ts:163-166 | one loop turn appends the next notification to the bucket of its type, creating the bucket if needed |
| NotificationRouter.GetByType | src/server/api/routers/notification.ts:155-169 | the loop builds the buckets of the caller's notifications |
| NotificationRouter.BucketsAreFilters | src/server/api/routers/notification.ts:162-166 | a type has a bucket exactly when some notification has it, and the bucket is exactly those notifications in table order |
| NotificationRouter.BucketOfEach | src/server/api/routers/notification.ts:162-166 | each notification is in the bucket of its own type and in no other |
| HistoryRouter.GetByTask | src/server/api/routers/history.ts:13-52 | a non-positive task id is refused; a missing task is NOT_FOUND; otherwise the answer is Ok |
| HistoryRouter.GetByTaskIsTaskHistory | src/server/api/routers/history.ts:27-49 | the entries returned are exactly the task's, sorted by timestamp ascending, as a permutation of them |
| HistoryRouter.GetAll | src/server/api/routers/history.ts:57-92 | a non-positive limit is BAD_REQUEST; otherwise at most `limit` (100 when absent) entries |
| HistoryRouter.GetAllIsNewestOfCallers | src/server/api/routers/history.ts:61-89 | the page holds only the caller's entries and is a prefix of them sorted newest first; it is shorter than the limit only when it holds them all |
| HistoryRouter.GetAllLeavesOutOlder | src/server/api/routers/history.ts:85-88 | the page is newest first and every entry left out is no newer than any entry on it |
| HistoryRouter.GetByUserAndTask | src/server/api/routers/history.ts:97-131 | a non-positive task id is BAD_REQUEST; otherwise Ok |
| HistoryRouter.GetByUserAndTaskExactly | src/server/api/routers/history.ts:101-128 | the entries returned are sorted by timestamp and are exactly that user's entries on that task |
| HistoryRouter.GetByUserAndTaskWithinTask | src/server/api/routers/history.ts:97-131 | for an existing task, the entries of one user on it are exactly the task's entries written by that user |
| HistoryRouter.GetActivitySummary | src/server/api/routers/history.ts:136-155 | the total is the number of the caller's entries, each action name is counted by the loop, and the last activity is the timestamp of the caller's last entry, or null when there is none |
| HistoryRouter.ActivitySummaryAddsUp | src/server/api/routers/history.ts:145-148 | the per-action counters add up to the total, each counter is the number of entries with that action, and an action has a counter exactly when it occurs |
| TaskRouter.DueTextInjective | src/server/api/routers/task.ts:115-118 | two due dates have the same recorded text exactly when they are equal |
| TaskRouter.DiffersIffTextDiffers | src/server/api/routers/task.ts:75-118 | each field's test (raw for status, title, priority; through `?? ""` for the assignee; through the date text for the due date) fails exactly when the recorded old and new texts differ |
| TaskRouter.ChangedFieldsIff | src/server/api/routers/task.ts:75-126 | a field is listed as changed exactly when the update changes it |
| TaskRouter.ChangedFieldsOrdered | src/server/api/routers/task.ts:75-126 | the changed fields come in the order status, title, priority, assignee, due date |
| TaskRouter.HistoryEntriesAreChanges | src/server/api/routers/task.ts:66-126 | the History rows are exactly one change entry per changed field, in field order |
| TaskRouter.HistoryEntriesRecordChanges | src/server/api/routers/task.ts:76-125 | every row records a real change of its field: its action, the old value's text and the new value's text, which differ |
| TaskRouter.NoEntriesIffUnchanged | src/server/api/routers/task.ts:75-126 | no row is written exactly when status, title, priority, assignee text and due date all agree |
| TaskRouter.BuildHistoryEntries | src/server/api/routers/task.ts:73-126 | the pushes build exactly the History rows of the change |
| TaskRouter.InsertHistoryEntries | src/server/api/routers/task.ts:128-130 | the loop appends the rows in order with consecutive ids from the counter |
| TaskRouter.CreateHistoryEntries | src/server/api/routers/task.ts:66-131 | the History table gains exactly the rows of the change, in field order, stamped now |
| TaskRouter.UpdateNotifications | src/server/api/routers/task.ts:133-165 | at most two notifications, all addressed to the new assignee |
| TaskRouter.AssignedNoticeIff | src/server/api/routers/task.ts:134-152 | the TASK_ASSIGNED notifications of an update are exactly one to the new assignee when it is present and differs from the old one (or there was none), and none otherwise |
| TaskRouter.CompletedNoticeIff | src/server/api/routers/task.ts:154-164 | one TASK_COMPLETED notification to the assignee exactly when the status moves into COMPLETED and an assignee is present; re-saving a completed task sends none |
| TaskRouter.CreateNotifications | src/server/api/routers/task.ts:133-165 | the notification table gains exactly the notices of the update, in order |
| TaskRouter.ApplyUpdate | src/server/api/routers/task.ts:252-270 | the given fields are written; an absent optional field keeps its old value; id, creator and creation time stay |
| TaskRouter.WriteCreated | src/server/api/routers/task.ts:186-238 | appends the task with the next id, one CREATED History row (old "", new the title), a TASK_ASSIGNED notification exactly when an assignee is given, and the TASK_CREATED event |
| TaskRouter.Create | src/server/api/routers/task.ts:182-240 | Ok exactly for an input the schema accepts; an input outside it is BAD_REQUEST with nothing written; otherwise exactly the writes of WriteCreated |
| TaskRouter.GuardTask | src/server/api/routers/task.ts:246-250 | a missing task is NOT_FOUND, another user's task FORBIDDEN; the check passes exactly for a task the caller created |
| TaskRouter.Update | src/server/api/routers/task.ts:242-294 | Ok exactly when the input is valid and the guard passes; refused with the schema's or the guard's error and nothing changed; otherwise the row becomes ApplyUpdate of the old one, followed by the change's History rows, its notifications and a TASK_UPDATED event |
| TaskRouter.UpdateTouchesOneRow | src/server/api/routers/task.ts:252-255 | every other task row is unchanged by an update |
| TaskRouter.Delete | src/server/api/routers/task.ts:296-330 | Ok exactly for a positive id whose task the caller created; a non-positive id is BAD_REQUEST and a guard refusal is its error, with nothing changed; otherwise the id, one DELETED History row (old the title, new ""), the row removed, and a TASK_DELETED event |
| TaskRouter.TasksCreatedBy | src/server/api/routers/task.ts:382-383 | exactly the tasks the caller created |
| TaskRouter.RoundedPercent | src/server/api/routers/task.ts:391 | the exact percentage rounded half up on integers, between 0 and 100 (see "## Left out" for the difference from rounding a double) |
| TaskRouter.GetStats | src/server/api/routers/task.ts:381-393 | total is the number of the caller's tasks, completed the number of them COMPLETED, completed + pending = total, and the rate is 0 without tasks and the rounded percentage otherwise |
| ReportRouter.TasksByStatus | src/server/api/routers/report.ts:32-54 | tagged STATUS, the counter of each status name over the caller's tasks |
| ReportRouter.TasksByPriority | src/server/api/routers/report.ts:59-81 | tagged PRIORITY, the counter of each priority name over the caller's tasks |
| ReportRouter.TasksByProject | src/server/api/routers/report.ts:86-114 | tagged PROJECT, the counter of each project name over the caller's tasks, "No Project" for a task whose project is missing |
| ReportRouter.TasksByAssignee | src/server/api/routers/report.ts:119-147 | tagged ASSIGNEE, the counter of each assignee name over the caller's tasks, "Unassigned" for a task without one |
| ReportRouter.BreakdownIsExact | src/server/api/routers/report.ts:45-140 | in every breakdown, a key's counter is the number of the caller's tasks with that key, and the counters add up to the number of tasks |
| ReportRouter.MissingProjectsUnderNoProject | src/server/api/routers/report.ts:105 | every task whose project is missing is counted under "No Project" |
| ReportRouter.UnassignedUnderUnassigned | src/server/api/routers/report.ts:138 | every task without an assignee is counted under "Unassigned" |
| ReportRouter.Summary | src/server/api/routers/report.ts:152-201 | total, completed, pending = total − completed = the tasks not completed, assigned and unassigned counts that add up, the rate (0 without tasks, else the rounded percentage), and the status, priority and project breakdowns |
| ReportRouter.ExportWhere | src/server/api/routers/report.ts:220-240 | a filter field is set exactly when that filter is given and not "all"; the condition holds of exactly the caller's tasks passing every active filter |
| ReportRouter.QuoteReadsBack | src/server/api/routers/report.ts:289-290 | a quoted field, with its quotes doubled, reads back as the original text |
| ReportRouter.CsvIsHeaderAndRows | src/server/api/routers/report.ts:273-302 | the CSV is the header line and then one line per task, the i-th being the fields of the i-th task joined by commas, each line ending in a line feed |
| ReportRouter.CsvLineLayout | src/server/api/routers/report.ts:287-297 | a row line is the id, the quoted title and the quoted description, then the other fields |
| ReportRouter.CsvLineQuotesText | src/server/api/routers/report.ts:287-297 | reading a row line after the id gives back the title and then the description, whatever quotes they hold |
| ReportRouter.ExportTasksAsCSV | src/server/api/routers/report.ts:206-309 | an unknown status or priority filter fails; otherwise the CSV of the selected tasks newest first, their number, and the dated file name |
| ReportRouter.ExportSelectsExactly | src/server/api/routers/report.ts:220-271 | a task is exported exactly when it is the caller's and passes every active filter |
| ReportRouter.GetOverdueReport | src/server/api/routers/report.ts:314-362 | the caller's overdue tasks, by ascending due date, as a permutation of them, with their number and their priority and project breakdowns |
| ReportRouter.OverdueReportTasks | src/server/api/routers/report.ts:317-329 | a task is in the overdue report exactly when it is the caller's, has a due date before now and is not COMPLETED |
| ReportRouter.CountStatusAndPriority | src/server/api/routers/report.ts:586-589 | the loop builds the status and the priority counters of the tasks |
| ReportRouter.ComputeOverview | src/server/api/routers/report.ts:578-600 | total, completed, pending = the tasks not completed, overdue among the pending ones, the rate, and both breakdowns |
| ReportRouter.GetProjectOverview | src/server/api/routers/report.ts:560-603 | fails with "Project not found" exactly unless the project exists and is the caller's; otherwise that project and the overview of its tasks |
| ReportRouter.UserScopeIff | src/server/api/routers/report.ts:689-694 | for the caller's own id the scope is the tasks assigned to or created by the caller; for another user, the tasks assigned to that user that the caller created |
| ReportRouter.GetUserOverview | src/server/api/routers/report.ts:682-745 | the overview of exactly the tasks in the user's scope |
| ReportRouter.TasksForUserWhere | src/server/api/routers/report.ts:761-775 | the user scope extended by the status and priority filters, set exactly when given and not "all" |
| ReportRouter.OrderByDue | src/server/api/routers/report.ts:788-790 | the order keeps the number of tasks |
| ReportRouter.OrderByDueKeepsTasks | src/server/api/routers/report.ts:788-790 | the ordered list holds exactly the tasks it was given |
| ReportRouter.OrderByDueDatedFirst | src/server/api/routers/report.ts:788-790 | the tasks with a due date come first and those without one last |
| ReportRouter.OrderByDueAscending | src/server/api/routers/report.ts:788-790 | the dated tasks come by ascending due date |
| ReportRouter.TasksForUser | src/server/api/routers/report.ts:750-797 | an unknown status or priority fails; otherwise the tasks in scope passing the filters, ordered by due date, with their count |
| SearchRouter.SearchWhere | src/server/api/routers/search.ts:28-55 | the `OR` is set exactly when the text is non-blank once trimmed, each filter field exactly when the filter is given and not "all"; the condition holds of exactly the tasks the search selects |
| SearchRouter.BuildClause | src/server/api/routers/search.ts:28-55 | the field-by-field assignments build the flat part of the condition |
| SearchRouter.FieldsKnown | src/server/api/routers/search.ts:41-47 | the condition names known status and priority values exactly when the active filters do, since neither is checked against the enumerations first |
| SearchRouter.FieldsHold | src/server/api/routers/search.ts:28-55 | the flat part holds of the caller's tasks that pass the status, priority, project and assigned-only filters |
| SearchRouter.TextClausesHold | src/server/api/routers/search.ts:35-38 | the `OR` holds of a task whose title or description contains the text, ignoring case |
| SearchRouter.SearchTasks | src/server/api/routers/search.ts:25-87 | a text over 500 characters is BAD_REQUEST and an unknown status or priority fails; otherwise the selected tasks, newest first |
| SearchRouter.SearchFindsExactly | src/server/api/routers/search.ts:28-83 | a task is found exactly when the search selects it, and the result is newest first |
| SearchRouter.TotalPages | src/server/api/routers/search.ts:160 | `Math.ceil(total / pageSize)`: the fewest pages of that size that hold every item |
| SearchRouter.BelowTotalPages | src/server/api/routers/search.ts:160-169 | page n + 1 exists exactly when the first n pages leave an item over |
| SearchRouter.PageOf | src/server/api/routers/search.ts:129-155 | the page holds the items from position (page − 1) × pageSize on, at most pageSize of them |
| SearchRouter.OnExactlyOnePage | src/server/api/routers/search.ts:129-155 | item k lies on page p exactly when p = k / pageSize + 1 |
| SearchRouter.EveryItemOnItsPage | src/server/api/routers/search.ts:129-160 | the page of every item exists and holds the item |
| SearchRouter.NextPageIffMore | src/server/api/routers/search.ts:169 | `hasNextPage` holds exactly when some item lies after this page |
| SearchRouter.TasksWithPagination | src/server/api/routers/search.ts:92-173 | a text over the limit or a non-positive page or page size is BAD_REQUEST (defaults 1 and 10), an unknown status or priority fails; otherwise the page of the selected tasks newest first, the total, ⌈total / pageSize⌉, `page < totalPages` and `page > 1` |
| SearchRouter.SearchProjects | src/server/api/routers/search.ts:178-211 | a text over the limit is BAD_REQUEST; otherwise one entry per project of the caller matching the text |
| SearchRouter.SearchProjectsOrdered | src/server/api/routers/search.ts:204-207 | the projects found are newest first, each with the number of its tasks |
| SearchRouter.SearchProjectsSound | src/server/api/routers/search.ts:183-196 | every project found is the caller's and matches the text |
| SearchRouter.SearchProjectsComplete | src/server/api/routers/search.ts:183-196 | every project of the caller that matches the text is found |
| SearchRouter.CountByStatusIsBreakdown | src/server/api/routers/search.ts:216-235 | the reduce gives the status counters of the caller's tasks: each is the number of tasks with that status, only statuses that occur have one, and they add up to the number of tasks |
| SearchRouter.CountByPriorityIsBreakdown | src/server/api/routers/search.ts:240-259 | the same for priorities |
| SearchRouter.MyAssignedTasksExactly | src/server/api/routers/search.ts:264-285 | exactly the tasks assigned to the caller, whoever created them, newest first |
| RegisterForm.ShapedSplit | src/components/registerform.tsx:39-45 | an address the pattern accepts has exactly one "@", so `split("@")` gives the local part and the domain |
| RegisterForm.DomainValidAt | src/components/registerform.tsx:43-49 | on an accepted address the domain check is that the lower-cased text after "@" is an allowed provider |
| RegisterForm.EmailValidIff | src/components/registerform.tsx:26-51 | a registration address is valid exactly when, trimmed, it is a plain local part, "@" and a dotted plain domain whose lower-case form is one of the eight providers |
| RegisterForm.ListedInOrder | src/components/registerform.tsx:63-86 | an error list names a field exactly when its test fails, in the order nombre, email, contraseña, and is empty exactly when no test fails |
| RegisterForm.ValidHasNoEmpty | src/components/registerform.tsx:38-67 | a form whose fields all pass their checks has no empty field |
| RegisterForm.CollectFields | src/components/registerform.tsx:63-86 | the pushes build the list of failing fields in form order |
| RegisterForm.HandleRegister | src/components/registerform.tsx:59-107 | empty fields are reported first with the message for their number, then invalid fields likewise; a request is sent exactly when all three fields are valid, with the name and email trimmed and the password as typed |
| LoginForm.HandleLogin | src/components/loginform.tsx:22-48 | empty fields are reported first, then a malformed email; the request is sent exactly when the password is non-empty and the trimmed email has the shape, with the email and password as typed |
| LoginForm.ShapedNotBlank | src/components/loginform.tsx:19-27 | an address of the right shape is never blank |
| LoginForm.AfterLogin | src/components/loginform.tsx:50-58 | a refusal shows the bad-credentials message; otherwise the user is kept with the typed email, and with a role exactly when the answer has a truthy one |
| LoginForm.StoredNameBeforeAt | src/components/loginform.tsx:57 | the stored name is the part of the email before its first "@", or the whole email without one |
| ManagerLayout.PathToTab | src/app/manager/layout.tsx:19-29 | every path selects one of the seven tabs, and the empty path selects the dashboard |
| ManagerLayout.OnlyThatSection | src/app/manager/layout.tsx:21-27 | a path under one section path starts with no other, so the order of the tests does not matter |
| ManagerLayout.PrefixSelectsTab | src/app/manager/layout.tsx:9-29 | a path under a tab's section selects that tab |
| ManagerLayout.TabRoundTrip | src/app/manager/layout.tsx:9-29 | the section path of each tab selects the tab again |
| ManagerLayout.OtherPathsSelectDashboard | src/app/manager/layout.tsx:28 | a path under none of the sections selects the dashboard |
| ManagerLayout.HandleTabChange | src/app/manager/layout.tsx:40-46 | the tab is selected and the path is its section, or "/manager/inicio" for a tab outside the table |
| ManagerLayout.TabChangeSelectsTab | src/app/manager/layout.tsx:36-46 | after a tab change the new path selects the same tab again, or the dashboard for an unknown one |
| NotificationsPage.AllowedIsCategory | src/app/manager/notificaciones/page.tsx:73-77 | each category list names exactly the types of that category: the lists are disjoint and cover all nine types |
| NotificationsPage.FilteredNotifications | src/app/manager/notificaciones/page.tsx:70-81 | the "all" filter returns the list unchanged, and a filter never adds notifications |
| NotificationsPage.FilteredIsCategory | src/app/manager/notificaciones/page.tsx:79-80 | a category filter keeps, in order, exactly the notifications of that category |
| NotificationsPage.LabelsDistinct | src/app/manager/notificaciones/page.tsx:104-127 | different types get different labels |
| NotificationsPage.LabelOfType | src/app/manager/notificaciones/page.tsx:105-123 | the Spanish label of each of the nine types |
| NotificationsPage.LabelOfUnknown | src/app/manager/notificaciones/page.tsx:124-125 | a name that is no known type is shown as it is |
| NotificationsPage.BadgeFollowsCategory | src/app/manager/notificaciones/page.tsx:129-134 | the badge of every type is that of its category |
| NotificationsPage.TaskBadge | src/app/manager/notificaciones/page.tsx:130 | every task type has the "default" badge |
| NotificationsPage.ProjectBadge | src/app/manager/notificaciones/page.tsx:131 | every project type has the "secondary" badge |
| NotificationsPage.CommentBadge | src/app/manager/notificaciones/page.tsx:132 | the comment type has the "outline" badge |
| DashboardPage.StatusCount | src/app/manager/inicio/page.tsx:83-84 | the number of tasks with the given status (PENDING for one card, IN_PROGRESS for the other), at most the total |
| DashboardPage.PendingAndInProgressWithinTotal | src/app/manager/inicio/page.tsx:82-84 | the pending and in-progress cards together never exceed the total |
| DashboardPage.OverdueCount | src/app/manager/inicio/page.tsx:85-89 | the number of overdue tasks, at most the total |
| DashboardPage.OverdueExcludesCompleted | src/app/manager/inicio/page.tsx:85-89 | overdue and completed tasks together are at most the total, since a completed task is never overdue |
| DashboardPage.OverdueGrowsWithTime | src/app/manager/inicio/page.tsx:85-89 | as time passes the overdue count can only grow |
| DashboardPage.StatusDistribution | src/app/manager/inicio/page.tsx:91-98 | one slice per status key that occurs (null read as "UNKNOWN"), each with its Spanish label (or the key) and its count |
| DashboardPage.StatusDistributionAddsUp | src/app/manager/inicio/page.tsx:91-98 | each slice counts exactly the tasks with its key, and the slices add up to the number of tasks |
| DashboardPage.NullStatusUnderUnknown | src/app/manager/inicio/page.tsx:94 | every task without a status is counted under "UNKNOWN" |
| DashboardPage.ChartAgreesWithCards | src/app/manager/inicio/page.tsx:83-98 | the chart's PENDING and IN_PROGRESS slices equal the two cards |
| DashboardPage.ProjectLabelCases | src/app/manager/inicio/page.tsx:107 | the label of a bar is the name of the first project whose id reads as its key, or "Sin proyecto" when that project has no name |
| DashboardPage.UnknownProjectLabel | src/app/manager/inicio/page.tsx:107 | a key no project's id reads as is labelled "Sin proyecto" |
| DashboardPage.TasksPerProject | src/app/manager/inicio/page.tsx:100-110 | one bar per project key that occurs (a missing project read as "unassigned"), with its label and its count |
| DashboardPage.TasksPerProjectAddsUp | src/app/manager/inicio/page.tsx:100-110 | each bar counts exactly the tasks with its key, and the bars add up to the number of tasks |
| DashboardPage.MissingProjectUnassigned | src/app/manager/inicio/page.tsx:103 | every task without a project is counted under "unassigned" |
| DashboardPage.UnassignedExactly | src/app/manager/inicio/page.tsx:103 | with numeric project ids the "unassigned" bar counts exactly the tasks without a project |
| DashboardPage.UpcomingDue | src/app/manager/inicio/page.tsx:112-116 | five open tasks with a due date, or all of them when there are fewer, taken from the list, by ascending due date |
| DashboardPage.UpcomingDueAreEarliest | src/app/manager/inicio/page.tsx:112-116 | an open dated task left out is due no earlier than every task shown |
| DashboardPage.UpcomingDueKeepsAllWhenFew | src/app/manager/inicio/page.tsx:112-116 | with at most five open dated tasks, all of them are shown |
| TeamForm.Submit | src/app/manager/equipos/_components/TeamForm.tsx:14-20 | the "Nombre requerido" alert exactly for an empty name; otherwise the team with the name as typed |
| TeamForm.SubmittedItemsClean | src/app/manager/equipos/_components/TeamForm.tsx:16-17 | the members and tasks handed on are non-empty, trimmed, and free of their separator |
| TeamForm.MembersRoundTrip | src/app/manager/equipos/_components/TeamForm.tsx:16 | clean names typed with ", " between them come back as exactly those members |
| TeamForm.NameNotTrimmed | src/app/manager/equipos/_components/TeamForm.tsx:18-19 | a non-empty name made only of white space, which trimming would empty, creates a team of that untrimmed name with the parsed lists |
| EditProfile.InitialSkills | src/app/manager/profile/_components/EditProfileModal.tsx:31-35 | a text is shown as given, no skills or an empty list as "" |
| EditProfile.OrEmpty | src/app/manager/profile/_components/EditProfileModal.tsx:24-30 | a missing field starts as "" |
| EditProfile.InitialForm | src/app/manager/profile/_components/EditProfileModal.tsx:24-36 | without a user every field of the form starts empty |
| EditProfile.OrUndefined | src/app/manager/profile/_components/EditProfileModal.tsx:53-59 | an empty field is sent as undefined and any other as typed |
| EditProfile.SavedSkills | src/app/manager/profile/_components/EditProfileModal.tsx:60 | empty skills are sent as undefined |
| EditProfile.SavedSkillsClean | src/app/manager/profile/_components/EditProfileModal.tsx:60 | the saved skills are non-empty, trimmed and free of commas |
| EditProfile.SavePayload | src/app/manager/profile/_components/EditProfileModal.tsx:51-61 | each field of the payload is undefined exactly when its form field is empty |
| EditProfile.FieldSurvivesSave | src/app/manager/profile/_components/EditProfileModal.tsx:24-59 | a field filled from the profile and saved unedited keeps its non-empty value |
| EditProfile.SkillsSurviveSave | src/app/manager/profile/_components/EditProfileModal.tsx:31-60 | a list of clean skills shown joined and saved unedited comes back as the same list, or undefined when empty |
| EditProfile.SaveUneditedProfile | src/app/manager/profile/_components/EditProfileModal.tsx:24-61 | opening the editor on a profile with clean skills and saving it unedited keeps every non-empty field and the skills |
| EditProfile.SkillsStableAcrossSaves | src/app/manager/profile/_components/EditProfileModal.tsx:31-60 | saving skills a second time after they were shown joined gives the same list |
| Schema.ActorName | src/server/api/routers/comment.ts:134 | the name an event records: the session name, else the email, else "Unknown" |
| TaskQuery.ProjectIdFilter | src/server/api/routers/search.ts:50 | `parseInt(projectId)`: NaN exactly when `parseInt` reads no number, otherwise the number it reads |
| Strings.ParseIntReadsHex | src/server/api/routers/search.ts:50 | after "0x" or "0X" the digits are read in base sixteen, with or without a minus sign in front |
| Strings.ParseIntNeedsDigit | src/server/api/routers/search.ts:50 | a text without any decimal digit reads as NaN |
| Strings.ParseIntOfString | src/server/api/routers/search.ts:50 | the decimal text `String(n)` of any integer reads back as `n` |

## Left out

- Time: dates are integers and `new Date()` / `Date.now()` is the parameter `now`. `toISOString` is a parameter `iso` in the CSV export. In the History text of a due date it is replaced by the decimal rendering, which is injective like it. Date parsing of strings on the dashboard, and the NaN of an invalid date, are not modelled.
- Floating point: hours are `real` and only copied. `productivityReport`, which computes averages with `toFixed`, is not part of this model, and neither is `avgResolutionTimeHours` in `userOverview`.
- The report procedures `tasksByStatusDetailed`, `tasksByPriorityDetailed`, `projectsList`, `tasksForProject` and `userList`, and the task procedures `list`, `getById` and `search` and comment `getByUser`, are not part of this model: they are plain queries outside the audit and notification paths.
- The routers `user.ts` and `root.ts`, `middleware.ts` and `prisma/seed.js` are not part of this model, nor are authentication and the tRPC context.
- Prisma: `include` and `select` relations are not modelled; a row is returned with its own fields. Cascading deletes are not modelled: deleting a task or project removes only its row. Among rows with equal sort keys the model fixes one order, which the database leaves open. Also, `orderBy: { dueDate: "asc" }` puts rows without a due date last, as PostgreSQL does.
- A status or priority filter that names no enumeration value makes the query fail as `ServerError`; Prisma's exact error message is not modelled.
- `Strings.ParseInt` reads leading white space and an optional sign, then hexadecimal digits after a "0x" or "0X" and decimal digits otherwise; a text it cannot read gives NaN (`None`). The model assumes that a `where` on `projectId: NaN` matches no task; what Prisma does with that value is not modelled. The model reads every digit exactly: a number above 2^53, which JavaScript rounds to the nearest double, is not modelled.
- `TaskRouter.RoundedPercent` rounds the exact fraction half up on integers, while `Math.round(part / total * 100)` rounds an IEEE double. The two differ when the double product falls just below a half: for 23 of 40 tasks the source computes 57.49999999999999 and shows 57, and the model gives 58. The completion rates of `TaskRouter.GetStats`, `ReportRouter.Summary` and `ReportRouter.ComputeOverview` carry this difference.
- Failing router writes: the writes of `TaskRouter.WriteCreated`, `TaskRouter.Update`, `TaskRouter.Delete`, `CommentRouter.WriteComment`, `ProjectRouter.Create`, `ProjectRouter.Update` and `ProjectRouter.Delete` always succeed in the model. In the source a database error there, such as a foreign-key refusal of an `assignedToId` or `projectId` that names no row, escapes as INTERNAL_SERVER_ERROR. Fault flags appear only where the source catches the error.
- `createMany({ skipDuplicates: true })`: Prisma skips rows that clash on a unique key of the notification table; the Prisma schema, which declares those keys, is not part of this model. `EventService.AdminFanOut` instead drops equal rows within the batch. With unique user ids, which `Database.Valid()` keeps, no two rows are equal, so nothing is dropped (`EventService.FanOutOnePerAdmin`).
- `$transaction` rollback is not modelled: every write of a procedure happens in order, and writes after a failure point are not undone.
- `void createSystemEvent(...)` is fire-and-forget in the source. It is modelled as running to completion right after the procedure's other writes, with a fault flag for a failing insert.
- The node-cron schedule is the method `Tick`, called once per minute by the caller. Overlapping sweeps are not modelled, nor are `console` logs.
- JSON: the `details` object is a map, so its key order is not modelled.
- Object key order: `statusDistribution`, `tasksPerProject`, `byType` and the report breakdowns are maps. The order in which JavaScript lists their keys (integer-like keys first, ascending) is not modelled.
- Strings: `toLowerCase` and the case-insensitive `contains` fold ASCII letters only. `trim` removes the JavaScript white space listed in `Strings.IsSpace`. A string is a sequence of Unicode scalar values, so lengths count code points, while JavaScript's `length`, `substring` and the zod `min`/`max` checks count UTF-16 code units. A character outside the Basic Multilingual Plane, such as an emoji, counts once in the model and twice in the source. This affects `CommentRouter.ValidComment`, `ProjectRouter.ValidProject`, `SearchRouter.ValidText`, `TaskRouter.ValidCreate`, `TaskRouter.ValidUpdate`, `RegisterForm.NameValid` and `RegisterForm.PasswordValid`, and `CommentRouter.Excerpt`, whose `substring(0, 100)` can split a surrogate pair in the source.
- The client pages: rendering, React state and effects, `toast` and `alert` display, `fetch` of the login and registration endpoints, the automatic sign-in after registration, `localStorage` writes, and routing calls other than the path chosen.
- `EditProfile`: the `useEffect` that resets the form when the user changes, the dynamic import of the tRPC client and the `onSave` call are not modelled; the model ends at the payload.
- `TeamForm.Submit`: the alert is modelled as the outcome `NameRequired`, and `onCreate` as the outcome `Created`.
- `ManagerLayout.HandleTabChange`: a tab that is a property of every JavaScript object (such as `constructor`) would read a prototype member of `tabToPath`; the model treats every tab name outside the seven as unknown. The same holds for `STATUS_LABELS` in `DashboardPage.DisplayName`.
- `NotificationsPage.FilteredNotifications`: the `|| []` fallback of `filterMap` is not modelled, since the filter is one of the four categories.
- `DashboardPage.UnassignedExactly` is stated only for numeric project ids: a project id that is the string "unassigned" would share the bar.
