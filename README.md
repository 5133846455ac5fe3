# Task scheduler reminders and request helpers, in Dafny

This project models the task-reminder engine of a small Flask task
scheduler (`notification_system.py`, class `TaskNotificationSystem`) and the
self-contained helpers of its web application (`app.py`), and proves what
they promise.

The engine owns three tables: per-user notification preferences, an
append-only notification log and the in-app inbox. It talks to an email
capability. The model covers:

- the due-task classifier (due today, due tomorrow, overdue);
- lazily defaulted preferences and their update;
- the "already notified today" dedup query over the log;
- the batch dispatcher: preference gate, dedup gate, one email, one log row
  per task, one in-app notice;
- the immediate single-task path;
- one scheduler cycle over all users;
- listing and marking in-app notices.

The module `Notifications` gives each operation as a function from one
`Store` value (the three tables plus the emails handed to the capability)
to the next. `Scheduler` builds one cycle from them. The class
`NotificationService.TaskNotificationSystem` performs the same operations in
place, row by row, and each of its methods is proved to produce exactly the
state the matching function computes.

From `app.py` the model covers:

- upload file-name validation (`Uploads`);
- the progress estimate of a task (`TaskProgress`);
- the immediate-notification check after a task is saved (`ImmediateCheck`);
- the plain-text task report (`TaskReport`);
- the field selection of the task update endpoint (`TaskUpdate`);
- the validation chain of the password-reset form (`PasswordReset`).

Conventions:

- Calendar dates are integer day numbers and "today" is a parameter. For
  well-formed `YYYY-MM-DD` text, comparing dates as text (as the SQL queries
  do) is the same as comparing day numbers.
- The outcome of sending an email is an input: a `bool` for one dispatch,
  and a function of (user, kind) for a cycle.
- Other results of clocks, random tokens and password hashing are
  parameters: `generatedOn`, `now`, `newHash`.
- The rows the engine's SQL selects are modelled with SQLite's semantics:
  - `COUNT(*) > 0` for the dedup question;
  - `fetchone` returns the first matching row;
  - an `UPDATE` changes every matching row;
  - `LIMIT` with a negative value means no limit;
  - `AUTOINCREMENT` ids with no deletions, so the n-th notice has id n.
    The listing orders notices newest first by id; `created_at` ties are
    discussed under "Left out".
- Python's `str.strip()` is modelled with the full `isspace` character set.
  `str.lower()` is modelled on ASCII letters only. Every lower-cased
  comparison in the model is against an ASCII word without a `k`. No other
  character lower-cases to a single ASCII letter, and a character that
  lower-cases to several (such as U+0130) leaves a non-ASCII mark that no
  compared word contains, so the comparisons come out as in Python.

## Model

| member | source | states |
|---|---|---|
| `Notifications.ImmediateKindName` | notification_system.py:126 | The single-task path's ledger label `immediate_<kind>` never equals a batch kind's label. |
| `Notifications.UserDueTasks` | notification_system.py:203-228 | A task is returned exactly when it is the user's, incomplete, dated and its date satisfies the kind's condition. |
| `Notifications.UserDueTasksIsFilter` | notification_system.py:212-228 | The query is the row-by-row filter of the table by its WHERE clause: the result of a concatenation is the concatenation of the results, and one row is kept exactly when it qualifies. So table order and duplicates are kept. |
| `Notifications.DueSetsPartition` | notification_system.py:212-223 | The three due sets are pairwise disjoint. Completed or undated tasks are in none. An incomplete dated task is due today iff due == today, due tomorrow iff due == today+1, overdue iff due < today. |
| `Notifications.FindPrefs` | notification_system.py:84-85 | The SELECT finds nothing exactly when the user has no row; otherwise it returns the values of one of the user's rows. |
| `Notifications.FindPrefsAppend` | notification_system.py:89-95 | Inserting a row never changes an existing user's answer; after inserting the user's first row, the re-read returns it. |
| `Notifications.GetPrefs` | notification_system.py:78-98 | A user with a row gets its values and the store is unchanged. A user without one gets exactly one default row (all switches on, 24 hours) inserted and returned. Nothing but the preference table changes. |
| `Notifications.GetPrefsIdempotent` | notification_system.py:78-98 | A second read returns the same values and inserts nothing; at most one row is added; one row per user stays true. |
| `Notifications.UpdateRows` | notification_system.py:318-327 | The UPDATE keeps the number of rows and each row's user. |
| `Notifications.UpdateRowsLookup` | notification_system.py:318-327 | After the UPDATE, the user reads the new values if they had a row and still has none otherwise; every other user reads what they read before. |
| `Notifications.UpdatePrefsEffect` | notification_system.py:313-330 | An update creates no row for an unknown user and installs the new values for a known one. The result does not depend on the prior values, and an empty update gives the defaults: omitted keys are reset, not kept. Other users are untouched and one row per user is kept. |
| `Notifications.LogRow` | notification_system.py:503-516 | A logged row carries the given user, task, kind, status and error; it has a sent date (today) exactly when its status is 'sent'. |
| `Notifications.AlreadyNotifiedIff` | notification_system.py:292-311 | The dedup query answers yes exactly when some row has the user, a task id of the batch, the same kind, status 'sent' and today's date. |
| `Notifications.CountSuppressingAppend` | notification_system.py:300-308 | The count over a log with appended rows is the sum of the two counts. |
| `Notifications.AlreadyNotifiedMonotone` | notification_system.py:292-311 | Once the dedup answer is yes it stays yes as the log grows. |
| `Notifications.AppendNonSuppressing` | notification_system.py:300-303 | Rows that do not match (failed, another kind, another day) never change the dedup answer. |
| `Notifications.CountOfPlural` | notification_system.py:269-276 | A count phrase ends in 's' exactly when the count is not 1, so 0 is plural. |
| `Notifications.CountOfInjective` | notification_system.py:269-276 | Different counts give different count phrases. |
| `Notifications.SubjectPluralisation` | notification_system.py:406-421 | The email subject ends in 's' exactly when the task count is not 1, and different counts give different subjects. |
| `Notifications.BatchNoticePluralisation` | notification_system.py:267-276 | The in-app title and message of a batch determine its task count. |
| `Notifications.BatchLogRows` | notification_system.py:257-264 | One row per task, in batch order. Each has the task's id, the batch kind and status 'sent' or 'failed' as the email went, with no error or 'Email sending failed'. |
| `Notifications.Dispatch` | notification_system.py:230-290 | If the email switch or the kind's switch is off, or the dedup query says yes, the result is false and nothing is emailed, logged or noticed. Otherwise there is one email with the batch subject, exactly one log row per task, and one notice: warning iff overdue, no task id, unread. The result is the email outcome. Only the preference read touches the preference table. |
| `Notifications.DispatchNoticeIgnoresEmail` | notification_system.py:266-283 | The notice and the email attempt do not depend on whether the email went out. |
| `Notifications.DispatchDeduplicates` | notification_system.py:246-249 | After a delivered batch, a second batch of the same kind sharing any task with it changes nothing and returns false. |
| `Notifications.Immediate` | notification_system.py:100-162 | An error at the preference read logs one 'failed' row with the error text and returns false. Otherwise the same preference gate applies, with no dedup. A pass sends one email, logs one row labelled `immediate_<kind>` and creates one notice carrying the task id. |
| `Notifications.ImmediateIgnoresLedger` | notification_system.py:100-122 | The single-task path never reads the log: its outcome, email and notice are the same whatever the log holds. |
| `Notifications.ImmediateNeverSuppressesBatch` | notification_system.py:126 | Rows written by the single-task path never make the batch dedup query answer yes. |
| `Notifications.NewestFirst` | notification_system.py:623-630 | The listing holds exactly the user's notices (unread ones only, unless read ones are included). |
| `Notifications.UserNotifications` | notification_system.py:617-637 | The first min(`limit`, n) entries of the user's newest-first listing (filtered by read status), all n of them for a negative limit. |
| `Notifications.UserNotificationsAreNewest` | notification_system.py:630 | Every listed notice the limited listing leaves out is older than every notice it returns. |
| `Notifications.NewestFirstOrdered` | notification_system.py:630 | The listing is strictly newest first (ids decrease). |
| `Notifications.MarkRead` | notification_system.py:639-650 | Only the read flag changes, and it is set exactly on the notice with that id that belongs to that user. |
| `Notifications.MarkReadOtherUser` | notification_system.py:644-647 | Marking never changes another user's listing. |
| `Notifications.MarkReadEffect` | notification_system.py:639-650 | Marking a notice that is not the user's changes nothing; after marking, the notice is absent from the user's unread listing. |
| `Scheduler.EligibleUsers` | notification_system.py:173-178 | The cycle visits exactly the users owning an incomplete task with a due date. |
| `Scheduler.GrowsForTrans` | notification_system.py:183-198 | Growth by rows of some users, followed by growth by rows of others, is growth by rows of both. |
| `Scheduler.DispatchGrowsFor` | notification_system.py:230-290 | A dispatch only appends rows, and only rows of its own user. |
| `Scheduler.CycleUserGrowsFor` | notification_system.py:186-198 | One user's step of the cycle only appends rows of that user. |
| `Scheduler.DispatchIfAnyGrowsFor` | notification_system.py:191-198 | A guarded dispatch only appends rows of its user. |
| `Scheduler.CycleGrowsFor` | notification_system.py:183-201 | A cycle only appends rows, all of them for the non-faulting users it visits. |
| `Scheduler.RunCycleTouchesOnlyEligible` | notification_system.py:164-201 | Existing log, inbox and preference rows are kept. Every added row belongs to a user who did not fault and has an incomplete dated task. |
| `Scheduler.Healthy` | notification_system.py:183-201 | Exactly the visited users whose processing does not raise. |
| `Scheduler.CycleIsolatesFaults` | notification_system.py:183-201 | A cycle where some users raise does exactly what a cycle over the other users alone does: one user's error stops no one else. |
| `Scheduler.DispatchKeepsSettled` | notification_system.py:230-290 | A dispatch for anyone never unsettles a settled batch: a batch already notified today stays so. |
| `Scheduler.DispatchIfAnyKeepsSettled` | notification_system.py:191-198 | A guarded dispatch keeps every settled user settled. |
| `Scheduler.CycleUserKeepsSettled` | notification_system.py:186-198 | Another user's step keeps a settled user settled. |
| `Scheduler.DispatchSettles` | notification_system.py:246-264 | Dispatching a user's batch with a delivered email settles it for the rest of the day, or it was gated or already settled. |
| `Scheduler.CycleUserSettles` | notification_system.py:186-198 | A user's step whose emails all go out leaves all three of the user's batches settled. |
| `Scheduler.SettledDispatchIsNoOp` | notification_system.py:191-198 | A guarded dispatch of a settled batch changes nothing. |
| `Scheduler.SettledCycleUserIsNoOp` | notification_system.py:186-198 | A settled user's step changes nothing. |
| `Scheduler.CycleSettles` | notification_system.py:183-201 | After a cycle in which every email went out, every visited non-faulting user is settled. |
| `Scheduler.SettledCycleIsNoOp` | notification_system.py:183-201 | A cycle over settled users changes nothing. |
| `Scheduler.RerunCycleIsNoOp` | notification_system.py:164-201 | After a cycle in which every email went out, a second cycle the same day, over the same users and tasks and with the same users faulting, sends, logs and notifies nothing, whatever the email capability answers. |
| `NotificationService.TaskNotificationSystem.constructor` | notification_system.py:28-76 | The engine starts over empty tables satisfying the table invariants. |
| `NotificationService.TaskNotificationSystem.GetUserPreferences` | notification_system.py:78-98 | The in-place read-or-insert leaves the tables as `GetPrefs` says and returns its values; invariants kept. |
| `NotificationService.TaskNotificationSystem.UpdateUserPreferences` | notification_system.py:313-330 | The in-place UPDATE leaves the tables as `UpdatePrefs` says; invariants kept. |
| `NotificationService.TaskNotificationSystem.LogNotification` | notification_system.py:503-516 | Appends exactly one `LogRow` and touches nothing else. |
| `NotificationService.TaskNotificationSystem.CreateInAppNotification` | notification_system.py:490-501 | Appends exactly one unread notice numbered after the last; ids stay positions. |
| `NotificationService.TaskNotificationSystem.LogBatch` | notification_system.py:257-264 | The loop appends exactly `BatchLogRows`: one row per task, in order. |
| `NotificationService.TaskNotificationSystem.SendUserNotificationBatch` | notification_system.py:230-290 | The in-place batch leaves the tables and returns exactly what `Dispatch` says; invariants kept. |
| `NotificationService.TaskNotificationSystem.SendImmediateTaskNotification` | notification_system.py:100-162 | The in-place single-task path agrees with `Immediate`; invariants kept. |
| `NotificationService.TaskNotificationSystem.CheckAllUsersTasks` | notification_system.py:164-201 | The loop over the selected users leaves the tables exactly as `RunCycle` says; invariants kept. |
| `NotificationService.TaskNotificationSystem.GetUserNotifications` | notification_system.py:617-637 | Returns exactly `UserNotifications` of the inbox: only the user's notices, filtered by read status, at most `limit`, strictly newest first, and no left-out notice is newer than a returned one. |
| `NotificationService.TaskNotificationSystem.MarkNotificationRead` | notification_system.py:639-650 | The in-place UPDATE agrees with `MarkRead`; invariants kept. |
| `Common.NatToStringRoundTrip` | notification_system.py:269 | Counts are rendered as decimal text that reads back as the same number. |
| `Common.StripEmptyIffAllSpace` | app.py:822 | A stripped text is empty exactly when it is all whitespace; otherwise it neither starts nor ends with whitespace. |
| `Common.TrimLeftSpec` | app.py:597 | Stripping on the left drops exactly the longest all-whitespace prefix. |
| `Common.TrimRightSpec` | app.py:597 | Stripping on the right drops exactly the longest all-whitespace suffix. |
| `Uploads.Extension` | app.py:58 | `rsplit('.', 1)[1]` exists exactly when the name has a dot; it is the dot-free text after the last dot. |
| `Uploads.AllowedFileIff` | app.py:31-58 | `allowed_file` holds exactly when the name has a last dot and the lower-cased text after it is in ALLOWED_EXTENSIONS. |
| `Uploads.IsVideoFileIff` | app.py:60-62 | `is_video_file` holds exactly when the lower-cased text after the last dot is a video extension. |
| `Uploads.VideoIsAllowed` | app.py:31-62 | Every name `is_video_file` accepts, `allowed_file` accepts too. |
| `Uploads.ExtensionOfLastSegment` | app.py:58 | For any stem, a dot and a dot-free tail, `rsplit('.', 1)[1]` is the tail. |
| `Uploads.LastSegmentDecides` | app.py:57-62 | Such a name is allowed (a video) exactly when its lower-cased tail is an allowed (video) extension. |
| `Uploads.UpperCaseExtensionAllowed` | app.py:58 | Two extensions that lower-case alike are accepted alike, by both checks: case never matters. |
| `Uploads.InnerExtensionIgnored` | app.py:58 | Whatever precedes the last dot, inner extensions included, never changes either check. |
| `TaskProgress.Progress` | app.py:245-272 | 100 exactly when completed. An incomplete task never exceeds 90, and gets 90 once today reaches the due date. Before the due date it is at most 80. Without a date, or with an unparsable one, it is min(media*20, 80), between 0 and 80. |
| `TaskProgress.ProgressCanBeNegative` | app.py:266-269 | Ten days before the due date with no media the estimate is -100: there is no lower bound. |
| `TaskProgress.ProgressMonotoneInMedia` | app.py:252-272 | More media never lowers the estimate. |
| `TaskProgress.ProgressMonotoneInTime` | app.py:260-269 | As days pass the estimate never goes down. |
| `ImmediateCheck.ImmediateKind` | app.py:297-304 | The chosen kind is exactly the kind whose batch date condition the due date meets; nothing after tomorrow. |
| `ImmediateCheck.FindUser` | app.py:289-294 | The user lookup finds nothing exactly when no user has the id; otherwise a user with the id. |
| `ImmediateCheck.CheckEffect` | app.py:274-312 | No due date, an unparsable date, an unknown user, or a date after tomorrow leave the engine untouched. For a known user and a date up to tomorrow, the engine ends as the single-task path leaves it, for the kind whose batch date condition the date meets. |
| `ImmediateCheck.CheckTaskNotifications` | app.py:274-312 | With no engine nothing happens; otherwise the engine ends as `CheckEffect` says. |
| `ImmediateCheck.CheckAgreesWithBatchKind` | app.py:297-304 | An incomplete task of the user that the check notifies as kind k is in the scheduler's due set of kind k. A completed task is notified too (see `CompletedTaskStillNotified`) but is in no due set. |
| `ImmediateCheck.CompletedTaskStillNotified` | app.py:274-310 | The check ignores the completion flag: a completed task due today still gets the email, the `immediate_due_today` row and a notice with its id. |
| `TaskReport.CompletedCount` | app.py:328 | The completed count never exceeds the number of tasks. |
| `TaskReport.PriorityCount` | app.py:330-332 | A priority count never exceeds the number of tasks. |
| `TaskReport.PriorityGroup` | app.py:344-346 | A priority section lists exactly the incomplete tasks of that priority. |
| `TaskReport.CompletedGroup` | app.py:347 | The completed section lists exactly the completed tasks. |
| `TaskReport.UnlistedGroup` | app.py:344-347 | The incomplete tasks whose priority is not high, medium or low. |
| `TaskReport.AppendBlocks` | app.py:352-359 | The loop over a section appends, per task, its bullet line, a due line if dated, a media line if any media, and a blank line. |
| `TaskReport.AppendSection` | app.py:349-359 | A section appears only for a non-empty group: heading, rule, task blocks. |
| `TaskReport.AppendSummary` | app.py:327-341 | The summary lines: completed, pending = total - completed, and the three priority counts. |
| `TaskReport.GenerateTaskReport` | app.py:314-402 | The report is header, summary, the high, medium, low and completed sections in that order, and footer, joined with newlines. |
| `TaskReport.HeaderShowsTotal` | app.py:324 | The "Total Tasks" line shows a decimal number that reads back as the number of tasks. |
| `TaskReport.SummaryShowsStatusCounts` | app.py:328-337 | The completed and pending lines show numbers that read back as the completed count and the total minus it. |
| `TaskReport.SummaryShowsPriorityCounts` | app.py:330-340 | The three priority lines show numbers that read back as the pending counts of each priority. |
| `TaskReport.CountsMatchSections` | app.py:328-347 | Each summary count equals the size of the section it heads. |
| `TaskReport.PendingSplitsByPriority` | app.py:328-332 | Pending = high + medium + low + the incomplete tasks with another priority, which no section lists. |
| `TaskReport.MediaLineIff` | app.py:357-358 | A task's lines have a "Media Files" line exactly when it has media, and it shows its own count. |
| `TaskUpdate.CompletedFlag` | app.py:833-836 | A text value is true exactly when its lower-cased form is 'true', '1', 'yes' or 'on'; any other value by truthiness. |
| `TaskUpdate.SelectFields` | app.py:818-850 | The step-by-step field selection gives exactly `Selection`. |
| `TaskUpdate.SelectionRefusals` | app.py:822-850 | A non-text title raises (a 500). "No valid fields" is answered exactly when none of due date, priority or completed is present and the title is absent or blank. |
| `TaskUpdate.SelectionColumnOrder` | app.py:822-836 | At most four columns, each at most once, in the order title, due date, priority, completed. |
| `TaskUpdate.SelectionTitle` | app.py:822-824 | The title is set exactly for a non-blank text title, to its stripped, non-blank text; a whitespace-only title is ignored. |
| `TaskUpdate.SelectionDueDate` | app.py:825-827 | The due date is set whenever the key is present, to NULL for a falsy value. |
| `TaskUpdate.SelectionPriority` | app.py:828-830 | The priority is set whenever the key is present, as given. |
| `TaskUpdate.SelectionCompleted` | app.py:831-846 | Completed is set whenever the key is present, to 1 or 0. The completion notice fires exactly on a false-to-true transition. |
| `TaskUpdate.CompletedSpellings` | app.py:834-836 | 'YES', 'On', '1' and a nonzero number mark a task done; 'false', '0', 'y' and null do not. |
| `PasswordReset.ResetPassword` | app.py:596-640 | Every refusal leaves both tables unchanged. A change sets only the token's user's hash and marks only that token used. |
| `PasswordReset.RejectionOrder` | app.py:597-631 | The checks run in order: empty field, mismatch, shorter than 6, unknown token, used token, expired. Each answer is given exactly when the earlier checks pass and its own fails. |
| `PasswordReset.LinkWorksOnce` | app.py:621-638 | After a successful reset, any later submission with the same link is refused and changes nothing. |
| `PasswordReset.ChangeRequiresValidForm` | app.py:600-631 | A change requires two equal stripped entries of at least six characters and a known, unused, unexpired token. |

Source paths are relative to the repository root. In `app.py` the report's
bullet characters are the text `‚Ä¢` and `‚úì` as written in the file: the
UTF-8 bytes of a bullet and a check mark read back as Mac Roman. The model
keeps them character for character.

`check_task_notifications` (app.py:274-312) never looks at the task's
`completed` flag. The task update endpoint calls it with the updated task
whenever the request carries a due date, so a task saved as completed with
a due date up to tomorrow still receives an immediate reminder.
`ImmediateCheck.CompletedTaskStillNotified` states this. The model keeps
that behaviour as written.

## Left out

- Flask plumbing: routes, sessions, the persistent-session file,
  `login_required` and `add_notification_routes`. This is request and
  response I/O.
- SQLite setup and connections (`init_db`, `init_notification_tables`,
  `get_db`). The tables are sequences and maps.
- The Brevo calls (`send_email_notification`, OTP and reset emails). The
  email outcome is an input, and the model records only each message's
  recipient and subject. Also left out:
  - the HTML and plain-text bodies built by `generate_email_content`;
  - the greeting line;
  - the month-name date formatting inside the body.
- The `schedule`/`threading` loop and `time.sleep` in `start_scheduler`.
  This is concurrency and wall-clock scheduling; one cycle is modelled.
- `get_due_tasks` and `process_notifications`. They are an older path with
  no dedup, which neither the scheduler nor the save-time check calls.
- `get_notification_stats`, which relies on SQLite's `date('now','-7 days')`.
  Also `stats_api`'s completion rate, which uses float division and `round`.
- Uploads, thumbnails and the filesystem. OTP and reset-token generation,
  and password hashing: their results are parameters.
- The GET side of the reset page and the lookup of the reset form's token
  expiry text: `expiresAt` is given already parsed.
- `Notifications.Dispatch`: database errors inside a batch (caught at
  notification_system.py:288-290) are not modelled. Only the single-task
  path's error branch and a per-user failure in the cycle (the `faulty` set)
  are.
- `Notifications.Immediate`: an error is modelled as raised at the
  preference read, before anything else happens. Errors raised after the
  email or the log write, which would leave a partial effect plus a second
  'failed' row, are not modelled.
- Ties in `created_at`. The column is `CURRENT_TIMESTAMP`, with
  one-second resolution, so notices created in the same second tie, and
  SQLite leaves their order, and which of them a `LIMIT` keeps, unspecified.
  The model breaks ties by insertion order (id). `NewestFirstOrdered`,
  `UserNotificationsAreNewest` and `GetUserNotifications` state that
  choice, not a promise of the source.
- The order in which a cycle visits users. The user query joins users and
  tasks with `SELECT DISTINCT` and no `ORDER BY`, so SQLite's order is
  unspecified. `Scheduler.EligibleUsers` and
  `NotificationService.TaskNotificationSystem.CheckAllUsersTasks` fix the
  users-table order. That choice decides how the log rows and notice ids of
  different users interleave in one cycle. No proved property depends on it.
- `Scheduler.Cycle` uses one `today` for the whole cycle. The source reads
  `date.today()` afresh in every due-task query and dedup query, so a cycle
  that runs past midnight is not modelled.
- Stored due dates inside the engine are assumed well-formed day numbers.
  Only the `app.py` helpers model missing and unparsable date text.
- `reminder_hours` is stored and reset, but no modelled operation reads it;
  the source does not read it either.
- Preference values are booleans. Non-boolean JSON values that the
  preferences endpoint could store are not modelled.
- `CheckTaskNotifications` takes the users table as a sequence with unique
  ids. A database error during the lookup, which the source swallows, is
  not modelled.
- `TaskUpdate.SelectFields` covers the body values null, boolean, integer
  and text. Floats, lists and objects are not modelled, and neither is the
  UPDATE itself or the re-read of the row. Whether the engine exists is left
  to the caller: the notice is created only when it does.
- `TaskReport.GenerateTaskReport`: `generatedOn` stands for
  `datetime.now().strftime(...)`. A NULL due date is the empty text; both
  are falsy in the source.
