/** TaskNotificationSystem: the engine as an object whose tables are updated
    in place, row by row, as the source does through its SQL statements.
    Every method is proved to leave the object in the state the matching
    function of the Notifications and Scheduler modules computes, so the
    properties proved there hold of the object. */
module NotificationService {
  import opened Common
  import opened Notifications
  import opened Scheduler

  class TaskNotificationSystem {
    /** notification_preferences */
    var prefRows: seq<PrefRow>
    /** notification_log */
    var log: seq<LogEntry>
    /** in_app_notifications */
    var inbox: seq<InApp>
    /** The messages handed to the email capability so far. */
    ghost var outbox: seq<Email>

    ghost function State(): Store
      reads this
    {
      Store(prefRows, log, inbox, outbox)
    }

    ghost predicate Valid()
      reads this
    {
      ValidStore(State())
    }

    /** The engine over freshly created, empty tables. */
    constructor ()
      ensures Valid()
      ensures State() == Store([], [], [], [])
    {
      prefRows, log, inbox := [], [], [];
      outbox := [];
    }

    method GetUserPreferences(userId: int) returns (p: Prefs)
      requires Valid()
      modifies this
      ensures Valid()
      ensures (State(), p) == GetPrefs(old(State()), userId)
    {
      var row := FindPrefs(prefRows, userId);
      if row.None? {
        prefRows := prefRows + [PrefRow(userId, DefaultPrefs)];
        FindPrefsAppend(old(prefRows), PrefRow(userId, DefaultPrefs), userId);
        row := FindPrefs(prefRows, userId);
      }
      p := row.value;
      GetPrefsIdempotent(old(State()), userId);
    }

    method UpdateUserPreferences(userId: int, update: PrefsUpdate)
      requires Valid()
      modifies this
      ensures Valid()
      ensures State() == UpdatePrefs(old(State()), userId, update)
    {
      prefRows := UpdateRows(prefRows, userId, UpdatedPrefs(update));
      UpdatePrefsEffect(old(State()), old(State()), userId, userId + 1, update);
    }

    /** already_notified_today. */
    predicate AlreadyNotifiedToday(userId: int, taskIds: seq<int>, kind: string, today: int)
      reads this
    {
      AlreadyNotified(log, userId, taskIds, kind, today)
    }

    method LogNotification(userId: int, taskId: int, kind: string, status: Status,
                           error: Option<string>, today: int)
      modifies this`log
      ensures log == old(log) + [LogRow(userId, taskId, kind, status, error, today)]
    {
      log := log + [LogRow(userId, taskId, kind, status, error, today)];
    }

    method CreateInAppNotification(userId: int, title: string, message: string,
                                   severity: Severity, taskId: Option<int>)
      requires IdsArePositions(inbox)
      modifies this`inbox
      ensures IdsArePositions(inbox)
      ensures inbox == old(inbox) + [NewNotice(old(inbox), userId, title, message, severity, taskId)]
    {
      inbox := inbox + [NewNotice(inbox, userId, title, message, severity, taskId)];
    }

    /** The loop of send_user_notification_batch that logs one row per task
        of the batch, all with the email's outcome. */
    method LogBatch(userId: int, tasks: seq<Task>, kind: Kind, emailOk: bool, today: int)
      modifies this`log
      ensures log == old(log) + BatchLogRows(userId, tasks, kind, emailOk, today)
    {
      var i := 0;
      while i < |tasks|
        invariant 0 <= i <= |tasks|
        invariant log == old(log) + BatchLogRows(userId, tasks[..i], kind, emailOk, today)
      {
        LogNotification(userId, tasks[i].id, KindName(kind), if emailOk then Sent else Failed,
                        if emailOk then None else Some("Email sending failed"), today);
        assert tasks[..i + 1][..i] == tasks[..i];
        i := i + 1;
      }
      assert tasks[..i] == tasks;
    }

    /** send_user_notification_batch, the email capability answering
        emailOk. */
    method SendUserNotificationBatch(user: User, tasks: seq<Task>, kind: Kind, emailOk: bool, today: int)
      returns (sent: bool)
      requires Valid()
      modifies this
      ensures Valid()
      ensures (State(), sent) == Dispatch(old(State()), user, tasks, kind, emailOk, today)
    {
      var prefs := GetUserPreferences(user.id);
      if !prefs.emailEnabled {
        return false;
      }
      if kind == DueToday && !prefs.dueTodayEnabled {
        return false;
      } else if kind == DueTomorrow && !prefs.dueTomorrowEnabled {
        return false;
      } else if kind == Overdue && !prefs.overdueEnabled {
        return false;
      }
      if AlreadyNotifiedToday(user.id, TaskIds(tasks), KindName(kind), today) {
        return false;
      }
      outbox := outbox + [Email(user.email, EmailSubject(kind, |tasks|))];
      LogBatch(user.id, tasks, kind, emailOk, today);
      CreateInAppNotification(user.id, BatchTitle(kind, |tasks|), BatchMessage(kind, |tasks|),
                              SeverityOf(kind), None);
      sent := emailOk;
    }

    /** send_immediate_task_notification; `fault` is an exception raised by
        the store when the preferences are read. */
    method SendImmediateTaskNotification(user: User, task: Task, kind: Kind, emailOk: bool,
                                         fault: Option<string>, today: int)
      returns (sent: bool)
      requires Valid()
      modifies this
      ensures Valid()
      ensures (State(), sent) == Immediate(old(State()), user, task, kind, emailOk, fault, today)
    {
      if fault.Some? {
        LogNotification(user.id, task.id, ImmediateKindName(kind), Failed, fault, today);
        return false;
      }
      var prefs := GetUserPreferences(user.id);
      if !prefs.emailEnabled {
        return false;
      }
      if kind == DueToday && !prefs.dueTodayEnabled {
        return false;
      } else if kind == DueTomorrow && !prefs.dueTomorrowEnabled {
        return false;
      } else if kind == Overdue && !prefs.overdueEnabled {
        return false;
      }
      outbox := outbox + [Email(user.email, EmailSubject(kind, 1))];
      LogNotification(user.id, task.id, ImmediateKindName(kind), if emailOk then Sent else Failed,
                      if emailOk then None else Some("Email sending failed"), today);
      CreateInAppNotification(user.id, ImmediateTitle(kind), ImmediateMessage(kind, task.title),
                              SeverityOf(kind), Some(task.id));
      sent := emailOk;
    }

    /** check_all_users_tasks over the given users and tasks tables; the
        processing of the users in `faulty` raises and is skipped. */
    method CheckAllUsersTasks(users: seq<User>, tasks: seq<Task>, faulty: set<int>,
                              emailOk: EmailOutcome, today: int)
      requires Valid()
      modifies this
      ensures Valid()
      ensures State() == RunCycle(old(State()), users, tasks, faulty, emailOk, today)
    {
      var eligible := EligibleUsers(users, tasks);
      var i := 0;
      while i < |eligible|
        invariant 0 <= i <= |eligible|
        invariant Valid()
        invariant State() == Cycle(old(State()), eligible[..i], tasks, faulty, emailOk, today)
      {
        var user := eligible[i];
        assert eligible[..i + 1][..i] == eligible[..i];
        if user.id !in faulty {
          var dueToday := UserDueTasks(tasks, user.id, DueToday, today);
          var dueTomorrow := UserDueTasks(tasks, user.id, DueTomorrow, today);
          var overdue := UserDueTasks(tasks, user.id, Overdue, today);
          if dueToday != [] {
            var _ := SendUserNotificationBatch(user, dueToday, DueToday, emailOk(user.id, DueToday), today);
          }
          if dueTomorrow != [] {
            var _ := SendUserNotificationBatch(user, dueTomorrow, DueTomorrow, emailOk(user.id, DueTomorrow), today);
          }
          if overdue != [] {
            var _ := SendUserNotificationBatch(user, overdue, Overdue, emailOk(user.id, Overdue), today);
          }
        }
        i := i + 1;
      }
      assert eligible[..i] == eligible;
    }

    /** get_user_notifications: the user's newest notices, newest first,
        unread only unless includeRead, at most `limit` of them (no bound
        for a negative limit). */
    function GetUserNotifications(userId: int, limit: int, includeRead: bool): (r: seq<InApp>)
      reads this
      requires Valid()
      ensures forall n :: n in r ==> n in inbox && n.userId == userId && (includeRead || !n.read)
      ensures limit >= 0 ==> |r| <= limit
      ensures forall i, j :: 0 <= i < j < |r| ==> r[i].id > r[j].id
      ensures forall n, m :: n in r && m in inbox && Listed(m, userId, includeRead) && m !in r ==> m.id < n.id
      ensures r == UserNotifications(inbox, userId, limit, includeRead)
    {
      NewestFirstOrdered(inbox, userId, includeRead);
      UserNotificationsAreNewest(inbox, userId, limit, includeRead);
      UserNotifications(inbox, userId, limit, includeRead)
    }

    method MarkNotificationRead(id: int, userId: int)
      requires Valid()
      modifies this`inbox
      ensures Valid()
      ensures inbox == MarkRead(old(inbox), id, userId)
    {
      inbox := MarkRead(inbox, id, userId);
    }
  }
}
