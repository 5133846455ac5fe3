/** check_task_notifications: after a task is saved, decide whether its due
    date calls for an immediate notice and, if so, hand it to the engine's
    single-task path. */
module ImmediateCheck {
  import opened Common
  import opened Notifications
  import opened NotificationService

  /** The kind a due day selects, if any; it is the kind whose batch query
      the same date satisfies. */
  function ImmediateKind(due: int, today: int): (k: Option<Kind>)
    ensures forall kind :: k == Some(kind) <==> DueIn(kind, due, today)
    ensures k.None? <==> due > today + 1
  {
    if due < today then Some(Overdue)
    else if due == today then Some(DueToday)
    else if due == today + 1 then Some(DueTomorrow)
    else None
  }

  /** SELECT username, email FROM users WHERE id = ?: the first row with the
      id, if any. */
  function FindUser(users: seq<User>, id: int): (r: Option<User>)
    ensures r.None? <==> forall u :: u in users ==> u.id != id
    ensures r.Some? ==> r.value in users && r.value.id == id
  {
    if users == [] then None
    else if users[0].id == id then Some(users[0])
    else FindUser(users[1..], id)
  }

  /** The engine state after the check, for a task whose due_date field
      reads as `due`.  An absent date returns early, an unparsable one is
      caught, an unknown user returns, and a date after tomorrow selects
      nothing. */
  function CheckEffect(s: Store, users: seq<User>, userId: int, task: Task, due: DueField,
                       emailOk: bool, fault: Option<string>, today: int): (r: Store)
    ensures !due.OnDay? ==> r == s
    ensures FindUser(users, userId).None? ==> r == s
    ensures due.OnDay? && due.day > today + 1 ==> r == s
    // a known user with a date up to tomorrow: the single-task path runs,
    // with the kind whose batch date condition the date meets
    ensures forall k :: due.OnDay? && DueIn(k, due.day, today) && FindUser(users, userId).Some? ==>
              r == Immediate(s, FindUser(users, userId).value, task, k, emailOk, fault, today).0
  {
    match due
    case NoDueDate => s
    case Unparsable => s
    case OnDay(d) =>
      match FindUser(users, userId)
      case None => s
      case Some(u) =>
        match ImmediateKind(d, today)
        case None => s
        case Some(k) => Immediate(s, u, task, k, emailOk, fault, today).0
  }

  /** The check, on the engine object when notifications are enabled
      (`sys` is null when the engine was not initialised). */
  method CheckTaskNotifications(sys: TaskNotificationSystem?, users: seq<User>, userId: int,
                                task: Task, due: DueField, emailOk: bool,
                                fault: Option<string>, today: int)
    requires sys != null ==> sys.Valid()
    modifies sys
    ensures sys != null ==> sys.Valid()
    ensures sys != null ==> sys.State() == CheckEffect(old(sys.State()), users, userId, task, due, emailOk, fault, today)
  {
    if sys == null || due == NoDueDate {
      return;
    }
    if due == Unparsable {
      return;
    }
    var user := FindUser(users, userId);
    if user.None? {
      return;
    }
    var kind := ImmediateKind(due.day, today);
    if kind.Some? {
      var _ := sys.SendImmediateTaskNotification(user.value, task, kind.value, emailOk, fault, today);
    }
  }

  /** Whenever the check notifies a task of this user, an incomplete task
      with the same date is in the batch set of the same kind, so the
      immediate notice and the scheduler agree on the kind. */
  lemma CheckAgreesWithBatchKind(tasks: seq<Task>, t: Task, userId: int, today: int, k: Kind)
    requires t in tasks && t.userId == userId && !t.completed && t.due.Some?
    requires ImmediateKind(t.due.value, today) == Some(k)
    ensures t in UserDueTasks(tasks, userId, k, today)
  {
  }

  /** The check never looks at the completion flag: a task saved as
      completed with a due date today still gets the immediate email, log
      row and notice when the user's switches allow it. */
  lemma CompletedTaskStillNotified(s: Store, users: seq<User>, u: User, task: Task,
                                   emailOk: bool, today: int)
    requires task.completed
    requires FindUser(users, u.id) == Some(u)
    requires Permits(GetPrefs(s, u.id).1, DueToday)
    ensures var r := CheckEffect(s, users, u.id, task, OnDay(today), emailOk, None, today);
            && |r.outbox| == |s.outbox| + 1
            && r.log == s.log + [LogRow(u.id, task.id, "immediate_due_today",
                                        if emailOk then Sent else Failed,
                                        if emailOk then None else Some("Email sending failed"), today)]
            && r.inbox[|s.inbox|].taskId == Some(task.id)
  {
    assert ImmediateKind(today, today) == Some(DueToday);
    assert ImmediateKindName(DueToday) == "immediate_due_today";
    var r := CheckEffect(s, users, u.id, task, OnDay(today), emailOk, None, today);
    assert r == Immediate(s, u, task, DueToday, emailOk, None, today).0;
  }
}
