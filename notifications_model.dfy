/** The task-reminder engine of notification_system.py as values and
    functions.  The three tables the engine owns (notification_preferences,
    notification_log, in_app_notifications) and the calls it makes to the
    email capability make up one Store value; every operation of the engine
    is a function from a Store (and its inputs) to the next Store.  The class
    in notifications_service.dfy performs the same operations in place and is
    proved to agree with these functions.

    Calendar dates are day numbers and "today" is a parameter.  The email
    capability's outcome is an input; the Store records which messages were
    handed to it (outbox), so that "no email is attempted" can be stated. */
module Notifications {
  import opened Common

  // ---------------------------------------------------------------------
  // Kinds, users, tasks
  // ---------------------------------------------------------------------

  /** The three reminder kinds; the source passes them around as text. */
  datatype Kind = DueToday | DueTomorrow | Overdue

  function KindName(k: Kind): string {
    match k
    case DueToday => "due_today"
    case DueTomorrow => "due_tomorrow"
    case Overdue => "overdue"
  }

  /** The notification_type the single-task path writes into the ledger. */
  function ImmediateKindName(k: Kind): (name: string)
    ensures forall k' :: name != KindName(k')
  {
    var name := "immediate_" + KindName(k);
    assert name[0] == 'i';
    name
  }

  datatype User = User(id: int, username: string, email: string)

  /** A row of the tasks table; `due` is the due_date as a day number
      (NULL when absent). */
  datatype Task = Task(id: int, userId: int, title: string, due: Option<int>,
                       priority: string, completed: bool)

  function TaskIds(tasks: seq<Task>): (ids: seq<int>)
    ensures |ids| == |tasks|
    ensures forall i :: 0 <= i < |tasks| ==> ids[i] == tasks[i].id
  {
    if tasks == [] then [] else [tasks[0].id] + TaskIds(tasks[1..])
  }

  // ---------------------------------------------------------------------
  // Due-task classifier (get_user_due_tasks)
  // ---------------------------------------------------------------------

  /** The date condition of each kind's query. */
  predicate DueIn(k: Kind, due: int, today: int) {
    match k
    case DueToday => due == today
    case DueTomorrow => due == today + 1
    case Overdue => due < today
  }

  /** The WHERE clause: this user's row, completed = 0, a due date (NULL
      fails both '=' and '<'), and the kind's date condition. */
  predicate Qualifies(t: Task, userId: int, k: Kind, today: int) {
    t.userId == userId && !t.completed && t.due.Some? && DueIn(k, t.due.value, today)
  }

  /** The rows get_user_due_tasks returns, in table order. */
  function UserDueTasks(tasks: seq<Task>, userId: int, k: Kind, today: int): (r: seq<Task>)
    ensures forall t :: t in r <==> t in tasks && Qualifies(t, userId, k, today)
    ensures |r| <= |tasks|
  {
    if tasks == [] then []
    else if Qualifies(tasks[0], userId, k, today) then [tasks[0]] + UserDueTasks(tasks[1..], userId, k, today)
    else UserDueTasks(tasks[1..], userId, k, today)
  }

  /** The query keeps the table's order and multiplicity: it is the filter
      of the table by the WHERE clause, row by row. */
  lemma {:induction false} UserDueTasksIsFilter(a: seq<Task>, b: seq<Task>, userId: int, k: Kind, today: int)
    ensures UserDueTasks(a + b, userId, k, today) == UserDueTasks(a, userId, k, today) + UserDueTasks(b, userId, k, today)
    ensures forall t :: UserDueTasks([t], userId, k, today) == if Qualifies(t, userId, k, today) then [t] else []
  {
    if a == [] {
      assert a + b == b;
    } else {
      assert (a + b)[0] == a[0];
      assert (a + b)[1..] == a[1..] + b;
      UserDueTasksIsFilter(a[1..], b, userId, k, today);
    }
    forall t ensures UserDueTasks([t], userId, k, today) == if Qualifies(t, userId, k, today) then [t] else [] {
      assert [t][1..] == [];
    }
  }

  /** The three due sets never share a task; a completed or undated task is
      in none of them; an incomplete dated task is in exactly the set its
      date selects, and in none when it is due after tomorrow. */
  lemma DueSetsPartition(tasks: seq<Task>, userId: int, today: int, t: Task)
    requires t in tasks && t.userId == userId
    ensures var inToday := t in UserDueTasks(tasks, userId, DueToday, today);
            var inTomorrow := t in UserDueTasks(tasks, userId, DueTomorrow, today);
            var inOverdue := t in UserDueTasks(tasks, userId, Overdue, today);
            && !(inToday && inTomorrow) && !(inToday && inOverdue) && !(inTomorrow && inOverdue)
            && (t.completed || t.due.None? ==> !inToday && !inTomorrow && !inOverdue)
            && (!t.completed && t.due.Some? ==>
                  (inToday <==> t.due.value == today)
                  && (inTomorrow <==> t.due.value == today + 1)
                  && (inOverdue <==> t.due.value < today))
  {
  }

  // ---------------------------------------------------------------------
  // Preference store (get_user_preferences, update_user_preferences)
  // ---------------------------------------------------------------------

  datatype Prefs = Prefs(emailEnabled: bool, dueTodayEnabled: bool,
                         dueTomorrowEnabled: bool, overdueEnabled: bool,
                         reminderHours: int)

  /** The row get_user_preferences inserts: every switch 1, 24 hours. */
  const DefaultPrefs := Prefs(true, true, true, true, 24)

  datatype PrefRow = PrefRow(userId: int, prefs: Prefs)

  /** SELECT ... WHERE user_id = ? followed by fetchone(): the first row of
      the user, if any. */
  function FindPrefs(rows: seq<PrefRow>, userId: int): (r: Option<Prefs>)
    ensures r.None? <==> forall i :: 0 <= i < |rows| ==> rows[i].userId != userId
    ensures r.Some? ==> PrefRow(userId, r.value) in rows
  {
    if rows == [] then None
    else if rows[0].userId == userId then Some(rows[0].prefs)
    else FindPrefs(rows[1..], userId)
  }

  /** Appending a row never changes the answer for a user that already has
      one, and gives the appended row to a user that had none. */
  lemma {:induction false} FindPrefsAppend(rows: seq<PrefRow>, row: PrefRow, userId: int)
    ensures FindPrefs(rows, userId).Some? ==> FindPrefs(rows + [row], userId) == FindPrefs(rows, userId)
    ensures FindPrefs(rows, userId).None? && row.userId == userId ==> FindPrefs(rows + [row], userId) == Some(row.prefs)
    ensures FindPrefs(rows, userId).None? && row.userId != userId ==> FindPrefs(rows + [row], userId).None?
  {
    if rows != [] {
      assert (rows + [row])[1..] == rows[1..] + [row];
      FindPrefsAppend(rows[1..], row, userId);
    }
  }

  /** The table holds at most one row per user. */
  predicate OneRowPerUser(rows: seq<PrefRow>) {
    forall i, j :: 0 <= i < j < |rows| ==> rows[i].userId != rows[j].userId
  }

  /** Whether the preference for a kind lets a reminder of that kind go
      out; the email switch is consulted first. */
  function KindEnabled(p: Prefs, k: Kind): bool {
    match k
    case DueToday => p.dueTodayEnabled
    case DueTomorrow => p.dueTomorrowEnabled
    case Overdue => p.overdueEnabled
  }

  predicate Permits(p: Prefs, k: Kind) {
    p.emailEnabled && KindEnabled(p, k)
  }

  /** The partial object the preferences endpoint passes on: a key may be
      missing. */
  datatype PrefsUpdate = PrefsUpdate(emailEnabled: Option<bool>, dueTodayEnabled: Option<bool>,
                                     dueTomorrowEnabled: Option<bool>, overdueEnabled: Option<bool>,
                                     reminderHours: Option<int>)

  /** dict.get(key, default). */
  function GetOr<T>(o: Option<T>, default: T): (r: T)
    ensures o.Some? ==> r == o.value
    ensures o.None? ==> r == default
  {
    match o
    case Some(v) => v
    case None => default
  }

  /** The five values the UPDATE writes: a missing key becomes 1 (24 for
      reminder_hours), whatever the row held before. */
  function UpdatedPrefs(u: PrefsUpdate): Prefs {
    Prefs(GetOr(u.emailEnabled, true), GetOr(u.dueTodayEnabled, true),
          GetOr(u.dueTomorrowEnabled, true), GetOr(u.overdueEnabled, true),
          GetOr(u.reminderHours, 24))
  }

  /** UPDATE ... WHERE user_id = ?: every row of the user is overwritten;
      no row is added. */
  function UpdateRows(rows: seq<PrefRow>, userId: int, p: Prefs): (r: seq<PrefRow>)
    ensures |r| == |rows|
    ensures forall i :: 0 <= i < |rows| ==> r[i].userId == rows[i].userId
  {
    if rows == [] then []
    else [if rows[0].userId == userId then PrefRow(userId, p) else rows[0]] + UpdateRows(rows[1..], userId, p)
  }

  lemma {:induction false} UpdateRowsLookup(rows: seq<PrefRow>, userId: int, p: Prefs, other: int)
    ensures FindPrefs(UpdateRows(rows, userId, p), userId) ==
            (if FindPrefs(rows, userId).Some? then Some(p) else None)
    ensures other != userId ==> FindPrefs(UpdateRows(rows, userId, p), other) == FindPrefs(rows, other)
    ensures FindPrefs(rows, userId).None? ==> UpdateRows(rows, userId, p) == rows
  {
    if rows != [] {
      UpdateRowsLookup(rows[1..], userId, p, other);
    }
  }

  // ---------------------------------------------------------------------
  // Dedup ledger (log_notification, already_notified_today)
  // ---------------------------------------------------------------------

  datatype Status = Sent | Failed | Pending

  /** A notification_log row; `sentDay` is DATE(sent_at). */
  datatype LogEntry = LogEntry(userId: int, taskId: int, kind: string, status: Status,
                               sentDay: Option<int>, error: Option<string>)

  /** The row log_notification inserts: sent_at is stamped with the current
      time for status 'sent' and left NULL otherwise. */
  function LogRow(userId: int, taskId: int, kind: string, status: Status,
                  error: Option<string>, today: int): (e: LogEntry)
    ensures e.userId == userId && e.taskId == taskId && e.kind == kind
    ensures e.status == status && e.error == error
    ensures e.sentDay.Some? <==> status == Sent
    ensures e.sentDay.Some? ==> e.sentDay.value == today
  {
    LogEntry(userId, taskId, kind, status, if status == Sent then Some(today) else None, error)
  }

  /** The WHERE clause of already_notified_today. */
  predicate Suppresses(e: LogEntry, userId: int, taskIds: seq<int>, kind: string, today: int) {
    e.userId == userId && e.taskId in taskIds && e.kind == kind
    && e.status == Sent && e.sentDay == Some(today)
  }

  /** SELECT COUNT(*) ... for that WHERE clause. */
  function CountSuppressing(log: seq<LogEntry>, userId: int, taskIds: seq<int>, kind: string, today: int): nat
  {
    if log == [] then 0
    else CountSuppressing(log[..|log| - 1], userId, taskIds, kind, today)
         + (if Suppresses(log[|log| - 1], userId, taskIds, kind, today) then 1 else 0)
  }

  /** already_notified_today: count > 0. */
  predicate AlreadyNotified(log: seq<LogEntry>, userId: int, taskIds: seq<int>, kind: string, today: int) {
    CountSuppressing(log, userId, taskIds, kind, today) > 0
  }

  /** The ledger answers yes exactly when some row is a 'sent' row of this
      user, for one of the batch's tasks, of this very kind, stamped today.
      One overlapping task is enough. */
  lemma {:induction false} AlreadyNotifiedIff(log: seq<LogEntry>, userId: int, taskIds: seq<int>, kind: string, today: int)
    ensures AlreadyNotified(log, userId, taskIds, kind, today) <==>
            exists i :: 0 <= i < |log| && Suppresses(log[i], userId, taskIds, kind, today)
  {
    if log != [] {
      var front := log[..|log| - 1];
      var last := |log| - 1;
      AlreadyNotifiedIff(front, userId, taskIds, kind, today);
      if AlreadyNotified(log, userId, taskIds, kind, today) {
        if Suppresses(log[last], userId, taskIds, kind, today) {
          assert 0 <= last < |log|;
        } else {
          var i :| 0 <= i < |front| && Suppresses(front[i], userId, taskIds, kind, today);
          assert log[i] == front[i];
        }
      }
      if exists i :: 0 <= i < |log| && Suppresses(log[i], userId, taskIds, kind, today) {
        var i :| 0 <= i < |log| && Suppresses(log[i], userId, taskIds, kind, today);
        if i < last {
          assert front[i] == log[i];
        }
      }
    }
  }

  lemma {:induction false} CountSuppressingAppend(log: seq<LogEntry>, extra: seq<LogEntry>,
                                                   userId: int, taskIds: seq<int>, kind: string, today: int)
    ensures CountSuppressing(log + extra, userId, taskIds, kind, today) ==
            CountSuppressing(log, userId, taskIds, kind, today) + CountSuppressing(extra, userId, taskIds, kind, today)
    decreases |extra|
  {
    if extra == [] {
      assert log + extra == log;
    } else {
      var front := extra[..|extra| - 1];
      assert (log + extra)[..|log + extra| - 1] == log + front;
      assert (log + extra)[|log + extra| - 1] == extra[|extra| - 1];
      CountSuppressingAppend(log, front, userId, taskIds, kind, today);
      var b := if Suppresses(extra[|extra| - 1], userId, taskIds, kind, today) then 1 else 0;
      calc {
        CountSuppressing(log + extra, userId, taskIds, kind, today);
        CountSuppressing(log + front, userId, taskIds, kind, today) + b;
        CountSuppressing(log, userId, taskIds, kind, today) + CountSuppressing(front, userId, taskIds, kind, today) + b;
        CountSuppressing(log, userId, taskIds, kind, today) + CountSuppressing(extra, userId, taskIds, kind, today);
      }
    }
  }

  /** The ledger only grows, so a yes stays a yes. */
  lemma AlreadyNotifiedMonotone(log: seq<LogEntry>, longer: seq<LogEntry>,
                                userId: int, taskIds: seq<int>, kind: string, today: int)
    requires |log| <= |longer| && longer[..|log|] == log
    requires AlreadyNotified(log, userId, taskIds, kind, today)
    ensures AlreadyNotified(longer, userId, taskIds, kind, today)
  {
    assert longer == log + longer[|log|..];
    CountSuppressingAppend(log, longer[|log|..], userId, taskIds, kind, today);
  }

  /** Rows that are not 'sent' today for this kind (a 'failed' row, a row of
      another kind) never turn a no into a yes. */
  lemma AppendNonSuppressing(log: seq<LogEntry>, extra: seq<LogEntry>,
                             userId: int, taskIds: seq<int>, kind: string, today: int)
    requires forall i :: 0 <= i < |extra| ==> !Suppresses(extra[i], userId, taskIds, kind, today)
    ensures AlreadyNotified(log + extra, userId, taskIds, kind, today) ==
            AlreadyNotified(log, userId, taskIds, kind, today)
  {
    CountSuppressingAppend(log, extra, userId, taskIds, kind, today);
    AlreadyNotifiedIff(extra, userId, taskIds, kind, today);
  }

  // ---------------------------------------------------------------------
  // Composer (subject and title logic of generate_email_content and the
  // in-app titles and messages)
  // ---------------------------------------------------------------------

  /** The suffix the source writes as {'s' if n != 1 else ''}. */
  function Plural(n: nat): string {
    if n != 1 then "s" else ""
  }

  /** "<n> <word>" with the word pluralised for every count but one. */
  function CountOf(n: nat, word: string): string {
    NatToString(n) + " " + word + Plural(n)
  }

  /** The count phrase ends in the plural 's' exactly when the count is not
      one (so a count of 0 is plural), for any word not itself ending in
      's'. */
  lemma CountOfPlural(n: nat, word: string)
    requires word != [] && word[|word| - 1] != 's'
    ensures var c := CountOf(n, word); c[|c| - 1] == 's' <==> n != 1
  {
  }

  /** The count phrase determines the count. */
  lemma CountOfInjective(m: nat, n: nat, word: string)
    requires CountOf(m, word) == CountOf(n, word)
    ensures m == n
  {
    var a, b := NatToString(m), NatToString(n);
    if |a| < |b| {
      assert false;
    } else if |b| < |a| {
      assert false;
    } else {
      assert a == CountOf(m, word)[..|a|];
      assert b == CountOf(n, word)[..|b|];
      NatToStringInjective(m, n);
    }
  }

  function SubjectLead(k: Kind): string {
    match k
    case DueToday => "\U{1F6A8} Tasks Due Today - "
    case DueTomorrow => "\U{23F0} Tasks Due Tomorrow - "
    case Overdue => "\U{2757} Overdue Tasks - "
  }

  /** The email subject for a batch of n tasks. */
  function EmailSubject(k: Kind, n: nat): string {
    SubjectLead(k) + CountOf(n, "Task")
  }

  /** Title of the in-app notice a batch creates. */
  function BatchTitle(k: Kind, n: nat): string {
    match k
    case DueToday => "\U{1F6A8} " + CountOf(n, "Task") + " Due Today"
    case DueTomorrow => "\U{23F0} " + CountOf(n, "Task") + " Due Tomorrow"
    case Overdue => "\U{2757} " + CountOf(n, "Overdue Task")
  }

  /** Message of the in-app notice a batch creates. */
  function BatchMessage(k: Kind, n: nat): string {
    match k
    case DueToday => "You have " + CountOf(n, "task") + " due today!"
    case DueTomorrow => "You have " + CountOf(n, "task") + " due tomorrow!"
    case Overdue => "You have " + CountOf(n, "overdue task") + "!"
  }

  /** Title and message of the in-app notice the single-task path creates. */
  function ImmediateTitle(k: Kind): string {
    match k
    case DueToday => "\U{1F6A8} New Task Due Today"
    case DueTomorrow => "\U{23F0} New Task Due Tomorrow"
    case Overdue => "\U{2757} New Overdue Task"
  }

  function ImmediateMessage(k: Kind, title: string): string {
    match k
    case DueToday => "Task \"" + title + "\" is due today!"
    case DueTomorrow => "Task \"" + title + "\" is due tomorrow!"
    case Overdue => "Task \"" + title + "\" is already overdue!"
  }

  /** The subject ends with "Task" for one task and "Tasks" for any other
      count, zero included, and two different counts never give the same
      subject. */
  lemma SubjectPluralisation(k: Kind, m: nat, n: nat)
    ensures var s := EmailSubject(k, n); s[|s| - 1] == 's' <==> n != 1
    ensures EmailSubject(k, m) == EmailSubject(k, n) ==> m == n
  {
    CountOfPlural(n, "Task");
    if EmailSubject(k, m) == EmailSubject(k, n) {
      var lead := SubjectLead(k);
      assert CountOf(m, "Task") == EmailSubject(k, m)[|lead|..];
      assert CountOf(n, "Task") == EmailSubject(k, n)[|lead|..];
      CountOfInjective(m, n, "Task");
    }
  }

  /** Likewise the in-app title and message of a batch carry the count and
      its plural. */
  lemma BatchNoticePluralisation(k: Kind, m: nat, n: nat)
    ensures BatchTitle(k, m) == BatchTitle(k, n) ==> m == n
    ensures BatchMessage(k, m) == BatchMessage(k, n) ==> m == n
  {
    var w := if k == Overdue then "Overdue Task" else "Task";
    var lead := if k == DueToday then "\U{1F6A8} " else if k == DueTomorrow then "\U{23F0} " else "\U{2757} ";
    var tail := if k == DueToday then " Due Today" else if k == DueTomorrow then " Due Tomorrow" else "";
    if BatchTitle(k, m) == BatchTitle(k, n) {
      assert BatchTitle(k, m) == lead + CountOf(m, w) + tail;
      assert BatchTitle(k, n) == lead + CountOf(n, w) + tail;
      assert CountOf(m, w) == BatchTitle(k, m)[|lead|..|BatchTitle(k, m)| - |tail|];
      assert CountOf(n, w) == BatchTitle(k, n)[|lead|..|BatchTitle(k, n)| - |tail|];
      CountOfInjective(m, n, w);
    }
    var mw := if k == Overdue then "overdue task" else "task";
    var mtail := if k == DueToday then " due today!" else if k == DueTomorrow then " due tomorrow!" else "!";
    if BatchMessage(k, m) == BatchMessage(k, n) {
      assert BatchMessage(k, m) == "You have " + CountOf(m, mw) + mtail;
      assert BatchMessage(k, n) == "You have " + CountOf(n, mw) + mtail;
      assert CountOf(m, mw) == BatchMessage(k, m)[9..|BatchMessage(k, m)| - |mtail|];
      assert CountOf(n, mw) == BatchMessage(k, n)[9..|BatchMessage(k, n)| - |mtail|];
      CountOfInjective(m, n, mw);
    }
  }

  // ---------------------------------------------------------------------
  // The engine's state
  // ---------------------------------------------------------------------

  datatype Severity = Info | Warning

  /** An in_app_notifications row. */
  datatype InApp = InApp(id: int, userId: int, title: string, message: string,
                         severity: Severity, taskId: Option<int>, read: bool)

  /** A message handed to the email capability. */
  datatype Email = Email(to: string, subject: string)

  datatype Store = Store(prefRows: seq<PrefRow>, log: seq<LogEntry>,
                         inbox: seq<InApp>, outbox: seq<Email>)

  /** Row ids are AUTOINCREMENT and this subsystem never deletes a row, so
      the n-th notice carries id n. */
  predicate IdsArePositions(inbox: seq<InApp>) {
    forall i :: 0 <= i < |inbox| ==> inbox[i].id == i + 1
  }

  predicate ValidStore(s: Store) {
    OneRowPerUser(s.prefRows) && IdsArePositions(s.inbox)
  }

  /** The notice create_in_app_notification inserts (unread). */
  function NewNotice(inbox: seq<InApp>, userId: int, title: string, message: string,
                     severity: Severity, taskId: Option<int>): InApp
  {
    InApp(|inbox| + 1, userId, title, message, severity, taskId, false)
  }

  function SeverityOf(k: Kind): Severity {
    if k == Overdue then Warning else Info
  }

  /** get_user_preferences on a Store: the user's row, or a fresh default
      row inserted and returned. */
  function GetPrefs(s: Store, userId: int): (r: (Store, Prefs))
    ensures FindPrefs(r.0.prefRows, userId) == Some(r.1)
    ensures r.0.log == s.log && r.0.inbox == s.inbox && r.0.outbox == s.outbox
    ensures FindPrefs(s.prefRows, userId).Some? ==> r.0 == s && Some(r.1) == FindPrefs(s.prefRows, userId)
    ensures FindPrefs(s.prefRows, userId).None? ==>
              r.1 == DefaultPrefs && r.0.prefRows == s.prefRows + [PrefRow(userId, DefaultPrefs)]
  {
    match FindPrefs(s.prefRows, userId)
    case Some(p) => (s, p)
    case None =>
      FindPrefsAppend(s.prefRows, PrefRow(userId, DefaultPrefs), userId);
      (s.(prefRows := s.prefRows + [PrefRow(userId, DefaultPrefs)]), DefaultPrefs)
  }

  /** A second read returns the same values and inserts nothing; the table
      never gains a second row for a user. */
  lemma GetPrefsIdempotent(s: Store, userId: int)
    ensures var (s1, p1) := GetPrefs(s, userId);
            GetPrefs(s1, userId) == (s1, p1)
            && |s1.prefRows| <= |s.prefRows| + 1
            && (OneRowPerUser(s.prefRows) ==> OneRowPerUser(s1.prefRows))
  {
  }

  /** update_user_preferences on a Store. */
  function UpdatePrefs(s: Store, userId: int, u: PrefsUpdate): Store {
    s.(prefRows := UpdateRows(s.prefRows, userId, UpdatedPrefs(u)))
  }

  /** An update creates no row for a user that has none; for a user that
      has one it writes the given values with omitted keys back at their
      defaults, so the result does not depend on what the row held; other
      users are untouched. */
  lemma UpdatePrefsEffect(s: Store, t: Store, userId: int, other: int, u: PrefsUpdate)
    requires other != userId
    ensures FindPrefs(s.prefRows, userId).None? ==> UpdatePrefs(s, userId, u) == s
    ensures FindPrefs(s.prefRows, userId).Some? ==>
              FindPrefs(UpdatePrefs(s, userId, u).prefRows, userId) == Some(UpdatedPrefs(u))
    ensures FindPrefs(s.prefRows, userId).Some? && FindPrefs(t.prefRows, userId).Some? ==>
              FindPrefs(UpdatePrefs(s, userId, u).prefRows, userId) ==
              FindPrefs(UpdatePrefs(t, userId, u).prefRows, userId)
    ensures FindPrefs(UpdatePrefs(s, userId, u).prefRows, other) == FindPrefs(s.prefRows, other)
    ensures UpdatedPrefs(PrefsUpdate(None, None, None, None, None)) == DefaultPrefs
    ensures OneRowPerUser(s.prefRows) ==> OneRowPerUser(UpdatePrefs(s, userId, u).prefRows)
  {
    UpdateRowsLookup(s.prefRows, userId, UpdatedPrefs(u), other);
    UpdateRowsLookup(t.prefRows, userId, UpdatedPrefs(u), other);
  }

  // ---------------------------------------------------------------------
  // Batch dispatcher (send_user_notification_batch)
  // ---------------------------------------------------------------------

  /** The ledger rows a dispatched batch writes: one per task, in order. */
  function BatchLogRows(userId: int, tasks: seq<Task>, k: Kind, emailOk: bool, today: int): (rows: seq<LogEntry>)
    ensures |rows| == |tasks|
    ensures forall i :: 0 <= i < |tasks| ==>
              && rows[i].userId == userId && rows[i].taskId == tasks[i].id && rows[i].kind == KindName(k)
              && rows[i].status == (if emailOk then Sent else Failed)
              && rows[i].sentDay == (if emailOk then Some(today) else None)
              && rows[i].error == (if emailOk then None else Some("Email sending failed"))
  {
    if tasks == [] then []
    else
      BatchLogRows(userId, tasks[..|tasks| - 1], k, emailOk, today)
      + [LogRow(userId, tasks[|tasks| - 1].id, KindName(k), if emailOk then Sent else Failed,
                if emailOk then None else Some("Email sending failed"), today)]
  }

  /** One dispatch of a batch of a user's tasks of kind k, with the email
      capability answering emailOk.  The result is the new Store and the
      value the method returns. */
  function Dispatch(s: Store, user: User, tasks: seq<Task>, k: Kind, emailOk: bool, today: int): (r: (Store, bool))
    // the preference read may insert the user's default row, and nothing
    // else touches the preference table
    ensures r.0.prefRows == GetPrefs(s, user.id).0.prefRows
    // gated by a preference switch: nothing is sent, logged or noticed
    ensures !Permits(GetPrefs(s, user.id).1, k) ==>
              !r.1 && r.0.log == s.log && r.0.inbox == s.inbox && r.0.outbox == s.outbox
    // already sent today for an overlapping batch of this kind: likewise
    ensures AlreadyNotified(s.log, user.id, TaskIds(tasks), KindName(k), today) ==>
              !r.1 && r.0.log == s.log && r.0.inbox == s.inbox && r.0.outbox == s.outbox
    // otherwise one email, one ledger row per task, one notice
    ensures Permits(GetPrefs(s, user.id).1, k) && !AlreadyNotified(s.log, user.id, TaskIds(tasks), KindName(k), today) ==>
              && r.1 == emailOk
              && r.0.outbox == s.outbox + [Email(user.email, EmailSubject(k, |tasks|))]
              && r.0.log == s.log + BatchLogRows(user.id, tasks, k, emailOk, today)
              && r.0.inbox == s.inbox + [InApp(|s.inbox| + 1, user.id, BatchTitle(k, |tasks|),
                                               BatchMessage(k, |tasks|), SeverityOf(k), None, false)]
  {
    var (s1, p) := GetPrefs(s, user.id);
    if !Permits(p, k) then (s1, false)
    else if AlreadyNotified(s1.log, user.id, TaskIds(tasks), KindName(k), today) then (s1, false)
    else
      var s2 := s1.(outbox := s1.outbox + [Email(user.email, EmailSubject(k, |tasks|))]);
      var s3 := s2.(log := s2.log + BatchLogRows(user.id, tasks, k, emailOk, today));
      var s4 := s3.(inbox := s3.inbox + [NewNotice(s3.inbox, user.id, BatchTitle(k, |tasks|),
                                                    BatchMessage(k, |tasks|), SeverityOf(k), None)]);
      (s4, emailOk)
  }

  /** The in-app notice does not depend on whether the email went out. */
  lemma DispatchNoticeIgnoresEmail(s: Store, user: User, tasks: seq<Task>, k: Kind, today: int)
    ensures Dispatch(s, user, tasks, k, true, today).0.inbox == Dispatch(s, user, tasks, k, false, today).0.inbox
    ensures Dispatch(s, user, tasks, k, true, today).0.outbox == Dispatch(s, user, tasks, k, false, today).0.outbox
  {
  }

  /** A batch that was delivered is not delivered again the same day: a
      second dispatch of any batch sharing a task with it, for the same
      kind, changes nothing and reports false. */
  lemma DispatchDeduplicates(s: Store, user: User, tasks: seq<Task>, again: seq<Task>, k: Kind,
                             ok: bool, today: int, t: Task)
    requires t in tasks && t in again
    requires Permits(GetPrefs(s, user.id).1, k)
    requires !AlreadyNotified(s.log, user.id, TaskIds(tasks), KindName(k), today)
    ensures var s1 := Dispatch(s, user, tasks, k, true, today).0;
            Dispatch(s1, user, again, k, ok, today) == (s1, false)
  {
    var s1 := Dispatch(s, user, tasks, k, true, today).0;
    var i :| 0 <= i < |tasks| && tasks[i] == t;
    var j :| 0 <= j < |again| && again[j] == t;
    var rows := BatchLogRows(user.id, tasks, k, true, today);
    assert TaskIds(again)[j] == t.id;
    assert Suppresses(rows[i], user.id, TaskIds(again), KindName(k), today);
    assert s1.log[|s.log| + i] == rows[i];
    AlreadyNotifiedIff(s1.log, user.id, TaskIds(again), KindName(k), today);
  }

  // ---------------------------------------------------------------------
  // Immediate single-task path (send_immediate_task_notification)
  // ---------------------------------------------------------------------

  /** The single-task path.  `fault` stands for an exception raised by the
      store when the preferences are read: the handler then writes one
      'failed' row carrying the exception text and reports false. */
  function Immediate(s: Store, user: User, task: Task, k: Kind, emailOk: bool,
                     fault: Option<string>, today: int): (r: (Store, bool))
    ensures fault.Some? ==>
              !r.1 && r.0.prefRows == s.prefRows && r.0.inbox == s.inbox && r.0.outbox == s.outbox
              && r.0.log == s.log + [LogRow(user.id, task.id, ImmediateKindName(k), Failed, fault, today)]
    ensures fault.None? ==> r.0.prefRows == GetPrefs(s, user.id).0.prefRows
    ensures fault.None? && !Permits(GetPrefs(s, user.id).1, k) ==>
              !r.1 && r.0.log == s.log && r.0.inbox == s.inbox && r.0.outbox == s.outbox
    ensures fault.None? && Permits(GetPrefs(s, user.id).1, k) ==>
              && r.1 == emailOk
              && r.0.outbox == s.outbox + [Email(user.email, EmailSubject(k, 1))]
              && r.0.log == s.log + [LogRow(user.id, task.id, ImmediateKindName(k),
                                            if emailOk then Sent else Failed,
                                            if emailOk then None else Some("Email sending failed"), today)]
              && r.0.inbox == s.inbox + [InApp(|s.inbox| + 1, user.id, ImmediateTitle(k),
                                               ImmediateMessage(k, task.title), SeverityOf(k), Some(task.id), false)]
  {
    if fault.Some? then
      (s.(log := s.log + [LogRow(user.id, task.id, ImmediateKindName(k), Failed, fault, today)]), false)
    else
      var (s1, p) := GetPrefs(s, user.id);
      if !Permits(p, k) then (s1, false)
      else
        var s2 := s1.(outbox := s1.outbox + [Email(user.email, EmailSubject(k, 1))]);
        var s3 := s2.(log := s2.log + [LogRow(user.id, task.id, ImmediateKindName(k),
                                              if emailOk then Sent else Failed,
                                              if emailOk then None else Some("Email sending failed"), today)]);
        var s4 := s3.(inbox := s3.inbox + [NewNotice(s3.inbox, user.id, ImmediateTitle(k),
                                                      ImmediateMessage(k, task.title), SeverityOf(k), Some(task.id))]);
        (s4, emailOk)
  }

  /** The single-task path never consults the ledger: two stores that
      differ only in their ledgers get the same answer, the same notice
      and the same new ledger rows. */
  lemma ImmediateIgnoresLedger(s: Store, other: seq<LogEntry>, user: User, task: Task, k: Kind,
                               emailOk: bool, fault: Option<string>, today: int)
    ensures var r1 := Immediate(s, user, task, k, emailOk, fault, today);
            var r2 := Immediate(s.(log := other), user, task, k, emailOk, fault, today);
            r1.1 == r2.1 && r1.0.inbox == r2.0.inbox && r1.0.outbox == r2.0.outbox
            && r1.0.log[|s.log|..] == r2.0.log[|other|..]
  {
  }

  /** The rows the single-task path writes never make the batch path's
      dedup question answer yes. */
  lemma ImmediateNeverSuppressesBatch(s: Store, user: User, task: Task, k: Kind, emailOk: bool,
                                      fault: Option<string>, today: int,
                                      userId: int, taskIds: seq<int>, batchKind: Kind)
    ensures AlreadyNotified(Immediate(s, user, task, k, emailOk, fault, today).0.log,
                            userId, taskIds, KindName(batchKind), today)
            == AlreadyNotified(s.log, userId, taskIds, KindName(batchKind), today)
  {
    var log' := Immediate(s, user, task, k, emailOk, fault, today).0.log;
    var extra := log'[|s.log|..];
    assert log' == s.log + extra;
    AppendNonSuppressing(s.log, extra, userId, taskIds, KindName(batchKind), today);
  }

  // ---------------------------------------------------------------------
  // In-app inbox (get_user_notifications, mark_notification_read)
  // ---------------------------------------------------------------------

  predicate Listed(n: InApp, userId: int, includeRead: bool) {
    n.userId == userId && (includeRead || !n.read)
  }

  /** The user's notices, newest first. */
  function NewestFirst(inbox: seq<InApp>, userId: int, includeRead: bool): (r: seq<InApp>)
    ensures forall n :: n in r <==> n in inbox && Listed(n, userId, includeRead)
    ensures |r| <= |inbox|
  {
    if inbox == [] then []
    else
      var last := inbox[|inbox| - 1];
      (if Listed(last, userId, includeRead) then [last] else [])
      + NewestFirst(inbox[..|inbox| - 1], userId, includeRead)
  }

  /** get_user_notifications: ... ORDER BY created_at DESC LIMIT ?; a
      negative LIMIT means no limit in SQLite. */
  function UserNotifications(inbox: seq<InApp>, userId: int, limit: int, includeRead: bool): (r: seq<InApp>)
    ensures forall n :: n in r ==> n in inbox && Listed(n, userId, includeRead)
    ensures limit >= 0 ==> |r| <= limit
    ensures limit < 0 ==> forall n :: n in inbox && Listed(n, userId, includeRead) ==> n in r
    // the first min(limit, n) of the user's listing, all of it for a
    // negative limit
    ensures var all := NewestFirst(inbox, userId, includeRead);
            |r| == (if limit < 0 then |all| else Min(limit, |all|)) && r == all[..|r|]
  {
    var all := NewestFirst(inbox, userId, includeRead);
    if limit < 0 || limit >= |all| then all else all[..limit]
  }

  /** With ids numbered by insertion, the listing is strictly newest
      first. */
  lemma {:induction false} NewestFirstOrdered(inbox: seq<InApp>, userId: int, includeRead: bool)
    requires IdsArePositions(inbox)
    ensures forall i, j :: 0 <= i < j < |NewestFirst(inbox, userId, includeRead)| ==>
              NewestFirst(inbox, userId, includeRead)[i].id > NewestFirst(inbox, userId, includeRead)[j].id
  {
    if inbox != [] {
      var front := inbox[..|inbox| - 1];
      assert IdsArePositions(front);
      NewestFirstOrdered(front, userId, includeRead);
      var rest := NewestFirst(front, userId, includeRead);
      forall n | n in rest ensures n.id < |inbox| {
        var i :| 0 <= i < |front| && front[i] == n;
      }
      var last := inbox[|inbox| - 1];
      assert last.id == |inbox|;
      if Listed(last, userId, includeRead) {
        var r := [last] + rest;
        assert r == NewestFirst(inbox, userId, includeRead);
        forall i, j | 0 <= i < j < |r| ensures r[i].id > r[j].id {
          assert r[j] == rest[j - 1];
          assert rest[j - 1] in rest;
          if i > 0 {
            assert r[i] == rest[i - 1];
            assert rest[i - 1].id > rest[j - 1].id;
          }
        }
      }
    }
  }

  /** An element of a sequence before position k is in its first k
      elements. */
  lemma InPrefix<T>(all: seq<T>, k: int, j: int)
    requires 0 <= j < k <= |all|
    ensures all[j] in all[..k]
  {
    assert all[..k][j] == all[j];
  }

  /** With ids numbered by insertion, the limited listing holds the newest
      of the user's notices: every listed notice it leaves out is older than
      every notice it returns. */
  lemma UserNotificationsAreNewest(inbox: seq<InApp>, userId: int, limit: int, includeRead: bool)
    requires IdsArePositions(inbox)
    ensures var r := UserNotifications(inbox, userId, limit, includeRead);
            forall n, m :: n in r && m in inbox && Listed(m, userId, includeRead) && m !in r ==> m.id < n.id
  {
    var all := NewestFirst(inbox, userId, includeRead);
    var r := UserNotifications(inbox, userId, limit, includeRead);
    NewestFirstOrdered(inbox, userId, includeRead);
    forall n, m | n in r && m in inbox && Listed(m, userId, includeRead) && m !in r
      ensures m.id < n.id
    {
      var i :| 0 <= i < |r| && r[i] == n;
      var j :| 0 <= j < |all| && all[j] == m;
      if j < |r| {
        InPrefix(all, |r|, j);
        assert false;
      }
      assert all[i] == n;
    }
  }

  /** UPDATE ... SET read_status = 1 WHERE id = ? AND user_id = ?: only the
      read flag can change, and only on a notice with that id owned by that
      user. */
  function MarkRead(inbox: seq<InApp>, id: int, userId: int): (r: seq<InApp>)
    ensures |r| == |inbox|
    ensures forall i :: 0 <= i < |inbox| ==> r[i] == inbox[i].(read := r[i].read)
    ensures forall i :: 0 <= i < |inbox| ==>
              r[i].read == (inbox[i].read || (inbox[i].id == id && inbox[i].userId == userId))
  {
    if inbox == [] then []
    else
      [if inbox[0].id == id && inbox[0].userId == userId then inbox[0].(read := true) else inbox[0]]
      + MarkRead(inbox[1..], id, userId)
  }

  /** Marking read never changes another user's listing. */
  lemma {:induction false} MarkReadOtherUser(inbox: seq<InApp>, id: int, userId: int, other: int, includeRead: bool)
    requires other != userId
    ensures NewestFirst(MarkRead(inbox, id, userId), other, includeRead) == NewestFirst(inbox, other, includeRead)
  {
    if inbox != [] {
      var front := inbox[..|inbox| - 1];
      var r := MarkRead(inbox, id, userId);
      MarkReadOtherUser(front, id, userId, other, includeRead);
      assert r[..|r| - 1] == MarkRead(front, id, userId);
      assert Listed(r[|r| - 1], other, includeRead) == Listed(inbox[|inbox| - 1], other, includeRead);
      assert Listed(r[|r| - 1], other, includeRead) ==> r[|r| - 1] == inbox[|inbox| - 1];
    }
  }

  /** Marking an id the user does not own changes nothing; marking one the
      user owns takes it out of the user's unread listing. */
  lemma MarkReadEffect(inbox: seq<InApp>, id: int, userId: int)
    ensures (forall n :: n in inbox ==> n.id != id || n.userId != userId) ==> MarkRead(inbox, id, userId) == inbox
    ensures forall n :: n in NewestFirst(MarkRead(inbox, id, userId), userId, false) ==> n.id != id
  {
    var r := MarkRead(inbox, id, userId);
    if (forall n :: n in inbox ==> n.id != id || n.userId != userId) {
      assert forall i :: 0 <= i < |inbox| ==> r[i] == inbox[i] by {
        forall i | 0 <= i < |inbox| ensures r[i] == inbox[i] {
          assert inbox[i] in inbox;
        }
      }
    }
    forall n | n in NewestFirst(r, userId, false) ensures n.id != id {
      var i :| 0 <= i < |r| && r[i] == n;
    }
  }
}
