/** One scheduler cycle (check_all_users_tasks) as a function on the
    engine's Store, and what it guarantees: only users with pending dated
    work are touched, a user whose processing raises is skipped without
    affecting anyone else, and running the cycle a second time the same day
    after every email went out changes nothing. */
module Scheduler {
  import opened Common
  import opened Notifications

  /** The email capability's answer for each (user, kind) dispatch of a
      cycle. */
  type EmailOutcome = (int, Kind) -> bool

  /** Whether the user owns an incomplete task with a due date. */
  predicate HasPendingDated(tasks: seq<Task>, userId: int) {
    exists t :: t in tasks && t.userId == userId && !t.completed && t.due.Some?
  }

  /** SELECT DISTINCT u.id, ... FROM users JOIN tasks WHERE completed = 0 AND
      due_date IS NOT NULL: the users with pending dated work, in table
      order. */
  function EligibleUsers(users: seq<User>, tasks: seq<Task>): (r: seq<User>)
    ensures forall u :: u in r <==> u in users && HasPendingDated(tasks, u.id)
  {
    if users == [] then []
    else if HasPendingDated(tasks, users[0].id) then [users[0]] + EligibleUsers(users[1..], tasks)
    else EligibleUsers(users[1..], tasks)
  }

  /** `if tasks: send_user_notification_batch(...)`. */
  function DispatchIfAny(s: Store, user: User, batch: seq<Task>, k: Kind, emailOk: EmailOutcome, today: int): Store {
    if batch == [] then s else Dispatch(s, user, batch, k, emailOk(user.id, k), today).0
  }

  /** The body of the loop for one user: the three due sets, then one
      dispatch per non-empty set in the order today, tomorrow, overdue. */
  function CycleUser(s: Store, user: User, tasks: seq<Task>, emailOk: EmailOutcome, today: int): Store {
    var dueToday := UserDueTasks(tasks, user.id, DueToday, today);
    var dueTomorrow := UserDueTasks(tasks, user.id, DueTomorrow, today);
    var overdue := UserDueTasks(tasks, user.id, Overdue, today);
    var s1 := DispatchIfAny(s, user, dueToday, DueToday, emailOk, today);
    var s2 := DispatchIfAny(s1, user, dueTomorrow, DueTomorrow, emailOk, today);
    DispatchIfAny(s2, user, overdue, Overdue, emailOk, today)
  }

  /** The loop over the users, `faulty` being the users whose processing
      raises before anything is dispatched (the exception is caught and the
      loop goes on). */
  function Cycle(s: Store, users: seq<User>, tasks: seq<Task>, faulty: set<int>,
                 emailOk: EmailOutcome, today: int): Store
  {
    if users == [] then s
    else
      var before := Cycle(s, users[..|users| - 1], tasks, faulty, emailOk, today);
      var u := users[|users| - 1];
      if u.id in faulty then before else CycleUser(before, u, tasks, emailOk, today)
  }

  function RunCycle(s: Store, users: seq<User>, tasks: seq<Task>, faulty: set<int>,
                    emailOk: EmailOutcome, today: int): Store
  {
    Cycle(s, EligibleUsers(users, tasks), tasks, faulty, emailOk, today)
  }

  // ---------------------------------------------------------------------
  // Only eligible, non-faulty users are touched
  // ---------------------------------------------------------------------

  /** The tables grow only at the end, and every row added belongs to one of
      the given user ids. */
  predicate GrowsFor(s: Store, t: Store, ids: set<int>) {
    && |s.log| <= |t.log| && t.log[..|s.log|] == s.log
    && |s.inbox| <= |t.inbox| && t.inbox[..|s.inbox|] == s.inbox
    && |s.prefRows| <= |t.prefRows| && t.prefRows[..|s.prefRows|] == s.prefRows
    && (forall i :: |s.log| <= i < |t.log| ==> t.log[i].userId in ids)
    && (forall i :: |s.inbox| <= i < |t.inbox| ==> t.inbox[i].userId in ids)
    && (forall i :: |s.prefRows| <= i < |t.prefRows| ==> t.prefRows[i].userId in ids)
  }

  lemma GrowsForTrans(s: Store, t: Store, v: Store, ids: set<int>, more: set<int>)
    requires GrowsFor(s, t, ids) && GrowsFor(t, v, more)
    ensures GrowsFor(s, v, ids + more)
  {
    assert v.log[..|s.log|] == v.log[..|t.log|][..|s.log|];
    assert v.inbox[..|s.inbox|] == v.inbox[..|t.inbox|][..|s.inbox|];
    assert v.prefRows[..|s.prefRows|] == v.prefRows[..|t.prefRows|][..|s.prefRows|];
    forall i | |s.log| <= i < |v.log| ensures v.log[i].userId in ids + more {
      if i < |t.log| { assert v.log[i] == v.log[..|t.log|][i]; }
    }
    forall i | |s.inbox| <= i < |v.inbox| ensures v.inbox[i].userId in ids + more {
      if i < |t.inbox| { assert v.inbox[i] == v.inbox[..|t.inbox|][i]; }
    }
    forall i | |s.prefRows| <= i < |v.prefRows| ensures v.prefRows[i].userId in ids + more {
      if i < |t.prefRows| { assert v.prefRows[i] == v.prefRows[..|t.prefRows|][i]; }
    }
  }

  lemma DispatchGrowsFor(s: Store, user: User, batch: seq<Task>, k: Kind, ok: bool, today: int)
    ensures GrowsFor(s, Dispatch(s, user, batch, k, ok, today).0, {user.id})
  {
    var t := Dispatch(s, user, batch, k, ok, today).0;
    assert t.log[..|s.log|] == s.log;
    assert t.inbox[..|s.inbox|] == s.inbox;
    assert t.prefRows[..|s.prefRows|] == s.prefRows;
  }

  lemma CycleUserGrowsFor(s: Store, user: User, tasks: seq<Task>, emailOk: EmailOutcome, today: int)
    ensures GrowsFor(s, CycleUser(s, user, tasks, emailOk, today), {user.id})
  {
    var s1 := DispatchIfAny(s, user, UserDueTasks(tasks, user.id, DueToday, today), DueToday, emailOk, today);
    var s2 := DispatchIfAny(s1, user, UserDueTasks(tasks, user.id, DueTomorrow, today), DueTomorrow, emailOk, today);
    var s3 := DispatchIfAny(s2, user, UserDueTasks(tasks, user.id, Overdue, today), Overdue, emailOk, today);
    DispatchIfAnyGrowsFor(s, user, UserDueTasks(tasks, user.id, DueToday, today), DueToday, emailOk, today);
    DispatchIfAnyGrowsFor(s1, user, UserDueTasks(tasks, user.id, DueTomorrow, today), DueTomorrow, emailOk, today);
    DispatchIfAnyGrowsFor(s2, user, UserDueTasks(tasks, user.id, Overdue, today), Overdue, emailOk, today);
    GrowsForTrans(s, s1, s2, {user.id}, {user.id});
    GrowsForTrans(s, s2, s3, {user.id}, {user.id});
  }

  lemma DispatchIfAnyGrowsFor(s: Store, user: User, batch: seq<Task>, k: Kind, emailOk: EmailOutcome, today: int)
    ensures GrowsFor(s, DispatchIfAny(s, user, batch, k, emailOk, today), {user.id})
  {
    if batch != [] {
      DispatchGrowsFor(s, user, batch, k, emailOk(user.id, k), today);
    }
  }

  function IdsOf(users: seq<User>, faulty: set<int>): set<int> {
    set u | u in users && u.id !in faulty :: u.id
  }

  lemma {:induction false} CycleGrowsFor(s: Store, users: seq<User>, tasks: seq<Task>, faulty: set<int>,
                                         emailOk: EmailOutcome, today: int)
    ensures GrowsFor(s, Cycle(s, users, tasks, faulty, emailOk, today), IdsOf(users, faulty))
  {
    if users != [] {
      var front := users[..|users| - 1];
      var u := users[|users| - 1];
      var before := Cycle(s, front, tasks, faulty, emailOk, today);
      CycleGrowsFor(s, front, tasks, faulty, emailOk, today);
      assert IdsOf(front, faulty) <= IdsOf(users, faulty);
      if u.id !in faulty {
        CycleUserGrowsFor(before, u, tasks, emailOk, today);
        GrowsForTrans(s, before, CycleUser(before, u, tasks, emailOk, today), IdsOf(front, faulty), {u.id});
        assert IdsOf(front, faulty) + {u.id} <= IdsOf(users, faulty);
      }
    }
  }

  /** Every ledger row, notice and preference row a cycle adds belongs to a
      user that has an incomplete dated task and did not fault; the rows
      that were there before are kept as they were. */
  lemma RunCycleTouchesOnlyEligible(s: Store, users: seq<User>, tasks: seq<Task>, faulty: set<int>,
                                    emailOk: EmailOutcome, today: int)
    ensures var t := RunCycle(s, users, tasks, faulty, emailOk, today);
            && |s.log| <= |t.log| && t.log[..|s.log|] == s.log
            && |s.inbox| <= |t.inbox| && t.inbox[..|s.inbox|] == s.inbox
            && (forall i :: |s.log| <= i < |t.log| ==>
                  t.log[i].userId !in faulty && HasPendingDated(tasks, t.log[i].userId))
            && (forall i :: |s.inbox| <= i < |t.inbox| ==>
                  t.inbox[i].userId !in faulty && HasPendingDated(tasks, t.inbox[i].userId))
            && |s.prefRows| <= |t.prefRows| && t.prefRows[..|s.prefRows|] == s.prefRows
            && (forall i :: |s.prefRows| <= i < |t.prefRows| ==>
                  t.prefRows[i].userId !in faulty && HasPendingDated(tasks, t.prefRows[i].userId))
  {
    CycleGrowsFor(s, EligibleUsers(users, tasks), tasks, faulty, emailOk, today);
  }

  // ---------------------------------------------------------------------
  // A faulting user does not stop the cycle
  // ---------------------------------------------------------------------

  /** The users whose processing does not raise. */
  function Healthy(users: seq<User>, faulty: set<int>): (r: seq<User>)
    ensures forall u :: u in r <==> u in users && u.id !in faulty
  {
    if users == [] then []
    else Healthy(users[..|users| - 1], faulty) + (if users[|users| - 1].id in faulty then [] else [users[|users| - 1]])
  }

  /** A cycle in which some users fault does for every other user exactly
      what a cycle over those users alone would do. */
  lemma {:induction false} CycleIsolatesFaults(s: Store, users: seq<User>, tasks: seq<Task>, faulty: set<int>,
                                               emailOk: EmailOutcome, today: int)
    ensures Cycle(s, users, tasks, faulty, emailOk, today) == Cycle(s, Healthy(users, faulty), tasks, {}, emailOk, today)
  {
    if users != [] {
      var front := users[..|users| - 1];
      var u := users[|users| - 1];
      CycleIsolatesFaults(s, front, tasks, faulty, emailOk, today);
      var hf := Healthy(front, faulty);
      if u.id !in faulty {
        var h := Healthy(users, faulty);
        assert h == hf + [u];
        assert h[..|h| - 1] == hf;
        assert Cycle(s, h, tasks, {}, emailOk, today)
            == CycleUser(Cycle(s, hf, tasks, {}, emailOk, today), u, tasks, emailOk, today);
      } else {
        assert Healthy(users, faulty) == hf;
      }
    }
  }

  // ---------------------------------------------------------------------
  // Re-running a cycle the same day
  // ---------------------------------------------------------------------

  /** After a cycle, the user's batch of kind k is settled: it is empty, or
      the user has a preference row that gates the kind off, or the ledger
      already holds a 'sent' row of today for one of its tasks. */
  predicate SettledFor(s: Store, user: User, tasks: seq<Task>, k: Kind, today: int) {
    var batch := UserDueTasks(tasks, user.id, k, today);
    batch == []
    || (&& FindPrefs(s.prefRows, user.id).Some?
        && (|| !Permits(FindPrefs(s.prefRows, user.id).value, k)
            || AlreadyNotified(s.log, user.id, TaskIds(batch), KindName(k), today)))
  }

  predicate Settled(s: Store, user: User, tasks: seq<Task>, today: int) {
    SettledFor(s, user, tasks, DueToday, today)
    && SettledFor(s, user, tasks, DueTomorrow, today)
    && SettledFor(s, user, tasks, Overdue, today)
  }

  /** Any dispatch, for any user, keeps a settled batch settled: preference
      rows that exist are never replaced by a dispatch and the ledger only
      grows. */
  lemma DispatchKeepsSettled(s: Store, other: User, batch: seq<Task>, kb: Kind, ok: bool, today: int,
                             user: User, tasks: seq<Task>, k: Kind)
    requires SettledFor(s, user, tasks, k, today)
    ensures SettledFor(Dispatch(s, other, batch, kb, ok, today).0, user, tasks, k, today)
  {
    var t := Dispatch(s, other, batch, kb, ok, today).0;
    var b := UserDueTasks(tasks, user.id, k, today);
    if b != [] {
      if FindPrefs(s.prefRows, other.id).None? {
        FindPrefsAppend(s.prefRows, PrefRow(other.id, DefaultPrefs), user.id);
      }
      assert FindPrefs(t.prefRows, user.id) == FindPrefs(s.prefRows, user.id);
      if AlreadyNotified(s.log, user.id, TaskIds(b), KindName(k), today) {
        assert t.log[..|s.log|] == s.log;
        AlreadyNotifiedMonotone(s.log, t.log, user.id, TaskIds(b), KindName(k), today);
      }
    }
  }

  lemma DispatchIfAnyKeepsSettled(s: Store, other: User, batch: seq<Task>, kb: Kind, emailOk: EmailOutcome,
                                  today: int, user: User, tasks: seq<Task>)
    requires Settled(s, user, tasks, today)
    ensures Settled(DispatchIfAny(s, other, batch, kb, emailOk, today), user, tasks, today)
  {
    if batch != [] {
      var ok := emailOk(other.id, kb);
      DispatchKeepsSettled(s, other, batch, kb, ok, today, user, tasks, DueToday);
      DispatchKeepsSettled(s, other, batch, kb, ok, today, user, tasks, DueTomorrow);
      DispatchKeepsSettled(s, other, batch, kb, ok, today, user, tasks, Overdue);
    }
  }

  lemma CycleUserKeepsSettled(s: Store, other: User, tasks: seq<Task>, emailOk: EmailOutcome, today: int, user: User)
    requires Settled(s, user, tasks, today)
    ensures Settled(CycleUser(s, other, tasks, emailOk, today), user, tasks, today)
  {
    var s1 := DispatchIfAny(s, other, UserDueTasks(tasks, other.id, DueToday, today), DueToday, emailOk, today);
    var s2 := DispatchIfAny(s1, other, UserDueTasks(tasks, other.id, DueTomorrow, today), DueTomorrow, emailOk, today);
    DispatchIfAnyKeepsSettled(s, other, UserDueTasks(tasks, other.id, DueToday, today), DueToday, emailOk, today, user, tasks);
    DispatchIfAnyKeepsSettled(s1, other, UserDueTasks(tasks, other.id, DueTomorrow, today), DueTomorrow, emailOk, today, user, tasks);
    DispatchIfAnyKeepsSettled(s2, other, UserDueTasks(tasks, other.id, Overdue, today), Overdue, emailOk, today, user, tasks);
  }

  /** Dispatching a user's own batch of kind k with a delivered email
      settles that batch. */
  lemma DispatchSettles(s: Store, user: User, tasks: seq<Task>, k: Kind, today: int)
    ensures SettledFor(Dispatch(s, user, UserDueTasks(tasks, user.id, k, today), k, true, today).0, user, tasks, k, today)
  {
    var b := UserDueTasks(tasks, user.id, k, today);
    var t := Dispatch(s, user, b, k, true, today).0;
    if b != [] {
      var p := GetPrefs(s, user.id).1;
      assert FindPrefs(t.prefRows, user.id) == Some(p);
      if Permits(p, k) && !AlreadyNotified(s.log, user.id, TaskIds(b), KindName(k), today) {
        var rows := BatchLogRows(user.id, b, k, true, today);
        assert t.log[|s.log|] == rows[0];
        assert Suppresses(rows[0], user.id, TaskIds(b), KindName(k), today);
        AlreadyNotifiedIff(t.log, user.id, TaskIds(b), KindName(k), today);
      } else if Permits(p, k) {
        AlreadyNotifiedMonotone(s.log, t.log, user.id, TaskIds(b), KindName(k), today);
      }
    }
  }

  /** A cycle step for a user whose emails all go out leaves the user
      settled. */
  lemma CycleUserSettles(s: Store, user: User, tasks: seq<Task>, emailOk: EmailOutcome, today: int)
    requires forall k :: emailOk(user.id, k)
    ensures Settled(CycleUser(s, user, tasks, emailOk, today), user, tasks, today)
  {
    var b1 := UserDueTasks(tasks, user.id, DueToday, today);
    var b2 := UserDueTasks(tasks, user.id, DueTomorrow, today);
    var b3 := UserDueTasks(tasks, user.id, Overdue, today);
    var s1 := DispatchIfAny(s, user, b1, DueToday, emailOk, today);
    var s2 := DispatchIfAny(s1, user, b2, DueTomorrow, emailOk, today);
    var s3 := DispatchIfAny(s2, user, b3, Overdue, emailOk, today);
    assert emailOk(user.id, DueToday) && emailOk(user.id, DueTomorrow) && emailOk(user.id, Overdue);
    DispatchSettles(s, user, tasks, DueToday, today);
    assert SettledFor(s1, user, tasks, DueToday, today);
    DispatchSettles(s1, user, tasks, DueTomorrow, today);
    assert SettledFor(s2, user, tasks, DueTomorrow, today);
    if b2 != [] {
      DispatchKeepsSettled(s1, user, b2, DueTomorrow, true, today, user, tasks, DueToday);
    }
    assert SettledFor(s2, user, tasks, DueToday, today);
    DispatchSettles(s2, user, tasks, Overdue, today);
    assert SettledFor(s3, user, tasks, Overdue, today);
    if b3 != [] {
      DispatchKeepsSettled(s2, user, b3, Overdue, true, today, user, tasks, DueToday);
      DispatchKeepsSettled(s2, user, b3, Overdue, true, today, user, tasks, DueTomorrow);
    }
  }

  /** From a settled store a user's cycle step does nothing at all. */
  lemma SettledCycleUserIsNoOp(s: Store, user: User, tasks: seq<Task>, emailOk: EmailOutcome, today: int)
    requires Settled(s, user, tasks, today)
    ensures CycleUser(s, user, tasks, emailOk, today) == s
  {
    SettledDispatchIsNoOp(s, user, tasks, DueToday, emailOk, today);
    SettledDispatchIsNoOp(s, user, tasks, DueTomorrow, emailOk, today);
    SettledDispatchIsNoOp(s, user, tasks, Overdue, emailOk, today);
  }

  lemma SettledDispatchIsNoOp(s: Store, user: User, tasks: seq<Task>, k: Kind, emailOk: EmailOutcome, today: int)
    requires SettledFor(s, user, tasks, k, today)
    ensures DispatchIfAny(s, user, UserDueTasks(tasks, user.id, k, today), k, emailOk, today) == s
  {
  }

  lemma {:induction false} CycleSettles(s: Store, users: seq<User>, tasks: seq<Task>, faulty: set<int>,
                                        emailOk: EmailOutcome, today: int)
    requires forall id, k :: emailOk(id, k)
    ensures forall u :: u in users && u.id !in faulty ==>
              Settled(Cycle(s, users, tasks, faulty, emailOk, today), u, tasks, today)
  {
    if users != [] {
      var front := users[..|users| - 1];
      var last := users[|users| - 1];
      var before := Cycle(s, front, tasks, faulty, emailOk, today);
      CycleSettles(s, front, tasks, faulty, emailOk, today);
      if last.id !in faulty {
        forall u | u in users && u.id !in faulty
          ensures Settled(CycleUser(before, last, tasks, emailOk, today), u, tasks, today)
        {
          if u == last {
            CycleUserSettles(before, last, tasks, emailOk, today);
          } else {
            assert u in front;
            CycleUserKeepsSettled(before, last, tasks, emailOk, today, u);
          }
        }
      } else {
        forall u | u in users && u.id !in faulty ensures u in front {
        }
      }
    }
  }

  lemma {:induction false} SettledCycleIsNoOp(s: Store, users: seq<User>, tasks: seq<Task>, faulty: set<int>,
                                              emailOk: EmailOutcome, today: int)
    requires forall u :: u in users && u.id !in faulty ==> Settled(s, u, tasks, today)
    ensures Cycle(s, users, tasks, faulty, emailOk, today) == s
  {
    if users != [] {
      var front := users[..|users| - 1];
      SettledCycleIsNoOp(s, front, tasks, faulty, emailOk, today);
      var last := users[|users| - 1];
      if last.id !in faulty {
        SettledCycleUserIsNoOp(s, last, tasks, emailOk, today);
      }
    }
  }

  /** Running the scheduler a second time the same day, over the same
      tasks, after a cycle in which every email was delivered, sends
      nothing, logs nothing and creates no notice, whatever the email
      capability would answer the second time. */
  lemma RerunCycleIsNoOp(s: Store, users: seq<User>, tasks: seq<Task>, faulty: set<int>,
                         first: EmailOutcome, second: EmailOutcome, today: int)
    requires forall id, k :: first(id, k)
    ensures var t := RunCycle(s, users, tasks, faulty, first, today);
            RunCycle(t, users, tasks, faulty, second, today) == t
  {
    var eligible := EligibleUsers(users, tasks);
    CycleSettles(s, eligible, tasks, faulty, first, today);
    SettledCycleIsNoOp(RunCycle(s, users, tasks, faulty, first, today), eligible, tasks, faulty, second, today);
  }
}
