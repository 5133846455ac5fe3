/** calculate_task_progress: a percentage estimate for a task from its
    completion flag, its due date and the number of media files on its
    timeline.  `today` is the current date as a day number; since the due
    date is read as midnight of its day, whole days elapsed since it is
    exactly today - due, and "now is at or after the due date" is
    today >= due. */
module TaskProgress {
  import opened Common

  function Progress(completed: bool, due: DueField, mediaCount: nat, today: int): (r: int)
    ensures r == 100 <==> completed
    ensures !completed ==> r <= 90
    ensures !completed && due.OnDay? && today >= due.day ==> r == 90
    ensures !completed && due.OnDay? && today < due.day ==> r <= 80
    ensures !completed && !due.OnDay? ==> r == Min(mediaCount * 20, 80) && 0 <= r <= 80
  {
    if completed then 100
    else
      match due
      // no due date: media alone, capped below completion
      case NoDueDate => Min(mediaCount * 20, 80)
      // strptime raised ValueError: the same fallback
      case Unparsable => Min(mediaCount * 20, 80)
      case OnDay(d) =>
        if today >= d then 90
        else
          var timeProgress := Min((today - d) * 10, 60);
          var mediaProgress := Min(mediaCount * 15, 30);
          Min(timeProgress + mediaProgress, 80)
  }

  /** Before the due date the elapsed-days term is negative, so the
      estimate can fall below zero. */
  lemma ProgressCanBeNegative(today: int)
    ensures Progress(false, OnDay(today + 10), 0, today) == -100
  {
    assert Min((today - (today + 10)) * 10, 60) == -100;
  }

  /** Uploading more media never lowers the estimate. */
  lemma ProgressMonotoneInMedia(completed: bool, due: DueField, m: nat, n: nat, today: int)
    requires m <= n
    ensures Progress(completed, due, m, today) <= Progress(completed, due, n, today)
  {
    if !completed && due.OnDay? && today < due.day {
      assert Min(m * 15, 30) <= Min(n * 15, 30);
    } else if !completed && !due.OnDay? {
      assert Min(m * 20, 80) <= Min(n * 20, 80);
    }
  }

  /** As days pass, the estimate of an incomplete task never goes down. */
  lemma ProgressMonotoneInTime(completed: bool, due: DueField, mediaCount: nat, day1: int, day2: int)
    requires day1 <= day2
    ensures Progress(completed, due, mediaCount, day1) <= Progress(completed, due, mediaCount, day2)
  {
    if !completed && due.OnDay? && day2 < due.day {
      assert Min((day1 - due.day) * 10, 60) <= Min((day2 - due.day) * 10, 60);
    }
  }
}
