/** generate_task_report: the plain-text export of a user's selected tasks,
    built line by line and joined with newlines. */
module TaskReport {
  import opened Common

  /** A selected task as the export query returns it.  `dueDate` is the
      stored text, "" when the column is NULL or empty (both falsy). */
  datatype ReportTask = ReportTask(title: string, dueDate: string, priority: string,
                                   completed: bool, mediaCount: nat)

  /** The bullets of the pending and completed sections, character for
      character as they stand in app.py (the UTF-8 bytes of a bullet and a
      check mark read back as Mac Roman text). */
  const PendingBullet: string := "\U{201A}\U{00C4}\U{00A2}"
  const DoneBullet: string := "\U{201A}\U{00FA}\U{00EC}"

  /** c * n in Python. */
  function Repeat(c: char, n: nat): (r: string)
    ensures |r| == n && forall i :: 0 <= i < n ==> r[i] == c
  {
    seq(n, _ => c)
  }

  /** "\n".join(lines). */
  function JoinLines(lines: seq<string>): string {
    if lines == [] then ""
    else if |lines| == 1 then lines[0]
    else JoinLines(lines[..|lines| - 1]) + "\n" + lines[|lines| - 1]
  }

  // ---------------------------------------------------------------------
  // Summary counts (the sum(1 for ...) expressions)
  // ---------------------------------------------------------------------

  function CompletedCount(tasks: seq<ReportTask>): (n: nat)
    ensures n <= |tasks|
  {
    if tasks == [] then 0
    else CompletedCount(tasks[..|tasks| - 1]) + (if tasks[|tasks| - 1].completed then 1 else 0)
  }

  /** len(tasks) - completed_count. */
  function PendingCount(tasks: seq<ReportTask>): nat {
    |tasks| - CompletedCount(tasks)
  }

  /** Incomplete tasks of the given priority. */
  function PriorityCount(tasks: seq<ReportTask>, priority: string): (n: nat)
    ensures n <= |tasks|
  {
    if tasks == [] then 0
    else
      var t := tasks[|tasks| - 1];
      PriorityCount(tasks[..|tasks| - 1], priority) + (if t.priority == priority && !t.completed then 1 else 0)
  }

  // ---------------------------------------------------------------------
  // Section groups (the list comprehensions)
  // ---------------------------------------------------------------------

  function PriorityGroup(tasks: seq<ReportTask>, priority: string): (g: seq<ReportTask>)
    ensures forall t :: t in g <==> t in tasks && t.priority == priority && !t.completed
  {
    if tasks == [] then []
    else
      var t := tasks[|tasks| - 1];
      PriorityGroup(tasks[..|tasks| - 1], priority) + (if t.priority == priority && !t.completed then [t] else [])
  }

  function CompletedGroup(tasks: seq<ReportTask>): (g: seq<ReportTask>)
    ensures forall t :: t in g <==> t in tasks && t.completed
  {
    if tasks == [] then []
    else
      var t := tasks[|tasks| - 1];
      CompletedGroup(tasks[..|tasks| - 1]) + (if t.completed then [t] else [])
  }

  /** Incomplete tasks whose priority is none of the three listed ones. */
  function UnlistedGroup(tasks: seq<ReportTask>): (g: seq<ReportTask>)
    ensures forall t :: t in g <==> t in tasks && !t.completed && t.priority !in {"high", "medium", "low"}
  {
    if tasks == [] then []
    else
      var t := tasks[|tasks| - 1];
      UnlistedGroup(tasks[..|tasks| - 1])
        + (if !t.completed && t.priority !in {"high", "medium", "low"} then [t] else [])
  }

  // ---------------------------------------------------------------------
  // The lines
  // ---------------------------------------------------------------------

  function MediaLine(n: nat): string {
    "  Media Files: " + NatToString(n)
  }

  /** The lines one task contributes to its section. */
  function TaskLines(t: ReportTask, bullet: string): seq<string> {
    [bullet + " " + t.title]
      + (if t.dueDate != "" then ["  Due: " + t.dueDate] else [])
      + (if t.mediaCount > 0 then [MediaLine(t.mediaCount)] else [])
      + [""]
  }

  function Blocks(group: seq<ReportTask>, bullet: string): seq<string> {
    if group == [] then []
    else Blocks(group[..|group| - 1], bullet) + TaskLines(group[|group| - 1], bullet)
  }

  /** A heading, a rule and the tasks' lines; nothing for an empty group. */
  function Section(heading: string, group: seq<ReportTask>, bullet: string): seq<string> {
    if group == [] then [] else [heading, Repeat('-', 40)] + Blocks(group, bullet)
  }

  function Header(tasks: seq<ReportTask>, username: string, generatedOn: string): seq<string> {
    [Repeat('=', 80), "TASK SCHEDULER - TASK REPORT", Repeat('=', 80),
     "Generated for: " + username, "Generated on: " + generatedOn,
     "Total Tasks: " + NatToString(|tasks|), ""]
  }

  function Summary(tasks: seq<ReportTask>): seq<string> {
    var completed := CompletedCount(tasks);
    ["SUMMARY:", Repeat('-', 40),
     "Completed Tasks: " + NatToString(completed),
     "Pending Tasks: " + NatToString(PendingCount(tasks)),
     "High Priority: " + NatToString(PriorityCount(tasks, "high")),
     "Medium Priority: " + NatToString(PriorityCount(tasks, "medium")),
     "Low Priority: " + NatToString(PriorityCount(tasks, "low")), ""]
  }

  function Footer(): seq<string> {
    [Repeat('=', 80), "End of Report", Repeat('=', 80)]
  }

  /** The report's lines: header, summary, the high, medium, low and
      completed sections in that order, footer.  `generatedOn` is the
      formatted current time. */
  function ReportLines(tasks: seq<ReportTask>, username: string, generatedOn: string): seq<string> {
    Header(tasks, username, generatedOn) + Summary(tasks)
      + Section("HIGH PRIORITY TASKS:", PriorityGroup(tasks, "high"), PendingBullet)
      + Section("MEDIUM PRIORITY TASKS:", PriorityGroup(tasks, "medium"), PendingBullet)
      + Section("LOW PRIORITY TASKS:", PriorityGroup(tasks, "low"), PendingBullet)
      + Section("COMPLETED TASKS:", CompletedGroup(tasks), DoneBullet)
      + Footer()
  }

  // ---------------------------------------------------------------------
  // The generator, appending line by line
  // ---------------------------------------------------------------------

  /** The loop over one group. */
  method AppendBlocks(lines: seq<string>, group: seq<ReportTask>, bullet: string)
    returns (out: seq<string>)
    ensures out == lines + Blocks(group, bullet)
  {
    out := lines;
    var i := 0;
    while i < |group|
      invariant 0 <= i <= |group|
      invariant out == lines + Blocks(group[..i], bullet)
    {
      var t := group[i];
      out := out + [bullet + " " + t.title];
      if t.dueDate != "" {
        out := out + ["  Due: " + t.dueDate];
      }
      if t.mediaCount > 0 {
        out := out + [MediaLine(t.mediaCount)];
      }
      out := out + [""];
      assert group[..i + 1][..i] == group[..i];
      i := i + 1;
    }
    assert group[..i] == group;
  }

  method AppendSection(lines: seq<string>, heading: string, group: seq<ReportTask>, bullet: string)
    returns (out: seq<string>)
    ensures out == lines + Section(heading, group, bullet)
  {
    out := lines;
    if group != [] {
      out := out + [heading];
      out := out + [Repeat('-', 40)];
      out := AppendBlocks(out, group, bullet);
    }
  }

  method AppendHeader(lines: seq<string>, tasks: seq<ReportTask>, username: string, generatedOn: string)
    returns (out: seq<string>)
    ensures out == lines + Header(tasks, username, generatedOn)
  {
    out := lines + [Repeat('=', 80)];
    out := out + ["TASK SCHEDULER - TASK REPORT"];
    out := out + [Repeat('=', 80)];
    out := out + ["Generated for: " + username];
    out := out + ["Generated on: " + generatedOn];
    out := out + ["Total Tasks: " + NatToString(|tasks|)];
    out := out + [""];
  }

  method AppendSummary(lines: seq<string>, tasks: seq<ReportTask>) returns (out: seq<string>)
    ensures out == lines + Summary(tasks)
  {
    var completedCount := CompletedCount(tasks);
    var pendingCount := PendingCount(tasks);
    var highPriority := PriorityCount(tasks, "high");
    var mediumPriority := PriorityCount(tasks, "medium");
    var lowPriority := PriorityCount(tasks, "low");

    out := lines + ["SUMMARY:"];
    out := out + [Repeat('-', 40)];
    out := out + ["Completed Tasks: " + NatToString(completedCount)];
    out := out + ["Pending Tasks: " + NatToString(pendingCount)];
    out := out + ["High Priority: " + NatToString(highPriority)];
    out := out + ["Medium Priority: " + NatToString(mediumPriority)];
    out := out + ["Low Priority: " + NatToString(lowPriority)];
    out := out + [""];
  }

  method GenerateTaskReport(tasks: seq<ReportTask>, username: string, generatedOn: string)
    returns (report: string)
    ensures report == JoinLines(ReportLines(tasks, username, generatedOn))
  {
    ghost var high := Section("HIGH PRIORITY TASKS:", PriorityGroup(tasks, "high"), PendingBullet);
    ghost var medium := Section("MEDIUM PRIORITY TASKS:", PriorityGroup(tasks, "medium"), PendingBullet);
    ghost var low := Section("LOW PRIORITY TASKS:", PriorityGroup(tasks, "low"), PendingBullet);
    ghost var done := Section("COMPLETED TASKS:", CompletedGroup(tasks), DoneBullet);
    var lines := AppendHeader([], tasks, username, generatedOn);
    lines := AppendSummary(lines, tasks);
    ghost var top := lines;
    lines := AppendSection(lines, "HIGH PRIORITY TASKS:", PriorityGroup(tasks, "high"), PendingBullet);
    lines := AppendSection(lines, "MEDIUM PRIORITY TASKS:", PriorityGroup(tasks, "medium"), PendingBullet);
    lines := AppendSection(lines, "LOW PRIORITY TASKS:", PriorityGroup(tasks, "low"), PendingBullet);
    lines := AppendSection(lines, "COMPLETED TASKS:", CompletedGroup(tasks), DoneBullet);
    assert lines == top + high + medium + low + done;
    ghost var body := lines;
    lines := lines + [Repeat('=', 80)];
    lines := lines + ["End of Report"];
    lines := lines + [Repeat('=', 80)];
    assert lines == body + Footer();
    assert top == Header(tasks, username, generatedOn) + Summary(tasks);
    assert lines == ReportLines(tasks, username, generatedOn);
    report := JoinLines(lines);
  }

  // ---------------------------------------------------------------------
  // What the report promises
  // ---------------------------------------------------------------------

  /** The line is the caption followed by decimal digits that read back as n. */
  predicate ShowsCount(line: string, caption: string, n: nat) {
    && |caption| <= |line| && line[..|caption|] == caption
    && (forall i :: |caption| <= i < |line| ==> IsDigit(line[i]))
    && ParseDigits(line[|caption|..]) == n
  }

  lemma ShowsNat(caption: string, n: nat)
    ensures ShowsCount(caption + NatToString(n), caption, n)
  {
    var line := caption + NatToString(n);
    assert line[..|caption|] == caption;
    assert line[|caption|..] == NatToString(n);
    NatToStringRoundTrip(n);
  }

  /** The header shows the number of tasks as a number that reads back
      exactly. */
  lemma HeaderShowsTotal(tasks: seq<ReportTask>, username: string, generatedOn: string)
    ensures ShowsCount(Header(tasks, username, generatedOn)[5], "Total Tasks: ", |tasks|)
  {
    assert Header(tasks, username, generatedOn)[5] == "Total Tasks: " + NatToString(|tasks|);
    ShowsNat("Total Tasks: ", |tasks|);
  }

  /** The summary shows the completed and pending counts as numbers that
      read back exactly. */
  lemma SummaryShowsStatusCounts(tasks: seq<ReportTask>)
    ensures ShowsCount(Summary(tasks)[2], "Completed Tasks: ", CompletedCount(tasks))
    ensures ShowsCount(Summary(tasks)[3], "Pending Tasks: ", PendingCount(tasks))
  {
    ShowsNat("Completed Tasks: ", CompletedCount(tasks));
    ShowsNat("Pending Tasks: ", PendingCount(tasks));
  }

  /** The summary shows the pending count of each priority as a number that
      reads back exactly. */
  lemma SummaryShowsPriorityCounts(tasks: seq<ReportTask>)
    ensures ShowsCount(Summary(tasks)[4], "High Priority: ", PriorityCount(tasks, "high"))
    ensures ShowsCount(Summary(tasks)[5], "Medium Priority: ", PriorityCount(tasks, "medium"))
    ensures ShowsCount(Summary(tasks)[6], "Low Priority: ", PriorityCount(tasks, "low"))
  {
    ShowsNat("High Priority: ", PriorityCount(tasks, "high"));
    ShowsNat("Medium Priority: ", PriorityCount(tasks, "medium"));
    ShowsNat("Low Priority: ", PriorityCount(tasks, "low"));
  }

  /** The summary numbers are the sizes of the sections listed below them. */
  lemma {:induction false} CountsMatchSections(tasks: seq<ReportTask>, priority: string)
    ensures CompletedCount(tasks) == |CompletedGroup(tasks)|
    ensures PriorityCount(tasks, priority) == |PriorityGroup(tasks, priority)|
  {
    if tasks != [] {
      CountsMatchSections(tasks[..|tasks| - 1], priority);
    }
  }

  /** Every task is completed, incomplete with exactly one of the three
      listed priorities, or incomplete with another priority; so the
      pending count is the three priority counts plus the incomplete tasks
      that no section lists. */
  lemma {:induction false} PendingSplitsByPriority(tasks: seq<ReportTask>)
    ensures |tasks| - CompletedCount(tasks)
              == PriorityCount(tasks, "high") + PriorityCount(tasks, "medium")
                 + PriorityCount(tasks, "low") + |UnlistedGroup(tasks)|
  {
    if tasks != [] {
      PendingSplitsByPriority(tasks[..|tasks| - 1]);
    }
  }

  /** A task's lines carry a "Media Files" line exactly when it has media,
      and it gives the task's own count. */
  lemma MediaLineIff(t: ReportTask, bullet: string, n: nat)
    requires |bullet| >= 1 && bullet[0] != ' '
    ensures MediaLine(n) in TaskLines(t, bullet) <==> t.mediaCount > 0 && n == t.mediaCount
  {
    var m := MediaLine(n);
    var lines := TaskLines(t, bullet);
    assert m[0] == ' ' && m[2] == 'M' && m[15..] == NatToString(n);
    // the title line starts with the bullet, the due line reads "  D..."
    assert m != (bullet + " " + t.title) by {
      assert (bullet + " " + t.title)[0] == bullet[0];
    }
    assert m != "  Due: " + t.dueDate by {
      assert ("  Due: " + t.dueDate)[2] == 'D';
    }
    assert m in lines <==> t.mediaCount > 0 && m == MediaLine(t.mediaCount);
    if t.mediaCount > 0 && m == MediaLine(t.mediaCount) {
      assert MediaLine(t.mediaCount)[15..] == NatToString(t.mediaCount);
      NatToStringInjective(t.mediaCount, n);
    }
  }
}
