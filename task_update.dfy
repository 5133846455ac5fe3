/** The field selection of the task update endpoint (PUT on a task): which
    columns the UPDATE sets, to what, whether the completion notice is
    created, and when the request is refused. */
module TaskUpdate {
  import opened Common

  /** A value of the request body.  Form bodies carry only strings; JSON
      bodies may carry any of these. */
  datatype Json = JNull | JBool(b: bool) | JInt(i: int) | JStr(s: string)

  /** Python truthiness of a body value. */
  predicate Truthy(v: Json) {
    match v
    case JNull => false
    case JBool(b) => b
    case JInt(i) => i != 0
    case JStr(s) => s != ""
  }

  /** One "column = ?" of the UPDATE with its bound value. */
  datatype Assignment =
    | SetTitle(title: string)
    | SetDueDate(due: Json)
    | SetPriority(priority: Json)
    | SetCompleted(flag: int)

  /** How the handler ends: the UPDATE is run, or the request is refused.
      TitleNotText stands for the exception .strip() raises on a title that
      is not a string, answered with a 500. */
  datatype Outcome =
    | Update(fields: seq<Assignment>, notifyCompleted: bool)
    | NoValidFields
    | TitleNotText

  /** The position of an assignment's column in the handler's order. */
  function Column(a: Assignment): nat {
    match a
    case SetTitle(_) => 0
    case SetDueDate(_) => 1
    case SetPriority(_) => 2
    case SetCompleted(_) => 3
  }

  /** The words that mark a textual `completed` value as true. */
  const TrueWords: set<string> := {"true", "1", "yes", "on"}

  /** The completion flag a body value stands for: a string is true when its
      lower-cased form is one of TrueWords, anything else by truthiness. */
  function CompletedFlag(v: Json): (b: bool)
    ensures v.JStr? ==> (b <==> Lower(v.s) in TrueWords)
    ensures !v.JStr? ==> (b <==> Truthy(v))
  {
    if v.JStr? then Lower(v.s) in TrueWords else Truthy(v)
  }

  // ---------------------------------------------------------------------
  // The selection as a value
  // ---------------------------------------------------------------------

  /** A title is taken when it is a string that is not blank; it is stored
      stripped. */
  function TitlePart(data: map<string, Json>): seq<Assignment> {
    if "title" in data && data["title"].JStr? && Strip(data["title"].s) != ""
    then [SetTitle(Strip(data["title"].s))]
    else []
  }

  function DuePart(data: map<string, Json>): seq<Assignment> {
    if "due_date" in data
    then [SetDueDate(if Truthy(data["due_date"]) then data["due_date"] else JNull)]
    else []
  }

  function PriorityPart(data: map<string, Json>): seq<Assignment> {
    if "priority" in data then [SetPriority(data["priority"])] else []
  }

  function CompletedPart(data: map<string, Json>): seq<Assignment> {
    if "completed" in data then [SetCompleted(if CompletedFlag(data["completed"]) then 1 else 0)] else []
  }

  /** The outcome of the handler for a body and the task's stored flag. */
  function Selection(data: map<string, Json>, wasCompleted: bool): Outcome {
    if "title" in data && !data["title"].JStr? then TitleNotText
    else
      var fields := TitlePart(data) + DuePart(data) + PriorityPart(data) + CompletedPart(data);
      if fields == [] then NoValidFields
      else Update(fields, "completed" in data && CompletedFlag(data["completed"]) && !wasCompleted)
  }

  /** The handler's steps: title, due date, priority, completed, each
      appended to the UPDATE's column list when present; then the refusal
      when nothing was chosen. */
  method SelectFields(data: map<string, Json>, wasCompleted: bool) returns (r: Outcome)
    ensures r == Selection(data, wasCompleted)
  {
    var fields: seq<Assignment> := [];
    var notify := false;
    if "title" in data {
      var title := data["title"];
      if !title.JStr? {
        return TitleNotText;
      }
      if Strip(title.s) != "" {
        fields := fields + [SetTitle(Strip(title.s))];
      }
    }
    assert fields == TitlePart(data);
    if "due_date" in data {
      var due := data["due_date"];
      fields := fields + [SetDueDate(if Truthy(due) then due else JNull)];
    }
    assert fields == TitlePart(data) + DuePart(data);
    if "priority" in data {
      fields := fields + [SetPriority(data["priority"])];
    }
    assert fields == TitlePart(data) + DuePart(data) + PriorityPart(data);
    if "completed" in data {
      var completed := CompletedFlag(data["completed"]);
      fields := fields + [SetCompleted(if completed then 1 else 0)];
      if completed && !wasCompleted {
        notify := true;
      }
    }
    if fields == [] {
      return NoValidFields;
    }
    r := Update(fields, notify);
  }

  // ---------------------------------------------------------------------
  // What the selection promises
  // ---------------------------------------------------------------------

  /** The request is refused with a 500 exactly when the title is present
      and not a string, and with "No valid fields" exactly when the only
      key among the four is a blank title, or none of them is present. */
  lemma SelectionRefusals(data: map<string, Json>, wasCompleted: bool)
    ensures Selection(data, wasCompleted) == TitleNotText <==> "title" in data && !data["title"].JStr?
    ensures Selection(data, wasCompleted) == NoValidFields <==>
              && ("title" in data ==> data["title"].JStr? && Strip(data["title"].s) == "")
              && "due_date" !in data && "priority" !in data && "completed" !in data
  {
  }

  /** Each column is set at most once, in the order title, due date,
      priority, completed. */
  lemma SelectionColumnOrder(data: map<string, Json>, wasCompleted: bool)
    requires Selection(data, wasCompleted).Update?
    ensures var f := Selection(data, wasCompleted).fields;
            |f| <= 4 && forall i, j :: 0 <= i < j < |f| ==> Column(f[i]) < Column(f[j])
  {
    var f := Selection(data, wasCompleted).fields;
    var t, d, p, c := TitlePart(data), DuePart(data), PriorityPart(data), CompletedPart(data);
    assert f == t + d + p + c;
    forall i, j | 0 <= i < j < |f|
      ensures Column(f[i]) < Column(f[j])
    {
      assert forall k :: 0 <= k < |t| ==> Column(t[k]) == 0;
      assert forall k :: 0 <= k < |d| ==> Column(d[k]) == 1;
      assert forall k :: 0 <= k < |p| ==> Column(p[k]) == 2;
      assert forall k :: 0 <= k < |c| ==> Column(c[k]) == 3;
      assert forall k :: 0 <= k < |f| ==>
        Column(f[k]) == if k < |t| then 0 else if k < |t| + |d| then 1
                        else if k < |t| + |d| + |p| then 2 else 3;
    }
  }

  /** The title column: set exactly for a non-blank string title, to its
      stripped text, which is itself non-blank. */
  lemma SelectionTitle(data: map<string, Json>, wasCompleted: bool)
    requires Selection(data, wasCompleted).Update?
    ensures var f := Selection(data, wasCompleted).fields;
            && ((exists a :: a in f && a.SetTitle?) <==> "title" in data && Strip(data["title"].s) != "")
            && forall a :: a in f && a.SetTitle? ==> a.title == Strip(data["title"].s) && !AllSpace(a.title)
  {
    var f := Selection(data, wasCompleted).fields;
    assert f == TitlePart(data) + DuePart(data) + PriorityPart(data) + CompletedPart(data);
    if "title" in data {
      StripEmptyIffAllSpace(data["title"].s);
      if Strip(data["title"].s) != "" {
        assert f[0].SetTitle?;
      }
    }
  }

  /** The due-date column: set whenever the key is present, to NULL for a
      falsy value (None, "", 0, false). */
  lemma SelectionDueDate(data: map<string, Json>, wasCompleted: bool)
    requires Selection(data, wasCompleted).Update?
    ensures var f := Selection(data, wasCompleted).fields;
            && ((exists a :: a in f && a.SetDueDate?) <==> "due_date" in data)
            && forall a :: a in f && a.SetDueDate? ==>
                 a.due == if Truthy(data["due_date"]) then data["due_date"] else JNull
  {
    var f := Selection(data, wasCompleted).fields;
    assert f == TitlePart(data) + DuePart(data) + PriorityPart(data) + CompletedPart(data);
    if "due_date" in data {
      assert f[|TitlePart(data)|].SetDueDate?;
    }
  }

  /** The priority column: set whenever the key is present, to the value
      as given. */
  lemma SelectionPriority(data: map<string, Json>, wasCompleted: bool)
    requires Selection(data, wasCompleted).Update?
    ensures var f := Selection(data, wasCompleted).fields;
            && ((exists a :: a in f && a.SetPriority?) <==> "priority" in data)
            && forall a :: a in f && a.SetPriority? ==> a.priority == data["priority"]
  {
    var f := Selection(data, wasCompleted).fields;
    assert f == TitlePart(data) + DuePart(data) + PriorityPart(data) + CompletedPart(data);
    if "priority" in data {
      assert f[|TitlePart(data)| + |DuePart(data)|].SetPriority?;
    }
  }

  /** The completed column: set whenever the key is present, to 1 or 0 by
      CompletedFlag; the completion notice fires exactly when the stored
      flag was false and the new one is true. */
  lemma SelectionCompleted(data: map<string, Json>, wasCompleted: bool)
    requires Selection(data, wasCompleted).Update?
    ensures var r := Selection(data, wasCompleted);
            && ((exists a :: a in r.fields && a.SetCompleted?) <==> "completed" in data)
            && (forall a :: a in r.fields && a.SetCompleted? ==>
                  a.flag == if CompletedFlag(data["completed"]) then 1 else 0)
            && (r.notifyCompleted <==> !wasCompleted && SetCompleted(1) in r.fields)
  {
    var r := Selection(data, wasCompleted);
    assert r.fields == TitlePart(data) + DuePart(data) + PriorityPart(data) + CompletedPart(data);
    if "completed" in data {
      assert r.fields[|r.fields| - 1].SetCompleted?;
    }
  }

  /** Spellings of the completed flag. */
  lemma CompletedSpellings()
    ensures CompletedFlag(JStr("YES")) && CompletedFlag(JStr("On")) && CompletedFlag(JStr("1"))
    ensures !CompletedFlag(JStr("false")) && !CompletedFlag(JStr("0")) && !CompletedFlag(JStr("y"))
    ensures CompletedFlag(JInt(2)) && !CompletedFlag(JNull)
  {
    assert Lower("YES") == "yes";
    assert Lower("On") == "on";
    assert Lower("1") == "1";
    assert Lower("false") == "false";
    assert Lower("0") == "0";
    assert Lower("y") == "y";
  }
}
