/** Concrete runs and snapshots: the exact strings and payloads of the unit
    tests in test/unit/jira.test.ts, facts about the shipped task catalog,
    and one complete triage of a sprint issue split into a DEV and a QE
    task. */
module Scenarios {
  import opened Common
  import opened Schema
  import Jira
  import opened Triage

  const Tracker := Jira.Client("https://issues.redhat.com", false)

  /** The one-name summary query of the unit test, character for character. */
  lemma ComposeSnapshotOne()
    ensures Jira.ComposeTaskSummaryJQL(["Upstream"]) == "summary ~ \"\\\\[Upstream\\\\]: \""
  {
    assert Join(["Upstream"], Jira.ClauseSeparator) == "Upstream";
    assert Jira.ClauseOpen + "Upstream" == "summary ~ \"\\\\[Upstream";
  }

  /** The clause of one name, character for character. */
  lemma ClauseSnapshots()
    ensures Jira.Clause("DEV Task") == "summary ~ \"\\\\[DEV Task\\\\]: \""
    ensures Jira.Clause("QE Task") == "summary ~ \"\\\\[QE Task\\\\]: \""
  {
    assert Jira.ClauseOpen + "DEV Task" == "summary ~ \"\\\\[DEV Task";
    assert Jira.ClauseOpen + "QE Task" == "summary ~ \"\\\\[QE Task";
  }

  /** The two-name summary query of the unit test: the two clauses above
      with " OR " between them. */
  lemma ComposeSnapshotTwo()
    ensures Jira.ComposeTaskSummaryJQL(["DEV Task", "QE Task"])
      == Jira.Clause("DEV Task") + " OR " + Jira.Clause("QE Task")
  {
    var names := ["DEV Task", "QE Task"];
    Jira.ComposeIsDisjunction(names);
    var clauses := Jira.Clauses(names);
    assert clauses[1..] == [Jira.Clause("QE Task")];
  }

  /** The listing of sprint 1 in the unit test, for assignee "assignee",
      on any board. */
  lemma SprintListingSnapshot(board: int)
    ensures FetchCall(Config(board, Some("assignee")), 1) == ListSprintIssues(1, Jira.Listing(
      Some("assignee = \"assignee\" AND " + Jira.IssuesWithoutTasksJQL),
      500,
      ["id", "issuetype", "status", "summary", "assignee", "priority", "components",
       "customfield_12310243", "customfield_12316142"]))
  {
    assert Jira.AssigneeClause("assignee") + " AND " == "assignee = \"assignee\" AND ";
  }

  /** The two edits of the `setValues` unit test: without a size the
      story points are omitted; a null sprint is written as null. */
  lemma SetValuesSnapshots()
    ensures Jira.SetValues(Tracker, "RHEL-1234", Jira.Values(Some("assignee"), None, Jira.SetTo(1))).edits
      == [Jira.Edit("RHEL-1234", map[
            "assignee" := Jira.Obj(map["name" := Jira.Str("assignee")]),
            "customfield_12310940" := Jira.Num(1)])]
    ensures Jira.SetValues(Tracker, "RHEL-1234", Jira.Values(Some("assignee"), Some(3), Jira.Clear)).edits
      == [Jira.Edit("RHEL-1234", map[
            "assignee" := Jira.Obj(map["name" := Jira.Str("assignee")]),
            "customfield_12310243" := Jira.Num(3),
            "customfield_12310940" := Jira.Null])]
  {
    var name := Jira.Obj(map["name" := Jira.Str("assignee")]);
    var p1 := Jira.SetValuesPayload(Jira.Values(Some("assignee"), None, Jira.SetTo(1)));
    assert p1.Keys == {"assignee", "customfield_12310940"};
    assert p1 == map["assignee" := name, "customfield_12310940" := Jira.Num(1)];
    var p2 := Jira.SetValuesPayload(Jira.Values(Some("assignee"), Some(3), Jira.Clear));
    assert p2.Keys == {"assignee", "customfield_12310243", "customfield_12310940"};
    assert p2 == map["assignee" := name, "customfield_12310243" := Jira.Num(3), "customfield_12310940" := Jira.Null];
  }

  lemma IssueUrlSnapshot()
    ensures Jira.GetIssueUrl(Tracker, "RHEL-1234") == "https://issues.redhat.com/browse/RHEL-1234"
  {
  }

  /** The shipped catalog has distinct ids and distinct names. */
  lemma CatalogDistinct()
    ensures forall i, j :: 0 <= i < j < |AvailableTasks| ==> AvailableTasks[i].id != AvailableTasks[j].id
    ensures forall i, j :: 0 <= i < j < |AvailableTasks| ==> AvailableTasks[i].name != AvailableTasks[j].name
  {
  }

  /** None of the catalog entries after DEV and QE starts checked. */
  lemma OptionalKindsUnchecked()
    ensures DefaultAnswer(AvailableTasks[2..]) == []
  {
    var c := AvailableTasks;
    assert DefaultAnswer(c[6..]) == [];
    assert DefaultAnswer(c[5..]) == [] by { assert c[5..][1..] == c[6..]; }
    assert DefaultAnswer(c[4..]) == [] by { assert c[4..][1..] == c[5..]; }
    assert DefaultAnswer(c[3..]) == [] by { assert c[3..][1..] == c[4..]; }
    assert c[2..][1..] == c[3..];
  }

  /** DEV and QE are the kinds checked at first, in that order. */
  lemma CatalogDefaults()
    ensures DefaultAnswer(AvailableTasks) == [39396, 39400]
  {
    var c := AvailableTasks;
    OptionalKindsUnchecked();
    assert DefaultAnswer(c[1..]) == [39400] by { assert c[1..][1..] == c[2..]; }
    assert c[1..] == c[0..][1..];
  }

  /** Every catalog name is painted by `colorTaskSchema`. */
  lemma CatalogStyled()
    ensures forall i :: 0 <= i < |AvailableTasks| ==> ColorTask(AvailableTasks[i].name).Styled?
  {
  }

  /** Each catalog id leads back to its own name. */
  lemma CatalogNames()
    ensures forall i :: 0 <= i < |AvailableTasks| ==>
      KindName(AvailableTasks, AvailableTasks[i].id) == AvailableTasks[i].name
  {
    CatalogDistinct();
    forall i | 0 <= i < |AvailableTasks|
      ensures KindName(AvailableTasks, AvailableTasks[i].id) == AvailableTasks[i].name
    {
      KindNameOfDistinct(AvailableTasks, i);
    }
  }

  const Email := "user@redhat.com"
  const Parent := Jira.Issue("RHEL-1234", "Story", "New", "summary", Some(Email), None)
  const DevTask := Jira.Issue("RHEL-2000", "Task", "New", "[DEV Task]: summary", None, None)
  const QeTask := Jira.Issue("RHEL-2001", "Task", "New", "[QE Task]: summary", None, None)

  /** The searched names of the two default kinds. */
  lemma DefaultKindNames()
    ensures KindNames(AvailableTasks, [39396, 39400]) == ["DEV Task", "QE Task"]
    ensures KindNames(AvailableTasks, [39396]) == ["DEV Task"]
  {
    var c := AvailableTasks;
    assert KindName(c, 39396) == "DEV Task";
    assert KindName(c[1..], 39400) == "QE Task";
    assert KindName(c, 39400) == "QE Task";
  }

  /** The example DEV task is not a QE task. */
  lemma DevTaskIsNotQE()
    ensures !IsQETask(DevTask)
  {
    MissingCharNotContained(DevTask.summary, QEMarker);
  }

  /** The example task titled after the QE kind is a QE task. */
  lemma QeTaskIsQE()
    ensures IsQETask(QeTask)
  {
    ContainsInfix("[", QEMarker, "]: summary");
    assert QeTask.summary == "[" + QEMarker + "]: summary";
  }

  /** A DEV-then-QE result yields exactly one update, for the DEV task,
      with the first answers. */
  lemma UpdatesOfPair(parent: Jira.Issue, source: int, dev: Jira.Issue, qe: Jira.Issue, d: seq<Decision>)
    requires !IsQETask(dev) && IsQETask(qe)
    ensures TaskUpdates(parent, source, [dev, qe], d, 0) == [TaskUpdate(parent, source, dev, DecisionAt(parent, d, 0))]
  {
    var tasks := [dev, qe];
    assert tasks[1..] == [qe];
    assert tasks[1..][1..] == [];
  }

  /** A single non-QE task yields exactly its own update. */
  lemma UpdatesOfSingle(parent: Jira.Issue, source: int, dev: Jira.Issue, d: seq<Decision>)
    requires !IsQETask(dev)
    ensures TaskUpdates(parent, source, [dev], d, 0) == [TaskUpdate(parent, source, dev, DecisionAt(parent, d, 0))]
  {
    assert [dev][1..] == [];
  }

  /** One sprint issue split into a DEV and a QE task, both found by the
      first search (as `DevTask` and `QeTask` would be): the QE task is left
      alone, the DEV task gets estimate 5, the parent's assignee and the
      sprint, and the parent is finalized. */
  lemma EndToEnd(dev: Jira.Issue, qe: Jira.Issue)
    requires !IsQETask(dev) && IsQETask(qe)
    ensures Run(Config(1, Some(Email)), AvailableTasks,
                Script(42, [Parent], [IssueScript([39396, 39400], [Some([dev, qe])], [Decision(5, true)])]))
      == [ListSprintIssues(42, Jira.SprintListing(Some(Email), true)),
          CreateTasks("RHEL-1234", [39396, 39400]),
          GetLinkedTasks("RHEL-1234", ["DEV Task", "QE Task"]),
          SetValues(dev.key, Jira.Values(Some(Email), Some(5), Jira.SetTo(42))),
          SetValues("RHEL-1234", FinalizeValues)]
  {
    var script := IssueScript([39396, 39400], [Some([dev, qe])], [Decision(5, true)]);
    var tasks := [dev, qe];
    DefaultKindNames();
    assert Response(script.polls, 0) == tasks;
    assert Poll(script.polls, 2, 0) == PollOutcome(1, tasks);
    UpdatesOfPair(Parent, 42, dev, qe, script.decisions);
    var calls := [CreateTasks("RHEL-1234", [39396, 39400]),
                  GetLinkedTasks("RHEL-1234", ["DEV Task", "QE Task"]),
                  SetValues(dev.key, Jira.Values(Some(Email), Some(5), Jira.SetTo(42))),
                  SetValues("RHEL-1234", FinalizeValues)];
    assert ProcessIssue(AvailableTasks, 42, Parent, script) == Step(calls, false);
    assert ProcessFrom(AvailableTasks, 42, [Parent], [script], 1) == [];
    assert ProcessFrom(AvailableTasks, 42, [Parent], [script], 0) == calls;
  }

  /** The example tasks meet the premise of `EndToEnd`. */
  lemma EndToEndExample()
    ensures Run(Config(1, Some(Email)), AvailableTasks,
                Script(42, [Parent], [IssueScript([39396, 39400], [Some([DevTask, QeTask])], [Decision(5, true)])]))[3]
      == SetValues("RHEL-2000", Jira.Values(Some(Email), Some(5), Jira.SetTo(42)))
  {
    DevTaskIsNotQE();
    QeTaskIsQE();
    EndToEnd(DevTask, QeTask);
  }

  /** An issue whose answer holds both SKIP and EXIT is skipped: the run
      goes on to the next issue. */
  lemma SkipBeatsExit()
    ensures Run(Config(1, None), AvailableTasks,
                Script(42, [Parent], [IssueScript([39396, Skip, Quit], [], [])]))
      == [ListSprintIssues(42, Jira.SprintListing(None, true))]
  {
    var script := IssueScript([39396, Skip, Quit], [], []);
    assert Skip in script.answer;
    assert ProcessIssue(AvailableTasks, 42, Parent, script) == Step([], false);
    assert ProcessFrom(AvailableTasks, 42, [Parent], [script], 1) == [];
    assert ProcessFrom(AvailableTasks, 42, [Parent], [script], 0) == [];
  }

  /** From the backlog a "yes" to the sprint writes no sprint. */
  lemma BacklogNeverSetsSprint(dev: Jira.Issue)
    requires !IsQETask(dev)
    ensures Run(Config(7, None), AvailableTasks,
                Script(Backlog, [Parent], [IssueScript([39396], [Some([dev])], [Decision(2, true)])]))
      == [ListBacklog(7, Jira.BacklogListing(None)),
          CreateTasks("RHEL-1234", [39396]),
          GetLinkedTasks("RHEL-1234", ["DEV Task"]),
          SetValues(dev.key, Jira.Values(Some(Email), Some(2), Jira.Unset)),
          SetValues("RHEL-1234", FinalizeValues)]
  {
    var script := IssueScript([39396], [Some([dev])], [Decision(2, true)]);
    var tasks := [dev];
    DefaultKindNames();
    assert Response(script.polls, 0) == tasks;
    assert Poll(script.polls, 1, 0) == PollOutcome(1, tasks);
    UpdatesOfSingle(Parent, Backlog, dev, script.decisions);
    var calls := [CreateTasks("RHEL-1234", [39396]),
                  GetLinkedTasks("RHEL-1234", ["DEV Task"]),
                  SetValues(dev.key, Jira.Values(Some(Email), Some(2), Jira.Unset)),
                  SetValues("RHEL-1234", FinalizeValues)];
    assert ProcessIssue(AvailableTasks, Backlog, Parent, script) == Step(calls, false);
    assert ProcessFrom(AvailableTasks, Backlog, [Parent], [script], 1) == [];
    assert ProcessFrom(AvailableTasks, Backlog, [Parent], [script], 0) == calls;
  }
}
