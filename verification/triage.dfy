/** The decision logic of `runProgram` in src/cli.ts: choose the source,
    list its issues, and for each issue ask which tasks to split it into,
    create them, poll until they appear, update each of them and finally
    take the parent out of the sprint with a zero estimate.

    The run is a pure function of scripted inputs (`Script`) to the sequence
    of facade calls it makes (`Call`). Prompts are answers in the script;
    the five-second pause between polls is a `Wait` call; `process.exit` is
    an `Exit` call that ends the trace. A script that runs out of answers
    stands for a user who accepts every default: the pre-checked kinds in
    the split prompt, the default estimate, and "yes" to the sprint. A
    script that runs out of poll responses stands for responses without
    issues. */
module Triage {
  import opened Common
  import opened Schema
  import Jira

  /** One entry of the split prompt: a kind of task the tracker's
      automation creates, by display name and automation id. */
  datatype TaskKind = TaskKind(name: string, id: int, checked: bool)

  /** The catalog `runProgram` offers, in prompt order. */
  const AvailableTasks: seq<TaskKind> := [
    TaskKind("DEV Task", 39396, true),
    TaskKind("QE Task", 39400, true),
    TaskKind("Upstream", 39395, false),
    TaskKind("Root Cause Analysis Task", 40950, false),
    TaskKind("Preliminary Testing Task", 39398, false),
    TaskKind("Integration Testing", 48270, false)
  ]

  /** The value of the SKIP entry of the split prompt. */
  const Skip := -1
  /** The value of the EXIT entry of the split prompt. */
  const Quit := -2
  /** The value of the Backlog entry of the source prompt. */
  const Backlog := -1
  /** The poll loop gives up after this many searches. */
  const MaxAttempts := 10
  /** Tasks whose summary contains this are not updated. */
  const QEMarker := "QE Task"
  /** The default estimate when the parent has none. */
  const FallbackEstimate: Size := 3

  /** A sprint of the board, as listed by `getSprints`. */
  datatype Sprint = Sprint(id: int, name: string, state: string)

  /** The configuration `runProgram` passes to the listings. */
  datatype Config = Config(board: int, assignee: Option<string>)

  /** The answers to the two prompts asked for each updated task. */
  datatype Decision = Decision(size: Size, addToSprint: bool)

  /** What happens while one issue is processed: the split answer, the
      successive raw responses of the linked-task search, and the answers
      for each updated task, in order. */
  datatype IssueScript = IssueScript(
    answer: seq<int>,
    polls: seq<Option<seq<Jira.Issue>>>,
    decisions: seq<Decision>)

  /** The whole run: the chosen source, the issues the listing returns and
      one script per issue, in listing order. */
  datatype Script = Script(source: int, fetched: seq<Jira.Issue>, perIssue: seq<IssueScript>)

  /** A facade call or process action, as the run issues it. */
  datatype Call =
    | ListSprintIssues(sprintId: int, request: Jira.Listing)
    | ListBacklog(board: int, request: Jira.Listing)
    | CreateTasks(issue: string, ids: seq<int>)
    | GetLinkedTasks(issue: string, names: seq<string>)
    | Wait
    | SetValues(issue: string, values: Jira.Values)
    | Exit(code: int)

  // ---------------------------------------------------------------------
  // Source and catalog

  /** The source prompt's default: the first sprint in the `future` state. */
  function DefaultSource(sprints: seq<Sprint>): (r: Option<int>)
    ensures r.None? <==> forall i :: 0 <= i < |sprints| ==> sprints[i].state != "future"
    ensures r.Some? ==>
      exists i :: 0 <= i < |sprints| && sprints[i].state == "future" && sprints[i].id == r.value
        && forall j :: 0 <= j < i ==> sprints[j].state != "future"
    decreases |sprints|
  {
    if |sprints| == 0 then None
    else if sprints[0].state == "future" then Some(sprints[0].id)
    else
      var r := DefaultSource(sprints[1..]);
      assert r.Some? ==>
        exists i :: 1 <= i < |sprints| && sprints[i].state == "future" && sprints[i].id == r.value
          && forall j :: 0 <= j < i ==> sprints[j].state != "future" by {
        if r.Some? {
          var i :| 0 <= i < |sprints[1..]| && sprints[1..][i].state == "future" && sprints[1..][i].id == r.value
            && forall j :: 0 <= j < i ==> sprints[1..][j].state != "future";
          assert forall j :: 1 <= j < i + 1 ==> sprints[j] == sprints[1..][j - 1];
        }
      }
      r
  }

  /** The listing call for the chosen source: the Backlog value lists the
      board's backlog, any other value the issues of that sprint. */
  function FetchCall(cfg: Config, source: int): (c: Call)
    ensures c.ListBacklog? <==> source == Backlog
    ensures c.ListBacklog? ==> c == ListBacklog(cfg.board, Jira.BacklogListing(cfg.assignee))
    ensures c.ListSprintIssues? ==> c == ListSprintIssues(source, Jira.SprintListing(cfg.assignee, true))
  {
    if source == Backlog then ListBacklog(cfg.board, Jira.BacklogListing(cfg.assignee))
    else ListSprintIssues(source, Jira.SprintListing(cfg.assignee, true))
  }

  /** The display name of the first catalog entry with this id, or "". */
  function KindName(catalog: seq<TaskKind>, id: int): (name: string)
    ensures (forall i :: 0 <= i < |catalog| ==> catalog[i].id != id) ==> name == ""
    ensures (exists i :: 0 <= i < |catalog| && catalog[i].id == id) ==>
      exists i :: 0 <= i < |catalog| && catalog[i].id == id && catalog[i].name == name
        && forall j :: 0 <= j < i ==> catalog[j].id != id
    decreases |catalog|
  {
    if |catalog| == 0 then ""
    else if catalog[0].id == id then catalog[0].name
    else
      var name := KindName(catalog[1..], id);
      assert (exists i :: 0 <= i < |catalog| && catalog[i].id == id) ==>
        exists i :: 1 <= i < |catalog| && catalog[i].id == id && catalog[i].name == name
          && forall j :: 0 <= j < i ==> catalog[j].id != id by {
        if exists i :: 0 <= i < |catalog| && catalog[i].id == id {
          var k :| 0 <= k < |catalog| && catalog[k].id == id;
          assert catalog[1..][k - 1].id == id;
          var i :| 0 <= i < |catalog[1..]| && catalog[1..][i].id == id && catalog[1..][i].name == name
            && forall j :: 0 <= j < i ==> catalog[1..][j].id != id;
          assert forall j :: 1 <= j < i + 1 ==> catalog[j] == catalog[1..][j - 1];
        }
      }
      name
  }

  /** In a catalog with distinct ids every entry's id leads back to its own
      name. */
  lemma KindNameOfDistinct(catalog: seq<TaskKind>, i: nat)
    requires i < |catalog|
    requires forall a, b :: 0 <= a < b < |catalog| ==> catalog[a].id != catalog[b].id
    ensures KindName(catalog, catalog[i].id) == catalog[i].name
  {
    var name := KindName(catalog, catalog[i].id);
    var j :| 0 <= j < |catalog| && catalog[j].id == catalog[i].id && catalog[j].name == name
      && forall a :: 0 <= a < j ==> catalog[a].id != catalog[i].id;
    assert j == i;
  }

  /** The names the poll searches for: one per chosen id, in answer order. */
  function KindNames(catalog: seq<TaskKind>, answer: seq<int>): (names: seq<string>)
    ensures |names| == |answer|
    ensures forall i :: 0 <= i < |answer| ==> names[i] == KindName(catalog, answer[i])
  {
    seq(|answer|, i requires 0 <= i < |answer| => KindName(catalog, answer[i]))
  }

  /** The ids the split prompt starts with checked, in catalog order. */
  function DefaultAnswer(catalog: seq<TaskKind>): seq<int>
    decreases |catalog|
  {
    if |catalog| == 0 then []
    else (if catalog[0].checked then [catalog[0].id] else []) + DefaultAnswer(catalog[1..])
  }

  /** The default answer holds exactly the ids of the pre-checked kinds, at
      most one per catalog entry. */
  lemma {:induction false} DefaultAnswerIsChecked(catalog: seq<TaskKind>)
    ensures forall id :: id in DefaultAnswer(catalog) ==> exists k :: k in catalog && k.checked && k.id == id
    ensures forall k :: k in catalog && k.checked ==> k.id in DefaultAnswer(catalog)
    ensures |DefaultAnswer(catalog)| <= |catalog|
    decreases |catalog|
  {
    if |catalog| > 0 {
      DefaultAnswerIsChecked(catalog[1..]);
      assert forall k :: k in catalog[1..] ==> k in catalog;
      assert forall k :: k in catalog ==> k == catalog[0] || k in catalog[1..];
    }
  }

  // ---------------------------------------------------------------------
  // Counting calls

  function Gets(calls: seq<Call>): nat
    decreases |calls|
  {
    if |calls| == 0 then 0 else (if calls[0].GetLinkedTasks? then 1 else 0) + Gets(calls[1..])
  }

  function Waits(calls: seq<Call>): nat
    decreases |calls|
  {
    if |calls| == 0 then 0 else (if calls[0].Wait? then 1 else 0) + Waits(calls[1..])
  }

  lemma {:induction false} CountsAppend(a: seq<Call>, b: seq<Call>)
    ensures Gets(a + b) == Gets(a) + Gets(b)
    ensures Waits(a + b) == Waits(a) + Waits(b)
    decreases |a|
  {
    if |a| > 0 {
      assert (a + b)[1..] == a[1..] + b;
      CountsAppend(a[1..], b);
    } else {
      assert a + b == b;
    }
  }

  // ---------------------------------------------------------------------
  // Polling for the created tasks

  /** The calls of a poll that searched `n` times: searches separated by
      waits, with no wait after the last search. */
  function PollCalls(issue: string, names: seq<string>, n: nat): (calls: seq<Call>)
    requires n >= 1
    ensures |calls| == 2 * n - 1 && calls[0] == GetLinkedTasks(issue, names)
    ensures forall c :: c in calls ==> c == GetLinkedTasks(issue, names) || c == Wait
    ensures forall k :: 0 <= k < |calls| ==>
      calls[k] == (if k % 2 == 0 then GetLinkedTasks(issue, names) else Wait)
    ensures calls[|calls| - 1] == GetLinkedTasks(issue, names)
    decreases n
  {
    if n == 1 then [GetLinkedTasks(issue, names)]
    else PollCalls(issue, names, n - 1) + [Wait, GetLinkedTasks(issue, names)]
  }

  /** A poll that searched `n` times waited `n - 1` times, and its last
      call is a search. */
  lemma {:induction false} PollCallsCount(issue: string, names: seq<string>, n: nat)
    requires n >= 1
    ensures Gets(PollCalls(issue, names, n)) == n
    ensures Waits(PollCalls(issue, names, n)) == n - 1
    ensures PollCalls(issue, names, n)[2 * n - 2] == GetLinkedTasks(issue, names)
    decreases n
  {
    if n > 1 {
      PollCallsCount(issue, names, n - 1);
      CountsAppend(PollCalls(issue, names, n - 1), [Wait, GetLinkedTasks(issue, names)]);
      var step := [Wait, GetLinkedTasks(issue, names)];
      assert step[1..] == [GetLinkedTasks(issue, names)] && step[1..][1..] == [];
      assert Gets(step[1..][1..]) == 0 && Waits(step[1..][1..]) == 0;
      assert Gets(step[1..]) == 1 && Waits(step[1..]) == 0;
      assert Gets(step) == 1 && Waits(step) == 1;
    } else {
      assert PollCalls(issue, names, n)[1..] == [];
    }
  }

  /** What the search returns on attempt `j` (counted from 0). */
  function Response(polls: seq<Option<seq<Jira.Issue>>>, j: nat): seq<Jira.Issue> {
    if j < |polls| then Jira.LinkedTasks(polls[j]) else []
  }

  /** How many searches a poll made and which tasks it kept. */
  datatype PollOutcome = PollOutcome(attempts: nat, tasks: seq<Jira.Issue>)

  /** The poll from attempt `attempt` on: it stops at the first response
      with at least `need` tasks, and after the last attempt it keeps the
      last response, however short. */
  function Poll(polls: seq<Option<seq<Jira.Issue>>>, need: nat, attempt: nat): (o: PollOutcome)
    requires attempt < MaxAttempts
    ensures attempt < o.attempts <= MaxAttempts
    ensures o.tasks == Response(polls, o.attempts - 1)
    ensures forall j :: attempt <= j < o.attempts - 1 ==> |Response(polls, j)| < need
    ensures o.attempts < MaxAttempts ==> need <= |o.tasks|
    decreases MaxAttempts - attempt
  {
    var tasks := Response(polls, attempt);
    if need <= |tasks| || attempt == MaxAttempts - 1 then PollOutcome(attempt + 1, tasks)
    else Poll(polls, need, attempt + 1)
  }

  /** The wait-for-tasks loop as `runProgram` runs it: search, and while
      the result is short and attempts remain, wait and search again. */
  method PollLinkedTasks(issue: string, names: seq<string>, need: nat, polls: seq<Option<seq<Jira.Issue>>>)
    returns (calls: seq<Call>, tasks: seq<Jira.Issue>)
    ensures 1 <= Gets(calls) <= MaxAttempts
    ensures Waits(calls) == Gets(calls) - 1
    ensures calls == PollCalls(issue, names, Gets(calls))
    ensures Poll(polls, need, 0) == PollOutcome(Gets(calls), tasks)
  {
    var attempt := 1;
    calls := [GetLinkedTasks(issue, names)];
    tasks := Response(polls, 0);
    while |tasks| < need && attempt < MaxAttempts
      invariant 1 <= attempt <= MaxAttempts
      invariant calls == PollCalls(issue, names, attempt)
      invariant tasks == Response(polls, attempt - 1)
      invariant Poll(polls, need, 0) == Poll(polls, need, attempt - 1)
      decreases MaxAttempts - attempt
    {
      calls := calls + [Wait, GetLinkedTasks(issue, names)];
      tasks := Response(polls, attempt);
      attempt := attempt + 1;
    }
    PollCallsCount(issue, names, attempt);
  }

  // ---------------------------------------------------------------------
  // Updating the created tasks

  predicate IsQETask(task: Jira.Issue) {
    Contains(task.summary, QEMarker)
  }

  /** Those tasks that get an update: all but QE tasks, in result order. */
  function NonQE(tasks: seq<Jira.Issue>): (kept: seq<Jira.Issue>)
    ensures forall t :: t in kept ==> t in tasks && !IsQETask(t)
    ensures forall t :: t in tasks && !IsQETask(t) ==> t in kept
    ensures |kept| <= |tasks|
    decreases |tasks|
  {
    if |tasks| == 0 then []
    else
      var rest := NonQE(tasks[1..]);
      assert forall t :: t in tasks ==> t == tasks[0] || t in tasks[1..];
      if IsQETask(tasks[0]) then rest else [tasks[0]] + rest
  }

  /** The estimate prompt's default: the parent's story points, else 3. */
  function EstimateDefault(parent: Jira.Issue): (s: Size)
    ensures parent.storyPoints.Some? ==> s == parent.storyPoints.value
    ensures parent.storyPoints.None? ==> s == FallbackEstimate
  {
    parent.storyPoints.GetOr(FallbackEstimate)
  }

  /** The answers for the `j`-th updated task; past the script, both
      prompts' defaults. */
  function DecisionAt(parent: Jira.Issue, decisions: seq<Decision>, j: nat): (d: Decision)
    ensures j < |decisions| ==> d == decisions[j]
    ensures j >= |decisions| ==> d == Decision(EstimateDefault(parent), true)
  {
    if j < |decisions| then decisions[j] else Decision(EstimateDefault(parent), true)
  }

  /** The sprint written to a task: the chosen sprint when the user says
      yes and the source is a sprint, otherwise left untouched. */
  function SprintFor(source: int, addToSprint: bool): (w: Jira.SprintWrite)
    ensures !w.Clear?
    ensures w.SetTo? <==> addToSprint && source != Backlog
    ensures w.SetTo? ==> w.id == source
  {
    if addToSprint && source != Backlog then Jira.SetTo(source) else Jira.Unset
  }

  /** The update of one task: the parent's assignee email, the chosen
      estimate and the sprint decision. */
  function TaskUpdate(parent: Jira.Issue, source: int, task: Jira.Issue, d: Decision): Call {
    SetValues(task.key, Jira.Values(parent.assigneeEmail, Some(d.size), SprintFor(source, d.addToSprint)))
  }

  /** The updates of the per-task loop; `asked` counts how many tasks were already
      updated, which selects the next answers. */
  function TaskUpdates(parent: Jira.Issue, source: int, tasks: seq<Jira.Issue>,
                       decisions: seq<Decision>, asked: nat): (calls: seq<Call>)
    ensures |calls| <= |tasks|
    ensures forall c :: c in calls ==> c.SetValues? && !c.values.sprint.Clear?
    decreases |tasks|
  {
    if |tasks| == 0 then []
    else if IsQETask(tasks[0]) then TaskUpdates(parent, source, tasks[1..], decisions, asked)
    else
      [TaskUpdate(parent, source, tasks[0], DecisionAt(parent, decisions, asked))]
        + TaskUpdates(parent, source, tasks[1..], decisions, asked + 1)
  }

  /** Each task but the QE tasks gets exactly one update, in result order,
      carrying the answers given for it. */
  lemma {:induction false} TaskUpdatesFollowNonQE(parent: Jira.Issue, source: int, tasks: seq<Jira.Issue>,
                                                  decisions: seq<Decision>, asked: nat)
    ensures |TaskUpdates(parent, source, tasks, decisions, asked)| == |NonQE(tasks)|
    ensures forall j :: 0 <= j < |NonQE(tasks)| ==>
      TaskUpdates(parent, source, tasks, decisions, asked)[j]
        == TaskUpdate(parent, source, NonQE(tasks)[j], DecisionAt(parent, decisions, asked + j))
    decreases |tasks|
  {
    if |tasks| > 0 {
      if IsQETask(tasks[0]) {
        TaskUpdatesFollowNonQE(parent, source, tasks[1..], decisions, asked);
      } else {
        TaskUpdatesFollowNonQE(parent, source, tasks[1..], decisions, asked + 1);
      }
    }
  }

  // ---------------------------------------------------------------------
  // One issue

  /** The parent's final write: estimate 0 and out of any sprint. */
  const FinalizeValues := Jira.Values(None, Some(0), Jira.Clear)

  /** The calls made for one issue, and whether the run exits there. */
  datatype Step = Step(calls: seq<Call>, exited: bool)

  /** The issue loop's body. SKIP is checked before EXIT; otherwise the
      tasks are created, polled for, updated, and the parent finalized. */
  function ProcessIssue(catalog: seq<TaskKind>, source: int, issue: Jira.Issue, script: IssueScript): (st: Step)
    ensures Skip in script.answer ==> st == Step([], false)
    ensures Skip !in script.answer && Quit in script.answer ==> st == Step([Exit(0)], true)
    ensures Skip !in script.answer && Quit !in script.answer ==>
      && !st.exited
      && |st.calls| >= 3
      && st.calls[0] == CreateTasks(issue.key, script.answer)
      && st.calls[|st.calls| - 1] == SetValues(issue.key, FinalizeValues)
      && st.calls[1] == GetLinkedTasks(issue.key, KindNames(catalog, script.answer))
  {
    if Skip in script.answer then Step([], false)
    else if Quit in script.answer then Step([Exit(0)], true)
    else
      var names := KindNames(catalog, script.answer);
      var poll := Poll(script.polls, |script.answer|, 0);
      var searches := PollCalls(issue.key, names, poll.attempts);
      var front := [CreateTasks(issue.key, script.answer)] + searches;
      assert front[1] == searches[0];
      var body := front + TaskUpdates(issue, source, poll.tasks, script.decisions, 0);
      assert body[1] == front[1];
      Step(body + [SetValues(issue.key, FinalizeValues)], false)
  }

  // ---------------------------------------------------------------------
  // The run

  /** The script of the `i`-th issue; past the script, the user accepts the
      pre-checked kinds and every poll response lacks issues. */
  function ScriptAt(catalog: seq<TaskKind>, perIssue: seq<IssueScript>, i: nat): IssueScript {
    if i < |perIssue| then perIssue[i] else IssueScript(DefaultAnswer(catalog), [], [])
  }

  /** The issue loop from the `i`-th issue on, stopping at an EXIT. */
  function ProcessFrom(catalog: seq<TaskKind>, source: int, issues: seq<Jira.Issue>,
                       perIssue: seq<IssueScript>, i: nat): seq<Call>
    decreases |issues| - i
  {
    if i >= |issues| then []
    else
      var st := ProcessIssue(catalog, source, issues[i], ScriptAt(catalog, perIssue, i));
      if st.exited then st.calls
      else st.calls + ProcessFrom(catalog, source, issues, perIssue, i + 1)
  }

  /** `runProgram` after the source prompt: list the issues of the source,
      exit at once when there are none, otherwise process them in order. */
  function Run(cfg: Config, catalog: seq<TaskKind>, s: Script): (trace: seq<Call>)
    ensures |trace| >= 1 && trace[0] == FetchCall(cfg, s.source)
    ensures |s.fetched| == 0 ==> trace == [FetchCall(cfg, s.source), Exit(0)]
  {
    [FetchCall(cfg, s.source)]
      + (if |s.fetched| == 0 then [Exit(0)]
         else ProcessFrom(catalog, s.source, s.fetched, s.perIssue, 0))
  }
}
