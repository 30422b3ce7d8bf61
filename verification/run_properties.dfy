/** Properties of a whole triage run: what one processed issue's calls look
    like, which issues get their tasks created and their final write, where
    an exit can appear, what reaches the tracker in dry-run mode, and that
    every created kind is searched for by its display name. */
module RunProperties {
  import opened Common
  import Jira
  import opened Triage

  /** The issues whose tasks were requested, in call order. */
  function Created(calls: seq<Call>): seq<string>
    decreases |calls|
  {
    if |calls| == 0 then []
    else (if calls[0].CreateTasks? then [calls[0].issue] else []) + Created(calls[1..])
  }

  /** The issues that received the final write (estimate 0, sprint cleared). */
  function Finalized(calls: seq<Call>): seq<string>
    decreases |calls|
  {
    if |calls| == 0 then []
    else
      var now := if calls[0].SetValues? && calls[0].values == FinalizeValues then [calls[0].issue] else [];
      now + Finalized(calls[1..])
  }

  /** The number of `setValues` calls. */
  function Updates(calls: seq<Call>): nat
    decreases |calls|
  {
    if |calls| == 0 then 0 else (if calls[0].SetValues? then 1 else 0) + Updates(calls[1..])
  }

  lemma {:induction false} SummariesAppend(a: seq<Call>, b: seq<Call>)
    ensures Created(a + b) == Created(a) + Created(b)
    ensures Finalized(a + b) == Finalized(a) + Finalized(b)
    ensures Updates(a + b) == Updates(a) + Updates(b)
    decreases |a|
  {
    if |a| > 0 {
      assert (a + b)[0] == a[0];
      assert (a + b)[1..] == a[1..] + b;
      SummariesAppend(a[1..], b);
    } else {
      assert a + b == b;
    }
  }

  /** Searches and waits add nothing to the summaries and no search or
      wait is counted among the updates. */
  lemma {:induction false} PollCallsQuiet(issue: string, names: seq<string>, n: nat)
    requires n >= 1
    ensures Created(PollCalls(issue, names, n)) == []
    ensures Finalized(PollCalls(issue, names, n)) == []
    decreases n
  {
    if n > 1 {
      var step := [Wait, GetLinkedTasks(issue, names)];
      PollCallsQuiet(issue, names, n - 1);
      SummariesAppend(PollCalls(issue, names, n - 1), step);
      assert step[1..] == [GetLinkedTasks(issue, names)] && step[1..][1..] == [];
      assert Created(step[1..]) == [] && Finalized(step[1..]) == [];
      assert Created(step) == [] && Finalized(step) == [];
    } else {
      assert PollCalls(issue, names, n)[1..] == [];
    }
  }

  /** Updates that never clear a sprint add no creation, final write,
      search or wait. */
  lemma {:induction false} UpdatesQuiet(updates: seq<Call>)
    requires forall c :: c in updates ==> c.SetValues? && !c.values.sprint.Clear?
    ensures Created(updates) == [] && Finalized(updates) == []
    ensures Gets(updates) == 0 && Waits(updates) == 0
    decreases |updates|
  {
    if |updates| > 0 {
      assert updates[0] in updates;
      assert forall c :: c in updates[1..] ==> c in updates;
      UpdatesQuiet(updates[1..]);
    }
  }

  /** The calls of a processed issue, whatever the poll and the updates:
      one creation first, the searches and waits, updates that never clear
      a sprint, and the final write last. */
  lemma IssueCallsShape(key: string, ids: seq<int>, names: seq<string>, n: nat, updates: seq<Call>)
    requires n >= 1
    requires forall c :: c in updates ==> c.SetValues? && !c.values.sprint.Clear?
    ensures var calls := [CreateTasks(key, ids)] + PollCalls(key, names, n) + updates + [SetValues(key, FinalizeValues)];
      && Created(calls) == [key]
      && Finalized(calls) == [key]
      && Gets(calls) == n
      && Waits(calls) == n - 1
      && forall c :: c in calls ==> !c.Exit?
  {
    var create := [CreateTasks(key, ids)];
    var polls := PollCalls(key, names, n);
    var finalize := [SetValues(key, FinalizeValues)];
    var front := create + polls;
    var body := front + updates;
    PollCallsQuiet(key, names, n);
    PollCallsCount(key, names, n);
    UpdatesQuiet(updates);
    assert Created(create) == [key] && Finalized(create) == [] by { assert create[1..] == []; }
    assert Gets(create) == 0 && Waits(create) == 0 by { assert create[1..] == []; }
    assert Created(finalize) == [] && Finalized(finalize) == [key] by { assert finalize[1..] == []; }
    assert Gets(finalize) == 0 && Waits(finalize) == 0 by { assert finalize[1..] == []; }
    SummariesAppend(create, polls);
    CountsAppend(create, polls);
    SummariesAppend(front, updates);
    CountsAppend(front, updates);
    SummariesAppend(body, finalize);
    CountsAppend(body, finalize);
  }

  /** A processed issue (neither SKIP nor EXIT chosen) yields exactly one
      task creation and exactly one final write, both for that issue, with
      one to ten searches and one wait fewer than searches in between, and
      no exit. An empty answer needs a single search. */
  lemma ProcessedIssueShape(catalog: seq<TaskKind>, source: int, issue: Jira.Issue, script: IssueScript)
    requires Skip !in script.answer && Quit !in script.answer
    ensures var st := ProcessIssue(catalog, source, issue, script);
      && Created(st.calls) == [issue.key]
      && Finalized(st.calls) == [issue.key]
      && 1 <= Gets(st.calls) <= MaxAttempts
      && Waits(st.calls) == Gets(st.calls) - 1
      && (script.answer == [] ==> Gets(st.calls) == 1)
      && forall c :: c in st.calls ==> !c.Exit?
  {
    var names := KindNames(catalog, script.answer);
    var poll := Poll(script.polls, |script.answer|, 0);
    var updates := TaskUpdates(issue, source, poll.tasks, script.decisions, 0);
    IssueCallsShape(issue.key, script.answer, names, poll.attempts, updates);
  }

  /** The keys of the issues the loop processes: listing order, skipping
      the SKIP answers and stopping at the first EXIT answer. */
  function Handled(catalog: seq<TaskKind>, issues: seq<Jira.Issue>, perIssue: seq<IssueScript>, i: nat): seq<string>
    decreases |issues| - i
  {
    if i >= |issues| then []
    else
      var answer := ScriptAt(catalog, perIssue, i).answer;
      if Skip in answer then Handled(catalog, issues, perIssue, i + 1)
      else if Quit in answer then []
      else [issues[i].key] + Handled(catalog, issues, perIssue, i + 1)
  }

  /** An exit, if any, is the last call and exits with code 0. */
  predicate ExitIsLast(trace: seq<Call>) {
    forall k :: 0 <= k < |trace| && trace[k].Exit? ==> k == |trace| - 1 && trace[k].code == 0
  }

  lemma {:induction false} ProcessFromHandles(catalog: seq<TaskKind>, source: int, issues: seq<Jira.Issue>,
                                             perIssue: seq<IssueScript>, i: nat)
    ensures Created(ProcessFrom(catalog, source, issues, perIssue, i)) == Handled(catalog, issues, perIssue, i)
    ensures Finalized(ProcessFrom(catalog, source, issues, perIssue, i)) == Handled(catalog, issues, perIssue, i)
    ensures ExitIsLast(ProcessFrom(catalog, source, issues, perIssue, i))
    decreases |issues| - i
  {
    if i < |issues| {
      var script := ScriptAt(catalog, perIssue, i);
      var st := ProcessIssue(catalog, source, issues[i], script);
      if st.exited {
        assert st.calls == [Exit(0)];
        assert Created(st.calls) == [] && Finalized(st.calls) == [];
      } else {
        var rest := ProcessFrom(catalog, source, issues, perIssue, i + 1);
        ProcessFromHandles(catalog, source, issues, perIssue, i + 1);
        SummariesAppend(st.calls, rest);
        if Skip in script.answer {
          assert st.calls == [];
          assert st.calls + rest == rest;
        } else {
          ProcessedIssueShape(catalog, source, issues[i], script);
          var t := st.calls + rest;
          assert forall k :: 0 <= k < |st.calls| ==> t[k] == st.calls[k];
          assert forall k :: |st.calls| <= k < |t| ==> t[k] == rest[k - |st.calls|];
        }
      }
    }
  }

  /** Over a whole run, the issues whose tasks are created and the issues
      that receive the final write are the same: exactly the processed
      issues, in listing order. An exit can only end the run. */
  lemma RunHandlesIssues(cfg: Config, catalog: seq<TaskKind>, s: Script)
    ensures Created(Run(cfg, catalog, s)) == Handled(catalog, s.fetched, s.perIssue, 0)
    ensures Finalized(Run(cfg, catalog, s)) == Handled(catalog, s.fetched, s.perIssue, 0)
    ensures ExitIsLast(Run(cfg, catalog, s))
  {
    var head := [FetchCall(cfg, s.source)];
    var t := Run(cfg, catalog, s);
    var tail := t[1..];
    assert t == head + tail;
    assert Created(head) == [] && Finalized(head) == [] by { assert head[1..] == []; }
    SummariesAppend(head, tail);
    if |s.fetched| > 0 {
      ProcessFromHandles(catalog, s.source, s.fetched, s.perIssue, 0);
    } else {
      assert tail == [Exit(0)];
      assert Created(tail) == [] && Finalized(tail) == [];
    }
    assert forall k :: 1 <= k < |t| ==> t[k] == tail[k - 1];
  }

  /** The edits that reach the tracker when the run's calls go through the
      facade. */
  function Writes(client: Jira.Client, calls: seq<Call>): seq<Jira.Edit>
    decreases |calls|
  {
    if |calls| == 0 then []
    else
      var now :=
        match calls[0]
        case CreateTasks(issue, ids) => Jira.CreateTasks(client, issue, ids).edits
        case SetValues(issue, values) => Jira.SetValues(client, issue, values).edits
        case _ => [];
      now + Writes(client, calls[1..])
  }

  /** Every `setValues` call edits the tracker, in dry-run mode too; only the
      task-creation edit is suppressed by dry-run mode. */
  lemma {:induction false} WritesPerCall(client: Jira.Client, calls: seq<Call>)
    ensures |Writes(client, calls)| == Updates(calls) + (if client.dry then 0 else |Created(calls)|)
    decreases |calls|
  {
    if |calls| > 0 {
      WritesPerCall(client, calls[1..]);
    }
  }

  /** Every kind the run asks the automation to create is searched for by
      its catalog name, so a created task can be found again. */
  lemma CreatedKindIsSearched(catalog: seq<TaskKind>, issue: string, answer: seq<int>, i: nat)
    requires i < |answer|
    requires exists j :: 0 <= j < |catalog| && catalog[j].id == answer[i]
    ensures exists j :: 0 <= j < |catalog| && catalog[j].id == answer[i] &&
                        Contains(Jira.LinkedTasksJQL(issue, KindNames(catalog, answer)), Jira.Clause(catalog[j].name))
  {
    var names := KindNames(catalog, answer);
    Jira.LinkedTasksFindsEveryName(issue, names, i);
    assert names[i] == KindName(catalog, answer[i]);
  }

  /** When no response is ever long enough the poll makes all ten searches
      and keeps the tenth response; when the first long-enough response is
      the `k`-th, it stops there. */
  lemma PollBounds(polls: seq<Option<seq<Jira.Issue>>>, need: nat, k: nat)
    requires k < MaxAttempts
    requires forall j :: 0 <= j < k ==> |Response(polls, j)| < need
    ensures need <= |Response(polls, k)| ==> Poll(polls, need, 0) == PollOutcome(k + 1, Response(polls, k))
    ensures k == MaxAttempts - 1 ==> Poll(polls, need, 0) == PollOutcome(MaxAttempts, Response(polls, k))
  {
  }
}
