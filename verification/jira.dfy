/** The deterministic parts of the `Jira` facade of src/jira.ts: the query
    strings (JQL) it sends, the listing requests, the edit payloads it writes
    and the issue URL it prints. The HTTP client is not modelled: a call that
    would reach the tracker is described by the request or edit it carries. */
module Jira {
  import opened Common
  import opened Schema

  /** The tracker's field identifiers the facade reads and writes. */
  const AutomationField := "customfield_12316240"
  const AssigneeField := "assignee"
  const PriorityField := "priority"
  const SeverityField := "customfield_12316142"
  const SprintField := "customfield_12310940"
  const StoryPointsField := "customfield_12310243"

  /** The fields requested by both issue listings, in order. */
  const ListingFields: seq<string> :=
    ["id", "issuetype", "status", "summary", "assignee", "priority", "components",
     StoryPointsField, SeverityField]

  /** Listings return at most this many issues; there is no pagination. */
  const MaxResults := 500

  /** Issues not yet split into tasks, and of neither type Task nor type Epic. */
  const IssuesWithoutTasksJQL :=
    "issueFunction not in linkedIssuesOf(\"type = Task AND (summary ~ 'DEV Task' OR summary ~ 'QE Task')\") AND type not in (Task, Epic) AND project = \"RHEL\""

  /** The facade's configuration: the tracker's base URL and dry-run mode. */
  datatype Client = Client(instance: string, dry: bool)

  /** A read snapshot of a tracker issue, reduced to the fields the triage
      logic looks at. */
  datatype Issue = Issue(
    key: string,
    issueType: string,
    status: string,
    summary: string,
    assigneeEmail: Option<string>,
    storyPoints: Option<Size>)

  /** The JSON values that appear in edit payloads. */
  datatype Value = Null | Num(n: int) | Str(s: string) | Obj(members: map<string, Value>) | Arr(items: seq<Value>)

  /** One `editIssue` call: the issue and the fields it overwrites. */
  datatype Edit = Edit(issue: string, fields: map<string, Value>)

  /** What a facade call does: lines it logs and edits it sends. */
  datatype Effect = Effect(logs: seq<string>, edits: seq<Edit>)

  /** A listing request: the optional JQL filter, the cap and the fields. */
  datatype Listing = Listing(jql: Option<string>, maxResults: nat, fields: seq<string>)

  /** JavaScript truthiness of an optional string: present and non-empty. */
  predicate Given(s: Option<string>) {
    s.Some? && s.value != ""
  }

  function AssigneeClause(assignee: string): string {
    "assignee = \"" + assignee + "\""
  }

  // ---------------------------------------------------------------------
  // Listings

  /** The filter of `getIssuesInSprint`. Without an assignee the exclusion
      clause keeps its leading " AND ". */
  function SprintJQL(assignee: Option<string>, withoutTasks: bool): (jql: string)
    ensures Given(assignee) && withoutTasks ==>
      jql == AssigneeClause(assignee.value) + " AND " + IssuesWithoutTasksJQL
    ensures Given(assignee) && !withoutTasks ==> jql == AssigneeClause(assignee.value)
    ensures !Given(assignee) && withoutTasks ==> jql == " AND " + IssuesWithoutTasksJQL
    ensures !Given(assignee) && !withoutTasks ==> jql == ""
  {
    var byAssignee := if Given(assignee) then AssigneeClause(assignee.value) else "";
    byAssignee + (if withoutTasks then " AND " + IssuesWithoutTasksJQL else "")
  }

  /** The request of `getIssuesInSprint`. */
  function SprintListing(assignee: Option<string>, withoutTasks: bool): (r: Listing)
    ensures r.jql == Some(SprintJQL(assignee, withoutTasks))
    ensures r.maxResults == MaxResults && r.fields == ListingFields
  {
    Listing(Some(SprintJQL(assignee, withoutTasks)), MaxResults, ListingFields)
  }

  /** The request of `getBacklog`: an assignee filter or no filter at all. */
  function BacklogListing(assignee: Option<string>): (r: Listing)
    ensures r.jql.Some? <==> Given(assignee)
    ensures r.jql.Some? ==> r.jql.value == AssigneeClause(assignee.value)
    ensures r.maxResults == MaxResults && r.fields == ListingFields
  {
    Listing(if Given(assignee) then Some(AssigneeClause(assignee.value)) else None,
            MaxResults, ListingFields)
  }

  /** Both listings ask for the same fields with the same cap, and without
      the exclusion clause the sprint filter is the backlog filter (or empty). */
  lemma ListingsAgree(assignee: Option<string>)
    ensures SprintListing(assignee, true).fields == BacklogListing(assignee).fields
    ensures SprintListing(assignee, true).maxResults == BacklogListing(assignee).maxResults
    ensures SprintJQL(assignee, false) == BacklogListing(assignee).jql.GetOr("")
    ensures Given(assignee) ==>
      SprintJQL(assignee, true) == BacklogListing(assignee).jql.value + " AND " + IssuesWithoutTasksJQL
  {
  }

  // ---------------------------------------------------------------------
  // Linked-task search

  /** `summary ~ "\\[`: opens one summary clause (two backslashes). */
  const ClauseOpen := "summary ~ \"\\\\["
  /** `\\]: "`: closes one summary clause. */
  const ClauseClose := "\\\\]: \""
  /** The separator `composeTaskSummaryJQL` joins the names with. */
  const ClauseSeparator := "\\\\]: \" OR summary ~ \"\\\\["

  /** The clause matching summaries that contain `[name]: `. */
  function Clause(name: string): string {
    ClauseOpen + name + ClauseClose
  }

  function Clauses(names: seq<string>): (cs: seq<string>)
    ensures |cs| == |names|
    ensures forall i :: 0 <= i < |names| ==> cs[i] == Clause(names[i])
  {
    seq(|names|, i requires 0 <= i < |names| => Clause(names[i]))
  }

  /** `composeTaskSummaryJQL`: one template around the names joined by the
      separator. */
  function ComposeTaskSummaryJQL(names: seq<string>): string {
    ClauseOpen + Join(names, ClauseSeparator) + ClauseClose
  }

  lemma SeparatorSplits()
    ensures ClauseSeparator == ClauseClose + " OR " + ClauseOpen
  {
  }

  /** Regrouping a query whose separator closes one clause and opens the next. */
  lemma Regroup(open: string, head: string, close: string, or: string, rest: string)
    ensures open + (head + (close + or + open) + rest) + close
         == (open + head + close) + or + (open + rest + close)
  {
  }

  /** For one or more names the query is one clause per name, in input
      order, joined by " OR "; for no names it is the single clause of the
      empty name. */
  lemma {:induction false} ComposeIsDisjunction(names: seq<string>)
    ensures |names| >= 1 ==> ComposeTaskSummaryJQL(names) == Join(Clauses(names), " OR ")
    ensures |names| == 0 ==> ComposeTaskSummaryJQL(names) == Clause("")
    decreases |names|
  {
    if |names| == 0 {
    } else if |names| == 1 {
      assert Clauses(names) == [Clause(names[0])];
    } else {
      var rest := names[1..];
      ComposeIsDisjunction(rest);
      SeparatorSplits();
      assert Clauses(names)[1..] == Clauses(rest);
      calc {
        ComposeTaskSummaryJQL(names);
        ClauseOpen + (names[0] + ClauseSeparator + Join(rest, ClauseSeparator)) + ClauseClose;
        { Regroup(ClauseOpen, names[0], ClauseClose, " OR ", Join(rest, ClauseSeparator)); }
        (ClauseOpen + names[0] + ClauseClose) + " OR " + (ClauseOpen + Join(rest, ClauseSeparator) + ClauseClose);
        Clause(names[0]) + " OR " + ComposeTaskSummaryJQL(rest);
        Clause(names[0]) + " OR " + Join(Clauses(rest), " OR ");
        Join(Clauses(names), " OR ");
      }
    }
  }

  /** The empty query is a fixed clause with no disjunction in it. */
  lemma ComposeEmpty()
    ensures ComposeTaskSummaryJQL([]) == "summary ~ \"\\\\[\\\\]: \""
    ensures !Contains(ComposeTaskSummaryJQL([]), "OR")
  {
    var q := ComposeTaskSummaryJQL([]);
    assert q == "summary ~ \"\\\\[\\\\]: \"";
    MissingCharNotContained(q, "OR");
  }

  /** The JQL of `getlinkedTasks`. */
  function LinkedTasksJQL(issue: string, names: seq<string>): string {
    "issue in linkedIssues(\"" + issue + "\") AND type = Task AND status = New AND ("
      + ComposeTaskSummaryJQL(names) + ")"
  }

  /** Every expected name is searched for: the linked-task query contains
      the summary clause of each name it was given. */
  lemma LinkedTasksFindsEveryName(issue: string, names: seq<string>, i: nat)
    requires i < |names|
    ensures Contains(LinkedTasksJQL(issue, names), Clause(names[i]))
  {
    ComposeIsDisjunction(names);
    var cs := Clauses(names);
    if |names| == 1 {
      JoinContainsElement(cs, " OR ", 0);
    } else {
      JoinContainsElement(cs, " OR ", i);
    }
    var head := "issue in linkedIssues(\"" + issue + "\") AND type = Task AND status = New AND (";
    ContainsExtendLeft(head, Join(cs, " OR "), Clause(names[i]));
    ContainsExtendRight(head + Join(cs, " OR "), Clause(names[i]), ")");
  }

  /** The result of `getlinkedTasks`: a response without issues is empty. */
  function LinkedTasks(response: Option<seq<Issue>>): (tasks: seq<Issue>)
    ensures response.None? ==> tasks == []
    ensures response.Some? ==> tasks == response.value
  {
    response.GetOr([])
  }

  // ---------------------------------------------------------------------
  // Task creation

  /** `{id: String(id)}` for each kind id, in input order. */
  function KindRefs(ids: seq<int>): (refs: seq<Value>)
    ensures |refs| == |ids|
    ensures forall i :: 0 <= i < |ids| ==> refs[i] == Obj(map["id" := Str(IntToString(ids[i]))])
    decreases |ids|
  {
    if |ids| == 0 then []
    else [Obj(map["id" := Str(IntToString(ids[0]))])] + KindRefs(ids[1..])
  }

  /** The ids as the log lines print them. */
  function IdList(ids: seq<int>): string {
    Join(seq(|ids|, i requires 0 <= i < |ids| => IntToString(ids[i])), ", ")
  }

  /** `createTasks`: in dry mode a single notice and no edit; otherwise a
      notice and one edit of the parent whose only field is the automation
      field listing the kinds to create. */
  function CreateTasks(client: Client, issue: string, ids: seq<int>): (e: Effect)
    ensures client.dry ==> e.edits == []
    ensures client.dry ==> e.logs == ["Would create tasks: " + IdList(ids) + " for issue: " + issue]
    ensures !client.dry ==> e.logs == ["Creating tasks: " + IdList(ids) + " for issue: " + issue]
    ensures !client.dry ==> |e.edits| == 1 && e.edits[0].issue == issue
    ensures !client.dry ==> e.edits[0].fields.Keys == {AutomationField}
    ensures !client.dry ==> e.edits[0].fields[AutomationField].Arr?
    ensures !client.dry ==> |e.edits[0].fields[AutomationField].items| == |ids|
  {
    if client.dry then
      Effect(["Would create tasks: " + IdList(ids) + " for issue: " + issue], [])
    else
      Effect(["Creating tasks: " + IdList(ids) + " for issue: " + issue],
             [Edit(issue, map[AutomationField := Arr(KindRefs(ids))])])
  }

  /** Reads the kind ids back from the automation field's value. */
  function DecodeKindRefs(refs: seq<Value>): Option<seq<int>>
    decreases |refs|
  {
    if |refs| == 0 then Some([])
    else
      var head := refs[0];
      if head.Obj? && "id" in head.members && head.members["id"].Str?
         && ParseInt(head.members["id"].s).Some? then
        match DecodeKindRefs(refs[1..])
        case Some(rest) => Some([ParseInt(head.members["id"].s).value] + rest)
        case None => None
      else None
  }

  lemma {:induction false} KindRefsRoundTrip(ids: seq<int>)
    ensures DecodeKindRefs(KindRefs(ids)) == Some(ids)
    decreases |ids|
  {
    if |ids| > 0 {
      var refs := KindRefs(ids);
      var text := IntToString(ids[0]);
      assert refs[0].members["id"] == Str(text);
      IntToStringRoundTrip(ids[0]);
      KindRefsRoundTrip(ids[1..]);
      assert refs[1..] == KindRefs(ids[1..]);
      assert [ids[0]] + ids[1..] == ids;
    }
  }

  /** Outside dry mode the edit names exactly the requested kinds, in order. */
  lemma CreateTasksRoundTrip(client: Client, issue: string, ids: seq<int>)
    requires !client.dry
    ensures DecodeKindRefs(CreateTasks(client, issue, ids).edits[0].fields[AutomationField].items) == Some(ids)
  {
    KindRefsRoundTrip(ids);
  }

  // ---------------------------------------------------------------------
  // Field updates

  /** The sprint argument of `setValues`: absent (`undefined`), `null`, or
      a sprint id. */
  datatype SprintWrite = Unset | Clear | SetTo(id: int)

  /** The values argument of `setValues`. */
  datatype Values = Values(assignee: Option<string>, size: Option<Size>, sprint: SprintWrite)

  /** The `fields` object of the edit `setValues` sends. */
  function SetValuesPayload(v: Values): (p: map<string, Value>)
    ensures AssigneeField in p <==> Given(v.assignee)
    ensures Given(v.assignee) ==> p[AssigneeField] == Obj(map["name" := Str(v.assignee.value)])
    ensures StoryPointsField in p <==> v.size.Some?
    ensures v.size.Some? ==> p[StoryPointsField] == Num(v.size.value)
    ensures SprintField in p <==> !v.sprint.Unset?
    ensures v.sprint.Clear? ==> p[SprintField] == Null
    ensures v.sprint.SetTo? ==> p[SprintField] == Num(v.sprint.id)
    ensures p.Keys <= {AssigneeField, StoryPointsField, SprintField}
  {
    var assignee: map<string, Value> :=
      if Given(v.assignee) then map[AssigneeField := Obj(map["name" := Str(v.assignee.value)])] else map[];
    var storyPoints: map<string, Value> :=
      if v.size.Some? then map[StoryPointsField := Num(v.size.value)] else map[];
    var sprint: map<string, Value> :=
      match v.sprint
      case Unset => map[]
      case Clear => map[SprintField := Null]
      case SetTo(id) => map[SprintField := Num(id)];
    assignee + storyPoints + sprint
  }

  /** `setValues`: exactly one edit, whatever the dry-run mode. */
  function SetValues(client: Client, issue: string, v: Values): (e: Effect)
    ensures e.logs == []
    ensures e.edits == [Edit(issue, SetValuesPayload(v))]
  {
    Effect([], [Edit(issue, SetValuesPayload(v))])
  }

  /** What a payload says about each of the three fields. */
  function DecodeValues(p: map<string, Value>): Values {
    var assignee :=
      if AssigneeField in p && p[AssigneeField].Obj? && "name" in p[AssigneeField].members
         && p[AssigneeField].members["name"].Str?
      then Some(p[AssigneeField].members["name"].s) else None;
    var size :=
      if StoryPointsField in p && p[StoryPointsField].Num? && IsSize(p[StoryPointsField].n)
      then Some(p[StoryPointsField].n as Size) else None;
    var sprint :=
      if SprintField !in p then Unset
      else if p[SprintField].Null? then Clear
      else if p[SprintField].Num? then SetTo(p[SprintField].n)
      else Unset;
    Values(assignee, size, sprint)
  }

  /** The payload keeps everything but an empty assignee, which JavaScript
      treats as absent. */
  lemma SetValuesRoundTrip(v: Values)
    ensures DecodeValues(SetValuesPayload(v)) ==
      v.(assignee := if Given(v.assignee) then v.assignee else None)
  {
  }

  /** Clearing the sprint and leaving it untouched never send the same edit. */
  lemma ClearDiffersFromUnset(v: Values)
    ensures SetValuesPayload(v.(sprint := Clear)) != SetValuesPayload(v.(sprint := Unset))
  {
    assert SprintField in SetValuesPayload(v.(sprint := Clear));
  }

  // ---------------------------------------------------------------------
  // Links

  const BrowsePath := "/browse/"

  /** `getIssueURL`. */
  function GetIssueUrl(client: Client, issue: string): (url: string)
    ensures StartsWith(url, client.instance + BrowsePath)
    ensures url[|client.instance + BrowsePath|..] == issue
  {
    client.instance + BrowsePath + issue
  }

  /** The issue key a browse URL of this instance points at. */
  function IssueOfUrl(client: Client, url: string): Option<string> {
    var prefix := client.instance + BrowsePath;
    if StartsWith(url, prefix) then Some(url[|prefix|..]) else None
  }

  lemma IssueUrlRoundTrip(client: Client, issue: string)
    ensures IssueOfUrl(client, GetIssueUrl(client, issue)) == Some(issue)
  {
  }
}
