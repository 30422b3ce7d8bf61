# sprinter — a Dafny model of the triage core

`sprinter` (the `jira-sprinter` command) walks a Jira board's sprint or
backlog, issue by issue. For every issue the user picks task kinds
(DEV, QE, Upstream, …). The program:

- asks the Jira automation to create those tasks;
- polls for the created tasks;
- gives every non-QE task the parent's assignee, an estimate and, optionally,
  the sprint;
- finally drops the parent from its sprint with estimate 0.

This project models that core as pure Dafny functions and proves properties of it.

- `Common` (`common.dfy`): shared helpers.
  - `Option`.
  - The JavaScript string operations the core relies on: `join`, `includes`,
    and `String(n)` for integers with its inverse.
- `Schema` (`schema.dfy`): the validators and display classifiers of
  `src/schema/jira.ts`.
  - The estimate scale.
  - Estimate, task-name and status colours.
  - Issue-type icons.
  - The `RHEL-<digits>` key pattern.
  - Terminal colours and emoji are abstract values (`Style`, `Glyph`). The
    painted text is kept unchanged.
- `Jira` (`jira.dfy`): the deterministic part of the facade in `src/jira.ts`.
  - The custom-field ids.
  - The sprint and backlog listing requests, including their JQL.
  - The linked-task query built by `composeTaskSummaryJQL`.
  - The `createTasks` notice and edit payload, with its dry-run guard.
  - The three-state `setValues` payload: a sprint may be absent, `null` or an id.
  - `getIssueURL`.
  - An HTTP call is represented by the request or edit it would send.
- `Triage` (`triage.dfy`): the decision logic of `runProgram` in `src/cli.ts`.
  - Every user answer and every search response is an input, collected in a
    `Script`.
  - The run is a function from the script to the trace of calls it makes:
    listings, task creation, searches, waits, `setValues` and exit.
  - The poll loop is given twice: as a recursive function, and as a method
    whose loop is proved equal to it.
- `RunProperties` (`run_properties.dfy`): properties of whole runs.
  - Every processed issue gets exactly one creation and one final write.
  - Skipped issues get nothing.
  - An exit can only be the last call.
  - Only task creation is suppressed in dry-run mode.
- `Scenarios` (`scenarios.dfy`): the concrete strings and payloads of
  `test/unit/jira.test.ts`, the shipped task-kind catalog, and complete runs.

### Conventions of the model

- **Answers from an exhausted script.** When the script runs out of answers,
  each prompt takes its default:
  - the split prompt takes the pre-checked kinds;
  - the estimate prompt takes the parent's story points, or 3;
  - the sprint prompt takes "yes".
- **Exhausted poll responses.** Once the poll responses run out, every further
  response is empty.
- **Source.** The chosen source (a sprint id, or -1 for the backlog) is part of
  the script. The prompt's default is the separate function `DefaultSource`.
- **Dry-run mode.** It suppresses only the edit made by `createTasks`
  (src/jira.ts:134). `setValues` edits the tracker in dry-run mode as well.
  The model follows this code, and `RunProperties.WritesPerCall` states it.
- **The sprint filter without an assignee.** `getIssuesInSprint` still adds
  `" AND "` before the exclusion clause, so the filter starts with `" AND "`.
  The model keeps this (`Jira.SprintJQL`).
- **The Backlog entry.** It is offered as a disabled choice of the source
  prompt (src/cli.ts:68-72). The model still routes the value -1 to the
  backlog listing, because `runProgram` does (src/cli.ts:80-84).

## Model

| member | source | states |
|---|---|---|
| Common.IntToStringRoundTrip | src/jira.ts:146 | `String(id)` of every integer id is read back as that id, negative ids included. Integers are unbounded here (see Left out). |
| Schema.ScaleIsSizes | src/schema/jira.ts:4-12 | The accepted estimates are exactly 0, 1, 2, 3, 5, 8 and 13, and they are in strictly ascending order. |
| Schema.ColorSize | src/schema/jira.ts:14-33 | A number parses if and only if it is an accepted estimate. The number's own decimal text is then painted: gray exactly for 0, green exactly for 1 and 2, yellow for 3, bold yellow for 5, red for 8, bold red for 13. |
| Schema.SizeColorsEscalate | src/schema/jira.ts:5-11 | A larger estimate never gets a milder colour, under the model's own ranking of the colours from gray to bold red (`Schema.Severity`). The program never compares colours. |
| Schema.SizeColorsDistinguish | src/schema/jira.ts:14-33 | Two different estimates share a colour only when they are 1 and 2. |
| Schema.ColorTask | src/schema/jira.ts:37-54 | The six catalog names are painted: green for DEV, Upstream and Root Cause Analysis, yellow for QE, blue for the two testing kinds. Any other name is returned unchanged. The text is never altered. |
| Schema.IsIssueId | src/schema/jira.ts:56 | A key is valid if and only if it is `RHEL-` followed by one or more ASCII digits and nothing else. |
| Schema.IssueKeyOfNumber | src/schema/jira.ts:56 | `RHEL-` followed by the decimal form of any number is a valid key, and its number reads back unchanged. |
| Schema.IssueType | src/schema/jira.ts:60-81 | Task, Bug, Story and Epic become icons and nothing else does. Every other type name is shown as itself. |
| Schema.IssueTypeInjective | src/schema/jira.ts:60-81 | The four icons are pairwise distinct, and two different names that are not icons are shown as two different texts. In the model's abstract display values no two type names coincide. |
| Schema.IssueStatus | src/schema/jira.ts:83-107 | Cyan exactly for New and Planning, blue for In Progress, green for Integration and Release Pending. Any other status is returned unchanged. The text is never altered. |
| Jira.SprintJQL | src/jira.ts:66-67 | The four cases of the sprint filter: with or without an assignee clause, with or without `" AND "` plus the exclusion clause. Without an assignee the filter starts with `" AND "`. |
| Jira.SprintListing | src/jira.ts:61-86 | A sprint listing always sends its filter, a cap of 500 and the nine listing fields. |
| Jira.BacklogListing | src/jira.ts:88-110 | A backlog listing has a filter if and only if a non-empty assignee is given, and the filter is then the assignee clause. The cap and fields are the same as for a sprint listing. |
| Jira.ListingsAgree | src/jira.ts:66-107 | Without the exclusion clause, the sprint filter equals the backlog filter, or is empty when there is none. With an assignee, the sprint filter is the backlog filter followed by `" AND "` and the exclusion clause. |
| Jira.ComposeIsDisjunction | src/jira.ts:112-114 | For one or more names, the summary query is one `summary ~ "\\[name\\]: "` clause per name, in order, joined by `" OR "`. For no names it is the clause of the empty name. |
| Jira.ComposeEmpty | src/jira.ts:112-114 | The query for no names is exactly `summary ~ "\\[\\]: "` and contains no `OR`. |
| Jira.LinkedTasksFindsEveryName | src/jira.ts:116-118 | The linked-task search contains the summary clause of every expected name. |
| Jira.LinkedTasks | src/jira.ts:130 | A response without issues yields an empty list. Otherwise the response's issues are returned as they are. |
| Jira.KindRefs | src/jira.ts:146 | One `{id: String(id)}` object per requested kind, in request order. |
| Jira.CreateTasks | src/jira.ts:133-149 | In dry-run mode: a "Would create tasks" notice and no edit. Otherwise: a "Creating tasks" notice and exactly one edit of that issue, whose only field is the automation field, holding one entry per requested kind. |
| Jira.CreateTasksRoundTrip | src/jira.ts:141-148 | The automation payload decodes back to exactly the requested kind ids, in order. |
| Jira.SetValuesPayload | src/jira.ts:159-173 | The assignee field is present if and only if the assignee is a non-empty string, as `{name}`. Story points are present if and only if a size is given. The sprint field is absent for `undefined`, `null` for `null`, and the id otherwise. No other field is ever written. |
| Jira.SetValues | src/jira.ts:151-175 | Exactly one edit of the given issue with that payload, in dry-run mode too, and no notice. |
| Jira.SetValuesRoundTrip | src/jira.ts:159-173 | Decoding the payload gives back the values, except that an empty assignee is dropped. |
| Jira.ClearDiffersFromUnset | src/jira.ts:166-169 | Clearing the sprint (`null`) and leaving it alone (`undefined`) never produce the same edit. |
| Jira.GetIssueUrl | src/jira.ts:177-179 | The URL is the instance, then `/browse/`, then the key. |
| Jira.IssueUrlRoundTrip | src/jira.ts:177-179 | The key is recovered from the URL. |
| Triage.DefaultSource | src/cli.ts:74 | The default source is the id of the first sprint in state `future`. There is none exactly when no sprint is `future`. |
| Triage.FetchCall | src/cli.ts:79-84 | Source -1 lists the board's backlog. Any other source lists that sprint's issues, with the exclusion clause. |
| Triage.KindName | src/cli.ts:148-150 | The name searched for an id is the name of the first catalog entry with that id, or `""` when no entry has that id. |
| Triage.KindNameOfDistinct | src/cli.ts:148-150 | When catalog ids are distinct, every entry's id maps back to its own name. |
| Triage.KindNames | src/cli.ts:148-150 | One name per answered id, in answer order. |
| Triage.DefaultAnswerIsChecked | src/cli.ts:116-123 | The split prompt's default answer holds exactly the ids of the pre-checked kinds. |
| Triage.PollCalls | src/cli.ts:145-158 | A poll that searched n times made 2n-1 calls, alternating: searches at even positions, waits at odd ones. The first and the last call are searches, so no wait follows the last search. |
| Triage.PollCallsCount | src/cli.ts:145-158 | A poll with n searches has n-1 waits, and its last call is a search, not a wait. |
| Triage.Poll | src/cli.ts:145-158 | The poll makes at most 10 searches. It stops at the first response with at least as many tasks as kinds were requested, and every earlier response was shorter. It keeps the last response it got, even when that is the 10th and still short. |
| Triage.PollLinkedTasks | src/cli.ts:145-158 | The loop makes 1 to 10 searches with one wait fewer. Its calls and kept tasks are those of `Poll`. |
| Triage.NonQE | src/cli.ts:161-165 | A task is updated if and only if its summary does not contain `QE Task`. |
| Triage.EstimateDefault | src/cli.ts:200 | The estimate default is the parent's story points, or 3 when it has none. |
| Triage.DecisionAt | src/cli.ts:168-214 | Scripted answers are used in order. When they run out, both prompts take their defaults: the parent's estimate and "yes". |
| Triage.SprintFor | src/cli.ts:220-223 | The sprint is set if and only if the user says yes and the source is not the backlog, and then it is the chosen sprint. The sprint is never cleared. |
| Triage.TaskUpdates | src/cli.ts:161-225 | At most one `setValues` per task, none of which clears a sprint. |
| Triage.TaskUpdatesFollowNonQE | src/cli.ts:161-225 | The j-th update is for the j-th non-QE task and carries the j-th answers: the parent's assignee, the chosen estimate and the sprint decision. |
| Triage.ProcessIssue | src/cli.ts:132-230 | SKIP (-1) is checked before EXIT (-2). A skip makes no call. An exit makes only `Exit(0)`. Any other answer first creates tasks, then searches for them under their catalog names, and ends with the write of estimate 0 and a null sprint. |
| Triage.Run | src/cli.ts:79-89 | A run starts with the listing for the source. An empty listing is followed only by `Exit(0)`. |
| RunProperties.IssueCallsShape | src/cli.ts:141-230 | One issue's calls hold exactly one creation and one final write, both for that issue, n searches, n-1 waits and no exit. |
| RunProperties.ProcessedIssueShape | src/cli.ts:141-230 | A processed issue makes 1 to 10 searches and one wait fewer. An empty answer needs a single search. |
| RunProperties.ProcessFromHandles | src/cli.ts:96-138 | From any issue on, tasks are created and final writes made for exactly the handled issues. Handled issues are those in listing order, skipping SKIP answers and stopping at the first EXIT. |
| RunProperties.RunHandlesIssues | src/cli.ts:79-231 | Over a whole run, the issues with created tasks and the finalized issues are the same list: the handled issues. An exit can only be the last call, with code 0. |
| RunProperties.WritesPerCall | src/jira.ts:133-175 | The edits reaching the tracker are one per `setValues` plus one per task creation, and dry-run mode removes only the creations. |
| RunProperties.CreatedKindIsSearched | src/cli.ts:141-151 | Every requested kind that the catalog knows is searched for by its catalog name. |
| RunProperties.PollBounds | src/cli.ts:145-158 | If the first long-enough response is the k-th, the poll stops after k searches. If no response is long enough, it makes all ten searches and keeps the tenth response. |
| Scenarios.ComposeSnapshotOne | test/unit/jira.test.ts:157-159 | The query for `Upstream`, character for character. |
| Scenarios.ClauseSnapshots | test/unit/jira.test.ts:160-164 | The DEV and QE clauses, character for character. |
| Scenarios.ComposeSnapshotTwo | test/unit/jira.test.ts:160-164 | The query for DEV and QE is their two clauses joined by `" OR "`. |
| Scenarios.SprintListingSnapshot | test/unit/jira.test.ts:134-150 | The listing call for sprint 1 and assignee `assignee`, on any board: it lists sprint 1 with its filter, a cap of 500, and the nine fields with both custom-field ids. |
| Scenarios.SetValuesSnapshots | test/unit/jira.test.ts:167-195 | Both edits of the test, key for key, including the `null` sprint. |
| Scenarios.IssueUrlSnapshot | test/unit/jira.test.ts:197-201 | The browse URL of `RHEL-1234`. |
| Scenarios.CatalogDistinct | src/cli.ts:107-114 | Catalog ids are distinct, and catalog names are distinct. |
| Scenarios.CatalogDefaults | src/cli.ts:107-123 | The default answer is DEV then QE. |
| Scenarios.CatalogStyled | src/cli.ts:119-121 | Every catalog name gets a colour in the split prompt. |
| Scenarios.CatalogNames | src/cli.ts:148-150 | Every catalog id is searched under its own name. |
| Scenarios.EndToEnd | src/cli.ts:132-230 | A DEV and QE split found by the first search makes exactly five calls: listing, creation, one search, one update of the DEV task with the assignee, estimate 5 and the sprint, and the parent's final write. |
| Scenarios.SkipBeatsExit | src/cli.ts:132-138 | An answer holding both SKIP and EXIT skips the issue: the run goes on and makes no further call. |
| Scenarios.BacklogNeverSetsSprint | src/cli.ts:220-223 | From the backlog, a "yes" to the sprint prompt leaves the sprint of that task untouched. |

## Left out

- The HTTP clients, the constructor and `getVersion`/`getSprints`
  (src/jira.ts:22-59): responses enter the model as script values, and the
  sprint list is the input of `DefaultSource`.
- The `cli()` option parsing (src/cli.ts) and `src/main.ts`: command-line
  wiring with no decision logic.
- Terminal colours and emoji bytes: styles and icons are abstract values.
- The informational log lines of `runProgram`: the issue header, components,
  URL, "Waiting for tasks", "Dropping …" and "No issues found". Only the
  notices of `createTasks` are modelled.
- The 5-second wait and `process.exit`: they are the calls `Wait` and
  `Exit(0)`. No call follows an exit.
- Prompt layout: page sizes, looping, separators, and the disabled state of
  the Backlog choice.
- Triage.EstimateDefault: a parent story-point value off the estimate scale
  is not modelled, because parent story points are `Option<Size>`.
- Schema.IssueTypeInjective: icons are abstract `Glyph` values, so the model does not show that a type whose name is spelled like an icon's own characters prints exactly like the icon of Task, Bug, Story or Epic.
- Common.IntToStringRoundTrip: ids, sizes and sprint ids are unbounded integers, not JavaScript's double-precision numbers. So the model leaves out the exponent form that `String(n)` uses from 10^21 on, and the loss of precision beyond 2^53. The values the core handles are small catalog ids, estimates and sprint ids.
- The field list of the `getlinkedTasks` search (src/jira.ts:119-127): the search is modelled by its JQL only, as the call `GetLinkedTasks`. The tasks it returns are script values, so the fields Jira fills in are not modelled.
- The priority, severity and components fields: they are fetched but never
  used in a decision.
- The `Array.isArray` test and the non-null key assertions: responses are
  always lists, and keys are always strings.
- Jira's behaviour on the requests: whether an edit succeeds, and how the
  automation creates tasks.
- Jira.SetValuesRoundTrip: it covers only values the model can express; any
  other JSON value in the story-points field is read as absent.
