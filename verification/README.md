# Execution accelerator: a verified model

The execution accelerator takes a vulnerability ticket, works through the affected repositories one
by one, remediates each (a direct version bump, a managed override, or a bounded code migration),
validates the result, retries or escalates failures, asks humans at two gates, and publishes a
branch, a pull request and a Jira comment. This project models the workflow and the algorithms it
rests on, and proves what every run of it keeps.

**The workflow.** `Workflow` gives the 24 nodes, the routers and the declared edges of the LangGraph
graph. A `Config` is a node, the state, the log of external effects, the queue intake produced and a
step counter; a `Move` is the execution of one node, whatever the adapters answer (`Input`), or the
resumption of a paused run with an approver's decision. A violated `require_state_*` check, an index
into an empty queue, a missing workspace or an undeclared edge ends in a `Fault`. `Trace` states what
a log may contain without looking at the state (`Justified`). `Invariant` is the inductive
invariant, `Preservation` and `Steps` prove it kept by every move, `Runs` draws the consequences for
all runs. `Failures` says when a retry is scheduled and what a failed delivery is called;
`Invocations` and `Limits` give the length of the longest run exactly; `Isolation` and `Composition`
prove that a run over a queue is the sequential composition of runs over one repository each; `Lanes`
shows that no repository is edited by two lanes, `Tags` and `Answers` follow the tags intake was given
and the answers of the adapters to what is done to a repository, and `Attempts` plays the lanes and
rollbacks of a run on a workspace, in either execution mode; they rest on `Changes`, which says what one
node can change. `Nodes` holds the nodes that have steps of their own (loops,
copied lists, a delivery that may break off) written as the code writes them, and `Thread` the graph
that executes them: a checkpoint updated in place, one node at a time, and an adapter whose journal is
what really happened outside.

**Failure handling.** `Verdicts` holds the four readings of a validation result (error code,
recoverable flag, classification, retry); `LiveValidation` the live adapter's checks and verdict;
`Rollback` the scaffold's edits to a workspace, what the live rollback restores, and when the second
would undo the first.

**Algorithms.** `VersionOrder`, `VersionLaws`, `VersionRange` and `FixVersion` (version comparison, what
it says of version texts, Maven range syntax, choice of the fix), `JavaRewrite`, `RewriteCall`,
`RewriteLaws`, `RewriteErasure`, `RewriteStep`, `RewriteSites` and `RewriteTwice` (the constructor
rewriter), `SymbolMapper` (similarity scores and parameter lists), `PomUpsert` (POM updates).

## What turned out not to hold as one would expect

- The graph is invoked with a recursion limit of 64. The longest invocation over n repositories
  executes exactly 7 + n (9 + 5 R) nodes, R being the retries the budgets leave, so with the default
  budgets the limit is safe if and only if there are at most two repositories
  (`Limits.DefaultLimitExactly`). Even an undisturbed run executes 5 + 9 n.
- A failed check whose name mentions both "test" and "compile" is marked recoverable and yet never
  retried; the exact condition is in `Verdicts.RetryableResultExactly`. The live adapter builds no
  such check, so for its results the readings agree (`LiveValidation.LiveRetryExactly`).
- `pick_lowest_fix_version` enumerates a set. Its answer depends on the enumeration exactly when two
  different spellings of the lowest fix compare equal (`FixVersion.AnswerUniqueExactly`), as 2.0 and
  2.0.0 do.
- A version with an unknown word, such as `2.0.jre8`, is below every version that continues the same
  prefix with a number, a known qualifier or nothing, whatever follows the word
  (`VersionOrder.UnknownWordIsLowest`, `VersionOrder.DriverVersionIsBelow`).
- A range whose closing bracket is missing is not refused: it is read without its last character, so that
  `[1.0,2.01` means from 1.0 up to, not including, 2.0 (`VersionRange.UnclosedLosesLastCharacter`).
- A retry need not start from the files the first attempt found. One execution mode holds for all
  adapters of a run. The fixture rollback only reads a report, so in fixture mode a retry finds the
  files as the failed lane left them (`Attempts.ScaffoldIsNotUndone`); for the POM lanes this is
  harmless (`Attempts.FixturePomRetriesAgree`). In live mode the POM lanes run recipes over the whole
  workspace but report one POM, and only that one is restored, so the edit to a module's POM stays
  (`Attempts.ModuleEditIsNotUndone`). The exact condition is in `Attempts.RetriesStartTheSameExactly`.
- As two functions, the live rollback undoes the scaffold exactly when the touched files were as HEAD
  has them (`Rollback.RollbackInvertsScaffold`). The workspace directory itself is resolved when the
  configuration is read; but when a directory below it is a link that was there before (a linked ticket
  directory is accepted by `mkdir(exist_ok=True)`), the planned files, reported by resolved path, would
  be skipped and keep their edits (`Rollback.LinkedWorkspaceKeepsPlannedEdits`, with the example
  `Rollback.LinkedTicketDirectory`). No configured run calls both: the scaffold needs fixture mode, the
  rollback that restores files needs live mode.
- The constructor rewriter moves its cursor backwards when a rewritten call lies inside another one of
  the same spelling. The parenthesis balance is kept, and the inserted factory calls can be erased
  again, exactly when the input holds no such call (`RewriteTwice.RewriteExactly`): `new A(new A())`
  loses its balance (`RewriteTwice.NestedCallLosesBalance`). For a class in a package, rewriting again
  changes nothing in exactly the same case (`RewriteTwice.RewriteIsIdempotent`); for one without, both
  passes look for the same name, and it may change nothing although calls nest
  (`RewriteTwice.PlainNameMaySettle`).
- A license list that names the GPL by its short name also matches every text that spells out the LGPL
  or the AGPL, since their names end alike (`LiveValidation.GplMatchesItsRelatives`); the exact condition
  is in `LiveValidation.MatchesExactly`.
- Capping the best symbol candidate leaves it in first place even when the runner-up is now better
  (`SymbolMapper.ReconcileKeepsOrderExactly`, with the example `SymbolMapper.CappedBestStaysFirst`).
- `_split_top_level` drops an empty last parameter (`SymbolMapper.SplitUndoesJoin`), and with it a
  trailing comma outside `<...>`, and nothing else (`SymbolMapper.JoinUndoesSplit`).

## Model

| member | source | states |
|---|---|---|
| Steps.StepKeeps | src/execution_accelerator/graph/builder.py:150-243 | every move from a configuration satisfying the invariant leads to one satisfying it; the invariant includes the absence of faults, the justified log and the step bound |
| Steps.ReachableHolds | src/execution_accelerator/graph/builder.py:277-337 | the invariant holds in every configuration reachable from the bootstrap by any adapter answers and approver decisions |
| Runs.NoFault | src/execution_accelerator/graph/builder.py:155-242 | no reachable state violates a node's required state, pops an empty queue, misses a workspace, or makes a router answer with an undeclared edge |
| Runs.SafeHistory | src/execution_accelerator/graph/builder.py:493-541 | every log of every run is justified entry by entry, by a specification that never looks at the state |
| Runs.GateSafety | src/execution_accelerator/graph/builder.py:493-541 | a lane runs only if policy allowed this repository and any approval asked for was granted for this stage and repository; the complex lane is planned and run only with a remediation approval; publication only after a passing latest verdict, with any delivery approval asked for, never in a dry run, never after completion |
| Runs.LaneMatchesVerdicts | src/execution_accelerator/nodes/verification.py:202-246 | in every reachable state about to run a lane, retried or not, both verdicts are verified and the lane is the one they call for: complex if and only if high risk, override if and only if transitive and not high risk |
| Runs.OnlyTrustedIsPublished | src/execution_accelerator/graph/builder.py:471-527 | validation, publication and skipping are reached only with both verdicts verified |
| Answers.StateRecallsAnswers | src/execution_accelerator/nodes/verification.py:60-200 | over whole runs: the verdicts, the preflight outcome and the validation result in the state are the latest answers the adapters gave about the repository at hand |
| Answers.LaneFollowsAnswers | src/execution_accelerator/nodes/verification.py:202-246 | over whole runs, whatever is retried: a lane runs only when the latest advisory and Maven answers about the repository are both verified, and it is the complex one if and only if they say high risk, the override if and only if they say transitive and not high risk |
| Answers.OnlyTrustedGoesOn | src/execution_accelerator/graph/builder.py:471-527 | nothing is validated, published or skipped for a repository unless its latest advisory and Maven answers are both verified |
| Answers.PolicyFollowsAnswers | src/execution_accelerator/graph/builder.py:493-498 | over whole runs: after policy, a repository whose target has a blocked tag has ended failed; one that is not verified or is high risk, has a watched tag, or is transitive where the configuration says so, waits for approval; any other goes to the lane its answers call for |
| Answers.ValidationDecides | src/execution_accelerator/graph/builder.py:509-527 | after every validation of every run: a failed answer is handled; otherwise a dry run skips, policy may ask for delivery approval, and else publication follows |
| Answers.RetryFollowsAnswers | src/execution_accelerator/nodes/classify_failure.py:12-80 | over whole runs: after a failed validation, the lane the answers call for runs again if and only if all failed checks of the latest validation answer are test or transient scan failures, the first of them is transient or not also a compile check, and budget remains; otherwise the failure is escalated |
| Runs.AttemptsStartClean | src/execution_accelerator/nodes/classify_failure.py:33-80 | every attempt of a lane starts without modified files, preflight or rollback of an earlier one, with no lane on the log that has no rollback recorded after it, and a repeated one only after a failed verdict |
| Trace.PublishingIsLive | src/execution_accelerator/graph/builder.py:509-527 | nothing is published in a dry run |
| Runs.EffectsAtMostOnce | src/execution_accelerator/nodes/delivery.py:31-69 | no branch, pull request, Jira completion or repository completion happens twice for a repository, across all retries, and a completed repository is never touched again |
| Trace.AtMostOnce | src/execution_accelerator/nodes/delivery.py:31-69 | no justified log repeats an external effect |
| Trace.CompletedIsFinal | src/execution_accelerator/nodes/delivery.py:71-79 | no justified log mentions a repository after its completion |
| Trace.CompletionIsOrdered | src/execution_accelerator/nodes/delivery.py:31-69 | outside dry runs a completion is preceded, in this order, by a branch, a pull request and a Jira completion |
| Runs.CompletedWasDelivered | src/execution_accelerator/nodes/delivery.py:31-79 | every repository on the completed list of a reachable live state had each effect, in order |
| Runs.QueueConservation | src/execution_accelerator/nodes/delivery.py:283-329 | completed followed by the distinct pending repositories is always the distinct initial queue, completed has no duplicates, and the working repository is the head of the queue |
| Runs.StepsBounded | src/execution_accelerator/nodes/classify_failure.py:15-48 | however often it is resumed, a run over n distinct repositories executes at most 7 + n (12 + 5 R) nodes, R being min(max retries, max total attempts - 1) or 0 |
| Runs.OneRepositoryFitsTheLimit | src/execution_accelerator/persistence.py:26-32 | with the default budgets one repository takes at most 34 executions, below the recursion limit |
| Limits.SmoothRunLength | src/execution_accelerator/persistence.py:26-32 | an undisturbed run over n repositories executes exactly 5 + 9 n nodes |
| Invocations.InvocationSpends | src/execution_accelerator/graph/builder.py:150-243 | every node execution lowers the number an invocation has left, counted over repositories, retries and nodes |
| Invocations.InvocationBound | src/execution_accelerator/graph/builder.py:277-337 | whatever the adapters answer, one invocation from any reachable configuration executes at most 7 + n (9 + 5 R) nodes |
| Limits.WorstRun | src/execution_accelerator/persistence.py:26-32 | the bound is met for every list of untagged repositories: tests fail as often as the budgets allow, once more for the last one |
| Limits.LimitExactly | src/execution_accelerator/persistence.py:26-32 | for all budgets and any limit, no invocation over n repositories goes over the limit if and only if 7 + n (9 + 5 R) does not |
| Limits.DefaultLimitExactly | src/execution_accelerator/persistence.py:26-32 | with the default budgets no invocation over n repositories goes over 64 if and only if n is at most 2 |
| Limits.DefaultRunExactly | src/execution_accelerator/persistence.py:26-32 | the same for whole runs, all invocations of a thread taken together |
| Runs.RetryBudget | src/execution_accelerator/nodes/classify_failure.py:15-48 | the retry count stays within both budgets and equals the total attempts in every state, ends included, but those of an escalation |
| Runs.EndsInOneWay | src/execution_accelerator/graph/builder.py:471-549 | a run that ended is exactly one of completed (with no error, classification, retry or request left), escalated, blocked by policy, awaiting approval, or stopped on an approved unknown route; it awaits approval if and only if it can be resumed |
| Runs.NeverStuck | src/execution_accelerator/graph/builder.py:150-243 | no run gets stuck: every reachable configuration can execute a node, waits for an approval, or has ended |
| Runs.AuditGrows | src/execution_accelerator/state.py:224 | over whole runs: no audit event is removed or changed, and every executed node, and the gate of every decision given, adds its own events, for the repository at hand and with the decision it saw |
| Runs.AuditIsPrefix | src/execution_accelerator/state.py:224 | along every run, earlier audit lists are prefixes of later ones |
| Runs.DataIsOwned | src/execution_accelerator/nodes/delivery.py:313-368 | before the next repository starts all repository data is reset, and while one is worked on every datum held belongs to it |
| Isolation.StartsAfresh | src/execution_accelerator/nodes/delivery.py:313-368 | the continuation update and intake leave exactly the initial state with the remaining queue, in every field a run depends on |
| Isolation.TickAlike | src/execution_accelerator/graph/builder.py:150-243 | two runs that agree on the head of their queues execute the same nodes with the same effects, whatever else is queued or done |
| Composition.SequentialComposition | src/execution_accelerator/nodes/delivery.py:313-368 | every run over a queue is the sequential composition of runs over one repository each, started from scratch, in queue order, and its log is the concatenation of theirs |
| Composition.RunComposes | src/execution_accelerator/graph/builder.py:150-243 | the same for every run from the bootstrap on |
| Preservation.FailedDeliveryIsIncomplete | src/execution_accelerator/nodes/delivery.py:31-69 | from a state with ordered stages and no Jira completion, delivery fails if and only if its last stage is missing, and the stages stay ordered |
| Failures.RetryScheduledExactly | src/execution_accelerator/nodes/classify_failure.py:12-80 | after every failed validation of every run, the lane runs again if and only if all failed checks are test or transient scan failures, the first of them is transient or not also a compile check, and budget remains; otherwise the failure is escalated |
| Failures.LiveRetryScheduledExactly | src/execution_accelerator/nodes/classify_failure.py:12-80 | for the checks of the live adapter: if and only if some check failed, every failed one is a test or transient scan failure, and budget remains |
| Failures.DeliveryRetryScheduledExactly | src/execution_accelerator/nodes/classify_failure.py:12-80 | after every failed delivery of every run, publication runs again if and only if the error is recoverable and budget remains; otherwise it is escalated |
| Failures.DeliverExactly | src/execution_accelerator/nodes/delivery.py:31-69 | each stage not done is called with its own answer, in order, up to the first call that fails; exactly the stages done are on the log, and the failing call decides the error |
| Failures.DeliveryFollowsAnswers | src/execution_accelerator/graph/builder.py:544-549 | after every publication of every run: when a call fails, publication runs again if and only if that call's error is recoverable and budget remains, and is escalated otherwise; when none fails, the next repository starts, or the run ends |
| Failures.DeliveryCodeNamesStage | src/execution_accelerator/nodes/delivery.py:193-243 | in every run, the code of a failed delivery names the first stage not done and is never the fallback |
| Failures.FallbackCodeIsNeverUsed | src/execution_accelerator/nodes/delivery.py:232-243 | no reachable state holds an error with the fallback code |
| Lanes.OneLanePerRepository | src/execution_accelerator/nodes/classify_failure.py:33-80 | over whole runs, whatever is retried: no repository is edited by two lanes, and the lane that edited the repository at hand is the one its route names |
| Tags.WorkspacesCarryTags | src/execution_accelerator/nodes/intake.py:124-159 | over whole runs: every repository intake queued is worked on with the tags of the last target of its name that was not skipped |
| Tags.PolicySeesTags | src/execution_accelerator/policy/engine.py:28-50 | over whole runs: policy lets a repository through if and only if no tag of that target is blocked, and then asks for approval if and only if the route or the configuration does, or one of those tags is watched |
| Tags.TagsGovern | src/execution_accelerator/graph/builder.py:493-506 | over whole runs: no lane is planned or run and nothing is published or skipped for a repository whose target has a blocked tag, nor, before remediation was granted for it, for one whose target has a watched tag |
| Tags.SomeTargetStands | src/execution_accelerator/nodes/intake.py:124-159 | such a target exists for every repository a run works on |
| Attempts.AttemptsComeInRounds | src/execution_accelerator/nodes/validation.py:71-123 | over whole runs, played on a workspace in either mode, each rollback with the plan the node recorded: between attempts the files are what the rounds of a lane and its rollback made of the start, and while an attempt is judged they are what its lane made of that |
| Attempts.RollbackHoldsReport | src/execution_accelerator/nodes/validation.py:88-92 | over whole runs: after a failed validation is handled, the rollback plan holds exactly the files the latest lane execution for this repository reported |
| Attempts.AttemptStartsFromRounds | src/execution_accelerator/nodes/classify_failure.py:33-80 | over whole runs: whenever a lane is about to run, first or again, its workspace holds what exactly as many rounds as it was tried made of the files the run found |
| Attempts.RoundExactly | src/execution_accelerator/adapters/validation.py:228-301 | a failed attempt gives back the files it found if and only if, in live mode, the POM was as HEAD has it and the recipe changed no other file; in fixture mode, the lane changed nothing |
| Attempts.RetriesStartTheSameExactly | src/execution_accelerator/nodes/classify_failure.py:33-80 | over whole runs: the first retry finds the files of the first attempt if and only if that condition holds of them, and then so does every later retry |
| Attempts.ModuleEditIsNotUndone | src/execution_accelerator/adapters/pom.py:112-151 | a live recipe that edits the POM and a module POM, both as HEAD has them: after the rollback the module keeps its edit |
| Attempts.ScaffoldIsNotUndone | src/execution_accelerator/adapters/validation.py:248-256 | a scaffold in fixture mode that edits a file that was as HEAD has it: after the rollback the edit is still there |
| Attempts.FixturePomRetriesAgree | src/execution_accelerator/adapters/pom.py:86-110 | over whole runs in fixture mode: every retry of a POM lane finds the files the first attempt left and leaves them so |
| Attempts.FailedAttempt | src/execution_accelerator/nodes/validation.py:71-123 | a lane and its rollback, carried out on the workspace, compute one round, or stop at a bad scaffold target |
| Thread.GraphThread.constructor | src/execution_accelerator/graph/builder.py:277-337 | a new thread is at the start, satisfies the invariant, and its adapter has done nothing |
| Thread.GraphThread.Execute | src/execution_accelerator/graph/builder.py:150-243 | the next node is executed by its own code and the selected edge taken: this is the model's next configuration, it keeps the invariant, raises no fault, lowers the measure, and the adapter did exactly the effects now on the log |
| Thread.GraphThread.Invoke | src/execution_accelerator/graph/builder.py:277-337 | invoking the graph terminates for any adapter answers, paused at a gate or at the end, in the configuration the executed moves lead to |
| Thread.GraphThread.ResumeWith | src/execution_accelerator/graph/builder.py:400-468 | resuming a paused thread continues the same run with the decision and again stops paused or ended |
| Thread.GraphThread.AdapterRepeatsNothing | src/execution_accelerator/nodes/delivery.py:31-69 | the adapter's journal never holds the same effect twice for a repository |
| Nodes.ExecuteNode | src/execution_accelerator/graph/builder.py:155-242 | a node execution computes the model's update and performs exactly the effects it reports |
| Nodes.CheckRepositoryIdempotencyNode | src/execution_accelerator/nodes/intake.py:119-183 | the loop computes the workflow's intake update: the two lists of `Nodes.IntakePartitions`, a completed run if nothing is pending, and for every queued repository a workspace with the tags of the last target of its name that was not skipped; nothing else changes but the audit list |
| Nodes.IntakePartitions | src/execution_accelerator/nodes/intake.py:124-159 | each target goes on exactly one of the skipped and pending lists, in order, pending exactly when it has no open pull request |
| Nodes.CollectApprovalReasons | src/execution_accelerator/policy/engine.py:114-134 | each reason is listed, once, if and only if its condition holds |
| Nodes.Evaluate | src/execution_accelerator/policy/engine.py:28-50 | allowed if and only if no tag is blocked; approval required if and only if blocked, asked for by the route or for some reason; delivery approval if and only if allowed and a complex route so configured |
| Nodes.PolicyMeans | src/execution_accelerator/policy/engine.py:84-134 | a blocked tag blocks; otherwise approval is required exactly by the route, the route kind or a tag the configuration names, delivery approval exactly for a complex route so configured |
| Nodes.ApplyPolicyNode | src/execution_accelerator/nodes/policy.py:15-72 | the decision is recorded, approval is requested for the remediation stage if and only if required, an unrecoverable error is added if and only if blocked, nothing else changes |
| Nodes.ReviewApprovalNode | src/execution_accelerator/nodes/approval.py:16-101 | without a decision only the status and the audit change; a decision is recorded and withdraws the request; an approval counts for this stage and no other; a rejection adds an unrecoverable error |
| Nodes.HandleValidationFailureNode | src/execution_accelerator/nodes/validation.py:71-123 | the rollback is given the reported files, one error is added with the code and the recoverable flag of the latest result, and of the rest only the status and the audit list change |
| Nodes.ClassifyFailureNode | src/execution_accelerator/nodes/classify_failure.py:12-80 | the failure is counted and its classification recorded, a retry is counted if there is one, the attempt's files, rollback and preflight are forgotten if and only if a lane runs again, and nothing else changes but the status and the audit list |
| Nodes.DeliveryAdapter.Perform | src/execution_accelerator/nodes/delivery.py:31-69 | a call that succeeds is recorded in the journal, one that fails leaves it unchanged |
| Nodes.RunStage | src/execution_accelerator/nodes/delivery.py:31-69 | a stage already done, or after a failed one, is not called; one that is called is done or reports its error |
| Nodes.RunStages | src/execution_accelerator/nodes/delivery.py:31-69 | the staged publication computes the model's delivery, and the adapter performs exactly the effects it reports |
| Nodes.PublishRemediationNode | src/execution_accelerator/nodes/delivery.py:23-101 | the node computes the workflow's publication update and the adapter's journal grows by exactly its effects; the stages done stay in the state unless another repository follows |
| Nodes.BuildDeliveryErrorCode | src/execution_accelerator/nodes/delivery.py:232-243 | the code names the first of the three stages that is missing, in both directions |
| Nodes.FindTarget | src/execution_accelerator/nodes/delivery.py:371-375 | the index of the first target with the name, or the current one |
| Nodes.NextTargetIsFirst | src/execution_accelerator/nodes/delivery.py:313-375 | when a repository is finished, the next one's target is the first of its name |
| Verdicts.IsRecoverableValidationFailure | src/execution_accelerator/nodes/validation.py:128-138 | recoverable if and only if some check failed and every failed check mentions a test, or is a security or license check with one of the transient phrases |
| Verdicts.BuildValidationErrorCode | src/execution_accelerator/nodes/validation.py:141-156 | the first failed check whose name has one of the words gives the code: a transient failure before its kind, then compile, test, security, license; without one the general code |
| Verdicts.ClassifyLatestFailure | src/execution_accelerator/nodes/classify_failure.py:83-120 | the classification of the latest error and result |
| Verdicts.ClassifyExactly | src/execution_accelerator/nodes/classify_failure.py:83-96 | a policy block if and only if the latest error is a block or a rejection, a network failure if and only if it is a recoverable delivery error or a transient scan failure; otherwise the checks of the latest result decide |
| Verdicts.ClassesInWords | src/execution_accelerator/nodes/classify_failure.py:97-120 | the first failed check that tells its kind decides: compile, then test, then an unresolved security finding, then license; without one the summary does |
| Verdicts.FirstFailedDecides | src/execution_accelerator/nodes/classify_failure.py:83-120 | a first failed check with a reading of its own decides code and classification alone |
| Verdicts.RetryableResultExactly | src/execution_accelerator/nodes/classify_failure.py:17-31 | for every result, whatever its checks are called: the failure is retryable if and only if all failed checks are test or transient failures and the first of them is transient or not also a compile check |
| Verdicts.RecoverableButNotRetried | src/execution_accelerator/nodes/validation.py:128-138 | a recoverable result that is never retried exists |
| LiveValidation.SecurityExactly | src/execution_accelerator/adapters/validation.py:349-400 | pending if and only if there is no dependency context; failed if and only if there is and the tree could not be inspected or some entry for the package has another version than the target, transiently in the first case only; otherwise passed |
| LiveValidation.ShortNamesMatch | src/execution_accelerator/adapters/validation.py:582-596 | every pattern matches a license text it occurs in, and gpl, lgpl and agpl also those that spell the license out, with or without GNU |
| LiveValidation.MatchesExactly | src/execution_accelerator/adapters/validation.py:582-596 | a policy matches a license text if and only if one of its patterns occurs in it, or the spelled-out name of one of the three short names does |
| LiveValidation.GplMatchesItsRelatives | src/execution_accelerator/adapters/validation.py:582-596 | a policy that names the GPL matches every text that spells out the LGPL or the AGPL |
| LiveValidation.IterLicenseScanCoordinates | src/execution_accelerator/adapters/validation.py:550-571 | the loop lists the distinct non-test coordinates in order |
| LiveValidation.ScannedExactly | src/execution_accelerator/adapters/validation.py:550-571 | a coordinate is scanned, once, if and only if it has an entry outside test scope |
| LiveValidation.BuildLicenseCheck | src/execution_accelerator/adapters/validation.py:403-547 | the loop over five lists computes the model's license check |
| LiveValidation.LicenseVerdictExactly | src/execution_accelerator/adapters/validation.py:403-547 | passed if and only if every non-test dependency has fetched, non-empty licenses with no denied one and, given an allowlist, an allowed one; otherwise failed when a list is enforced and pending when none is |
| LiveValidation.LicenseTransientExactly | src/execution_accelerator/adapters/validation.py:403-547 | a failed license check is transient if and only if a list is enforced and either the tree could not be inspected, or some fetch failed and no dependency is refused outright |
| LiveValidation.LicenseCheckIgnoresOrder | src/execution_accelerator/adapters/validation.py:403-571 | reordering or repeating tree entries, or adding test-scoped ones, changes nothing |
| LiveValidation.LoadLiveValidationResult | src/execution_accelerator/adapters/validation.py:117-226 | in terms of the inputs: each check, and the overall status, fails if and only if Maven verify failed, a test did, the tree could not be inspected or still holds another version, or a policy is enforced and some license is not acceptable or nobody can tell; a check is pending if and only if there are no reports of a failed build, no dependency context, or unclear licenses and no policy; the summary speaks of an unresolved dependency exactly when the tree shows one and no license failure overwrote it |
| LiveValidation.FirstFailureDetermines | src/execution_accelerator/nodes/classify_failure.py:83-120 | for every failed live result the first failed check alone determines both the error code and the classification |
| LiveValidation.LiveRetryExactly | src/execution_accelerator/nodes/classify_failure.py:17-31 | for every live result: retryable if and only if some check failed and every failed one is a test or transient scan failure; in particular Maven verify passed |
| Rollback.Workspace.MaterializeComplexScaffold | src/execution_accelerator/nodes/remediation.py:538-605 | the two loops write exactly the planned and the migrated files and report each of them; a bad target stops after the edits before it |
| Rollback.BadTargetStops | src/execution_accelerator/nodes/remediation.py:547-567 | the first bad target stops the scaffold: the targets before it are written as planned, and no file is written for it or for any later one |
| Rollback.PlanGoesThroughExactly | src/execution_accelerator/nodes/remediation.py:547-567 | the planned edits go through if and only if no target is bad at its turn |
| Rollback.EditsInOrder | src/execution_accelerator/nodes/remediation.py:547-567 | each target edits the file it names as the targets before it left it: revised if it is there by then, rendered if not |
| Rollback.PlannedText | src/execution_accelerator/nodes/remediation.py:550-566 | a file that exactly one target names gets the revised text if it was there and the rendered one if not, whatever else is planned |
| Rollback.MigratedExactly | src/execution_accelerator/nodes/remediation.py:577-596 | the source pass rewrites exactly the Java files that no target names, that stand in none of the six ignored directories, and whose migrated text differs |
| Rollback.AbsoluteExactly | src/execution_accelerator/nodes/remediation.py:608-611 | a target is refused as absolute if and only if it is |
| Rollback.DotsAreDropped | src/execution_accelerator/nodes/remediation.py:612 | empty parts and `.` do not change which file a target names |
| Rollback.UpUndoesName | src/execution_accelerator/nodes/remediation.py:612 | nor does a name followed by `..` |
| Rollback.EscapesExactly | src/execution_accelerator/nodes/remediation.py:612-617 | a relative target that goes down k names, up m levels and along further names escapes if and only if m is greater than k and the last names do not lead back into the workspace; otherwise it names the file where it lands |
| Rollback.NotAFileExactly | src/execution_accelerator/nodes/remediation.py:547-566 | a plain target cannot be written if and only if it is the workspace itself, lies below a file, or has a file below it |
| Rollback.Workspace.MigrateSources | src/execution_accelerator/nodes/remediation.py:576-604 | every source not named by the plan whose migrated text differs is rewritten and reported, no other file changes |
| Rollback.Workspace.PartitionTrackedPaths | src/execution_accelerator/execution/git_runner.py:183-206 | splits the paths by membership in HEAD |
| Rollback.Workspace.RestorePaths | src/execution_accelerator/execution/git_runner.py:165-181 | the given paths get HEAD's content, nothing else changes |
| Rollback.Workspace.RemoveUntrackedPaths | src/execution_accelerator/execution/git_runner.py:208-219 | the given paths are gone, nothing else changes |
| Rollback.Workspace.Rollback | src/execution_accelerator/adapters/validation.py:258-301 | restored paths are as in HEAD afterwards, all others unchanged |
| Rollback.RestorePathsAre | src/execution_accelerator/adapters/validation.py:613-623 | a path is restored if and only if it was reported below the configured workspace path |
| Rollback.RollbackExactly | src/execution_accelerator/adapters/validation.py:258-301 | of the two functions: scaffold then rollback gives back the initial files if and only if the restored files were as HEAD has them and the others were not changed |
| Rollback.RollbackInvertsScaffold | src/execution_accelerator/adapters/validation.py:258-301 | when the workspace path has no link to resolve: if and only if every touched file was as HEAD has it (same content, or absent from both) |
| Rollback.LinkedWorkspaceKeepsPlannedEdits | src/execution_accelerator/nodes/remediation.py:608-617 | when it has one: if and only if the migrated sources were as HEAD has them and the plan changed no other file at all |
| Rollback.LinkedWorkspaceKeepsTheEdit | src/execution_accelerator/nodes/remediation.py:608-617 | then a plan that changes a single committed file is never undone |
| Rollback.LinkedTicketDirectory | src/execution_accelerator/adapters/repository_inventory.py:249-251 | a workspace below a linked ticket directory, with a plan and a rewrite for which the two functions do this; no configured run calls both |
| Rollback.PlainTargetEditedOnce | src/execution_accelerator/nodes/remediation.py:608-617 | a plainly spelled target resolves inside the workspace and is not migrated a second time |
| VersionOrder.NormalizeParts | src/execution_accelerator/services/version_range.py:137-147 | the scanning loop computes the version's parts; what they are is in the `VersionLaws` rows |
| VersionOrder.CompareVersions | src/execution_accelerator/services/version_range.py:33-49 | the padded loop computes the comparison |
| VersionOrder.CompareMeaning | src/execution_accelerator/services/version_range.py:33-49 | negative if and only if the left parts are below at the first difference under zero padding; zero if and only if there is none |
| VersionOrder.CompareAntisymmetric | src/execution_accelerator/services/version_range.py:33-49 | swapping the arguments negates the result |
| VersionOrder.CompareTransitive | src/execution_accelerator/services/version_range.py:33-49 | transitive on all strings, so a total preorder |
| VersionOrder.CompareZeroExactly | src/execution_accelerator/services/version_range.py:33-49 | zero if and only if the part lists agree after trailing zeros are dropped |
| VersionOrder.UnknownWordIsLowest | src/execution_accelerator/services/version_range.py:33-49 | a version with a word that is no known qualifier, whatever follows it, is below every version that agrees up to there and has a number, a known qualifier or nothing in its place |
| VersionOrder.DriverVersionIsBelow | src/execution_accelerator/services/version_range.py:33-49 | 2.0.jre8 is below every version 2.0 continued by numbers or known qualifiers, and below 2.0 |
| VersionLaws.PartsConcat | src/execution_accelerator/services/version_range.py:137-147 | a version text cut where no run of digits or letters crosses is read piece by piece |
| VersionLaws.QualifiersRise | src/execution_accelerator/services/version_range.py:9-24 | for every version x, with or without separators: x-snapshot is below x-alpha, that below x-beta, x-milestone, x-rc, x and x-sp |
| VersionLaws.QualifiersTie | src/execution_accelerator/services/version_range.py:9-24 | a, b, m and cr tie with the long names, and final, ga and release with the bare version |
| VersionLaws.OtherWordsAreLowest | src/execution_accelerator/services/version_range.py:33-49 | any other word is below the snapshot, and two of them go by the dictionary |
| VersionLaws.CaseDoesNotMatter | src/execution_accelerator/services/version_range.py:137-147 | writing capitals as small letters gives a version that ties |
| VersionLaws.NumbersByDigits | src/execution_accelerator/services/version_range.py:137-147 | at the same place, whatever follows: of numbers without leading zeros the longer is greater, equally long ones go by their first differing digit, and a leading zero makes no difference |
| VersionRange.SplitUnionRanges | src/execution_accelerator/services/version_range.py:95-108 | the bracket-depth loop computes the segments |
| VersionRange.MatchesRangeLoop | src/execution_accelerator/services/version_range.py:81-92 | the loop decides membership in some segment |
| VersionRange.BareSpecMatchesExactly | src/execution_accelerator/services/version_range.py:81-86 | a specification that opens no interval matches the versions that compare equal to its text and no others, whatever white space surrounds it |
| VersionRange.BlankSpecMatchesNothing | src/execution_accelerator/services/version_range.py:81-84 | a blank specification matches nothing |
| VersionRange.UnclosedLosesLastCharacter | src/execution_accelerator/services/version_range.py:95-134 | a range without its closing bracket is read without its last character and with an exclusive upper bound |
| VersionRange.SegmentReadBack | src/execution_accelerator/services/version_range.py:111-134 | one printed interval is read back with its meaning |
| VersionRange.UnionReadBack | src/execution_accelerator/services/version_range.py:81-134 | the comma-joined text of any list of intervals matches a version if and only if the version lies in one of them |
| VersionRange.IntervalConvex | src/execution_accelerator/services/version_range.py:125-134 | every interval is convex in the version order |
| VersionRange.RangesRespectOrder | src/execution_accelerator/services/version_range.py:81-134 | no range text, well formed or not, tells versions apart that compare equal |
| FixVersion.IsFixVersion | src/execution_accelerator/services/version_range.py:52-57 | a fix if and only if the version is above the current one and no affected range matches it |
| FixVersion.PickLowestFixVersion | src/execution_accelerator/services/version_range.py:60-70 | none if and only if no listed version is a fix; otherwise a listed fix that no listed fix is below, for every enumeration of the set |
| FixVersion.AnswersCompareEqual | src/execution_accelerator/services/version_range.py:60-70 | whatever the order of the input, two answers compare equal |
| FixVersion.AnswerUniqueExactly | src/execution_accelerator/services/version_range.py:60-70 | more than one answer is possible if and only if two different spellings tie for the lowest fix |
| FixVersion.FixesRespectOrder | src/execution_accelerator/services/version_range.py:52-57 | versions that compare equal are fixes together |
| FixVersion.TieExists | src/execution_accelerator/services/version_range.py:60-70 | 2.0 and 2.0.0 tie |
| JavaRewrite.FindMatchingParenthesis | src/execution_accelerator/nodes/remediation.py:1370-1380 | the least closing index that balances, or none if and only if there is none |
| JavaRewrite.RewriteCallsOf | src/execution_accelerator/nodes/remediation.py:1172-1190 | the loop over matches with its cursor and segments computes the rewritten text of one pass |
| JavaRewrite.RewriteJavaConstructorCalls | src/execution_accelerator/nodes/remediation.py:1162-1191 | the pass for the simple name followed by the pass for the qualified name |
| RewriteCall.LoneCallIsWrapped | src/execution_accelerator/nodes/remediation.py:1172-1190 | in a text whose only `new` begins a closed call of the class, with any white space after `new` and before the parenthesis, the arguments are trimmed and wrapped in the factory call and nothing else changes; a call whose arguments already start with the factory call is left alone |
| RewriteCall.SimpleNameIs | src/execution_accelerator/nodes/remediation.py:1170-1171 | the first pass looks for the last part of the qualified name |
| RewriteLaws.PassKeepsBalanceExactly | src/execution_accelerator/nodes/remediation.py:1172-1190 | for one pass: the balance never rises, and is kept if and only if no rewritten call lies inside another |
| RewriteErasure.ErasureGivesBack | src/execution_accelerator/nodes/remediation.py:1172-1190 | for one pass: erasing one factory call per rewritten call, each the whole argument list of a closed call, gives back the input up to white space at the ends of those lists, if and only if no rewritten call lies inside another |
| RewriteSites.PassKeepsOther | src/execution_accelerator/nodes/remediation.py:1172-1190 | a pass whose rewritten calls do not nest keeps, for any other spelling, whether calls are left to rewrite and whether they nest |
| RewriteTwice.PassFixed | src/execution_accelerator/nodes/remediation.py:1172-1190 | a pass changes nothing if and only if it finds nothing to rewrite |
| RewriteTwice.PassLeavesSites | src/execution_accelerator/nodes/remediation.py:1172-1190 | a pass leaves nothing to rewrite if and only if no call it rewrites lies inside another |
| RewriteTwice.PassIsIdempotent | src/execution_accelerator/nodes/remediation.py:1172-1190 | for every text: a second pass changes nothing if and only if no call the first rewrites lies inside another |
| RewriteTwice.RewriteFixed | src/execution_accelerator/nodes/remediation.py:1162-1191 | both passes together change nothing if and only if neither spelling has a call left to rewrite |
| RewriteTwice.SequentialOnInput | src/execution_accelerator/nodes/remediation.py:1162-1191 | the text the second pass reads nests rewritten calls if and only if the input does, provided the first pass nests none |
| RewriteTwice.RewriteExactly | src/execution_accelerator/nodes/remediation.py:1162-1191 | for both passes and every text: the balance never rises; it is kept, and erasing the inserted factory calls gives back the input up to white space at argument ends, if and only if the input holds no rewritten call inside another of the same spelling |
| RewriteTwice.RewriteIsIdempotent | src/execution_accelerator/nodes/remediation.py:1162-1191 | rewriting again changes nothing when the input holds no rewritten call inside another of the same spelling, and for a class in a package in no other case |
| RewriteTwice.PlainNameIsIdempotent | src/execution_accelerator/nodes/remediation.py:1162-1191 | for a class without a package: rewriting again changes nothing if and only if the first pass leaves no nested calls to the second |
| RewriteTwice.NestedCallLosesBalance | src/execution_accelerator/nodes/remediation.py:1162-1191 | the balanced text `new A(new A())` is rewritten to an unbalanced one |
| RewriteTwice.PlainNameMaySettle | src/execution_accelerator/nodes/remediation.py:1162-1191 | for the plain name `A`, rewriting again changes nothing after `new A(new A())`, although its calls nest |
| SymbolMapper.ScoresAreFractions | src/execution_accelerator/tough_path/symbol_mapper.py:213-245 | every component score and the rounded confidence lie between 0 and 1 |
| SymbolMapper.ScoreIsSymmetric | src/execution_accelerator/tough_path/symbol_mapper.py:213-245 | similarity does not depend on which symbol is the legacy one |
| SymbolMapper.NameScoreOfShares | src/execution_accelerator/tough_path/symbol_mapper.py:213-219 | the name score is the share of the common tokens among all tokens of both names |
| SymbolMapper.AgreementsAddUp | src/execution_accelerator/tough_path/symbol_mapper.py:222-228 | agreements are counted position by position and add up over joined lists; their share is the signature score |
| SymbolMapper.PackageScoreOfFront | src/execution_accelerator/tough_path/symbol_mapper.py:231-245 | the package score is the length of the common front over that of the longer package |
| SymbolMapper.NameOutweighsTheRest | src/execution_accelerator/tough_path/symbol_mapper.py:97-100 | a symbol that shares the whole name and nothing else scores 0.6, one that shares all of the rest and no part of the name 0.4 |
| SymbolMapper.ParametersOutweighThePackage | src/execution_accelerator/tough_path/symbol_mapper.py:97-100 | without a shared name, the parameters alone score 0.3 and the package alone 0.1 |
| SymbolMapper.RoundIsNearest | src/execution_accelerator/tough_path/symbol_mapper.py:100 | rounding moves a confidence by at most half a unit of the fourth decimal |
| SymbolMapper.CountMatches | src/execution_accelerator/tough_path/symbol_mapper.py:222-228 | the positions at which two parameter lists agree |
| SymbolMapper.ComputePackageScore | src/execution_accelerator/tough_path/symbol_mapper.py:231-245 | the loop computes the shared package prefix over the longer package |
| SymbolMapper.MapSymbol | src/execution_accelerator/tough_path/symbol_mapper.py:72-114 | the loop computes the best topK of the stable ranking of the same-kind candidates with positive confidence |
| SymbolMapper.RankedIsSorted | src/execution_accelerator/tough_path/symbol_mapper.py:72-114 | the ranking falls in confidence and is a permutation of the candidates |
| SymbolMapper.RankedSuit | src/execution_accelerator/tough_path/symbol_mapper.py:90-111 | only listed symbols of the same kind with a positive confidence are ranked, each with its own score |
| SymbolMapper.BestIsMaximal | src/execution_accelerator/tough_path/symbol_mapper.py:72-114 | the best candidate is the earliest of the same-kind symbols that no other beats; there is one if and only if some confidence is positive |
| SymbolMapper.ReconcileNeverRaises | src/execution_accelerator/tough_path/symbol_mapper.py:128-155 | the reconciled confidence is the smaller of the deterministic and the rounded outside one, nothing else changes |
| SymbolMapper.ReconcileKeepsOrderExactly | src/execution_accelerator/tough_path/symbol_mapper.py:128-155 | the candidates stay in order if and only if the rounded outside confidence is not below the runner-up's |
| SymbolMapper.CappedBestStaysFirst | src/execution_accelerator/tough_path/symbol_mapper.py:128-155 | a symbol and its namesake, capped at one half, end up out of order |
| SymbolMapper.SplitTopLevelLoop | src/execution_accelerator/tough_path/symbol_mapper.py:185-203 | the depth-counting loop computes the pieces |
| SymbolMapper.ParametersReadBack | src/execution_accelerator/tough_path/symbol_mapper.py:185-203 | every list of types, printed with their type arguments nested to any depth, is split back type by type, an empty last text aside |
| SymbolMapper.SplitUndoesJoin | src/execution_accelerator/tough_path/symbol_mapper.py:185-203 | splitting undoes joining for all lists of bracket-balanced parameters, except that an empty last one is dropped |
| SymbolMapper.JoinUndoesSplit | src/execution_accelerator/tough_path/symbol_mapper.py:185-203 | joining undoes splitting if and only if the text does not end with a comma outside `<...>`; otherwise that comma is all that is lost |
| PomUpsert.PomDocument.ApplyDirectDependencyUpdate | src/execution_accelerator/adapters/pom.py:153-170 | the loop applies the change to the document, or reports it not found and leaves the document alone |
| PomUpsert.PomDocument.ApplyDependencyManagementOverride | src/execution_accelerator/adapters/pom.py:172-199 | the loop applies the override to the document |
| PomUpsert.PomDocument.ApplyPlan | src/execution_accelerator/adapters/pom.py:86-110 | the changes are applied in order; the plan goes through if and only if each of them does |
| PomUpsert.DirectUpdateExactly | src/execution_accelerator/adapters/pom.py:153-170 | succeeds if and only if an entry with a version has the group and the artifact, and changes only the version of the first one |
| PomUpsert.OverrideExactly | src/execution_accelerator/adapters/pom.py:172-199 | the first managed entry with the group and the artifact gets the target version, or one is added at the end of the managed section; all other entries and their order stay |
| PomUpsert.PlanIsIdempotent | src/execution_accelerator/adapters/pom.py:86-110 | any plan that went through goes through again and changes nothing, whatever it mixes and repeats |

## Left out

- Resuming a run that is not paused for an approval (the code accepts it), and aborting a run.
- Exceptions the nodes do not catch: HTTP, git, Maven and file system errors outside the delivery
  stages, a missing workspace or POM file, a plan that does not fit the POM, the live complex lane, and a
  bad scaffold target, end the run; only the last is modelled, in `Rollback`.
- Recording a state invariant violation in the checkpoint: `Runs.NoFault` shows it never happens.
- HTTP, git, Maven, OpenRewrite, SQLite, logs, CSV and JSON files: adapter answers are arbitrary
  inputs; a delivery call either happens or does not, never half.
- State that only carries text or data for reports (remediation and mutation plans, diffs, artifact
  lists, pull request and Jira texts, escalation bundles, audit details); audit events are the node
  and its kind.
- Words and phrases searched for in check names and details are flags of a check, so any combination
  of them is covered, but not how they come to be in a text.
- Steps.StepKeeps: LangGraph's recursion limit does not stop a run of the model; `Runs.StepsBounded`
  and `Limits.SmoothRunLength` say when the limit is met.
- FixVersion.PickLowestFixVersion: the stability of the sort is not stated, since the enumeration of
  the set is arbitrary anyway.
- Rollback.Workspace.MaterializeComplexScaffold: what the text rewrites compute is a parameter, the
  sources are visited in no particular order, symbolic links inside the workspace and empty
  directories are not modelled.
- Attempts.AttemptStartsFromRounds: what a live recipe does to the files and what a fixture rewrite does
  to a POM are parameters, the same for every attempt at a repository; files that Maven builds or
  downloads into the workspace are not modelled.
- Attempts.AttemptsComeInRounds: the live lanes are taken to report the POM they were asked to change;
  `Attempts.RollbackHoldsReport` needs no such condition.
- Attempts.RoundExactly: the live complex lane raises `NotImplementedError` before its first edit, which
  ends the run, so it counts as changing nothing; the fixture rollback restores nothing, so no condition
  on HEAD appears for that mode.
- Attempts.FixturePomRetriesAgree: parsing what was printed is taken to give back the document.
- Rollback.Workspace.PartitionTrackedPaths: the index is taken to equal HEAD, and a path names a
  file, not a directory.
- JavaRewrite.RewriteJavaConstructorCalls: `\s` and `strip` are ASCII white space; the class and the
  factory are assumed to be names without white space or parentheses where the laws need it.
- RewriteTwice.PlainNameIsIdempotent: the condition is on what the first pass leaves, not on the input:
  the parentheses it drops may close a call that was open in the input, so nesting in the input does not
  decide it. `RewriteTwice.RewriteIsIdempotent` gives the sufficient condition on the input.
- SymbolMapper.MapSymbol: names, parameter types and packages are given already split into tokens;
  scores are reals and rounding is half up, so neither binary floating point nor half-even rounding
  is modelled.
- PomUpsert.PomDocument.ApplyPlan: a document is the list of its dependency elements; XML parsing,
  other elements, comments and the live OpenRewrite mode are not modelled.
- VersionOrder.NormalizeParts: letters and digits are ASCII.
- LiveValidation.LoadLiveValidationResult: license names and patterns are taken lower-cased, and the
  report parser and the license fetcher are inputs.
- Symbol rewrites other than constructor calls, recipe lookup, API diffs, decompiling, the LLM client
  and its budget, credential probing, configuration loading, the command line: not modelled.
