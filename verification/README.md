# Verification of the agent runtime observatory

This project models the parts of the repository whose promises are easy to state and hard to be sure of,
and proves them for all inputs, all runs and all interleavings.

* **Evidence chain** (`EvidenceChain.dfy`). A recursive three-colour search orders a graph of evidence nodes
  or finds a cycle; the nodes are then run in that order and failures propagate downstream.
* **Record and replay** (`StepReferences.dfy`, `Policies.dfy`, `Tools.dfy`, `Traces.dfy`, `Executor.dfy`,
  `RunProperties.dfy`, `Replays.dfy`, over the records of `RunRecords.dfy`). A script is executed under a policy
  on an in-memory workspace and leaves a trace; the trace is read back and replayed.
* **Work queue** (`Timestamps.dfy`, `WorkQueue.dfy`, `QueueProtocol.dfy`, `QueueRuns.dfy`). Any number of workers
  share one store; each store call is a step of a transition system, and steps interleave at will. The imperative
  store and worker are tied to that system. `Waiting` and `Claimed` are the row statuses pending and running.
* **Review debt** (`ReviewDebt.dfy`). A view derived from a run and its attestations, over histories in which the
  run may be overwritten between the read and the write of an API call.
* **Exact statistics** (`Binomials.dfy`, `Power.dfy`, `Sensitivity.dfy`). Binomial tails, bisection, sample sizes,
  futility boundaries and Fisher's exact test, over the reals.
* **Trajectory pruner** (`PrunerKernel.dfy`, `Pruner.dfy`), **rate limiter** (`RateLimiter.dfy`) and **evidence
  manifests** (`TextLines.dfy`, `Manifest.dfy`).

Foreign code appears as function-valued fields of a record (`Foreign`, `Codec`, `Outside`, `FileSystem`, `Examples`,
`Kernel`, `Platform`), so each theorem holds for every such function; what a theorem needs of it is in its
`requires`. Clocks and generated ids are parameters. Exceptions are results.

`dafny verify dfyconfig.toml` checks the whole project.

## Where the code differs from what is said about it

* A gate called "upstream" replaces the verdict on the upstreams (`chain.py:97`), so ancestor safety holds exactly
  where such gates mask nothing: `EvidenceChains.AncestorSafetyIff`, `EvidenceChains.UpstreamGateDefeatsPropagation`.
* A trace is written without escaping characters above ASCII and read with `splitlines` (`trace.py:36`, `trace.py:47`).
  U+0085, U+2028 or U+2029 in an argument, a preview or an error cuts the event, and neither reading nor replay
  succeeds: `Traces.WrittenLoadsIff`, `Replays.UntamperedReplayIsClean`, `Replays.SeparatorDefeatsReplay`.
* A trace does not restore the reviewer seats (`trace.py:43-82`), so the run of a valid script never comes back in
  full: `RunProperties.FullRoundTripIff`.
* A bundle whose default is `deny` raises when no rule matches (`executor.py:174-175`):
  `Executor.RaisesWithoutRuleIff`, `Executor.CrashesIff`, `Executor.DenyAllCrashes`.
* `futility_boundary` is documented as the largest futile count; where no count is futile it is 0, not absent
  (`power.py:173-184`): `Power.FutilityBoundary`, `Power.FirstBoundaryIsNotFutile`.
* A manifest loses rows whose path begins with `#` or whitespace or holds a line break, and a note with a line break
  can add one (`manifest_tool.py:59-95`): `Manifests.OwnManifestPassesIff`, `Manifests.HashTreeFails`,
  `Manifests.HeaderRowsAreOfNote`, `Manifests.NoteMayHoldRow`.
* A retry time beyond the year 9999 raises inside the failure handler of the worker and leaves the row running
  (`main.py:77-78`): `QueueRuns.StoppedForever`, `QueueRuns.OverflowHappens`.

## Model

| member | source | states |
|---|---|---|
| EvidenceChains.EvidenceChain.TopologicalOrder | packages/clinic/src/wutai_clinic/evidence/chain.py:46-67 | Terminates on every graph. With distinct keys it succeeds if and only if the graph has no cycle and no unknown upstream; the result is a permutation of the nodes in which every node stands after all its upstreams. The key of a cycle error lies on a cycle, the key of the other error is named by a node and unknown; with all upstreams known, failing is the same as having a cycle |
| EvidenceChains.Visitor.Visit | packages/clinic/src/wutai_clinic/evidence/chain.py:51-63 | The three-colour search: a completed visit has the node among the finished ones, only adds to them, leaves the active set as it was, and keeps the finished nodes in upstream-first order; an interrupted visit names a real cycle or a real unknown upstream. The measure is the set of keys not on the search path |
| EvidenceChains.OrderedMeansAcyclic | packages/clinic/src/wutai_clinic/evidence/chain.py:46-67 | Completeness of cycle detection: a graph that has an upstream-first order of all its nodes has no cycle and no dangling upstream |
| EvidenceChains.PathGoesBack | packages/clinic/src/wutai_clinic/evidence/chain.py:46-67 | Along every path over upstream edges, of any length, positions in the order strictly decrease |
| EvidenceChains.OrderIsPermutation | packages/clinic/src/wutai_clinic/evidence/chain.py:46-67 | Every node occurs in the order exactly once |
| EvidenceChains.EvidenceChain.RunGates | packages/clinic/src/wutai_clinic/evidence/chain.py:69-76 | The dictionary of gate results, the last gate of a name winning; a gate that raises counts as failed |
| EvidenceChains.EvidenceChain.VerifyUpstream | packages/clinic/src/wutai_clinic/evidence/chain.py:78-90 | True if and only if every input exists with the recorded digest (when one is recorded) and no known report of an upstream failed |
| EvidenceChains.EvidenceChain.RunNode | packages/clinic/src/wutai_clinic/evidence/chain.py:92-100 | The report passes if and only if the gates pass and either some gate is called "upstream" or inputs and upstream reports are sound; the blocking failures are exactly the failing entries; only this node's report is replaced |
| EvidenceChains.EvidenceChain.EmitReport | packages/clinic/src/wutai_clinic/evidence/chain.py:111-122 | The report passes exactly when all results do, and exactly when nothing is listed as blocking |
| EvidenceChains.EvidenceChain.RunAll | packages/clinic/src/wutai_clinic/evidence/chain.py:92-109 | Whatever stale reports an earlier run left, and whatever files each node finds when it is run, the reports of this run satisfy the propagation equation at every node among themselves; each passes exactly when it should by the next row, and describes its node with the failing entries as blocking; with distinct keys it fails exactly on a cycle or an unknown upstream, and then changes nothing |
| EvidenceChains.PassedIffDeserved | packages/clinic/src/wutai_clinic/evidence/chain.py:69-100 | Told from files, recorded hashes and gates alone, of every node of a run: it passes if and only if the last gate of each name is called without raising and returns true, and either some gate is called "upstream" or every input exists with its recorded digest (that of the path as written, else that of the normalised path) and every upstream passed |
| EvidenceChains.BrokenInputFails | packages/clinic/src/wutai_clinic/evidence/chain.py:78-100 | A node with a missing or changed input never passes, unless it has a gate called "upstream" |
| EvidenceChains.GatesHoldIff | packages/clinic/src/wutai_clinic/evidence/chain.py:69-76 | The gates pass if and only if, of each name, the last gate returns true without raising |
| EvidenceChains.ExtendPropagation | packages/clinic/src/wutai_clinic/evidence/chain.py:102-109 | Running the next node of the order keeps the propagation equation at all nodes run so far, whatever stale reports there are |
| EvidenceChains.PassedIffAncestrySound | packages/clinic/src/wutai_clinic/evidence/chain.py:78-109 | When no gate is called "upstream", a node passes if and only if the node and all its ancestors at any distance have intact inputs and passing gates |
| EvidenceChains.PassedHasPassingAncestors | packages/clinic/src/wutai_clinic/evidence/chain.py:78-109 | A node whose report passed has only passing ancestors, transitively |
| EvidenceChains.AncestorSafetyIff | packages/clinic/src/wutai_clinic/evidence/chain.py:78-109 | With no assumption on gate names, and told from the inputs of the run alone: every passing node has only passing ancestors if and only if, above every node that has a gate called "upstream" and passes its gates, each ancestor passes its gates and has intact inputs (or has such a gate too) |
| EvidenceChains.SafeIffNothingMasked | packages/clinic/src/wutai_clinic/evidence/chain.py:78-109 | The same seen from the reports: every node that has such a gate and passes its gates has passing direct upstreams |
| EvidenceChains.SoundAncestryPasses | packages/clinic/src/wutai_clinic/evidence/chain.py:78-109 | A node that is sound by itself, with ancestors that are, passes whatever their gates are called |
| EvidenceChains.PassingPath | packages/clinic/src/wutai_clinic/evidence/chain.py:78-109 | Under that condition a pass is carried up every path of upstream edges |
| EvidenceChains.UpstreamGateDefeatsPropagation | packages/clinic/src/wutai_clinic/evidence/chain.py:95-98 | A concrete two-node chain on which a node passes below a failed upstream |
| StepReferences.SubstitutionLaw | packages/runtime/aro_runtime/executor.py:38-83 | A step marker anywhere in a text is replaced by the output it names, taken verbatim and never expanded again, while the text on both sides is substituted on its own |
| StepReferences.FailsIffMissing | packages/runtime/aro_runtime/executor.py:64-83 | Substitution fails if and only if some marker names a step that is out of range or has no output, and it reports the leftmost one; for any notion of decimal digit that is the usual one among the ASCII characters |
| StepReferences.FirstMissing | packages/runtime/aro_runtime/executor.py:64-83 | Nothing before the reported position is missing; without a failure nothing is missing anywhere |
| StepReferences.NoMarkerNoChange | packages/runtime/aro_runtime/executor.py:64-83 | A text without markers is left alone |
| StepReferences.PrintedMarkerIsMarker | packages/runtime/aro_runtime/executor.py:38 | The marker written with the decimal number of a step is read back as a marker of that step |
| StepReferences.MarkerBecomesOutput | packages/runtime/aro_runtime/executor.py:38-83 | What an author writes for the output of step N becomes that output, and fails naming N if there is none |
| StepReferences.SplitAtDollar | packages/runtime/aro_runtime/executor.py:38-83 | A text may be cut before any dollar sign and substituted in parts: markers never overlap |
| StepReferences.ResolveValueMirrors | packages/runtime/aro_runtime/executor.py:64-83 | Resolving an arbitrarily nested value is resolving its strings from left to right and changing nothing else; it fails exactly as the strings do |
| StepReferences.ResolveArgsMirrors | packages/runtime/aro_runtime/executor.py:64-83 | The same for the arguments of a step |
| StepReferences.ShapeAndStringsDetermine | packages/runtime/aro_runtime/executor.py:64-83 | A nested value is determined by its shape and its strings, so the two preceding rows say everything about the result |
| StepReferences.MarkerFreeArgsUnchanged | packages/runtime/aro_runtime/executor.py:64-83 | Arguments without markers resolve to themselves whatever the outputs |
| StepReferences.ResolveArgsFailsIff | packages/runtime/aro_runtime/executor.py:64-83 | Resolving fails if and only if some string in the arguments holds a marker of a missing output |
| Policies.Evaluate | packages/runtime/aro_runtime/policy.py:51-67 | First match: the verdict is that of the least matching rule, and the bundle default applies exactly when no rule matches |
| RunProperties.FirstRuleGivesVerdict | packages/runtime/aro_runtime/policy.py:51-67 | With the conditions on tool, expression and host written out: the verdict has the action, the rule and the reason of the first rule that concerns the call |
| RunProperties.FirstRuleDecides | packages/runtime/aro_runtime/executor.py:147-201 | The gate, over a whole step: the first rule that concerns the call decides. A denying rule blocks: no file changes, no output, and an error that names the rule; any other lets one of the seven tools be called, whose text or error is the outcome of the step. In both cases the recorded decision has action, rule, policy and reason of that rule, the signal its severity and category, also in the trace when the tool raises |
| RunProperties.DefaultDecides | packages/runtime/aro_runtime/executor.py:147-201 | Where no rule concerns the call nothing is recorded of the policy: a denying default raises, any other calls the tool |
| RunProperties.UnresolvedStepFails | packages/runtime/aro_runtime/executor.py:136-143 | A step that refers to a missing output fails before the policy is asked, with its arguments recorded as they were written |
| Tools.WriteEffect | packages/runtime/aro_runtime/tools.py:51-54 | A write of texts always succeeds and leaves exactly the given content in the named file and touches no other; any other outcome changes nothing |
| Tools.ReadEffect | packages/runtime/aro_runtime/tools.py:44-48 | Reading gives exactly the text of the file, an error for a missing one, an exception without a path |
| Tools.PatchEffect | packages/runtime/aro_runtime/tools.py:57-64 | A successful patch replaces the leftmost occurrence of the searched text, once, in the named file only; any other outcome changes nothing |
| Tools.PatchFailsIff | packages/runtime/aro_runtime/tools.py:57-64 | Of texts, a patch fails exactly when the file is missing or holds no occurrence, with the error of the code |
| Tools.ReplaceFirstReplacesLeftmost | packages/runtime/aro_runtime/tools.py:63 | Replacing once replaces the leftmost occurrence |
| Tools.Workspace.WriteText | packages/runtime/aro_runtime/tools.py:51-54 | Updates the file tree as the write whose effect is stated above, with the same result text or error |
| Tools.Workspace.Patch | packages/runtime/aro_runtime/tools.py:57-64 | Updates the file tree as the patch whose effect is stated above, with each error in the order in which the code meets it |
| Tools.Workspace.ReadText | packages/runtime/aro_runtime/tools.py:44-48 | Reads without changing anything; a missing file is a tool error, a missing argument an exception |
| Executor.ExecuteScript | packages/runtime/aro_runtime/executor.py:86-232 | Run, workspace and trace file are those of the specification whose laws are stated below, also after an exception (that of writing what is no text set apart): then the files are those the completed steps left, and the trace is cut off after the lines already written |
| Executor.ExecuteStep | packages/runtime/aro_runtime/executor.py:123-214 | One step: its effect, its change of the workspace and the lines it adds to the trace, in their order; after an exception nothing has changed but the policy lines, that of writing what is no text set apart |
| Executor.StepCrashes | packages/runtime/aro_runtime/executor.py:174-179 | A step that raises ends the whole execution with that exception, however many steps follow, with the effects and files of the steps before it |
| Executor.CrashesIff | packages/runtime/aro_runtime/executor.py:123-214 | An execution ends with an exception if and only if some step is reached and raises it |
| Executor.RaisesWithoutRuleIff | packages/runtime/aro_runtime/executor.py:147-175 | A step raises for want of a rule if and only if its arguments resolve, the bundle denies by default and no rule matches |
| Executor.RaisesForToolIff | packages/runtime/aro_runtime/executor.py:179 | A step raises for an unknown tool if and only if its arguments resolve, it is not denied and there is no such tool |
| Executor.RaisesInToolIff | packages/runtime/aro_runtime/executor.py:179 | A step raises inside a tool if and only if it comes to call one that raises on these arguments; a `write_file` of what is no text is told apart from all others |
| Executor.NoDefaultDenyNoCrash | packages/runtime/aro_runtime/policy.py:35-67 | A bundle that does not deny by default never makes an execution crash for want of a rule |
| Executor.DenyAllCrashes | packages/runtime/aro_runtime/executor.py:147-175 | A valid job, with a bundle that only denies by default, of which every execution crashes |
| RunProperties.StepFits | packages/runtime/aro_runtime/executor.py:123-214 | Per step: a decision carries the id derived from run and step, a signal exists exactly for decisions other than allow, output, output digest, evidence and absence of an error go together, an artifact exists exactly for a successful write_file step, and the step counts as failed exactly when it has an error without being denied |
| RunProperties.AllFit | packages/runtime/aro_runtime/executor.py:123-214 | The same for every step of every finished execution |
| RunProperties.DecisionsInStepOrder | packages/runtime/aro_runtime/executor.py:123-214 | The decisions of a run come in the order of its steps, at most one a step |
| RunProperties.RunsKeepIdentity | packages/schema/aro_schema/models.py:258-282 | Every run the executor returns for a valid script passes the validator of stored runs: unique seat and decision ids, and no part of another run |
| RunProperties.RunsCorrespondToSteps | packages/runtime/aro_runtime/executor.py:86-221 | The run is of task, agent, model and seats of the script, with one step record per script step, its tool, owners, goal and input digest; risk signals match deny and needs_review decisions, evidence matches steps with output by digest, artifacts match successful write_file steps; none of these lists repeats or reorders its entries; and the run failed if and only if some step has an error and was not denied |
| RunProperties.ListsFollowSteps | packages/runtime/aro_runtime/executor.py:147-214 | Decisions, signals, evidence and artifacts come in the order of the steps, at most one a step; the artifacts are exactly those of the successful writes, with path, digest and size of the arguments |
| RunProperties.FinalWorkspaceIsRedone | packages/runtime/aro_runtime/executor.py:123-214 | The final workspace is the fold, over the initial one, of exactly the recorded writes and patches that produced an output |
| RunProperties.AmbientIsIrrelevant | packages/runtime/aro_runtime/executor.py:86-232 | Two executions on equal workspaces do the same whatever their clocks and run ids: they crash alike, or leave equal files and equal effects up to timestamps and derived ids |
| Traces.LoadTrace | packages/runtime/aro_runtime/trace.py:43-82 | Breaks the text into lines as Python does, parses all lines that are not blank, then reads the events in order |
| Traces.RefusedIff | packages/runtime/aro_runtime/trace.py:43-82 | A trace is refused if and only if a line that is not blank is no JSON, or there is no event, or the first is not run_start |
| Traces.WrittenLoadsIff | packages/runtime/aro_runtime/trace.py:35-47 | A written file reads back as its events if and only if every event was written on one line; otherwise it is refused as no JSON |
| Traces.OneLineIff | packages/runtime/aro_runtime/trace.py:36-47 | An event is on one line if and only if its JSON holds none of U+0085, U+2028 and U+2029, which the writer does not escape and the reader takes for line breaks |
| Traces.NumberingCodecWritesWell | packages/runtime/aro_runtime/trace.py:35-47 | For any events there is a codec that meets all that is assumed of JSON on them |
| Traces.NumberedOnOneLineIff | packages/runtime/aro_runtime/trace.py:36-47 | With it, too, an event is on one line if and only if its texts hold none of the three characters |
| Traces.FileReadsBack | packages/runtime/aro_runtime/trace.py:35-47 | The same for the decoding alone |
| Traces.LoadAppended | packages/runtime/aro_runtime/trace.py:43-82 | Reading is a left fold: a trace may be read in parts |
| Traces.LastStartCounts | packages/runtime/aro_runtime/trace.py:49-62 | A later run_start begins the run afresh: only events from the last one on count |
| Traces.UnknownIsIgnored | packages/runtime/aro_runtime/trace.py:49-79 | Events of unknown type change nothing, and a run_end without times keeps the times there are |
| RunProperties.TraceRoundTrip | packages/runtime/aro_runtime/trace.py:29-82 | Reading back the trace file of an execution gives its header and its run in every field but the reviewer seats, if every event is on one line; otherwise it is refused |
| RunProperties.FullRoundTripIff | packages/runtime/aro_runtime/trace.py:43-82 | The run comes back in full if and only if the script declares no reviewer seat, which no valid script does |
| RunProperties.SeparatorInScript | packages/runtime/aro_runtime/trace.py:36-47 | One such separator in an argument of the script is enough to make every trace of it unreadable |
| Replays.ReplayTrace | packages/runtime/aro_runtime/replay.py:22-82 | The report is that of the specification whose laws are stated below, the steps are really performed on the workspace, also up to an exception (that of writing what is no text set apart), and a refused trace leaves it alone |
| Replays.CompareRuns | packages/runtime/aro_runtime/replay.py:47-82 | The list of divergences over all step indices of either run |
| Replays.ReportLists | packages/runtime/aro_runtime/replay.py:32-82 | A report lists exactly: the workspace digest when a recorded one, not empty, differs; each step of one run only, as extra or missing; and of each common step every one of input digest, output digest and error that differs, and the deciding rule with its decision, each under its own name with the recorded and the replayed value |
| Replays.ReportListsOnce | packages/runtime/aro_runtime/replay.py:32-82 | And it lists nothing twice |
| Replays.ReplayLists | packages/runtime/aro_runtime/replay.py:22-82 | The same for the report of replaying any text that loads: which divergences are reported, with index, field and both values, in terms of the loaded run and the run of its script on this workspace |
| Replays.CleanIff | packages/runtime/aro_runtime/replay.py:32-82 | A report is clean if and only if the recorded workspace digest is absent or equal, the step counts agree, and at every index both digests, the error and the pair of rule id and decision agree |
| Replays.LabelInjective | packages/runtime/aro_runtime/replay.py:73-75 | The text "rule:decision" determines rule and decision, although rule ids may hold colons |
| Replays.ReportOrdered | packages/runtime/aro_runtime/replay.py:32-82 | Divergences come ordered by step index, the workspace first |
| Replays.SameEvidenceTwice | packages/runtime/aro_runtime/executor.py:86-232 | Executing a job twice gives the same evidence, whatever the clocks and run ids |
| Replays.ReplayIsExact | packages/runtime/aro_runtime/replay.py:22-82 | For any text that loads, whatever its header: replay raises exactly as running the script and policy of the header does; otherwise it is clean if and only if the recorded digest is absent or that of the workspace and the recorded run has, step by step, the evidence of that run |
| Replays.UntamperedReplayIsClean | packages/runtime/aro_runtime/replay.py:22-82 | The central promise and exactly when it is kept: replaying the trace file an execution wrote, on a workspace equal to the one it started from, reports no divergence and compares every step if and only if every event was written on one line; otherwise the trace is refused. The clocks of the two executions are arbitrary |
| Replays.SomeCodecFitsTrace | packages/runtime/aro_runtime/trace.py:35-47 | The trace of every execution has a codec that meets what the preceding row assumes |
| Replays.SeparatorDefeatsReplay | packages/runtime/aro_runtime/replay.py:22-32 | A valid job that always runs to its end and whose trace can never be replayed |
| Replays.HeaderEditUndetected | packages/runtime/aro_runtime/replay.py:27-82 | Edits of version, run id or coverage in a header are never detected |
| Replays.TamperedReplay | packages/runtime/aro_runtime/replay.py:22-82 | For any text that loads with the header of an execution, replay on the original workspace is clean if and only if the loaded run has, step by step, the evidence of the original run: exactly these edits are detected |
| Replays.DecisionForStep | packages/runtime/aro_runtime/replay.py:47-73 | The decision replay looks up for a step of an executed run is the one that step recorded |
| Timestamps.TextOrderIsTimeOrder | packages/runtime/aro_runtime/store.py:13-14 | For all timestamps of the years 1 to 9999, to the microsecond, lexical order of the ISO texts is chronological order, although the fraction is left out when it is zero |
| Timestamps.FractionOrder | packages/runtime/aro_runtime/store.py:13-14 | A left-out fraction sorts before every fraction, because the plus sign is before the point |
| Timestamps.InstantOrder | packages/runtime/aro_runtime/store.py:13-14 | Comparing year, month, day and time fields is comparing instants, leap years included |
| Timestamps.CalendarIsGregorian | packages/runtime/aro_runtime/store.py:13-14 | Four centuries have 146097 days, leap days fall on 2000 and 2024 but not on 1900, and day numbers are those of the proleptic Gregorian calendar |
| Timestamps.PadOrder | packages/runtime/aro_runtime/store.py:13-14 | Zero-padded numerals of one width sort as their numbers |
| Timestamps.IsoFormatInjective | packages/runtime/aro_runtime/store.py:13-14 | No two timestamps are written alike |
| Timestamps.Later | apps/worker/aro_worker/main.py:77-78 | Adding a delay moves the instant by exactly that many microseconds, and fails exactly beyond the year 9999 |
| Timestamps.FromInstant | apps/worker/aro_worker/main.py:77-78 | Every representable instant has a calendar timestamp that denotes it |
| WorkQueue.RunStore.ClaimNext | packages/runtime/aro_runtime/store.py:157-170 | Takes the available row with the least id and marks it running, or finds that no row is available and changes nothing; the claim holds the row as it was before |
| WorkQueue.RunStore.Enqueue | packages/runtime/aro_runtime/store.py:147-155 | Adds one pending row with no attempts under a fresh id and changes nothing else |
| WorkQueue.RunStore.Retry | packages/runtime/aro_runtime/store.py:177-184 | Only the row changes: pending again, with the attempts, the due time and the error |
| WorkQueue.RunStore.MarkDead | packages/runtime/aro_runtime/store.py:186-192 | Only the row changes: dead, with the attempts and the error |
| WorkQueue.RunStore.SaveRun | packages/runtime/aro_runtime/store.py:83-114 | Only the record of this run is inserted or replaced |
| WorkQueue.CreateQueuedRun | apps/api/aro_api/main.py:148-157 | A queued run is created by storing its pending placeholder and then enqueuing it |
| WorkQueue.ProcessOnce | apps/worker/aro_worker/main.py:42-80 | Claims at most one item, the first available one; the new tables are those after the claim and its settling (done with the run saved, or retry with the exponential delay, or dead with the stored run failed); an overflowing due time raises and leaves the row running |
| WorkQueue.Conclude | apps/worker/aro_worker/main.py:67-79 | The tables after a result, and when the due time overflows |
| WorkQueue.SuccessSettles | apps/worker/aro_worker/main.py:68-69 | A result is stored under its run and the row is done; nothing else changes |
| WorkQueue.FailureSettles | apps/worker/aro_worker/main.py:70-79 | The n-th failure makes the row dead with n attempts and the error, and the stored run failed, when n reaches the maximum; otherwise the row waits with n attempts and the error until an instant of exactly the delay after the failure, unless that cannot be written; nothing else changes |
| WorkQueue.WaitDoubles | apps/worker/aro_worker/main.py:77 | The first delay is the backoff, and every further failure doubles it |
| WorkQueue.HealthyWorkFailsIff | apps/worker/aro_worker/main.py:60-67 | With a known example that does not fail, a claim fails exactly while its attempts are below the number of injected failures |
| WorkQueue.FailPlaceholder | apps/worker/aro_worker/main.py:33-39 | Sets the stored run to failed when there is one, and leaves the queue alone |
| QueueProtocol.StepKeepsInv | packages/runtime/aro_runtime/store.py:147-192 | Every atomic store call of every worker, and every exception in a failure handler, keeps the invariant that ties rows, claims in progress, stored runs and the times of failures together |
| QueueProtocol.InitInv | packages/runtime/aro_runtime/store.py:67-81 | The empty store with idle workers satisfies the invariant |
| QueueProtocol.LocalChangeKeepsInv | packages/runtime/aro_runtime/pg_store.py:122-150 | A worker that changes only its own item, consistently, keeps the invariant for everyone: claims skip rows that others hold |
| QueueRuns.RunKeepsInv | packages/runtime/aro_runtime/store.py:147-192 | The invariant holds in every state of every run, for any number of workers and any interleaving |
| QueueRuns.ClaimedIffHeldOnce | packages/runtime/aro_runtime/store.py:157-170 | A row is running if and only if a worker, at work or stopped by an exception, holds its claim; never two hold it; and the attempts the holder read are those of the row |
| QueueRuns.RowLimits | apps/worker/aro_worker/main.py:70-79 | In every reachable state attempts are below the maximum, except that a dead row has exactly the maximum; a done row has a stored run with a final status; a dead row's run is failed or its worker is still on the way to fail it |
| QueueRuns.SettledForever | packages/runtime/aro_runtime/store.py:3-11 | done and dead are never left, and nothing of such a row changes any more |
| QueueRuns.ClaimsAreCounted | packages/runtime/aro_runtime/store.py:157-170 | Claims recorded in the history of an item are the claim steps of the run |
| QueueRuns.ClaimsPerItem | apps/worker/aro_worker/main.py:70-79 | An item is claimed at most max_attempts times: as often as it failed, plus one for a success or a claim still held |
| QueueRuns.ClaimsBounded | apps/worker/aro_worker/main.py:42-80 | Claims in a run are at most max_attempts times the items enqueued |
| QueueRuns.WorkerStepsBounded | apps/worker/aro_worker/main.py:42-80 | Termination: for a given number of items workers take at most five steps per allowed claim |
| QueueRuns.NotStuck | apps/worker/aro_worker/main.py:42-80 | Progress: while an item is neither settled nor held by a stopped worker, and some worker is left, either a worker goes on whatever its work comes to and whatever its clock says, or any idle worker can claim the item as soon as its clock has reached the due time |
| QueueRuns.BusyWorkerGoesOn | apps/worker/aro_worker/main.py:60-79 | A worker at work has a step for every result: a saved run, a retry, a burial, or the exception of an overflowing retry time |
| QueueRuns.StoppedForever | apps/worker/aro_worker/main.py:77-78 | An overflowing retry time costs an item for good: from then on its row stays running, unchanged |
| QueueRuns.OverflowHappens | apps/worker/aro_worker/main.py:77-78 | A concrete run that comes to this |
| QueueRuns.FailuresFarApart | apps/worker/aro_worker/main.py:70-79 | Between the first failure of an item and a later one after n failures lie at least backoff * (2^n - 1); for the one that buries it, backoff * (2^(max-1) - 1) |
| QueueRuns.AvailableWhenDue | packages/runtime/aro_runtime/store.py:157-170 | In every state that satisfies the invariant a waiting row can be claimed from exactly the delay after its last failure on |
| QueueRuns.RetriedExactlyWhenDue | apps/worker/aro_worker/main.py:69-79 | Over whole runs: after a failure that is retried, and until the item is claimed again, an idle worker can claim it if and only if its clock has reached the instant of that failure plus the delay |
| QueueRuns.ChaosOutcome | apps/worker/aro_worker/main.py:83-92 | With N injected failures and no others, a settled item is done after exactly N + 1 claims when N < max, and dead after exactly max claims otherwise |
| QueueRuns.ChaosEnds | apps/worker/aro_worker/main.py:83-92 | A chaos run in which no worker has a step left has settled every item but those held by stopped workers |
| QueueRuns.ChaosRunsEnd | apps/worker/aro_worker/main.py:83-92 | Every chaos run comes to that: worker steps that chaos allows extend it to a run in which none is left |
| QueueRuns.ChaosSettles | apps/worker/aro_worker/main.py:83-92 | When no retry time overflows, such a run ends with every item done after exactly N + 1 claims if N < max, and dead after exactly max claims otherwise |
| QueueRuns.ProcessOnceFollowsProtocol | apps/worker/aro_worker/main.py:42-80 | What the worker method does to the tables, for every result and every clock, is what a sequence of enabled protocol steps of one worker does |
| QueueRuns.CreateQueuedRunFollowsProtocol | apps/api/aro_api/main.py:148-157 | Creating a queued run under a fresh id is two enabled steps of the protocol |
| ReviewDebt.MatchesIff | packages/schema/aro_schema/review_debt.py:90-103 | A subject digest matches a run if and only if it is the version-2 digest of the run's canonical subject: unversioned, revoked, unknown and oddly written versions never match |
| ReviewDebt.SubjectIsContent | packages/schema/aro_schema/review_debt.py:53-67 | The canonical subjects of two runs are equal if and only if the runs agree in id, task, agent, model and seats, at every step in index, both digests and error, and at every decision in all fields but the run id |
| ReviewDebt.JoinAttestations | packages/schema/aro_schema/review_debt.py:110-120 | The two dictionaries of the join hold, for every decision id, the first clearing attestation and whether a stale one names it |
| ReviewDebt.ComputeReviewDebt | packages/schema/aro_schema/review_debt.py:106-140 | The derived items are those whose meaning the next two rows state |
| ReviewDebt.ItemsSay | packages/schema/aro_schema/review_debt.py:106-140 | An item belongs to a needs_review decision of the run and is cleared if and only if some non-reject attestation names it under the current subject, whose id and author it then shows; it is stale if and only if it is open and a non-reject attestation names it under another subject |
| ReviewDebt.EveryDecisionOwes | packages/schema/aro_schema/review_debt.py:123-139 | Every needs_review decision has its item |
| ReviewDebt.OneItemEach | packages/schema/aro_schema/review_debt.py:122-139 | There is exactly one item for each needs_review decision, in the order of the decisions |
| ReviewDebt.FirstClearing | packages/schema/aro_schema/review_debt.py:110-118 | Nothing is found exactly when no attestation clears the decision; what is found does clear it |
| ReviewDebt.AttestingNeverReopens | packages/schema/aro_schema/review_debt.py:106-140 | Adding attestations to an unchanged run never reopens an item nor changes who cleared it |
| ReviewDebt.PreparedIsFounded | apps/api/aro_api/main.py:196-246 | Every attestation the API writes is bound to the run it read by the version-2 digest, names a seat that run declares, clears only its needs_review decisions, never by rejecting, and has a named author and scope |
| ReviewDebt.RefusedIff | apps/api/aro_api/main.py:202-248 | Each refusal is given exactly when it is the first that applies: a seat the run does not declare, clearing without a seat, clearing by rejecting, a decision that is no needs_review decision of the run, a blank author or scope |
| ReviewDebt.PreparedIsRequested | apps/api/aro_api/main.py:213-246 | An accepted request is written down field by field as it was made, each decision named once |
| ReviewDebt.AttestationStore.CreateAttestation | apps/api/aro_api/main.py:196-250 | Refuses for the first reason that applies, in the order of the code, or stores exactly one attestation |
| ReviewDebt.AttestationStore.SaveAttestation | packages/runtime/aro_runtime/store.py:205-217 | The attestation becomes the latest; one with the same id is replaced |
| ReviewDebt.NewIdRemovesNothing | packages/runtime/aro_runtime/store.py:205-217 | With a new id no attestation is lost |
| ReviewDebt.AttestationStore.ListAttestations | packages/runtime/aro_runtime/store.py:219-225 | The attestations of one run in the order in which they were written |
| ReviewDebt.ListedInOrder | packages/runtime/aro_runtime/store.py:219-225 | Later attestations are listed after earlier ones |
| ReviewDebt.AttestationStore.GetReviewDebt | apps/api/aro_api/main.py:185-193 | The debt of a run that an earlier store call read, from the attestations of that run as they are stored now |
| ReviewDebt.EventKeepsInv | apps/api/aro_api/main.py:196-250 | Each overwrite, each read and each write of an API call keeps the invariant that every attestation, written or in flight, is founded in some content the run had |
| ReviewDebt.HistoryKeepsInv | apps/api/aro_api/main.py:196-250 | The invariant over whole histories |
| ReviewDebt.ClearedMeansReviewed | packages/schema/aro_schema/review_debt.py:106-140 | Over every history of overwrites and API attestations, with reads and writes interleaved at will, and for a run read at one moment with attestations read at a later one, an item is cleared only if a declared seat attested its decision, not rejecting, against a content of the run whose canonical subject has the digest of the run that was read |
| ReviewDebt.ClearedMeansCurrentSeat | packages/schema/aro_schema/review_debt.py:106-140 | If the contents of the run do not collide, the content attested and the one read agree in all bound fields, so seat and decision are those of the run that was read |
| ReviewDebt.OverwritingReopens | packages/schema/aro_schema/review_debt.py:106-140 | Overwriting a run with content that differs from all earlier ones in some bound field, without collision, reopens every item: nothing read before clears anything, even if it is written later, and an item is stale exactly when a non-reject attestation names it |
| ReviewDebt.SameContentSameDebt | packages/schema/aro_schema/review_debt.py:53-67 | Overwriting only what is not bound keeps every item as it is |
| Binomials.CombFactorial | packages/clinic/src/wutai_clinic/engine/power.py:48 | The recursive binomial coefficient is the quotient of factorials |
| Binomials.BelowRecurrence | packages/clinic/src/wutai_clinic/engine/power.py:31-49 | A binomial tail over n + 1 trials is the mixture of two tails over n trials, for every p |
| Binomials.BelowAll | packages/clinic/src/wutai_clinic/engine/power.py:31-49 | The probabilities of all outcomes sum to one |
| Binomials.BelowFallsWithRate | packages/clinic/src/wutai_clinic/engine/power.py:88-98 | The lower tail does not increase with the rate, for every number of trials and every count |
| Binomials.BelowFallsWithTrials | packages/clinic/src/wutai_clinic/engine/power.py:155-186 | The lower tail does not increase with the number of trials |
| Power.ExactBinomialTail | packages/clinic/src/wutai_clinic/engine/power.py:31-49 | Rejects exactly the invalid arguments; the sum with its guards is the tail, and the cap at one never changes anything |
| Power.TailIsProbability | packages/clinic/src/wutai_clinic/engine/power.py:31-49 | The tail lies between zero and one, and its guards agree with the sum |
| Power.MaxEffectExcluded | packages/clinic/src/wutai_clinic/engine/power.py:88-113 | After 200 halvings the result is a rate whose tail is at least 1 - confidence, and every rate more than 2^-200 above it has a smaller tail. In exact arithmetic it is the largest rate that is not excluded if and only if that one is below one and a multiple of 2^-200 |
| Power.RequiredPairs | packages/clinic/src/wutai_clinic/engine/power.py:116-152 | The effective number is the least that reaches the power (or the search limit was passed), the total the least that yields so many at the hit rate; errors exactly on arguments out of range |
| Power.AtLeastOneIs | packages/clinic/src/wutai_clinic/engine/power.py:52-56 | The upper tail at one is one minus the chance of no success |
| Power.LargestFutile | packages/clinic/src/wutai_clinic/engine/power.py:174-181 | The search that stops at the first count that is not futile finds the largest futile one |
| Power.FutilityBoundary | packages/clinic/src/wutai_clinic/engine/power.py:155-186 | At every checkpoint the boundary is the largest futile count or zero, decided at that checkpoint alone: the forced monotonicity changes nothing beyond the floor at zero. The boundary is a futile count if and only if (1 - target)^k <= alpha |
| Power.BoundaryFutileIff | packages/clinic/src/wutai_clinic/engine/power.py:173-185 | The condition of the last sentence, for any boundary |
| Power.FirstBoundaryIsNotFutile | packages/clinic/src/wutai_clinic/engine/power.py:173-185 | At target 0.3 and alpha 0.1 the first boundary is 0 although no count is futile |
| Power.StaysFutile | packages/clinic/src/wutai_clinic/engine/power.py:182-184 | What is futile after k trials is futile after k + 1 |
| Binomials.Vandermonde | packages/clinic/src/wutai_clinic/engine/sensitivity.py:66-77 | The products of coefficients over all tables of fixed margins add up to the coefficient of the whole |
| Sensitivity.FisherExactOneSided | packages/clinic/src/wutai_clinic/engine/sensitivity.py:42-77 | The summed probabilities are the share of the tables at least as extreme as the observed one; skipping below the margin and the clamp at one never change anything; errors exactly on invalid cells |
| Sensitivity.ShareIsProbability | packages/clinic/src/wutai_clinic/engine/sensitivity.py:42-77 | The p-value is positive and at most one, and is one if and only if the observed count is the least the margins allow |
| Sensitivity.ShareFalls | packages/clinic/src/wutai_clinic/engine/sensitivity.py:42-77 | With the margins fixed a larger treatment count never has a larger p-value |
| Sensitivity.ArmsExchanged | packages/clinic/src/wutai_clinic/engine/sensitivity.py:66-77 | The p-value and that of the arms exchanged, one outcome apart, add up to one: it counts exactly the tables at least as extreme in the treatment arm |
| Sensitivity.PerfectSeparation | packages/clinic/src/wutai_clinic/engine/sensitivity.py:105-110 | For a perfect balanced cell of size n the p-value is 1 / C(2n, n) |
| Sensitivity.PerfectCellDetectedIff | packages/clinic/src/wutai_clinic/engine/sensitivity.py:105-116 | At alpha 0.05 that p-value clears the tolerance if and only if n >= 4, for all n |
| Sensitivity.ClassifySensitivity | packages/clinic/src/wutai_clinic/engine/sensitivity.py:80-116 | The label by the number of resolved treatments and the p-value; an empty treatment arm is the only error |
| Sensitivity.CountTrueIs | packages/clinic/src/wutai_clinic/engine/sensitivity.py:97-98 | Resolved outcomes are counted wherever they stand |
| Sensitivity.ClassifyPerfectCell | packages/clinic/src/wutai_clinic/engine/sensitivity.py:80-116 | The code labels a perfect balanced cell detected exactly from four on, underpowered below |
| PrunerKernel.CalculateWindowStr | packages/clinic/src/wutai_clinic/engine/pruner.py:98-111 | The double loop computes the weighted share of equal pairs |
| PrunerKernel.WindowPassesIffAllEqual | packages/clinic/src/wutai_clinic/engine/pruner.py:98-111 | With the weights, the window of five and the threshold 8/9 of the code, a window passes if and only if all five signatures are equal |
| Pruner.StructuralScan | packages/clinic/src/wutai_clinic/engine/pruner.py:203-218 | The scan drops exactly the repeated turns of consecutive windows of equal signatures |
| Pruner.RunIsThinned | packages/clinic/src/wutai_clinic/engine/pruner.py:203-218 | Of a maximal run of m equal signatures the k-th turn is dropped if and only if k is no multiple of five and lies in one of the full fives, wherever the scan stood before |
| Pruner.RunKeeps | packages/clinic/src/wutai_clinic/engine/pruner.py:203-218 | Exactly m - 4 * floor(m / 5) turns of a maximal run of m remain |
| Pruner.PrunedSegmentLength | packages/clinic/src/wutai_clinic/engine/pruner.py:203-221 | A structurally pruned segment of more than five turns has as many turns as the sum of m - 4 * floor(m / 5) over its maximal runs; a shorter one keeps all |
| Pruner.NoSignatureLost | packages/clinic/src/wutai_clinic/engine/pruner.py:203-218 | For every turn an equal one, at or before it, is kept |
| Pruner.CutIsComplete | packages/clinic/src/wutai_clinic/engine/pruner.py:162-174 | Cutting at restarts loses and reorders nothing |
| Pruner.CutTrajectory | packages/clinic/src/wutai_clinic/engine/pruner.py:162-174 | The segments, and the signals set in place on the turns before and at each cut and on no others |
| Pruner.CutsAtIff | packages/clinic/src/wutai_clinic/engine/pruner.py:162-174 | A restart is a cut exactly when at least five turns lie before it and none of the last four turns was a cut |
| Pruner.NoCutAfterCut | packages/clinic/src/wutai_clinic/engine/pruner.py:165-172 | The two signals never fall on the same turn, since a cut leaves an open segment of one turn |
| Pruner.CutsFarApart | packages/clinic/src/wutai_clinic/engine/pruner.py:164-172 | Cuts lie at least five turns from the start and from each other, so every segment but the last has at least five turns |
| Pruner.PruneSingleTrajectory | packages/clinic/src/wutai_clinic/engine/pruner.py:154-222 | The output is that of the specification of which the next two rows speak, and the signals afterwards are those of the cuts; up to five turns nothing changes at all |
| Pruner.ScoreIsAverage | packages/clinic/src/wutai_clinic/engine/pruner.py:114-127 | The semantic score is a weighted average: where all pairs are equally similar, it is their similarity |
| Pruner.SimilarTurnsAreThinned | packages/clinic/src/wutai_clinic/engine/pruner.py:185-201 | Of equally similar turns the semantic scan keeps the first of each full five and drops the others if they are similar by more than 7/9, and drops none otherwise |
| Pruner.OnlySimilarDropped | packages/clinic/src/wutai_clinic/engine/pruner.py:185-201 | The semantic scan drops a turn only if it is similar to the one before by more than 7/9, inside a window of average at least 7/9 |
| Pruner.WithoutReasoningStructural | packages/clinic/src/wutai_clinic/engine/pruner.py:183 | Without the flag, or without a turn that has reasoning, a segment is pruned by its signatures |
| Pruner.PrunedIsSubsequence | packages/clinic/src/wutai_clinic/engine/pruner.py:154-222 | Pruning only drops turns: the output is a subsequence of the input, with either kernel and whatever the similarities are |
| Pruner.EverySignatureKept | packages/clinic/src/wutai_clinic/engine/pruner.py:154-222 | With the structural kernel every signature of the trajectory occurs in the output |
| RateLimits.RateLimiter.Allow | apps/api/aro_api/main.py:70-79 | Switched off at zero or less; otherwise the request is counted, in a new window when sixty seconds have passed, and let in while the count is within the limit |
| RateLimits.RateLimiter.Serve | apps/api/aro_api/main.py:60-79 | Over a whole sequence of requests the answers are those of the history of which the next rows speak |
| RateLimits.WindowAdmitsUpToLimit | apps/api/aro_api/main.py:60-79 | Of every window exactly as many requests are let in as the smaller of the limit and the requests that came, whatever the times are |
| RateLimits.SinceStaysBounded | apps/api/aro_api/main.py:60-79 | The invariant behind the next row |
| RateLimits.AtMostTwiceTheLimit | apps/api/aro_api/main.py:60-79 | At non-decreasing times no half-open sixty seconds see more than twice the limit let in |
| RateLimits.TwiceTheLimitIsReached | apps/api/aro_api/main.py:60-79 | For every limit some history reaches twice the limit, so the bound cannot be lowered |
| TextLines.LinesAppend | packages/clinic/src/wutai_clinic/evidence/manifest_tool.py:87 | Text up to a line feed and text after it break into lines separately, whatever other line breaks they hold |
| TextLines.LinesOfTerminated | packages/clinic/src/wutai_clinic/evidence/manifest_tool.py:69-87 | Lines without breaks come back as they were written |
| TextLines.LinesSplitAtBreak | packages/clinic/src/wutai_clinic/evidence/manifest_tool.py:87 | Each line ends at its first break, where a carriage return with the line feed after it is one break |
| TextLines.StripTakesSpace | packages/clinic/src/wutai_clinic/evidence/manifest_tool.py:88 | Stripping takes away nothing but whitespace |
| TextLines.SplitJoined | packages/clinic/src/wutai_clinic/evidence/manifest_tool.py:59-94 | Splitting from the right at double spaces undoes joining, whatever double spaces the first part holds or ends in |
| Manifests.GenerateManifestFile | packages/clinic/src/wutai_clinic/evidence/manifest_tool.py:45-74 | The text, the number of files and the total of bytes of a tree |
| Manifests.EvidenceIff | packages/clinic/src/wutai_clinic/evidence/manifest_tool.py:34-42 | A file counts unless it is called like the manifest, or its own name or that of a directory above it, within or above the root, is one of the three skipped names |
| Manifests.GeneratedLines | packages/clinic/src/wutai_clinic/evidence/manifest_tool.py:56-69 | Line by line: a manifest is the header with the number of the files and the total of their bytes, the note if any, an empty line, and one row for each file that counts |
| Manifests.BytesAddUp | packages/clinic/src/wutai_clinic/evidence/manifest_tool.py:56-58 | The total of bytes is the sum over the files |
| Manifests.PrintedRowParses | packages/clinic/src/wutai_clinic/evidence/manifest_tool.py:59-95 | A row with a clean path is read back as it was printed |
| Manifests.RoundTripIff | packages/clinic/src/wutai_clinic/evidence/manifest_tool.py:45-95 | Parsing a manifest gives back exactly its rows if and only if every path is one line that begins with neither whitespace nor "#", and the header holds no row |
| Manifests.HeaderHoldsNoRow | packages/clinic/src/wutai_clinic/evidence/manifest_tool.py:60-69 | A stamp and a note of one line each put no row into the header |
| Manifests.HeaderRowsAreOfNote | packages/clinic/src/wutai_clinic/evidence/manifest_tool.py:60-95 | The rows a header holds are exactly those on the lines of its note after the first |
| Manifests.NoteMayHoldRow | packages/clinic/src/wutai_clinic/evidence/manifest_tool.py:66-67 | A note with a line feed can put a row into the header |
| Manifests.ReadManifest | packages/clinic/src/wutai_clinic/evidence/manifest_tool.py:86-95 | The expected files by path, the last row of a path winning; one size that is no number fails the whole reading |
| Manifests.ExpectedIsLast | packages/clinic/src/wutai_clinic/evidence/manifest_tool.py:86-95 | Expected is exactly what some row names, as the last of its rows says |
| Manifests.VerifyManifestFile | packages/clinic/src/wutai_clinic/evidence/manifest_tool.py:77-115 | The report of the specification whose meaning the next rows state |
| Manifests.ReportSays | packages/clinic/src/wutai_clinic/evidence/manifest_tool.py:97-115 | Of any manifest that can be read, path by path: missing if named and not there, mismatched if there with a digest other than in the last row of the path, untracked if a file that counts is not named; ok if there is none of these |
| Manifests.VerificationIsExact | packages/clinic/src/wutai_clinic/evidence/manifest_tool.py:77-115 | Against any later tree, here or copied elsewhere, missing, untracked and mismatched are exactly the differences of the two trees (the two roots need only agree on lying in a skipped directory) |
| Manifests.PassesIffUnchanged | packages/clinic/src/wutai_clinic/evidence/manifest_tool.py:77-115 | Verification passes if and only if the set of evidence files and all their hashes are unchanged |
| Manifests.OwnManifestPassesIff | packages/clinic/src/wutai_clinic/evidence/manifest_tool.py:45-115 | A tree passes against its own manifest if and only if all its evidence paths are clean |
| Manifests.HashTreeFails | packages/clinic/src/wutai_clinic/evidence/manifest_tool.py:45-115 | A tree whose one file begins with "#" fails against its own manifest |

## Left out

* SQL, JSON bytes, sha256, file reads, hooks, telemetry, metrics, the HTTP layer, the user interface and the command
  line: they hold no property beyond the core they call. Digests are abstract functions.
* `run_tests`, `web_fetch`, `shell` and `summarize` are one arbitrary function of tool, files and arguments.
* Regular expressions in policies and the parsing of URLs are arbitrary functions; step markers are modelled
  character by character, and which characters above ASCII are decimal digits is a parameter.
* Executor.ExecuteScript: files hold texts, so after a `write_file` step whose path or content is no text nothing is
  said of files and trace; by the time it raises, the source may have stored the value and written the evidence line
  (`executor.py:179-201`). Which exception a raising tool raises is not modelled.
* Executor.ExecuteStep: the same exception of the same step.
* Replays.ReplayTrace: the same exception of a step of the header's script.
* StepReferences.FailsIffMissing: Python 3.11 refuses to convert more than 4300 digits (`executor.py:71`), an
  exception that is not caught; here such a marker names a step without output.
* EvidenceChains.EvidenceChain.VerifyUpstream: an input path that is a directory exists in the source, and hashing it
  against a recorded digest raises out of `run_node` (`chain.py:81-85`); here only files exist.
* JSON is an abstract pair of functions with the properties of `Traces.WellWritten`, assumed of the events of the
  trace in question; an event with ill-typed fields counts as a line that cannot be read.
* Digests may collide: a replay on a different workspace of equal digest counts as a replay on the same one, as in
  the code.
* A worker that dies in the middle of an item, and several processes on one SQLite file: the code has no lease and no
  claim across processes, so there is no guarantee to state.
* Exceptions of the store calls themselves inside `process_once`; the protocol does allow a failure after the run
  was saved.
* `QueueProtocol` lets a claim take any available row, which covers `SKIP LOCKED`; that one worker alone takes the
  first is in `WorkQueue.RunStore.ClaimNext`.
* Backoff is a whole number of microseconds, workers' clocks do not run backwards between claim and failure, run ids
  of new runs are fresh, and all workers share one `max_attempts >= 1`.
* `list_runs`, `list_queue`, `all_runs`, the denial counts and durations of run summaries, run and task payloads
  beyond the fields that matter.
* `created_at` order of attestations is the order of writing. An attestation with a known id replaces the old one and
  is the latest, as in SQLite; Postgres keeps its place.
* Floating-point rounding, also where it helps: at full confidence the bisection of `power.py:107-113` reaches one.
  `lgamma` and `exp` of the coefficients are the exact binomial coefficients they stand for;
  the weight exp(-3) of the pruner is any real in (0, 1/2].
* `discordant_pair_test`, the assembly of reports, Wilson and Acklam quantiles: one formula each over what is proved.
* How a turn's signature, its restart flag and its reasoning are derived from its text, and the similarity score;
  they are given with the turn or by an arbitrary function.
* Turns of a trajectory are different objects; a list that holds one turn twice would share its signal.
* `deduplicate`, ranking, hygiene, policies by source kind.
* Times of requests to the limiter are taken in the order in which they get the lock; the bound over arbitrary
  sixty seconds needs that order to be non-decreasing.
* The sorted lists of a verification report are sets, `iter_evidence_files` lists in an arbitrary fixed order, the
  root exists, and the path below the root that a text names is an arbitrary function that is the identity on plain
  relative paths. Symbolic links are not modelled.
* Gate checks are functions of the context they are given; a check that changes its context is not modelled.
* The files a node looks at do not change while it is run; the blocking failures of a report are a set, not a list.
