/**
  The runtime loop: resolve the arguments of each scripted step, gate it through the policy, run its
  tool and record what happened, in the run and in the trace. Exceptions that nothing catches are results.
 */
module Executor {
  import opened Text
  import opened StepReferences
  import opened RunRecords
  import opened Policies
  import opened Tools
  import opened Traces

  const PREVIEW_CHARS := 200

  const SCRIPTED_COVERAGE := Coverage(
    ["step_inputs_and_outputs_by_digest", "policy_decisions", "risk_signals", "evidence_items", "artifacts",
     "jsonl_trace"],
    ["Tools are in-process simulations; no real shell, network, or filesystem is observed.",
     "LLM/model internals are out of scope for the scripted runner."],
    ["Policy is enforced before every tool step (deny blocks execution).",
     "needs_review executes but records review debt; nothing consumes it automatically."])

  /** Exceptions that no handler of the loop catches. A write_file whose path or content is no text raises
      only after it has stored the value; what such a step leaves behind is not modelled. */
  datatype Crash = UnknownTool | ToolRaised | NonTextWrite | NoRuleToBlame

  /** Everything one step adds to the run. */
  datatype Effect = Effect(
    record: StepRecord,
    decision: Option<PolicyDecision>,
    signal: Option<RiskSignal>,
    evidence: Option<EvidenceItem>,
    artifact: Option<Artifact>,
    output: Option<string>,
    failed: bool)

  /** A step that raises, other than by a non-text write, has changed no file; `written` are the lines it had
      already written. */
  datatype StepOutcome = Done(effect: Effect, files: Files) | Raised(crash: Crash, written: seq<Event>)

  /** What is executed: the foreign code, the script and the policy bundle. */
  datatype Job = Job(w: Foreign, script: Script, policy: Policy)

  /******* One step *******/

  function BlankRecord(job: Job, a: Ambient, i: nat, args: Args): StepRecord
    requires i < |job.script.steps|
  {
    var scripted := job.script.steps[i];
    StepRecord(i, ToolCall, scripted.tool, args, scripted.allocatedTo, scripted.supportsGoal,
               job.w.digestObj(scripted.tool, args), None, None, None, a.stepStartedAt(i), a.stepMillis(i), None)
  }

  function DecisionOf(job: Job, runId: string, i: nat, v: Verdict): Option<PolicyDecision> {
    if v.rule.None? then None
    else
      var id := runId + "-pd-" + NatToString(i);
      Some(PolicyDecision(id, runId, i, job.policy.id, v.rule.value.id, v.decision, v.reason))
  }

  function SignalOf(runId: string, i: nat, tool: string, v: Verdict): Option<RiskSignal> {
    if v.rule.None? || v.decision.Allow? then None
    else Some(RiskSignal(runId + "-rs-" + NatToString(i), runId, i, v.rule.value.severity, v.rule.value.category,
                         "rule " + v.rule.value.id + " matched " + tool + ": " + v.reason))
  }

  function EvidenceOf(job: Job, runId: string, i: nat, tool: string, text: string): EvidenceItem {
    EvidenceItem(runId + "-ev-" + NatToString(i), runId, i, "tool_output", job.w.digestText(text), "output of " + tool)
  }

  predicate EndsWith(s: string, suffix: string) {
    |suffix| <= |s| && s[|s| - |suffix|..] == suffix
  }

  function ArtifactOf(job: Job, runId: string, i: nat, path: string, content: string): Artifact {
    Artifact(runId + "-art-" + NatToString(i), runId, path, job.w.digestText(content),
             if EndsWith(path, ".md") then "text/markdown" else "text/plain", job.w.utf8Length(content))
  }

  function IdOf(d: Option<PolicyDecision>): Option<string> {
    if d.Some? then Some(d.value.id) else None
  }

  function Preview(text: string): string {
    if |text| <= PREVIEW_CHARS then text else text[..PREVIEW_CHARS]
  }

  function VerdictOn(job: Job, i: nat, args: Args): Verdict
    requires i < |job.script.steps|
  {
    Evaluate(job.w, job.policy, job.script.steps[i].tool, args)
  }

  /** What a step has recorded once the policy has been asked. */
  function GatedEffect(job: Job, a: Ambient, runId: string, i: nat, args: Args): (e: Effect)
    requires i < |job.script.steps|
  {
    var v := VerdictOn(job, i, args);
    var decision := DecisionOf(job, runId, i, v);
    Effect(BlankRecord(job, a, i, args).(decisionId := IdOf(decision)), decision,
           SignalOf(runId, i, job.script.steps[i].tool, v), None, None, None, false)
  }

  /** What a step has recorded after its tool returned a text. */
  function AfterOutput(job: Job, runId: string, i: nat, args: Args, e: Effect, text: string): Effect
    requires i < |job.script.steps|
    requires job.script.steps[i].tool == "write_file" ==> HasTexts(args)
  {
    var tool := job.script.steps[i].tool;
    var item := EvidenceOf(job, runId, i, tool, text);
    var record := e.record.(outputDigest := Some(item.digest), outputPreview := Some(Preview(text)));
    if tool == "write_file" then
      var path, content := Lookup(args, "path").value.s, Lookup(args, "content").value.s;
      e.(record := record.(kind := ArtifactWrite), evidence := Some(item), output := Some(text),
         artifact := Some(ArtifactOf(job, runId, i, path, content)))
    else e.(record := record, evidence := Some(item), output := Some(text))
  }

  function PolicyLines(e: Effect): seq<Event> {
    (if e.decision.Some? then [PolicyDecisionEvent(e.decision.value)] else [])
    + (if e.signal.Some? then [RiskSignalEvent(e.signal.value)] else [])
  }

  /** The tool call of a step that the policy let through; `e` holds what the step has recorded so far. */
  function PerformTool(job: Job, runId: string, i: nat, args: Args, e: Effect, files: Files): StepOutcome
    requires i < |job.script.steps|
  {
    var tool := job.script.steps[i].tool;
    if tool !in TOOLS then Raised(UnknownTool, PolicyLines(e))
    else
      var call := CallTool(job.w, tool, files, args);
      match call.result
      case ToolCrash => Raised(if WritesNonText(tool, args) then NonTextWrite else ToolRaised, PolicyLines(e))
      case ToolError(message) => Done(e.(record := e.record.(error := Some(message)), failed := true), call.files)
      case Output(text) =>
        Done(AfterOutput(job, runId, i, args, e, text), call.files)
  }

  /** The rest of a step: a denied step is only recorded, any other runs its tool. */
  function PerformGated(job: Job, runId: string, i: nat, args: Args, e: Effect, files: Files): StepOutcome
    requires i < |job.script.steps|
  {
    var v := VerdictOn(job, i, args);
    if v.decision.Deny? then
      if v.rule.None? then Raised(NoRuleToBlame, PolicyLines(e))
      else Done(e.(record := e.record.(error := Some("blocked by policy rule " + v.rule.value.id))), files)
    else PerformTool(job, runId, i, args, e, files)
  }

  function PerformStep(
    job: Job, a: Ambient, runId: string, i: nat, outputs: seq<Option<string>>, files: Files): StepOutcome
    requires i < |job.script.steps|
  {
    var scripted := job.script.steps[i];
    match ResolveArgs(job.w.digits, scripted.args, outputs)
    case NoOutput(n) =>
      var error := "step " + NatToString(n) + " has no output to reference";
      var record := BlankRecord(job, a, i, scripted.args).(error := Some(error));
      Done(Effect(record, None, None, None, None, None, true), files)
    case Ok(args) => PerformGated(job, runId, i, args, GatedEffect(job, a, runId, i, args), files)
  }

  /******* The whole run *******/

  /** The effects of the steps that were completed and the files they left; a crash comes from the step after
      these, which had already written some lines. */
  datatype Execution =
    | Finished(effects: seq<Effect>, files: Files)
    | Crashed(effects: seq<Effect>, files: Files, crash: Crash, written: seq<Event>)

  function Outputs(effects: seq<Effect>): (outputs: seq<Option<string>>)
    ensures |outputs| == |effects|
  {
    seq(|effects|, i requires 0 <= i < |effects| => effects[i].output)
  }

  /** The first `n` steps, executed on the given files. */
  function Execute(job: Job, a: Ambient, runId: string, n: nat, files: Files): (x: Execution)
    requires n <= |job.script.steps|
    ensures if x.Finished? then |x.effects| == n else |x.effects| < n
  {
    if n == 0 then Finished([], files)
    else
      var x := Execute(job, a, runId, n - 1, files);
      if x.Crashed? then x
      else
        match PerformStep(job, a, runId, n - 1, Outputs(x.effects), x.files)
        case Raised(crash, written) => Crashed(x.effects, x.files, crash, written)
        case Done(effect, after) => Finished(x.effects + [effect], after)
  }

  function DecisionIn(e: Effect): Option<PolicyDecision> { e.decision }

  function SignalIn(e: Effect): Option<RiskSignal> { e.signal }

  function EvidenceIn(e: Effect): Option<EvidenceItem> { e.evidence }

  function ArtifactIn(e: Effect): Option<Artifact> { e.artifact }

  function Collect<T>(effects: seq<Effect>, pick: Effect -> Option<T>): seq<T> {
    if effects == [] then []
    else
      var last := pick(effects[|effects| - 1]);
      Collect(effects[..|effects| - 1], pick) + if last.Some? then [last.value] else []
  }

  lemma CollectOneMore<T>(effects: seq<Effect>, effect: Effect, pick: Effect -> Option<T>)
    ensures Collect(effects + [effect], pick) ==
            Collect(effects, pick) + if pick(effect).Some? then [pick(effect).value] else []
  {
    assert (effects + [effect])[..|effects|] == effects;
  }

  predicate AnyFailed(effects: seq<Effect>) {
    exists e :: e in effects && e.failed
  }

  /** The run while its steps execute. */
  function RunSoFar(job: Job, a: Ambient, runId: string, effects: seq<Effect>): AgentRun {
    AgentRun(runId, job.script.task.id, job.script.agent, job.script.model, Running, Some(a.startedAt), None,
             Some(SCRIPTED_COVERAGE), job.script.reviewerSeats,
             seq(|effects|, i requires 0 <= i < |effects| => effects[i].record),
             Collect(effects, DecisionIn), Collect(effects, SignalIn),
             Collect(effects, EvidenceIn), Collect(effects, ArtifactIn))
  }

  /** The run with everything one step records appended to its lists. */
  function Extend(run: AgentRun, e: Effect): AgentRun {
    run.(
      steps := run.steps + [e.record],
      policyDecisions := run.policyDecisions + if e.decision.Some? then [e.decision.value] else [],
      riskSignals := run.riskSignals + if e.signal.Some? then [e.signal.value] else [],
      evidence := run.evidence + if e.evidence.Some? then [e.evidence.value] else [],
      artifacts := run.artifacts + if e.artifact.Some? then [e.artifact.value] else [])
  }

  function FinishedRun(job: Job, a: Ambient, runId: string, effects: seq<Effect>): AgentRun {
    RunSoFar(job, a, runId, effects).(
      status := if AnyFailed(effects) then Failed else Completed, finishedAt := Some(a.finishedAt))
  }

  function HeaderOf(job: Job, runId: string, files: Files): Header {
    Header(TRACE_VERSION, runId, job.script, job.policy, Some(job.w.digestFiles(files)), Some(SCRIPTED_COVERAGE))
  }

  function OutputLines(e: Effect): seq<Event> {
    (if e.evidence.Some? then [EvidenceEvent(e.evidence.value)] else [])
    + (if e.artifact.Some? then [ArtifactEvent(e.artifact.value)] else [])
  }

  function StepEvents(e: Effect): seq<Event> {
    PolicyLines(e) + (OutputLines(e) + [StepEvent(e.record)])
  }

  function AllStepEvents(effects: seq<Effect>): seq<Event> {
    if effects == [] then []
    else AllStepEvents(effects[..|effects| - 1]) + StepEvents(effects[|effects| - 1])
  }

  function EndEvent(run: AgentRun): Event {
    RunEndEvent(run.status, run.startedAt, run.finishedAt)
  }

  /** The trace file of a completed execution. */
  function TraceOf(job: Job, a: Ambient, runId: string, effects: seq<Effect>, files: Files): seq<Event> {
    [RunStartEvent(HeaderOf(job, runId, files))] + AllStepEvents(effects)
    + [EndEvent(FinishedRun(job, a, runId, effects))]
  }

  /******* The loop, as it updates the workspace, the run and the trace *******/

  datatype RunOutcome = Returned(run: AgentRun) | Threw(crash: Crash)

  method ExecuteTool(
    job: Job, runId: string, i: nat, args: Args, before: Effect, workspace: Workspace, writer: TraceWriter)
    returns (outcome: StepOutcome)
    requires i < |job.script.steps| && before.evidence.None? && before.artifact.None? && writer.Valid()
    modifies workspace, writer
    ensures writer.Valid()
    ensures var expected := PerformTool(job, runId, i, args, before, old(workspace.files));
            if expected.Raised? then
              && outcome.Raised? && outcome.crash == expected.crash
              && (!outcome.crash.NonTextWrite? ==>
                    && outcome == expected && workspace.files == old(workspace.files)
                    && writer.events == old(writer.events))
            else
              && outcome == Done(expected.effect, workspace.files) && workspace.files == expected.files
              && writer.events == old(writer.events) + OutputLines(expected.effect)
  {
    hide CallTool, NatToString, EndsWith, Preview, Lookup, FileText;
    var tool := job.script.steps[i].tool;
    if tool !in TOOLS {
      return Raised(UnknownTool, PolicyLines(before));
    }
    OtherCallsKeepFiles(job.w, tool, workspace.files, args);
    var result := workspace.Run(job.w, tool, args);
    var e := before;
    match result {
      case ToolCrash =>
        return Raised(if WritesNonText(tool, args) then NonTextWrite else ToolRaised, PolicyLines(before));
      case ToolError(message) =>
        e := e.(record := e.record.(error := Some(message)), failed := true);
      case Output(text) =>
        if tool == "write_file" {
          WriteNeedsTexts(job.w, old(workspace.files), args);
        }
        var item := EvidenceOf(job, runId, i, tool, text);
        e := e.(record := e.record.(outputDigest := Some(item.digest), outputPreview := Some(Preview(text))),
                output := Some(text), evidence := Some(item));
        writer.Write(EvidenceEvent(item));
        if tool == "write_file" {
          var made := ArtifactOf(job, runId, i, Lookup(args, "path").value.s, Lookup(args, "content").value.s);
          e := e.(record := e.record.(kind := ArtifactWrite), artifact := Some(made));
          writer.Write(ArtifactEvent(made));
        }
    }
    return Done(e, workspace.files);
  }

  method RecordVerdict(e: Effect, writer: TraceWriter)
    requires (e.signal.Some? ==> e.decision.Some?) && writer.Valid()
    modifies writer
    ensures writer.Valid() && writer.events == old(writer.events) + PolicyLines(e)
  {
    if e.decision.Some? {
      writer.Write(PolicyDecisionEvent(e.decision.value));
      if e.signal.Some? {
        writer.Write(RiskSignalEvent(e.signal.value));
      }
    }
  }

  method ExecuteGated(
    job: Job, runId: string, i: nat, args: Args, before: Effect, workspace: Workspace, writer: TraceWriter)
    returns (outcome: StepOutcome)
    requires i < |job.script.steps| && before.evidence.None? && before.artifact.None? && writer.Valid()
    modifies workspace, writer
    ensures writer.Valid()
    ensures var expected := PerformGated(job, runId, i, args, before, old(workspace.files));
            if expected.Raised? then
              && outcome.Raised? && outcome.crash == expected.crash
              && (!outcome.crash.NonTextWrite? ==>
                    && outcome == expected && workspace.files == old(workspace.files)
                    && writer.events == old(writer.events))
            else
              && outcome == Done(expected.effect, workspace.files) && workspace.files == expected.files
              && writer.events == old(writer.events) + OutputLines(expected.effect)
  {
    var verdict := VerdictOn(job, i, args);
    if !verdict.decision.Deny? {
      outcome := ExecuteTool(job, runId, i, args, before, workspace, writer);
    } else if verdict.rule.None? {
      outcome := Raised(NoRuleToBlame, PolicyLines(before));
    } else {
      var step := before.record.(error := Some("blocked by policy rule " + verdict.rule.value.id));
      outcome := Done(before.(record := step), workspace.files);
    }
  }

  lemma ToolKeepsPolicyLines(job: Job, runId: string, i: nat, args: Args, e: Effect, files: Files)
    requires i < |job.script.steps| && PerformTool(job, runId, i, args, e, files).Done?
    ensures PolicyLines(PerformTool(job, runId, i, args, e, files).effect) == PolicyLines(e)
  {
    hide CallTool, Lookup, NatToString, Preview, EndsWith;
  }

  lemma GatedKeepsPolicyLines(job: Job, runId: string, i: nat, args: Args, e: Effect, files: Files)
    requires i < |job.script.steps| && PerformGated(job, runId, i, args, e, files).Done?
    ensures PolicyLines(PerformGated(job, runId, i, args, e, files).effect) == PolicyLines(e)
  {
    hide PerformTool;
    if !VerdictOn(job, i, args).decision.Deny? {
      ToolKeepsPolicyLines(job, runId, i, args, e, files);
    }
  }

  lemma GatedCrashLines(job: Job, runId: string, i: nat, args: Args, e: Effect, files: Files)
    requires i < |job.script.steps| && PerformGated(job, runId, i, args, e, files).Raised?
    ensures PerformGated(job, runId, i, args, e, files).written == PolicyLines(e)
  {
    hide CallTool, AfterOutput;
  }

  /** The three groups of lines of a step, written one after the other. */
  lemma LinesOfStep(earlier: seq<Event>, e: Effect)
    ensures earlier + PolicyLines(e) + OutputLines(e) + [StepEvent(e.record)] == earlier + StepEvents(e)
    ensures e.evidence.None? && e.artifact.None? ==>
              earlier + PolicyLines(e) + OutputLines(e) == earlier + PolicyLines(e)
    ensures e.decision.None? && e.signal.None? ==> earlier + PolicyLines(e) == earlier
  {
  }

  method ExecuteStep(
    job: Job, a: Ambient, runId: string, i: nat, outputs: seq<Option<string>>, workspace: Workspace,
    writer: TraceWriter)
    returns (outcome: StepOutcome)
    requires i < |job.script.steps| && writer.Valid()
    modifies workspace, writer
    ensures writer.Valid()
    ensures var expected := PerformStep(job, a, runId, i, outputs, old(workspace.files));
            if expected.Raised? then
              && outcome.Raised? && outcome.crash == expected.crash
              && (!outcome.crash.NonTextWrite? ==>
                    && outcome == expected && workspace.files == old(workspace.files)
                    && writer.events == old(writer.events) + expected.written)
            else
              && outcome == Done(expected.effect, workspace.files) && workspace.files == expected.files
              && writer.events == old(writer.events) + StepEvents(expected.effect)
  {
    var scripted := job.script.steps[i];
    var resolved := ResolveArgs(job.w.digits, scripted.args, outputs);
    if resolved.NoOutput? {
      var error := "step " + NatToString(resolved.step) + " has no output to reference";
      var step := BlankRecord(job, a, i, scripted.args).(error := Some(error));
      outcome := Done(Effect(step, None, None, None, None, None, true), workspace.files);
    } else {
      var e := GatedEffect(job, a, runId, i, resolved.value);
      RecordVerdict(e, writer);
      outcome := ExecuteGated(job, runId, i, resolved.value, e, workspace, writer);
      if outcome.Raised? {
        GatedCrashLines(job, runId, i, resolved.value, e, old(workspace.files));
        return;
      }
      GatedKeepsPolicyLines(job, runId, i, resolved.value, e, old(workspace.files));
    }
    writer.Write(StepEvent(outcome.effect.record));
    LinesOfStep(old(writer.events), outcome.effect);
  }

  /** The trace an execution leaves, complete or cut off by a crash. */
  function TraceLeft(job: Job, a: Ambient, runId: string, x: Execution, files: Files): seq<Event> {
    if x.Finished? then TraceOf(job, a, runId, x.effects, files)
    else [RunStartEvent(HeaderOf(job, runId, files))] + AllStepEvents(x.effects) + x.written
  }

  lemma ExecuteOneMore(
    job: Job, a: Ambient, runId: string, i: nat, initial: Files, effects: seq<Effect>, before: Files, e: Effect,
    after: Files)
    requires i < |job.script.steps|
    requires Execute(job, a, runId, i, initial) == Finished(effects, before)
    requires PerformStep(job, a, runId, i, Outputs(effects), before) == Done(e, after)
    ensures Execute(job, a, runId, i + 1, initial) == Finished(effects + [e], after)
  {
  }

  lemma NothingExecuted(job: Job, a: Ambient, runId: string, files: Files)
    ensures Execute(job, a, runId, 0, files) == Finished([], files)
    ensures Outputs([]) == [] && !AnyFailed([]) && AllStepEvents([]) == []
  {
  }

  lemma LinesAppended(start: seq<Event>, effects: seq<Effect>, e: Effect)
    ensures start + AllStepEvents(effects + [e]) == start + AllStepEvents(effects) + StepEvents(e)
  {
    assert (effects + [e])[..|effects|] == effects;
  }

  lemma OneMoreEffect(job: Job, a: Ambient, runId: string, effects: seq<Effect>, e: Effect)
    ensures Outputs(effects + [e]) == Outputs(effects) + [e.output]
    ensures AnyFailed(effects + [e]) <==> AnyFailed(effects) || e.failed
    ensures AllStepEvents(effects + [e]) == AllStepEvents(effects) + StepEvents(e)
    ensures RunSoFar(job, a, runId, effects + [e]) == Extend(RunSoFar(job, a, runId, effects), e)
  {
    var longer := effects + [e];
    assert longer[..|effects|] == effects && longer[|effects|] == e;
    assert forall x :: x in longer <==> x in effects || x == e;
    assert RunSoFar(job, a, runId, longer).steps == RunSoFar(job, a, runId, effects).steps + [e.record];
  }

  lemma {:induction false} CrashIsFinal(job: Job, a: Ambient, runId: string, m: nat, n: nat, files: Files)
    requires m <= n <= |job.script.steps| && Execute(job, a, runId, m, files).Crashed?
    ensures Execute(job, a, runId, n, files) == Execute(job, a, runId, m, files)
    decreases n
  {
    hide PerformStep, Outputs;
    if m < n {
      CrashIsFinal(job, a, runId, m, n - 1, files);
    }
  }

  /** A step that raises ends the execution, however many steps follow. */
  lemma StepCrashes(job: Job, a: Ambient, runId: string, i: nat, initial: Files, effects: seq<Effect>, before: Files)
    requires i < |job.script.steps|
    requires Execute(job, a, runId, i, initial) == Finished(effects, before)
    requires PerformStep(job, a, runId, i, Outputs(effects), before).Raised?
    ensures var raised := PerformStep(job, a, runId, i, Outputs(effects), before);
            Execute(job, a, runId, |job.script.steps|, initial) ==
              Crashed(effects, before, raised.crash, raised.written)
  {
    hide PerformStep, Outputs;
    CrashIsFinal(job, a, runId, i + 1, |job.script.steps|, initial);
  }

  /** `trace` is the text of the trace file. */
  method ExecuteScript(c: Codec, job: Job, a: Ambient, workspace: Workspace, givenId: string)
    returns (outcome: RunOutcome, trace: string)
    modifies workspace
    ensures var runId := if givenId != "" then givenId else a.generatedId;
            var x := Execute(job, a, runId, |job.script.steps|, old(workspace.files));
            && outcome == (if x.Crashed? then Threw(x.crash) else Returned(FinishedRun(job, a, runId, x.effects)))
            && (!(x.Crashed? && x.crash.NonTextWrite?) ==>
                  && workspace.files == x.files
                  && trace == FileText(c, TraceLeft(job, a, runId, x, old(workspace.files))))
  {
    hide PerformStep, StepEvents, Extend, Execute, AllStepEvents, Outputs, AnyFailed, RunSoFar, FileText;
    var runId := if givenId != "" then givenId else a.generatedId;
    var n := |job.script.steps|;
    var run := RunSoFar(job, a, runId, []);
    var writer := new TraceWriter(c);
    writer.Write(RunStartEvent(HeaderOf(job, runId, workspace.files)));
    var outputs: seq<Option<string>>, failed := [], false;
    ghost var effects: seq<Effect> := [];
    ghost var initial := workspace.files;
    NothingExecuted(job, a, runId, initial);
    var i := 0;
    while i < n
      invariant 0 <= i <= n && fresh(writer) && writer.Valid() && writer.codec == c
      invariant Execute(job, a, runId, i, initial) == Finished(effects, workspace.files)
      invariant outputs == Outputs(effects) && failed == AnyFailed(effects)
      invariant run == RunSoFar(job, a, runId, effects)
      invariant writer.events == [RunStartEvent(HeaderOf(job, runId, initial))] + AllStepEvents(effects)
    {
      ghost var before := workspace.files;
      var step := ExecuteStep(job, a, runId, i, outputs, workspace, writer);
      if step.Raised? {
        StepCrashes(job, a, runId, i, initial, effects, before);
        return Threw(step.crash), writer.text;
      }
      var e := step.effect;
      run := Extend(run, e);
      outputs := outputs + [e.output];
      failed := failed || e.failed;
      ExecuteOneMore(job, a, runId, i, initial, effects, before, e, workspace.files);
      OneMoreEffect(job, a, runId, effects, e);
      LinesAppended([RunStartEvent(HeaderOf(job, runId, initial))], effects, e);
      effects := effects + [e];
      i := i + 1;
    }
    run := run.(status := if failed then Failed else Completed, finishedAt := Some(a.finishedAt));
    writer.Write(EndEvent(run));
    return Returned(run), writer.text;
  }

  /******* When an execution crashes *******/

  /** A step raises for want of a rule exactly when its arguments resolve, the bundle denies by default and
      no rule matches. */
  lemma RaisesWithoutRuleIff(
    job: Job, a: Ambient, runId: string, i: nat, outputs: seq<Option<string>>, files: Files)
    requires i < |job.script.steps|
    ensures var s := PerformStep(job, a, runId, i, outputs, files);
            var resolved := ResolveArgs(job.w.digits, job.script.steps[i].args, outputs);
            (s.Raised? && s.crash.NoRuleToBlame?) <==>
            && resolved.Ok? && job.policy.default.Deny?
            && forall r :: r in job.policy.rules ==> !Matches(job.w, r, job.script.steps[i].tool, resolved.value)
  {
    hide ResolveArgs, CallTool, Matches;
  }

  /** A step raises for an unknown tool exactly when its arguments resolve, the policy does not deny it and
      there is no such tool. */
  lemma RaisesForToolIff(job: Job, a: Ambient, runId: string, i: nat, outputs: seq<Option<string>>, files: Files)
    requires i < |job.script.steps|
    ensures var s := PerformStep(job, a, runId, i, outputs, files);
            var resolved := ResolveArgs(job.w.digits, job.script.steps[i].args, outputs);
            (s.Raised? && s.crash.UnknownTool?) <==>
            && resolved.Ok? && !VerdictOn(job, i, resolved.value).decision.Deny?
            && job.script.steps[i].tool !in TOOLS
  {
    hide ResolveArgs, CallTool, Evaluate;
  }

  /** A step raises in its tool exactly when it comes to call one that raises on these arguments; a write of
      something that is no text is told apart. */
  lemma RaisesInToolIff(job: Job, a: Ambient, runId: string, i: nat, outputs: seq<Option<string>>, files: Files)
    requires i < |job.script.steps|
    ensures var s := PerformStep(job, a, runId, i, outputs, files);
            var resolved := ResolveArgs(job.w.digits, job.script.steps[i].args, outputs);
            var tool := job.script.steps[i].tool;
            && ((s.Raised? && (s.crash.ToolRaised? || s.crash.NonTextWrite?)) <==>
                && resolved.Ok? && !VerdictOn(job, i, resolved.value).decision.Deny? && tool in TOOLS
                && CallTool(job.w, tool, files, resolved.value).result.ToolCrash?)
            && (s.Raised? && s.crash.NonTextWrite? ==> WritesNonText(tool, resolved.value))
            && (s.Raised? && s.crash.ToolRaised? ==> !WritesNonText(tool, resolved.value))
  {
    hide ResolveArgs, Evaluate, AfterOutput, WritesNonText;
  }

  /** The steps before step `i` complete, and step `i` raises this exception. */
  predicate RaisesAt(job: Job, a: Ambient, runId: string, i: nat, files: Files, crash: Crash) {
    i < |job.script.steps| &&
    var x := Execute(job, a, runId, i, files);
    x.Finished? && PerformStep(job, a, runId, i, Outputs(x.effects), x.files).Raised?
    && PerformStep(job, a, runId, i, Outputs(x.effects), x.files).crash == crash
  }

  /** An execution ends with an exception exactly when some step is reached and raises it. */
  lemma {:induction false} CrashesIff(job: Job, a: Ambient, runId: string, n: nat, files: Files, crash: Crash)
    requires n <= |job.script.steps|
    ensures var x := Execute(job, a, runId, n, files);
            (x.Crashed? && x.crash == crash) <==> exists i :: 0 <= i < n && RaisesAt(job, a, runId, i, files, crash)
  {
    hide PerformStep;
    if n == 0 {
    } else {
      CrashesIff(job, a, runId, n - 1, files, crash);
      var x := Execute(job, a, runId, n - 1, files);
      if x.Crashed? {
      } else {
        assert Execute(job, a, runId, n, files).Crashed? && Execute(job, a, runId, n, files).crash == crash <==>
               RaisesAt(job, a, runId, n - 1, files, crash);
      }
    }
  }

  /** A bundle that does not deny by default never makes an execution crash for want of a rule. */
  lemma NoDefaultDenyNoCrash(job: Job, a: Ambient, runId: string, files: Files)
    requires !job.policy.default.Deny?
    ensures var x := Execute(job, a, runId, |job.script.steps|, files);
            x.Crashed? ==> !x.crash.NoRuleToBlame?
  {
    hide PerformStep, Execute;
    CrashesIff(job, a, runId, |job.script.steps|, files, NoRuleToBlame);
    forall i | 0 <= i < |job.script.steps| ensures !RaisesAt(job, a, runId, i, files, NoRuleToBlame) {
      var x := Execute(job, a, runId, i, files);
      if x.Finished? {
        RaisesWithoutRuleIff(job, a, runId, i, Outputs(x.effects), x.files);
      }
    }
  }

  /** A bundle without rules that denies by default, and a script of one step without arguments. */
  function DenyAllJob(w: Foreign): Job {
    var owner := ReviewerSeat("seat", "Ada", "owner", "all");
    Job(w,
        Script(Task("task", "", "goal"), Goal("goal", "", [], "seat"), [owner], "scripted@0.1", None,
               [ScriptedStep("summarize", [], [], "")]),
        Policy("policy", "", Deny, []))
  }

  /** It is a valid job, and every execution of it crashes. */
  lemma DenyAllCrashes(w: Foreign, a: Ambient, runId: string, files: Files)
    ensures var job := DenyAllJob(w);
            && job.script.Valid()
            && Execute(job, a, runId, |job.script.steps|, files) == Crashed([], files, NoRuleToBlame, [])
  {
    var job := DenyAllJob(w);
    assert job.script.reviewerSeats[0] in job.script.reviewerSeats;
    assert ResolveArgs(w.digits, [], Outputs([])) == Ok([]);
    assert Execute(job, a, runId, 0, files) == Finished([], files);
  }
}
