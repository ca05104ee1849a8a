/** What every run that the executor returns satisfies, and how a trace preserves it. */
module RunProperties {
  import opened Text
  import opened StepReferences
  import opened RunRecords
  import opened Policies
  import opened Tools
  import opened Traces
  import opened Executor

  /******* What one step records *******/

  predicate Denied(e: Effect) {
    e.decision.Some? && e.decision.value.decision.Deny?
  }

  /** The policy decision of a step, its risk signal and the link from the step record. */
  predicate PolicySideFits(job: Job, runId: string, i: nat, e: Effect) {
    && (e.decision.Some? ==>
          && e.decision.value.id == runId + "-pd-" + NatToString(i)
          && e.decision.value.runId == runId && e.decision.value.stepIndex == i)
    && e.record.decisionId == IdOf(e.decision)
    && (e.signal.Some? <==> e.decision.Some? && !e.decision.value.decision.Allow?)
    && (e.signal.Some? ==>
          && e.signal.value.id == runId + "-rs-" + NatToString(i)
          && e.signal.value.runId == runId && e.signal.value.stepIndex == i)
  }

  /** Digest and size of the artifact are those of the `content` argument. */
  predicate DescribesContent(w: Foreign, artifact: Artifact, args: Args) {
    match Lookup(args, "content")
    case Some(Str(content)) =>
      artifact.digest == w.digestText(content) && artifact.sizeBytes == w.utf8Length(content)
    case _ => false
  }

  /** The output of a step, its evidence and artifact, and how success shows in the step record. */
  predicate OutputSideFits(job: Job, runId: string, i: nat, e: Effect) {
    && (e.output.Some? <==> e.record.outputDigest.Some?)
    && (e.output.Some? <==> e.record.error.None?)
    && (e.output.Some? <==> e.evidence.Some?)
    && (e.output.Some? ==>
          && e.record.outputDigest == Some(job.w.digestText(e.output.value))
          && e.record.outputPreview == Some(if |e.output.value| <= 200 then e.output.value else e.output.value[..200])
          && e.evidence.value.id == runId + "-ev-" + NatToString(i)
          && e.evidence.value.runId == runId && e.evidence.value.stepIndex == i
          && e.evidence.value.digest == e.record.outputDigest.value
          && e.evidence.value.kind == "tool_output" && e.evidence.value.description == "output of " + e.record.name)
    && (e.artifact.Some? <==> e.output.Some? && e.record.name == "write_file")
    && (e.artifact.Some? ==>
          && e.artifact.value.runId == runId && e.artifact.value.id == runId + "-art-" + NatToString(i)
          && Lookup(e.record.args, "path") == Some(Str(e.artifact.value.path))
          && (e.artifact.value.mediaType == "text/markdown" <==> EndsWith(e.artifact.value.path, ".md"))
          && DescribesContent(job.w, e.artifact.value, e.record.args))
    && (e.record.kind.ArtifactWrite? <==> e.artifact.Some?)
  }

  predicate Fits(job: Job, runId: string, i: nat, e: Effect) {
    && i < |job.script.steps|
    && e.record.index == i && e.record.name == job.script.steps[i].tool
    && e.record.allocatedTo == job.script.steps[i].allocatedTo
    && e.record.supportsGoal == job.script.steps[i].supportsGoal
    && e.record.inputDigest == job.w.digestObj(e.record.name, e.record.args)
    && PolicySideFits(job, runId, i, e)
    && OutputSideFits(job, runId, i, e)
    && (e.failed <==> e.record.error.Some? && !Denied(e))
  }

  lemma ToolFits(job: Job, runId: string, i: nat, args: Args, e: Effect, files: Files)
    requires i < |job.script.steps| && PerformTool(job, runId, i, args, e, files).Done?
    requires e.record.name == job.script.steps[i].tool && e.record.args == args && e.record.kind.ToolCall?
    requires e.record.outputDigest.None? && e.record.error.None? && !e.failed
    requires e.output.None? && e.evidence.None? && e.artifact.None? && !Denied(e)
    ensures var after := PerformTool(job, runId, i, args, e, files).effect;
            && OutputSideFits(job, runId, i, after) && (after.failed <==> after.record.error.Some?)
            && after.decision == e.decision && after.signal == e.signal
            && after.record.decisionId == e.record.decisionId && after.record.index == e.record.index
            && after.record.name == e.record.name && after.record.args == args
            && after.record.inputDigest == e.record.inputDigest
            && after.record.allocatedTo == e.record.allocatedTo && after.record.supportsGoal == e.record.supportsGoal
  {
    hide CallTool, Lookup, NatToString, EndsWith;
    if job.script.steps[i].tool == "write_file" && CallTool(job.w, "write_file", files, args).result.Output? {
      WriteNeedsTexts(job.w, files, args);
    }
  }

  /** A step without an output, that failed before or in its tool, or was denied. */
  predicate WithoutOutput(e: Effect) {
    && e.output.None? && e.evidence.None? && e.artifact.None? && e.record.outputDigest.None?
    && e.record.error.Some? && e.record.kind.ToolCall?
  }

  lemma NoOutputFits(job: Job, runId: string, i: nat)
    ensures forall e :: WithoutOutput(e) ==> OutputSideFits(job, runId, i, e)
  {
  }

  lemma StepFits(job: Job, a: Ambient, runId: string, i: nat, outputs: seq<Option<string>>, files: Files)
    requires i < |job.script.steps| && PerformStep(job, a, runId, i, outputs, files).Done?
    ensures Fits(job, runId, i, PerformStep(job, a, runId, i, outputs, files).effect)
  {
    hide ResolveArgs, Evaluate, PerformTool, NatToString, OutputSideFits;
    NoOutputFits(job, runId, i);
    var resolved := ResolveArgs(job.w.digits, job.script.steps[i].args, outputs);
    if resolved.Ok? {
      var e := GatedEffect(job, a, runId, i, resolved.value);
      if !VerdictOn(job, i, resolved.value).decision.Deny? {
        ToolFits(job, runId, i, resolved.value, e, files);
      }
    }
  }

  lemma {:induction false} AllFit(job: Job, a: Ambient, runId: string, n: nat, files: Files)
    requires n <= |job.script.steps| && Execute(job, a, runId, n, files).Finished?
    ensures var effects := Execute(job, a, runId, n, files).effects;
            forall i :: 0 <= i < n ==> Fits(job, runId, i, effects[i])
  {
    hide PerformStep, Fits, Outputs;
    if n == 0 {
    } else {
      AllFit(job, a, runId, n - 1, files);
      var x := Execute(job, a, runId, n - 1, files);
      StepFits(job, a, runId, n - 1, Outputs(x.effects), x.files);
    }
  }

  /******* What the policy decides *******/

  /** The rule is about this call: each condition it sets is met. */
  ghost predicate Concerns(w: Foreign, rule: PolicyRule, tool: string, args: Args) {
    && (rule.tool == None || rule.tool == Some(tool))
    && (rule.argsRegex == None || w.regexFound(rule.argsRegex.value, args))
    && (rule.domainNotIn == None ||
        exists url :: Lookup(args, "url") == Some(Str(url)) && w.urlHost(url) !in rule.domainNotIn.value)
  }

  /** The decision of this rule is on record, and a signal of its severity unless it allows the call. */
  ghost predicate BlamesRule(
    job: Job, runId: string, i: nat, rule: PolicyRule, decision: Option<PolicyDecision>, signal: Option<RiskSignal>)
    requires i < |job.script.steps|
  {
    var tool := job.script.steps[i].tool;
    && decision.Some? && decision.value.decision == rule.action && decision.value.ruleId == rule.id
    && decision.value.policyId == job.policy.id && decision.value.runId == runId && decision.value.stepIndex == i
    && decision.value.reason == (if rule.description != "" then rule.description
                                 else "rule " + rule.id + " matched tool " + tool)
    && (signal.Some? <==> rule.action == Deny || rule.action == NeedsReview)
    && (signal.Some? ==> signal.value.severity == rule.severity && signal.value.category == rule.category
                         && signal.value.runId == runId && signal.value.stepIndex == i
                         && signal.value.message ==
                            "rule " + rule.id + " matched " + tool + ": " + decision.value.reason)
  }

  /** The step is what the call of its tool on these arguments comes to. */
  ghost predicate CallsTool(job: Job, i: nat, args: Args, files: Files, outcome: StepOutcome)
    requires i < |job.script.steps|
  {
    var tool := job.script.steps[i].tool;
    if tool in {"read_file", "write_file", "apply_patch", "run_tests", "web_fetch", "shell", "summarize"} then
      var call := CallTool(job.w, tool, files, args);
      match call.result
      case Output(text) =>
        && outcome.Done? && outcome.files == call.files && !outcome.effect.failed
        && outcome.effect.output == Some(text) && outcome.effect.record.error == None
        && outcome.effect.record.outputDigest == Some(job.w.digestText(text))
      case ToolError(message) =>
        && outcome.Done? && outcome.files == call.files && outcome.effect.failed
        && outcome.effect.output == None && outcome.effect.record.error == Some(message)
      case ToolCrash => outcome.Raised? && (outcome.crash.ToolRaised? || outcome.crash.NonTextWrite?)
    else outcome.Raised? && outcome.crash.UnknownTool?
  }

  /** The step is recorded as blocked by the rule; nothing is run and nothing changes. */
  predicate Blocked(rule: PolicyRule, files: Files, outcome: StepOutcome) {
    && outcome.Done? && outcome.files == files && !outcome.effect.failed
    && outcome.effect.output == None && outcome.effect.evidence == None && outcome.effect.artifact == None
    && outcome.effect.record.outputDigest == None
    && outcome.effect.record.error == Some("blocked by policy rule " + rule.id)
  }

  /** The first two lines that a step with a decision writes. */
  predicate LinesBlame(written: seq<Event>, decision: PolicyDecision, signal: Option<RiskSignal>) {
    written == if signal.Some? then [PolicyDecisionEvent(decision), RiskSignalEvent(signal.value)]
               else [PolicyDecisionEvent(decision)]
  }

  lemma MatchingIsConcern(w: Foreign, rule: PolicyRule, tool: string, args: Args)
    ensures Matches(w, rule, tool, args) <==> Concerns(w, rule, tool, args)
  {
    hide Lookup;
  }

  lemma {:induction false} RuleFound(w: Foreign, policy: Policy, i: nat, tool: string, args: Args, k: nat)
    requires i <= k < |policy.rules| && Matches(w, policy.rules[k], tool, args)
    requires forall j :: 0 <= j < k ==> !Matches(w, policy.rules[j], tool, args)
    ensures EvaluateFrom(w, policy, i, tool, args) == RuleVerdict(policy.rules[k], tool)
    decreases k - i
  {
    hide Matches, RuleVerdict;
    if i < k {
      RuleFound(w, policy, i + 1, tool, args, k);
    }
  }

  /** The verdict is that of the first rule that concerns the call. */
  lemma FirstRuleGivesVerdict(w: Foreign, policy: Policy, tool: string, args: Args, k: nat)
    requires k < |policy.rules| && Concerns(w, policy.rules[k], tool, args)
    requires forall j :: 0 <= j < k ==> !Concerns(w, policy.rules[j], tool, args)
    ensures var v := Evaluate(w, policy, tool, args);
            && v.rule == Some(policy.rules[k]) && v.decision == policy.rules[k].action
            && v == RuleVerdict(policy.rules[k], tool)
  {
    hide Concerns, Matches;
    forall rule ensures Matches(w, rule, tool, args) <==> Concerns(w, rule, tool, args) {
      MatchingIsConcern(w, rule, tool, args);
    }
    RuleFound(w, policy, 0, tool, args, k);
  }

  lemma ToolIsCalled(job: Job, runId: string, i: nat, args: Args, e: Effect, files: Files)
    requires i < |job.script.steps| && !e.failed && e.output.None? && e.record.error.None?
    ensures var outcome := PerformTool(job, runId, i, args, e, files);
            && CallsTool(job, i, args, files, outcome)
            && (if outcome.Done? then
                  && outcome.effect.decision == e.decision && outcome.effect.signal == e.signal
                  && outcome.effect.record.args == e.record.args
                else outcome.written == PolicyLines(e))
  {
    hide CallTool, Preview, ArtifactOf, Lookup, PolicyLines, NatToString;
  }

  lemma RuleIsBlamed(job: Job, a: Ambient, runId: string, i: nat, args: Args, rule: PolicyRule)
    requires i < |job.script.steps| && VerdictOn(job, i, args) == RuleVerdict(rule, job.script.steps[i].tool)
    ensures var e := GatedEffect(job, a, runId, i, args);
            && BlamesRule(job, runId, i, rule, e.decision, e.signal)
            && LinesBlame(PolicyLines(e), e.decision.value, e.signal)
            && !e.failed && e.output.None? && e.evidence.None? && e.artifact.None?
            && e.record.error.None? && e.record.outputDigest.None? && e.record.args == args
  {
    hide VerdictOn, NatToString;
  }

  lemma BlamedDecisionPresent(
    job: Job, runId: string, i: nat, rule: PolicyRule, decision: Option<PolicyDecision>, signal: Option<RiskSignal>)
    requires i < |job.script.steps| && BlamesRule(job, runId, i, rule, decision, signal)
    ensures decision.Some?
  {
  }

  /**
    The gate: the first rule that concerns the call of a step decides about it. A denying rule blocks the
    step; any other lets the tool be called. Either way the decision is recorded as that of the rule, also
    in the trace when the tool then raises.
   */
  lemma FirstRuleDecides(
    job: Job, a: Ambient, runId: string, i: nat, outputs: seq<Option<string>>, files: Files, args: Args, k: nat)
    requires i < |job.script.steps| && k < |job.policy.rules|
    requires ResolveArgs(job.w.digits, job.script.steps[i].args, outputs) == Ok(args)
    requires Concerns(job.w, job.policy.rules[k], job.script.steps[i].tool, args)
    requires forall j :: 0 <= j < k ==> !Concerns(job.w, job.policy.rules[j], job.script.steps[i].tool, args)
    ensures var outcome, rule := PerformStep(job, a, runId, i, outputs, files), job.policy.rules[k];
            && (if rule.action == Deny then Blocked(rule, files, outcome) else CallsTool(job, i, args, files, outcome))
            && (outcome.Done? ==> BlamesRule(job, runId, i, rule, outcome.effect.decision, outcome.effect.signal)
                                  && outcome.effect.record.args == args)
            && (outcome.Raised? ==>
                  exists d, s :: BlamesRule(job, runId, i, rule, Some(d), s) && LinesBlame(outcome.written, d, s))
  {
    hide ResolveArgs, Concerns, PerformTool, GatedEffect, CallsTool, BlamesRule, LinesBlame, PolicyLines, Evaluate;
    var rule := job.policy.rules[k];
    FirstRuleGivesVerdict(job.w, job.policy, job.script.steps[i].tool, args, k);
    RuleIsBlamed(job, a, runId, i, args, rule);
    var e := GatedEffect(job, a, runId, i, args);
    if rule.action != Deny {
      ToolIsCalled(job, runId, i, args, e, files);
      assert BlamesRule(job, runId, i, rule, Some(e.decision.value), e.signal) by {
        BlamedDecisionPresent(job, runId, i, rule, e.decision, e.signal);
      }
    }
  }

  /** A step that refers to a missing output fails before the policy is asked: its arguments are recorded as they
      were written, and nothing is run. */
  lemma UnresolvedStepFails(
    job: Job, a: Ambient, runId: string, i: nat, outputs: seq<Option<string>>, files: Files, n: nat)
    requires i < |job.script.steps|
    requires ResolveArgs(job.w.digits, job.script.steps[i].args, outputs) == NoOutput(n)
    ensures var outcome := PerformStep(job, a, runId, i, outputs, files);
            && outcome.Done? && outcome.files == files && outcome.effect.failed
            && outcome.effect.decision == None && outcome.effect.signal == None && outcome.effect.output == None
            && outcome.effect.record.args == job.script.steps[i].args
            && outcome.effect.record.error == Some("step " + NatToString(n) + " has no output to reference")
  {
    hide ResolveArgs, NatToString;
  }

  /** Where no rule concerns the call, nothing is recorded of the policy, and the default decides. */
  lemma DefaultDecides(
    job: Job, a: Ambient, runId: string, i: nat, outputs: seq<Option<string>>, files: Files, args: Args)
    requires i < |job.script.steps|
    requires ResolveArgs(job.w.digits, job.script.steps[i].args, outputs) == Ok(args)
    requires forall rule :: rule in job.policy.rules ==> !Concerns(job.w, rule, job.script.steps[i].tool, args)
    ensures var outcome := PerformStep(job, a, runId, i, outputs, files);
            && (if job.policy.default == Deny then outcome == Raised(NoRuleToBlame, [])
                else CallsTool(job, i, args, files, outcome))
            && (outcome.Done? ==> outcome.effect.decision == None && outcome.effect.signal == None)
            && (outcome.Raised? ==> outcome.written == [])
  {
    hide ResolveArgs, Concerns, Matches, PerformTool, CallsTool, RuleVerdict;
    forall rule ensures Matches(job.w, rule, job.script.steps[i].tool, args)
                        <==> Concerns(job.w, rule, job.script.steps[i].tool, args) {
      MatchingIsConcern(job.w, rule, job.script.steps[i].tool, args);
    }
    var e := GatedEffect(job, a, runId, i, args);
    ToolIsCalled(job, runId, i, args, e, files);
  }

  /******* Collected lists *******/

  lemma {:induction false} InCollection<T>(effects: seq<Effect>, pick: Effect -> Option<T>, x: T)
    ensures x in Collect(effects, pick) <==> exists i :: 0 <= i < |effects| && pick(effects[i]) == Some(x)
  {
    if effects == [] {
    } else {
      var n := |effects| - 1;
      InCollection(effects[..n], pick, x);
      if x in Collect(effects[..n], pick) {
        var i :| 0 <= i < n && pick(effects[..n][i]) == Some(x);
        assert pick(effects[i]) == Some(x);
      }
      forall i | 0 <= i < n && pick(effects[i]) == Some(x) ensures x in Collect(effects[..n], pick) {
        assert pick(effects[..n][i]) == Some(x);
      }
    }
  }

  lemma DecisionOfItsStep(job: Job, runId: string, effects: seq<Effect>, d: PolicyDecision)
    requires forall i :: 0 <= i < |effects| ==> Fits(job, runId, i, effects[i])
    ensures d in Collect(effects, DecisionIn) <==>
              d.stepIndex < |effects| && effects[d.stepIndex].decision == Some(d)
    ensures d in Collect(effects, DecisionIn) ==> d.runId == runId && d.id == runId + "-pd-" + NatToString(d.stepIndex)
  {
    InCollection(effects, DecisionIn, d);
  }

  ghost predicate InStepOrder(ds: seq<PolicyDecision>) {
    forall k, l :: 0 <= k < l < |ds| ==> ds[k].stepIndex < ds[l].stepIndex
  }

  /** The decisions of a run come in the order of its steps, at most one a step. */
  lemma {:induction false} DecisionsInStepOrder(job: Job, runId: string, effects: seq<Effect>)
    requires forall i :: 0 <= i < |effects| ==> Fits(job, runId, i, effects[i])
    ensures InStepOrder(Collect(effects, DecisionIn))
  {
    if effects == [] {
    } else {
      var n := |effects| - 1;
      DecisionsInStepOrder(job, runId, effects[..n]);
      var earlier := Collect(effects[..n], DecisionIn);
      forall k | 0 <= k < |earlier| ensures earlier[k].stepIndex < n {
        DecisionOfItsStep(job, runId, effects[..n], earlier[k]);
      }
    }
  }

  predicate Increasing(steps: seq<nat>) {
    forall k, l :: 0 <= k < l < |steps| ==> steps[k] < steps[l]
  }

  /** The `k`-th entry of a list comes from step `steps[k]`. */
  predicate ComeFrom<T(==)>(entries: seq<T>, effects: seq<Effect>, pick: Effect -> Option<T>, steps: seq<nat>) {
    && |steps| == |entries| && Increasing(steps)
    && forall k :: 0 <= k < |steps| ==> steps[k] < |effects| && pick(effects[steps[k]]) == Some(entries[k])
  }

  predicate AllPicked<T>(effects: seq<Effect>, pick: Effect -> Option<T>, steps: seq<nat>) {
    forall i :: 0 <= i < |effects| && pick(effects[i]).Some? ==> i in steps
  }

  lemma OneMoreEntry<T>(
    entries: seq<T>, effects: seq<Effect>, e: Effect, pick: Effect -> Option<T>, steps: seq<nat>)
    requires ComeFrom(entries, effects, pick, steps) && AllPicked(effects, pick, steps)
    ensures pick(e).None? ==> ComeFrom(entries, effects + [e], pick, steps) && AllPicked(effects + [e], pick, steps)
    ensures pick(e).Some? ==>
              && ComeFrom(entries + [pick(e).value], effects + [e], pick, steps + [|effects|])
              && AllPicked(effects + [e], pick, steps + [|effects|])
  {
  }

  lemma NoEntries<T>(pick: Effect -> Option<T>)
    ensures ComeFrom(Collect([], pick), [], pick, []) && AllPicked([], pick, [])
  {
  }

  /** A collected list has at most one entry a step, in the order of the steps. */
  lemma {:induction false} CollectedInOrder<T>(
    effects: seq<Effect>, pick: Effect -> Option<T>)
    returns (steps: seq<nat>)
    ensures ComeFrom(Collect(effects, pick), effects, pick, steps) && AllPicked(effects, pick, steps)
  {
    hide ComeFrom, AllPicked;
    if effects == [] {
      steps := [];
      NoEntries(pick);
    } else {
      var n := |effects| - 1;
      steps := CollectedInOrder(effects[..n], pick);
      assert effects == effects[..n] + [effects[n]];
      OneMoreEntry(Collect(effects[..n], pick), effects[..n], effects[n], pick, steps);
      if pick(effects[n]).Some? {
        steps := steps + [n];
      } else {
        assert Collect(effects[..n], pick) + [] == Collect(effects[..n], pick);
      }
    }
  }

  lemma SeparatedIdsDiffer(runId: string, i: nat, j: nat)
    requires i != j
    ensures runId + "-pd-" + NatToString(i) != runId + "-pd-" + NatToString(j)
  {
    var p := runId + "-pd-";
    if p + NatToString(i) == p + NatToString(j) {
      assert (p + NatToString(i))[|p|..] == NatToString(i);
      assert (p + NatToString(j))[|p|..] == NatToString(j);
      NatToStringInjective(i, j);
    }
  }

  lemma DecisionIdsUnique(job: Job, a: Ambient, runId: string, effects: seq<Effect>)
    requires forall i :: 0 <= i < |effects| ==> Fits(job, runId, i, effects[i])
    ensures var ds := FinishedRun(job, a, runId, effects).policyDecisions;
            forall i, j :: 0 <= i < j < |ds| ==> ds[i].id != ds[j].id
  {
    DecisionsInStepOrder(job, runId, effects);
    var ds := FinishedRun(job, a, runId, effects).policyDecisions;
    forall i, j | 0 <= i < j < |ds| ensures ds[i].id != ds[j].id {
      DecisionOfItsStep(job, runId, effects, ds[i]);
      DecisionOfItsStep(job, runId, effects, ds[j]);
      SeparatedIdsDiffer(runId, ds[i].stepIndex, ds[j].stepIndex);
    }
  }

  lemma PartsBelongToRun(job: Job, a: Ambient, runId: string, effects: seq<Effect>)
    requires forall i :: 0 <= i < |effects| ==> Fits(job, runId, i, effects[i])
    ensures var run := FinishedRun(job, a, runId, effects);
            && (forall d :: d in run.policyDecisions ==> d.runId == runId)
            && (forall r :: r in run.riskSignals ==> r.runId == runId)
            && (forall e :: e in run.evidence ==> e.runId == runId)
            && (forall t :: t in run.artifacts ==> t.runId == runId)
  {
    var run := FinishedRun(job, a, runId, effects);
    forall d | d in run.policyDecisions ensures d.runId == runId { InCollection(effects, DecisionIn, d); }
    forall r | r in run.riskSignals ensures r.runId == runId { InCollection(effects, SignalIn, r); }
    forall r | r in run.evidence ensures r.runId == runId { InCollection(effects, EvidenceIn, r); }
    forall r | r in run.artifacts ensures r.runId == runId { InCollection(effects, ArtifactIn, r); }
  }

  /** Every run that the executor returns passes the validator of stored runs. */
  lemma RunsKeepIdentity(job: Job, a: Ambient, runId: string, files: Files)
    requires job.script.Valid()
    requires Execute(job, a, runId, |job.script.steps|, files).Finished?
    ensures FinishedRun(job, a, runId, Execute(job, a, runId, |job.script.steps|, files).effects).IdentityInvariants()
  {
    var effects := Execute(job, a, runId, |job.script.steps|, files).effects;
    AllFit(job, a, runId, |job.script.steps|, files);
    DecisionIdsUnique(job, a, runId, effects);
    PartsBelongToRun(job, a, runId, effects);
  }

  /******* The lists of a run correspond to its steps *******/

  /** Step `i` of the run was denied by the policy. */
  ghost predicate DeniedAt(run: AgentRun, i: nat) {
    exists d :: d in run.policyDecisions && d.stepIndex == i && d.decision.Deny?
  }

  ghost predicate SignalAt(run: AgentRun, i: int) {
    exists r :: r in run.riskSignals && r.stepIndex == i
  }

  ghost predicate FlaggedAt(run: AgentRun, i: int) {
    exists d :: d in run.policyDecisions && d.stepIndex == i && !d.decision.Allow?
  }

  /** A risk signal belongs to a step exactly when a deny or needs_review decision does. */
  ghost predicate SignalsMatch(run: AgentRun) {
    forall i :: SignalAt(run, i) <==> FlaggedAt(run, i)
  }

  ghost predicate EvidenceAt(run: AgentRun, i: nat, digest: string) {
    exists e :: e in run.evidence && e.stepIndex == i && e.digest == digest
  }

  predicate OutputAt(run: AgentRun, i: nat, digest: string) {
    i < |run.steps| && run.steps[i].outputDigest == Some(digest)
  }

  /** Evidence belongs to a step exactly when the step has an output, and carries its digest. */
  ghost predicate EvidenceMatches(run: AgentRun) {
    forall i: nat, digest :: EvidenceAt(run, i, digest) <==> OutputAt(run, i, digest)
  }

  ghost predicate ArtifactFor(run: AgentRun, i: nat) {
    exists t :: t in run.artifacts && t.id == run.id + "-art-" + NatToString(i)
  }

  /** Artifacts are those of the write_file steps that produced an output. */
  ghost predicate ArtifactsMatch(run: AgentRun) {
    && (forall i :: 0 <= i < |run.steps| ==>
          ((run.steps[i].name == "write_file" && run.steps[i].outputDigest.Some?) <==> ArtifactFor(run, i)))
    && (forall t :: t in run.artifacts ==>
          exists i :: 0 <= i < |run.steps| && t.id == run.id + "-art-" + NatToString(i))
  }

  lemma ArtifactIdsDiffer(runId: string, i: nat, j: nat)
    requires runId + "-art-" + NatToString(i) == runId + "-art-" + NatToString(j)
    ensures i == j
  {
    var p := runId + "-art-";
    assert (p + NatToString(i))[|p|..] == NatToString(i);
    assert (p + NatToString(j))[|p|..] == NatToString(j);
    NatToStringInjective(i, j);
  }

  /** Risk signals come in the order of the steps, at most one a step. */
  ghost predicate SignalsInStepOrder(run: AgentRun) {
    forall k, l :: 0 <= k < l < |run.riskSignals| ==> run.riskSignals[k].stepIndex < run.riskSignals[l].stepIndex
  }

  ghost predicate EvidenceInStepOrder(run: AgentRun) {
    forall k, l :: 0 <= k < l < |run.evidence| ==> run.evidence[k].stepIndex < run.evidence[l].stepIndex
  }

  predicate IsArtifactOf(w: Foreign, run: AgentRun, artifact: Artifact, i: nat)
    requires i < |run.steps|
  {
    && artifact.id == run.id + "-art-" + NatToString(i)
    && run.steps[i].name == "write_file" && run.steps[i].outputDigest.Some?
    && Lookup(run.steps[i].args, "path") == Some(Str(artifact.path))
    && DescribesContent(w, artifact, run.steps[i].args)
  }

  /** The artifacts are, in order, those of the write_file steps with an output: the id names the step, the
      path, the digest and the size are those of its arguments. */
  ghost predicate ArtifactsOfSteps(w: Foreign, run: AgentRun, steps: seq<nat>) {
    && |steps| == |run.artifacts| && Increasing(steps)
    && (forall k :: 0 <= k < |steps| ==> steps[k] < |run.steps| && IsArtifactOf(w, run, run.artifacts[k], steps[k]))
    && (forall i :: 0 <= i < |run.steps| && run.steps[i].name == "write_file" && run.steps[i].outputDigest.Some? ==>
          i in steps)
  }

  ghost predicate ListsInStepOrder(w: Foreign, run: AgentRun) {
    && InStepOrder(run.policyDecisions) && SignalsInStepOrder(run) && EvidenceInStepOrder(run)
    && exists steps :: ArtifactsOfSteps(w, run, steps)
  }

  /** The run is of this task, agent and model, with the declared seats and one step for each scripted one. */
  ghost predicate StepsMatch(job: Job, run: AgentRun) {
    && run.taskId == job.script.task.id && run.agent == job.script.agent && run.model == job.script.model
    && run.reviewerSeats == job.script.reviewerSeats
    && |run.steps| == |job.script.steps|
    && (forall i :: 0 <= i < |run.steps| ==>
          && run.steps[i].index == i && run.steps[i].name == job.script.steps[i].tool
          && run.steps[i].allocatedTo == job.script.steps[i].allocatedTo
          && run.steps[i].supportsGoal == job.script.steps[i].supportsGoal
          && run.steps[i].inputDigest == job.w.digestObj(run.steps[i].name, run.steps[i].args))
  }

  /** The run failed exactly when some step ended in an error that is not a denial. */
  ghost predicate StatusMatches(run: AgentRun) {
    && (run.status.Failed? || run.status.Completed?)
    && (run.status.Failed? <==> exists i :: 0 <= i < |run.steps| && run.steps[i].error.Some? && !DeniedAt(run, i))
  }

  lemma SignalsFollowSteps(job: Job, a: Ambient, runId: string, effects: seq<Effect>)
    requires forall i :: 0 <= i < |effects| ==> Fits(job, runId, i, effects[i])
    ensures SignalsInStepOrder(FinishedRun(job, a, runId, effects))
  {
    hide OutputSideFits;
    var steps := CollectedInOrder(effects, SignalIn);
    forall k | 0 <= k < |steps| ensures Collect(effects, SignalIn)[k].stepIndex == steps[k] {
      assert Fits(job, runId, steps[k], effects[steps[k]]);
    }
  }

  lemma EvidenceFollowsSteps(job: Job, a: Ambient, runId: string, effects: seq<Effect>)
    requires forall i :: 0 <= i < |effects| ==> Fits(job, runId, i, effects[i])
    ensures EvidenceInStepOrder(FinishedRun(job, a, runId, effects))
  {
    hide PolicySideFits;
    var steps := CollectedInOrder(effects, EvidenceIn);
    forall k | 0 <= k < |steps| ensures Collect(effects, EvidenceIn)[k].stepIndex == steps[k] {
      assert Fits(job, runId, steps[k], effects[steps[k]]);
    }
  }

  lemma ArtifactsFollowSteps(job: Job, a: Ambient, runId: string, effects: seq<Effect>)
    requires forall i :: 0 <= i < |effects| ==> Fits(job, runId, i, effects[i])
    ensures exists steps :: ArtifactsOfSteps(job.w, FinishedRun(job, a, runId, effects), steps)
  {
    hide PolicySideFits, DescribesContent;
    var run := FinishedRun(job, a, runId, effects);
    var steps := CollectedInOrder(effects, ArtifactIn);
    forall k | 0 <= k < |steps| ensures IsArtifactOf(job.w, run, run.artifacts[k], steps[k]) {
      assert Fits(job, runId, steps[k], effects[steps[k]]);
    }
    forall i | 0 <= i < |run.steps| && run.steps[i].name == "write_file" && run.steps[i].outputDigest.Some?
      ensures i in steps
    {
      assert Fits(job, runId, i, effects[i]);
    }
    assert ArtifactsOfSteps(job.w, run, steps);
  }

  /** No list of a run repeats or reorders its entries: each follows the steps, one entry a step at most, and
      the artifacts are exactly those of the successful writes, with the content written. */
  lemma ListsFollowSteps(job: Job, a: Ambient, runId: string, files: Files)
    requires Execute(job, a, runId, |job.script.steps|, files).Finished?
    ensures ListsInStepOrder(job.w,
              FinishedRun(job, a, runId, Execute(job, a, runId, |job.script.steps|, files).effects))
  {
    var effects := Execute(job, a, runId, |job.script.steps|, files).effects;
    AllFit(job, a, runId, |job.script.steps|, files);
    hide Fits, Execute;
    DecisionsInStepOrder(job, runId, effects);
    SignalsFollowSteps(job, a, runId, effects);
    EvidenceFollowsSteps(job, a, runId, effects);
    ArtifactsFollowSteps(job, a, runId, effects);
  }

  lemma StepsCorrespond(job: Job, a: Ambient, runId: string, effects: seq<Effect>)
    requires |effects| == |job.script.steps|
    requires forall i :: 0 <= i < |effects| ==> Fits(job, runId, i, effects[i])
    ensures StepsMatch(job, FinishedRun(job, a, runId, effects))
  {
  }

  lemma SignalsCorrespond(job: Job, a: Ambient, runId: string, effects: seq<Effect>)
    requires forall i :: 0 <= i < |effects| ==> Fits(job, runId, i, effects[i])
    ensures SignalsMatch(FinishedRun(job, a, runId, effects))
  {
    var run := FinishedRun(job, a, runId, effects);
    forall i
      ensures SignalAt(run, i) <==> FlaggedAt(run, i)
    {
      if SignalAt(run, i) {
        var r :| r in run.riskSignals && r.stepIndex == i;
        InCollection(effects, SignalIn, r);
        DecisionOfItsStep(job, runId, effects, effects[i].decision.value);
      }
      if FlaggedAt(run, i) {
        var d :| d in run.policyDecisions && d.stepIndex == i && !d.decision.Allow?;
        DecisionOfItsStep(job, runId, effects, d);
        InCollection(effects, SignalIn, effects[i].signal.value);
      }
    }
  }

  lemma EvidenceOfStep(job: Job, a: Ambient, runId: string, effects: seq<Effect>, i: nat, digest: string)
    requires forall i :: 0 <= i < |effects| ==> Fits(job, runId, i, effects[i])
    ensures var run := FinishedRun(job, a, runId, effects); EvidenceAt(run, i, digest) <==> OutputAt(run, i, digest)
  {
    hide PolicySideFits, DescribesContent, NatToString, Lookup, Preview, Collect;
    var run := FinishedRun(job, a, runId, effects);
    if EvidenceAt(run, i, digest) {
      var e :| e in run.evidence && e.stepIndex == i && e.digest == digest;
      InCollection(effects, EvidenceIn, e);
      var k :| 0 <= k < |effects| && EvidenceIn(effects[k]) == Some(e);
      assert Fits(job, runId, k, effects[k]);
    }
    if OutputAt(run, i, digest) {
      assert Fits(job, runId, i, effects[i]);
      InCollection(effects, EvidenceIn, effects[i].evidence.value);
    }
  }

  lemma EvidenceCorresponds(job: Job, a: Ambient, runId: string, effects: seq<Effect>)
    requires forall i :: 0 <= i < |effects| ==> Fits(job, runId, i, effects[i])
    ensures EvidenceMatches(FinishedRun(job, a, runId, effects))
  {
    hide PolicySideFits, DescribesContent, NatToString, Lookup, Preview, EvidenceAt, OutputAt;
    forall i: nat, digest
      ensures var run := FinishedRun(job, a, runId, effects); EvidenceAt(run, i, digest) <==> OutputAt(run, i, digest)
    {
      EvidenceOfStep(job, a, runId, effects, i, digest);
    }
  }

  lemma ArtifactsCorrespond(job: Job, a: Ambient, runId: string, effects: seq<Effect>)
    requires forall i :: 0 <= i < |effects| ==> Fits(job, runId, i, effects[i])
    ensures ArtifactsMatch(FinishedRun(job, a, runId, effects))
  {
    hide PolicySideFits, DescribesContent, Lookup, NatToString, Preview;
    var run := FinishedRun(job, a, runId, effects);
    forall t | t in run.artifacts
      ensures exists i :: 0 <= i < |effects| && effects[i].artifact == Some(t)
                && t.id == runId + "-art-" + NatToString(i)
    {
      InCollection(effects, ArtifactIn, t);
    }
    forall i | 0 <= i < |run.steps|
      ensures (run.steps[i].name == "write_file" && run.steps[i].outputDigest.Some?) <==> ArtifactFor(run, i)
    {
      if effects[i].artifact.Some? {
        InCollection(effects, ArtifactIn, effects[i].artifact.value);
        assert effects[i].artifact.value in run.artifacts;
      }
      if ArtifactFor(run, i) {
        var t :| t in run.artifacts && t.id == run.id + "-art-" + NatToString(i);
        var j :| 0 <= j < |effects| && effects[j].artifact == Some(t) && t.id == runId + "-art-" + NatToString(j);
        ArtifactIdsDiffer(runId, i, j);
      }
    }
  }

  lemma StatusCorresponds(job: Job, a: Ambient, runId: string, effects: seq<Effect>)
    requires forall i :: 0 <= i < |effects| ==> Fits(job, runId, i, effects[i])
    ensures StatusMatches(FinishedRun(job, a, runId, effects))
  {
    var run := FinishedRun(job, a, runId, effects);
    forall i | 0 <= i < |effects|
      ensures DeniedAt(run, i) <==> Denied(effects[i])
      ensures effects[i].failed <==> run.steps[i].error.Some? && !DeniedAt(run, i)
    {
      if Denied(effects[i]) {
        DecisionOfItsStep(job, runId, effects, effects[i].decision.value);
      }
      if DeniedAt(run, i) {
        var d :| d in run.policyDecisions && d.stepIndex == i && d.decision.Deny?;
        DecisionOfItsStep(job, runId, effects, d);
      }
    }
  }

  lemma RunsCorrespondToSteps(job: Job, a: Ambient, runId: string, files: Files)
    requires Execute(job, a, runId, |job.script.steps|, files).Finished?
    ensures var run := FinishedRun(job, a, runId, Execute(job, a, runId, |job.script.steps|, files).effects);
            && StepsMatch(job, run) && StatusMatches(run)
            && SignalsMatch(run) && EvidenceMatches(run) && ArtifactsMatch(run) && ListsInStepOrder(job.w, run)
  {
    var effects := Execute(job, a, runId, |job.script.steps|, files).effects;
    AllFit(job, a, runId, |job.script.steps|, files);
    hide SignalsMatch, EvidenceMatches, ArtifactsMatch, StatusMatches, ListsInStepOrder, Fits;
    ListsFollowSteps(job, a, runId, files);
    StepsCorrespond(job, a, runId, effects);
    SignalsCorrespond(job, a, runId, effects);
    EvidenceCorresponds(job, a, runId, effects);
    ArtifactsCorrespond(job, a, runId, effects);
    StatusCorresponds(job, a, runId, effects);
  }

  /******* The final workspace *******/

  /** What a recorded step did to the files: only writes and patches that produced an output count. */
  function Redo(w: Foreign, files: Files, step: StepRecord): Files {
    if step.outputDigest.None? then files
    else if step.name == "write_file" then WriteFile(files, step.args).files
    else if step.name == "apply_patch" then ApplyPatch(w, files, step.args).files
    else files
  }

  function RedoAll(w: Foreign, files: Files, steps: seq<StepRecord>): Files {
    if steps == [] then files
    else Redo(w, RedoAll(w, files, steps[..|steps| - 1]), steps[|steps| - 1])
  }

  lemma ToolRedone(job: Job, runId: string, i: nat, args: Args, e: Effect, files: Files)
    requires i < |job.script.steps| && PerformTool(job, runId, i, args, e, files).Done?
    requires e.record.name == job.script.steps[i].tool && e.record.args == args && e.record.outputDigest.None?
    ensures var done := PerformTool(job, runId, i, args, e, files);
            done.files == Redo(job.w, files, done.effect.record)
  {
    OtherCallsKeepFiles(job.w, e.record.name, files, args);
    hide WriteFile, ApplyPatch, ReadFile, ArtifactOf, EvidenceOf, Preview, Lookup;
  }

  lemma StepRedone(job: Job, a: Ambient, runId: string, i: nat, outputs: seq<Option<string>>, files: Files)
    requires i < |job.script.steps| && PerformStep(job, a, runId, i, outputs, files).Done?
    ensures var done := PerformStep(job, a, runId, i, outputs, files);
            done.files == Redo(job.w, files, done.effect.record)
  {
    var resolved := ResolveArgs(job.w.digits, job.script.steps[i].args, outputs);
    if resolved.Ok? && !VerdictOn(job, i, resolved.value).decision.Deny? {
      ToolRedone(job, runId, i, resolved.value, GatedEffect(job, a, runId, i, resolved.value), files);
    }
  }

  lemma NothingRedone(job: Job, a: Ambient, runId: string, files: Files)
    ensures RedoAll(job.w, files, RunSoFar(job, a, runId, []).steps) == files
  {
  }

  lemma OneMoreRedone(job: Job, a: Ambient, runId: string, effects: seq<Effect>, e: Effect, files: Files)
    ensures RedoAll(job.w, files, RunSoFar(job, a, runId, effects + [e]).steps) ==
            Redo(job.w, RedoAll(job.w, files, RunSoFar(job, a, runId, effects).steps), e.record)
  {
    hide Redo, Collect;
    var before, after := RunSoFar(job, a, runId, effects).steps, RunSoFar(job, a, runId, effects + [e]).steps;
    assert after == before + [e.record];
    assert after[..|after| - 1] == before;
  }

  /** The final workspace can be rebuilt from the initial one and the recorded steps alone. */
  lemma {:induction false} FinalWorkspaceIsRedone(job: Job, a: Ambient, runId: string, n: nat, files: Files)
    requires n <= |job.script.steps| && Execute(job, a, runId, n, files).Finished?
    ensures var x := Execute(job, a, runId, n, files);
            x.files == RedoAll(job.w, files, RunSoFar(job, a, runId, x.effects).steps)
  {
    hide PerformStep, Redo, Outputs, RunSoFar, RedoAll;
    if n == 0 {
      NothingRedone(job, a, runId, files);
    } else {
      var x := Execute(job, a, runId, n - 1, files);
      FinalWorkspaceIsRedone(job, a, runId, n - 1, files);
      StepRedone(job, a, runId, n - 1, Outputs(x.effects), x.files);
      var e := PerformStep(job, a, runId, n - 1, Outputs(x.effects), x.files).effect;
      OneMoreRedone(job, a, runId, x.effects, e, files);
    }
  }

  /******* Clocks and identifiers do not matter *******/

  function UnstampedRecord(r: StepRecord): StepRecord {
    r.(startedAt := 0, durationMs := 0.0, decisionId := None)
  }

  /** An effect with its timestamps, and every identifier derived from the run id, erased. */
  function Unstamped(e: Effect): Effect {
    e.(record := UnstampedRecord(e.record),
       decision := if e.decision.Some? then Some(e.decision.value.(id := "", runId := "")) else None,
       signal := if e.signal.Some? then Some(e.signal.value.(id := "", runId := "")) else None,
       evidence := if e.evidence.Some? then Some(e.evidence.value.(id := "", runId := "")) else None,
       artifact := if e.artifact.Some? then Some(e.artifact.value.(id := "", runId := "")) else None)
  }

  lemma SameUnstampedParts(e: Effect, e': Effect)
    requires Unstamped(e) == Unstamped(e')
    ensures UnstampedRecord(e.record) == UnstampedRecord(e'.record)
    ensures e.output == e'.output && e.failed == e'.failed
  {
    assert Unstamped(e).record == Unstamped(e').record;
    assert Unstamped(e).output == Unstamped(e').output && Unstamped(e).failed == Unstamped(e').failed;
  }

  lemma ErrorUnstamped(e: Effect, e': Effect, message: string)
    requires Unstamped(e) == Unstamped(e')
    ensures Unstamped(e.(record := e.record.(error := Some(message)), failed := true)) ==
            Unstamped(e'.(record := e'.record.(error := Some(message)), failed := true))
  {
    SameUnstampedParts(e, e');
    var u, u' := Unstamped(e), Unstamped(e');
    assert u.(record := u.record.(error := Some(message)), failed := true) ==
           u'.(record := u'.record.(error := Some(message)), failed := true);
  }

  lemma OutputUnstamped(
    job: Job, id: string, id': string, i: nat, args: Args, e: Effect, e': Effect, text: string)
    requires i < |job.script.steps| && Unstamped(e) == Unstamped(e')
    requires job.script.steps[i].tool == "write_file" ==> HasTexts(args)
    ensures Unstamped(AfterOutput(job, id, i, args, e, text)) == Unstamped(AfterOutput(job, id', i, args, e', text))
  {
    hide Lookup, Preview, NatToString, EndsWith;
    SameUnstampedParts(e, e');
    var s, s' := AfterOutput(job, id, i, args, e, text), AfterOutput(job, id', i, args, e', text);
    assert UnstampedRecord(s.record) == UnstampedRecord(s'.record);
    assert Unstamped(s).decision == Unstamped(e).decision && Unstamped(s').decision == Unstamped(e').decision;
    assert Unstamped(s).signal == Unstamped(e).signal && Unstamped(s').signal == Unstamped(e').signal;
    assert Unstamped(s).evidence == Unstamped(s').evidence;
    assert Unstamped(s).artifact == Unstamped(s').artifact;
  }

  lemma ToolUnstamped(job: Job, id: string, id': string, i: nat, args: Args, e: Effect, e': Effect, files: Files)
    requires i < |job.script.steps| && Unstamped(e) == Unstamped(e')
    ensures var s, s' := PerformTool(job, id, i, args, e, files), PerformTool(job, id', i, args, e', files);
            if s.Raised? then s'.Raised? && s'.crash == s.crash
            else s'.Done? && s'.files == s.files && Unstamped(s'.effect) == Unstamped(s.effect)
  {
    hide CallTool, AfterOutput, Unstamped;
    SameUnstampedParts(e, e');
    var tool := job.script.steps[i].tool;
    if tool in TOOLS {
      var call := CallTool(job.w, tool, files, args);
      match call.result
      case ToolCrash =>
      case ToolError(message) => ErrorUnstamped(e, e', message);
      case Output(text) =>
        if tool == "write_file" {
          WriteNeedsTexts(job.w, files, args);
        }
        OutputUnstamped(job, id, id', i, args, e, e', text);
    }
  }

  lemma StepUnstamped(
    job: Job, a: Ambient, a': Ambient, id: string, id': string, i: nat, outputs: seq<Option<string>>, files: Files)
    requires i < |job.script.steps|
    ensures var s, s' := PerformStep(job, a, id, i, outputs, files), PerformStep(job, a', id', i, outputs, files);
            if s.Raised? then s'.Raised? && s'.crash == s.crash
            else s'.Done? && s'.files == s.files && Unstamped(s'.effect) == Unstamped(s.effect)
  {
    hide ResolveArgs, Evaluate, PerformTool, NatToString;
    var resolved := ResolveArgs(job.w.digits, job.script.steps[i].args, outputs);
    if resolved.Ok? {
      var args := resolved.value;
      var e, e' := GatedEffect(job, a, id, i, args), GatedEffect(job, a', id', i, args);
      assert Unstamped(e) == Unstamped(e');
      if !VerdictOn(job, i, args).decision.Deny? {
        ToolUnstamped(job, id, id', i, args, e, e', files);
      }
    }
  }

  /** Two executions of the same job on the same files do the same, whatever their clocks and run ids:
      they crash alike, or leave the same files and record the same effects. */
  lemma {:induction false} AmbientIsIrrelevant(
    job: Job, a: Ambient, a': Ambient, id: string, id': string, n: nat, files: Files)
    requires n <= |job.script.steps|
    ensures var x, x' := Execute(job, a, id, n, files), Execute(job, a', id', n, files);
            && (if x.Crashed? then x'.Crashed? && x'.crash == x.crash else x'.Finished?)
            && x'.files == x.files && |x'.effects| == |x.effects|
            && forall i :: 0 <= i < |x.effects| ==> Unstamped(x'.effects[i]) == Unstamped(x.effects[i])
  {
    hide PerformStep, Unstamped;
    if n == 0 {
    } else {
      AmbientIsIrrelevant(job, a, a', id, id', n - 1, files);
      var x, x' := Execute(job, a, id, n - 1, files), Execute(job, a', id', n - 1, files);
      if x.Finished? {
        forall i | 0 <= i < n - 1 ensures x'.effects[i].output == x.effects[i].output {
          SameUnstampedParts(x.effects[i], x'.effects[i]);
        }
        assert Outputs(x'.effects) == Outputs(x.effects);
        StepUnstamped(job, a, a', id, id', n - 1, Outputs(x.effects), x.files);
      }
    }
  }

  /******* The trace round trip *******/

  lemma LoadOne(state: Loading, event: Event)
    ensures LoadOnto(state, [event]) == LoadEvent(state, event)
  {
    assert [event][..0] == [];
    assert LoadOnto(state, []) == state;
  }

  lemma LoadPolicyLines(header: Header, run: AgentRun, e: Effect)
    ensures LoadOnto(Loaded(header, run), PolicyLines(e)) ==
            Loaded(header, run.(
              policyDecisions := run.policyDecisions + (if e.decision.Some? then [e.decision.value] else []),
              riskSignals := run.riskSignals + (if e.signal.Some? then [e.signal.value] else [])))
  {
    var d: seq<Event> := if e.decision.Some? then [PolicyDecisionEvent(e.decision.value)] else [];
    var r: seq<Event> := if e.signal.Some? then [RiskSignalEvent(e.signal.value)] else [];
    LoadAppended(Loaded(header, run), d, r);
    if e.decision.Some? {
      LoadOne(Loaded(header, run), d[0]);
    } else {
      assert run.policyDecisions + [] == run.policyDecisions;
    }
    var state := LoadOnto(Loaded(header, run), d);
    if e.signal.Some? { LoadOne(state, r[0]); } else { assert run.riskSignals + [] == run.riskSignals; }
  }

  lemma LoadOutputLines(header: Header, run: AgentRun, e: Effect)
    ensures LoadOnto(Loaded(header, run), OutputLines(e)) ==
            Loaded(header, run.(
              evidence := run.evidence + (if e.evidence.Some? then [e.evidence.value] else []),
              artifacts := run.artifacts + (if e.artifact.Some? then [e.artifact.value] else [])))
  {
    var d: seq<Event> := if e.evidence.Some? then [EvidenceEvent(e.evidence.value)] else [];
    var r: seq<Event> := if e.artifact.Some? then [ArtifactEvent(e.artifact.value)] else [];
    LoadAppended(Loaded(header, run), d, r);
    if e.evidence.Some? { LoadOne(Loaded(header, run), d[0]); } else { assert run.evidence + [] == run.evidence; }
    var state := LoadOnto(Loaded(header, run), d);
    if e.artifact.Some? { LoadOne(state, r[0]); } else { assert run.artifacts + [] == run.artifacts; }
  }

  lemma LoadStepEvents(header: Header, run: AgentRun, e: Effect)
    ensures LoadOnto(Loaded(header, run), StepEvents(e)) == Loaded(header, Extend(run, e))
  {
    var start := Loaded(header, run);
    LoadAppended(start, PolicyLines(e), OutputLines(e) + [StepEvent(e.record)]);
    LoadPolicyLines(header, run, e);
    var run1 := LoadOnto(start, PolicyLines(e)).run;
    LoadAppended(Loaded(header, run1), OutputLines(e), [StepEvent(e.record)]);
    LoadOutputLines(header, run1, e);
    LoadOne(LoadOnto(Loaded(header, run1), OutputLines(e)), StepEvent(e.record));
  }

  /** The run the reader has built after the lines of some steps: seats and start time are not there yet. */
  function PartlyLoaded(job: Job, a: Ambient, runId: string, effects: seq<Effect>): AgentRun {
    RunSoFar(job, a, runId, effects).(reviewerSeats := [], startedAt := None)
  }

  lemma {:induction false} LoadSteps(job: Job, a: Ambient, runId: string, effects: seq<Effect>, files: Files)
    ensures var header := HeaderOf(job, runId, files);
            LoadOnto(Loaded(header, StartedRun(header)), AllStepEvents(effects)) ==
            Loaded(header, PartlyLoaded(job, a, runId, effects))
  {
    var header := HeaderOf(job, runId, files);
    if effects == [] {
      assert RunSoFar(job, a, runId, []).steps == [];
    } else {
      var init, e := effects[..|effects| - 1], effects[|effects| - 1];
      assert init + [e] == effects;
      LoadSteps(job, a, runId, init, files);
      OneMoreEffect(job, a, runId, init, e);
      LoadAppended(Loaded(header, StartedRun(header)), AllStepEvents(init), StepEvents(e));
      LoadStepEvents(header, PartlyLoaded(job, a, runId, init), e);
    }
  }

  /** The events of a trace give back its header and its run, in every field but the reviewer seats. */
  lemma EventsRoundTrip(job: Job, a: Ambient, runId: string, effects: seq<Effect>, files: Files)
    ensures LoadOnto(NothingYet, TraceOf(job, a, runId, effects, files)) ==
            Loaded(HeaderOf(job, runId, files), FinishedRun(job, a, runId, effects).(reviewerSeats := []))
  {
    hide LoadOnto, AllStepEvents, Collect;
    var header, run := HeaderOf(job, runId, files), FinishedRun(job, a, runId, effects);
    var start: seq<Event> := [RunStartEvent(header)];
    LoadAppended(NothingYet, start + AllStepEvents(effects), [EndEvent(run)]);
    LoadAppended(NothingYet, start, AllStepEvents(effects));
    LoadOne(NothingYet, RunStartEvent(header));
    LoadSteps(job, a, runId, effects, files);
    LoadOne(Loaded(header, PartlyLoaded(job, a, runId, effects)), EndEvent(run));
  }

  /** Reading back the trace file of an execution gives its header and its run, in every field but the
      reviewer seats, which a trace does not restore, if every event is on one line; otherwise it fails. */
  lemma TraceRoundTrip(c: Codec, job: Job, a: Ambient, runId: string, effects: seq<Effect>, files: Files)
    requires AllWellWritten(c, TraceOf(job, a, runId, effects, files))
    ensures var trace := TraceOf(job, a, runId, effects, files);
            LoadText(c, FileText(c, trace)) ==
            if AllOneLine(c, trace) then
              Loaded(HeaderOf(job, runId, files), FinishedRun(job, a, runId, effects).(reviewerSeats := []))
            else NotJson
  {
    hide TraceOf, FileText, LoadText, AllOneLine, AllWellWritten;
    EventsRoundTrip(job, a, runId, effects, files);
    WrittenLoadsIff(c, TraceOf(job, a, runId, effects, files));
  }

  /** The run comes back in full exactly when the script declares no seat; a valid script declares its owner's,
      so the run of a valid script never does. */
  lemma FullRoundTripIff(c: Codec, job: Job, a: Ambient, runId: string, effects: seq<Effect>, files: Files)
    requires AllWellWritten(c, TraceOf(job, a, runId, effects, files))
    requires AllOneLine(c, TraceOf(job, a, runId, effects, files))
    ensures var loaded := LoadText(c, FileText(c, TraceOf(job, a, runId, effects, files)));
            && loaded.Loaded?
            && (loaded.run == FinishedRun(job, a, runId, effects) <==> job.script.reviewerSeats == [])
            && (job.script.Valid() ==> loaded.run != FinishedRun(job, a, runId, effects))
  {
    hide TraceOf, FileText, LoadText, AllOneLine, AllWellWritten;
    TraceRoundTrip(c, job, a, runId, effects, files);
    var run := FinishedRun(job, a, runId, effects);
    assert run.reviewerSeats == job.script.reviewerSeats;
    assert run.(reviewerSeats := []) == run <==> run.reviewerSeats == [];
  }

  /** The line separators that JSON leaves as they are. */
  predicate IsSeparator(x: char) {
    x == '\U{85}' || x == '\U{2028}' || x == '\U{2029}'
  }

  /** A separator in an argument of the script is enough: no trace of it can be read back. */
  lemma SeparatorInScript(c: Codec, job: Job, a: Ambient, runId: string, effects: seq<Effect>, files: Files, x: char)
    requires AllWellWritten(c, TraceOf(job, a, runId, effects, files))
    requires IsSeparator(x) && x in TextsOfScript(job.script)
    ensures LoadText(c, FileText(c, TraceOf(job, a, runId, effects, files))) == NotJson
  {
    hide LoadText, FileText, FinishedRun, AllStepEvents, TextsOfScript;
    var trace := TraceOf(job, a, runId, effects, files);
    var start := RunStartEvent(HeaderOf(job, runId, files));
    assert trace[0] == start;
    assert WellWritten(c, start);
    OneLineIff(c, start);
    assert x in c.encode(start);
    assert !IsOneLine(c, start);
    TraceRoundTrip(c, job, a, runId, effects, files);
  }

  /** A script that reads one file, whose name holds U+2028, under a bundle that allows everything. */
  function SeparatorJob(w: Foreign): Job {
    var owner := ReviewerSeat("seat", "Ada", "owner", "all");
    Job(w,
        Script(Task("task", "", "goal"), Goal("goal", "", [], "seat"), [owner], "scripted@0.1", None,
               [ScriptedStep("read_file", [Field("path", Str("notes\U{2028}.md"))], [], "")]),
        Policy("policy", "", Allow, []))
  }

  lemma SeparatorJobTexts(w: Foreign)
    ensures '\U{2028}' in TextsOfScript(SeparatorJob(w).script)
  {
    var args := SeparatorJob(w).script.steps[0].args;
    assert StringsOfArgs(args) == ["notes\U{2028}.md"];
    assert Concat(["notes\U{2028}.md"]) == "notes\U{2028}.md" + Concat([]);
    assert "notes\U{2028}.md"[5] == '\U{2028}';
    assert Concat(StringsOfArgs(args))[5] == '\U{2028}';
  }

  /** A single text argument stays one, whatever is substituted in it. */
  lemma OneTextResolves(w: Foreign, path: string)
    ensures var r := ResolveArgs(w.digits, [Field("path", Str(path))], []);
            r.Ok? ==> Lookup(r.value, "path").Some? && Lookup(r.value, "path").value.Str?
  {
    hide Substitute;
    var args := [Field("path", Str(path))];
    assert args[1..] == [];
  }

  lemma SeparatorJobRuns(w: Foreign, a: Ambient, runId: string, files: Files)
    ensures var job := SeparatorJob(w); Execute(job, a, runId, |job.script.steps|, files).Finished?
  {
    var job := SeparatorJob(w);
    assert Execute(job, a, runId, 0, files) == Finished([], files);
    if PerformStep(job, a, runId, 0, [], files).Raised? {
      RaisesWithoutRuleIff(job, a, runId, 0, [], files);
      RaisesForToolIff(job, a, runId, 0, [], files);
      RaisesInToolIff(job, a, runId, 0, [], files);
      OneTextResolves(w, "notes\U{2028}.md");
    }
  }

  /** It is valid and always runs to its end, and its trace can never be read back. */
  lemma SeparatorJobTraceUnreadable(c: Codec, w: Foreign, a: Ambient, runId: string, files: Files)
    ensures var job := SeparatorJob(w);
            var x := Execute(job, a, runId, |job.script.steps|, files);
            && job.script.Valid() && x.Finished?
            && (AllWellWritten(c, TraceOf(job, a, runId, x.effects, files)) ==>
                  LoadText(c, FileText(c, TraceOf(job, a, runId, x.effects, files))) == NotJson)
  {
    hide LoadText, FileText, AllWellWritten, TraceOf;
    var job := SeparatorJob(w);
    assert job.script.reviewerSeats[0] in job.script.reviewerSeats;
    SeparatorJobRuns(w, a, runId, files);
    SeparatorJobTexts(w);
    var x := Execute(job, a, runId, |job.script.steps|, files);
    if AllWellWritten(c, TraceOf(job, a, runId, x.effects, files)) {
      SeparatorInScript(c, job, a, runId, x.effects, files, '\U{2028}');
    }
  }
}
