/** Replay: execute the script of a trace again and report every divergence from the record. */
module Replays {
  import opened Text
  import opened StepReferences
  import opened RunRecords
  import opened Policies
  import Tools
  import opened Traces
  import opened Executor
  import opened RunProperties

  datatype StepDivergence = StepDivergence(
    stepIndex: int, field: string, recorded: Option<string>, replayed: Option<string>)

  datatype ReplayReport = ReplayReport(runId: string, stepsCompared: nat, divergences: seq<StepDivergence>)
  {
    predicate Ok() { divergences == [] }
  }

  datatype ReplayResult =
    | Report(report: ReplayReport)
    | TraceRefused
    | ScriptInvalid
    | ReplayCrashed(crash: Crash)

  /******* The comparison *******/

  /** Decisions by step; the last decision of a step wins. */
  function ByStep(decisions: seq<PolicyDecision>): map<nat, PolicyDecision> {
    if decisions == [] then map[]
    else
      var last := decisions[|decisions| - 1];
      ByStep(decisions[..|decisions| - 1])[last.stepIndex := last]
  }

  function DecisionFor(run: AgentRun, i: nat): Option<PolicyDecision> {
    var byStep := ByStep(run.policyDecisions);
    if i in byStep then Some(byStep[i]) else None
  }

  /** The text that is compared for a decision. */
  function Label(d: Option<PolicyDecision>): Option<string> {
    if d.None? then None else Some(d.value.ruleId + ":" + DecisionText(d.value.decision))
  }

  function CompareField(
    i: int, field: string, recorded: Option<string>, replayed: Option<string>): seq<StepDivergence>
  {
    if recorded != replayed then [StepDivergence(i, field, recorded, replayed)] else []
  }

  function CompareStep(i: nat, rec: StepRecord, redone: StepRecord, recDecision: Option<PolicyDecision>,
                       newDecision: Option<PolicyDecision>): seq<StepDivergence> {
    CompareField(i, "input_digest", Some(rec.inputDigest), Some(redone.inputDigest))
    + CompareField(i, "output_digest", rec.outputDigest, redone.outputDigest)
    + CompareField(i, "error", rec.error, redone.error)
    + CompareField(i, "policy_decision", Label(recDecision), Label(newDecision))
  }

  function CompareAt(recorded: AgentRun, rerun: AgentRun, i: nat): seq<StepDivergence>
    requires i < |recorded.steps| || i < |rerun.steps|
  {
    if i >= |recorded.steps| then [StepDivergence(i, "extra_step", None, Some(rerun.steps[i].name))]
    else if i >= |rerun.steps| then [StepDivergence(i, "missing_step", Some(recorded.steps[i].name), None)]
    else CompareStep(i, recorded.steps[i], rerun.steps[i], DecisionFor(recorded, i), DecisionFor(rerun, i))
  }

  function Max(a: nat, b: nat): nat {
    if a >= b then a else b
  }

  function CompareUpTo(recorded: AgentRun, rerun: AgentRun, n: nat): seq<StepDivergence>
    requires n <= Max(|recorded.steps|, |rerun.steps|)
  {
    if n == 0 then [] else CompareUpTo(recorded, rerun, n - 1) + CompareAt(recorded, rerun, n - 1)
  }

  /** An absent or empty digest in the header means there is nothing to compare. */
  predicate WorkspaceDiffers(header: Header, digest: string) {
    header.workspaceDigest.Some? && header.workspaceDigest.value != "" && header.workspaceDigest.value != digest
  }

  function CompareWorkspace(header: Header, digest: string): seq<StepDivergence> {
    if WorkspaceDiffers(header, digest) then
      [StepDivergence(-1, "workspace_digest", header.workspaceDigest, Some(digest))]
    else []
  }

  function ReportOf(header: Header, digest: string, recorded: AgentRun, rerun: AgentRun): ReplayReport {
    var total := Max(|recorded.steps|, |rerun.steps|);
    ReplayReport(recorded.id, total, CompareWorkspace(header, digest) + CompareUpTo(recorded, rerun, total))
  }

  /** The job that a trace describes, with the code as it is now. */
  function JobIn(w: Foreign, header: Header): Job {
    Job(w, header.script, header.policy)
  }

  function RunIdFor(a: Ambient, givenId: string): string {
    if givenId != "" then givenId else a.generatedId
  }

  function Replay(c: Codec, w: Foreign, a: Ambient, text: string, files: Files): ReplayResult {
    match LoadText(c, text)
    case Loaded(header, recorded) =>
      if !header.script.Valid() then ScriptInvalid
      else
        var job, id := JobIn(w, header), RunIdFor(a, recorded.id);
        (match Execute(job, a, id, |job.script.steps|, files)
         case Crashed(_, _, crash, _) => ReplayCrashed(crash)
         case Finished(effects, _) =>
           Report(ReportOf(header, w.digestFiles(files), recorded, FinishedRun(job, a, id, effects))))
    case _ => TraceRefused
  }

  /** The workspace that a replay leaves: the steps are really performed on it. */
  function ReplayedFiles(c: Codec, w: Foreign, a: Ambient, text: string, files: Files): Files {
    match LoadText(c, text)
    case Loaded(header, recorded) =>
      if !header.script.Valid() then files
      else
        var job := JobIn(w, header);
        Execute(job, a, RunIdFor(a, recorded.id), |job.script.steps|, files).files
    case _ => files
  }

  method BuildByStep(decisions: seq<PolicyDecision>) returns (byStep: map<nat, PolicyDecision>)
    ensures byStep == ByStep(decisions)
  {
    byStep := map[];
    for i := 0 to |decisions|
      invariant byStep == ByStep(decisions[..i])
    {
      assert decisions[..i + 1][..i] == decisions[..i];
      byStep := byStep[decisions[i].stepIndex := decisions[i]];
    }
    assert decisions[..|decisions|] == decisions;
  }

  method CompareFields(
    i: nat, rec: StepRecord, redone: StepRecord, recDecision: Option<PolicyDecision>,
    newDecision: Option<PolicyDecision>,
    earlier: seq<StepDivergence>)
    returns (divergences: seq<StepDivergence>)
    ensures divergences == earlier + CompareStep(i, rec, redone, recDecision, newDecision)
  {
    hide Label;
    divergences := [];
    if rec.inputDigest != redone.inputDigest {
      divergences := divergences + [StepDivergence(i, "input_digest", Some(rec.inputDigest), Some(redone.inputDigest))];
    }
    ghost var inputs := CompareField(i, "input_digest", Some(rec.inputDigest), Some(redone.inputDigest));
    assert divergences == inputs;
    if rec.outputDigest != redone.outputDigest {
      divergences := divergences + [StepDivergence(i, "output_digest", rec.outputDigest, redone.outputDigest)];
    }
    ghost var outputs := inputs + CompareField(i, "output_digest", rec.outputDigest, redone.outputDigest);
    assert divergences == outputs;
    if rec.error != redone.error {
      divergences := divergences + [StepDivergence(i, "error", rec.error, redone.error)];
    }
    ghost var errors := outputs + CompareField(i, "error", rec.error, redone.error);
    assert divergences == errors;
    var recLabel, newLabel := Label(recDecision), Label(newDecision);
    if recLabel != newLabel {
      divergences := divergences + [StepDivergence(i, "policy_decision", recLabel, newLabel)];
    }
    assert divergences == errors + CompareField(i, "policy_decision", recLabel, newLabel);
    divergences := earlier + divergences;
  }

  method CompareRuns(recorded: AgentRun, rerun: AgentRun) returns (divergences: seq<StepDivergence>)
    ensures divergences == CompareUpTo(recorded, rerun, Max(|recorded.steps|, |rerun.steps|))
  {
    hide CompareStep, ByStep, CompareField;
    var recordedDecisions := BuildByStep(recorded.policyDecisions);
    var rerunDecisions := BuildByStep(rerun.policyDecisions);
    var total := Max(|recorded.steps|, |rerun.steps|);
    divergences := [];
    for i := 0 to total
      invariant divergences == CompareUpTo(recorded, rerun, i)
    {
      ghost var before := divergences;
      if i >= |recorded.steps| {
        divergences := divergences + [StepDivergence(i, "extra_step", None, Some(rerun.steps[i].name))];
      } else if i >= |rerun.steps| {
        divergences := divergences + [StepDivergence(i, "missing_step", Some(recorded.steps[i].name), None)];
      } else {
        var rec, redone := recorded.steps[i], rerun.steps[i];
        var recDecision := if i in recordedDecisions then Some(recordedDecisions[i]) else None;
        var newDecision := if i in rerunDecisions then Some(rerunDecisions[i]) else None;
        divergences := CompareFields(i, rec, redone, recDecision, newDecision, divergences);
      }
      assert divergences == before + CompareAt(recorded, rerun, i);
    }
  }

  method ReplayTrace(c: Codec, w: Foreign, a: Ambient, text: string, workspace: Tools.Workspace)
    returns (result: ReplayResult)
    modifies workspace
    ensures result == Replay(c, w, a, text, old(workspace.files))
    ensures !(result.ReplayCrashed? && result.crash.NonTextWrite?) ==>
              workspace.files == ReplayedFiles(c, w, a, text, old(workspace.files))
  {
    hide LoadText, Execute, CompareUpTo;
    var loading := LoadTrace(c, text);
    if !loading.Loaded? {
      return TraceRefused;
    }
    var header, recorded := loading.header, loading.run;
    if !header.script.Valid() {
      return ScriptInvalid;
    }
    var job := JobIn(w, header);
    var digest := w.digestFiles(workspace.files);
    var divergences := CompareWorkspace(header, digest);
    var outcome, _ := ExecuteScript(c, job, a, workspace, recorded.id);
    if outcome.Threw? {
      return ReplayCrashed(outcome.crash);
    }
    var steps := CompareRuns(recorded, outcome.run);
    return Report(ReplayReport(recorded.id, Max(|recorded.steps|, |outcome.run.steps|), divergences + steps));
  }

  /******* Exactness *******/

  /** The rule and decision a shown shows. */
  function RuleAndDecision(d: Option<PolicyDecision>): Option<(string, Decision)> {
    if d.None? then None else Some((d.value.ruleId, d.value.decision))
  }

  lemma NoColonAfter(r: string, x: string)
    requires ':' !in x
    ensures (r + ":" + x)[|r|] == ':'
    ensures forall k :: |r| < k < |r| + 1 + |x| ==> (r + ":" + x)[k] != ':'
  {
    forall k | |r| < k < |r| + 1 + |x| ensures (r + ":" + x)[k] != ':' {
      assert (r + ":" + x)[k] == x[k - |r| - 1];
    }
  }

  /** Texts that end in a colon and a colon-free part are equal only if their parts are. */
  lemma LastColonSeparates(r: string, x: string, s: string, y: string)
    requires r + ":" + x == s + ":" + y && ':' !in x && ':' !in y
    ensures r == s && x == y
  {
    NoColonAfter(r, x);
    NoColonAfter(s, y);
    var shown := r + ":" + x;
    assert |r| == |s|;
    assert r == shown[..|r|] == s;
    assert x == shown[|r| + 1..] == (s + ":" + y)[|s| + 1..] == y;
  }

  /** Rule ids may contain colons, decisions cannot: the last colon of a label separates them. */
  lemma LabelInjective(d: Option<PolicyDecision>, e: Option<PolicyDecision>)
    ensures Label(d) == Label(e) <==> RuleAndDecision(d) == RuleAndDecision(e)
  {
    if d.Some? && e.Some? && Label(d) == Label(e) {
      var x, y := DecisionText(d.value.decision), DecisionText(e.value.decision);
      LastColonSeparates(d.value.ruleId, x, e.value.ruleId, y);
    }
  }

  /** The two runs give the same evidence for step `i`. */
  ghost predicate AgreeAt(recorded: AgentRun, rerun: AgentRun, i: nat)
    requires i < |recorded.steps| && i < |rerun.steps|
  {
    && recorded.steps[i].inputDigest == rerun.steps[i].inputDigest
    && recorded.steps[i].outputDigest == rerun.steps[i].outputDigest
    && recorded.steps[i].error == rerun.steps[i].error
    && RuleAndDecision(DecisionFor(recorded, i)) == RuleAndDecision(DecisionFor(rerun, i))
  }

  ghost predicate SameEvidence(recorded: AgentRun, rerun: AgentRun) {
    && |recorded.steps| == |rerun.steps|
    && (forall i :: 0 <= i < |recorded.steps| ==> AgreeAt(recorded, rerun, i))
  }

  ghost predicate SilentAt(recorded: AgentRun, rerun: AgentRun, i: nat)
    requires i < Max(|recorded.steps|, |rerun.steps|)
  {
    CompareAt(recorded, rerun, i) == []
  }

  lemma SilentAtIff(recorded: AgentRun, rerun: AgentRun, i: nat)
    requires i < Max(|recorded.steps|, |rerun.steps|)
    ensures SilentAt(recorded, rerun, i) <==>
              i < |recorded.steps| && i < |rerun.steps| && AgreeAt(recorded, rerun, i)
  {
    if i < |recorded.steps| && i < |rerun.steps| {
      LabelInjective(DecisionFor(recorded, i), DecisionFor(rerun, i));
    }
  }

  ghost predicate OrderedByStep(ds: seq<StepDivergence>) {
    forall i, j :: 0 <= i < j < |ds| ==> ds[i].stepIndex <= ds[j].stepIndex
  }

  lemma NothingCompared(recorded: AgentRun, rerun: AgentRun)
    ensures CompareUpTo(recorded, rerun, 0) == [] && OrderedByStep([])
  {
  }

  lemma SilentOneMore(recorded: AgentRun, rerun: AgentRun, n: nat)
    requires n < Max(|recorded.steps|, |rerun.steps|)
    ensures CompareUpTo(recorded, rerun, n + 1) == [] <==>
              CompareUpTo(recorded, rerun, n) == [] && SilentAt(recorded, rerun, n)
  {
  }

  lemma {:induction false} SilentUpToIff(recorded: AgentRun, rerun: AgentRun, n: nat)
    requires n <= Max(|recorded.steps|, |rerun.steps|)
    ensures CompareUpTo(recorded, rerun, n) == [] <==> forall i :: 0 <= i < n ==> SilentAt(recorded, rerun, i)
  {
    hide CompareUpTo, SilentAt;
    if n == 0 {
      NothingCompared(recorded, rerun);
    } else {
      SilentUpToIff(recorded, rerun, n - 1);
      SilentOneMore(recorded, rerun, n - 1);
    }
  }

  /** A report is clean exactly when the workspace digest is absent or equal, the numbers of steps are
      equal, and every step has the same digests, error, and deciding rule with the same decision. */
  lemma CleanIff(header: Header, digest: string, recorded: AgentRun, rerun: AgentRun)
    ensures ReportOf(header, digest, recorded, rerun).Ok() <==>
              !WorkspaceDiffers(header, digest) && SameEvidence(recorded, rerun)
  {
    var total := Max(|recorded.steps|, |rerun.steps|);
    SilentUpToIff(recorded, rerun, total);
    forall i | 0 <= i < total
      ensures SilentAt(recorded, rerun, i) <==>
                i < |recorded.steps| && i < |rerun.steps| && AgreeAt(recorded, rerun, i)
    {
      SilentAtIff(recorded, rerun, i);
    }
    if |recorded.steps| != |rerun.steps| {
      assert !SilentAt(recorded, rerun, total - 1);
    }
  }

  lemma CompareAtIsAt(recorded: AgentRun, rerun: AgentRun, i: nat)
    requires i < |recorded.steps| || i < |rerun.steps|
    ensures forall d :: d in CompareAt(recorded, rerun, i) ==> d.stepIndex == i
    ensures OrderedByStep(CompareAt(recorded, rerun, i))
  {
    hide Label, DecisionFor;
  }

  lemma AppendOrdered(a: seq<StepDivergence>, b: seq<StepDivergence>)
    requires OrderedByStep(a) && OrderedByStep(b)
    requires forall d, e :: d in a && e in b ==> d.stepIndex <= e.stepIndex
    ensures OrderedByStep(a + b)
  {
    var all := a + b;
    forall i, j | 0 <= i < j < |all| ensures all[i].stepIndex <= all[j].stepIndex {
      if i < |a| <= j {
        assert a[i] in a && b[j - |a|] in b;
      }
    }
  }

  lemma {:induction false} CompareUpToOrdered(recorded: AgentRun, rerun: AgentRun, n: nat)
    requires n <= Max(|recorded.steps|, |rerun.steps|)
    ensures OrderedByStep(CompareUpTo(recorded, rerun, n))
    ensures forall d :: d in CompareUpTo(recorded, rerun, n) ==> 0 <= d.stepIndex < n
  {
    hide CompareAt, OrderedByStep;
    if n == 0 {
      NothingCompared(recorded, rerun);
    } else {
      CompareUpToOrdered(recorded, rerun, n - 1);
      CompareAtIsAt(recorded, rerun, n - 1);
      AppendOrdered(CompareUpTo(recorded, rerun, n - 1), CompareAt(recorded, rerun, n - 1));
    }
  }

  /** Divergences are reported in step order, the workspace (step -1) first. */
  lemma ReportOrdered(header: Header, digest: string, recorded: AgentRun, rerun: AgentRun)
    ensures OrderedByStep(ReportOf(header, digest, recorded, rerun).divergences)
  {
    var total := Max(|recorded.steps|, |rerun.steps|);
    CompareUpToOrdered(recorded, rerun, total);
    AppendOrdered(CompareWorkspace(header, digest), CompareUpTo(recorded, rerun, total));
  }

  /******* What a report lists *******/

  /** The last decision of a run about step `i`, if it has one. */
  ghost predicate IsLastDecision(run: AgentRun, i: nat, d: Option<PolicyDecision>) {
    match d
    case None => forall e :: e in run.policyDecisions ==> e.stepIndex != i
    case Some(last) =>
      exists k :: 0 <= k < |run.policyDecisions| && run.policyDecisions[k] == last && last.stepIndex == i
        && forall j :: k < j < |run.policyDecisions| ==> run.policyDecisions[j].stepIndex != i
  }

  predicate IsShownAs(d: Option<PolicyDecision>, text: Option<string>) {
    match d
    case None => text == None
    case Some(decision) =>
      text == Some(decision.ruleId + if decision.decision == Allow then ":allow"
                                     else if decision.decision == Deny then ":deny" else ":needs_review")
  }

  /** A divergence of a step that only one run has. */
  predicate IsAboutStepOfOne(recorded: AgentRun, rerun: AgentRun, d: StepDivergence) {
    var i := d.stepIndex;
    || (&& d.field == "extra_step" && |recorded.steps| <= i < |rerun.steps|
        && d.recorded == None && d.replayed == Some(rerun.steps[i].name))
    || (&& d.field == "missing_step" && |rerun.steps| <= i < |recorded.steps|
        && d.recorded == Some(recorded.steps[i].name) && d.replayed == None)
  }

  /** A divergence of a step that both runs have: a field that differs, with its two values. */
  ghost predicate IsAboutStepOfBoth(recorded: AgentRun, rerun: AgentRun, d: StepDivergence) {
    var i := d.stepIndex;
    && 0 <= i < |recorded.steps| && i < |rerun.steps|
    && var rec, redone := recorded.steps[i], rerun.steps[i];
       || (&& d.field == "input_digest" && rec.inputDigest != redone.inputDigest
           && d.recorded == Some(rec.inputDigest) && d.replayed == Some(redone.inputDigest))
       || (&& d.field == "output_digest" && rec.outputDigest != redone.outputDigest
           && d.recorded == rec.outputDigest && d.replayed == redone.outputDigest)
       || (&& d.field == "error" && rec.error != redone.error
           && d.recorded == rec.error && d.replayed == redone.error)
       || (&& d.field == "policy_decision"
           && exists was, now :: IsLastDecision(recorded, i, was) && IsLastDecision(rerun, i, now)
                && RuleAndDecision(was) != RuleAndDecision(now)
                && IsShownAs(was, d.recorded) && IsShownAs(now, d.replayed))
  }

  predicate IsAboutWorkspace(header: Header, digest: string, d: StepDivergence) {
    && header.workspaceDigest != None && header.workspaceDigest != Some("") && header.workspaceDigest != Some(digest)
    && d == StepDivergence(-1, "workspace_digest", header.workspaceDigest, Some(digest))
  }

  lemma {:induction false} LastByStep(decisions: seq<PolicyDecision>, i: nat)
    ensures i in ByStep(decisions) <==> exists k :: 0 <= k < |decisions| && decisions[k].stepIndex == i
    ensures i in ByStep(decisions) ==>
              exists k :: 0 <= k < |decisions| && decisions[k] == ByStep(decisions)[i] && decisions[k].stepIndex == i
                && forall j :: k < j < |decisions| ==> decisions[j].stepIndex != i
  {
    if decisions != [] {
      var last := |decisions| - 1;
      LastByStep(decisions[..last], i);
      if decisions[last].stepIndex != i && i in ByStep(decisions[..last]) {
        var k :| 0 <= k < last && decisions[..last][k] == ByStep(decisions[..last])[i]
                 && decisions[..last][k].stepIndex == i
                 && forall j :: k < j < last ==> decisions[..last][j].stepIndex != i;
        forall j | k < j < |decisions| ensures decisions[j].stepIndex != i {
          if j < last {
            assert decisions[..last][j].stepIndex != i;
          }
        }
        assert decisions[k] == ByStep(decisions)[i] && decisions[k].stepIndex == i;
      }
      if k :| 0 <= k < last && decisions[k].stepIndex == i {
        assert decisions[..last][k].stepIndex == i;
      }
    }
  }

  lemma DecisionForIsLast(run: AgentRun, i: nat)
    ensures forall d :: IsLastDecision(run, i, d) <==> d == DecisionFor(run, i)
  {
    hide ByStep;
    LastByStep(run.policyDecisions, i);
  }

  lemma LabelIsShown(d: Option<PolicyDecision>, text: Option<string>)
    ensures text == Label(d) <==> IsShownAs(d, text)
  {
    if d.Some? {
      var shown := DecisionText(d.value.decision);
      assert d.value.ruleId + ":" + shown == d.value.ruleId + (":" + shown);
      assert ":" + "allow" == ":allow" && ":" + "deny" == ":deny" && ":" + "needs_review" == ":needs_review";
    }
  }

  /** The decisions of a step are compared, and shown, as their labels. */
  lemma DecisionsDiffer(recorded: AgentRun, rerun: AgentRun, i: nat, d: StepDivergence)
    ensures var was, now := Label(DecisionFor(recorded, i)), Label(DecisionFor(rerun, i));
            (was != now && d.recorded == was && d.replayed == now) <==>
            exists was, now :: IsLastDecision(recorded, i, was) && IsLastDecision(rerun, i, now)
              && RuleAndDecision(was) != RuleAndDecision(now)
              && IsShownAs(was, d.recorded) && IsShownAs(now, d.replayed)
  {
    hide DecisionFor, Label, IsLastDecision, IsShownAs, RuleAndDecision;
    DecisionForIsLast(recorded, i);
    DecisionForIsLast(rerun, i);
    var was, now := DecisionFor(recorded, i), DecisionFor(rerun, i);
    LabelInjective(was, now);
    LabelIsShown(was, d.recorded);
    LabelIsShown(now, d.replayed);
  }

  lemma ComparedStep(recorded: AgentRun, rerun: AgentRun, i: nat, d: StepDivergence)
    requires i < |recorded.steps| && i < |rerun.steps|
    ensures d in CompareAt(recorded, rerun, i) <==> d.stepIndex == i && IsAboutStepOfBoth(recorded, rerun, d)
  {
    hide DecisionFor, Label, IsLastDecision, IsShownAs, RuleAndDecision;
    DecisionsDiffer(recorded, rerun, i, d);
  }

  lemma ComparedAt(recorded: AgentRun, rerun: AgentRun, i: nat, d: StepDivergence)
    requires i < Max(|recorded.steps|, |rerun.steps|)
    ensures d in CompareAt(recorded, rerun, i) <==>
              d.stepIndex == i && (IsAboutStepOfOne(recorded, rerun, d) || IsAboutStepOfBoth(recorded, rerun, d))
  {
    if i < |recorded.steps| && i < |rerun.steps| {
      hide CompareAt, IsAboutStepOfBoth;
      ComparedStep(recorded, rerun, i, d);
    } else {
      hide CompareStep;
    }
  }

  lemma {:induction false} ComparedUpTo(recorded: AgentRun, rerun: AgentRun, n: nat, d: StepDivergence)
    requires n <= Max(|recorded.steps|, |rerun.steps|)
    ensures d in CompareUpTo(recorded, rerun, n) <==>
              0 <= d.stepIndex < n && (IsAboutStepOfOne(recorded, rerun, d) || IsAboutStepOfBoth(recorded, rerun, d))
  {
    hide CompareAt, IsAboutStepOfOne, IsAboutStepOfBoth;
    if n > 0 {
      ComparedUpTo(recorded, rerun, n - 1, d);
      ComparedAt(recorded, rerun, n - 1, d);
    }
  }

  /** A report lists exactly these: the workspace digest when a recorded one differs, each step of one run
      only, and of each common step every field that differs, with the two values. */
  lemma ReportLists(header: Header, digest: string, recorded: AgentRun, rerun: AgentRun, d: StepDivergence)
    ensures d in ReportOf(header, digest, recorded, rerun).divergences <==>
              || IsAboutWorkspace(header, digest, d)
              || IsAboutStepOfOne(recorded, rerun, d)
              || IsAboutStepOfBoth(recorded, rerun, d)
  {
    hide CompareUpTo;
    ComparedUpTo(recorded, rerun, Max(|recorded.steps|, |rerun.steps|), d);
  }

  ghost predicate WithoutRepeats(ds: seq<StepDivergence>) {
    forall i, j :: 0 <= i < j < |ds| ==> ds[i] != ds[j]
  }

  lemma ComparedAtOnce(recorded: AgentRun, rerun: AgentRun, i: nat)
    requires i < Max(|recorded.steps|, |rerun.steps|)
    ensures WithoutRepeats(CompareAt(recorded, rerun, i))
  {
    hide DecisionFor, Label;
    assert "input_digest"[0] == 'i' && "output_digest"[0] == 'o' && "error"[0] == 'e' && "policy_decision"[0] == 'p';
  }

  lemma AppendWithoutRepeats(a: seq<StepDivergence>, b: seq<StepDivergence>, n: int)
    requires WithoutRepeats(a) && WithoutRepeats(b)
    requires (forall d :: d in a ==> d.stepIndex < n) && (forall e :: e in b ==> e.stepIndex >= n)
    ensures WithoutRepeats(a + b)
  {
    forall i, j | 0 <= i < j < |a + b| ensures (a + b)[i] != (a + b)[j] {
      if i < |a| <= j {
        assert a[i] in a && b[j - |a|] in b;
      }
    }
  }

  lemma OneMoreCompared(recorded: AgentRun, rerun: AgentRun, n: nat)
    requires n < Max(|recorded.steps|, |rerun.steps|)
    ensures CompareUpTo(recorded, rerun, n + 1) == CompareUpTo(recorded, rerun, n) + CompareAt(recorded, rerun, n)
  {
    hide CompareAt;
  }

  lemma {:induction false} ComparedOnce(recorded: AgentRun, rerun: AgentRun, n: nat)
    requires n <= Max(|recorded.steps|, |rerun.steps|)
    ensures WithoutRepeats(CompareUpTo(recorded, rerun, n))
  {
    hide CompareAt, CompareUpTo, OrderedByStep;
    if n == 0 {
      NothingCompared(recorded, rerun);
    } else {
      hide WithoutRepeats;
      OneMoreCompared(recorded, rerun, n - 1);
      ComparedOnce(recorded, rerun, n - 1);
      CompareUpToOrdered(recorded, rerun, n - 1);
      CompareAtIsAt(recorded, rerun, n - 1);
      ComparedAtOnce(recorded, rerun, n - 1);
      AppendWithoutRepeats(CompareUpTo(recorded, rerun, n - 1), CompareAt(recorded, rerun, n - 1), n - 1);
    }
  }

  /** And it lists nothing twice. */
  lemma ReportListsOnce(header: Header, digest: string, recorded: AgentRun, rerun: AgentRun)
    ensures WithoutRepeats(ReportOf(header, digest, recorded, rerun).divergences)
  {
    hide CompareUpTo;
    var total := Max(|recorded.steps|, |rerun.steps|);
    assert WithoutRepeats(CompareWorkspace(header, digest));
    hide WithoutRepeats, OrderedByStep;
    ComparedOnce(recorded, rerun, total);
    CompareUpToOrdered(recorded, rerun, total);
    AppendWithoutRepeats(CompareWorkspace(header, digest), CompareUpTo(recorded, rerun, total), 0);
  }

  /** What a replay of any text that loads reports, told from the text, the workspace and the new run alone. */
  lemma ReplayLists(
    c: Codec, w: Foreign, a: Ambient, text: string, files: Files, header: Header, recorded: AgentRun,
    d: StepDivergence)
    requires LoadText(c, text) == Loaded(header, recorded) && header.script.Valid()
    requires Execute(JobIn(w, header), a, RunIdFor(a, recorded.id), |header.script.steps|, files).Finished?
    ensures var job, id := JobIn(w, header), RunIdFor(a, recorded.id);
            var rerun := FinishedRun(job, a, id, Execute(job, a, id, |job.script.steps|, files).effects);
            var result := Replay(c, w, a, text, files);
            && result.Report? && result.report.runId == recorded.id
            && (result.report.stepsCompared == |recorded.steps| || result.report.stepsCompared == |rerun.steps|)
            && result.report.stepsCompared >= |recorded.steps| && result.report.stepsCompared >= |rerun.steps|
            && (d in result.report.divergences <==>
                  || IsAboutWorkspace(header, w.digestFiles(files), d)
                  || IsAboutStepOfOne(recorded, rerun, d)
                  || IsAboutStepOfBoth(recorded, rerun, d))
  {
    hide LoadText, Execute, FinishedRun, CompareUpTo, IsAboutWorkspace, IsAboutStepOfOne, IsAboutStepOfBoth;
    var job, id := JobIn(w, header), RunIdFor(a, recorded.id);
    var rerun := FinishedRun(job, a, id, Execute(job, a, id, |job.script.steps|, files).effects);
    ReportLists(header, w.digestFiles(files), recorded, rerun, d);
  }

  /******* Replaying what the executor wrote *******/

  lemma ByStepOneMore(earlier: seq<PolicyDecision>, d: PolicyDecision)
    ensures ByStep(earlier + [d]) == ByStep(earlier)[d.stepIndex := d]
  {
    assert (earlier + [d])[..|earlier|] == earlier;
  }

  lemma NoDecisions()
    ensures ByStep(Collect([], DecisionIn)) == map[]
  {
  }

  lemma {:induction false} LastDecisionOfStep(effects: seq<Effect>, n: nat, i: nat)
    requires forall k :: 0 <= k < |effects| && effects[k].decision.Some? ==> effects[k].decision.value.stepIndex == k
    requires n <= |effects|
    ensures var byStep := ByStep(Collect(effects[..n], DecisionIn));
            if i < n && effects[i].decision.Some? then i in byStep && byStep[i] == effects[i].decision.value
            else i !in byStep
  {
    hide ByStep, Collect;
    if n == 0 {
      assert effects[..0] == [];
      NoDecisions();
    } else {
      LastDecisionOfStep(effects, n - 1, i);
      assert effects[..n] == effects[..n - 1] + [effects[n - 1]];
      CollectOneMore(effects[..n - 1], effects[n - 1], DecisionIn);
      var earlier := Collect(effects[..n - 1], DecisionIn);
      if effects[n - 1].decision.Some? {
        ByStepOneMore(earlier, effects[n - 1].decision.value);
      } else {
        assert earlier + [] == earlier;
      }
    }
  }

  /** In a run the executor made, the decision found for a step is the one the step recorded. */
  lemma DecisionForStep(job: Job, a: Ambient, runId: string, effects: seq<Effect>, i: nat)
    requires forall k :: 0 <= k < |effects| ==> Fits(job, runId, k, effects[k])
    requires i < |effects|
    ensures DecisionFor(FinishedRun(job, a, runId, effects), i) == effects[i].decision
  {
    forall k | 0 <= k < |effects| && effects[k].decision.Some?
      ensures effects[k].decision.value.stepIndex == k
    {
      assert Fits(job, runId, k, effects[k]);
    }
    LastDecisionOfStep(effects, |effects|, i);
    assert effects[..|effects|] == effects;
  }

  /** Executing a job twice gives the same evidence, whatever the clocks and run ids. */
  lemma EvidenceOfFinished(
    job: Job, a: Ambient, a': Ambient, id: string, id': string, es: seq<Effect>, es': seq<Effect>)
    ensures |FinishedRun(job, a, id, es).steps| == |es| && |FinishedRun(job, a', id', es').steps| == |es'|
  {
  }

  /** Equal effects, up to stamps and ids, are the same evidence. */
  lemma StepsAgree(
    job: Job, a: Ambient, a': Ambient, id: string, id': string, es: seq<Effect>, es': seq<Effect>, i: nat)
    requires i < |es| == |es'| && Unstamped(es[i]) == Unstamped(es'[i])
    requires forall k :: 0 <= k < |es| ==> Fits(job, id, k, es[k])
    requires forall k :: 0 <= k < |es'| ==> Fits(job, id', k, es'[k])
    ensures i < |FinishedRun(job, a, id, es).steps| && i < |FinishedRun(job, a', id', es').steps|
    ensures AgreeAt(FinishedRun(job, a, id, es), FinishedRun(job, a', id', es'), i)
  {
    hide Fits, Collect, DecisionFor;
    SameUnstampedParts(es[i], es'[i]);
    assert Unstamped(es[i]).decision == Unstamped(es'[i]).decision;
    DecisionForStep(job, a, id, es, i);
    DecisionForStep(job, a', id', es', i);
  }

  lemma SameEvidenceTwice(job: Job, a: Ambient, a': Ambient, id: string, id': string, files: Files)
    requires Execute(job, a, id, |job.script.steps|, files).Finished?
    ensures Execute(job, a', id', |job.script.steps|, files).Finished?
    ensures SameEvidence(FinishedRun(job, a, id, Execute(job, a, id, |job.script.steps|, files).effects),
                         FinishedRun(job, a', id', Execute(job, a', id', |job.script.steps|, files).effects))
  {
    hide Execute, FinishedRun, Fits, Unstamped, AgreeAt;
    var n := |job.script.steps|;
    AmbientIsIrrelevant(job, a, a', id, id', n, files);
    AllFit(job, a, id, n, files);
    AllFit(job, a', id', n, files);
    var es, es' := Execute(job, a, id, n, files).effects, Execute(job, a', id', n, files).effects;
    var run, run' := FinishedRun(job, a, id, es), FinishedRun(job, a', id', es');
    EvidenceOfFinished(job, a, a', id, id', es, es');
    forall i | 0 <= i < n ensures AgreeAt(run, run', i) {
      StepsAgree(job, a, a', id, id', es, es', i);
    }
  }

  lemma SameEvidenceSwaps(x: AgentRun, y: AgentRun, z: AgentRun)
    requires SameEvidence(x, y)
    ensures SameEvidence(z, x) <==> SameEvidence(z, y)
  {
    if |z.steps| == |x.steps| {
      forall i | 0 <= i < |z.steps| ensures AgreeAt(z, x, i) <==> AgreeAt(z, y, i) {
        assert AgreeAt(x, y, i);
      }
    }
  }

  /**
    What a replay decides, for any text that loads and whatever its header says: it is clean exactly when
    the workspace has the recorded digest, if any, and the recorded run has, step by step, the evidence of
    running the script and policy of the header on this workspace.
   */
  lemma ReplayIsExact(
    c: Codec, w: Foreign, a: Ambient, text: string, files: Files, header: Header, recorded: AgentRun)
    requires LoadText(c, text) == Loaded(header, recorded) && header.script.Valid()
    ensures var job := JobIn(w, header);
            var x := Execute(job, a, RunIdFor(a, recorded.id), |job.script.steps|, files);
            var replayed := Replay(c, w, a, text, files);
            if x.Crashed? then replayed == ReplayCrashed(x.crash)
            else
              && replayed.Report?
              && replayed.report.stepsCompared == Max(|recorded.steps|, |job.script.steps|)
              && (replayed.report.Ok() <==>
                  && !WorkspaceDiffers(header, w.digestFiles(files))
                  && SameEvidence(recorded, FinishedRun(job, a, RunIdFor(a, recorded.id), x.effects)))
  {
    hide LoadText, Execute, CompareUpTo, WorkspaceDiffers, SameEvidence;
    var job := JobIn(w, header);
    var x := Execute(job, a, RunIdFor(a, recorded.id), |job.script.steps|, files);
    if x.Finished? {
      CleanIff(header, w.digestFiles(files), recorded, FinishedRun(job, a, RunIdFor(a, recorded.id), x.effects));
    }
  }

  predicate IsClean(result: ReplayResult) {
    result.Report? && result.report.Ok()
  }

  lemma SameEvidenceFromCopies(x: AgentRun, y: AgentRun, z: AgentRun)
    requires x.steps == y.steps && x.policyDecisions == y.policyDecisions
    ensures SameEvidence(x, z) <==> SameEvidence(y, z)
  {
    if |x.steps| == |z.steps| {
      forall i | 0 <= i < |x.steps| ensures AgreeAt(x, z, i) <==> AgreeAt(y, z, i) {
      }
    }
  }

  /** Edits of the run id, the version or the coverage in a header are never detected: with script, policy
      and workspace digest unchanged, and the same steps and decisions, the verdict is the same. */
  lemma HeaderEditUndetected(
    c: Codec, w: Foreign, a: Ambient, text: string, text': string, files: Files,
    header: Header, header': Header, recorded: AgentRun, recorded': AgentRun)
    requires LoadText(c, text) == Loaded(header, recorded) && LoadText(c, text') == Loaded(header', recorded')
    requires header'.script == header.script && header'.policy == header.policy && header.script.Valid()
    requires header'.workspaceDigest == header.workspaceDigest
    requires recorded'.steps == recorded.steps && recorded'.policyDecisions == recorded.policyDecisions
    ensures IsClean(Replay(c, w, a, text, files)) <==> IsClean(Replay(c, w, a, text', files))
  {
    hide LoadText, Execute, Replay, FinishedRun;
    var job := JobIn(w, header);
    assert JobIn(w, header') == job;
    var id, id' := RunIdFor(a, recorded.id), RunIdFor(a, recorded'.id);
    ReplayIsExact(c, w, a, text, files, header, recorded);
    ReplayIsExact(c, w, a, text', files, header', recorded');
    var n := |job.script.steps|;
    AmbientIsIrrelevant(job, a, a, id, id', n, files);
    if Execute(job, a, id, n, files).Finished? {
      SameEvidenceTwice(job, a, a, id, id', files);
      var run := FinishedRun(job, a, id, Execute(job, a, id, n, files).effects);
      var run' := FinishedRun(job, a, id', Execute(job, a, id', n, files).effects);
      SameEvidenceSwaps(run, run', recorded);
      SameEvidenceFromCopies(recorded, recorded', run');
    }
  }

  lemma SameEvidenceOfCopies(x: AgentRun, y: AgentRun)
    requires x.steps == y.steps && x.policyDecisions == y.policyDecisions
    ensures SameEvidence(y, x)
  {
  }

  /**
    What an edited trace can hide. Take any text that still loads with the header of an execution.
    Replayed on the original workspace it is clean exactly when the run it loads gives, step
    by step, the same evidence as the original run: every edit of a digest, an error or a deciding
    rule, and every added or removed step, is reported; any other edit is not.
   */
  lemma TamperedReplay(
    c: Codec, job: Job, a: Ambient, a': Ambient, id: string, files: Files, text: string, loaded: AgentRun)
    requires job.script.Valid()
    requires Execute(job, a, id, |job.script.steps|, files).Finished?
    requires LoadText(c, text) == Loaded(HeaderOf(job, id, files), loaded)
    ensures var original := FinishedRun(job, a, id, Execute(job, a, id, |job.script.steps|, files).effects);
            var replayed := Replay(c, job.w, a', text, files);
            && replayed.Report?
            && (replayed.report.Ok() <==> SameEvidence(loaded, original))
            && replayed.report.stepsCompared == Max(|loaded.steps|, |job.script.steps|)
  {
    hide LoadText, Execute, FinishedRun, SameEvidence, Replay;
    var header := HeaderOf(job, id, files);
    var id' := RunIdFor(a', loaded.id);
    assert JobIn(job.w, header) == job;
    SameEvidenceTwice(job, a, a', id, id', files);
    var n := |job.script.steps|;
    var original := FinishedRun(job, a, id, Execute(job, a, id, n, files).effects);
    var rerun := FinishedRun(job, a', id', Execute(job, a', id', n, files).effects);
    ReplayIsExact(c, job.w, a', text, files, header, loaded);
    SameEvidenceSwaps(original, rerun, loaded);
  }

  /**
    The central promise of record and replay, and exactly when it is kept: replaying the trace file that an
    execution wrote, on a workspace equal to the one it started from, reports no divergence at all if and
    only if every event was written on one line; otherwise the trace is refused. The clocks and the
    made-up ids of the two executions are arbitrary.
   */
  lemma UntamperedReplayIsClean(c: Codec, job: Job, a: Ambient, a': Ambient, givenId: string, files: Files)
    requires job.script.Valid()
    requires Execute(job, a, RunIdFor(a, givenId), |job.script.steps|, files).Finished?
    requires AllWellWritten(c, TraceOf(job, a, RunIdFor(a, givenId),
                                       Execute(job, a, RunIdFor(a, givenId), |job.script.steps|, files).effects, files))
    ensures var id := RunIdFor(a, givenId);
            var trace := TraceOf(job, a, id, Execute(job, a, id, |job.script.steps|, files).effects, files);
            var replayed := Replay(c, job.w, a', FileText(c, trace), files);
            && (IsClean(replayed) <==> AllOneLine(c, trace))
            && (IsClean(replayed) ==> replayed.report.stepsCompared == |job.script.steps|)
            && (!IsClean(replayed) ==> replayed.TraceRefused?)
  {
    hide TraceOf, FileText, LoadText, AllOneLine, AllWellWritten, Execute;
    var id := RunIdFor(a, givenId);
    var effects := Execute(job, a, id, |job.script.steps|, files).effects;
    var trace := TraceOf(job, a, id, effects, files);
    TraceRoundTrip(c, job, a, id, effects, files);
    if AllOneLine(c, trace) {
      var run := FinishedRun(job, a, id, effects);
      SameEvidenceTwice(job, a, a', id, RunIdFor(a', id), files);
      TamperedReplay(c, job, a, a', id, files, FileText(c, trace), run.(reviewerSeats := []));
      SameEvidenceOfCopies(run, run.(reviewerSeats := []));
    }
  }

  /** The job whose script holds a line separator runs to its end, and replaying its trace always fails. */
  lemma SeparatorDefeatsReplay(c: Codec, w: Foreign, a: Ambient, a': Ambient, runId: string, files: Files)
    ensures var job := SeparatorJob(w);
            var x := Execute(job, a, runId, |job.script.steps|, files);
            && job.script.Valid() && x.Finished?
            && (AllWellWritten(c, TraceOf(job, a, runId, x.effects, files)) ==>
                  Replay(c, w, a', FileText(c, TraceOf(job, a, runId, x.effects, files)), files) == TraceRefused)
  {
    hide TraceOf, FileText, LoadText, AllWellWritten, Execute;
    SeparatorJobTraceUnreadable(c, w, a, runId, files);
  }

  /** What is assumed of the codec can be met for the trace of every execution, so every valid job that runs
      to its end has a codec for which the promise above speaks of its replay. */
  lemma SomeCodecFitsTrace(job: Job, a: Ambient, runId: string, effects: seq<Effect>, files: Files)
    ensures exists c :: AllWellWritten(c, TraceOf(job, a, runId, effects, files))
  {
    hide TraceOf, AllWellWritten, NumberingCodec;
    var trace := TraceOf(job, a, runId, effects, files);
    NumberingCodecWritesWell(trace);
    assert AllWellWritten(NumberingCodec(trace), trace);
  }
}
