/** The records of an agent run, and the foreign code the runtime calls. */
module RunRecords {
  import opened Text
  import opened StepReferences

  type Time = int
  type Files = map<string, string>

  datatype RunStatus = Pending | Running | Completed | Failed
  datatype StepKind = LlmCall | ToolCall | PolicyCheck | ArtifactWrite
  datatype Decision = Allow | Deny | NeedsReview
  datatype Severity = Low | Medium | High | Critical

  /** The text a decision is serialized as. */
  function DecisionText(d: Decision): string {
    match d
    case Allow => "allow"
    case Deny => "deny"
    case NeedsReview => "needs_review"
  }

  datatype ReviewerSeat = ReviewerSeat(id: string, name: string, role: string, scope: string)
  datatype Goal = Goal(id: string, statement: string, constraints: seq<string>, ownerSeatId: string)
  datatype Task = Task(id: string, title: string, goalId: string)

  datatype PolicyDecision = PolicyDecision(
    id: string, runId: string, stepIndex: nat, policyId: string, ruleId: string, decision: Decision, reason: string)

  datatype RiskSignal = RiskSignal(
    id: string, runId: string, stepIndex: nat, severity: Severity, category: string, message: string)

  datatype EvidenceItem = EvidenceItem(
    id: string, runId: string, stepIndex: nat, kind: string, digest: string, description: string)

  datatype Artifact = Artifact(
    id: string, runId: string, path: string, digest: string, mediaType: string, sizeBytes: nat)

  datatype StepRecord = StepRecord(
    index: nat,
    kind: StepKind,
    name: string,
    args: Args,
    allocatedTo: seq<string>,
    supportsGoal: string,
    inputDigest: string,
    outputDigest: Option<string>,
    outputPreview: Option<string>,
    decisionId: Option<string>,
    startedAt: Time,
    durationMs: real,
    error: Option<string>)

  /** What a run declares to observe and not to observe; a fixed record for scripted runs. */
  datatype Coverage = Coverage(captured: seq<string>, blindSpots: seq<string>, enforcement: seq<string>)

  datatype AgentRun = AgentRun(
    id: string,
    taskId: string,
    agent: string,
    model: Option<string>,
    status: RunStatus,
    startedAt: Option<Time>,
    finishedAt: Option<Time>,
    coverage: Option<Coverage>,
    reviewerSeats: seq<ReviewerSeat>,
    steps: seq<StepRecord>,
    policyDecisions: seq<PolicyDecision>,
    riskSignals: seq<RiskSignal>,
    evidence: seq<EvidenceItem>,
    artifacts: seq<Artifact>)
  {
    /** The validator of stored runs: unique seat and decision ids, and no part of another run. */
    ghost predicate IdentityInvariants() {
      && (forall i, j :: 0 <= i < j < |reviewerSeats| ==> reviewerSeats[i].id != reviewerSeats[j].id)
      && (forall i, j :: 0 <= i < j < |policyDecisions| ==> policyDecisions[i].id != policyDecisions[j].id)
      && (forall d :: d in policyDecisions ==> d.runId == id)
      && (forall r :: r in riskSignals ==> r.runId == id)
      && (forall e :: e in evidence ==> e.runId == id)
      && (forall a :: a in artifacts ==> a.runId == id)
    }
  }

  datatype ScriptedStep = ScriptedStep(tool: string, args: Args, allocatedTo: seq<string>, supportsGoal: string)

  datatype Script = Script(
    task: Task, goal: Goal, reviewerSeats: seq<ReviewerSeat>, agent: string, model: Option<string>,
    steps: seq<ScriptedStep>)
  {
    /** The script validator: seat ids are unique and the goal's owner is a declared seat. */
    predicate Valid() {
      && (forall i, j :: 0 <= i < j < |reviewerSeats| ==> reviewerSeats[i].id != reviewerSeats[j].id)
      && (exists s :: s in reviewerSeats && s.id == goal.ownerSeatId)
    }
  }

  /** What a tool did: returned a text, raised a tool error, or raised another Python exception. */
  datatype ToolResult = Output(text: string) | ToolError(message: string) | ToolCrash

  /**
    Foreign code, as arbitrary functions. Every theorem about the runtime is a statement for all of them.
    `simulate` stands for the four tools that only read the workspace.
   */
  datatype Foreign = Foreign(
    digestObj: (string, Args) -> string,
    digestFiles: Files -> string,
    digestText: string -> string,
    regexFound: (string, Args) -> bool,
    urlHost: string -> string,
    show: Value -> string,
    utf8Length: string -> nat,
    simulate: (string, Files, Args) -> ToolResult,
    digits: Digits)

  /** What differs from one execution to the next: the clocks, and the identifier made up when the
      caller gives none. */
  datatype Ambient = Ambient(
    startedAt: Time,
    stepStartedAt: nat -> Time,
    stepMillis: nat -> real,
    finishedAt: Time,
    generatedId: string)
}
