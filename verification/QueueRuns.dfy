/** What holds over whole runs of the queue protocol, for every number of workers and every interleaving. */
module QueueRuns {
  import opened Text
  import opened RunRecords
  import opened Timestamps
  import opened WorkQueue
  import opened QueueProtocol

  ghost predicate Follows(settings: Settings, before: Sys, step: Step, after: Sys) {
    Enabled(settings, before, step) && after == Apply(settings, before, step)
  }

  /** A run from the empty store: the states passed through and the steps between them. */
  ghost predicate IsRun(settings: Settings, states: seq<Sys>, steps: seq<Step>) {
    && settings.maxAttempts >= 1
    && |states| == |steps| + 1
    && states[0] == Init(|states[0].workers|)
    && (forall i :: 0 <= i < |steps| ==> Follows(settings, states[i], steps[i], states[i + 1]))
  }

  lemma {:induction false} RunKeepsInv(settings: Settings, states: seq<Sys>, steps: seq<Step>, i: nat)
    requires IsRun(settings, states, steps) && i <= |steps|
    ensures Inv(settings, states[i])
  {
    hide Inv, Enabled, Apply, Init;
    if i == 0 {
      InitInv(settings, |states[0].workers|);
    } else {
      RunKeepsInv(settings, states, steps, i - 1);
      assert Follows(settings, states[i - 1], steps[i - 1], states[i - 1 + 1]);
      StepKeepsInv(settings, states[i - 1], steps[i - 1]);
    }
  }

  /******* Claims are exclusive *******/

  lemma HolderFits(settings: Settings, sys: Sys, w: nat, id: nat)
    requires Inv(settings, sys) && IsWorker(sys, w) && Holds(sys.workers[w], id)
    ensures id in sys.tables.queue && sys.tables.queue[id].status.Claimed?
    ensures sys.workers[w].claim.row.attempts == sys.tables.queue[id].attempts
  {
    hide Inv, RowFits, Instant, Final;
    ClaimFits(settings, sys, w);
  }

  /** At most one worker holds an item. */
  ghost predicate HeldOnce(sys: Sys, id: nat) {
    forall v: nat, w: nat ::
      IsWorker(sys, v) && IsWorker(sys, w) && Holds(sys.workers[v], id) && Holds(sys.workers[w], id) ==> v == w
  }

  lemma AtMostOneHolder(settings: Settings, sys: Sys, id: nat)
    requires Inv(settings, sys)
    ensures HeldOnce(sys, id)
  {
    hide Inv;
    WorkersOfInv(settings, sys);
  }

  /** The claim and its row in one state: claimed is held, by one worker only, with the attempts it read. */
  lemma ClaimedIffHeld(settings: Settings, sys: Sys, id: nat)
    requires Inv(settings, sys) && id in sys.tables.queue
    ensures sys.tables.queue[id].status.Claimed? <==> Held(sys, id)
    ensures forall w: nat :: IsWorker(sys, w) && Holds(sys.workers[w], id) ==>
              sys.workers[w].claim.row.attempts == sys.tables.queue[id].attempts
  {
    hide Inv, BeingBuried, Final;
    SettledOfInv(settings, sys, id);
    forall w: nat | IsWorker(sys, w) && Holds(sys.workers[w], id)
      ensures sys.tables.queue[id].status.Claimed?
      ensures sys.workers[w].claim.row.attempts == sys.tables.queue[id].attempts
    {
      HolderFits(settings, sys, w, id);
    }
  }

  /** A row is claimed exactly when one worker, and only one, holds its claim, and then the attempts the
      worker read are those of the row. */
  lemma ClaimedIffHeldOnce(settings: Settings, states: seq<Sys>, steps: seq<Step>, i: nat, id: nat)
    requires IsRun(settings, states, steps) && i <= |steps| && id in states[i].tables.queue
    ensures var sys, row := states[i], states[i].tables.queue[id];
            && (row.status.Claimed? <==> Held(sys, id))
            && HeldOnce(sys, id)
            && (forall w: nat :: IsWorker(sys, w) && Holds(sys.workers[w], id) ==>
                  sys.workers[w].claim.row.attempts == row.attempts)
  {
    hide Follows, Init, Inv, Held, HeldOnce;
    RunKeepsInv(settings, states, steps, i);
    AtMostOneHolder(settings, states[i], id);
    ClaimedIffHeld(settings, states[i], id);
  }

  /** The limits of the retry policy, and what the stored run says about a settled item. */
  lemma RowLimits(settings: Settings, states: seq<Sys>, steps: seq<Step>, i: nat, id: nat)
    requires IsRun(settings, states, steps) && i <= |steps| && id in states[i].tables.queue
    ensures var sys, row := states[i], states[i].tables.queue[id];
            && (if row.status.Dead? then row.attempts == settings.maxAttempts else row.attempts < settings.maxAttempts)
            && row.runId in sys.tables.runs
            && (row.status.Done? ==> Final(sys.tables.runs[row.runId].run.status))
            && (row.status.Dead? ==> BeingBuried(sys, id) || sys.tables.runs[row.runId].run.status.Failed?)
  {
    hide Follows, Init, Inv, Held, BeingBuried, Final, Backlog, Instant;
    RunKeepsInv(settings, states, steps, i);
    ItemFits(settings, states[i], id);
    SettledOfInv(settings, states[i], id);
  }

  /******* Settled items stay settled *******/

  predicate Settled(row: Row) {
    row.status.Done? || row.status.Dead?
  }

  /** Reading and failing the stored run leaves the queue alone. */
  lemma RecordStepsKeepQueue(settings: Settings, sys: Sys, step: Step)
    requires Enabled(settings, sys, step) && (step.ReadRecord? || step.FailRecord?)
    ensures Apply(settings, sys, step).tables.queue == sys.tables.queue
  {
  }

  lemma StepKeepsSettled(settings: Settings, sys: Sys, step: Step, id: nat)
    requires Inv(settings, sys) && Enabled(settings, sys, step)
    requires id in sys.tables.queue && Settled(sys.tables.queue[id])
    ensures var after := Apply(settings, sys, step);
            id in after.tables.queue && after.tables.queue[id] == sys.tables.queue[id]
  {
    hide Inv, Enabled, Apply, IsAbout;
    if IsAbout(sys, step, id) {
      AboutExisting(settings, sys, step, id);
      RecordStepsKeepQueue(settings, sys, step);
    } else {
      OtherItems(settings, sys, step, id);
    }
  }

  /** Done and dead are never left, and nothing of a settled row changes any more. */
  lemma {:induction false} SettledForever(
    settings: Settings, states: seq<Sys>, steps: seq<Step>, i: nat, j: nat, id: nat)
    requires IsRun(settings, states, steps) && i <= j <= |steps|
    requires id in states[i].tables.queue && Settled(states[i].tables.queue[id])
    ensures id in states[j].tables.queue && states[j].tables.queue[id] == states[i].tables.queue[id]
    decreases j
  {
    hide Inv, Enabled, Apply, Init;
    if i < j {
      SettledForever(settings, states, steps, i, j - 1, id);
      RunKeepsInv(settings, states, steps, j - 1);
      assert Follows(settings, states[j - 1], steps[j - 1], states[j - 1 + 1]);
      StepKeepsSettled(settings, states[j - 1], steps[j - 1], id);
    }
  }

  /******* How often items are claimed, and how long a run can be *******/

  function CountClaims(steps: seq<Step>): nat {
    if steps == [] then 0
    else CountClaims(steps[..|steps| - 1]) + if steps[|steps| - 1].Claim? then 1 else 0
  }

  function CountClaimsOf(steps: seq<Step>, id: nat): nat {
    if steps == [] then 0
    else CountClaimsOf(steps[..|steps| - 1], id)
         + if steps[|steps| - 1].Claim? && steps[|steps| - 1].id == id then 1 else 0
  }

  predicate IsWorkerStep(step: Step) {
    !step.CreateRun? && !step.Enqueue?
  }

  function CountWorkerSteps(steps: seq<Step>): nat {
    if steps == [] then 0
    else CountWorkerSteps(steps[..|steps| - 1]) + if IsWorkerStep(steps[|steps| - 1]) then 1 else 0
  }

  function ClaimsOf(sys: Sys, id: nat): nat {
    if id in sys.history then sys.history[id].claims else 0
  }

  function TotalClaims(sys: Sys, n: nat): nat {
    if n == 0 then 0 else TotalClaims(sys, n - 1) + ClaimsOf(sys, n)
  }

  lemma NewItemUnclaimed(settings: Settings, sys: Sys, step: Step)
    requires Inv(settings, sys) && Enabled(settings, sys, step) && step.Enqueue?
    ensures sys.tables.nextId !in sys.history && sys.tables.nextId !in sys.tables.queue
    ensures ClaimsOf(Apply(settings, sys, step), sys.tables.nextId) == 0
  {
    hide RowFits, WorkersFit, SettledFits, IsoFormat, RunIds;
  }

  lemma ClaimCounted(settings: Settings, sys: Sys, step: Step)
    requires Inv(settings, sys) && Enabled(settings, sys, step) && step.Claim?
    ensures ClaimsOf(Apply(settings, sys, step), step.id) == ClaimsOf(sys, step.id) + 1
  {
    hide Inv, RowFits, Available, Instant;
    ItemFits(settings, sys, step.id);
  }

  /** A worker's step on its item counts no claim and never forgets a first failure. */
  lemma HistoryOfStep(settings: Settings, sys: Sys, step: Step)
    requires Enabled(settings, sys, step) && IsWorkerStep(step) && !step.Claim?
    requires sys.workers[step.w].claim.id in sys.history
    ensures var before, id := sys.history, sys.workers[step.w].claim.id;
            var after := Apply(settings, sys, step).history;
            && id in after && after[id].claims == before[id].claims
            && (before[id].firstFailure.Some? ==> after[id].firstFailure == before[id].firstFailure)
  {
    hide Delay, Later, IsoFormat, RetryOverflows, Instant;
  }

  lemma StepCountsClaims(settings: Settings, sys: Sys, step: Step, id: nat)
    requires Inv(settings, sys) && Enabled(settings, sys, step)
    ensures ClaimsOf(Apply(settings, sys, step), id) ==
            ClaimsOf(sys, id) + if step.Claim? && step.id == id then 1 else 0
  {
    hide Inv, Enabled, Apply;
    if IsAbout(sys, step, id) {
      if step.Enqueue? {
        NewItemUnclaimed(settings, sys, step);
      } else if step.Claim? {
        ClaimCounted(settings, sys, step);
      } else {
        ClaimFits(settings, sys, step.w);
        HistoryOfStep(settings, sys, step);
      }
    } else {
      OtherItems(settings, sys, step, id);
    }
  }

  lemma ClaimKeepsHistory(settings: Settings, sys: Sys, step: Step)
    requires Enabled(settings, sys, step) && step.Claim? && step.id in sys.history
    ensures var after := Apply(settings, sys, step).history;
            step.id in after && after[step.id].firstFailure == sys.history[step.id].firstFailure
  {
    hide Available, Instant;
  }

  lemma RunPrefix(settings: Settings, states: seq<Sys>, steps: seq<Step>)
    requires IsRun(settings, states, steps) && steps != []
    ensures IsRun(settings, states[..|steps|], steps[..|steps| - 1])
    ensures Follows(settings, states[|steps| - 1], steps[|steps| - 1], states[|steps|])
  {
    hide Inv, Enabled, Apply, Init;
    var shorter := states[..|steps|];
    assert shorter[0] == states[0];
    forall i | 0 <= i < |steps| - 1
      ensures Follows(settings, shorter[i], steps[..|steps| - 1][i], shorter[i + 1])
    {
      assert Follows(settings, states[i], steps[i], states[i + 1]);
    }
    assert Follows(settings, states[|steps| - 1], steps[|steps| - 1], states[|steps| - 1 + 1]);
  }

  lemma {:induction false} ClaimsAreCounted(settings: Settings, states: seq<Sys>, steps: seq<Step>, id: nat)
    requires IsRun(settings, states, steps)
    ensures CountClaimsOf(steps, id) == ClaimsOf(states[|steps|], id)
  {
    if steps == [] {
    } else {
      var n := |steps| - 1;
      RunPrefix(settings, states, steps);
      ClaimsAreCounted(settings, states[..n + 1], steps[..n], id);
      RunKeepsInv(settings, states, steps, n);
      hide Inv, Enabled, Apply;
      StepCountsClaims(settings, states[n], steps[n], id);
    }
  }

  /** No item is claimed more than `maxAttempts` times: a settled or waiting one as often as it failed,
      plus one for a success or a claim still held. */
  lemma ClaimsPerItem(settings: Settings, states: seq<Sys>, steps: seq<Step>, id: nat)
    requires IsRun(settings, states, steps) && id in states[|steps|].tables.queue
    ensures var row := states[|steps|].tables.queue[id];
            && CountClaimsOf(steps, id) <= settings.maxAttempts
            && CountClaimsOf(steps, id) == row.attempts + if row.status.Done? || row.status.Claimed? then 1 else 0
  {
    RunKeepsInv(settings, states, steps, |steps|);
    ClaimsAreCounted(settings, states, steps, id);
    assert RowFits(settings, states[|steps|].tables.queue[id], states[|steps|].history[id]);
    hide Held, BeingBuried, WorkerFits;
  }

  lemma ClaimsOfBounded(settings: Settings, sys: Sys, id: nat)
    requires Inv(settings, sys)
    ensures ClaimsOf(sys, id) <= settings.maxAttempts
  {
    hide Inv, Backlog, Instant, IsoFormat;
    TablesOfInv(settings, sys);
    if id in sys.history {
      ItemFits(settings, sys, id);
    }
  }

  lemma {:induction false} TotalBounded(settings: Settings, sys: Sys, n: nat)
    requires Inv(settings, sys)
    ensures TotalClaims(sys, n) <= settings.maxAttempts * n
  {
    hide Inv, ClaimsOf;
    if n == 0 {
    } else {
      TotalBounded(settings, sys, n - 1);
      ClaimsOfBounded(settings, sys, n);
    }
  }

  lemma {:induction false} TotalAfterStep(settings: Settings, sys: Sys, step: Step, n: nat)
    requires Inv(settings, sys) && Enabled(settings, sys, step)
    ensures TotalClaims(Apply(settings, sys, step), n) ==
            TotalClaims(sys, n) + if step.Claim? && 1 <= step.id <= n then 1 else 0
  {
    hide Inv, Enabled, Apply;
    if n == 0 {
    } else {
      TotalAfterStep(settings, sys, step, n - 1);
      StepCountsClaims(settings, sys, step, n);
    }
  }

  lemma StepItems(settings: Settings, sys: Sys, step: Step)
    requires Inv(settings, sys) && Enabled(settings, sys, step)
    ensures var after := Apply(settings, sys, step);
            && 1 <= sys.tables.nextId <= after.tables.nextId <= sys.tables.nextId + 1
            && (step.Claim? ==> 1 <= step.id < sys.tables.nextId && after.tables.nextId == sys.tables.nextId)
            && (after.tables.nextId > sys.tables.nextId ==> ClaimsOf(after, sys.tables.nextId) == 0)
  {
    hide RowFits, WorkersFit, SettledFits, Delay, Later, IsoFormat, RetryOverflows, Instant, TextLess, Final;
  }

  function AllClaims(sys: Sys): nat {
    TotalClaims(sys, if sys.tables.nextId == 0 then 0 else sys.tables.nextId - 1)
  }

  lemma StepCountsAllClaims(settings: Settings, sys: Sys, step: Step)
    requires Inv(settings, sys) && Enabled(settings, sys, step)
    ensures AllClaims(Apply(settings, sys, step)) == AllClaims(sys) + if step.Claim? then 1 else 0
  {
    hide Inv, Enabled, Apply, ClaimsOf;
    StepItems(settings, sys, step);
    TotalAfterStep(settings, sys, step, sys.tables.nextId - 1);
  }

  lemma {:induction false} ClaimsAreTotal(settings: Settings, states: seq<Sys>, steps: seq<Step>)
    requires IsRun(settings, states, steps)
    ensures CountClaims(steps) == AllClaims(states[|steps|])
  {
    hide Inv, Enabled, Apply;
    if steps == [] {
    } else {
      var n := |steps| - 1;
      RunPrefix(settings, states, steps);
      ClaimsAreTotal(settings, states[..n + 1], steps[..n]);
      RunKeepsInv(settings, states, steps, n);
      StepCountsAllClaims(settings, states[n], steps[n]);
    }
  }

  lemma FirstIdIsOne(settings: Settings, sys: Sys)
    requires Inv(settings, sys)
    ensures 1 <= sys.tables.nextId
  {
    hide RowFits, WorkersFit, SettledFits;
  }

  /** Claims in a run are bounded by `maxAttempts` times the number of items enqueued. */
  lemma ClaimsBounded(settings: Settings, states: seq<Sys>, steps: seq<Step>)
    requires IsRun(settings, states, steps)
    ensures states[|steps|].tables.nextId >= 1
    ensures CountClaims(steps) <= settings.maxAttempts * (states[|steps|].tables.nextId - 1)
  {
    hide Inv, Follows, Init, Enabled, TotalClaims;
    RunKeepsInv(settings, states, steps, |steps|);
    ClaimsAreTotal(settings, states, steps);
    FirstIdIsOne(settings, states[|steps|]);
    TotalBounded(settings, states[|steps|], states[|steps|].tables.nextId - 1);
  }

  /** How many store calls a worker in a phase may still make before it is idle. */
  function CallsLeft(p: Phase): nat {
    match p
    case Idle => 0
    case Working(_, _) => 4
    case Saved(_, _) => 3
    case Stopped(_, _) => 0
    case Burying(_) => 2
    case Rewriting(_, _) => 1
  }

  function TotalLeft(workers: seq<Phase>): nat {
    if workers == [] then 0 else TotalLeft(workers[..|workers| - 1]) + CallsLeft(workers[|workers| - 1])
  }

  lemma {:induction false} LeftAfterUpdate(workers: seq<Phase>, w: nat, p: Phase)
    requires w < |workers|
    ensures TotalLeft(workers[w := p]) + CallsLeft(workers[w]) == TotalLeft(workers) + CallsLeft(p)
  {
    var n := |workers| - 1;
    if w < n {
      LeftAfterUpdate(workers[..n], w, p);
      assert workers[w := p][..n] == workers[..n][w := p];
    } else {
      assert workers[w := p][..n] == workers[..n];
    }
  }

  /** What a step does to the workers: it concerns one at most, and brings it nearer to the end. */
  lemma WorkersOfStep(settings: Settings, sys: Sys, step: Step)
    requires Enabled(settings, sys, step)
    ensures var after := Apply(settings, sys, step).workers;
            if IsWorkerStep(step) then
              && step.w < |sys.workers| == |after| && after == sys.workers[step.w := after[step.w]]
              && (if step.Claim? then CallsLeft(after[step.w]) == CallsLeft(sys.workers[step.w]) + 4
                  else CallsLeft(after[step.w]) < CallsLeft(sys.workers[step.w]))
            else after == sys.workers
  {
    hide Delay, Later, Available, IsoFormat, Final, RunIds, RetryOverflows, Instant, OldHistory;
  }

  /** A worker that claims may make four more calls; every other worker step uses up at least one. */
  lemma StepUsesCalls(settings: Settings, sys: Sys, step: Step)
    requires Enabled(settings, sys, step)
    ensures var before, after := TotalLeft(sys.workers), TotalLeft(Apply(settings, sys, step).workers);
            if step.Claim? then after == before + 4
            else if IsWorkerStep(step) then after < before
            else after == before
  {
    hide Enabled, Apply, TotalLeft, CallsLeft;
    WorkersOfStep(settings, sys, step);
    if IsWorkerStep(step) {
      var after := Apply(settings, sys, step);
      LeftAfterUpdate(sys.workers, step.w, after.workers[step.w]);
    }
  }

  lemma {:induction false} IdleLeft(workers: nat)
    ensures TotalLeft(seq(workers, i => Idle)) == 0
  {
    var all: seq<Phase> := seq(workers, i => Idle);
    if workers == 0 {
    } else {
      IdleLeft(workers - 1);
      assert all[..workers - 1] == seq(workers - 1, i => Idle);
    }
  }

  lemma {:induction false} WorkerStepsAgainstClaims(settings: Settings, states: seq<Sys>, steps: seq<Step>)
    requires IsRun(settings, states, steps)
    ensures CountWorkerSteps(steps) + TotalLeft(states[|steps|].workers) <= 5 * CountClaims(steps)
  {
    if steps == [] {
      IdleLeft(|states[0].workers|);
    } else {
      hide Enabled, Apply, TotalLeft;
      var n := |steps| - 1;
      RunPrefix(settings, states, steps);
      WorkerStepsAgainstClaims(settings, states[..n + 1], steps[..n]);
      StepUsesCalls(settings, states[n], steps[n]);
    }
  }

  /** Termination: for a given number of enqueued items the workers can only take so many steps. */
  lemma WorkerStepsBounded(settings: Settings, states: seq<Sys>, steps: seq<Step>)
    requires IsRun(settings, states, steps)
    ensures states[|steps|].tables.nextId >= 1
    ensures CountWorkerSteps(steps) <= 5 * (settings.maxAttempts * (states[|steps|].tables.nextId - 1))
  {
    WorkerStepsAgainstClaims(settings, states, steps);
    ClaimsBounded(settings, states, steps);
  }

  /** What the work on a claim may come to: a run of its own id with a final status, or a failure. */
  predicate ResultFits(claim: WorkQueue.Claim, result: WorkResult) {
    result.Ran? ==> result.record.run.id == claim.row.runId && Final(result.record.run.status)
  }

  /** The step by which a worker deals with the result of its work. */
  function ResultStep(settings: Settings, w: nat, claim: WorkQueue.Claim, result: WorkResult, now: DateTime): Step {
    match result
    case Ran(record) => SaveResult(w, record)
    case Failure(error) =>
      if RetryOverflows(settings, claim, now) then Overflow(w, now, error) else Fail(w, now, error)
  }

  /** Whatever the work comes to and whatever the clock then says, the worker has a step for it. */
  ghost predicate GoesOn(settings: Settings, sys: Sys, w: nat) {
    IsWorker(sys, w) &&
    match sys.workers[w]
    case Working(claim, since) =>
      forall result, now :: ResultFits(claim, result) && Instant(since) <= Instant(now) ==>
        Enabled(settings, sys, ResultStep(settings, w, claim, result, now))
    case Saved(_, _) => Enabled(settings, sys, MarkDone(w))
    case Burying(_) => Enabled(settings, sys, ReadRecord(w))
    case Rewriting(_, _) => Enabled(settings, sys, FailRecord(w))
    case _ => false
  }

  lemma BusyWorkerGoesOn(settings: Settings, sys: Sys, w: nat)
    requires IsWorker(sys, w) && !sys.workers[w].Idle? && !sys.workers[w].Stopped?
    ensures GoesOn(settings, sys, w)
  {
    hide RetryOverflows, Final;
  }

  ghost predicate HeldByStopped(sys: Sys, id: nat) {
    exists w: nat :: IsWorker(sys, w) && sys.workers[w].Stopped? && sys.workers[w].claim.id == id
  }

  ghost predicate SomeWorkerLeft(sys: Sys) {
    exists w: nat :: IsWorker(sys, w) && !sys.workers[w].Stopped?
  }

  lemma WaitingRowBecomesAvailable(settings: Settings, row: Row, h: History, now: DateTime)
    requires row.status.Waiting? && RowFits(settings, row, h) && Instant(h.due) <= Instant(now)
    ensures Available(row, now)
  {
    TextOrderIsTimeOrder(now, h.due);
  }

  /** Any idle worker can claim the item, as soon as its clock has reached the item's due time. */
  ghost predicate Claimable(settings: Settings, sys: Sys, id: nat) {
    && id in sys.history
    && (exists w: nat :: IsWorker(sys, w) && sys.workers[w].Idle?)
    && (forall w: nat, now ::
          IsWorker(sys, w) && sys.workers[w].Idle? && Instant(sys.history[id].due) <= Instant(now) ==>
            Enabled(settings, sys, Step.Claim(w, id, now)))
  }

  /** And they are never stuck: while an item is neither settled nor held by a stopped worker, some worker
      goes on whatever the result of its work, or any idle worker can claim the item. */
  lemma NotStuck(settings: Settings, sys: Sys, id: nat)
    requires Inv(settings, sys) && SomeWorkerLeft(sys)
    requires id in sys.tables.queue && !Settled(sys.tables.queue[id]) && !HeldByStopped(sys, id)
    ensures (exists w: nat :: GoesOn(settings, sys, w)) || Claimable(settings, sys, id)
  {
    hide RowFits, WorkersFit, WorkerFits, Available, GoesOn, Instant;
    if w: nat :| IsWorker(sys, w) && !sys.workers[w].Idle? && !sys.workers[w].Stopped? {
      BusyWorkerGoesOn(settings, sys, w);
    } else {
      assert !Held(sys, id);
      assert sys.tables.queue[id].status.Waiting?;
      forall w: nat, now | IsWorker(sys, w) && sys.workers[w].Idle? && Instant(sys.history[id].due) <= Instant(now)
        ensures Enabled(settings, sys, Step.Claim(w, id, now))
      {
        WaitingRowBecomesAvailable(settings, sys.tables.queue[id], sys.history[id], now);
      }
    }
  }

  /******* Workers stopped by an overflow *******/

  lemma StoppedTakesNoStep(settings: Settings, sys: Sys, step: Step, w: nat)
    requires Enabled(settings, sys, step) && IsWorker(sys, w) && sys.workers[w].Stopped?
    ensures step.CreateRun? || step.Enqueue? || step.w != w
  {
    hide Available, RetryOverflows, Instant, RunIds, Final;
  }

  lemma StepKeepsStopped(settings: Settings, sys: Sys, step: Step, w: nat)
    requires Inv(settings, sys) && Enabled(settings, sys, step) && IsWorker(sys, w) && sys.workers[w].Stopped?
    ensures var after, id := Apply(settings, sys, step), sys.workers[w].claim.id;
            && IsWorker(after, w) && after.workers[w] == sys.workers[w]
            && id in sys.tables.queue && sys.tables.queue[id].status.Claimed?
            && id in after.tables.queue && after.tables.queue[id] == sys.tables.queue[id]
  {
    hide Inv, Enabled, Apply, IsAbout;
    var id := sys.workers[w].claim.id;
    HolderFits(settings, sys, w, id);
    StoppedTakesNoStep(settings, sys, step, w);
    OtherWorkers(settings, sys, step, w);
    if IsAbout(sys, step, id) {
      AboutExisting(settings, sys, step, id);
      WorkersOfInv(settings, sys);
    }
    OtherItems(settings, sys, step, id);
  }

  lemma StepOfRun(settings: Settings, states: seq<Sys>, steps: seq<Step>, i: nat)
    requires IsRun(settings, states, steps) && i < |steps|
    ensures Inv(settings, states[i]) && Enabled(settings, states[i], steps[i])
    ensures states[i + 1] == Apply(settings, states[i], steps[i])
  {
    hide Inv, Enabled, Apply, Init;
    RunKeepsInv(settings, states, steps, i);
    assert Follows(settings, states[i], steps[i], states[i + 1]);
  }

  /** A retry time that cannot be represented costs an item for good: its row stays running, as it is. */
  lemma {:induction false} StoppedForever(
    settings: Settings, states: seq<Sys>, steps: seq<Step>, i: nat, j: nat, w: nat)
    requires IsRun(settings, states, steps) && i <= j <= |steps|
    requires IsWorker(states[i], w) && states[i].workers[w].Stopped?
    ensures var id := states[i].workers[w].claim.id;
            && IsWorker(states[j], w) && states[j].workers[w] == states[i].workers[w]
            && id in states[i].tables.queue && states[i].tables.queue[id].status.Claimed?
            && id in states[j].tables.queue && states[j].tables.queue[id] == states[i].tables.queue[id]
    decreases j
  {
    hide Inv, Enabled, Apply, Init;
    RunKeepsInv(settings, states, steps, i);
    if i == j {
      HolderFits(settings, states[i], w, states[i].workers[w].claim.id);
    } else {
      StoppedForever(settings, states, steps, i, j - 1, w);
      StepOfRun(settings, states, steps, j - 1);
      StepKeepsStopped(settings, states[j - 1], steps[j - 1], w);
    }
  }

  /** A backoff as long as the calendar. */
  const CALENDAR_BACKOFF := Settings(2, (MAX_ORDINAL + 1) * MICROS_PER_DAY, 0)

  /** With it the first failure of any item, at any time, stops the worker that has it. */
  lemma CalendarBackoffOverflows(claim: WorkQueue.Claim, now: DateTime)
    requires claim.row.attempts == 0
    ensures RetryOverflows(CALENDAR_BACKOFF, claim, now)
  {
    assert Pow2(0) == 1;
    assert Delay(CALENDAR_BACKOFF, 1) == CALENDAR_BACKOFF.backoff;
  }

  /** A run of one worker and one item that ends with the worker stopped and the row running. */
  lemma OverflowHappens(now: DateTime) returns (states: seq<Sys>, steps: seq<Step>)
    ensures IsRun(CALENDAR_BACKOFF, states, steps)
    ensures var last := states[|steps|];
            && 1 in last.tables.queue && last.tables.queue[1].status.Claimed? && last.tables.queue[1].attempts == 0
            && HeldByStopped(last, 1) && !SomeWorkerLeft(last)
  {
    hide IsoFormat, Instant, Later, Delay, RetryOverflows;
    var settings := CALENDAR_BACKOFF;
    var create, enqueue := CreateRun(Placeholder("run", "task", "example")), Step.Enqueue("run", "example", now);
    var claim, overflow := Step.Claim(0, 1, now), Overflow(0, now, "error");
    var s0 := Init(1);
    var s1 := Apply(settings, s0, create);
    var s2 := Apply(settings, s1, enqueue);
    var s3 := Apply(settings, s2, claim);
    CalendarBackoffOverflows(s3.workers[0].claim, now);
    var s4 := Apply(settings, s3, overflow);
    states, steps := [s0, s1, s2, s3, s4], [create, enqueue, claim, overflow];
    assert Follows(settings, s0, create, s1) && Follows(settings, s1, enqueue, s2);
    assert Follows(settings, s2, claim, s3) && Follows(settings, s3, overflow, s4);
    assert IsWorker(s4, 0) && s4.workers[0].Stopped?;
  }

  /******* Backoff *******/

  lemma StepKeepsFirstFailure(settings: Settings, sys: Sys, step: Step, id: nat)
    requires Inv(settings, sys) && Enabled(settings, sys, step)
    requires id in sys.history && sys.history[id].firstFailure.Some?
    ensures var after := Apply(settings, sys, step);
            id in after.history && after.history[id].firstFailure == sys.history[id].firstFailure
  {
    hide Inv, Enabled, Apply;
    if IsAbout(sys, step, id) {
      if step.Enqueue? {
        NewItemUnclaimed(settings, sys, step);
      } else if step.Claim? {
        ClaimKeepsHistory(settings, sys, step);
      } else {
        HistoryOfStep(settings, sys, step);
      }
    } else {
      OtherItems(settings, sys, step, id);
    }
  }

  lemma {:induction false} FirstFailureKept(
    settings: Settings, states: seq<Sys>, steps: seq<Step>, i: nat, j: nat, id: nat)
    requires IsRun(settings, states, steps) && i <= j <= |steps|
    requires id in states[i].history && states[i].history[id].firstFailure.Some?
    ensures id in states[j].history && states[j].history[id].firstFailure == states[i].history[id].firstFailure
    decreases j
  {
    hide Inv, Enabled, Apply, Init;
    if i < j {
      FirstFailureKept(settings, states, steps, i, j - 1, id);
      RunKeepsInv(settings, states, steps, j - 1);
      assert Follows(settings, states[j - 1], steps[j - 1], states[j - 1 + 1]);
      StepKeepsFirstFailure(settings, states[j - 1], steps[j - 1], id);
    }
  }

  /** The item that a failing worker is dealing with. */
  predicate FailsItem(sys: Sys, step: Step, id: nat) {
    step.Fail? && IsWorker(sys, step.w) && !sys.workers[step.w].Idle? && sys.workers[step.w].claim.id == id
  }

  lemma FirstFailureTime(settings: Settings, sys: Sys, step: Step, id: nat)
    requires Inv(settings, sys) && Enabled(settings, sys, step) && FailsItem(sys, step, id)
    ensures id in sys.tables.queue && id in sys.history && id in Apply(settings, sys, step).history
    ensures sys.tables.queue[id].attempts == 0 ==>
              Apply(settings, sys, step).history[id].firstFailure == Some(Instant(step.now))
    ensures sys.tables.queue[id].attempts > 0 ==>
              sys.history[id].firstFailure.Some?
              && Instant(step.now) >= sys.history[id].firstFailure.value +
                Backlog(settings, sys.tables.queue[id].attempts)
  {
    hide Inv, Backlog, Delay, Later, IsoFormat, Instant, RetryOverflows, Final;
    ClaimFits(settings, sys, step.w);
  }

  lemma FailedAttempts(settings: Settings, sys: Sys, step: Step, id: nat)
    requires Inv(settings, sys) && Enabled(settings, sys, step) && FailsItem(sys, step, id)
    ensures var after := Apply(settings, sys, step);
            && id in sys.tables.queue && id in after.tables.queue
            && after.tables.queue[id].attempts == sys.tables.queue[id].attempts + 1
            && (after.tables.queue[id].status.Dead? <==> sys.tables.queue[id].attempts + 1 >= settings.maxAttempts)
            && (after.tables.queue[id].status.Dead? ==> sys.tables.queue[id].attempts + 1 == settings.maxAttempts)
  {
    hide Inv, Backlog, Delay, Later, IsoFormat, Instant, Final;
    ClaimFits(settings, sys, step.w);
  }

  /** Between an item's first failure and a later one, after `attempts` failures, lie at least
      backoff * (2^attempts - 1); for the failure that buries it, backoff * (2^(max-1) - 1). */
  lemma FailuresFarApart(settings: Settings, states: seq<Sys>, steps: seq<Step>, i: nat, j: nat, id: nat)
    requires IsRun(settings, states, steps) && i < j < |steps|
    requires FailsItem(states[i], steps[i], id) && FailsItem(states[j], steps[j], id)
    requires id in states[i].tables.queue && states[i].tables.queue[id].attempts == 0
    requires id in states[j].tables.queue && states[j].tables.queue[id].attempts > 0
    ensures Instant(steps[j].now) >= Instant(steps[i].now) + Backlog(settings, states[j].tables.queue[id].attempts)
    ensures states[j + 1].tables.queue.Keys >= {id}
    ensures states[j + 1].tables.queue[id].status.Dead? ==>
              Instant(steps[j].now) >= Instant(steps[i].now) + Backlog(settings, settings.maxAttempts - 1)
  {
    hide Follows, Init, Inv, RowFits, Backlog, Delay, Later, Enabled, Apply;
    StepOfRun(settings, states, steps, i);
    StepOfRun(settings, states, steps, j);
    FirstFailureTime(settings, states[i], steps[i], id);
    FirstFailureTime(settings, states[j], steps[j], id);
    assert states[i + 1].history[id].firstFailure == Some(Instant(steps[i].now));
    FirstFailureKept(settings, states, steps, i + 1, j, id);
    FailedAttempts(settings, states[j], steps[j], id);
  }

  /** A waiting row can be claimed from exactly the delay after its last failure on. */
  lemma AvailableWhenDue(settings: Settings, row: Row, h: History, now: DateTime)
    requires row.status.Waiting? && RowFits(settings, row, h)
    ensures Available(row, now) <==>
              row.attempts == 0 || Instant(now) >= h.lastFailure + Delay(settings, row.attempts)
  {
    hide Delay, Instant, IsoFormat, TextLess, Backlog;
    TextOrderIsTimeOrder(now, h.due);
  }

  lemma FailureRecorded(settings: Settings, sys: Sys, step: Step, id: nat)
    requires Inv(settings, sys) && Enabled(settings, sys, step) && FailsItem(sys, step, id)
    ensures id in sys.tables.queue && id in Apply(settings, sys, step).history
    ensures Apply(settings, sys, step).history[id].lastFailure == Instant(step.now)
  {
    hide Inv, Backlog, Delay, Later, IsoFormat, Instant, RetryOverflows, Final;
    ClaimFits(settings, sys, step.w);
  }

  lemma NobodyHasWaiting(settings: Settings, sys: Sys, w: nat)
    requires Inv(settings, sys) && IsWorker(sys, w) && !sys.workers[w].Idle?
    ensures sys.workers[w].claim.id in sys.tables.queue && !sys.tables.queue[sys.workers[w].claim.id].status.Waiting?
  {
    hide Inv, RowFits, Final, Instant;
    ClaimFits(settings, sys, w);
  }

  /** Only a claim changes a waiting row. */
  lemma StepKeepsWaiting(settings: Settings, sys: Sys, step: Step, id: nat)
    requires Inv(settings, sys) && Enabled(settings, sys, step)
    requires id in sys.tables.queue && sys.tables.queue[id].status.Waiting? && (step.Claim? ==> step.id != id)
    ensures var after := Apply(settings, sys, step);
            && id in after.tables.queue && after.tables.queue[id] == sys.tables.queue[id]
            && id in sys.history && id in after.history && after.history[id] == sys.history[id]
  {
    hide Inv, Enabled, Apply;
    ItemFits(settings, sys, id);
    if IsAbout(sys, step, id) {
      AboutExisting(settings, sys, step, id);
      NobodyHasWaiting(settings, sys, step.w);
    } else {
      OtherItems(settings, sys, step, id);
    }
  }

  lemma {:induction false} WaitingKept(
    settings: Settings, states: seq<Sys>, steps: seq<Step>, i: nat, j: nat, id: nat)
    requires IsRun(settings, states, steps) && i <= j <= |steps|
    requires id in states[i].tables.queue && states[i].tables.queue[id].status.Waiting?
    requires forall k :: i <= k < j ==> steps[k].Claim? ==> steps[k].id != id
    ensures id in states[i].history && id in states[j].tables.queue && id in states[j].history
    ensures states[j].tables.queue[id] == states[i].tables.queue[id]
    ensures states[j].history[id] == states[i].history[id]
    decreases j
  {
    hide Follows, Inv, Enabled, Apply, Init;
    if i == j {
      RunKeepsInv(settings, states, steps, i);
      ItemFits(settings, states[i], id);
    } else {
      WaitingKept(settings, states, steps, i, j - 1, id);
      StepOfRun(settings, states, steps, j - 1);
      StepKeepsWaiting(settings, states[j - 1], steps[j - 1], id);
    }
  }

  /** After a failure that is retried, and until the item is claimed again, any idle worker can claim it from
      exactly the delay after that failure on, and not before. */
  lemma RetriedExactlyWhenDue(
    settings: Settings, states: seq<Sys>, steps: seq<Step>, i: nat, j: nat, id: nat, w: nat, now: DateTime)
    requires IsRun(settings, states, steps) && i < j <= |steps| && FailsItem(states[i], steps[i], id)
    requires id in states[i + 1].tables.queue && states[i + 1].tables.queue[id].status.Waiting?
    requires forall k :: i < k < j ==> steps[k].Claim? ==> steps[k].id != id
    requires IsWorker(states[j], w) && states[j].workers[w].Idle?
    ensures id in states[i].tables.queue
    ensures var failures := states[i].tables.queue[id].attempts + 1;
            Enabled(settings, states[j], Step.Claim(w, id, now)) <==>
            Instant(now) >= Instant(steps[i].now) + Delay(settings, failures)
  {
    hide Follows, Inv, Apply, Init, Available, Instant, Delay, RowFits;
    StepOfRun(settings, states, steps, i);
    FailureRecorded(settings, states[i], steps[i], id);
    FailedAttempts(settings, states[i], steps[i], id);
    WaitingKept(settings, states, steps, i + 1, j, id);
    RunKeepsInv(settings, states, steps, j);
    ItemFits(settings, states[j], id);
    AvailableWhenDue(settings, states[j].tables.queue[id], states[j].history[id], now);
  }

  /******* Chaos on otherwise healthy items *******/

  /** The only failures are the injected ones: attempts below the limit fail, all others succeed. */
  predicate OnlyChaosFails(settings: Settings, sys: Sys, step: Step) {
    match step
    case Fail(w, _, _) =>
      IsWorker(sys, w) ==> sys.workers[w].Working? && sys.workers[w].claim.row.attempts < settings.chaosAttempts
    case Overflow(w, _, _) =>
      IsWorker(sys, w) ==> sys.workers[w].Working? && sys.workers[w].claim.row.attempts < settings.chaosAttempts
    case SaveResult(w, _) =>
      IsWorker(sys, w) && !sys.workers[w].Idle? ==> sys.workers[w].claim.row.attempts >= settings.chaosAttempts
    case _ => true
  }

  ghost predicate IsChaosRun(settings: Settings, states: seq<Sys>, steps: seq<Step>) {
    && IsRun(settings, states, steps)
    && (forall i :: 0 <= i < |steps| ==> OnlyChaosFails(settings, states[i], steps[i]))
  }

  predicate ChaosRow(settings: Settings, row: Row) {
    row.attempts <= settings.chaosAttempts && (row.status.Done? ==> row.attempts == settings.chaosAttempts)
  }

  ghost predicate ChaosInv(settings: Settings, sys: Sys) {
    && (forall id :: id in sys.tables.queue ==> ChaosRow(settings, sys.tables.queue[id]))
    && (forall w :: 0 <= w < |sys.workers| && sys.workers[w].Saved? ==>
          sys.workers[w].claim.row.attempts >= settings.chaosAttempts)
  }

  lemma ChaosRowOfHolder(settings: Settings, sys: Sys, step: Step)
    requires Inv(settings, sys) && ChaosInv(settings, sys)
    requires Enabled(settings, sys, step) && OnlyChaosFails(settings, sys, step)
    requires step.MarkDone? || step.Fail?
    ensures var id := sys.workers[step.w].claim.id;
            var after := Apply(settings, sys, step).tables.queue;
            id in sys.tables.queue && id in after && ChaosRow(settings, after[id])
            && after == sys.tables.queue[id := after[id]]
  {
    hide Inv, Delay, Later, IsoFormat;
    HolderFits(settings, sys, step.w, sys.workers[step.w].claim.id);
  }

  lemma OtherStepsKeepAttempts(settings: Settings, sys: Sys, step: Step, id: nat)
    requires Enabled(settings, sys, step) && !step.MarkDone? && !step.Fail?
    requires id in Apply(settings, sys, step).tables.queue
    ensures var after := Apply(settings, sys, step).tables.queue[id];
            if step.Enqueue? && id == sys.tables.nextId then after.attempts == 0 && after.status.Waiting?
            else id in sys.tables.queue && after.attempts == sys.tables.queue[id].attempts
                 && (after.status.Done? ==> sys.tables.queue[id].status.Done?)
  {
    hide Delay, Later, Available, IsoFormat, Final, RunIds;
  }

  lemma ChaosRows(settings: Settings, sys: Sys, step: Step, id: nat)
    requires Inv(settings, sys) && ChaosInv(settings, sys)
    requires Enabled(settings, sys, step) && OnlyChaosFails(settings, sys, step)
    requires id in Apply(settings, sys, step).tables.queue
    ensures ChaosRow(settings, Apply(settings, sys, step).tables.queue[id])
  {
    hide Inv, Enabled, Apply, OnlyChaosFails;
    if step.MarkDone? || step.Fail? {
      ChaosRowOfHolder(settings, sys, step);
    } else {
      OtherStepsKeepAttempts(settings, sys, step, id);
    }
  }

  lemma ChaosWorkers(settings: Settings, sys: Sys, step: Step, w: nat)
    requires ChaosInv(settings, sys) && IsWorker(sys, w)
    requires Enabled(settings, sys, step) && OnlyChaosFails(settings, sys, step)
    ensures var after := Apply(settings, sys, step);
            && IsWorker(after, w)
            && (after.workers[w].Saved? ==> after.workers[w].claim.row.attempts >= settings.chaosAttempts)
  {
    hide Delay, Later, Available, IsoFormat;
  }

  lemma SameNumberOfWorkers(settings: Settings, sys: Sys, step: Step)
    requires Enabled(settings, sys, step)
    ensures |Apply(settings, sys, step).workers| == |sys.workers|
  {
    hide Delay, Later, Available, IsoFormat;
  }

  lemma StepKeepsChaosInv(settings: Settings, sys: Sys, step: Step)
    requires Inv(settings, sys) && ChaosInv(settings, sys)
    requires Enabled(settings, sys, step) && OnlyChaosFails(settings, sys, step)
    ensures ChaosInv(settings, Apply(settings, sys, step))
  {
    hide Inv, Enabled, Apply, OnlyChaosFails, ChaosRow;
    var after := Apply(settings, sys, step);
    SameNumberOfWorkers(settings, sys, step);
    forall id | id in after.tables.queue
      ensures ChaosRow(settings, after.tables.queue[id])
    {
      ChaosRows(settings, sys, step, id);
    }
    forall w: nat | w < |after.workers|
      ensures after.workers[w].Saved? ==> after.workers[w].claim.row.attempts >= settings.chaosAttempts
    {
      ChaosWorkers(settings, sys, step, w);
    }
  }

  lemma NoChaosYet(settings: Settings, workers: nat)
    ensures ChaosInv(settings, Init(workers))
  {
  }

  lemma {:induction false} ChaosRunKeepsInv(settings: Settings, states: seq<Sys>, steps: seq<Step>, i: nat)
    requires IsChaosRun(settings, states, steps) && i <= |steps|
    ensures ChaosInv(settings, states[i])
  {
    hide Inv, ChaosInv, Enabled, Apply, Init, OnlyChaosFails;
    if i == 0 {
      NoChaosYet(settings, |states[0].workers|);
    } else {
      ChaosRunKeepsInv(settings, states, steps, i - 1);
      RunKeepsInv(settings, states, steps, i - 1);
      assert Follows(settings, states[i - 1], steps[i - 1], states[i - 1 + 1]);
      assert OnlyChaosFails(settings, states[i - 1], steps[i - 1]);
      StepKeepsChaosInv(settings, states[i - 1], steps[i - 1]);
    }
  }

  /** With N injected failures a settled item is done after exactly N + 1 claims when N is below the
      limit, and dead after exactly `maxAttempts` claims when it is not. */
  lemma ChaosOutcome(settings: Settings, states: seq<Sys>, steps: seq<Step>, id: nat)
    requires IsChaosRun(settings, states, steps)
    requires id in states[|steps|].tables.queue && Settled(states[|steps|].tables.queue[id])
    ensures var row := states[|steps|].tables.queue[id];
            && (row.status.Done? <==> settings.chaosAttempts < settings.maxAttempts)
            && CountClaimsOf(steps, id) ==
               if settings.chaosAttempts < settings.maxAttempts then settings.chaosAttempts + 1
                 else settings.maxAttempts
  {
    ChaosRunKeepsInv(settings, states, steps, |steps|);
    ClaimsPerItem(settings, states, steps, id);
    RowLimits(settings, states, steps, |steps|, id);
  }

  /** No worker has a step left that chaos allows. */
  ghost predicate ChaosIsOver(settings: Settings, sys: Sys) {
    forall step :: IsWorkerStep(step) && OnlyChaosFails(settings, sys, step) ==> !Enabled(settings, sys, step)
  }

  lemma ChaosGoesOn(settings: Settings, sys: Sys, w: nat)
    requires IsWorker(sys, w) && !sys.workers[w].Idle? && !sys.workers[w].Stopped?
    requires ChaosInv(settings, sys)
    ensures !ChaosIsOver(settings, sys)
  {
    hide RetryOverflows;
    match sys.workers[w]
    case Working(claim, since) =>
      var record := AgentRun(claim.row.runId, "", "", None, Completed, None, None, None, [], [], [], [], [], []);
      var result := if claim.row.attempts < settings.chaosAttempts then Failure("")
        else Ran(StoredRun(record, "", None));
      var step := ResultStep(settings, w, claim, result, since);
      assert IsWorkerStep(step) && OnlyChaosFails(settings, sys, step) && Enabled(settings, sys, step);
    case Saved(_, _) => assert IsWorkerStep(MarkDone(w)) && OnlyChaosFails(settings, sys, MarkDone(w));
    case Burying(_) => assert IsWorkerStep(ReadRecord(w)) && OnlyChaosFails(settings, sys, ReadRecord(w));
    case Rewriting(_, _) => assert IsWorkerStep(FailRecord(w)) && OnlyChaosFails(settings, sys, FailRecord(w));
  }

  lemma OnlyBusyGoOn(settings: Settings, sys: Sys, w: nat)
    requires GoesOn(settings, sys, w)
    ensures IsWorker(sys, w) && !sys.workers[w].Idle? && !sys.workers[w].Stopped?
  {
  }

  lemma ChaosClaims(settings: Settings, sys: Sys, id: nat)
    requires Claimable(settings, sys, id)
    ensures !ChaosIsOver(settings, sys)
  {
    hide Enabled;
    var w: nat :| IsWorker(sys, w) && sys.workers[w].Idle?;
    var step := Step.Claim(w, id, sys.history[id].due);
    assert IsWorkerStep(step) && OnlyChaosFails(settings, sys, step) && Enabled(settings, sys, step);
  }

  /** A chaos run that cannot go on has settled every item, except those a stopped worker holds. */
  lemma ChaosEnds(settings: Settings, states: seq<Sys>, steps: seq<Step>, id: nat)
    requires IsChaosRun(settings, states, steps) && ChaosIsOver(settings, states[|steps|])
    requires SomeWorkerLeft(states[|steps|])
    requires id in states[|steps|].tables.queue
    ensures Settled(states[|steps|].tables.queue[id]) || HeldByStopped(states[|steps|], id)
  {
    hide Inv, ChaosInv, Enabled, Apply, ChaosIsOver, GoesOn, OnlyChaosFails, Available;
    var sys := states[|steps|];
    RunKeepsInv(settings, states, steps, |steps|);
    ChaosRunKeepsInv(settings, states, steps, |steps|);
    if !Settled(sys.tables.queue[id]) && !HeldByStopped(sys, id) {
      NotStuck(settings, sys, id);
      if w: nat :| GoesOn(settings, sys, w) {
        OnlyBusyGoOn(settings, sys, w);
        ChaosGoesOn(settings, sys, w);
      } else {
        ChaosClaims(settings, sys, id);
      }
      assert false;
    }
  }

  lemma WorkerStepKeepsIds(settings: Settings, sys: Sys, step: Step)
    requires Enabled(settings, sys, step) && IsWorkerStep(step)
    ensures Apply(settings, sys, step).tables.nextId == sys.tables.nextId
  {
    hide Delay, Later, Available, IsoFormat, RetryOverflows, Instant, Final;
  }

  /** How many worker steps a run can still take, for the items it has. */
  function StepsLeft(settings: Settings, sys: Sys, steps: seq<Step>): int {
    5 * (settings.maxAttempts * (sys.tables.nextId - 1)) - CountWorkerSteps(steps)
  }

  lemma OneStepLess(settings: Settings, sys: Sys, after: Sys, steps: seq<Step>, step: Step)
    requires after.tables.nextId == sys.tables.nextId && IsWorkerStep(step)
    ensures StepsLeft(settings, after, steps + [step]) == StepsLeft(settings, sys, steps) - 1
  {
    assert (steps + [step])[..|steps|] == steps;
  }

  /** The second run goes on where the first ends, with steps of workers only. */
  ghost predicate Continues(states: seq<Sys>, steps: seq<Step>, states': seq<Sys>, steps': seq<Step>) {
    && states <= states' && steps <= steps'
    && forall k :: |steps| <= k < |steps'| ==> IsWorkerStep(steps'[k])
  }

  lemma StepsLeftAtLeast(settings: Settings, states: seq<Sys>, steps: seq<Step>)
    requires IsRun(settings, states, steps)
    ensures StepsLeft(settings, states[|steps|], steps) >= 0
  {
    hide Follows, Init, CountWorkerSteps;
    WorkerStepsBounded(settings, states, steps);
  }

  /** Every chaos run comes to an end: worker steps that chaos allows lead from it to a run in which none is
      left. */
  lemma {:induction false} ChaosRunsEnd(settings: Settings, states: seq<Sys>, steps: seq<Step>)
    returns (states': seq<Sys>, steps': seq<Step>)
    requires IsChaosRun(settings, states, steps)
    ensures IsChaosRun(settings, states', steps') && Continues(states, steps, states', steps')
    ensures ChaosIsOver(settings, states'[|steps'|])
    decreases StepsLeft(settings, states[|steps|], steps)
  {
    hide Inv, Enabled, Apply, Init, OnlyChaosFails, StepsLeft, CountWorkerSteps;
    var sys := states[|steps|];
    if ChaosIsOver(settings, sys) {
      states', steps' := states, steps;
    } else {
      var step :| IsWorkerStep(step) && OnlyChaosFails(settings, sys, step) && Enabled(settings, sys, step);
      var after := Apply(settings, sys, step);
      WorkerStepKeepsIds(settings, sys, step);
      OneStepLess(settings, sys, after, steps, step);
      StepsLeftAtLeast(settings, states, steps);
      StepsLeftAtLeast(settings, states + [after], steps + [step]);
      states', steps' := ChaosRunsEnd(settings, states + [after], steps + [step]);
      assert states <= states + [after] && steps <= steps + [step];
      forall k | |steps| <= k < |steps'| ensures IsWorkerStep(steps'[k]) {
        if k == |steps| {
          assert steps'[k] == (steps + [step])[k];
        }
      }
    }
  }

  lemma OnlyOverflowStops(settings: Settings, sys: Sys, step: Step, w: nat)
    requires Enabled(settings, sys, step) && !step.Overflow? && IsWorker(sys, w) && !sys.workers[w].Stopped?
    ensures IsWorker(Apply(settings, sys, step), w) && !Apply(settings, sys, step).workers[w].Stopped?
  {
    hide Delay, Later, Available, IsoFormat;
  }

  lemma {:induction false} NoOverflowNoneStopped(
    settings: Settings, states: seq<Sys>, steps: seq<Step>, i: nat, w: nat)
    requires IsRun(settings, states, steps) && i <= |steps| && IsWorker(states[i], w)
    requires forall k :: 0 <= k < |steps| ==> !steps[k].Overflow?
    ensures !states[i].workers[w].Stopped?
  {
    hide Inv, Enabled, Apply, Follows;
    if i == 0 {
    } else {
      StepOfRun(settings, states, steps, i - 1);
      SameNumberOfWorkers(settings, states[i - 1], steps[i - 1]);
      NoOverflowNoneStopped(settings, states, steps, i - 1, w);
      OnlyOverflowStops(settings, states[i - 1], steps[i - 1], w);
    }
  }

  /** How chaos ends, when no retry time overflows: with N injected failures every item is done after exactly
      N + 1 claims when N is below the limit, and dead after exactly `maxAttempts` claims when it is not. */
  lemma ChaosSettles(settings: Settings, states: seq<Sys>, steps: seq<Step>, id: nat)
    requires IsChaosRun(settings, states, steps) && ChaosIsOver(settings, states[|steps|])
    requires |states[|steps|].workers| > 0 && forall k :: 0 <= k < |steps| ==> !steps[k].Overflow?
    requires id in states[|steps|].tables.queue
    ensures var row := states[|steps|].tables.queue[id];
            && (if settings.chaosAttempts < settings.maxAttempts then row.status.Done? else row.status.Dead?)
            && CountClaimsOf(steps, id) ==
               if settings.chaosAttempts < settings.maxAttempts then settings.chaosAttempts + 1
                 else settings.maxAttempts
  {
    hide Follows, Init, ChaosIsOver, OnlyChaosFails;
    var sys := states[|steps|];
    forall w: nat | IsWorker(sys, w) ensures !sys.workers[w].Stopped? {
      NoOverflowNoneStopped(settings, states, steps, |steps|, w);
    }
    assert IsWorker(sys, 0);
    ChaosEnds(settings, states, steps, id);
    ChaosOutcome(settings, states, steps, id);
  }

  /******* The worker's method is a run of the protocol *******/

  /** The steps by which a worker takes an item from its claim to the end. */
  function StepsOf(
    settings: Settings, w: nat, claim: WorkQueue.Claim, result: WorkResult, claimedAt: DateTime,
    failedAt: DateTime): seq<Step>
  {
    [Step.Claim(w, claim.id, claimedAt)] +
    match result
    case Ran(record) => [SaveResult(w, record), MarkDone(w)]
    case Failure(error) =>
      if claim.row.attempts + 1 >= settings.maxAttempts then [Fail(w, failedAt, error), ReadRecord(w), FailRecord(w)]
      else if RetryOverflows(settings, claim, failedAt) then [Overflow(w, failedAt, error)]
      else [Fail(w, failedAt, error)]
  }

  ghost predicate Reaches(settings: Settings, sys: Sys, steps: seq<Step>, tables: Tables)
    decreases |steps|
  {
    if steps == [] then sys.tables == tables
    else Enabled(settings, sys, steps[0]) && Reaches(settings, Apply(settings, sys, steps[0]), steps[1..], tables)
  }

  ghost predicate CanClaim(sys: Sys, w: nat, claim: WorkQueue.Claim, now: DateTime) {
    && IsWorker(sys, w) && sys.workers[w].Idle? && claim.id in sys.tables.queue
    && claim.row == sys.tables.queue[claim.id] && Available(claim.row, now)
  }

  lemma ConsSteps(settings: Settings, sys: Sys, step: Step, rest: seq<Step>, goal: Tables)
    requires Enabled(settings, sys, step) && Reaches(settings, Apply(settings, sys, step), rest, goal)
    ensures Reaches(settings, sys, [step] + rest, goal)
  {
    hide Enabled, Apply;
    assert ([step] + rest)[1..] == rest;
  }

  lemma TwoSteps(settings: Settings, sys: Sys, first: Step, second: Step, goal: Tables)
    requires Enabled(settings, sys, first) && Enabled(settings, Apply(settings, sys, first), second)
    requires Apply(settings, Apply(settings, sys, first), second).tables == goal
    ensures Reaches(settings, sys, [first, second], goal)
  {
    hide Enabled, Apply;
    var middle := Apply(settings, sys, first);
    assert Reaches(settings, Apply(settings, middle, second), [], goal);
    assert [second] == [second] + [] && [first, second] == [first] + [second];
    ConsSteps(settings, middle, second, [], goal);
    ConsSteps(settings, sys, first, [second], goal);
  }

  lemma SuccessFollowsProtocol(
    settings: Settings, sys: Sys, w: nat, claim: WorkQueue.Claim, record: StoredRun, claimedAt: DateTime,
    failedAt: DateTime)
    requires CanClaim(sys, w, claim, claimedAt)
    requires record.run.id == claim.row.runId && Final(record.run.status)
    ensures Reaches(settings, sys, [Step.Claim(w, claim.id, claimedAt)] + [SaveResult(w, record), MarkDone(w)],
                    Settle(settings, sys.tables.SetStatus(claim.id, Claimed), claim, Ran(record), failedAt))
  {
    hide Reaches, Available, IsoFormat;
    var goal := Settle(settings, sys.tables.SetStatus(claim.id, Claimed), claim, Ran(record), failedAt);
    var s1 := Apply(settings, sys, Step.Claim(w, claim.id, claimedAt));
    TwoSteps(settings, s1, SaveResult(w, record), MarkDone(w), goal);
    ConsSteps(settings, sys, Step.Claim(w, claim.id, claimedAt), [SaveResult(w, record), MarkDone(w)], goal);
  }

  lemma RetryFollowsProtocol(
    settings: Settings, sys: Sys, w: nat, claim: WorkQueue.Claim, error: string, claimedAt: DateTime,
    failedAt: DateTime)
    requires CanClaim(sys, w, claim, claimedAt) && Instant(claimedAt) <= Instant(failedAt)
    requires claim.row.attempts + 1 < settings.maxAttempts && !RetryOverflows(settings, claim, failedAt)
    ensures Reaches(settings, sys, [Step.Claim(w, claim.id, claimedAt)] + [Fail(w, failedAt, error)],
                    Settle(settings, sys.tables.SetStatus(claim.id, Claimed), claim, Failure(error), failedAt))
  {
    hide Reaches, Available, IsoFormat, Delay, Later, Instant;
    var goal := Settle(settings, sys.tables.SetStatus(claim.id, Claimed), claim, Failure(error), failedAt);
    var s0 := Step.Claim(w, claim.id, claimedAt);
    assert [s0] + [Fail(w, failedAt, error)] == [s0, Fail(w, failedAt, error)];
    TwoSteps(settings, sys, s0, Fail(w, failedAt, error), goal);
  }

  lemma OverflowFollowsProtocol(
    settings: Settings, sys: Sys, w: nat, claim: WorkQueue.Claim, error: string, claimedAt: DateTime,
    failedAt: DateTime)
    requires CanClaim(sys, w, claim, claimedAt) && Instant(claimedAt) <= Instant(failedAt)
    requires RetryOverflows(settings, claim, failedAt)
    ensures Reaches(settings, sys, [Step.Claim(w, claim.id, claimedAt)] + [Overflow(w, failedAt, error)],
                    Settle(settings, sys.tables.SetStatus(claim.id, Claimed), claim, Failure(error), failedAt))
  {
    hide Reaches, Available, IsoFormat, Delay, Later, Instant;
    var goal := Settle(settings, sys.tables.SetStatus(claim.id, Claimed), claim, Failure(error), failedAt);
    var s0, overflow := Step.Claim(w, claim.id, claimedAt), Overflow(w, failedAt, error);
    assert [s0] + [overflow] == [s0, overflow];
    TwoSteps(settings, sys, s0, overflow, goal);
  }

  lemma RecordSteps(settings: Settings, sys: Sys, w: nat, claim: WorkQueue.Claim)
    requires IsWorker(sys, w) && sys.workers[w] == Burying(claim) && claim.row.runId in sys.tables.runs
    ensures Reaches(settings, sys, [ReadRecord(w), FailRecord(w)], sys.tables.FailRecord(claim.row.runId))
  {
    hide Reaches;
    TwoSteps(settings, sys, ReadRecord(w), FailRecord(w), sys.tables.FailRecord(claim.row.runId));
  }

  lemma BurialFromClaim(
    settings: Settings, sys: Sys, w: nat, claim: WorkQueue.Claim, error: string, claimedAt: DateTime,
    failedAt: DateTime)
    requires IsWorker(sys, w) && sys.workers[w] == Working(claim, claimedAt)
    requires Instant(claimedAt) <= Instant(failedAt)
    requires claim.row.runId in sys.tables.runs && claim.row.attempts + 1 >= settings.maxAttempts
    ensures Reaches(settings, sys, [Fail(w, failedAt, error), ReadRecord(w), FailRecord(w)],
                    Settle(settings, sys.tables, claim, Failure(error), failedAt))
  {
    hide Reaches, Delay, Later, Instant;
    var goal := Settle(settings, sys.tables, claim, Failure(error), failedAt);
    var fail := Fail(w, failedAt, error);
    var after := Apply(settings, sys, fail);
    RecordSteps(settings, after, w, claim);
    ConsSteps(settings, sys, fail, [ReadRecord(w), FailRecord(w)], goal);
    assert [fail] + [ReadRecord(w), FailRecord(w)] == [fail, ReadRecord(w), FailRecord(w)];
  }

  lemma BurialFollowsProtocol(
    settings: Settings, sys: Sys, w: nat, claim: WorkQueue.Claim, error: string, claimedAt: DateTime,
    failedAt: DateTime)
    requires CanClaim(sys, w, claim, claimedAt) && Instant(claimedAt) <= Instant(failedAt)
    requires claim.row.runId in sys.tables.runs && claim.row.attempts + 1 >= settings.maxAttempts
    ensures Reaches(settings, sys, [Step.Claim(w, claim.id, claimedAt)] +
                                   [Fail(w, failedAt, error), ReadRecord(w), FailRecord(w)],
                    Settle(settings, sys.tables.SetStatus(claim.id, Claimed), claim, Failure(error), failedAt))
  {
    hide Reaches, Available, IsoFormat, Delay, Later, Instant;
    var goal := Settle(settings, sys.tables.SetStatus(claim.id, Claimed), claim, Failure(error), failedAt);
    var s0, fail := Step.Claim(w, claim.id, claimedAt), Fail(w, failedAt, error);
    var s1 := Apply(settings, sys, s0);
    BurialFromClaim(settings, s1, w, claim, error, claimedAt, failedAt);
    ConsSteps(settings, sys, s0, [fail, ReadRecord(w), FailRecord(w)], goal);
  }

  /** What `ProcessOnce` does to the tables is what these protocol steps of one worker do. */
  lemma ProcessOnceFollowsProtocol(
    settings: Settings, sys: Sys, w: nat, id: nat, result: WorkResult, claimedAt: DateTime, failedAt: DateTime)
    requires Inv(settings, sys) && IsWorker(sys, w) && sys.workers[w].Idle?
    requires id in sys.tables.queue && Available(sys.tables.queue[id], claimedAt)
    requires result.Ran? ==> result.record.run.id == sys.tables.queue[id].runId && Final(result.record.run.status)
    requires Instant(claimedAt) <= Instant(failedAt)
    ensures var claim := WorkQueue.Claim(id, sys.tables.queue[id]);
            Reaches(settings, sys, StepsOf(settings, w, claim, result, claimedAt, failedAt),
                    Settle(settings, sys.tables.SetStatus(id, Claimed), claim, result, failedAt))
  {
    var claim := WorkQueue.Claim(id, sys.tables.queue[id]);
    hide Inv, Reaches, Settle, Enabled, Apply, RetryOverflows, Available, Delay, Later;
    match result
    case Ran(record) => SuccessFollowsProtocol(settings, sys, w, claim, record, claimedAt, failedAt);
    case Failure(error) =>
      if claim.row.attempts + 1 >= settings.maxAttempts {
        BurialFollowsProtocol(settings, sys, w, claim, error, claimedAt, failedAt);
      } else if RetryOverflows(settings, claim, failedAt) {
        OverflowFollowsProtocol(settings, sys, w, claim, error, claimedAt, failedAt);
      } else {
        RetryFollowsProtocol(settings, sys, w, claim, error, claimedAt, failedAt);
      }
  }

  /** Creating a queued run under a fresh id is two steps of the protocol. */
  lemma CreateQueuedRunFollowsProtocol(
    settings: Settings, sys: Sys, runId: string, taskId: string, example: string, now: DateTime)
    requires Inv(settings, sys) && runId !in sys.tables.runs
    ensures Reaches(settings, sys, [CreateRun(Placeholder(runId, taskId, example)), Step.Enqueue(runId, example, now)],
                    sys.tables.SaveRun(Placeholder(runId, taskId, example)).Enqueue(runId, example, now))
  {
    hide Reaches, RowFits, WorkersFit, SettledFits, IsoFormat;
    var first, second := CreateRun(Placeholder(runId, taskId, example)), Step.Enqueue(runId, example, now);
    TwoSteps(settings, sys, first, second,
             sys.tables.SaveRun(Placeholder(runId, taskId, example)).Enqueue(runId, example, now));
  }
}
