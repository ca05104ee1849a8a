/**
  The queue as a protocol: any number of workers share one store, each store call is atomic, and the
  calls of different workers interleave in any order. A worker that claims does not crash mid-item.
 */
module QueueProtocol {
  import opened Text
  import opened RunRecords
  import opened Timestamps
  import opened WorkQueue

  /******* States *******/

  /** Where a worker is inside its unit of work. `since` is the time it read for its claim. A stopped worker
      has raised while it was scheduling a retry; it never gives its claim back. */
  datatype Phase =
    | Idle
    | Working(claim: Claim, since: DateTime)
    | Saved(claim: Claim, since: DateTime)
    | Stopped(claim: Claim, since: DateTime)
    | Burying(claim: Claim)
    | Rewriting(claim: Claim, record: StoredRun)

  /** What happened to an item so far; no part of the tables. */
  datatype History = History(
    claims: nat, firstFailure: Option<nat>, lastFailure: nat, due: DateTime, since: nat, buriedAt: nat)

  datatype Sys = Sys(tables: Tables, workers: seq<Phase>, history: map<nat, History>)

  datatype Step =
    | CreateRun(record: StoredRun)
    | Enqueue(runId: string, example: string, now: DateTime)
    | Claim(w: nat, id: nat, now: DateTime)
    | SaveResult(w: nat, record: StoredRun)
    | MarkDone(w: nat)
    | Fail(w: nat, now: DateTime, error: string)
    | Overflow(w: nat, now: DateTime, error: string)
    | ReadRecord(w: nat)
    | FailRecord(w: nat)

  function Init(workers: nat): Sys {
    Sys(Tables(map[], 1, map[]), seq(workers, i => Idle), map[])
  }

  predicate Final(s: RunStatus) {
    s.Completed? || s.Failed?
  }

  function RunIds(t: Tables): set<string> {
    set id <- t.queue :: t.queue[id].runId
  }

  predicate IsWorker(sys: Sys, w: nat) {
    w < |sys.workers|
  }

  /** The worker has a claim in progress, and its clock did not run backwards. */
  predicate CanFail(sys: Sys, w: nat, now: DateTime) {
    && IsWorker(sys, w) && (sys.workers[w].Working? || sys.workers[w].Saved?)
    && Instant(sys.workers[w].since) <= Instant(now)
  }

  /** One more failure leads to a retry whose time cannot be represented. */
  predicate RetryOverflows(settings: Settings, claim: Claim, now: DateTime) {
    var attempts := claim.row.attempts + 1;
    attempts < settings.maxAttempts && Later(now, Delay(settings, attempts)).None?
  }

  /** When a step can be taken. New run ids are fresh; a result carries the id of the claimed run and a
      final status; a worker's clock does not run backwards between its claim and its failure. */
  predicate Enabled(settings: Settings, sys: Sys, step: Step) {
    match step
    case CreateRun(record) => record.run.id !in sys.tables.runs
    case Enqueue(runId, _, _) => runId in sys.tables.runs && runId !in RunIds(sys.tables)
    case Claim(w, id, now) =>
      IsWorker(sys, w) && sys.workers[w].Idle? && id in sys.tables.queue && Available(sys.tables.queue[id], now)
    case SaveResult(w, record) =>
      IsWorker(sys, w) && sys.workers[w].Working?
      && record.run.id == sys.workers[w].claim.row.runId && Final(record.run.status)
    case MarkDone(w) => IsWorker(sys, w) && sys.workers[w].Saved?
    case Fail(w, now, _) => CanFail(sys, w, now) && !RetryOverflows(settings, sys.workers[w].claim, now)
    case Overflow(w, now, _) => CanFail(sys, w, now) && RetryOverflows(settings, sys.workers[w].claim, now)
    case ReadRecord(w) => IsWorker(sys, w) && sys.workers[w].Burying?
    case FailRecord(w) => IsWorker(sys, w) && sys.workers[w].Rewriting?
  }

  function SetWorker(sys: Sys, w: nat, phase: Phase): Sys
    requires IsWorker(sys, w)
  {
    sys.(workers := sys.workers[w := phase])
  }

  function OldHistory(sys: Sys, id: nat): History {
    if id in sys.history then sys.history[id]
    else History(0, None, 0, RawDateTime(1, 1, 1, 0, 0, 0, 0), 0, 0)
  }

  function FirstFailure(h: History, now: DateTime): nat {
    if h.firstFailure.Some? then h.firstFailure.value else Instant(now)
  }

  function Apply(settings: Settings, sys: Sys, step: Step): Sys
    requires Enabled(settings, sys, step)
  {
    hide Later, Delay, Instant, Available, RunIds;
    var t := sys.tables;
    match step
    case CreateRun(record) => sys.(tables := t.SaveRun(record))
    case Enqueue(runId, example, now) =>
      sys.(tables := t.Enqueue(runId, example, now), history := sys.history[t.nextId := OldHistory(sys, t.nextId)])
    case Claim(w, id, now) =>
      var h := OldHistory(sys, id);
      SetWorker(sys, w, Working(WorkQueue.Claim(id, t.queue[id]), now)).(
        tables := t.SetStatus(id, Claimed),
        history := sys.history[id := h.(claims := h.claims + 1, since := Instant(now))])
    case SaveResult(w, record) =>
      SetWorker(sys, w, Saved(sys.workers[w].claim, sys.workers[w].since)).(tables := t.SaveRun(record))
    case MarkDone(w) => SetWorker(sys, w, Idle).(tables := t.SetStatus(sys.workers[w].claim.id, Done))
    case Fail(w, now, error) =>
      var claim := sys.workers[w].claim;
      var attempts := claim.row.attempts + 1;
      var h := OldHistory(sys, claim.id).(
        firstFailure := Some(FirstFailure(OldHistory(sys, claim.id), now)), lastFailure := Instant(now));
      if attempts >= settings.maxAttempts then
        SetWorker(sys, w, Burying(claim)).(
          tables := t.MarkDead(claim.id, attempts, error),
          history := sys.history[claim.id := h.(buriedAt := Instant(now))])
      else
        var due := Later(now, Delay(settings, attempts)).value;
        SetWorker(sys, w, Idle).(
          tables := t.Retry(claim.id, attempts, due, error), history := sys.history[claim.id := h.(due := due)])
    case Overflow(w, _, _) => SetWorker(sys, w, Stopped(sys.workers[w].claim, sys.workers[w].since))
    case ReadRecord(w) =>
      var claim := sys.workers[w].claim;
      if claim.row.runId in t.runs then SetWorker(sys, w, Rewriting(claim, t.runs[claim.row.runId]))
      else SetWorker(sys, w, Idle)
    case FailRecord(w) =>
      var record := sys.workers[w].record;
      SetWorker(sys, w, Idle).(tables := t.SaveRun(record.(run := record.run.(status := Failed))))
  }

  /******* The invariant *******/

  predicate Holds(p: Phase, id: nat) {
    (p.Working? || p.Saved? || p.Stopped?) && p.claim.id == id
  }

  predicate Buries(p: Phase, id: nat) {
    (p.Burying? || p.Rewriting?) && p.claim.id == id
  }

  ghost predicate Held(sys: Sys, id: nat) {
    exists w :: 0 <= w < |sys.workers| && Holds(sys.workers[w], id)
  }

  ghost predicate BeingBuried(sys: Sys, id: nat) {
    exists w :: 0 <= w < |sys.workers| && Buries(sys.workers[w], id)
  }

  /** The least time after the first failure at which an item with this many failures may go on. */
  function Backlog(settings: Settings, attempts: nat): nat {
    settings.backoff * (Pow2(attempts) - 1)
  }

  /** A row, its history and the limits of the retry policy agree. */
  predicate RowFits(settings: Settings, row: Row, h: History) {
    match row.status
    case Waiting =>
      && row.attempts < settings.maxAttempts && h.claims == row.attempts
      && (if row.attempts == 0 then row.availableAt.None? && h.firstFailure.None?
          else && h.firstFailure.Some? && row.availableAt == Some(IsoFormat(h.due))
               && Instant(h.due) == h.lastFailure + Delay(settings, row.attempts)
               && Instant(h.due) >= h.firstFailure.value + Backlog(settings, row.attempts))
    case Claimed =>
      && row.attempts < settings.maxAttempts && h.claims == row.attempts + 1
      && (if row.attempts == 0 then h.firstFailure.None?
          else h.firstFailure.Some? && h.since >= h.firstFailure.value + Backlog(settings, row.attempts))
    case Done => row.attempts < settings.maxAttempts && h.claims == row.attempts + 1
    case Dead =>
      && 1 <= settings.maxAttempts == row.attempts && h.claims == settings.maxAttempts && h.firstFailure.Some?
      && h.buriedAt >= h.firstFailure.value + Backlog(settings, settings.maxAttempts - 1)
  }

  /** A worker's claim is about the row as it is. */
  predicate WorkerFits(sys: Sys, p: Phase) {
    p.Idle? ||
    (&& p.claim.id in sys.tables.queue && p.claim.id in sys.history
     && var row := sys.tables.queue[p.claim.id];
        && p.claim.row.runId == row.runId && row.runId in sys.tables.runs
        && (Holds(p, p.claim.id) ==>
              row.status.Claimed? && p.claim.row.attempts == row.attempts
              && Instant(p.since) == sys.history[p.claim.id].since)
        && (p.Saved? ==> Final(sys.tables.runs[row.runId].run.status))
        && (Buries(p, p.claim.id) ==> row.status.Dead?)
        && (p.Rewriting? ==> p.record.run.id == row.runId))
  }

  ghost predicate TablesFit(settings: Settings, sys: Sys) {
    var t := sys.tables;
    && 1 <= t.nextId
    && t.queue.Keys == sys.history.Keys
    && (forall id :: id in t.queue ==> 1 <= id < t.nextId)
    && (forall id :: id in t.queue ==> t.queue[id].runId in t.runs)
    && (forall r :: r in t.runs ==> t.runs[r].run.id == r)
    && (forall i, j :: i in t.queue && j in t.queue && t.queue[i].runId == t.queue[j].runId ==> i == j)
    && (forall id :: id in t.queue ==> RowFits(settings, t.queue[id], sys.history[id]))
  }

  ghost predicate WorkersFit(sys: Sys)
    requires forall id :: id in sys.tables.queue ==> sys.tables.queue[id].runId in sys.tables.runs
  {
    && (forall w :: 0 <= w < |sys.workers| ==> WorkerFits(sys, sys.workers[w]))
    && (forall v, w :: 0 <= v < w < |sys.workers| && !sys.workers[v].Idle? && !sys.workers[w].Idle? ==>
          sys.workers[v].claim.id != sys.workers[w].claim.id)
  }

  /** What an item that is no longer waiting asks for. */
  ghost predicate SettledAt(sys: Sys, id: nat)
    requires id in sys.tables.queue && sys.tables.queue[id].runId in sys.tables.runs
  {
    var row := sys.tables.queue[id];
    && (row.status.Claimed? ==> Held(sys, id))
    && (row.status.Done? ==> Final(sys.tables.runs[row.runId].run.status))
    && (row.status.Dead? ==> BeingBuried(sys, id) || sys.tables.runs[row.runId].run.status.Failed?)
  }

  ghost predicate SettledFits(sys: Sys)
    requires forall id :: id in sys.tables.queue ==> sys.tables.queue[id].runId in sys.tables.runs
  {
    forall id :: id in sys.tables.queue ==> SettledAt(sys, id)
  }

  ghost predicate Inv(settings: Settings, sys: Sys) {
    TablesFit(settings, sys) && WorkersFit(sys) && SettledFits(sys)
  }

  lemma InitInv(settings: Settings, workers: nat)
    ensures Inv(settings, Init(workers))
  {
  }

  /******* One worker acting on its own item *******/

  /** `after` differs from `before` at most in worker `w`, in row, history and run of item `mine`, and
      `w` is dealing with no other item. */
  ghost predicate LocalChange(before: Sys, after: Sys, w: nat, mine: nat) {
    var s, t := before.tables, after.tables;
    && IsWorker(before, w) && mine in s.queue && mine in before.history && mine in t.queue && mine in after.history
    && IsWorker(after, w) && after.workers == before.workers[w := after.workers[w]]
    && t.nextId == s.nextId && t.queue == s.queue[mine := t.queue[mine]]
    && t.queue[mine].runId == s.queue[mine].runId && t.queue[mine].runId in t.runs
    && t.runs == s.runs[t.queue[mine].runId := t.runs[t.queue[mine].runId]]
    && t.runs[t.queue[mine].runId].run.id == t.queue[mine].runId
    && after.history == before.history[mine := after.history[mine]]
    && (before.workers[w].Idle? || before.workers[w].claim.id == mine)
    && (after.workers[w].Idle? || after.workers[w].claim.id == mine)
  }

  /** After a local change, item and worker fit together. */
  predicate LocallyFits(settings: Settings, after: Sys, w: nat, mine: nat)
    requires IsWorker(after, w) && mine in after.tables.queue && mine in after.history
    requires after.tables.queue[mine].runId in after.tables.runs
  {
    var row, p := after.tables.queue[mine], after.workers[w];
    && RowFits(settings, row, after.history[mine])
    && WorkerFits(after, p)
    && (row.status.Claimed? ==> Holds(p, mine))
    && (row.status.Done? ==> Final(after.tables.runs[row.runId].run.status))
    && (row.status.Dead? ==> Buries(p, mine) || after.tables.runs[row.runId].run.status.Failed?)
  }

  /** No worker but `w` is dealing with the item: each other one has its own, and an unclaimed item has none. */
  lemma NobodyElse(settings: Settings, sys: Sys, w: nat, mine: nat, v: nat)
    requires Inv(settings, sys) && IsWorker(sys, w) && IsWorker(sys, v) && v != w && mine in sys.tables.queue
    requires if sys.workers[w].Idle? then sys.tables.queue[mine].status.Waiting? else sys.workers[w].claim.id == mine
    ensures sys.workers[v].Idle? || sys.workers[v].claim.id != mine
  {
    hide RowFits;
    assert WorkerFits(sys, sys.workers[v]);
  }

  lemma LocalTables(settings: Settings, before: Sys, after: Sys, w: nat, mine: nat)
    requires Inv(settings, before) && LocalChange(before, after, w, mine) && LocallyFits(settings, after, w, mine)
    ensures TablesFit(settings, after)
  {
    hide WorkersFit, SettledFits, RowFits, WorkerFits;
  }

  lemma OtherWorkerFits(settings: Settings, before: Sys, after: Sys, w: nat, mine: nat, v: nat)
    requires Inv(settings, before) && LocalChange(before, after, w, mine)
    requires IsWorker(before, v) && v != w
    requires before.workers[v].Idle? || before.workers[v].claim.id != mine
    ensures WorkerFits(after, after.workers[v])
  {
    hide RowFits, SettledFits;
    assert WorkerFits(before, before.workers[v]);
    assert after.workers[v] == before.workers[v];
  }

  lemma LocalWorkers(settings: Settings, before: Sys, after: Sys, w: nat, mine: nat)
    requires Inv(settings, before) && LocalChange(before, after, w, mine) && LocallyFits(settings, after, w, mine)
    requires before.workers[w].Idle? ==> before.tables.queue[mine].status.Waiting?
    requires TablesFit(settings, after)
    ensures WorkersFit(after)
  {
    hide RowFits, SettledFits;
    forall v | 0 <= v < |after.workers| && v != w
      ensures WorkerFits(after, after.workers[v])
      ensures after.workers[v].Idle? || after.workers[v].claim.id != mine
    {
      NobodyElse(settings, before, w, mine, v);
      OtherWorkerFits(settings, before, after, w, mine, v);
    }
  }

  lemma RunsOfTables(settings: Settings, sys: Sys)
    requires TablesFit(settings, sys)
    ensures forall id :: id in sys.tables.queue ==> sys.tables.queue[id].runId in sys.tables.runs
  {
    hide RowFits;
  }

  lemma MineSettled(settings: Settings, before: Sys, after: Sys, w: nat, mine: nat)
    requires LocalChange(before, after, w, mine) && LocallyFits(settings, after, w, mine)
    ensures SettledAt(after, mine)
  {
    hide RowFits, WorkerFits, Final;
  }

  lemma SettledOfInv(settings: Settings, sys: Sys, id: nat)
    requires Inv(settings, sys) && id in sys.tables.queue
    ensures sys.tables.queue[id].runId in sys.tables.runs && SettledAt(sys, id)
  {
    hide RowFits, WorkersFit, Held, BeingBuried, Final;
  }

  lemma DistinctRuns(settings: Settings, sys: Sys, i: nat, j: nat)
    requires Inv(settings, sys) && i in sys.tables.queue && j in sys.tables.queue && i != j
    ensures sys.tables.queue[i].runId != sys.tables.queue[j].runId
  {
    hide RowFits, WorkersFit, SettledFits;
  }

  lemma OtherItemCovered(before: Sys, after: Sys, w: nat, mine: nat, id: nat)
    requires LocalChange(before, after, w, mine) && id != mine
    ensures Held(before, id) ==> Held(after, id)
    ensures BeingBuried(before, id) ==> BeingBuried(after, id)
  {
    forall v | 0 <= v < |before.workers| && (Holds(before.workers[v], id) || Buries(before.workers[v], id))
      ensures after.workers[v] == before.workers[v]
    {
    }
  }

  lemma OtherSettled(settings: Settings, before: Sys, after: Sys, w: nat, mine: nat, id: nat)
    requires Inv(settings, before) && LocalChange(before, after, w, mine) && LocallyFits(settings, after, w, mine)
    requires id in after.tables.queue && id != mine
    ensures after.tables.queue[id].runId in after.tables.runs && SettledAt(after, id)
  {
    hide Inv, LocallyFits, Held, BeingBuried, Final;
    SettledOfInv(settings, before, id);
    OtherItemCovered(before, after, w, mine, id);
    DistinctRuns(settings, before, id, mine);
  }

  lemma LocalSettled(settings: Settings, before: Sys, after: Sys, w: nat, mine: nat)
    requires Inv(settings, before) && LocalChange(before, after, w, mine) && LocallyFits(settings, after, w, mine)
    requires TablesFit(settings, after)
    ensures SettledFits(after)
  {
    hide Inv, TablesFit, LocalChange, LocallyFits, Held, BeingBuried, Final;
    RunsOfTables(settings, after);
    forall id | id in after.tables.queue ensures SettledAt(after, id) {
      if id == mine {
        MineSettled(settings, before, after, w, mine);
      } else {
        OtherSettled(settings, before, after, w, mine, id);
      }
    }
  }

  lemma LocalChangeKeepsInv(settings: Settings, before: Sys, after: Sys, w: nat, mine: nat)
    requires Inv(settings, before) && LocalChange(before, after, w, mine) && LocallyFits(settings, after, w, mine)
    requires before.workers[w].Idle? ==> before.tables.queue[mine].status.Waiting?
    ensures Inv(settings, after)
  {
    LocalTables(settings, before, after, w, mine);
    LocalWorkers(settings, before, after, w, mine);
    LocalSettled(settings, before, after, w, mine);
  }

  /** What the invariant says of one item. */
  lemma ItemFits(settings: Settings, sys: Sys, id: nat)
    requires Inv(settings, sys) && id in sys.tables.queue
    ensures id in sys.history && 1 <= id < sys.tables.nextId
    ensures RowFits(settings, sys.tables.queue[id], sys.history[id])
    ensures var runId := sys.tables.queue[id].runId;
            runId in sys.tables.runs && sys.tables.runs[runId].run.id == runId
  {
    hide RowFits, WorkersFit, SettledFits;
  }

  lemma WorkerOfInv(settings: Settings, sys: Sys, w: nat)
    requires Inv(settings, sys) && IsWorker(sys, w)
    ensures WorkerFits(sys, sys.workers[w])
  {
    hide TablesFit, SettledFits, WorkerFits;
  }

  /** What the invariant says of one worker and of the item it is dealing with. */
  lemma ClaimFits(settings: Settings, sys: Sys, w: nat)
    requires Inv(settings, sys) && IsWorker(sys, w) && !sys.workers[w].Idle?
    ensures WorkerFits(sys, sys.workers[w]) && sys.workers[w].claim.id in sys.tables.queue
    ensures var id := sys.workers[w].claim.id;
            && id in sys.history && 1 <= id < sys.tables.nextId
            && RowFits(settings, sys.tables.queue[id], sys.history[id])
            && sys.tables.queue[id].runId in sys.tables.runs
            && sys.tables.runs[sys.tables.queue[id].runId].run.id == sys.tables.queue[id].runId
  {
    WorkerOfInv(settings, sys, w);
    hide Inv, RowFits;
    ItemFits(settings, sys, sys.workers[w].claim.id);
  }

  /** The item that a step is about: a new one, the one claimed, or the one its worker is dealing with. */
  predicate IsAbout(sys: Sys, step: Step, id: nat) {
    match step
    case CreateRun(_) => false
    case Enqueue(_, _, _) => id == sys.tables.nextId
    case Claim(_, i, _) => id == i
    case _ => IsWorker(sys, step.w) && !sys.workers[step.w].Idle? && sys.workers[step.w].claim.id == id
  }

  /** Steps about other items change nothing of an item. */
  lemma OtherItems(settings: Settings, sys: Sys, step: Step, id: nat)
    requires Enabled(settings, sys, step) && !IsAbout(sys, step, id)
    ensures var after := Apply(settings, sys, step);
            && (id in after.tables.queue <==> id in sys.tables.queue)
            && (id in after.history <==> id in sys.history)
            && (id in sys.tables.queue ==> after.tables.queue[id] == sys.tables.queue[id])
            && (id in sys.history ==> after.history[id] == sys.history[id])
  {
    hide Delay, Later, Available, IsoFormat, Final, RunIds, RetryOverflows, Instant;
  }

  /** Steps of others change nothing of a worker. */
  lemma OtherWorkers(settings: Settings, sys: Sys, step: Step, w: nat)
    requires Enabled(settings, sys, step) && IsWorker(sys, w) && (step.CreateRun? || step.Enqueue? || step.w != w)
    ensures var after := Apply(settings, sys, step);
            IsWorker(after, w) && after.workers[w] == sys.workers[w]
  {
    hide Delay, Later, Available, IsoFormat, Final, RunIds, RetryOverflows, Instant, OldHistory;
  }

  /** A step about an item that exists already is a claim of a waiting row, or a step of the worker that has
      claimed it. */
  lemma AboutExisting(settings: Settings, sys: Sys, step: Step, id: nat)
    requires Inv(settings, sys) && Enabled(settings, sys, step) && IsAbout(sys, step, id)
    requires id in sys.tables.queue
    ensures !step.CreateRun? && !step.Enqueue? && IsWorker(sys, step.w)
    ensures step.Claim? ==> sys.tables.queue[id].status.Waiting?
    ensures !step.Claim? ==> !sys.workers[step.w].Idle? && sys.workers[step.w].claim.id == id
    ensures !step.Claim? && !step.ReadRecord? && !step.FailRecord? ==>
              && sys.tables.queue[id].status.Claimed?
              && sys.workers[step.w].claim.row.attempts == sys.tables.queue[id].attempts
    ensures !step.Claim? ==> !sys.workers[step.w].Stopped?
  {
    hide Inv, RowFits, Delay, Later, IsoFormat, RunIds, RetryOverflows, Instant, TextLess;
    ItemFits(settings, sys, id);
    if !step.CreateRun? && !step.Enqueue? && !step.Claim? {
      ClaimFits(settings, sys, step.w);
    }
  }

  /******* Every step keeps the invariant *******/

  /** Rows and runs were only added, the rows waiting; nobody did anything else. */
  ghost predicate Grows(before: Sys, after: Sys) {
    var s, t := before.tables, after.tables;
    && after.workers == before.workers
    && (forall id :: id in s.queue ==> id in t.queue && t.queue[id] == s.queue[id])
    && (forall id :: id in t.queue && id !in s.queue ==> t.queue[id].status.Waiting?)
    && (forall id :: id in before.history ==> id in after.history && after.history[id] == before.history[id])
    && (forall r :: r in s.runs ==> r in t.runs && t.runs[r] == s.runs[r])
  }

  lemma WorkersOfInv(settings: Settings, sys: Sys)
    requires Inv(settings, sys)
    ensures forall v, w :: 0 <= v < w < |sys.workers| && !sys.workers[v].Idle? && !sys.workers[w].Idle? ==>
              sys.workers[v].claim.id != sys.workers[w].claim.id
  {
    hide TablesFit, SettledFits, WorkerFits;
  }

  lemma GrowthKeepsWorkers(settings: Settings, before: Sys, after: Sys)
    requires Inv(settings, before) && Grows(before, after) && TablesFit(settings, after)
    ensures WorkersFit(after)
  {
    hide Inv, TablesFit;
    WorkersOfInv(settings, before);
    RunsOfTables(settings, after);
    forall w | 0 <= w < |after.workers| ensures WorkerFits(after, after.workers[w]) {
      WorkerOfInv(settings, before, w);
    }
  }

  lemma SameWorkers(before: Sys, after: Sys, id: nat)
    requires after.workers == before.workers
    ensures Held(after, id) <==> Held(before, id)
    ensures BeingBuried(after, id) <==> BeingBuried(before, id)
  {
  }

  lemma GrowthKeepsSettled(settings: Settings, before: Sys, after: Sys)
    requires Inv(settings, before) && Grows(before, after) && TablesFit(settings, after)
    ensures SettledFits(after)
  {
    hide TablesFit, WorkersFit, Held, BeingBuried;
    RunsOfTables(settings, before);
    RunsOfTables(settings, after);
    forall id | id in before.tables.queue
      ensures (Held(after, id) <==> Held(before, id)) && (BeingBuried(after, id) <==> BeingBuried(before, id))
    {
      SameWorkers(before, after, id);
    }
  }

  lemma GrowthKeepsInv(settings: Settings, before: Sys, after: Sys)
    requires Inv(settings, before) && Grows(before, after) && TablesFit(settings, after)
    ensures Inv(settings, after)
  {
    hide TablesFit, Grows;
    GrowthKeepsWorkers(settings, before, after);
    GrowthKeepsSettled(settings, before, after);
  }

  lemma TablesOfInv(settings: Settings, sys: Sys)
    requires Inv(settings, sys)
    ensures TablesFit(settings, sys)
  {
    hide TablesFit, WorkersFit, SettledFits;
  }

  lemma CreateRunKeepsInv(settings: Settings, sys: Sys, step: Step)
    requires Inv(settings, sys) && Enabled(settings, sys, step) && step.CreateRun?
    ensures Inv(settings, Apply(settings, sys, step))
  {
    hide Inv, RowFits;
    TablesOfInv(settings, sys);
    GrowthKeepsInv(settings, sys, Apply(settings, sys, step));
  }

  lemma NewRowFits(settings: Settings, runId: string, example: string, now: DateTime, h: History)
    requires settings.maxAttempts >= 1 && h.claims == 0 && h.firstFailure.None?
    ensures RowFits(settings, Row(runId, example, Waiting, 0, None, None, IsoFormat(now)), h)
  {
  }

  lemma NextIdIsNew(settings: Settings, sys: Sys)
    requires Inv(settings, sys)
    ensures sys.tables.nextId !in sys.tables.queue && sys.tables.nextId !in sys.history
  {
    hide RowFits, WorkersFit, SettledFits;
  }

  lemma EnqueueGrows(settings: Settings, sys: Sys, step: Step)
    requires Inv(settings, sys) && Enabled(settings, sys, step) && step.Enqueue?
    ensures Grows(sys, Apply(settings, sys, step))
  {
    hide Inv, RowFits, IsoFormat, RunIds;
    NextIdIsNew(settings, sys);
  }

  lemma NewItemTables(settings: Settings, sys: Sys, step: Step)
    requires settings.maxAttempts >= 1
    requires Inv(settings, sys) && Enabled(settings, sys, step) && step.Enqueue?
    ensures TablesFit(settings, Apply(settings, sys, step))
  {
    hide Inv, RowFits, IsoFormat;
    TablesOfInv(settings, sys);
    NewRowFits(settings, step.runId, step.example, step.now, OldHistory(sys, sys.tables.nextId));
    forall id | id in sys.tables.queue
      ensures sys.tables.queue[id].runId != step.runId
    {
      assert sys.tables.queue[id].runId in RunIds(sys.tables);
    }
  }

  lemma EnqueueKeepsInv(settings: Settings, sys: Sys, step: Step)
    requires settings.maxAttempts >= 1
    requires Inv(settings, sys) && Enabled(settings, sys, step) && step.Enqueue?
    ensures Inv(settings, Apply(settings, sys, step))
  {
    hide Inv, Enabled, Apply, Grows, TablesFit;
    EnqueueGrows(settings, sys, step);
    NewItemTables(settings, sys, step);
    GrowthKeepsInv(settings, sys, Apply(settings, sys, step));
  }

  lemma ClaimedRowFits(settings: Settings, row: Row, h: History, now: DateTime)
    requires row.status.Waiting? && RowFits(settings, row, h) && Available(row, now)
    ensures RowFits(settings, row.(status := Claimed), h.(claims := h.claims + 1, since := Instant(now)))
  {
    if row.attempts > 0 {
      TextOrderIsTimeOrder(now, h.due);
    }
  }

  lemma ClaimKeepsInv(settings: Settings, sys: Sys, step: Step)
    requires Inv(settings, sys) && Enabled(settings, sys, step) && step.Claim?
    ensures Inv(settings, Apply(settings, sys, step))
  {
    hide Inv, RowFits, IsoFormat, TextLess;
    var after := Apply(settings, sys, step);
    ItemFits(settings, sys, step.id);
    ClaimedRowFits(settings, sys.tables.queue[step.id], sys.history[step.id], step.now);
    assert LocalChange(sys, after, step.w, step.id) && LocallyFits(settings, after, step.w, step.id);
    LocalChangeKeepsInv(settings, sys, after, step.w, step.id);
  }

  lemma SaveResultKeepsInv(settings: Settings, sys: Sys, step: Step)
    requires Inv(settings, sys) && Enabled(settings, sys, step) && step.SaveResult?
    ensures Inv(settings, Apply(settings, sys, step))
  {
    hide Inv, RowFits;
    var after, w, mine := Apply(settings, sys, step), step.w, sys.workers[step.w].claim.id;
    ClaimFits(settings, sys, w);
    assert LocalChange(sys, after, w, mine) && LocallyFits(settings, after, w, mine);
    LocalChangeKeepsInv(settings, sys, after, w, mine);
  }

  lemma DoneRowFits(settings: Settings, row: Row, h: History)
    requires row.status.Claimed? && RowFits(settings, row, h)
    ensures RowFits(settings, row.(status := Done), h)
  {
  }

  lemma MarkDoneKeepsInv(settings: Settings, sys: Sys, step: Step)
    requires Inv(settings, sys) && Enabled(settings, sys, step) && step.MarkDone?
    ensures Inv(settings, Apply(settings, sys, step))
  {
    hide Inv, RowFits;
    var after, w, mine := Apply(settings, sys, step), step.w, sys.workers[step.w].claim.id;
    ClaimFits(settings, sys, w);
    DoneRowFits(settings, sys.tables.queue[mine], sys.history[mine]);
    assert LocalChange(sys, after, w, mine) && LocallyFits(settings, after, w, mine);
    LocalChangeKeepsInv(settings, sys, after, w, mine);
  }

  lemma FailureTimes(settings: Settings, row: Row, h: History, now: nat)
    requires row.status.Claimed? && RowFits(settings, row, h) && h.since <= now
    ensures var first := if h.firstFailure.Some? then h.firstFailure.value else now;
            && now >= first + Backlog(settings, row.attempts)
            && now + Delay(settings, row.attempts + 1) >= first + Backlog(settings, row.attempts + 1)
  {
    assert Backlog(settings, 0) == 0;
    hide Backlog, Delay;
  }

  lemma BuriedRowFits(settings: Settings, row: Row, h: History, now: DateTime, error: string)
    requires row.status.Claimed? && RowFits(settings, row, h) && h.since <= Instant(now)
    requires row.attempts + 1 >= settings.maxAttempts
    ensures RowFits(settings, row.(status := Dead, attempts := row.attempts + 1, lastError := Some(error)),
                    h.(firstFailure := Some(FirstFailure(h, now)), lastFailure := Instant(now),
                       buriedAt := Instant(now)))
  {
    hide Backlog, Delay;
    FailureTimes(settings, row, h, Instant(now));
  }

  lemma RetriedRowFits(settings: Settings, row: Row, h: History, now: DateTime, error: string, due: DateTime)
    requires row.status.Claimed? && RowFits(settings, row, h) && h.since <= Instant(now)
    requires row.attempts + 1 < settings.maxAttempts
    requires Later(now, Delay(settings, row.attempts + 1)) == Some(due)
    ensures RowFits(settings, row.(status := Waiting, attempts := row.attempts + 1, availableAt := Some(IsoFormat(due)),
                                   lastError := Some(error)),
                    h.(firstFailure := Some(FirstFailure(h, now)), lastFailure := Instant(now), due := due))
  {
    hide Backlog, Delay, IsoFormat;
    FailureTimes(settings, row, h, Instant(now));
  }

  lemma BuryKeepsInv(settings: Settings, sys: Sys, step: Step)
    requires Inv(settings, sys) && Enabled(settings, sys, step) && step.Fail?
    requires sys.workers[step.w].claim.row.attempts + 1 >= settings.maxAttempts
    ensures Inv(settings, Apply(settings, sys, step))
  {
    hide Inv, Delay, RowFits, IsoFormat;
    var after, w, mine := Apply(settings, sys, step), step.w, sys.workers[step.w].claim.id;
    ClaimFits(settings, sys, w);
    BuriedRowFits(settings, sys.tables.queue[mine], sys.history[mine], step.now, step.error);
    assert LocalChange(sys, after, w, mine) && LocallyFits(settings, after, w, mine);
    LocalChangeKeepsInv(settings, sys, after, w, mine);
  }

  lemma RetryKeepsInv(settings: Settings, sys: Sys, step: Step)
    requires Inv(settings, sys) && Enabled(settings, sys, step) && step.Fail?
    requires sys.workers[step.w].claim.row.attempts + 1 < settings.maxAttempts
    ensures Inv(settings, Apply(settings, sys, step))
  {
    hide Inv, Delay, RowFits, IsoFormat, Later;
    var after, w, mine := Apply(settings, sys, step), step.w, sys.workers[step.w].claim.id;
    ClaimFits(settings, sys, w);
    RetriedRowFits(settings, sys.tables.queue[mine], sys.history[mine], step.now, step.error, after.history[mine].due);
    assert LocalChange(sys, after, w, mine) && LocallyFits(settings, after, w, mine);
    LocalChangeKeepsInv(settings, sys, after, w, mine);
  }

  lemma FailKeepsInv(settings: Settings, sys: Sys, step: Step)
    requires Inv(settings, sys) && Enabled(settings, sys, step) && step.Fail?
    ensures Inv(settings, Apply(settings, sys, step))
  {
    hide Inv, Apply, Delay, Later;
    if sys.workers[step.w].claim.row.attempts + 1 >= settings.maxAttempts {
      BuryKeepsInv(settings, sys, step);
    } else {
      RetryKeepsInv(settings, sys, step);
    }
  }

  lemma OverflowKeepsInv(settings: Settings, sys: Sys, step: Step)
    requires Inv(settings, sys) && Enabled(settings, sys, step) && step.Overflow?
    ensures Inv(settings, Apply(settings, sys, step))
  {
    hide Inv, RowFits, RetryOverflows;
    var after, w, mine := Apply(settings, sys, step), step.w, sys.workers[step.w].claim.id;
    ClaimFits(settings, sys, w);
    assert LocalChange(sys, after, w, mine) && LocallyFits(settings, after, w, mine);
    LocalChangeKeepsInv(settings, sys, after, w, mine);
  }

  lemma ReadRecordKeepsInv(settings: Settings, sys: Sys, step: Step)
    requires Inv(settings, sys) && Enabled(settings, sys, step) && step.ReadRecord?
    ensures Inv(settings, Apply(settings, sys, step))
  {
    hide Inv, RowFits;
    var after, w, mine := Apply(settings, sys, step), step.w, sys.workers[step.w].claim.id;
    ClaimFits(settings, sys, w);
    assert LocalChange(sys, after, w, mine) && LocallyFits(settings, after, w, mine);
    LocalChangeKeepsInv(settings, sys, after, w, mine);
  }

  lemma FailRecordKeepsInv(settings: Settings, sys: Sys, step: Step)
    requires Inv(settings, sys) && Enabled(settings, sys, step) && step.FailRecord?
    ensures Inv(settings, Apply(settings, sys, step))
  {
    hide Inv, RowFits;
    var after, w, mine := Apply(settings, sys, step), step.w, sys.workers[step.w].claim.id;
    ClaimFits(settings, sys, w);
    assert LocalChange(sys, after, w, mine) && LocallyFits(settings, after, w, mine);
    LocalChangeKeepsInv(settings, sys, after, w, mine);
  }

  lemma StepKeepsInv(settings: Settings, sys: Sys, step: Step)
    requires settings.maxAttempts >= 1
    requires Inv(settings, sys) && Enabled(settings, sys, step)
    ensures Inv(settings, Apply(settings, sys, step))
  {
    hide Inv, Enabled, Apply;
    match step
    case CreateRun(_) => CreateRunKeepsInv(settings, sys, step);
    case Enqueue(_, _, _) => EnqueueKeepsInv(settings, sys, step);
    case Claim(_, _, _) => ClaimKeepsInv(settings, sys, step);
    case SaveResult(_, _) => SaveResultKeepsInv(settings, sys, step);
    case MarkDone(_) => MarkDoneKeepsInv(settings, sys, step);
    case Fail(_, _, _) => FailKeepsInv(settings, sys, step);
    case Overflow(_, _, _) => OverflowKeepsInv(settings, sys, step);
    case ReadRecord(_) => ReadRecordKeepsInv(settings, sys, step);
    case FailRecord(_) => FailRecordKeepsInv(settings, sys, step);
  }
}
