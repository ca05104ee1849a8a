/**
  The run store with its work queue, and the worker's unit of work on it. What the methods do is said with
  functions on the tables as a value; the protocol of many workers is built from the same functions.
 */
module WorkQueue {
  import opened Text
  import opened RunRecords
  import opened Timestamps

  /** Queue states; the store writes the first two as "pending" and "running". */
  datatype QueueStatus = Waiting | Claimed | Done | Dead

  datatype Row = Row(
    runId: string,
    example: string,
    status: QueueStatus,
    attempts: nat,
    availableAt: Option<string>,
    lastError: Option<string>,
    enqueuedAt: string)

  /** A claimed row, as it was just before it was claimed. */
  datatype Claim = Claim(id: nat, row: Row)

  datatype StoredRun = StoredRun(run: AgentRun, example: string, tracePath: Option<string>)

  /** The tables, as a value: what the methods below do to them is said with functions on it. */
  datatype Tables = Tables(queue: map<nat, Row>, nextId: nat, runs: map<string, StoredRun>)
  {
    function Enqueue(runId: string, example: string, now: DateTime): Tables {
      this.(queue := queue[nextId := Row(runId, example, Waiting, 0, None, None, IsoFormat(now))], nextId := nextId + 1)
    }

    function SetStatus(id: nat, status: QueueStatus): Tables {
      if id in queue then this.(queue := queue[id := queue[id].(status := status)]) else this
    }

    function Retry(id: nat, attempts: nat, due: DateTime, error: string): Tables {
      if id in queue then
        this.(queue := queue[id := queue[id].(
          status := Waiting, attempts := attempts, availableAt := Some(IsoFormat(due)), lastError := Some(error))])
      else this
    }

    function MarkDead(id: nat, attempts: nat, error: string): Tables {
      if id in queue then
        this.(queue := queue[id := queue[id].(status := Dead, attempts := attempts, lastError := Some(error))])
      else this
    }

    function SaveRun(record: StoredRun): Tables {
      this.(runs := runs[record.run.id := record])
    }

    /** The stored run of a buried item is marked as failed, if there is one. */
    function FailRecord(runId: string): Tables {
      if runId in runs then SaveRun(runs[runId].(run := runs[runId].run.(status := Failed))) else this
    }
  }

  /** A row that a worker may take: waiting, and its time, compared as text, has come. */
  predicate Available(row: Row, now: DateTime) {
    row.status.Waiting? && (row.availableAt.Some? ==> !TextLess(IsoFormat(now), row.availableAt.value))
  }

  /** The record of a run that is still to be executed. */
  function Placeholder(runId: string, taskId: string, example: string): StoredRun {
    var run := AgentRun(runId, taskId, "scripted@0.1", None, Pending, None, None, None, [], [], [], [], [], []);
    StoredRun(run, example, None)
  }

  class RunStore {
    var queue: map<nat, Row>
    var nextId: nat
    var runs: map<string, StoredRun>

    function State(): Tables
      reads this
    {
      Tables(queue, nextId, runs)
    }

    ghost predicate Valid()
      reads this
    {
      1 <= nextId && forall id :: id in queue ==> 1 <= id < nextId
    }

    constructor ()
      ensures Valid() && State() == Tables(map[], 1, map[])
    {
      queue, nextId, runs := map[], 1, map[];
    }

    method SaveRun(record: StoredRun)
      modifies this
      ensures State() == old(State()).SaveRun(record)
    {
      runs := runs[record.run.id := record];
    }

    method SavePlaceholder(runId: string, taskId: string, example: string)
      modifies this
      ensures State() == old(State()).SaveRun(Placeholder(runId, taskId, example))
      ensures nextId == old(nextId) && queue == old(queue)
    {
      var run := AgentRun(runId, taskId, "scripted@0.1", None, Pending, None, None, None, [], [], [], [], [], []);
      SaveRun(StoredRun(run, example, None));
    }

    method GetRun(runId: string) returns (record: Option<StoredRun>)
      ensures record == if runId in runs then Some(runs[runId]) else None
    {
      record := if runId in runs then Some(runs[runId]) else None;
    }

    method Enqueue(runId: string, example: string, now: DateTime) returns (id: nat)
      requires Valid()
      modifies this
      ensures Valid() && id == old(nextId) && id !in old(queue)
      ensures State() == old(State()).Enqueue(runId, example, now)
    {
      id := nextId;
      queue := queue[id := Row(runId, example, Waiting, 0, None, None, IsoFormat(now))];
      nextId := nextId + 1;
    }

    /** Takes the available row with the least id, atomically. */
    method ClaimNext(now: DateTime) returns (claim: Option<Claim>)
      requires Valid()
      modifies this
      ensures Valid()
      ensures claim.None? ==> State() == old(State()) && forall id :: id in queue ==> !Available(queue[id], now)
      ensures claim.Some? ==>
                && claim.value.id in old(queue) && claim.value.row == old(queue)[claim.value.id]
                && Available(claim.value.row, now)
                && (forall id :: id in old(queue) && Available(old(queue)[id], now) ==> claim.value.id <= id)
                && State() == old(State()).SetStatus(claim.value.id, Claimed)
    {
      var id := 1;
      while id < nextId
        invariant 1 <= id <= nextId
        invariant forall k :: k in queue && k < id ==> !Available(queue[k], now)
      {
        if id in queue && Available(queue[id], now) {
          claim := Some(Claim(id, queue[id]));
          queue := queue[id := queue[id].(status := Claimed)];
          return;
        }
        id := id + 1;
      }
      claim := None;
    }

    method Mark(id: nat, status: QueueStatus)
      requires Valid()
      modifies this
      ensures Valid() && State() == old(State()).SetStatus(id, status)
    {
      if id in queue {
        queue := queue[id := queue[id].(status := status)];
      }
    }

    method Retry(id: nat, attempts: nat, due: DateTime, error: string)
      requires Valid()
      modifies this
      ensures Valid() && State() == old(State()).Retry(id, attempts, due, error)
    {
      if id in queue {
        queue := queue[id := queue[id].(
          status := Waiting, attempts := attempts, availableAt := Some(IsoFormat(due)), lastError := Some(error))];
      }
    }

    method MarkDead(id: nat, attempts: nat, error: string)
      requires Valid()
      modifies this
      ensures Valid() && State() == old(State()).MarkDead(id, attempts, error)
    {
      if id in queue {
        queue := queue[id := queue[id].(status := Dead, attempts := attempts, lastError := Some(error))];
      }
    }
  }

  /** The queued branch of creating a run: the placeholder is stored before the item is enqueued. */
  method CreateQueuedRun(store: RunStore, runId: string, taskId: string, example: string, now: DateTime)
    requires store.Valid()
    modifies store
    ensures store.Valid()
    ensures store.State() ==
              old(store.State()).SaveRun(Placeholder(runId, taskId, example)).Enqueue(runId, example, now)
    ensures store.queue ==
              old(store.queue)[old(store.nextId) := Row(runId, example, Waiting, 0, None, None, IsoFormat(now))]
    ensures runId in store.runs && store.runs[runId].run.status.Pending? && store.runs[runId].run.id == runId
            && store.runs[runId].run.taskId == taskId && store.runs[runId].run.steps == []
            && store.runs[runId].example == example
    ensures store.runs - {runId} == old(store.runs) - {runId}
  {
    store.SavePlaceholder(runId, taskId, example);
    var id := store.Enqueue(runId, example, now);
  }

  /******* The worker *******/

  datatype Settings = Settings(maxAttempts: nat, backoff: nat, chaosAttempts: nat)

  function Pow2(k: nat): (p: nat)
    ensures p >= 1
  {
    if k == 0 then 1 else 2 * Pow2(k - 1)
  }

  /** The wait after the `attempts`-th failure, in microseconds. */
  function Delay(settings: Settings, attempts: nat): nat
    requires attempts >= 1
  {
    settings.backoff * Pow2(attempts - 1)
  }

  /** The first wait is the backoff, and every further failure doubles it. */
  lemma WaitDoubles(settings: Settings, attempts: nat)
    requires attempts >= 1
    ensures Delay(settings, 1) == settings.backoff
    ensures Delay(settings, attempts + 1) == 2 * Delay(settings, attempts)
  {
    var b, p := settings.backoff, Pow2(attempts - 1);
    assert Pow2(attempts) == 2 * p;
    assert b * (2 * p) == 2 * (b * p);
  }

  datatype WorkResult = Ran(record: StoredRun) | Failure(error: string)

  /** The examples that are known, and what executing one for a run id does. */
  datatype Examples = Examples(known: set<string>, execute: (string, string) -> WorkResult)

  function Work(settings: Settings, examples: Examples, claim: Claim): WorkResult {
    if claim.row.attempts < settings.chaosAttempts then Failure("chaos: injected failure (ARO_CHAOS_FAIL_ATTEMPTS)")
    else if claim.row.example !in examples.known then Failure("unknown example: " + claim.row.example)
    else examples.execute(claim.row.example, claim.row.runId)
  }

  /** With a known example whose execution does not fail, a claim fails exactly while it has fewer attempts than
      failures are injected, and otherwise comes to the run of that example under the claimed id. */
  lemma HealthyWorkFailsIff(settings: Settings, examples: Examples, claim: Claim)
    requires claim.row.example in examples.known
    requires examples.execute(claim.row.example, claim.row.runId).Ran?
    ensures var result := Work(settings, examples, claim);
            if claim.row.attempts < settings.chaosAttempts then result.Failure?
            else result == examples.execute(claim.row.example, claim.row.runId)
  {
  }

  datatype Outcome = NothingToDo | Processed(runId: string) | Overflowed

  /** The tables after the result of a claimed item has been dealt with. */
  function Settle(settings: Settings, t: Tables, claim: Claim, result: WorkResult, failedAt: DateTime): Tables {
    match result
    case Ran(record) => t.SaveRun(record).SetStatus(claim.id, Done)
    case Failure(error) =>
      var attempts := claim.row.attempts + 1;
      if attempts >= settings.maxAttempts then t.MarkDead(claim.id, attempts, error).FailRecord(claim.row.runId)
      else
        match Later(failedAt, Delay(settings, attempts))
        case None => t
        case Some(due) => t.Retry(claim.id, attempts, due, error)
  }

  /** In the queue this row is all that changes. */
  ghost predicate OnlyRow(before: Tables, after: Tables, id: nat, row: Row) {
    after.queue == before.queue[id := row] && after.nextId == before.nextId
  }

  /** A result is stored under its run and closes the item, which is never touched otherwise. */
  lemma SuccessSettles(settings: Settings, t: Tables, claim: Claim, record: StoredRun, at: DateTime)
    requires claim.id in t.queue
    ensures var after := Settle(settings, t, claim, Ran(record), at);
            && OnlyRow(t, after, claim.id, t.queue[claim.id].(status := Done))
            && after.runs == t.runs[record.run.id := record]
  {
  }

  predicate Overflows(settings: Settings, claim: Claim, result: WorkResult, failedAt: DateTime) {
    && result.Failure? && claim.row.attempts + 1 < settings.maxAttempts
    && Later(failedAt, Delay(settings, claim.row.attempts + 1)).None?
  }

  /** The n-th failure buries the item for n at the maximum, with its stored run failed; otherwise the item waits
      until exactly the delay after the failure, unless that time cannot be written. */
  lemma FailureSettles(settings: Settings, t: Tables, claim: Claim, error: string, at: DateTime)
    requires claim.id in t.queue
    ensures var after, n := Settle(settings, t, claim, Failure(error), at), claim.row.attempts + 1;
            var row, runId := t.queue[claim.id], claim.row.runId;
            if n >= settings.maxAttempts then
              && OnlyRow(t, after, claim.id, row.(status := Dead, attempts := n, lastError := Some(error)))
              && after.runs == (if runId in t.runs
                                then t.runs[t.runs[runId].run.id :=
                                  t.runs[runId].(run := t.runs[runId].run.(status := Failed))]
                                else t.runs)
            else if Instant(at) + Delay(settings, n) < (MAX_ORDINAL + 1) * MICROS_PER_DAY then
              && after.runs == t.runs
              && exists due :: Instant(due) == Instant(at) + Delay(settings, n)
                   && OnlyRow(t, after, claim.id, row.(status := Waiting, attempts := n,
                                                       availableAt := Some(IsoFormat(due)), lastError := Some(error)))
            else after == t
    ensures Overflows(settings, claim, Failure(error), at) <==>
              && claim.row.attempts + 1 < settings.maxAttempts
              && Instant(at) + Delay(settings, claim.row.attempts + 1) >= (MAX_ORDINAL + 1) * MICROS_PER_DAY
  {
    hide Instant, IsoFormat, Delay, Later;
    var n := claim.row.attempts + 1;
    var later := Later(at, Delay(settings, n));
    if n < settings.maxAttempts && later.Some? {
      var row := t.queue[claim.id].(
        status := Waiting, attempts := n, availableAt := Some(IsoFormat(later.value)), lastError := Some(error));
      assert OnlyRow(t, Settle(settings, t, claim, Failure(error), at), claim.id, row);
    }
  }

  method FailPlaceholder(store: RunStore, claim: Claim)
    modifies store
    ensures store.State() == old(store.State()).FailRecord(claim.row.runId)
    ensures store.queue == old(store.queue) && store.nextId == old(store.nextId)
  {
    var record := store.GetRun(claim.row.runId);
    if record.None? {
      return;
    }
    store.SaveRun(record.value.(run := record.value.run.(status := Failed)));
  }

  /** Stores a result and closes the item, or counts the failure and retries or buries it. */
  method Conclude(store: RunStore, settings: Settings, claim: Claim, result: WorkResult, failedAt: DateTime)
    returns (overflowed: bool)
    requires store.Valid()
    modifies store
    ensures store.Valid()
    ensures store.State() == Settle(settings, old(store.State()), claim, result, failedAt)
    ensures overflowed <==> Overflows(settings, claim, result, failedAt)
  {
    match result {
      case Ran(record) =>
        store.SaveRun(record);
        store.Mark(claim.id, Done);
        return false;
      case Failure(error) =>
        var attempts := claim.row.attempts + 1;
        if attempts >= settings.maxAttempts {
          store.MarkDead(claim.id, attempts, error);
          FailPlaceholder(store, claim);
          return false;
        }
        var due := Later(failedAt, Delay(settings, attempts));
        if due.None? {
          return true;
        }
        store.Retry(claim.id, attempts, due.value, error);
        return false;
    }
  }

  /** Claims and executes at most one item. An overflowing retry time raises and leaves the row claimed. */
  method ProcessOnce(store: RunStore, settings: Settings, examples: Examples, claimedAt: DateTime, failedAt: DateTime)
    returns (outcome: Outcome, claim: Option<Claim>)
    requires store.Valid()
    modifies store
    ensures store.Valid()
    ensures outcome.NothingToDo? <==> claim.None?
    ensures claim.None? <==> forall id :: id in old(store.queue) ==> !Available(old(store.queue)[id], claimedAt)
    ensures claim.None? ==> store.State() == old(store.State())
    ensures claim.Some? ==>
              && claim.value.id in old(store.queue) && claim.value.row == old(store.queue)[claim.value.id]
              && Available(claim.value.row, claimedAt)
              && (forall id :: id in old(store.queue) && Available(old(store.queue)[id], claimedAt) ==>
                    claim.value.id <= id)
              && (var result := Work(settings, examples, claim.value);
                  && store.State() == Settle(settings, old(store.State()).SetStatus(claim.value.id, Claimed),
                                             claim.value, result, failedAt)
                  && outcome == if Overflows(settings, claim.value, result, failedAt) then Overflowed
                                else Processed(claim.value.row.runId))
  {
    hide Available, Settle, Overflows;
    claim := store.ClaimNext(claimedAt);
    if claim.None? {
      return NothingToDo, None;
    }
    var overflowed := Conclude(store, settings, claim.value, Work(settings, examples, claim.value), failedAt);
    return if overflowed then Overflowed else Processed(claim.value.row.runId), claim;
  }
}
