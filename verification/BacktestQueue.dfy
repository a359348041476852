/** The backtest table and the runner that starts the queued backtests. */
module BacktestQueue {
  import opened Sequences

  datatype Status = Queued | Running | Finished | Failed | TimedOut | Cancelled

  predicate IsFinal(status: Status) { status != Queued && status != Running }

  predicate IsQueued(rows: map<int, Status>, id: int) { id in rows && rows[id] == Queued }

  /** The queued rows whose row lock no other transaction holds. */
  function FreeQueued(rows: map<int, Status>, locked: set<int>): set<int> {
    set id | id in rows && rows[id] == Queued && id !in locked
  }

  /** `ORDER BY id LIMIT 1 FOR UPDATE SKIP LOCKED`. */
  function OldestFree(rows: map<int, Status>, locked: set<int>): (oldest: Option<int>)
    ensures oldest.None? <==> FreeQueued(rows, locked) == {}
    ensures oldest.Some? ==>
              oldest.value in FreeQueued(rows, locked) && forall id <- FreeQueued(rows, locked) :: oldest.value <= id
  {
    var free := FreeQueued(rows, locked);
    if free == {} then None else Some(MinOf(free))
  }

  /** The guarded end of a backtest. */
  function EndIfRunning(rows: map<int, Status>, id: int, status: Status): map<int, Status> {
    if id in rows && rows[id] == Running then rows[id := status] else rows
  }

  function FailRunning(rows: map<int, Status>): map<int, Status> {
    map id | id in rows :: if rows[id] == Running then Failed else rows[id]
  }

  /** `ids`: the runs of a sweep. */
  function CancelQueued(rows: map<int, Status>, ids: set<int>): map<int, Status> {
    map id | id in rows :: if id in ids && rows[id] == Queued then Cancelled else rows[id]
  }

  /** The started backtests are running, and no other row changed. */
  ghost predicate AreStarted(before: map<int, Status>, after: map<int, Status>, started: seq<int>) {
    && after.Keys == before.Keys
    && (forall id <- started :: id in before)
    && (forall id <- before :: after[id] == if id in started then Running else before[id])
  }

  /** The runner takes the oldest free rows in their order. */
  ghost predicate TakesOldest(before: map<int, Status>, locked: set<int>, started: seq<int>) {
    && Ascending(started)
    && (forall id <- started :: id in FreeQueued(before, locked))
    && (forall id <- FreeQueued(before, locked) :: id in started || forall other <- started :: other < id)
  }

  class BacktestRunner {
    var runningCount: nat

    constructor ()
      ensures runningCount == 0
    {
      runningCount := 0;
    }

    /** The loop over the queue without a step of another process in between. */
    method StartQueuedBacktests(rows0: map<int, Status>, locked: set<int>, concurrency: nat)
      returns (rows: map<int, Status>, started: seq<int>)
      modifies this
      ensures AreStarted(rows0, rows, started) && TakesOldest(rows0, locked, started)
      ensures runningCount == old(runningCount) + |started|
      ensures started != [] ==> runningCount <= concurrency
      ensures runningCount >= concurrency || FreeQueued(rows, locked) == {}
    {
      rows, started := rows0, [];
      while runningCount < concurrency
        invariant AreStarted(rows0, rows, started) && TakesOldest(rows0, locked, started)
        invariant runningCount == old(runningCount) + |started|
        invariant started != [] ==> runningCount <= concurrency
        decreases concurrency - runningCount
      {
        var backtestId := OldestFree(rows, locked);
        if backtestId.None? {
          return;
        }
        StartOldest(rows0, rows, locked, started);
        rows := rows[backtestId.value := Running];
        started := started + [backtestId.value];
        runningCount := runningCount + 1;
      }
    }
  }

  lemma StartOldest(before: map<int, Status>, rows: map<int, Status>, locked: set<int>, started: seq<int>)
    requires AreStarted(before, rows, started) && TakesOldest(before, locked, started)
    requires OldestFree(rows, locked).Some?
    ensures var id := OldestFree(rows, locked).value;
      AreStarted(before, rows[id := Running], started + [id]) && TakesOldest(before, locked, started + [id])
  {
    var id := OldestFree(rows, locked).value;
    assert id in FreeQueued(before, locked) && id !in started;
    AscendingAppend(started, id);
    forall other <- FreeQueued(before, locked) | other !in started && other != id ensures other > id {
      assert other in FreeQueued(rows, locked);
    }
  }
}
