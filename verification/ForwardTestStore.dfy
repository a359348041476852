/** The forward_test row, its interruptions, the guarded and unguarded writes, and the start transaction. */
module ForwardTestStore {
  import opened Sequences

  datatype DesiredState = WantRunning | WantStopped

  datatype Status = Starting | Running | WaitingForGateway | Stopping | Stopped | StopFailed | Failed

  datatype InterruptionReason = CrashReason | GatewayReason | WorkerRestartReason

  datatype Interruption = Interruption(reason: InterruptionReason, startedAtUtc: int, endedAtUtc: Option<int>)

  datatype Row = Row(desired: DesiredState, status: Status, clientId: Option<int>, endTimeUtc: Option<int>,
                     stoppedAtUtc: Option<int>, crashCount: nat, allocatedCapitalUsd: real)

  predicate IsStopWanted(row: Row, nowUtc: int) {
    row.desired == WantStopped || (row.endTimeUtc.Some? && nowUtc >= row.endTimeUtc.value)
  }

  /** The guard of the child's status writes. A stop that came first stays. */
  predicate IsActive(status: Status) {
    status == Starting || status == Running || status == WaitingForGateway
  }

  predicate IsStopStatus(status: Status) {
    status == Stopping || status == StopFailed || status == Stopped
  }

  /** The rows that the worker still acts on. */
  predicate IsCompared(row: Row) {
    row.status != Stopped && !(row.status == Failed && row.clientId.None?)
  }

  // ---------------------------------------------------------------- writes of one row

  function WriteActiveStatus(row: Row, status: Status): Row {
    if IsActive(row.status) then row.(status := status) else row
  }

  function WriteEnd(row: Row, status: Status, stoppedAtUtc: int): Row {
    row.(status := status, clientId := None, stoppedAtUtc := Some(stoppedAtUtc))
  }

  // ---------------------------------------------------------------- interruptions

  predicate HasOpen(interruptions: seq<Interruption>) {
    exists i :: 0 <= i < |interruptions| && interruptions[i].endedAtUtc.None?
  }

  predicate AtMostOneOpen(interruptions: seq<Interruption>) {
    forall i, j :: 0 <= i < j < |interruptions| ==>
      interruptions[i].endedAtUtc.Some? || interruptions[j].endedAtUtc.Some?
  }

  /** The insert does nothing while an interruption is open. */
  function StartInterruption(interruptions: seq<Interruption>, reason: InterruptionReason,
                             nowUtc: int): (after: seq<Interruption>)
    ensures HasOpen(after)
    ensures AtMostOneOpen(interruptions) ==> AtMostOneOpen(after)
    ensures interruptions <= after
  {
    if HasOpen(interruptions) then
      interruptions
    else
      var after := interruptions + [Interruption(reason, nowUtc, None)];
      assert after[|interruptions|].endedAtUtc.None?;
      after
  }

  function EndInterruption(interruptions: seq<Interruption>, nowUtc: int): (after: seq<Interruption>)
    ensures |after| == |interruptions|
    ensures !HasOpen(after) && AtMostOneOpen(after)
    ensures forall i :: 0 <= i < |after| && interruptions[i].endedAtUtc.Some? ==> after[i] == interruptions[i]
    ensures forall i :: 0 <= i < |after| && interruptions[i].endedAtUtc.None? ==>
              after[i] == interruptions[i].(endedAtUtc := Some(nowUtc))
  {
    seq(|interruptions|, i requires 0 <= i < |interruptions| =>
      if interruptions[i].endedAtUtc.None? then interruptions[i].(endedAtUtc := Some(nowUtc)) else interruptions[i])
  }

  // ---------------------------------------------------------------- client IDs and capital

  predicate HoldsId(row: Row, clientId: int) { row.clientId == Some(clientId) }

  function TakenClientIds(rows: seq<Row>): (taken: set<int>)
    ensures forall clientId :: clientId in taken <==> exists i :: 0 <= i < |rows| && HoldsId(rows[i], clientId)
  {
    set i | 0 <= i < |rows| && rows[i].clientId.Some? :: rows[i].clientId.value
  }

  function HeldCapital(row: Row): real { if row.clientId.Some? then row.allocatedCapitalUsd else 0.0 }

  function AllocatedUsd(rows: seq<Row>): real { SumBy(rows, HeldCapital) }

  /** The lowest ID of first..last that is not taken. */
  ghost predicate IsLowestFree(first: int, last: int, taken: set<int>, found: Option<int>) {
    match found
    case None => forall id :: first <= id <= last ==> id in taken
    case Some(clientId) =>
      first <= clientId <= last && clientId !in taken && forall id :: first <= id < clientId ==> id in taken
  }

  function LowestFreeFrom(first: int, last: int, taken: set<int>): (found: Option<int>)
    ensures IsLowestFree(first, last, taken, found)
    decreases last - first
  {
    if first > last then None else if first !in taken then Some(first) else LowestFreeFrom(first + 1, last, taken)
  }

  lemma LowestFreeIsUnique(first: int, last: int, taken: set<int>, a: Option<int>, b: Option<int>)
    requires IsLowestFree(first, last, taken, a) && IsLowestFree(first, last, taken, b)
    ensures a == b
  {
  }

  method FindLowestFreeClientId(first: int, last: int, taken: set<int>) returns (found: Option<int>)
    ensures IsLowestFree(first, last, taken, found) && found == LowestFreeFrom(first, last, taken)
  {
    var clientId := first;
    while clientId <= last
      invariant forall id :: first <= id < clientId ==> id in taken
    {
      if clientId !in taken {
        LowestFreeIsUnique(first, last, taken, Some(clientId), LowestFreeFrom(first, last, taken));
        return Some(clientId);
      }
      clientId := clientId + 1;
    }
    LowestFreeIsUnique(first, last, taken, None, LowestFreeFrom(first, last, taken));
    return None;
  }

  datatype StartRefusal = NoFreeClientId | CapitalTooLarge(unallocatedUsd: real)

  datatype StartResult = Accepted(row: Row) | Refused(refusal: StartRefusal)

  /** The start transaction under the table lock: the capital check, then the client ID. */
  function StartForwardTest(rows: seq<Row>, capitalUsd: real, endTimeUtc: Option<int>, first: int, last: int,
                            netLiquidationUsd: real): StartResult {
    var unallocatedUsd := netLiquidationUsd - AllocatedUsd(rows);
    if capitalUsd > unallocatedUsd then
      Refused(CapitalTooLarge(unallocatedUsd))
    else
      var clientId := LowestFreeFrom(first, last, TakenClientIds(rows));
      if clientId.None? then Refused(NoFreeClientId)
      else Accepted(Row(WantRunning, Starting, clientId, endTimeUtc, None, 0, capitalUsd))
  }

  lemma AppendCapital(rows: seq<Row>, row: Row)
    ensures AllocatedUsd(rows + [row]) == AllocatedUsd(rows) + HeldCapital(row)
  {
    SumAppend(rows, [row], HeldCapital);
    SumOne(row, HeldCapital);
  }

  /** A start is refused exactly when the capital or the IDs run out, and an accepted start stays within both. */
  lemma StartIsBounded(rows: seq<Row>, capitalUsd: real, endTimeUtc: Option<int>, first: int, last: int,
                       netLiquidationUsd: real)
    ensures var result := StartForwardTest(rows, capitalUsd, endTimeUtc, first, last, netLiquidationUsd);
      && (result.Refused? <==> AllocatedUsd(rows) + capitalUsd > netLiquidationUsd
                               || forall id :: first <= id <= last ==> id in TakenClientIds(rows))
      && (result.Accepted? ==>
            && AllocatedUsd(rows + [result.row]) == AllocatedUsd(rows) + capitalUsd <= netLiquidationUsd
            && result.row.clientId.Some? && first <= result.row.clientId.value <= last
            && (forall i :: 0 <= i < |rows| ==> !HoldsId(rows[i], result.row.clientId.value))
            && (forall id :: first <= id < result.row.clientId.value ==> id in TakenClientIds(rows)))
  {
    var result := StartForwardTest(rows, capitalUsd, endTimeUtc, first, last, netLiquidationUsd);
    if result.Accepted? {
      AppendCapital(rows, result.row);
    }
  }
}
