/** The times and the marks of a forward test by the steps of its run. */
module ForwardTestHistories {
  import opened Sequences
  import opened ForwardTestStore
  import opened ForwardTestWorker
  import opened ForwardTestProtocol
  import opened ForwardTestRuns
  import opened ForwardTestLaws
  import opened ForwardTestOutages

  /** Whether a step of a row, from a cell at a time, is one of these. */
  type Event = (Cell, int, CellStep) -> bool

  /** Step `k` is a step of the row and one of these. */
  ghost predicate Happens(states: seq<System>, steps: seq<SystemStep>, index: nat, k: nat, event: Event)
    requires k < |steps| < |states|
  {
    && steps[k].RowSteps? && steps[k].index == index && index < |states[k].cells|
    && event(states[k].cells[index], states[k].nowUtc, steps[k].step)
  }

  /** The time of the last one of these before state `k`. */
  ghost function LastTime(states: seq<System>, steps: seq<SystemStep>, index: nat, k: nat, event: Event): Option<int>
    requires k <= |steps| < |states|
  {
    if k == 0 then None
    else if Happens(states, steps, index, k - 1, event) then Some(states[k - 1].nowUtc)
    else LastTime(states, steps, index, k - 1, event)
  }

  /** One of these came before state `k`, and no `reset` after it. */
  ghost predicate CameSince(states: seq<System>, steps: seq<SystemStep>, index: nat, k: nat, event: Event, reset: Event)
    requires k <= |steps| < |states|
  {
    k > 0 && (Happens(states, steps, index, k - 1, event)
              || (!Happens(states, steps, index, k - 1, reset)
                  && CameSince(states, steps, index, k - 1, event, reset)))
  }

  function IsComparison(): Event { (cell: Cell, nowUtc: int, step: CellStep) => step.WorkerCompares? }

  function IsChildStart(): Event {
    (cell: Cell, nowUtc: int, step: CellStep) =>
      step.CallReturns? && (cell.await.AtStartCancel? || cell.await.AtStartRun?)
  }

  function IsUserStop(): Event { (cell: Cell, nowUtc: int, step: CellStep) => step.WebStops? }

  /** A stock split asks a run child without a stop request to restart. */
  function IsRestartRequest(): Event {
    (cell: Cell, nowUtc: int, step: CellStep) =>
      step.SplitRestart? && cell.child.Some? && cell.child.value.mode == RunMode && !cell.child.value.isStopRequested
  }

  /** A comparison finds a wanted stop, and a run child that has not ended. */
  function IsStopRequest(): Event {
    (cell: Cell, nowUtc: int, step: CellStep) =>
      step.WorkerCompares? && cell.await.AtCompare? && IsStopWanted(cell.await.row, nowUtc)
      && cell.child.Some? && cell.child.value.mode == RunMode && !cell.child.value.process.phase.Exited?
  }

  // ---------------------------------------------------------------- times

  /** The time that the comparison read before its awaited calls. */
  function TimeOf(await: Await): Option<int> {
    match await
    case AtRestartInterruption(startedAtUtc, _) => Some(startedAtUtc)
    case AtRecordStopped(stoppedAtUtc) => Some(stoppedAtUtc)
    case AtRecordPaperFailed(stoppedAtUtc) => Some(stoppedAtUtc)
    case AtRecordGateway(startedAtUtc) => Some(startedAtUtc)
    case AtRecordGatewayInterruption(startedAtUtc) => Some(startedAtUtc)
    case AtCrashInterruption(recordedAtUtc, _) => Some(recordedAtUtc)
    case AtWriteCrash(recordedAtUtc, _) => Some(recordedAtUtc)
    case _ => None
  }

  /** `compared`: the time of the last comparison. `started`: the time of the last start of a child. */
  ghost predicate HasTimes(cell: Cell, compared: Option<int>, started: Option<int>) {
    && (TimeOf(cell.await).Some? ==> TimeOf(cell.await) == compared)
    && (cell.child.Some? ==> Some(cell.child.value.startedAtUtc) == started)
    && cell.row.stoppedAtUtc == (if cell.row.clientId.None? then compared else None)
    && (cell.row.clientId.None? ==> compared.Some?)
  }

  ghost function NextTime(time: Option<int>, cell: Cell, nowUtc: int, step: CellStep, event: Event): Option<int> {
    if event(cell, nowUtc, step) then Some(nowUtc) else time
  }

  lemma StepKeepsTimes(cell: Cell, nowUtc: int, step: CellStep, compared: Option<int>, started: Option<int>)
    requires CellInv(cell, nowUtc) && IsEnabled(cell, step) && HasTimes(cell, compared, started)
    ensures HasTimes(AfterStep(cell, nowUtc, step), NextTime(compared, cell, nowUtc, step, IsComparison()),
                     NextTime(started, cell, nowUtc, step, IsChildStart()))
  {
    if step.CallReturns? {
      CallKeepsTimes(cell, nowUtc, compared, started);
    } else if step.ChildSteps? {
      ChildKeepsTimes(cell, nowUtc, step.event, compared, started);
    }
  }

  lemma CallKeepsTimes(cell: Cell, nowUtc: int, compared: Option<int>, started: Option<int>)
    requires CellInv(cell, nowUtc) && IsCalling(cell.await) && HasTimes(cell, compared, started)
    ensures HasTimes(AfterCall(cell, nowUtc), compared, NextTime(started, cell, nowUtc, CallReturns, IsChildStart()))
  {
  }

  lemma ChildKeepsTimes(cell: Cell, nowUtc: int, event: ChildEvent, compared: Option<int>, started: Option<int>)
    requires CellInv(cell, nowUtc) && IsEnabled(cell, ChildSteps(event)) && HasTimes(cell, compared, started)
    ensures HasTimes(AfterChildEvent(cell, nowUtc, event), compared, started)
  {
  }

  /**
   * In each run, each awaited call uses the time of its comparison, a child has the time of its
   * start, and exactly an ended test has a stop time: the one of the comparison that found its end.
   */
  lemma {:induction false} TimesAreOfSteps(states: seq<System>, steps: seq<SystemStep>, k: nat, index: nat)
    requires IsRun(states, steps) && k < |states| && index < |states[k].cells|
    ensures HasTimes(states[k].cells[index], LastTime(states, steps, index, k, IsComparison()),
                     LastTime(states, steps, index, k, IsChildStart()))
    decreases k
  {
    if k > 0 {
      assert IsRunStep(states, steps, k - 1);
      RunKeepsInv(states, steps, k - 1);
      if index < |states[k - 1].cells| {
        TimesAreOfSteps(states, steps, k - 1, index);
        if steps[k - 1].RowSteps? && steps[k - 1].index == index {
          StepKeepsTimes(states[k - 1].cells[index], states[k - 1].nowUtc, steps[k - 1].step,
                         LastTime(states, steps, index, k - 1, IsComparison()),
                         LastTime(states, steps, index, k - 1, IsChildStart()));
        }
      }
    }
  }

  // ---------------------------------------------------------------- stops and restarts

  ghost predicate HasMarks(cell: Cell, isStopped: bool, isAsked: bool, isRestarted: bool) {
    && (cell.row.desired == WantStopped <==> isStopped)
    && (cell.child.Some? ==>
          var child := cell.child.value;
          && (child.isStopRequested <==> isAsked)
          && (child.isRestartRequested <==> isRestarted)
          && (child.process.isStopSignalled <==> isAsked || isRestarted))
  }

  ghost predicate NextMark(mark: bool, cell: Cell, nowUtc: int, step: CellStep, event: Event, reset: Event) {
    event(cell, nowUtc, step) || (!reset(cell, nowUtc, step) && mark)
  }

  lemma StepKeepsMarks(cell: Cell, nowUtc: int, step: CellStep, isStopped: bool, isAsked: bool, isRestarted: bool)
    requires CellInv(cell, nowUtc) && IsEnabled(cell, step) && HasMarks(cell, isStopped, isAsked, isRestarted)
    ensures HasMarks(AfterStep(cell, nowUtc, step), isStopped || step.WebStops?,
                     NextMark(isAsked, cell, nowUtc, step, IsStopRequest(), IsChildStart()),
                     NextMark(isRestarted, cell, nowUtc, step, IsRestartRequest(), IsChildStart()))
  {
    if step.CallReturns? {
      CallKeepsMarks(cell, nowUtc, isStopped, isAsked, isRestarted);
    } else if step.ChildSteps? {
      ChildKeepsMarks(cell, nowUtc, step.event, isStopped, isAsked, isRestarted);
    }
  }

  lemma CallKeepsMarks(cell: Cell, nowUtc: int, isStopped: bool, isAsked: bool, isRestarted: bool)
    requires CellInv(cell, nowUtc) && IsCalling(cell.await) && HasMarks(cell, isStopped, isAsked, isRestarted)
    ensures HasMarks(AfterCall(cell, nowUtc), isStopped,
                     NextMark(isAsked, cell, nowUtc, CallReturns, IsStopRequest(), IsChildStart()),
                     NextMark(isRestarted, cell, nowUtc, CallReturns, IsRestartRequest(), IsChildStart()))
  {
  }

  lemma ChildKeepsMarks(cell: Cell, nowUtc: int, event: ChildEvent, isStopped: bool, isAsked: bool, isRestarted: bool)
    requires CellInv(cell, nowUtc) && IsEnabled(cell, ChildSteps(event))
    requires HasMarks(cell, isStopped, isAsked, isRestarted)
    ensures HasMarks(AfterChildEvent(cell, nowUtc, event), isStopped, isAsked, isRestarted)
  {
  }

  ghost predicate AreMarks(states: seq<System>, steps: seq<SystemStep>, k: nat, index: nat)
    requires k <= |steps| < |states| && index < |states[k].cells|
  {
    HasMarks(states[k].cells[index],
             LastTime(states, steps, index, k, IsUserStop()).Some?,
             CameSince(states, steps, index, k, IsStopRequest(), IsChildStart()),
             CameSince(states, steps, index, k, IsRestartRequest(), IsChildStart()))
  }

  lemma StepIsMarked(states: seq<System>, steps: seq<SystemStep>, k: nat, index: nat)
    requires IsRun(states, steps) && k < |steps| && index < |states[k].cells| && AreMarks(states, steps, k, index)
    ensures index < |states[k + 1].cells| && AreMarks(states, steps, k + 1, index)
  {
    assert IsRunStep(states, steps, k);
    RunKeepsInv(states, steps, k);
    if steps[k].RowSteps? && steps[k].index == index {
      StepKeepsMarks(states[k].cells[index], states[k].nowUtc, steps[k].step,
                     LastTime(states, steps, index, k, IsUserStop()).Some?,
                     CameSince(states, steps, index, k, IsStopRequest(), IsChildStart()),
                     CameSince(states, steps, index, k, IsRestartRequest(), IsChildStart()));
    }
  }

  /**
   * In each run, a test wants to stop exactly after a stop of its user. A child has a stop request exactly when a
   * comparison since its start found a wanted stop while it ran, a restart mark exactly after a stock split without a
   * stop request, and a stop signal exactly with one of them.
   */
  lemma {:induction false} MarksAreOfSteps(states: seq<System>, steps: seq<SystemStep>, k: nat, index: nat)
    requires IsRun(states, steps) && k < |states| && index < |states[k].cells|
    ensures AreMarks(states, steps, k, index)
    decreases k
  {
    if k > 0 {
      if index < |states[k - 1].cells| {
        MarksAreOfSteps(states, steps, k - 1, index);
        StepIsMarked(states, steps, k - 1, index);
      } else {
        assert IsRunStep(states, steps, k - 1);
        NothingBeforeStart(states, steps, k, index);
      }
    }
  }

  /** In each run, a stop is wanted exactly after a stop of the user, and from the end time on. */
  lemma StopIsWantedBySteps(states: seq<System>, steps: seq<SystemStep>, k: nat, index: nat)
    requires IsRun(states, steps) && k < |states| && index < |states[k].cells|
    ensures var row := states[k].cells[index].row;
      IsStopWanted(row, states[k].nowUtc)
      <==> LastTime(states, steps, index, k, IsUserStop()).Some?
           || (row.endTimeUtc.Some? && row.endTimeUtc.value <= states[k].nowUtc)
  {
    MarksAreOfSteps(states, steps, k, index);
  }

  /** A row that is not there yet has no steps. */
  lemma {:induction false} NothingBeforeStart(states: seq<System>, steps: seq<SystemStep>, k: nat, index: nat)
    requires IsRun(states, steps) && 0 < k < |states| && index >= |states[k - 1].cells|
    ensures LastTime(states, steps, index, k, IsUserStop()).None?
  {
    assert IsRunStep(states, steps, k - 1);
    if k > 1 {
      assert IsRunStep(states, steps, k - 2);
      NothingBeforeStart(states, steps, k - 1, index);
    }
  }

  /** The worker's write of "stopping" returns. */
  function IsStoppingWrite(): Event {
    (cell: Cell, nowUtc: int, step: CellStep) => step.CallReturns? && cell.await.AtWriteStopping?
  }

  ghost predicate HasStopping(cell: Cell, isWritten: bool) {
    isWritten && cell.child.Some? ==> cell.row.status == Stopping && IsStopChild(cell.child.value)
  }

  lemma StepKeepsStopping(cell: Cell, nowUtc: int, step: CellStep, isWritten: bool)
    requires CellInv(cell, nowUtc) && IsEnabled(cell, step) && HasStopping(cell, isWritten)
    ensures HasStopping(AfterStep(cell, nowUtc, step),
                        NextMark(isWritten, cell, nowUtc, step, IsStoppingWrite(), IsChildStart()))
  {
    if step.CallReturns? {
      CallKeepsStopping(cell, nowUtc, isWritten);
    } else if step.ChildSteps? {
      ChildKeepsStopping(cell, nowUtc, step.event, isWritten);
    }
  }

  lemma CallKeepsStopping(cell: Cell, nowUtc: int, isWritten: bool)
    requires CellInv(cell, nowUtc) && IsCalling(cell.await) && HasStopping(cell, isWritten)
    ensures HasStopping(AfterCall(cell, nowUtc),
                        NextMark(isWritten, cell, nowUtc, CallReturns, IsStoppingWrite(), IsChildStart()))
  {
  }

  lemma ChildKeepsStopping(cell: Cell, nowUtc: int, event: ChildEvent, isWritten: bool)
    requires CellInv(cell, nowUtc) && IsEnabled(cell, ChildSteps(event)) && HasStopping(cell, isWritten)
    ensures HasStopping(AfterChildEvent(cell, nowUtc, event), isWritten)
  {
  }

  /** In each run, the status is "stopping" from the return of its write up to the end of the child that stops. */
  lemma {:induction false} StoppingStays(states: seq<System>, steps: seq<SystemStep>, k: nat, index: nat)
    requires IsRun(states, steps) && k < |states| && index < |states[k].cells|
    ensures HasStopping(states[k].cells[index],
                        CameSince(states, steps, index, k, IsStoppingWrite(), IsChildStart()))
    decreases k
  {
    if k > 0 {
      assert IsRunStep(states, steps, k - 1);
      if index < |states[k - 1].cells| {
        StoppingStays(states, steps, k - 1, index);
        RunKeepsInv(states, steps, k - 1);
        if steps[k - 1].RowSteps? && steps[k - 1].index == index {
          StepKeepsStopping(states[k - 1].cells[index], states[k - 1].nowUtc, steps[k - 1].step,
                            CameSince(states, steps, index, k - 1, IsStoppingWrite(), IsChildStart()));
        }
      }
    }
  }

  // ---------------------------------------------------------------- comparisons

  /** The worker alone is between 2 comparisons of the row. */
  lemma ComparisonsAreEnabled(states: seq<System>, steps: seq<SystemStep>, k: nat, index: nat)
    requires IsRun(states, steps) && k < |states| && index < |states[k].cells|
    ensures var cell := states[k].cells[index];
      IsEnabled(cell, WorkerSelects)
      <==> cell.await == AtIdle && cell.row.status != Stopped
           && !(cell.row.status == Failed && cell.row.clientId.None?)
  {
  }

  /** In each run, what a comparison goes on to: exactly when it starts a run child, or asks its child to stop. */
  lemma ComparisonDecides(states: seq<System>, steps: seq<SystemStep>, k: nat, index: nat, isReady: bool)
    requires IsRowStep(states, steps, k, index, WorkerCompares(isReady))
    ensures index < |states[k].cells| && index < |states[k + 1].cells|
    ensures states[k].cells[index].await.AtCompare?
    ensures var cell, next := states[k].cells[index], states[k + 1].cells[index];
      && (IsRunStart(next.await)
          <==> cell.child.None? && !IsStopWanted(cell.await.row, states[k].nowUtc)
               && IsActive(cell.await.row.status) && isReady)
      && (next.await == AtWriteStopping
          <==> IsStopRequest()(cell, states[k].nowUtc, steps[k].step) && !cell.child.value.isStopRequested)
  {
    RowStepOfRun(states, steps, k, index, WorkerCompares(isReady));
  }

  /** In each run, a call that fails ends the comparison and changes nothing else, so the next one tries again. */
  lemma FailedCallIsTriedAgain(states: seq<System>, steps: seq<SystemStep>, k: nat, index: nat)
    requires IsRowStep(states, steps, k, index, CallFails)
    ensures index < |states[k].cells| && index < |states[k + 1].cells|
    ensures states[k + 1].cells[index] == states[k].cells[index].(await := AtIdle)
    ensures IsEnabled(states[k + 1].cells[index], WorkerSelects)
  {
    RowStepOfRun(states, steps, k, index, CallFails);
  }

  /**
   * In each run, the death of the worker, at any time, ends all children and comparisons and changes no row, no
   * interruption, and no ledger. The clock changes nothing but the time.
   */
  lemma DeathAndClock(states: seq<System>, steps: seq<SystemStep>, k: nat)
    requires IsRun(states, steps) && k < |steps|
    ensures IsStepEnabled(states[k], WorkerDies)
    ensures steps[k].WorkerDies? ==>
              && states[k + 1].nowUtc == states[k].nowUtc && |states[k + 1].cells| == |states[k].cells|
              && forall i :: 0 <= i < |states[k].cells| ==>
                   states[k + 1].cells[i] == states[k].cells[i].(child := None, await := AtIdle)
    ensures steps[k].Tick? ==>
              && states[k + 1] == states[k].(nowUtc := steps[k].untilUtc)
              && states[k].nowUtc <= states[k + 1].nowUtc
  {
    assert IsRunStep(states, steps, k);
  }

  // ---------------------------------------------------------------- the causes of the interruptions

  ghost predicate IsCauseStep(states: seq<System>, steps: seq<SystemStep>, index: nat, m: nat, outage: Interruption)
    requires |steps| < |states|
  {
    && m < |steps| && index < |states[m].cells| && steps[m].RowSteps? && steps[m].index == index
    && IsCause(states[m].cells[index], states[m].nowUtc, steps[m].step, outage.reason, outage.startedAtUtc)
    && !HasOpen(states[m].cells[index].interruptions)
  }

  ghost predicate IsReliefStep(states: seq<System>, steps: seq<SystemStep>, index: nat, n: nat, endedAtUtc: int)
    requires |steps| < |states|
  {
    && n < |steps| && index < |states[n].cells| && steps[n].RowSteps? && steps[n].index == index
    && IsRelief(states[n].cells[index], states[n].nowUtc, steps[n].step, endedAtUtc)
  }

  /** An earlier step caused the interruption, and the first relief after it ended it. */
  ghost predicate HasHistory(states: seq<System>, steps: seq<SystemStep>, index: nat, k: nat, outage: Interruption)
    requires k <= |steps| < |states|
  {
    exists m :: 0 <= m < k && IsCauseStep(states, steps, index, m, outage)
      && (outage.endedAtUtc.None? ==> forall n :: m < n < k ==> !IsReliefAt(states, steps, index, n))
      && (outage.endedAtUtc.Some? ==> IsEndedIn(states, steps, index, m, k, outage.endedAtUtc.value))
  }

  ghost predicate IsReliefAt(states: seq<System>, steps: seq<SystemStep>, index: nat, n: nat)
    requires n < |steps| < |states|
  {
    && index < |states[n].cells| && steps[n].RowSteps? && steps[n].index == index
    && HasRelief(states[n].cells[index], steps[n].step)
  }

  ghost predicate IsEndedIn(states: seq<System>, steps: seq<SystemStep>, index: nat, m: nat, k: nat, endedAtUtc: int)
    requires k <= |steps| < |states|
  {
    exists n :: m < n < k && IsReliefStep(states, steps, index, n, endedAtUtc)
      && forall i :: m < i < n ==> !IsReliefAt(states, steps, index, i)
  }

  lemma HistoryStays(states: seq<System>, steps: seq<SystemStep>, index: nat, k: nat, outage: Interruption)
    requires k < |steps| < |states| && HasHistory(states, steps, index, k, outage)
    requires outage.endedAtUtc.Some? || !IsReliefAt(states, steps, index, k)
    ensures HasHistory(states, steps, index, k + 1, outage)
  {
    var m :| 0 <= m < k && IsCauseStep(states, steps, index, m, outage)
      && (outage.endedAtUtc.None? ==> forall n :: m < n < k ==> !IsReliefAt(states, steps, index, n))
      && (outage.endedAtUtc.Some? ==> IsEndedIn(states, steps, index, m, k, outage.endedAtUtc.value));
    if outage.endedAtUtc.Some? {
      var n :| m < n < k && IsReliefStep(states, steps, index, n, outage.endedAtUtc.value)
        && forall i :: m < i < n ==> !IsReliefAt(states, steps, index, i);
      assert IsEndedIn(states, steps, index, m, k + 1, outage.endedAtUtc.value);
    }
  }

  lemma HistoryEnds(states: seq<System>, steps: seq<SystemStep>, index: nat, k: nat, outage: Interruption,
                    endedAtUtc: int)
    requires k < |steps| < |states| && HasHistory(states, steps, index, k, outage) && outage.endedAtUtc.None?
    requires IsReliefStep(states, steps, index, k, endedAtUtc)
    ensures HasHistory(states, steps, index, k + 1, outage.(endedAtUtc := Some(endedAtUtc)))
  {
    var m :| 0 <= m < k && IsCauseStep(states, steps, index, m, outage)
      && forall n :: m < n < k ==> !IsReliefAt(states, steps, index, n);
    assert IsEndedIn(states, steps, index, m, k + 1, endedAtUtc);
    assert IsCauseStep(states, steps, index, m, outage.(endedAtUtc := Some(endedAtUtc)));
  }

  ghost predicate HaveHistory(states: seq<System>, steps: seq<SystemStep>, index: nat, k: nat)
    requires k <= |steps| < |states| && index < |states[k].cells|
  {
    forall i :: 0 <= i < |states[k].cells[index].interruptions| ==>
      HasHistory(states, steps, index, k, states[k].cells[index].interruptions[i])
  }

  lemma RowStepKeepsHistory(states: seq<System>, steps: seq<SystemStep>, index: nat, k: nat)
    requires IsRun(states, steps) && k < |steps| && index < |states[k].cells| && index < |states[k + 1].cells|
    requires steps[k].RowSteps? && steps[k].index == index && IsEnabled(states[k].cells[index], steps[k].step)
    requires states[k + 1].cells[index] == AfterStep(states[k].cells[index], states[k].nowUtc, steps[k].step)
    requires CellInv(states[k].cells[index], states[k].nowUtc) && RestartInv(states[k].cells[index])
    requires HaveHistory(states, steps, index, k)
    ensures HaveHistory(states, steps, index, k + 1)
  {
    var cell, step := states[k].cells[index], steps[k].step;
    var before, after := cell.interruptions, states[k + 1].cells[index].interruptions;
    StepChangesInterruptions(cell, states[k].nowUtc, step);
    forall i | 0 <= i < |after| ensures HasHistory(states, steps, index, k + 1, after[i]) {
      if HasRelief(cell, step) && before[i].endedAtUtc.None? {
        HistoryEnds(states, steps, index, k, before[i], after[i].endedAtUtc.value);
        assert after[i] == before[i].(endedAtUtc := Some(after[i].endedAtUtc.value));
      } else if i < |before| {
        assert after[i] == before[i];
        HistoryStays(states, steps, index, k, before[i]);
      } else {
        assert IsCauseStep(states, steps, index, k, after[i]);
      }
    }
  }

  /** A step of another party keeps the interruptions of the row. */
  lemma OtherStepKeepsHistory(states: seq<System>, steps: seq<SystemStep>, index: nat, k: nat)
    requires IsRun(states, steps) && k < |steps| && index < |states[k].cells|
    requires !(steps[k].RowSteps? && steps[k].index == index) && HaveHistory(states, steps, index, k)
    ensures index < |states[k + 1].cells| && HaveHistory(states, steps, index, k + 1)
  {
    assert IsRunStep(states, steps, k);
    var after := states[k + 1].cells[index].interruptions;
    forall i | 0 <= i < |after| ensures HasHistory(states, steps, index, k + 1, after[i]) {
      HistoryStays(states, steps, index, k, after[i]);
    }
  }

  lemma StepKeepsHistory(states: seq<System>, steps: seq<SystemStep>, index: nat, k: nat)
    requires IsRun(states, steps) && k < |steps| && index < |states[k].cells|
    requires HaveHistory(states, steps, index, k) && RestartInv(states[k].cells[index])
    ensures index < |states[k + 1].cells|
    ensures HaveHistory(states, steps, index, k + 1) && RestartInv(states[k + 1].cells[index])
  {
    assert IsRunStep(states, steps, k);
    if steps[k].RowSteps? && steps[k].index == index {
      RowStepOfRun(states, steps, k, index, steps[k].step);
      StepChangesInterruptions(states[k].cells[index], states[k].nowUtc, steps[k].step);
      RowStepKeepsHistory(states, steps, index, k);
    } else {
      OtherStepKeepsHistory(states, steps, index, k);
    }
  }

  /**
   * In each run, each interruption has a cause at its start: a wait for IB Gateway, a lost gateway, a crash, or a
   * restart of the worker. It is open exactly until the next live start of a child or the end of the test.
   */
  lemma {:induction false} InterruptionsHaveCauses(states: seq<System>, steps: seq<SystemStep>, index: nat, k: nat)
    requires IsRun(states, steps) && k < |states| && index < |states[k].cells|
    ensures HaveHistory(states, steps, index, k) && RestartInv(states[k].cells[index])
    decreases k
  {
    if k > 0 {
      if index < |states[k - 1].cells| {
        InterruptionsHaveCauses(states, steps, index, k - 1);
        StepKeepsHistory(states, steps, index, k - 1);
      } else {
        assert IsRunStep(states, steps, k - 1);
      }
    }
  }
}
