/** When a run child can still start after a stop. */
module ForwardTestStops {
  import opened Sequences
  import opened ForwardTestStore
  import opened ForwardTestWorker
  import opened ForwardTestProtocol
  import opened ForwardTestRuns
  import opened ForwardTestLaws

  // ---------------------------------------------------------------- starts after a stop

  ghost predicate IsContinuation(states: seq<System>, steps: seq<SystemStep>, longer: seq<System>,
                                 longerSteps: seq<SystemStep>) {
    IsRun(longer, longerSteps) && states <= longer && steps <= longerSteps
  }

  /** In a continuation of the run, a run child of the row starts. */
  ghost predicate StartsLater(states: seq<System>, steps: seq<SystemStep>, index: nat)
    requires |states| == |steps| + 1 && index < |states[|steps|].cells|
  {
    exists longer, longerSteps :: StartsIn(states, steps, index, longer, longerSteps)
  }

  ghost predicate StartsIn(states: seq<System>, steps: seq<SystemStep>, index: nat, longer: seq<System>,
                           longerSteps: seq<SystemStep>)
    requires |states| == |steps| + 1 && index < |states[|steps|].cells|
  {
    && IsContinuation(states, steps, longer, longerSteps)
    && index < |longer[|longerSteps|].cells|
    && longer[|longerSteps|].cells[index].runStarts > states[|steps|].cells[index].runStarts
  }

  /** One more step of the row. */
  lemma GoRow(states: seq<System>, steps: seq<SystemStep>, index: nat, step: CellStep)
    returns (longer: seq<System>, longerSteps: seq<SystemStep>)
    requires IsRun(states, steps) && index < |states[|steps|].cells| && IsEnabled(states[|steps|].cells[index], step)
    ensures IsContinuation(states, steps, longer, longerSteps) && |longerSteps| == |steps| + 1
    ensures longer[|longerSteps|].nowUtc == states[|steps|].nowUtc
    ensures index < |longer[|longerSteps|].cells|
    ensures longer[|longerSteps|].cells[index] == AfterStep(states[|steps|].cells[index], states[|steps|].nowUtc, step)
  {
    ExtendRun(states, steps, RowSteps(index, step));
    longer := states + [AfterSystemStep(states[|steps|], RowSteps(index, step))];
    longerSteps := steps + [RowSteps(index, step)];
  }

  /** The worker is at the call that starts the child, or one call before it. */
  lemma StartReturns(states: seq<System>, steps: seq<SystemStep>, index: nat)
    returns (longer: seq<System>, longerSteps: seq<SystemStep>)
    requires IsRun(states, steps) && index < |states[|steps|].cells|
    requires IsRunStart(states[|steps|].cells[index].await)
    ensures StartsIn(states, steps, index, longer, longerSteps)
  {
    longer, longerSteps := GoRow(states, steps, index, CallReturns);
    if states[|steps|].cells[index].await.AtRestartInterruption? {
      longer, longerSteps := GoRow(longer, longerSteps, index, CallReturns);
    }
  }

  lemma StartFollows(states: seq<System>, steps: seq<SystemStep>, index: nat)
    requires IsRun(states, steps) && index < |states[|steps|].cells|
    requires CanStillStart(states[|steps|].cells[index], states[|steps|].nowUtc)
    ensures StartsLater(states, steps, index)
  {
    var longer, longerSteps := states, steps;
    if !IsRunStart(states[|steps|].cells[index].await) {
      longer, longerSteps := GoRow(states, steps, index, WorkerCompares(true));
    }
    longer, longerSteps := StartReturns(longer, longerSteps, index);
    assert StartsIn(states, steps, index, longer, longerSteps);
  }

  lemma NoStartFollows(states: seq<System>, steps: seq<SystemStep>, index: nat, longer: seq<System>,
                       longerSteps: seq<SystemStep>)
    requires IsRun(states, steps) && index < |states[|steps|].cells|
    requires IsStopSeen(states[|steps|].cells[index], states[|steps|].nowUtc)
    ensures !StartsIn(states, steps, index, longer, longerSteps)
  {
    if IsContinuation(states, steps, longer, longerSteps) {
      NoRunStartAfterSeenStop(longer, longerSteps, index, |steps|, |longerSteps|);
    }
  }

  /**
   * After a stop, or the end time, a run child can start again exactly when the worker is at the call
   * of a start, or holds a row without a stop that it has not compared, and the test has no child.
   */
  lemma StartAfterStop(states: seq<System>, steps: seq<SystemStep>, index: nat)
    requires IsRun(states, steps) && index < |states[|steps|].cells|
    requires IsStopWanted(states[|steps|].cells[index].row, states[|steps|].nowUtc)
    ensures StartsLater(states, steps, index) <==> CanStillStart(states[|steps|].cells[index], states[|steps|].nowUtc)
  {
    if CanStillStart(states[|steps|].cells[index], states[|steps|].nowUtc) {
      StartFollows(states, steps, index);
    } else {
      forall longer, longerSteps ensures !StartsIn(states, steps, index, longer, longerSteps) {
        NoStartFollows(states, steps, index, longer, longerSteps);
      }
    }
  }
}
