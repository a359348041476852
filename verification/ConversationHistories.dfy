/** The runs, the aborts, and the deletes of one conversation by the steps of a history. */
module ConversationHistories {
  import opened Sequences
  import opened Conversations

  predicate IsAbort(step: Step) { step.UserAborts? || step.StartDelete? }

  /** An abort came after the start of the run. */
  ghost predicate WasAborted(states: seq<State>, steps: seq<Step>, run: RunId, k: nat)
    requires k <= |steps| < |states|
  {
    k > 0 && ((IsAbort(steps[k - 1]) && run < |states[k - 1].runs|) || WasAborted(states, steps, run, k - 1))
  }

  /** The own steps of a run after its start, each with whether an abort came before it. */
  datatype Entry = Entry(step: Step, isAborted: bool)

  predicate IsStepOf(step: Step, run: RunId) {
    match step
    case OpenReturns(other) => other == run
    case CreateReturns(other) => other == run
    case CallFails(other) => other == run
    case PromptEnds(other) => other == run
    case Cleanup(other) => other == run
    case _ => false
  }

  ghost function RunLog(states: seq<State>, steps: seq<Step>, run: RunId, k: nat): seq<Entry>
    requires k <= |steps| < |states|
  {
    if k == 0 then []
    else RunLog(states, steps, run, k - 1)
         + if IsStepOf(steps[k - 1], run) then [Entry(steps[k - 1], WasAborted(states, steps, run, k - 1))] else []
  }

  /** The session is there and gets its prompt: no abort came before. */
  predicate IsPrompt(entry: Entry) { entry.step.CreateReturns? && !entry.isAborted }

  /**
   * What can come next: the model, the session, the end of the prompt, and the cleanup. A call that fails, and an abort
   * before the session, lead to the cleanup at once.
   */
  predicate CanFollow(log: seq<Entry>, step: Step) {
    if log == [] then step.OpenReturns? || step.CallFails?
    else
      var last := log[|log| - 1];
      match last.step
      case OpenReturns(_) => if last.isAborted then step.Cleanup? else step.CreateReturns? || step.CallFails?
      case CreateReturns(_) => if last.isAborted then step.Cleanup? else step.PromptEnds?
      case CallFails(_) => step.Cleanup?
      case PromptEnds(_) => step.Cleanup?
      case _ => false
  }

  predicate IsPlaceAfter(place: RunPlace, log: seq<Entry>) {
    if log == [] then place == Opening
    else
      var last := log[|log| - 1];
      match last.step
      case OpenReturns(_) => place == (if last.isAborted then Settled else Creating)
      case CreateReturns(_) => place == (if last.isAborted then Settled else Prompting)
      case CallFails(_) => place == Settled
      case PromptEnds(_) => place == Settled
      case _ => place == Ended
  }

  /** The run by its steps. `isAborted`: an abort came after its start. */
  ghost predicate IsRunOf(state: State, run: RunId, log: seq<Entry>, isAborted: bool)
    requires run < |state.runs|
  {
    && IsPlaceAfter(state.runs[run].place, log)
    && (state.runs[run].isPrompted <==> exists i :: 0 <= i < |log| && IsPrompt(log[i]))
    && (state.conversation.active == Some(run) && state.conversation.session.None? ==>
          (state.conversation.isAborted <==> isAborted))
  }

  /** The collections by the runs: the active run is the one that has not ended, and a prompted one has its session. */
  ghost predicate IsOfRuns(state: State) {
    && (forall run: RunId :: run < |state.runs| ==>
          (state.conversation.active == Some(run) <==> state.runs[run].place != Ended))
    && (state.conversation.active.Some? ==>
          && state.conversation.active.value < |state.runs|
          && state.conversation.session
             == if state.runs[state.conversation.active.value].isPrompted then state.conversation.active else None)
    && (state.conversation.active.None? ==> state.conversation == IDLE)
  }

  lemma InvGivesCollections(state: State)
    requires Inv(state)
    ensures IsOfRuns(state)
  {
  }

  lemma EnabledCanFollow(state: State, run: RunId, log: seq<Entry>, step: Step)
    requires run < |state.runs| && IsPlaceAfter(state.runs[run].place, log) && IsStepOf(step, run)
    ensures IsEnabled(state, step) <==> CanFollow(log, step)
  {
  }

  lemma OwnStepIsLogged(state: State, run: RunId, log: seq<Entry>, isAborted: bool, step: Step)
    requires Inv(state) && run < |state.runs| && IsRunOf(state, run, log, isAborted)
    requires IsEnabled(state, step) && IsStepOf(step, run)
    ensures run < |After(state, step).runs|
    ensures IsRunOf(After(state, step), run, log + [Entry(step, isAborted)], isAborted)
  {
    var longer := log + [Entry(step, isAborted)];
    assert forall i :: 0 <= i < |log| ==> longer[i] == log[i];
    if step.CreateReturns? && !isAborted {
      assert IsPrompt(longer[|log|]);
    }
    if i :| 0 <= i < |log| && IsPrompt(log[i]) {
      assert IsPrompt(longer[i]);
    }
  }

  lemma OtherStepIsLogged(state: State, run: RunId, log: seq<Entry>, isAborted: bool, step: Step)
    requires Inv(state) && run < |state.runs| && IsRunOf(state, run, log, isAborted)
    requires IsEnabled(state, step) && !IsStepOf(step, run)
    ensures run < |After(state, step).runs|
    ensures IsRunOf(After(state, step), run, log, isAborted || IsAbort(step))
  {
  }

  /** A new run has no steps and no abort. */
  lemma {:induction false} NothingBeforeStart(states: seq<State>, steps: seq<Step>, run: RunId, k: nat)
    requires IsHistory(states, steps) && k < |states| && run >= |states[k].runs|
    ensures RunLog(states, steps, run, k) == [] && !WasAborted(states, steps, run, k)
  {
    if k > 0 {
      assert IsHistoryStep(states, steps, k - 1);
      NothingBeforeStart(states, steps, run, k - 1);
    }
  }

  lemma StepIsLogged(states: seq<State>, steps: seq<Step>, run: RunId, k: nat)
    requires IsHistory(states, steps) && k < |steps| && run < |states[k].runs|
    requires IsRunOf(states[k], run, RunLog(states, steps, run, k), WasAborted(states, steps, run, k))
    ensures run < |states[k + 1].runs|
    ensures IsRunOf(states[k + 1], run, RunLog(states, steps, run, k + 1), WasAborted(states, steps, run, k + 1))
  {
    HistoryKeepsInv(states, steps, k);
    assert IsHistoryStep(states, steps, k);
    var log, isAborted := RunLog(states, steps, run, k), WasAborted(states, steps, run, k);
    if IsStepOf(steps[k], run) {
      OwnStepIsLogged(states[k], run, log, isAborted, steps[k]);
    } else {
      OtherStepIsLogged(states[k], run, log, isAborted, steps[k]);
      assert log + [] == log;
    }
  }

  lemma {:induction false} HistoryIsLogged(states: seq<State>, steps: seq<Step>, run: RunId, k: nat)
    requires IsHistory(states, steps) && k < |states| && run < |states[k].runs|
    ensures IsRunOf(states[k], run, RunLog(states, steps, run, k), WasAborted(states, steps, run, k))
  {
    if k > 0 {
      assert IsHistoryStep(states, steps, k - 1);
      if run < |states[k - 1].runs| {
        HistoryIsLogged(states, steps, run, k - 1);
        StepIsLogged(states, steps, run, k - 1);
      } else {
        NothingBeforeStart(states, steps, run, k - 1);
        HistoryKeepsInv(states, steps, k - 1);
      }
    }
  }

  /**
   * In every interleaving, the next step of a run can be exactly one that its earlier steps allow: an abort before the
   * session leads to the cleanup, and a run is prompted exactly when its session came without one.
   */
  lemma RunFollowsProgram(states: seq<State>, steps: seq<Step>, run: RunId, k: nat, step: Step)
    requires IsHistory(states, steps) && k < |states| && run < |states[k].runs| && IsStepOf(step, run)
    ensures var log := RunLog(states, steps, run, k);
      && (IsEnabled(states[k], step) <==> CanFollow(log, step))
      && (states[k].runs[run].isPrompted <==> exists i :: 0 <= i < |log| && IsPrompt(log[i]))
  {
    HistoryIsLogged(states, steps, run, k);
    EnabledCanFollow(states[k], run, RunLog(states, steps, run, k), step);
  }

  /** Whether the run has had its cleanup. */
  ghost predicate IsCleanedUp(states: seq<State>, steps: seq<Step>, run: RunId, k: nat)
    requires k <= |steps| < |states|
  {
    var log := RunLog(states, steps, run, k);
    log != [] && log[|log| - 1].step.Cleanup?
  }

  lemma EndedIsCleanedUp(states: seq<State>, steps: seq<Step>, run: RunId, k: nat)
    requires IsHistory(states, steps) && k < |states| && run < |states[k].runs|
    ensures states[k].runs[run].place == Ended <==> IsCleanedUp(states, steps, run, k)
  {
    HistoryIsLogged(states, steps, run, k);
    if RunLog(states, steps, run, k) != [] {
      LogHasOwnSteps(states, steps, run, k);
    }
  }

  lemma {:induction false} LogHasOwnSteps(states: seq<State>, steps: seq<Step>, run: RunId, k: nat)
    requires k <= |steps| < |states|
    ensures forall entry <- RunLog(states, steps, run, k) :: IsStepOf(entry.step, run)
  {
    if k > 0 {
      LogHasOwnSteps(states, steps, run, k - 1);
    }
  }

  /** In every interleaving, a run starts exactly when all earlier ones had their cleanup. Else nothing changes. */
  lemma RunStartsWhenIdle(states: seq<State>, steps: seq<Step>, k: nat)
    requires IsHistory(states, steps) && k < |steps| && steps[k].StartRun?
    ensures if forall run: RunId :: run < |states[k].runs| ==> IsCleanedUp(states, steps, run, k)
            then states[k + 1].runs == states[k].runs + [Run(Opening, false, false)]
                 && states[k + 1].conversation.active == Some(|states[k].runs|)
            else states[k + 1] == states[k]
  {
    HistoryKeepsInv(states, steps, k);
    assert IsHistoryStep(states, steps, k);
    InvGivesCollections(states[k]);
    forall run: RunId | run < |states[k].runs|
      ensures states[k].runs[run].place == Ended <==> IsCleanedUp(states, steps, run, k)
    {
      EndedIsCleanedUp(states, steps, run, k);
    }
    if states[k].conversation.active.None? {
      assert forall run: RunId :: run < |states[k].runs| ==> IsCleanedUp(states, steps, run, k);
    } else {
      assert !IsCleanedUp(states, steps, states[k].conversation.active.value, k);
    }
  }

  /** An abort reaches the session of a run exactly while the run has one. */
  lemma AbortReachesSession(states: seq<State>, steps: seq<Step>, k: nat, run: RunId)
    requires IsHistory(states, steps) && k < |steps| && run < |states[k].runs|
    ensures run < |states[k + 1].runs|
    ensures states[k + 1].runs[run].gotAbort
       <==> states[k].runs[run].gotAbort
            || (IsAbort(steps[k]) && states[k].runs[run].isPrompted && states[k].runs[run].place != Ended)
  {
    HistoryKeepsInv(states, steps, k);
    assert IsHistoryStep(states, steps, k);
    InvGivesCollections(states[k]);
  }

  // ---------------------------------------------------------------- deletes

  /** What a delete waits for once its abort returned. */
  function AfterWait(state: State): DeletePlace {
    match state.conversation.active
    case None => Removed
    case Some(run) => WaitingForRun(run)
  }

  /**
   * In every interleaving, each delete stops the run that is active then. It first waits for the abort of a session,
   * then for the run that is active, and removes the file at the end of this run, or at once without one.
   */
  lemma DeletesAreOfSteps(states: seq<State>, steps: seq<Step>, k: nat)
    requires IsHistory(states, steps) && k < |steps|
    ensures var before, after := states[k].deletes, states[k + 1].deletes;
      && |after| == |before| + (if steps[k].StartDelete? then 1 else 0)
      && (forall i :: 0 <= i < |before| ==>
            && after[i].stopped == before[i].stopped
            && after[i].place
               == if steps[k] == AbortReturns(i) then AfterWait(states[k])
                  else if steps[k].Cleanup? && before[i].place == WaitingForRun(steps[k].run) then Removed
                  else before[i].place)
      && (steps[k].StartDelete? ==>
            && after[|before|].stopped == states[k].conversation.active
            && after[|before|].place
               == if states[k].conversation.session.Some? then Aborting else AfterWait(states[k]))
  {
    assert IsHistoryStep(states, steps, k);
  }

  /** The abort of a delete can return exactly while the delete waits for it, and the requests can come at any time. */
  lemma RequestsAreEnabled(state: State, index: nat)
    ensures IsEnabled(state, StartRun) && IsEnabled(state, UserAborts) && IsEnabled(state, StartDelete)
    ensures IsEnabled(state, AbortReturns(index)) <==> index < |state.deletes| && state.deletes[index].place == Aborting
  {
  }
}
