/** The assistant conversations: the active run, an abort before its session exists, and the session of the run. */
module Conversations {
  import opened Sequences

  type ConversationId = string
  type RunId = nat

  /** What the 3 collections hold for one conversation. */
  datatype Conversation = Conversation(active: Option<RunId>, isAborted: bool, session: Option<RunId>)

  const IDLE := Conversation(None, false, None)

  /** A second run of an active conversation gets an error event and changes nothing. */
  function Begin(conversation: Conversation, run: RunId): Conversation {
    if conversation.active.Some? then conversation else conversation.(active := Some(run))
  }

  function OpenSession(conversation: Conversation, run: RunId): Conversation {
    if conversation.isAborted then conversation else conversation.(session := Some(run))
  }

  function Finish(conversation: Conversation): Conversation { IDLE }

  /** The mark of an abort before the session exists. With a session, the abort goes to it. */
  function MarkAbort(conversation: Conversation): Conversation {
    if conversation.active.Some? && conversation.session.None? then conversation.(isAborted := true) else conversation
  }

  class Conversations {
    var activeRuns: map<ConversationId, RunId>
    var abortedRuns: set<ConversationId>
    var sessions: map<ConversationId, RunId>

    function StateOf(id: ConversationId): Conversation
      reads this
    {
      Conversation(if id in activeRuns then Some(activeRuns[id]) else None, id in abortedRuns,
                   if id in sessions then Some(sessions[id]) else None)
    }

    constructor ()
      ensures forall id :: StateOf(id) == IDLE
    {
      activeRuns, abortedRuns, sessions := map[], {}, map[];
    }

    method BeginRun(id: ConversationId, run: RunId) returns (isStarted: bool)
      modifies this
      ensures isStarted == old(StateOf(id)).active.None? && StateOf(id) == Begin(old(StateOf(id)), run)
      ensures forall other :: other != id ==> StateOf(other) == old(StateOf(other))
    {
      if id in activeRuns {
        return false;
      }
      activeRuns := activeRuns[id := run];
      return true;
    }

    /** After the session is created: an aborted run drops it. */
    method KeepSession(id: ConversationId, run: RunId) returns (isKept: bool)
      modifies this
      ensures isKept == !old(StateOf(id)).isAborted && StateOf(id) == OpenSession(old(StateOf(id)), run)
      ensures forall other :: other != id ==> StateOf(other) == old(StateOf(other))
    {
      if id in abortedRuns {
        return false;
      }
      sessions := sessions[id := run];
      return true;
    }

    method FinishRun(id: ConversationId)
      modifies this
      ensures StateOf(id) == Finish(old(StateOf(id)))
      ensures forall other :: other != id ==> StateOf(other) == old(StateOf(other))
    {
      sessions := sessions - {id};
      abortedRuns := abortedRuns - {id};
      activeRuns := activeRuns - {id};
    }

    /** `target`: the session that gets the abort. */
    method Abort(id: ConversationId) returns (target: Option<RunId>)
      modifies this
      ensures StateOf(id) == MarkAbort(old(StateOf(id)))
      ensures target == if old(StateOf(id)).active.Some? then old(StateOf(id)).session else None
      ensures forall other :: other != id ==> StateOf(other) == old(StateOf(other))
    {
      if id !in activeRuns {
        return None;
      }
      if id !in sessions {
        abortedRuns := abortedRuns + {id};
        return None;
      }
      return Some(sessions[id]);
    }
  }

  // ---------------------------------------------------------------- the interleavings of one conversation

  /** Where a run is: an await of `runSession`, or between its end and the cleanup. */
  datatype RunPlace = Opening | Creating | Prompting | Settled | Ended

  /** `gotAbort`: an abort reached the session. */
  datatype Run = Run(place: RunPlace, isPrompted: bool, gotAbort: bool)

  /** Where a delete is: an await of it, or after the file is gone. */
  datatype DeletePlace = Aborting | WaitingForRun(run: RunId) | Removed

  /** `stopped`: the active run at the start. */
  datatype Delete = Delete(stopped: Option<RunId>, place: DeletePlace)

  datatype State = State(conversation: Conversation, runs: seq<Run>, deletes: seq<Delete>)

  datatype Step =
    | StartRun
    | OpenReturns(run: RunId)
    | CreateReturns(run: RunId)
    | CallFails(run: RunId)
    | PromptEnds(run: RunId)
    | Cleanup(run: RunId)
    | UserAborts
    | StartDelete
    | AbortReturns(index: nat)

  predicate IsAt(state: State, run: RunId, place: RunPlace) { run < |state.runs| && state.runs[run].place == place }

  predicate HasEnded(state: State, run: Option<RunId>) {
    run.None? || IsAt(state, run.value, Ended)
  }

  predicate IsEnabled(state: State, step: Step) {
    match step
    case StartRun => true
    case OpenReturns(run) => IsAt(state, run, Opening)
    case CreateReturns(run) => IsAt(state, run, Creating)
    case CallFails(run) => IsAt(state, run, Opening) || IsAt(state, run, Creating)
    case PromptEnds(run) => IsAt(state, run, Prompting)
    case Cleanup(run) => IsAt(state, run, Settled)
    case UserAborts => true
    case StartDelete => true
    case AbortReturns(index) => index < |state.deletes| && state.deletes[index].place.Aborting?
  }

  function MoveRun(state: State, run: RunId, place: RunPlace): State
    requires run < |state.runs|
  {
    state.(runs := state.runs[run := state.runs[run].(place := place)])
  }

  function AfterAbort(state: State): State {
    var conversation := state.conversation;
    var marked := state.(conversation := MarkAbort(conversation));
    if conversation.active.Some? && conversation.session.Some? && conversation.session.value < |state.runs| then
      var run := conversation.session.value;
      marked.(runs := state.runs[run := state.runs[run].(gotAbort := true)])
    else
      marked
  }

  /** A settled await goes on before any request: the deletes that wait for the run remove the file at its end. */
  function RemoveWaiting(deletes: seq<Delete>, run: RunId): (after: seq<Delete>)
    ensures |after| == |deletes|
    ensures forall i :: 0 <= i < |deletes| ==>
              after[i] == if deletes[i].place == WaitingForRun(run) then deletes[i].(place := Removed) else deletes[i]
  {
    seq(|deletes|, i requires 0 <= i < |deletes| =>
      if deletes[i].place == WaitingForRun(run) then deletes[i].(place := Removed) else deletes[i])
  }

  /** After the abort: with no active run, the file goes at once. */
  function WaitOrRemove(active: Option<RunId>): DeletePlace {
    if active.None? then Removed else WaitingForRun(active.value)
  }

  function After(state: State, step: Step): State
    requires IsEnabled(state, step)
  {
    var conversation := state.conversation;
    match step
    case StartRun =>
      state.(conversation := Begin(conversation, |state.runs|),
             runs := state.runs + if conversation.active.Some? then [] else [Run(Opening, false, false)])
    case OpenReturns(run) => MoveRun(state, run, if conversation.isAborted then Settled else Creating)
    case CreateReturns(run) =>
      var kept := state.(conversation := OpenSession(conversation, run));
      if conversation.isAborted then MoveRun(kept, run, Settled)
      else kept.(runs := state.runs[run := state.runs[run].(place := Prompting, isPrompted := true)])
    case CallFails(run) => MoveRun(state, run, Settled)
    case PromptEnds(run) => MoveRun(state, run, Settled)
    case Cleanup(run) =>
      MoveRun(state, run, Ended).(conversation := Finish(conversation), deletes := RemoveWaiting(state.deletes, run))
    case UserAborts => AfterAbort(state)
    case StartDelete =>
      var place := if conversation.session.Some? then Aborting else WaitOrRemove(conversation.active);
      AfterAbort(state).(deletes := state.deletes + [Delete(conversation.active, place)])
    case AbortReturns(index) =>
      state.(deletes := state.deletes[index := state.deletes[index].(place := WaitOrRemove(conversation.active))])
  }

  predicate HasPrompt(run: Run) {
    run.isPrompted && (run.place == Prompting || run.place == Settled)
  }

  /** Only the active run is not ended. A mark is on a run that has no session, and a session is of the active run. */
  ghost predicate RunInv(state: State) {
    var conversation := state.conversation;
    && (forall run: RunId :: run < |state.runs| && state.runs[run].place != Ended ==> conversation.active == Some(run))
    && (conversation.active.Some? ==>
          conversation.active.value < |state.runs| && state.runs[conversation.active.value].place != Ended)
    && (conversation.session.Some? ==>
          conversation.session == conversation.active && HasPrompt(state.runs[conversation.active.value]))
    && (conversation.isAborted ==> conversation.active.Some? && conversation.session.None?)
    && (forall run: RunId :: run < |state.runs| && state.runs[run].place == Prompting ==> state.runs[run].isPrompted)
    && (forall run: RunId :: run < |state.runs| && state.runs[run].isPrompted && state.runs[run].place != Ended ==>
          conversation.session == Some(run))
    && (forall run: RunId ::
          run < |state.runs| && (state.runs[run].place == Opening || state.runs[run].place == Creating) ==>
          !state.runs[run].isPrompted && conversation.session.None?)
  }

  /** A delete waits for the active run only. The run that it stopped is this one, or over. */
  ghost predicate DeleteInv(state: State, delete: Delete) {
    && (delete.stopped.Some? ==> delete.stopped.value < |state.runs|)
    && match delete.place
       case Aborting => true
       case WaitingForRun(run) =>
         state.conversation.active == Some(run) && (delete.stopped == Some(run) || HasEnded(state, delete.stopped))
       case Removed => HasEnded(state, delete.stopped)
  }

  ghost predicate Inv(state: State) {
    RunInv(state) && forall i :: 0 <= i < |state.deletes| ==> DeleteInv(state, state.deletes[i])
  }

  lemma RunStepKeepsRunInv(state: State, step: Step)
    requires RunInv(state) && IsEnabled(state, step)
    ensures RunInv(After(state, step))
  {
  }

  /** An ended run stays ended. */
  lemma EndedStaysEnded(state: State, step: Step, run: Option<RunId>)
    requires RunInv(state) && IsEnabled(state, step) && HasEnded(state, run)
    ensures HasEnded(After(state, step), run)
  {
  }

  lemma StepKeepsInv(state: State, step: Step)
    requires Inv(state) && IsEnabled(state, step)
    ensures Inv(After(state, step))
  {
    RunStepKeepsRunInv(state, step);
    var next := After(state, step);
    forall i | 0 <= i < |next.deletes| ensures DeleteInv(next, next.deletes[i]) {
      if i < |state.deletes| {
        DeleteStays(state, step, i);
      }
    }
  }

  lemma DeleteStays(state: State, step: Step, i: nat)
    requires Inv(state) && IsEnabled(state, step) && i < |state.deletes|
    ensures var next := After(state, step); i < |next.deletes| && DeleteInv(next, next.deletes[i])
  {
    var delete := state.deletes[i];
    assert DeleteInv(state, delete);
    if HasEnded(state, delete.stopped) {
      EndedStaysEnded(state, step, delete.stopped);
    }
  }

  // ---------------------------------------------------------------- runs of the protocol

  ghost predicate IsHistoryStep(states: seq<State>, steps: seq<Step>, k: nat)
    requires k < |steps| < |states|
  {
    IsEnabled(states[k], steps[k]) && states[k + 1] == After(states[k], steps[k])
  }

  ghost predicate IsHistory(states: seq<State>, steps: seq<Step>) {
    && |states| == |steps| + 1 && states[0] == State(IDLE, [], [])
    && forall k :: 0 <= k < |steps| ==> IsHistoryStep(states, steps, k)
  }

  lemma {:induction false} HistoryKeepsInv(states: seq<State>, steps: seq<Step>, k: nat)
    requires IsHistory(states, steps) && k < |states|
    ensures Inv(states[k])
  {
    if k > 0 {
      HistoryKeepsInv(states, steps, k - 1);
      assert IsHistoryStep(states, steps, k - 1);
      StepKeepsInv(states[k - 1], steps[k - 1]);
    }
  }

  /** At most 1 run of the conversation is active, and no abort mark is left when none is. */
  lemma OneActiveRun(states: seq<State>, steps: seq<Step>, k: nat)
    requires IsHistory(states, steps) && k < |states|
    ensures forall a, b :: 0 <= a < b < |states[k].runs| ==>
              states[k].runs[a].place == Ended || states[k].runs[b].place == Ended
    ensures states[k].conversation.active.None? ==> states[k].conversation == IDLE
    ensures k < |steps| && steps[k].StartRun? && states[k].conversation.active.None? ==>
              !states[k + 1].conversation.isAborted
  {
    HistoryKeepsInv(states, steps, k);
    if k < |steps| {
      assert IsHistoryStep(states, steps, k);
    }
    assert RunInv(states[k]);
  }

  /** The abort reached the session of the run, or the run has no prompt and gets none. */
  ghost predicate IsStopped(state: State, run: RunId) {
    && run < |state.runs|
    && (state.runs[run].gotAbort
        || (!state.runs[run].isPrompted
            && (state.runs[run].place == Settled || state.runs[run].place == Ended
                || (state.conversation.active == Some(run) && state.conversation.isAborted))))
  }

  lemma AbortStops(state: State, run: RunId)
    requires RunInv(state) && state.conversation.active == Some(run)
    ensures IsStopped(AfterAbort(state), run)
  {
  }

  lemma StoppedStays(state: State, step: Step, run: RunId)
    requires RunInv(state) && IsEnabled(state, step) && IsStopped(state, run)
    ensures IsStopped(After(state, step), run)
  {
  }

  /**
   * An abort of an active run, also of a delete, is never lost:
   * it reaches the session, or the run ends without a prompt.
   */
  lemma {:induction false} AbortsAreNotLost(states: seq<State>, steps: seq<Step>, run: RunId, i: nat, j: nat)
    requires IsHistory(states, steps) && i < j < |states|
    requires (steps[i].UserAborts? || steps[i].StartDelete?) && states[i].conversation.active == Some(run)
    ensures IsStopped(states[j], run)
    ensures states[j].runs[run].gotAbort || !states[j].runs[run].isPrompted
    decreases j
  {
    HistoryKeepsInv(states, steps, j - 1);
    assert IsHistoryStep(states, steps, j - 1);
    if i == j - 1 {
      AbortStops(states[i], run);
    } else {
      AbortsAreNotLost(states, steps, run, i, j - 1);
      StoppedStays(states[j - 1], steps[j - 1], run);
    }
  }

  /** Delete `index` removes the file in step `k`. */
  ghost predicate IsRemoval(states: seq<State>, k: nat, index: nat)
    requires k + 1 < |states|
  {
    && index < |states[k + 1].deletes| && states[k + 1].deletes[index].place.Removed?
    && (index < |states[k].deletes| ==> !states[k].deletes[index].place.Removed?)
  }

  lemma StepRemovesWhenIdle(state: State, step: Step, index: nat)
    requires Inv(state) && IsEnabled(state, step)
    requires var next := After(state, step);
      && index < |next.deletes| && next.deletes[index].place.Removed?
      && (index < |state.deletes| ==> !state.deletes[index].place.Removed?)
    ensures After(state, step).conversation.active.None?
  {
    if index < |state.deletes| {
      assert DeleteInv(state, state.deletes[index]);
    }
  }

  /**
   * The file goes only when no run writes it: each run of the
   * conversation has ended, also the one that the delete stopped.
   */
  lemma FileGoesWhenNoRunWrites(states: seq<State>, steps: seq<Step>, k: nat, index: nat)
    requires IsHistory(states, steps) && k < |steps| && IsRemoval(states, k, index)
    ensures var next := states[k + 1]; next.conversation == IDLE && forall run <- next.runs :: run.place == Ended
  {
    HistoryKeepsInv(states, steps, k);
    HistoryKeepsInv(states, steps, k + 1);
    assert IsHistoryStep(states, steps, k);
    StepRemovesWhenIdle(states[k], steps[k], index);
  }

  /** A delete waits only for the active run, is done when this run ends, and stays done. */
  lemma DeleteEndsWithRun(states: seq<State>, steps: seq<Step>, k: nat, index: nat)
    requires IsHistory(states, steps) && k < |steps| && index < |states[k].deletes|
    ensures index < |states[k + 1].deletes|
    ensures var before, after := states[k].deletes[index].place, states[k + 1].deletes[index].place;
      && (before.WaitingForRun? ==> states[k].conversation.active == Some(before.run))
      && (before.WaitingForRun? ==> after == if steps[k].Cleanup? then Removed else before)
      && (before.Removed? ==> after.Removed?)
  {
    HistoryKeepsInv(states, steps, k);
    assert IsHistoryStep(states, steps, k);
    assert DeleteInv(states[k], states[k].deletes[index]);
  }
}
