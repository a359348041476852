/** What a read of the fills achieves when each of its ledger saves and cash reads returns. */
module CompleteReads {
  import opened Sequences
  import opened ExecutionClient
  import opened ExecutionClientProtocol
  import opened ExecutionClientLaws

  /** An execution of this client ID for one of these orders. */
  predicate IsOwnOf(world: World, execution: Execution, sent: set<int>) {
    IsOwn(world, execution) && execution.orderId in sent
  }

  /** The loop over the answer has not ended. */
  predicate IsInLoop(world: World) { world.task.AtSaveFill? || world.task.AtReadCash? }

  /** The executions of the answer that the loop has passed. */
  function PassedCount(world: World, answer: seq<Execution>): nat {
    match world.task
    case AtSaveFill(_, index) => index
    case AtReadCash(_, index) => index + 1
    case _ => |answer|
  }

  ghost predicate ArePassedSaved(world: World, answer: seq<Execution>, sent: set<int>, count: nat) {
    && count <= |answer|
    && forall i :: 0 <= i < count && IsOwnOf(world, answer[i], sent) ==> IsSaved(world.client, answer[i])
  }

  /**
   * The loop runs over `answer`, and the own executions that it has passed are saved. `sent`: orders of this client.
   */
  ghost predicate IsReading(world: World, answer: seq<Execution>, sent: set<int>) {
    && (IsInLoop(world) ==> world.task.executions == answer)
    && ArePassedSaved(world, answer, sent, PassedCount(world, answer))
    && (forall orderId <- sent :: orderId in world.client.sentOrders)
  }

  /** The loop skips only executions that are not own, not of a sent order, or saved. */
  lemma LoopPassesSaved(world: World, answer: seq<Execution>, start: nat, sent: set<int>)
    requires ArePassedSaved(world, answer, sent, start)
    requires forall orderId <- sent :: orderId in world.client.sentOrders
    ensures IsReading(RunLoop(world, answer, start), answer, sent)
  {
    var index := NextNewFill(world.client, answer, start);
    forall i | 0 <= i < index && IsOwnOf(world, answer[i], sent) ensures IsSaved(world.client, answer[i]) {
      if i >= start {
        assert !IsNewFill(world.client, answer[i]);
      }
    }
  }

  predicate IsReadFailure(step: Step) { step.SaveFails? || step.CashFails? || step.Disconnects? }

  lemma SaveGoesOn(world: World, answer: seq<Execution>, sent: set<int>)
    requires Inv(world) && world.task.AtSaveFill? && IsReading(world, answer, sent)
    ensures IsReading(After(world, SaveReturns), answer, sent)
  {
    var next := After(world, SaveReturns);
    forall i | 0 <= i < world.task.index + 1 && IsOwnOf(next, answer[i], sent) ensures IsSaved(next.client, answer[i]) {
      if i < world.task.index {
        assert IsSaved(world.client, answer[i]);
      }
    }
  }

  lemma CashGoesOn(world: World, answer: seq<Execution>, sent: set<int>)
    requires Inv(world) && world.task.AtReadCash? && IsReading(world, answer, sent)
    ensures IsReading(After(world, CashReturns), answer, sent)
  {
    var sentFill := SendInFlight(world);
    forall i | 0 <= i < world.task.index + 1 && IsOwnOf(sentFill, answer[i], sent)
      ensures IsSaved(sentFill.client, answer[i])
    {
      assert IsSaved(world.client, answer[i]);
    }
    LoopPassesSaved(sentFill, answer, world.task.index + 1, sent);
  }

  /** Orders, fills, and the clock can step in between. */
  lemma OtherStepGoesOn(world: World, step: Step, answer: seq<Execution>, sent: set<int>)
    requires Inv(world) && IsInLoop(world) && IsReading(world, answer, sent)
    requires IsStepEnabled(world, step) && !IsReadFailure(step) && !step.SaveReturns? && !step.CashReturns?
    ensures After(world, step).task == world.task && IsReading(After(world, step), answer, sent)
  {
    var next := After(world, step);
    forall i | 0 <= i < PassedCount(world, answer) && IsOwnOf(next, answer[i], sent)
      ensures IsSaved(next.client, answer[i])
    {
      assert IsSaved(world.client, answer[i]);
    }
  }

  lemma StepGoesOn(world: World, step: Step, answer: seq<Execution>, sent: set<int>)
    requires Inv(world) && IsInLoop(world) && IsReading(world, answer, sent)
    requires IsStepEnabled(world, step) && !IsReadFailure(step)
    ensures IsReading(After(world, step), answer, sent)
  {
    if step.SaveReturns? {
      SaveGoesOn(world, answer, sent);
    } else if step.CashReturns? {
      CashGoesOn(world, answer, sent);
    } else {
      OtherStepGoesOn(world, step, answer, sent);
    }
  }

  /** From step `i`, where the answer came, up to state `j`: no save and no cash read fails, and the loop goes on. */
  ghost predicate IsRead(worlds: seq<World>, steps: seq<Step>, i: nat, j: nat)
    requires |steps| < |worlds|
  {
    && i < j < |worlds| && j <= |steps| && steps[i].ExecutionsReturn?
    && forall m :: i < m < j ==> IsInLoop(worlds[m]) && !IsReadFailure(steps[m])
  }

  lemma {:induction false} ReadGoesOn(worlds: seq<World>, steps: seq<Step>, i: nat, j: nat)
    requires IsRun(worlds, steps) && IsRead(worlds, steps, i, j)
    ensures IsReading(worlds[j], steps[i].answer, worlds[i].client.sentOrders.Keys)
    decreases j
  {
    var answer, sent := steps[i].answer, worlds[i].client.sentOrders.Keys;
    RunKeepsInv(worlds, steps, j - 1);
    assert IsRunStep(worlds, steps, j - 1);
    if i == j - 1 {
      LoopPassesSaved(worlds[i], answer, 0, sent);
    } else {
      ReadGoesOn(worlds, steps, i, j - 1);
      StepGoesOn(worlds[j - 1], steps[j - 1], answer, sent);
    }
  }

  /**
   * A read whose saves and cash reads all return: at its end, each own execution of its
   * answer, of an order that was sent before the answer, is saved and has its fill event.
   */
  lemma CompleteReadSendsAll(worlds: seq<World>, steps: seq<Step>, i: nat, j: nat, execution: Execution)
    requires IsRun(worlds, steps) && IsRead(worlds, steps, i, j) && !IsInLoop(worlds[j])
    requires execution in steps[i].answer && IsOwnOf(worlds[i], execution, worlds[i].client.sentOrders.Keys)
    ensures IsSaved(worlds[j].client, execution)
    ensures HasSave(worlds[j].client.fillEvents, execution.orderId, execution.executionId)
  {
    ReadGoesOn(worlds, steps, i, j);
    OwnExecutionsAreFills(worlds, steps, i, execution);
    OwnExecutionsAreFills(worlds, steps, j, execution);
    var k :| 0 <= k < |steps[i].answer| && steps[i].answer[k] == execution;
    assert IsOwnOf(worlds[j], steps[i].answer[k], worlds[i].client.sentOrders.Keys);
    RunKeepsInv(worlds, steps, j);
    SavedHasSave(worlds[j], execution);
  }
}
