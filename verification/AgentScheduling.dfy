/** Which tasks the resume scheduler picks up, over all runs, and what running them does. */
module AgentScheduling {
  import opened Prelude
  import opened AgentContracts
  import opened AgentTransactions
  import opened AgentMachine
  import opened AgentInvariant
  import opened AgentSafety

  // ----- the action column

  /** The column is written by storing an action, and clearing it does not make it SQL NULL again. */
  lemma WrittenStep(config: Config, state: State, move: Move)
    requires Inv(config, state)
    ensures var next := Next(config, state, move);
      next.task.written <==> state.task.written || next.task.pending.Some?
  {
    match move
    case Decide(reply) => if state.control.ToDecide? { WrittenByDecision(config, state, reply); }
    case FinishTool =>
      if state.control.ToFinish? {
        FinishedTask(config, state.task, state.control.action, state.control.observation, state.nextId, state.now);
        hide FinishExecution;
      }
    case _ =>
  }

  lemma WrittenByDecision(config: Config, state: State, reply: ModelReply)
    requires Inv(config, state) && state.control.ToDecide?
    ensures var next := DoDecide(config, state, state.control.left, reply);
      next.task.written <==> state.task.written || next.task.pending.Some?
  {
    if state.task.steps < state.task.budget.maxSteps && reply.Chose? {
      var decision := reply.decision;
      if decision.CallTool? && decision.tool.Some? {
        CountedShape(state.task);
        PreparedTask(config, Counted(state.task), decision.tool.value, decision.arguments, state.nextId);
      } else if !decision.CallTool? {
        PlainShape(state.task, decision);
        PlainUnfolds(config, state.task, decision, state.nextId);
        hide ApplyDecision;
      }
    }
  }

  /** An action was pending at an earlier point of the run. */
  ghost predicate HeldBefore(config: Config, budget: Budget, moves: seq<Move>) {
    exists at :: 0 <= at < |moves| && HeldAfter(config, budget, moves, at)
  }

  ghost predicate HeldAfter(config: Config, budget: Budget, moves: seq<Move>, at: nat)
    requires at <= |moves|
  {
    RunFrom(config, budget, moves[..at]).task.pending.Some?
  }

  lemma {:induction false} WrittenMeansHeld(config: Config, budget: Budget, moves: seq<Move>)
    requires config.Valid()
    ensures var task := RunFrom(config, budget, moves).task;
      task.written <==> task.pending.Some? || HeldBefore(config, budget, moves)
  {
    if moves != [] {
      hide Next;
      var shorter, last := moves[..|moves| - 1], |moves| - 1;
      WrittenMeansHeld(config, budget, shorter);
      Reached(config, budget, shorter);
      WrittenStep(config, RunFrom(config, budget, shorter), moves[last]);
      HeldGrows(config, budget, moves);
    }
  }

  lemma HeldGrows(config: Config, budget: Budget, moves: seq<Move>)
    requires moves != []
    ensures var shorter := moves[..|moves| - 1];
      HeldBefore(config, budget, moves)
      <==> HeldBefore(config, budget, shorter) || RunFrom(config, budget, shorter).task.pending.Some?
  {
    hide RunFrom;
    var shorter, last := moves[..|moves| - 1], |moves| - 1;
    assert forall at :: 0 <= at < last ==> shorter[..at] == moves[..at];
    if HeldBefore(config, budget, shorter) {
      var at :| 0 <= at < |shorter| && HeldAfter(config, budget, shorter, at);
      assert HeldAfter(config, budget, moves, at);
    }
    if RunFrom(config, budget, shorter).task.pending.Some? { assert HeldAfter(config, budget, moves, last); }
    if HeldBefore(config, budget, moves) {
      var at :| 0 <= at < |moves| && HeldAfter(config, budget, moves, at);
      if at < last { assert HeldAfter(config, budget, shorter, at); }
    }
  }

  // ----- who is selected

  /** No due action is lost: a task with an action is selected exactly when the action is due and awaits no approval.
      But a task without an action is selected too, exactly when it is running and an earlier action was cleared. */
  lemma ResumeCoverage(config: Config, budget: Budget, moves: seq<Move>, now: nat)
    requires config.Valid()
    ensures var task := RunFrom(config, budget, moves).task;
      ResumeReady(task, now) <==>
        if task.pending.Some?
        then task.status != WaitingForApproval && (task.wakeup.Some? ==> task.wakeup.value <= now)
        else task.status == Running && HeldBefore(config, budget, moves)
  {
    hide RunFrom, HeldBefore, ApprovalInv, InvocationInv, AnswerInv, ControlInv, BudgetInv, EvidenceInv, EventInv;
    Reached(config, budget, moves);
    WrittenMeansHeld(config, budget, moves);
  }

  /** A selected task with an action does execute it when it is run: it is marked as started and enters its tool next,
      or an ambiguous one fails the task. */
  lemma ResumeExecutes(config: Config, state: State, maxSteps: nat)
    requires Inv(config, state) && state.control.AtRest? && ResumeReady(state.task, state.now)
    requires state.task.pending.Some?
    ensures var next := Next(config, Next(config, state, Run(maxSteps)), Execute);
      var action := state.task.pending.value;
      if action.started && !config.registry.Idempotent(action.tool) then next.task.status == Failed
      else
        var started := action.(started := true, attempts := action.attempts + 1);
        && next.control.ToInvoke? && next.control.action == started && EntersTool(next, started)
        && Next(config, next, Invoke).invocations == state.invocations + [InvocationOf(started)]
  {
    var running := Next(config, state, Run(maxSteps));
    assert running.task == state.task && running.control.ToExecute?;
    if state.task.pending.value.started && !config.registry.Idempotent(state.task.pending.value.tool) {
      var stopped := AmbiguousStop(config, state.task);
    }
  }

  /** A selected task without an action goes on planning: the model is asked for up to the capped number of steps. */
  lemma ResumePlans(config: Config, state: State, maxSteps: nat)
    requires Inv(config, state) && state.control.AtRest? && ResumeReady(state.task, state.now)
    requires state.task.pending.None?
    ensures Next(config, state, Run(maxSteps))
         == state.(control := LoopControl(RunLimit(state.task.budget, maxSteps)))
  {
  }

  // ----- an idle task that is picked up

  /** One call of a tool that may run at once and asks for no follow-up, as the last step the call's budget allows. */
  function OneCall(tool: string, arguments: Arguments, evidence: seq<string>): seq<Move> {
    [Decide(Chose(CallTool(Some(tool), arguments))), Execute, Invoke,
     ToolReturns(Returned(Observation(Ok, false, evidence, None, None))), FinishTool]
  }

  /** The record rests in RUNNING, its last action cleared. */
  predicate Idle(state: State) {
    state.control.AtRest? && state.task.status == Running && state.task.Column() == Cleared
  }

  lemma FiveMoves(config: Config, state: State, a: Move, b: Move, c: Move, d: Move, e: Move)
    ensures After(config, state, [a, b, c, d, e])
         == Next(config, Next(config, Next(config, Next(config, Next(config, state, a), b), c), d), e)
  {
    hide Next;
    TwoMoves(config, state, a, b);
    assert [a, b, c][..2] == [a, b] && [a, b, c, d][..3] == [a, b, c] && [a, b, c, d, e][..4] == [a, b, c, d];
    assert After(config, state, [a, b, c]) == Next(config, After(config, state, [a, b]), c);
    assert After(config, state, [a, b, c, d]) == Next(config, After(config, state, [a, b, c]), d);
  }

  lemma CallDecided(config: Config, state: State, tool: string, arguments: Arguments)
    requires Inv(config, state) && state.control == ToDecide(1) && state.task.steps < state.task.budget.maxSteps
    requires config.registry.Validate(tool, arguments).Some? && !config.registry.NeedsApproval(tool)
    ensures var next := Next(config, state, Decide(Chose(CallTool(Some(tool), arguments))));
      && next.control == ToExecute(ContinueLoop(0)) && next.task.status == Running && next.task.pending.Some?
      && !next.task.pending.value.started && next.task.steps == state.task.steps + 1
      && next.task.budget == state.task.budget && EventInv(next.task)
  {
    hide EvidenceInv, ApprovalInv, InvocationInv, AnswerInv;
    CountedShape(state.task);
    PreparedTask(config, Counted(state.task), tool, arguments, state.nextId);
    ToolUnfolds(config, state.task, tool, arguments, state.nextId);
    var applied := PrepareToolAction(config, Counted(state.task), tool, arguments, state.nextId);
    DecideUnfolds(config, state, 1, CallTool(Some(tool), arguments), applied.task, applied.execute);
    hide PrepareToolAction, ApplyDecision, DoDecide;
  }

  lemma CallEntered(config: Config, state: State, resume: Resumption, result: ToolResult)
    requires state.control == ToExecute(resume) && state.task.pending.Some? && !state.task.pending.value.started
    ensures var last := Next(config, Next(config, Next(config, state, Execute), Invoke), ToolReturns(result));
      && last.control.ToFinish? && last.control.resume == resume && last.control.observation == ObservationOf(result)
      && last.task.pending == Some(last.control.action) && last.task.status == state.task.status
      && last.task.steps == state.task.steps && last.task.budget == state.task.budget && last.task.written
  {
  }

  lemma CallFinished(config: Config, state: State, evidence: seq<string>)
    requires state.control.ToFinish? && state.control.resume == ContinueLoop(0)
    requires state.task.pending == Some(state.control.action) && state.task.written
    requires state.control.observation == Observation(Ok, false, evidence, None, None)
    ensures var last := Next(config, state, FinishTool);
      Idle(last) && last.task.steps == state.task.steps && last.task.budget == state.task.budget
  {
  }

  lemma OneCallRests(config: Config, state: State, tool: string, arguments: Arguments, evidence: seq<string>)
    requires Inv(config, state) && state.control == ToDecide(1) && state.task.steps < state.task.budget.maxSteps
    requires config.registry.Validate(tool, arguments).Some? && !config.registry.NeedsApproval(tool)
    ensures var last := After(config, state, OneCall(tool, arguments, evidence));
      Idle(last) && last.task.steps == state.task.steps + 1 && last.task.budget == state.task.budget
  {
    hide Next, After, Inv, Idle;
    var result := Returned(Observation(Ok, false, evidence, None, None));
    FiveMoves(config, state, Decide(Chose(CallTool(Some(tool), arguments))), Execute, Invoke, ToolReturns(result),
              FinishTool);
    CallDecided(config, state, tool, arguments);
    var decided := Next(config, state, Decide(Chose(CallTool(Some(tool), arguments))));
    CallEntered(config, decided, ContinueLoop(0), result);
    var returned := Next(config, Next(config, Next(config, decided, Execute), Invoke), ToolReturns(result));
    CallFinished(config, returned, evidence);
  }

  /** The gap is real: one call of a read-only tool uses up the one step a call may take, and leaves the task idle.
      The scheduler picks it up all the same, and running it asks the model for the next step. */
  lemma IdleTaskPicked(config: Config, tool: string, arguments: Arguments, evidence: seq<string>, now: nat)
    requires config.Valid() && config.registry.Validate(tool, arguments).Some? && !config.registry.NeedsApproval(tool)
    ensures var budget, moves := Budget(2, 0, 1), [Run(0)] + OneCall(tool, arguments, evidence);
      var last := RunFrom(config, budget, moves);
      && Idle(last) && last.task.steps == budget.maxAutoSteps && ResumeReady(last.task, now)
      && RunFrom(config, budget, moves + [Run(0)]).control == ToDecide(1)
  {
    hide Next, OneCall;
    var budget, moves := Budget(2, 0, 1), [Run(0)] + OneCall(tool, arguments, evidence);
    var first := RunFrom(config, budget, [Run(0)]);
    IdleBegins(config, budget);
    Reached(config, budget, [Run(0)]);
    OneCallRests(config, first, tool, arguments, evidence);
    AfterSplits(config, Init(budget), [Run(0)], OneCall(tool, arguments, evidence));
    assert (moves + [Run(0)])[..|moves|] == moves;
    Reached(config, budget, moves);
    ResumePlans(config, RunFrom(config, budget, moves), 0);
  }

  lemma IdleBegins(config: Config, budget: Budget)
    requires budget == Budget(2, 0, 1)
    ensures RunFrom(config, budget, [Run(0)]) == Init(budget).(control := ToDecide(1))
  {
    assert [Run(0)][..0] == [];
    assert After(config, Init(budget), []) == Init(budget);
  }
}
