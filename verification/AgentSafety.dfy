/** What the invariant means for whole runs of the agent: approvals, single execution, bounded work,
    evidence, absorption, the event log and resumption. Every theorem quantifies over all runs. */
module AgentSafety {
  import opened Prelude
  import opened AgentContracts
  import opened AgentTransactions
  import opened AgentMachine
  import opened AgentInvariant

  function RunFrom(config: Config, budget: Budget, moves: seq<Move>): State {
    After(config, Init(budget), moves)
  }

  lemma Reached(config: Config, budget: Budget, moves: seq<Move>)
    requires config.Valid()
    ensures Inv(config, RunFrom(config, budget, moves))
  {
    InitInv(config, budget);
    RunKeeps(config, Init(budget), moves);
  }

  lemma {:induction false} AfterSplits(config: Config, state: State, first: seq<Move>, second: seq<Move>)
    ensures After(config, state, first + second) == After(config, After(config, state, first), second)
    decreases |second|
  {
    if second == [] {
      assert first + second == first;
    } else {
      var shorter := second[..|second| - 1];
      assert (first + second)[..|first + second| - 1] == first + shorter;
      AfterSplits(config, state, first, shorter);
    }
  }

  // ----- one move: what it can touch

  /** An approval keeps its identity for ever, and only the user's resolution of it changes its status. */
  ghost predicate ApprovalStep(before: seq<Approval>, after: seq<Approval>, move: Move) {
    && |before| <= |after|
    && (forall i :: 0 <= i < |before| ==> after[i] == before[i].(status := after[i].status))
    && (forall i :: 0 <= i < |before| && after[i].status != before[i].status ==>
          && before[i].status == Pending
          && move.Resolve? && move.approvalId == before[i].approvalId
          && after[i].status == if move.approve then Approved else Rejected)
    && (forall i :: |before| <= i < |after| ==> after[i].status == Pending)
  }

  lemma ApprovalsStep(config: Config, state: State, move: Move)
    requires Inv(config, state)
    ensures ApprovalStep(state.task.approvals, Next(config, state, move).task.approvals, move)
  {
    match move
    case FinishTool => if state.control.ToFinish? {
      FinishedTask(config, state.task, state.control.action, state.control.observation, state.nextId, state.now);
    }
    case Decide(reply) => if state.control.ToDecide? { ApprovalsOfDecision(config, state, reply); }
    case Resolve(approvalId, approve) =>
      if state.control.AtRest? { ApprovalsOfResolution(config, state, approvalId, approve); }
    case _ =>
  }

  lemma ApprovalsOfResolution(config: Config, state: State, approvalId: nat, approve: bool)
    ensures ApprovalStep(state.task.approvals, DoResolve(config, state, approvalId, approve).task.approvals,
                         Resolve(approvalId, approve))
  {
  }

  /** A decision at most adds one open approval request. */
  lemma ApprovalsOfDecision(config: Config, state: State, reply: ModelReply)
    requires Inv(config, state) && state.control.ToDecide?
    ensures var before, after := state.task.approvals,
      DoDecide(config, state, state.control.left, reply).task.approvals;
      before <= after && forall i :: |before| <= i < |after| ==> after[i].status == Pending
  {
    if reply.Chose? && state.task.steps < state.task.budget.maxSteps {
      var decision := reply.decision;
      if !decision.CallTool? {
        PlainUnfolds(config, state.task, decision, state.nextId);
      } else if decision.tool.Some? {
        CountedShape(state.task);
        PreparedTask(config, Counted(state.task), decision.tool.value, decision.arguments, state.nextId);
      }
    }
  }

  /** The event log is append-only and the budget is fixed. */
  lemma EventsStep(config: Config, state: State, move: Move)
    requires Inv(config, state)
    ensures Extends(state.task, Next(config, state, move).task)
  {
    match move
    case FinishTool =>
      if state.control.ToFinish? {
        FinishEvents(config, state.task, state.control.action, state.control.observation, state.nextId, state.now);
      }
    case Decide(reply) => if state.control.ToDecide? { DecideEvents(config, state, reply); }
    case _ =>
  }

  ghost predicate Extends(before: Task, after: Task) {
    before.events <= after.events && after.budget == before.budget
  }

  lemma DecideEvents(config: Config, state: State, reply: ModelReply)
    requires state.control.ToDecide? && state.control.left > 0
    ensures Extends(state.task, DoDecide(config, state, state.control.left, reply).task)
  {
    if reply.Chose? { DecisionEvents(config, state.task, reply.decision, state.nextId); }
    hide ApplyDecision;
  }

  lemma FinishEvents(config: Config, task: Task, action: PendingAction, observation: Observation, newId: nat, now: nat)
    ensures var done := FinishExecution(config, task, action, observation, newId, now);
      done.Some? ==> Extends(task, done.value)
  {
  }

  lemma DecisionEvents(config: Config, task: Task, decision: Decision, newId: nat)
    ensures var applied := ApplyDecision(config, task, decision, newId);
      applied.Committed? ==> Extends(task, applied.task)
  {
    if decision.CallTool? && decision.tool.Some? {
      PreparedEvents(config, Counted(task), decision.tool.value, decision.arguments, newId);
    } else if !decision.CallTool? && task.status in {Created, Running} {
      PlainUnfolds(config, task, decision, newId);
      PlainEvents(task, decision);
      hide ApplyDecision, PlainOutcome;
    }
  }

  lemma PlainEvents(task: Task, decision: Decision)
    requires !decision.CallTool?
    ensures Extends(task, PlainOutcome(task, decision))
  {
  }

  lemma PreparedEvents(config: Config, task: Task, tool: string, arguments: Arguments, newId: nat)
    ensures var applied := PrepareToolAction(config, task, tool, arguments, newId);
      applied.Committed? ==> Extends(task, applied.task)
  {
  }

  /** The traces only grow, one entry at a time: an invocation when the committed, started action enters its tool,
      a return when that very invocation comes back. */
  lemma TraceStep(config: Config, state: State, move: Move)
    requires Inv(config, state)
    ensures var next := Next(config, state, move);
      || (next.invocations == state.invocations && next.calls == state.calls)
      || (move.Invoke? && state.control.ToInvoke? && next.task == state.task && next.calls == state.calls
          && EntersTool(state, state.control.action)
          && next.invocations == state.invocations + [InvocationOf(state.control.action)])
      || (move.ToolReturns? && state.control.InTool? && next.task == state.task && next.invocations == state.invocations
          && |next.calls| == |state.calls| + 1 && state.calls <= next.calls
          && Answers(next.calls[|state.calls|], state.invocations, |state.invocations| - 1)
          && next.calls[|state.calls|].observation == ObservationOf(move.result))
  {
    if !move.Invoke? && !move.ToolReturns? {
      QuietMove(config, state, move);
      hide Next;
    }
  }

  lemma QuietMove(config: Config, state: State, move: Move)
    requires !move.Invoke? && !move.ToolReturns?
    ensures Next(config, state, move).invocations == state.invocations
    ensures Next(config, state, move).calls == state.calls
  {
  }

  function InvocationOf(action: PendingAction): Invocation {
    Invocation(action.id, action.tool, action.arguments)
  }

  /** The committed record already carries the action, marked as started. */
  ghost predicate EntersTool(state: State, action: PendingAction) {
    state.task.pending == Some(action) && action.started
  }

  ghost predicate Answers(call: Call, invocations: seq<Invocation>, at: int) {
    && 0 <= at < |invocations| && call.invocation == at
    && invocations[at] == Invocation(call.actionId, call.tool, call.arguments)
  }

  lemma {:induction false} TraceGrows(config: Config, state: State, moves: seq<Move>)
    requires Inv(config, state)
    ensures var last := After(config, state, moves);
      && state.task.events <= last.task.events && last.task.budget == state.task.budget
      && state.invocations <= last.invocations && state.calls <= last.calls
  {
    if moves != [] {
      hide Next;
      var shorter := moves[..|moves| - 1];
      TraceGrows(config, state, shorter);
      RunKeeps(config, state, shorter);
      EventsStep(config, After(config, state, shorter), moves[|moves| - 1]);
      TraceStep(config, After(config, state, shorter), moves[|moves| - 1]);
    }
  }

  lemma {:induction false} ApprovalsPersist(config: Config, state: State, moves: seq<Move>, i: nat)
    requires Inv(config, state) && i < |state.task.approvals|
    ensures var last := After(config, state, moves).task.approvals;
      && i < |last| && last[i] == state.task.approvals[i].(status := last[i].status)
      && (state.task.approvals[i].status != Pending ==> last[i] == state.task.approvals[i])
  {
    if moves != [] {
      var shorter := moves[..|moves| - 1];
      ApprovalsPersist(config, state, shorter, i);
      RunKeeps(config, state, shorter);
      ApprovalsStep(config, After(config, state, shorter), moves[|moves| - 1]);
    }
  }

  // ----- the started flag comes first

  /** Whatever happens to an invocation afterwards, it was made at a point of the run where the committed record
      already carried its action, tool and arguments with the started flag set. */
  lemma {:induction false} StartedBeforeInvoked(config: Config, budget: Budget, moves: seq<Move>, k: nat)
    returns (at: nat, action: PendingAction)
    requires config.Valid() && k < |RunFrom(config, budget, moves).invocations|
    ensures at < |moves| && moves[at] == Invoke
    ensures var before := RunFrom(config, budget, moves[..at]);
      && before.invocations == RunFrom(config, budget, moves).invocations[..k]
      && EntersTool(before, action) && InvocationOf(action) == RunFrom(config, budget, moves).invocations[k]
  {
    hide Next;
    var shorter := moves[..|moves| - 1];
    var before, last := RunFrom(config, budget, shorter), RunFrom(config, budget, moves);
    Reached(config, budget, shorter);
    TraceStep(config, before, moves[|moves| - 1]);
    if k < |before.invocations| {
      at, action := StartedBeforeInvoked(config, budget, shorter, k);
      assert shorter[..at] == moves[..at];
      assert last.invocations[..k] == before.invocations[..k];
    } else {
      at, action := |moves| - 1, before.control.action;
      assert last.invocations[..k] == before.invocations;
    }
  }

  // ----- approval safety

  /** Every invocation of an approval-requiring tool, whether or not it ever returned, was preceded by a committed
      approval of the same action, tool and arguments: when the tool was entered, it was already granted. */
  lemma ApprovalSafety(config: Config, budget: Budget, moves: seq<Move>, k: nat) returns (at: nat)
    requires config.Valid() && k < |RunFrom(config, budget, moves).invocations|
    requires var tool, specs := RunFrom(config, budget, moves).invocations[k].tool, config.registry.specs;
      tool in specs && specs[tool].requiresApproval
    ensures at < |moves| && moves[at] == Invoke
    ensures var before := RunFrom(config, budget, moves[..at]);
      var invocation := RunFrom(config, budget, moves).invocations[k];
      && before.invocations == RunFrom(config, budget, moves).invocations[..k]
      && Granted(before.task.approvals, invocation.actionId, invocation.tool, invocation.arguments)
  {
    var action;
    at, action := StartedBeforeInvoked(config, budget, moves, k);
    var before := moves[..at];
    Reached(config, budget, before);
    Reached(config, budget, before + [Invoke]);
    hide After;
    InvokedIsGranted(config, RunFrom(config, budget, before), action);
  }

  lemma InvokedIsGranted(config: Config, state: State, action: PendingAction)
    requires Inv(config, state) && EntersTool(state, action) && config.registry.NeedsApproval(action.tool)
    ensures Granted(state.task.approvals, action.id, action.tool, action.arguments)
  {
  }

  /** No approval is ever granted except by the user's own decision on that approval, earlier in the run. */
  lemma {:induction false} GrantedByUser(config: Config, budget: Budget, moves: seq<Move>, i: nat) returns (at: nat)
    requires config.Valid() && i < |RunFrom(config, budget, moves).task.approvals|
    requires RunFrom(config, budget, moves).task.approvals[i].status == Approved
    ensures at < |moves| && moves[at] == Resolve(RunFrom(config, budget, moves).task.approvals[i].approvalId, true)
    ensures var before := RunFrom(config, budget, moves[..at]).task;
      before.status == WaitingForApproval && i < |before.approvals| && before.approvals[i].status == Pending
  {
    var shorter := moves[..|moves| - 1];
    var before := RunFrom(config, budget, shorter);
    Reached(config, budget, shorter);
    ApprovalsStep(config, before, moves[|moves| - 1]);
    if i < |before.task.approvals| && before.task.approvals[i].status == Approved {
      at := GrantedByUser(config, budget, shorter, i);
      assert shorter[..at] == moves[..at];
    } else {
      at := |moves| - 1;
    }
  }

  /** A rejected action is never executed: not before its rejection and not after any further moves. */
  lemma RejectedNeverRuns(config: Config, budget: Budget, moves: seq<Move>, more: seq<Move>, i: nat)
    requires config.Valid() && i < |RunFrom(config, budget, moves).task.approvals|
    requires RunFrom(config, budget, moves).task.approvals[i].status == Rejected
    ensures var rejected := RunFrom(config, budget, moves).task.approvals[i];
      var invocations := RunFrom(config, budget, moves + more).invocations;
      forall k :: 0 <= k < |invocations| ==> invocations[k].actionId != rejected.actionId
  {
    Reached(config, budget, moves);
    Reached(config, budget, moves + more);
    AfterSplits(config, Init(budget), moves, more);
    ApprovalsPersist(config, RunFrom(config, budget, moves), more, i);
  }

  /** While an approval is awaited it is the only open one, and it is for exactly the pending action. */
  lemma OneOpenApproval(config: Config, budget: Budget, moves: seq<Move>)
    requires config.Valid()
    ensures var task := RunFrom(config, budget, moves).task;
      var open := set i | 0 <= i < |task.approvals| && task.approvals[i].status == Pending;
      && (task.status == WaitingForApproval ==>
            && task.pending.Some? && open == {|task.approvals| - 1}
            && Matches(task.approvals[|task.approvals| - 1], task.pending.value.id, task.pending.value.tool,
                       task.pending.value.arguments))
      && (task.status != WaitingForApproval && !Terminal(task.status) ==> open == {})
  {
    Reached(config, budget, moves);
  }

  // ----- at most one execution

  /** An action id reaches the tools more than once only if its tool is idempotent, and then with the same tool and
      arguments. Invocations that a crash cut off count like those that returned. */
  lemma AtMostOnce(config: Config, budget: Budget, moves: seq<Move>, j: nat, k: nat)
    requires config.Valid() && j < k < |RunFrom(config, budget, moves).invocations|
    requires RunFrom(config, budget, moves).invocations[j].actionId ==
      RunFrom(config, budget, moves).invocations[k].actionId
    ensures var tool, specs := RunFrom(config, budget, moves).invocations[j].tool, config.registry.specs;
      tool in specs && specs[tool].idempotent
    ensures RunFrom(config, budget, moves).invocations[j] == RunFrom(config, budget, moves).invocations[k]
  {
    Reached(config, budget, moves);
  }

  /** Every return answers an invocation of its own, so what returned is at most what was invoked. */
  lemma ReturnsAnswerInvocations(config: Config, budget: Budget, moves: seq<Move>, j: nat, k: nat)
    requires config.Valid() && j < |RunFrom(config, budget, moves).calls| && k < |RunFrom(config, budget, moves).calls|
    ensures var last := RunFrom(config, budget, moves);
      && Answers(last.calls[k], last.invocations, last.calls[k].invocation)
      && (last.calls[j].invocation == last.calls[k].invocation ==> j == k)
  {
    Reached(config, budget, moves);
  }

  /** The record of a task whose non-idempotent action started and left no result. */
  ghost predicate Interrupted(config: Config, state: State) {
    && state.task.pending.Some? && state.task.pending.value.started
    && !config.registry.Idempotent(state.task.pending.value.tool)
    && (state.control.AtRest? || state.control.ToExecute?)
  }

  /** After a crash inside a non-idempotent action no tool is ever called again for this task: the record
      stays as it was until the task ends FAILED, or CANCELLED by the user. */
  lemma {:induction false} InterruptedNeverReplays(config: Config, state: State, moves: seq<Move>)
    requires Inv(config, state) && Interrupted(config, state)
    ensures var last := After(config, state, moves);
      && last.invocations == state.invocations && last.calls == state.calls
      && ((Interrupted(config, last) && last.task == state.task) || last.task.status in {Failed, Cancelled})
  {
    if moves != [] {
      var shorter := moves[..|moves| - 1];
      var before := After(config, state, shorter);
      InterruptedNeverReplays(config, state, shorter);
      RunKeeps(config, state, shorter);
      InterruptedStep(config, before, moves[|moves| - 1]);
    }
  }

  lemma InterruptedStep(config: Config, state: State, move: Move)
    requires Inv(config, state) && (Interrupted(config, state) || Terminal(state.task.status))
    ensures var next := Next(config, state, move);
      && next.invocations == state.invocations && next.calls == state.calls
      && (Interrupted(config, state) && !(Interrupted(config, next) && next.task == state.task) ==>
            next.task.status in {Failed, Cancelled})
      && (Terminal(state.task.status) ==> next.task == state.task)
  {
    TraceStep(config, state, move);
  }

  /** The first attempt to execute an interrupted action fails the task. */
  lemma InterruptedFails(config: Config, state: State)
    requires Inv(config, state) && Interrupted(config, state) && state.control.ToExecute?
    ensures Next(config, state, Execute).task.status == Failed
    ensures Next(config, state, Execute).task.pending.None?
  {
    var stopped := AmbiguousStop(config, state.task);
  }

  // ----- terminal states

  /** A finished task is never changed again and its tools are never called again. */
  lemma {:induction false} TerminalAbsorbs(config: Config, state: State, moves: seq<Move>)
    requires Inv(config, state) && Terminal(state.task.status)
    ensures var last := After(config, state, moves);
      last.task == state.task && last.invocations == state.invocations && last.calls == state.calls
  {
    if moves != [] {
      var shorter := moves[..|moves| - 1];
      TerminalAbsorbs(config, state, shorter);
      RunKeeps(config, state, shorter);
      InterruptedStep(config, After(config, state, shorter), moves[|moves| - 1]);
    }
  }

  // ----- bounded work

  /** What is left of the task's budget: steps, failures and the ending itself. */
  function Measure(task: Task): int {
    (task.budget.maxSteps - task.steps) + (task.budget.maxFailures + 1 - task.failures)
    + (if Terminal(task.status) then 0 else 1)
  }

  /** `decided` counts a decision outcome, and then the measure fell; otherwise it did not grow. */
  ghost predicate Progress(before: State, after: State, outcome: bool) {
    && Measure(after.task) <= Measure(before.task)
    && after.decided == before.decided + (if outcome then 1 else 0)
    && (outcome ==> Measure(after.task) < Measure(before.task))
  }

  /** Every decision outcome uses up part of the measure, and no move gives any of it back. */
  lemma MeasureStep(config: Config, state: State, move: Move)
    requires Inv(config, state)
    ensures 0 <= Measure(Next(config, state, move).task)
    ensures Progress(state, Next(config, state, move), move.Decide? && state.control.ToDecide?)
  {
    MeasureIsLeft(config, state, move);
    if move.Decide? && state.control.ToDecide? {
      MeasureOfDecision(config, state, move.reply);
      DecideMove(config, state, move.reply);
      hide Next, DoDecide, Inv;
    } else {
      hide Next, Inv;
      MeasureOfOthers(config, state, move);
    }
  }

  lemma DecideMove(config: Config, state: State, reply: ModelReply)
    requires Inv(config, state) && state.control.ToDecide?
    ensures state.control.left > 0
    ensures Next(config, state, Decide(reply)) == DoDecide(config, state, state.control.left, reply)
  {
    hide DoDecide;
  }

  lemma MeasureIsLeft(config: Config, state: State, move: Move)
    requires Inv(config, state)
    ensures 0 <= Measure(Next(config, state, move).task)
  {
    hide Next;
    MoveKeeps(config, state, move);
  }

  lemma MeasureOfOthers(config: Config, state: State, move: Move)
    requires Inv(config, state) && !(move.Decide? && state.control.ToDecide?)
    ensures Progress(state, Next(config, state, move), false)
  {
    if move.FinishTool? && state.control.ToFinish? {
      FinishedTask(config, state.task, state.control.action, state.control.observation, state.nextId, state.now);
      hide FinishExecution;
    }
  }

  lemma MeasureOfDecision(config: Config, state: State, reply: ModelReply)
    requires Inv(config, state) && state.control.ToDecide?
    ensures Progress(state, DoDecide(config, state, state.control.left, reply), true)
  {
    if state.task.steps < state.task.budget.maxSteps && reply.Chose? {
      DecisionProgress(config, state.task, reply.decision, state.nextId);
      hide ApplyDecision;
    }
  }

  lemma DecisionProgress(config: Config, task: Task, decision: Decision, newId: nat)
    requires EventInv(task) && task.pending.None? && task.wakeup.None? && task.status in {Created, Running}
    ensures var applied := ApplyDecision(config, task, decision, newId);
      && !applied.Conflict?
      && (applied.Committed? ==>
            applied.task.steps == task.steps + 1 && applied.task.failures >= task.failures
            && applied.task.budget == task.budget)
  {
    if decision.CallTool? && decision.tool.Some? {
      CountedShape(task);
      PreparedTask(config, Counted(task), decision.tool.value, decision.arguments, newId);
    } else if !decision.CallTool? {
      assert ApplyDecision(config, task, decision, newId).task == PlainOutcome(task, decision);
    }
  }

  /** However a task is resumed, approved or given input, it commits at most
      max_steps + max_failures + 1 decision outcomes in its whole life. */
  lemma BoundedWork(config: Config, budget: Budget, moves: seq<Move>)
    requires config.Valid()
    ensures var last := RunFrom(config, budget, moves);
      && last.decided <= budget.maxSteps + budget.maxFailures + 1
      && last.task.steps <= budget.maxSteps
      && last.task.failures <= budget.maxFailures + 1
      && (!Terminal(last.task.status) ==> last.task.failures <= budget.maxFailures)
  {
    Reached(config, budget, moves);
    InitInv(config, budget);
    TraceGrows(config, Init(budget), moves);
  }

  /** A tool that is neither safe to replay nor one the control plane polls on its own. */
  predicate OneShot(config: Config, tool: string) {
    var specs := config.registry.specs;
    && !(tool in specs && specs[tool].idempotent)
    && !(tool in specs && specs[tool].risk == ReadOnly && !specs[tool].requiresApproval)
  }

  function OneShots(config: Config, invocations: seq<Invocation>): nat {
    if invocations == [] then 0
    else
      var last := |invocations| - 1;
      OneShots(config, invocations[..last]) + if OneShot(config, invocations[last].tool) then 1 else 0
  }

  /** One when the pending action can still enter such a tool: it has not started, or starts right now. */
  function Owed(config: Config, state: State): nat {
    if state.task.pending.Some? && OneShot(config, state.task.pending.value.tool)
       && (!state.task.pending.value.started || state.control.ToInvoke?) then 1 else 0
  }

  lemma OneShotStep(config: Config, state: State, move: Move)
    requires Inv(config, state)
    ensures var next := Next(config, state, move);
      OneShots(config, next.invocations) + Owed(config, next) - next.task.steps
      <= OneShots(config, state.invocations) + Owed(config, state) - state.task.steps
  {
    match move
    case Invoke => OwedByInvoke(config, state);
    case Decide(reply) => if state.control.ToDecide? { OwedByDecision(config, state, reply); }
    case FinishTool => OwedByFinish(config, state);
    case _ =>
  }

  lemma OwedByInvoke(config: Config, state: State)
    requires Inv(config, state)
    ensures var next := Next(config, state, Invoke);
      && next.task == state.task
      && OneShots(config, next.invocations) + Owed(config, next)
         == OneShots(config, state.invocations) + Owed(config, state)
  {
    hide StatusInv, ApprovalInv, InvocationInv, AnswerInv, BudgetInv, EvidenceInv, EventInv, OneShot;
    if state.control.ToInvoke? {
      var next := Next(config, state, Invoke);
      assert next.invocations[..|next.invocations| - 1] == state.invocations;
    }
  }

  lemma OwedByFinish(config: Config, state: State)
    requires Inv(config, state)
    ensures var next := Next(config, state, FinishTool);
      && next.invocations == state.invocations && next.task.steps == state.task.steps
      && Owed(config, next) <= Owed(config, state)
  {
    hide FinishExecution, ApprovalInv, InvocationInv, AnswerInv, BudgetInv, EvidenceInv;
    if state.control.ToFinish? {
      FinishedTask(config, state.task, state.control.action, state.control.observation, state.nextId, state.now);
    }
  }

  lemma OwedByDecision(config: Config, state: State, reply: ModelReply)
    requires Inv(config, state) && state.control.ToDecide?
    ensures var next := DoDecide(config, state, state.control.left, reply);
      && next.invocations == state.invocations && next.task.steps >= state.task.steps
      && (next.task.pending.Some? ==> next.task.steps == state.task.steps + 1)
  {
    if state.task.steps < state.task.budget.maxSteps && reply.Chose? {
      DecisionProgress(config, state.task, reply.decision, state.nextId);
      hide ApplyDecision;
    }
  }

  lemma {:induction false} OneShotsPaid(config: Config, budget: Budget, moves: seq<Move>)
    requires config.Valid()
    ensures var last := RunFrom(config, budget, moves);
      OneShots(config, last.invocations) + Owed(config, last) <= last.task.steps
  {
    if moves != [] {
      hide Next, OneShots, Owed;
      var shorter := moves[..|moves| - 1];
      OneShotsPaid(config, budget, shorter);
      Reached(config, budget, shorter);
      OneShotStep(config, RunFrom(config, budget, shorter), moves[|moves| - 1]);
    }
  }

  /** Each entry into such a tool is paid for by a model step of its own, however often the task crashes and is
      resumed: in its whole life a task makes at most max_steps of them. */
  lemma OneShotsBounded(config: Config, budget: Budget, moves: seq<Move>)
    requires config.Valid()
    ensures var last := RunFrom(config, budget, moves);
      OneShots(config, last.invocations) <= last.task.steps <= budget.maxSteps
  {
    hide OneShots, Owed;
    OneShotsPaid(config, budget, moves);
    BoundedWork(config, budget, moves);
  }

  // ----- evidence

  /** A completed task cites only references that a tool call of this task returned and that still lie in
      the window of its last `maxObservations` observations; some such reference was available. */
  lemma EvidenceProvenance(config: Config, budget: Budget, moves: seq<Move>)
    requires config.Valid() && RunFrom(config, budget, moves).task.status == Completed
    ensures var last := RunFrom(config, budget, moves);
      && Available(last.task) != {}
      && |last.task.observations| <= config.maxObservations
      && forall r :: r in last.task.finalEvidence ==> Backed(last, r)
  {
    hide RunFrom, Inv, Available, Backed;
    Reached(config, budget, moves);
    var last := RunFrom(config, budget, moves);
    CompletedOnEvidence(config, last);
    forall r | r in last.task.finalEvidence ensures Backed(last, r) {
      FinalIsBacked(config, last, r);
    }
  }

  lemma CompletedOnEvidence(config: Config, state: State)
    requires Inv(config, state) && state.task.status == Completed
    ensures Available(state.task) != {} && |state.task.observations| <= config.maxObservations
    ensures forall r :: r in state.task.finalEvidence ==> r in Available(state.task)
  {
    hide StatusInv, ApprovalInv, InvocationInv, AnswerInv, ControlInv, BudgetInv, EventInv, Available, Sourced;
  }

  lemma FinalIsBacked(config: Config, state: State, r: string)
    requires Inv(config, state) && r in Available(state.task)
    ensures Backed(state, r)
  {
    hide StatusInv, ApprovalInv, InvocationInv, AnswerInv, ControlInv, BudgetInv, EventInv;
    var n, j :| 0 <= n < |state.task.observations| && 0 <= j < |state.task.observations[n].evidence|
      && state.task.observations[n].evidence[j] == r;
    WindowElement(state.history, config.maxObservations, n);
    assert Sourced(state.task.observations[n], state.calls);
  }

  /** A stored observation carries the reference, and a call made for the same action returned it. */
  ghost predicate Backed(state: State, reference: string) {
    exists n :: 0 <= n < |state.task.observations|
                && reference in state.task.observations[n].evidence
                && CitedFromCall(state.calls, state.task.observations[n].actionId, reference)
  }

  ghost predicate CitedFromCall(calls: seq<Call>, actionId: nat, reference: string) {
    exists k :: 0 <= k < |calls| && calls[k].actionId == actionId && reference in calls[k].observation.evidence
  }

  lemma WindowElement<T>(history: seq<T>, n: nat, i: nat)
    requires i < |Newest(history, n)|
    ensures exists j :: 0 <= j < |history| && history[j] == Newest(history, n)[i]
  {
    var j := if |history| <= n then i else |history| - n + i;
    assert history[j] == Newest(history, n)[i];
  }

  // ----- the event log

  /** Event numbers are exactly 1..n, and later states only append to the log. */
  lemma EventLog(config: Config, budget: Budget, moves: seq<Move>, more: seq<Move>)
    requires config.Valid()
    ensures var events := RunFrom(config, budget, moves).task.events;
      && (forall i :: 0 <= i < |events| ==> events[i].sequence == i + 1)
      && events <= RunFrom(config, budget, moves + more).task.events
  {
    Reached(config, budget, moves);
    AfterSplits(config, Init(budget), moves, more);
    TraceGrows(config, RunFrom(config, budget, moves), more);
  }

  /** A FINISH decision citing evidence that is not available, within the step budget. */
  ghost predicate RejectedFinish(state: State, move: Move) {
    && move.Decide? && move.reply.Chose? && move.reply.decision.Finish? && state.control.ToDecide?
    && state.task.steps < state.task.budget.maxSteps
    && !EvidenceAccepted(state.task, move.reply.decision.evidence)
  }

  ghost predicate LogsFailure(task: Task) {
    |task.events| > 0 && task.events[|task.events| - 1].kind == TaskFailed
  }

  lemma DecidedFailureIsLogged(config: Config, state: State, reply: ModelReply)
    requires Inv(config, state) && state.control.ToDecide?
    requires DoDecide(config, state, state.control.left, reply).task.status == Failed
    ensures LogsFailure(DoDecide(config, state, state.control.left, reply).task) <==>
      !RejectedFinish(state, Decide(reply))
  {
    if reply.Chose? && state.task.steps < state.task.budget.maxSteps {
      CountedShape(state.task);
      if !reply.decision.CallTool? {
        PlainUnfolds(config, state.task, reply.decision, state.nextId);
      } else if reply.decision.tool.Some? {
        PreparedTask(config, Counted(state.task), reply.decision.tool.value, reply.decision.arguments, state.nextId);
      }
    }
  }

  /** A task that fails gets a TASK_FAILED event, except exactly when a rejected FINISH exhausts its failures. */
  lemma FailureIsLogged(config: Config, state: State, move: Move)
    requires Inv(config, state) && !Terminal(state.task.status)
    requires Next(config, state, move).task.status == Failed
    ensures LogsFailure(Next(config, state, move).task) <==> !RejectedFinish(state, move)
  {
    match move
    case Decide(reply) => if state.control.ToDecide? { DecidedFailureIsLogged(config, state, reply); }
    case FinishTool =>
      FinishedTask(config, state.task, state.control.action, state.control.observation, state.nextId, state.now);
    case Execute => var stopped := AmbiguousStop(config, state.task);
    case _ =>
  }

  /** The gap is real: with no failures allowed, an unsupported FINISH as the first decision fails silently. */
  lemma SilentFailure(config: Config)
    requires config.Valid()
    ensures var last := RunFrom(config, Budget(1, 0, 1), [Run(0), Decide(Chose(Decision.Finish("done", ["e1"])))]);
      && last.task.status == Failed
      && forall i :: 0 <= i < |last.task.events| ==> last.task.events[i].kind != TaskFailed
  {
    hide After, Next, PlainOutcome;
    var decision := Decision.Finish("done", ["e1"]);
    TwoMoves(config, Init(Budget(1, 0, 1)), Run(0), Decide(Chose(decision)));
    FirstRunDecides(config);
    FirstFinish(config, Budget(1, 0, 1), decision);
    FirstFinishFails(Budget(1, 0, 1), decision);
  }

  lemma FirstRunDecides(config: Config)
    ensures Next(config, Init(Budget(1, 0, 1)), Run(0)) == Init(Budget(1, 0, 1)).(control := ToDecide(1))
  {
  }

  lemma FirstFinish(config: Config, budget: Budget, decision: Decision)
    requires decision.Finish? && budget.maxSteps >= 1
    ensures Next(config, Init(budget).(control := ToDecide(1)), Decide(Chose(decision))).task
         == PlainOutcome(NewTask(budget), decision)
  {
    hide ApplyDecision, PlainOutcome;
    var started := Init(budget).(control := ToDecide(1));
    PlainUnfolds(config, started.task, decision, 0);
    DecideUnfolds(config, started, 1, decision, PlainOutcome(NewTask(budget), decision), false);
  }

  lemma TwoMoves(config: Config, state: State, first: Move, second: Move)
    ensures After(config, state, [first, second]) == Next(config, Next(config, state, first), second)
  {
    assert [first, second][..1] == [first];
    assert [first][..0] == [];
    assert After(config, state, []) == state;
  }

  lemma FirstFinishFails(budget: Budget, decision: Decision)
    requires budget.maxFailures == 0 && decision.Finish?
    ensures var done := PlainOutcome(NewTask(budget), decision);
      && done.status == Failed
      && |done.events| == 2 && done.events[0].kind == TaskCreated && done.events[1].kind == ModelDecision
  {
    assert Available(Counted(NewTask(budget))) == {};
  }

  // ----- polling

  /** An accepted follow-up is armed for exactly the requested delay after the result is recorded. */
  lemma FollowUpIsArmed(config: Config, state: State)
    requires Inv(config, state) && state.control.ToFinish? && state.control.observation.outcome == Ok
    requires state.control.observation.continuation.Some?
    ensures var observation := state.control.observation;
      var follow := observation.continuation.value;
      var next := Next(config, state, FinishTool);
      var specs := config.registry.specs;
      var normalized := if follow.tool in specs then config.registry.normalize(follow.tool, follow.arguments) else None;
      if normalized.Some? && specs[follow.tool].risk == ReadOnly && !specs[follow.tool].requiresApproval
         && observation.pollAfter.Some?
      then
        && next.task.status == WaitingForExternal
        && next.task.pending == Some(PendingAction(state.nextId, follow.tool, normalized.value, false, 0))
        && next.task.wakeup == Some(state.now + observation.pollAfter.value)
      else next.task == state.task && next.control == AtRest
  {
    FinishedTask(config, state.task, state.control.action, state.control.observation, state.nextId, state.now);
  }

  /** A delayed follow-up is not executed early: until the clock reaches the wakeup time nothing calls a tool or
      asks the model for this task, and its record changes only by being cancelled or revoked. */
  lemma {:induction false} PollDelayRespected(config: Config, state: State, moves: seq<Move>)
    requires Inv(config, state) && state.control.AtRest?
    requires state.task.status == WaitingForExternal && state.task.wakeup.Some?
    ensures var last := After(config, state, moves);
      last.now >= state.task.wakeup.value
      || (last.invocations == state.invocations && last.calls == state.calls
          && last.decided == state.decided && last.control.AtRest?
          && (last.task == state.task || last.task.status in {Failed, Cancelled}))
  {
    if moves != [] {
      var shorter := moves[..|moves| - 1];
      PollDelayRespected(config, state, shorter);
      RunKeeps(config, state, shorter);
      DelayStep(config, After(config, state, shorter), moves[|moves| - 1]);
    }
  }

  lemma DelayStep(config: Config, state: State, move: Move)
    requires Inv(config, state)
    ensures Next(config, state, move).now >= state.now
    ensures
      state.control.AtRest? && (Terminal(state.task.status)
        || (state.task.status == WaitingForExternal && state.task.wakeup.Some?
          && state.task.wakeup.value > state.now)) ==>
      var next := Next(config, state, move);
      && next.invocations == state.invocations && next.calls == state.calls
      && next.decided == state.decided && next.control.AtRest?
      && (next.task == state.task || next.task.status in {Failed, Cancelled})
      && (Terminal(state.task.status) ==> next.task == state.task)
  {
  }

  /** Automatic polling is free: executing, finishing and re-polling an action never consumes a model step. */
  lemma PollingIsFree(config: Config, state: State, move: Move)
    requires Inv(config, state) && !move.Decide?
    ensures Next(config, state, move).task.steps == state.task.steps
    ensures Next(config, state, move).decided == state.decided
  {
    if move.FinishTool? && state.control.ToFinish? {
      FinishedTask(config, state.task, state.control.action, state.control.observation, state.nextId, state.now);
    }
  }
}
