/** The whole life of one agent task as a state machine.

    A move is one committed transaction, one external call or one crash. The volatile part of the state
    (`control`) is where the current holder of the task lock stands; a crash, or any error that is not
    handled, loses it and keeps the committed record. Moves that the code answers with an error leave the
    state as it is. Nothing constrains the moves: the model, the tools, the users, the scheduler and the
    crashes are all arbitrary. */
module AgentMachine {
  import opened Prelude
  import opened AgentContracts
  import opened AgentTransactions

  /** Where `_execute_pending_action` returns to. */
  datatype Resumption = ReturnToCaller | EnterLoop(limit: nat) | ContinueLoop(left: nat)

  datatype Control =
    | AtRest
    | ToExecute(resume: Resumption)
    | ToInvoke(action: PendingAction, resume: Resumption)
    | InTool(action: PendingAction, at: nat, resume: Resumption)
    | ToFinish(action: PendingAction, observation: Observation, resume: Resumption)
    | ToDecide(left: nat)

  /** The tool registry was entered; whether it ever returned is another matter. */
  datatype Invocation = Invocation(actionId: nat, tool: string, arguments: Arguments)

  /** An invocation returned; `invocation` is its place in the trace of invocations. */
  datatype Call = Call(invocation: nat, actionId: nat, tool: string, arguments: Arguments, observation: Observation)

  /** `invocations` and `calls` are the traces of tools entered and returned from, `history` is every observation
      ever recorded and `decided` counts committed decision outcomes; none of them influences any move. */
  datatype State = State(
    task: Task, control: Control, invocations: seq<Invocation>, calls: seq<Call>, history: seq<Note>,
    decided: nat, nextId: nat, now: nat)

  /** Why a call ends early: the process dies, a row is not found, or any other error is not handled. */
  datatype Cause = Died | NotFound | Unhandled

  datatype Move =
    | Tick(elapsed: nat)
    | Crash(cause: Cause)
    | Run(maxSteps: nat)
    | Execute
    | Invoke
    | ToolReturns(result: ToolResult)
    | FinishTool
    | Decide(reply: ModelReply)
    | Resolve(approvalId: nat, approve: bool)
    | Input(text: string)
    | CancelTask
    | RevokeAuthorization

  function Init(budget: Budget): State {
    State(NewTask(budget), AtRest, [], [], [], 0, 0, 0)
  }

  function LoopControl(left: nat): Control {
    if left == 0 then AtRest else ToDecide(left)
  }

  /** `max_steps or budget`, capped by the budget; 0 stands for a missing argument. */
  function RunLimit(budget: Budget, maxSteps: nat): nat {
    if maxSteps == 0 || maxSteps > budget.maxAutoSteps then budget.maxAutoSteps else maxSteps
  }

  function StartRun(state: State, maxSteps: nat): State {
    var task := state.task;
    var limit := RunLimit(task.budget, maxSteps);
    if task.status in {WaitingForApproval, WaitingForInput} || Terminal(task.status) then state
    else if task.status == WaitingForExternal then
      if task.wakeup.Some? && task.wakeup.value > state.now then state
      else state.(control := ToExecute(EnterLoop(limit)))
    else if task.pending.Some? then state.(control := ToExecute(EnterLoop(limit)))
    else state.(control := LoopControl(limit))
  }

  /** Control after an execution returned normally and the caller looked at the record again. */
  function AfterExecution(status: TaskStatus, observation: Observation, resume: Resumption): Control {
    match resume
    case ReturnToCaller => AtRest
    case EnterLoop(limit) => if observation.continuation.Some? || status != Running then AtRest else LoopControl(limit)
    case ContinueLoop(left) => if observation.pollAfter.Some? || status != Running then AtRest else LoopControl(left)
  }

  function DoExecute(config: Config, state: State, resume: Resumption): State {
    match BeginExecution(config, state.task)
    case NothingPending => state.(control := AtRest)
    case Ambiguous(task) =>
      state.(task := task, control := AfterExecution(task.status, AMBIGUOUS, resume),
             history := state.history + [NoteOf(state.task.pending.value, AMBIGUOUS)])
    case Started(task, action) => state.(task := task, control := ToInvoke(action, resume))
  }

  /** Entering the tool: from here on a crash loses the result but not the effects. */
  function DoInvoke(state: State, action: PendingAction, resume: Resumption): State {
    state.(invocations := state.invocations + [Invocation(action.id, action.tool, action.arguments)],
           control := InTool(action, |state.invocations|, resume))
  }

  function DoToolReturns(state: State, action: PendingAction, at: nat, resume: Resumption, result: ToolResult): State {
    var observation := ObservationOf(result);
    state.(calls := state.calls + [Call(at, action.id, action.tool, action.arguments, observation)],
           control := ToFinish(action, observation, resume))
  }

  function DoFinishTool(config: Config, state: State, action: PendingAction, observation: Observation,
      resume: Resumption): State {
    match FinishExecution(config, state.task, action, observation, state.nextId, state.now)
    case None => state.(control := AtRest)
    case Some(task) =>
      state.(task := task, control := AfterExecution(task.status, observation, resume),
             history := state.history + [NoteOf(action, observation)], nextId := state.nextId + 1)
  }

  function DoDecide(config: Config, state: State, left: nat, reply: ModelReply): State
    requires left > 0
  {
    var counted := state.(decided := state.decided + 1);
    if state.task.steps >= state.task.budget.maxSteps then
      counted.(task := FailForBudget(state.task), control := AtRest)
    else
      match reply
      case ModelError => counted.(task := RecordModelFailure(state.task), control := AtRest)
      case Chose(decision) =>
        match ApplyDecision(config, state.task, decision, state.nextId)
        case Conflict => state.(control := AtRest)
        case Refused => counted.(task := RecordModelFailure(state.task), control := AtRest)
        case Committed(task, execute) =>
          counted.(task := task, nextId := state.nextId + 1,
                   control := if execute then ToExecute(ContinueLoop(left - 1)) else AtRest)
  }

  function DoResolve(config: Config, state: State, approvalId: nat, approve: bool): State {
    match ResolveApproval(config, state.task, approvalId, approve)
    case None => state
    case Some(task) =>
      if approve then state.(task := task, control := ToExecute(ReturnToCaller))
      else
        var approval := state.task.approvals[FindApproval(state.task.approvals, approvalId).value];
        state.(task := task, history := state.history + [Note(approval.actionId, approval.tool, Error, true, [])])
  }

  function Adopt(state: State, task: Option<Task>): State {
    if task.Some? then state.(task := task.value) else state
  }

  function Next(config: Config, state: State, move: Move): State {
    match move
    case Tick(elapsed) => state.(now := state.now + elapsed)
    case Crash(_) => state.(control := AtRest)
    case Run(maxSteps) => if state.control.AtRest? then StartRun(state, maxSteps) else state
    case Execute => if state.control.ToExecute? then DoExecute(config, state, state.control.resume) else state
    case Invoke =>
      if state.control.ToInvoke? then DoInvoke(state, state.control.action, state.control.resume) else state
    case ToolReturns(result) =>
      if state.control.InTool?
      then DoToolReturns(state, state.control.action, state.control.at, state.control.resume, result) else state
    case FinishTool =>
      if state.control.ToFinish?
      then DoFinishTool(config, state, state.control.action, state.control.observation, state.control.resume) else state
    case Decide(reply) =>
      if state.control.ToDecide? && state.control.left > 0
      then DoDecide(config, state, state.control.left, reply)
      else state
    case Resolve(approvalId, approve) =>
      if state.control.AtRest? then DoResolve(config, state, approvalId, approve) else state
    case Input(text) => if state.control.AtRest? then Adopt(state, SubmitInput(state.task, text)) else state
    case CancelTask => if state.control.AtRest? then Adopt(state, Cancel(state.task)) else state
    case RevokeAuthorization =>
      if state.control.AtRest? then state.(task := FailAuthorization(state.task)) else state
  }

  /** The state after a whole run of moves. */
  function After(config: Config, state: State, moves: seq<Move>): State {
    if moves == [] then state
    else Next(config, After(config, state, moves[..|moves| - 1]), moves[|moves| - 1])
  }
}
