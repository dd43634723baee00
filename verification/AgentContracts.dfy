/** Values of the agent control plane: the committed task record and everything it embeds. */
module AgentContracts {
  import opened Prelude

  datatype TaskStatus =
    | Created | Running
    | WaitingForApproval | WaitingForInput | WaitingForExternal
    | Completed | Failed | Cancelled

  predicate Terminal(status: TaskStatus) {
    status in {Completed, Failed, Cancelled}
  }

  datatype Risk = ReadOnly | ControlledWrite | ExternalSideEffect
  datatype ToolSpec = ToolSpec(risk: Risk, requiresApproval: bool, idempotent: bool)

  /** Tool arguments in their serialized form. */
  type Arguments = string

  /** The fixed tool registry: a spec per name, and the argument schema check that normalizes or refuses. */
  datatype Registry = Registry(specs: map<string, ToolSpec>, normalize: (string, Arguments) -> Option<Arguments>) {
    function Validate(tool: string, arguments: Arguments): Option<Arguments> {
      if tool in specs then normalize(tool, arguments) else None
    }

    predicate NeedsApproval(tool: string) {
      tool in specs && specs[tool].requiresApproval
    }

    /** An unknown tool is treated as non-idempotent. */
    predicate Idempotent(tool: string) {
      tool in specs && specs[tool].idempotent
    }

    /** A tool the control plane may poll on its own. */
    predicate Pollable(tool: string) {
      tool in specs && specs[tool].risk == ReadOnly && !specs[tool].requiresApproval
    }

    /** Every tool that is not read-only must require approval (a validator of the tool spec). */
    ghost predicate Valid() {
      forall tool :: tool in specs && specs[tool].risk != ReadOnly ==> specs[tool].requiresApproval
    }
  }

  datatype Config = Config(registry: Registry, maxObservations: nat) {
    ghost predicate Valid() { maxObservations >= 1 && registry.Valid() }
  }

  datatype Budget = Budget(maxSteps: nat, maxFailures: nat, maxAutoSteps: nat)

  datatype PendingAction = PendingAction(id: nat, tool: string, arguments: Arguments, started: bool, attempts: nat)

  datatype ApprovalStatus = Pending | Approved | Rejected
  datatype Approval = Approval(approvalId: nat, actionId: nat, tool: string, arguments: Arguments,
      status: ApprovalStatus)

  datatype Outcome = Ok | Error
  datatype Continuation = Continuation(tool: string, arguments: Arguments)
  datatype Observation = Observation(
    outcome: Outcome, retryable: bool, evidence: seq<string>,
    pollAfter: Option<nat>, continuation: Option<Continuation>)

  /** What executing a tool can do: return an observation or raise one of the handled exceptions. */
  datatype ToolResult = Returned(observation: Observation) | DomainError(retryable: bool) | BadArguments | Unexpected

  /** Exceptions become error observations that carry no evidence. */
  function ObservationOf(result: ToolResult): Observation {
    match result
    case Returned(observation) => observation
    case DomainError(retryable) => Observation(Error, retryable, [], None, None)
    case BadArguments => Observation(Error, true, [], None, None)
    case Unexpected => Observation(Error, false, [], None, None)
  }

  /** One stored entry of the observation window. */
  datatype Note = Note(actionId: nat, tool: string, outcome: Outcome, retryable: bool, evidence: seq<string>)

  function NoteOf(action: PendingAction, observation: Observation): Note {
    Note(action.id, action.tool, observation.outcome, observation.retryable, observation.evidence)
  }

  datatype EventKind =
    | TaskCreated | ModelDecision | ToolStarted | ToolCompleted | ToolFailed
    | ApprovalRequested | ApprovalResolved | UserInputReceived
    | TaskCompleted | TaskFailed | TaskCancelled
  datatype Event = Event(sequence: nat, kind: EventKind)

  datatype Decision =
    | CallTool(tool: Option<string>, arguments: Arguments)
    | AskUser(question: string)
    | Finish(answer: string, evidence: seq<string>)
    | GiveUp(reason: string)
  datatype ModelReply = ModelError | Chose(decision: Decision)

  /** What the JSON column of the pending action holds. Clearing an action stores the JSON text null, which is not
      SQL NULL; only a column that never held an action is SQL NULL. */
  datatype ActionColumn = NeverWritten | Cleared | Holding(action: PendingAction)

  /** The durable task record, as one database row with its approvals and events. The action column is kept as the
      action and whether the column was ever written: assigning None to a None leaves the column as it is. */
  datatype Task = Task(
    status: TaskStatus,
    pending: Option<PendingAction>,
    written: bool,
    wakeup: Option<nat>,
    question: Option<string>,
    approvals: seq<Approval>,
    observations: seq<Note>,
    events: seq<Event>,
    inputs: seq<string>,
    steps: nat,
    failures: nat,
    budget: Budget,
    finalEvidence: seq<string>)
  {
    function Column(): ActionColumn {
      if pending.Some? then Holding(pending.value) else if written then Cleared else NeverWritten
    }

    function Store(action: PendingAction): Task {
      this.(pending := Some(action), written := true)
    }
  }
}
