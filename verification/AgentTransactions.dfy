/** Each database transaction of the control plane as a function on the task record.
    `None`/`Conflict`/`Refused` results stand for raised errors, after which the transaction is rolled back. */
module AgentTransactions {
  import opened Prelude
  import opened AgentContracts

  const USER_INPUT_WINDOW := 8

  function MaxSequence(events: seq<Event>): nat {
    if events == [] then 0
    else
      var rest := MaxSequence(events[..|events| - 1]);
      var last := events[|events| - 1].sequence;
      if last > rest then last else rest
  }

  function AppendEvent(task: Task, kind: EventKind): Task {
    task.(events := task.events + [Event(MaxSequence(task.events) + 1, kind)])
  }

  function RecordObservation(config: Config, task: Task, note: Note): Task {
    task.(observations := Newest(task.observations + [note], config.maxObservations))
  }

  function RecordFailure(task: Task, retryable: bool): Task {
    var failures := task.failures + 1;
    if !retryable || failures > task.budget.maxFailures then
      task.(failures := failures, status := Failed, pending := None, wakeup := None)
    else
      task.(failures := failures, status := Running)
  }

  /** Evidence references the stored observations offer; empty references do not count. */
  function Available(task: Task): set<string> {
    set i, k | 0 <= i < |task.observations| && 0 <= k < |task.observations[i].evidence|
      && task.observations[i].evidence[k] != ""
      :: task.observations[i].evidence[k]
  }

  predicate EvidenceAccepted(task: Task, cited: seq<string>) {
    Available(task) != {} && forall i :: 0 <= i < |cited| ==> cited[i] in Available(task)
  }

  datatype Applied = Conflict | Refused | Committed(task: Task, execute: bool)

  function PrepareToolAction(config: Config, task: Task, tool: string, arguments: Arguments, newId: nat): Applied {
    match config.registry.Validate(tool, arguments)
    case None => Refused
    case Some(normalized) =>
      var waiting := task.Store(PendingAction(newId, tool, normalized, false, 0)).(wakeup := None);
      if config.registry.NeedsApproval(tool) then
        var requested := waiting.(
          approvals := waiting.approvals + [Approval(newId, newId, tool, normalized, Pending)],
          status := WaitingForApproval);
        Committed(AppendEvent(requested, ApprovalRequested), false)
      else
        Committed(waiting, true)
  }

  function ApplyDecision(config: Config, task: Task, decision: Decision, newId: nat): Applied {
    if task.status !in {Created, Running} then Conflict
    else
      var counted := AppendEvent(task.(status := Running, steps := task.steps + 1), ModelDecision);
      match decision
      case CallTool(None, _) => Refused
      case CallTool(Some(tool), arguments) => PrepareToolAction(config, counted, tool, arguments, newId)
      case AskUser(question) =>
        Committed(counted.(status := WaitingForInput, wakeup := None, question := Some(question)), false)
      case Finish(_, cited) =>
        if !EvidenceAccepted(counted, cited) then
          Committed(RecordFailure(counted, true), false)
        else
          Committed(AppendEvent(counted.(status := Completed, wakeup := None, finalEvidence := cited), TaskCompleted),
            false)
      case GiveUp(_) =>
        Committed(AppendEvent(counted.(status := Failed, wakeup := None), TaskFailed), false)
  }

  function RecordModelFailure(task: Task): Task {
    var recorded := RecordFailure(task, true);
    AppendEvent(recorded, if recorded.status == Failed then TaskFailed else ModelDecision)
  }

  function FailForBudget(task: Task): Task {
    AppendEvent(task.(status := Failed, pending := None, wakeup := None), TaskFailed)
  }

  /** The observation recorded when a started non-idempotent action left no result. */
  const AMBIGUOUS := Observation(Error, false, [], None, None)

  datatype Begun = NothingPending | Ambiguous(task: Task) | Started(task: Task, action: PendingAction)

  /** First transaction of executing the pending action: commit the started flag, or stop for good. */
  function BeginExecution(config: Config, task: Task): Begun {
    match task.pending
    case None => NothingPending
    case Some(action) =>
      if action.started && !config.registry.Idempotent(action.tool) then
        var noted := RecordObservation(config, task, NoteOf(action, AMBIGUOUS));
        var stopped := RecordFailure(noted.(pending := None, wakeup := None), false);
        Ambiguous(AppendEvent(AppendEvent(stopped, ToolFailed), TaskFailed))
      else
        var started := action.(started := true, attempts := action.attempts + 1);
        Started(AppendEvent(task.Store(started).(wakeup := None), ToolStarted), started)
  }

  /** Arms an automatic read-only follow-up, or returns to RUNNING; None when it raises. */
  function PrepareContinuation(config: Config, task: Task, observation: Observation, newId: nat,
      now: nat): Option<Task> {
    match observation.continuation
    case None => Some(task.(status := Running, wakeup := None))
    case Some(next) =>
      match config.registry.Validate(next.tool, next.arguments)
      case None => None
      case Some(normalized) =>
        if !config.registry.Pollable(next.tool) || observation.pollAfter.None? then None
        else Some(task.Store(PendingAction(newId, next.tool, normalized, false, 0)).(
          wakeup := Some(now + observation.pollAfter.value),
          status := WaitingForExternal))
  }

  /** Second transaction: record the result, then fail, continue or arm the follow-up; None when it raises. */
  function FinishExecution(config: Config, task: Task, action: PendingAction, observation: Observation, newId: nat,
      now: nat)
    : Option<Task>
  {
    if task.pending.None? || task.pending.value.id != action.id then None
    else
      var noted := RecordObservation(config, task, NoteOf(action, observation)).(pending := None, wakeup := None);
      if observation.outcome == Error then
        var failed := AppendEvent(RecordFailure(noted, observation.retryable), ToolFailed);
        Some(if failed.status == Failed then AppendEvent(failed, TaskFailed) else failed)
      else
        match PrepareContinuation(config, noted, observation, newId, now)
        case None => None
        case Some(continued) => Some(AppendEvent(continued, ToolCompleted))
  }

  function FindApproval(approvals: seq<Approval>, approvalId: nat): (r: Option<nat>)
    ensures r.Some? ==> r.value < |approvals| && approvals[r.value].approvalId == approvalId
    ensures r.None? ==> forall i :: 0 <= i < |approvals| ==> approvals[i].approvalId != approvalId
  {
    if approvals == [] then None
    else if approvals[0].approvalId == approvalId then Some(0)
    else
      var later := FindApproval(approvals[1..], approvalId);
      if later.Some? then Some(later.value + 1) else None
  }

  function ResolveApproval(config: Config, task: Task, approvalId: nat, approve: bool): Option<Task> {
    var found := FindApproval(task.approvals, approvalId);
    if found.None? then None
    else
      var approval := task.approvals[found.value];
      if task.status != WaitingForApproval || approval.status != Pending
         || task.pending.None? || task.pending.value.id != approval.actionId then None
      else
        var resolved := AppendEvent(
          task.(approvals :=
            task.approvals[found.value := approval.(status := if approve then Approved else Rejected)]),
          ApprovalResolved);
        if approve then Some(resolved.(wakeup := None, status := Running))
        else
          var note := Note(approval.actionId, approval.tool, Error, true, []);
          Some(RecordObservation(config, resolved, note).(pending := None, wakeup := None, status := Running))
  }

  function SubmitInput(task: Task, text: string): Option<Task> {
    if task.status != WaitingForInput then None
    else Some(AppendEvent(
      task.(inputs := Newest(task.inputs + [text], USER_INPUT_WINDOW), question := None, wakeup := None,
        status := Running),
      UserInputReceived))
  }

  function Cancel(task: Task): Option<Task> {
    if Terminal(task.status) then None
    else Some(AppendEvent(task.(status := Cancelled, pending := None, wakeup := None, question := None), TaskCancelled))
  }

  /** The creator can no longer authorize autonomous work; terminal tasks are left as they are. */
  function FailAuthorization(task: Task): Task {
    if Terminal(task.status) then task
    else AppendEvent(task.(status := Failed, pending := None, wakeup := None), TaskFailed)
  }

  function NewTask(budget: Budget): Task {
    AppendEvent(Task(Created, None, false, None, None, [], [], [], [], 0, 0, budget, []), TaskCreated)
  }

  /** The resume query: external waits that are due, and running tasks whose action column is not SQL NULL. */
  predicate ResumeReady(task: Task, now: nat) {
    || (task.status == WaitingForExternal && (task.wakeup.None? || task.wakeup.value <= now))
    || (task.status == Running && task.Column() != NeverWritten)
  }
}
