/**
 * The inductive invariant of the task machine: every move keeps it, whatever the model, tools, users and crashes do.
 */
module AgentInvariant {
  import opened Prelude
  import opened AgentContracts
  import opened AgentTransactions
  import opened AgentMachine

  predicate Executable(status: TaskStatus) { status in {Running, WaitingForExternal} }

  /** How status, pending action, wakeup and open question fit together. */
  ghost predicate StatusInv(config: Config, task: Task) {
    && (task.pending.Some? ==>
          task.written && task.status in {Running, WaitingForApproval, WaitingForExternal}
          && task.pending.value.tool in config.registry.specs)
    && (task.status == WaitingForApproval ==>
          task.pending.Some? && !task.pending.value.started && config.registry.NeedsApproval(task.pending.value.tool))
    && (task.status == WaitingForExternal ==>
          && task.pending.Some? && config.registry.Pollable(task.pending.value.tool)
          && (task.wakeup.None? <==> task.pending.value.started))
    && (task.wakeup.Some? ==> task.status == WaitingForExternal)
    && (task.status == WaitingForInput ==> task.question.Some?)
  }

  predicate Matches(approval: Approval, id: nat, tool: string, arguments: Arguments) {
    approval.actionId == id && approval.tool == tool && approval.arguments == arguments
  }

  /** Some approval of exactly this action, tool and arguments was granted. */
  ghost predicate Granted(approvals: seq<Approval>, id: nat, tool: string, arguments: Arguments) {
    exists i :: 0 <= i < |approvals| && Matches(approvals[i], id, tool, arguments) && approvals[i].status == Approved
  }

  ghost predicate ApprovalInv(config: Config, task: Task, nextId: nat) {
    var approvals := task.approvals;
    && (forall i :: 0 <= i < |approvals| ==> approvals[i].actionId < nextId && approvals[i].approvalId < nextId)
    && (forall i, j :: 0 <= i < j < |approvals| ==>
          approvals[i].actionId != approvals[j].actionId && approvals[i].approvalId != approvals[j].approvalId)
    && (forall i :: 0 <= i < |approvals| && approvals[i].status == Pending && !Terminal(task.status) ==>
          task.status == WaitingForApproval && i == |approvals| - 1)
    && (task.status == WaitingForApproval && task.pending.Some? ==>
          && |approvals| > 0 && approvals[|approvals| - 1].status == Pending
          && Matches(approvals[|approvals| - 1], task.pending.value.id, task.pending.value.tool,
            task.pending.value.arguments))
    && (task.pending.Some? ==> var action := task.pending.value;
          && action.id < nextId
          && (forall i :: 0 <= i < |approvals| && approvals[i].actionId == action.id ==>
                Matches(approvals[i], action.id, action.tool, action.arguments) && approvals[i].status != Rejected)
          && (task.status != WaitingForApproval && config.registry.NeedsApproval(action.tool) ==>
                Granted(approvals, action.id, action.tool, action.arguments)))
  }

  ghost predicate InvocationInv(config: Config, task: Task, invocations: seq<Invocation>, nextId: nat) {
    && (forall k :: 0 <= k < |invocations| ==>
          && invocations[k].actionId < nextId
          && invocations[k].tool in config.registry.specs
          && (config.registry.NeedsApproval(invocations[k].tool) ==>
                Granted(task.approvals, invocations[k].actionId, invocations[k].tool, invocations[k].arguments)))
    && (forall i, k | 0 <= i < |task.approvals| && 0 <= k < |invocations| ::
          task.approvals[i].actionId == invocations[k].actionId ==> task.approvals[i].status == Approved)
    && (task.pending.Some? ==> var action := task.pending.value;
          forall k :: 0 <= k < |invocations| && invocations[k].actionId == action.id ==>
            action.started && invocations[k] == Invocation(action.id, action.tool, action.arguments))
    && (forall j, k :: 0 <= j < k < |invocations| && invocations[j].actionId == invocations[k].actionId ==>
          config.registry.Idempotent(invocations[j].tool) && invocations[j] == invocations[k])
  }

  /** Every return answers an invocation of its own: the same action, tool and arguments, in the same order. */
  ghost predicate AnswerInv(calls: seq<Call>, invocations: seq<Invocation>) {
    && (forall k :: 0 <= k < |calls| ==>
          && calls[k].invocation < |invocations|
          && invocations[calls[k].invocation] == Invocation(calls[k].actionId, calls[k].tool, calls[k].arguments))
    && (forall j, k :: 0 <= j < k < |calls| ==> calls[j].invocation < calls[k].invocation)
  }

  ghost predicate ControlInv(config: Config, state: State) {
    var task := state.task;
    match state.control
    case AtRest => true
    case ToExecute(_) => task.pending.Some? && Executable(task.status)
    case ToInvoke(action, _) =>
      && task.pending == Some(action) && action.started && Executable(task.status) && task.wakeup.None?
      && (!config.registry.Idempotent(action.tool) ==>
            forall k :: 0 <= k < |state.invocations| ==> state.invocations[k].actionId != action.id)
    case InTool(action, at, _) =>
      && task.pending == Some(action) && action.started && Executable(task.status) && task.wakeup.None?
      && at == |state.invocations| - 1 && state.invocations[at] == Invocation(action.id, action.tool, action.arguments)
      && forall k :: 0 <= k < |state.calls| ==> state.calls[k].invocation < at
    case ToFinish(action, observation, _) =>
      && task.pending == Some(action) && action.started && Executable(task.status) && task.wakeup.None?
      && |state.calls| > 0
      && (var last := state.calls[|state.calls| - 1];
          last == Call(last.invocation, action.id, action.tool, action.arguments, observation))
    case ToDecide(left) => left > 0 && task.pending.None? && task.status in {Created, Running}
  }

  function Min(a: int, b: int): int { if a <= b then a else b }

  ghost predicate BudgetInv(task: Task, decided: nat) {
    && task.steps <= task.budget.maxSteps
    && task.failures <= task.budget.maxFailures + 1
    && (!Terminal(task.status) ==> task.failures <= task.budget.maxFailures)
    && decided <= task.steps + Min(task.failures, task.budget.maxFailures) + (if Terminal(task.status) then 1 else 0)
  }

  /** Every reference of a note was returned by a call made for the same action. */
  ghost predicate Sourced(note: Note, calls: seq<Call>) {
    note.evidence != [] ==>
      exists k :: 0 <= k < |calls| && calls[k].actionId == note.actionId
        && calls[k].observation.evidence == note.evidence
  }

  ghost predicate EvidenceInv(config: Config, state: State) {
    && state.task.observations == Newest(state.history, config.maxObservations)
    && (forall n :: 0 <= n < |state.history| ==> Sourced(state.history[n], state.calls))
    && (state.task.status == Completed ==> EvidenceAccepted(state.task, state.task.finalEvidence))
  }

  ghost predicate EventInv(task: Task) {
    && |task.events| > 0
    && forall i :: 0 <= i < |task.events| ==> task.events[i].sequence == i + 1
  }

  ghost predicate Inv(config: Config, state: State) {
    && config.Valid()
    && StatusInv(config, state.task)
    && ApprovalInv(config, state.task, state.nextId)
    && InvocationInv(config, state.task, state.invocations, state.nextId)
    && AnswerInv(state.calls, state.invocations)
    && ControlInv(config, state)
    && BudgetInv(state.task, state.decided)
    && EvidenceInv(config, state)
    && EventInv(state.task)
    && |state.task.inputs| <= USER_INPUT_WINDOW
  }

  lemma MaxSequenceIsLength(events: seq<Event>)
    requires forall i :: 0 <= i < |events| ==> events[i].sequence == i + 1
    ensures MaxSequence(events) == |events|
  {
    if events != [] { MaxSequenceIsLength(events[..|events| - 1]); }
  }

  /** Appending an event keeps the numbering and changes nothing else. */
  lemma AppendNumbers(task: Task, kind: EventKind)
    requires forall i :: 0 <= i < |task.events| ==> task.events[i].sequence == i + 1
    ensures EventInv(AppendEvent(task, kind))
  {
    MaxSequenceIsLength(task.events);
  }

  lemma InitInv(config: Config, budget: Budget)
    requires config.Valid()
    ensures Inv(config, Init(budget))
  {
    AppendNumbers(NewTask(budget).(events := []), TaskCreated);
  }

  /**
   * Both safety conjuncts about approvals and invocations, which depend only on approvals, pending action and status.
   */
  ghost predicate SafeInv(config: Config, task: Task, invocations: seq<Invocation>, nextId: nat) {
    ApprovalInv(config, task, nextId) && InvocationInv(config, task, invocations, nextId)
  }

  lemma SafeWithoutPending(config: Config, task: Task, task': Task, invocations: seq<Invocation>, nextId: nat,
      nextId': nat)
    requires SafeInv(config, task, invocations, nextId) && nextId <= nextId'
    requires task'.approvals == task.approvals && task'.pending.None? && task'.status != WaitingForApproval
    requires task.status != WaitingForApproval || Terminal(task'.status)
    requires Terminal(task.status) ==> Terminal(task'.status)
    ensures SafeInv(config, task', invocations, nextId')
  {
  }

  lemma SafeWithFreshAction(config: Config, task: Task, task': Task, invocations: seq<Invocation>, nextId: nat)
    requires SafeInv(config, task, invocations, nextId)
    requires task'.approvals == task.approvals && task'.pending.Some? && task'.pending.value.id == nextId
    requires !config.registry.NeedsApproval(task'.pending.value.tool)
    requires task.status != WaitingForApproval && !Terminal(task.status)
      && task'.status in {Running, WaitingForExternal}
    ensures SafeInv(config, task', invocations, nextId + 1)
  {
  }

  lemma SafeWithRequest(config: Config, task: Task, task': Task, invocations: seq<Invocation>, nextId: nat)
    requires SafeInv(config, task, invocations, nextId)
    requires task'.pending.Some? && task'.pending.value.id == nextId
    requires task'.approvals == task.approvals +
               [Approval(nextId, nextId, task'.pending.value.tool, task'.pending.value.arguments, Pending)]
    requires task.status != WaitingForApproval && !Terminal(task.status) && task'.status == WaitingForApproval
    ensures SafeInv(config, task', invocations, nextId + 1)
  {
    forall k | 0 <= k < |invocations| && config.registry.NeedsApproval(invocations[k].tool)
      ensures Granted(task'.approvals, invocations[k].actionId, invocations[k].tool, invocations[k].arguments)
    {
      var i :| 0 <= i < |task.approvals|
        && Matches(task.approvals[i], invocations[k].actionId, invocations[k].tool, invocations[k].arguments)
        && task.approvals[i].status == Approved;
      assert task'.approvals[i] == task.approvals[i];
    }
  }

  lemma AmbiguousStop(config: Config, task: Task) returns (stopped: Task)
    requires EventInv(task) && task.pending.Some?
    requires task.pending.value.started && !config.registry.Idempotent(task.pending.value.tool)
    ensures BeginExecution(config, task) == Ambiguous(stopped)
    ensures EventInv(stopped)
    ensures stopped == task.(
      status := Failed, pending := None, wakeup := None, failures := task.failures + 1, events := stopped.events,
      observations := Newest(task.observations + [NoteOf(task.pending.value, AMBIGUOUS)], config.maxObservations))
  {
    var noted := RecordObservation(config, task, NoteOf(task.pending.value, AMBIGUOUS));
    var failed := RecordFailure(noted.(pending := None, wakeup := None), false);
    AppendNumbers(failed, ToolFailed);
    AppendNumbers(AppendEvent(failed, ToolFailed), TaskFailed);
    stopped := AppendEvent(AppendEvent(failed, ToolFailed), TaskFailed);
  }

  lemma AmbiguousKeeps(config: Config, state: State)
    requires Inv(config, state) && state.control.ToExecute?
    requires state.task.pending.value.started && !config.registry.Idempotent(state.task.pending.value.tool)
    ensures Inv(config, DoExecute(config, state, state.control.resume))
  {
    var stopped := AmbiguousStop(config, state.task);
    var next := DoExecute(config, state, state.control.resume);
    NewestAppend(state.history, NoteOf(state.task.pending.value, AMBIGUOUS), config.maxObservations);
    assert next.task == stopped && next.control == AtRest;
    SafeWithoutPending(config, state.task, stopped, state.invocations, state.nextId, state.nextId);
    assert EvidenceInv(config, next);
  }

  lemma StartKeeps(config: Config, state: State)
    requires Inv(config, state) && state.control.ToExecute?
    requires !state.task.pending.value.started || config.registry.Idempotent(state.task.pending.value.tool)
    ensures Inv(config, DoExecute(config, state, state.control.resume))
  {
    var action := state.task.pending.value;
    var started := action.(started := true, attempts := action.attempts + 1);
    var marked := state.task.Store(started).(wakeup := None);
    AppendNumbers(marked, ToolStarted);
    var next := DoExecute(config, state, state.control.resume);
    assert next.task == AppendEvent(marked, ToolStarted) && next.control == ToInvoke(started, state.control.resume);
    SafeWhenStarted(config, state.task, next.task, state.invocations, state.nextId);
    assert EvidenceInv(config, next);
  }

  lemma SafeWhenStarted(config: Config, task: Task, task': Task, invocations: seq<Invocation>, nextId: nat)
    requires SafeInv(config, task, invocations, nextId) && task.pending.Some? && task.status != WaitingForApproval
    requires task'.approvals == task.approvals && task'.status == task.status
    requires task'.pending == Some(task.pending.value.(started := true, attempts := task.pending.value.attempts + 1))
    ensures SafeInv(config, task', invocations, nextId)
  {
  }

  lemma ExecuteKeeps(config: Config, state: State)
    requires Inv(config, state) && state.control.ToExecute?
    ensures Inv(config, DoExecute(config, state, state.control.resume))
  {
    var action := state.task.pending.value;
    if action.started && !config.registry.Idempotent(action.tool) {
      AmbiguousKeeps(config, state);
    } else {
      StartKeeps(config, state);
    }
  }

  lemma InvokeKeeps(config: Config, state: State)
    requires Inv(config, state) && state.control.ToInvoke?
    ensures Inv(config, DoInvoke(state, state.control.action, state.control.resume))
  {
    var action := state.control.action;
    var next := DoInvoke(state, action, state.control.resume);
    SafeWhenInvoked(config, state.task, action, state.invocations, state.nextId);
    assert AnswerInv(next.calls, next.invocations);
    assert EvidenceInv(config, next);
  }

  lemma SafeWhenInvoked(config: Config, task: Task, action: PendingAction, invocations: seq<Invocation>, nextId: nat)
    requires SafeInv(config, task, invocations, nextId) && StatusInv(config, task)
    requires task.pending == Some(action) && action.started && Executable(task.status)
    requires !config.registry.Idempotent(action.tool) ==>
      forall k :: 0 <= k < |invocations| ==> invocations[k].actionId != action.id
    ensures SafeInv(config, task, invocations + [Invocation(action.id, action.tool, action.arguments)], nextId)
  {
  }

  lemma ToolReturnsKeeps(config: Config, state: State, result: ToolResult)
    requires Inv(config, state) && state.control.InTool?
    ensures Inv(config, DoToolReturns(state, state.control.action, state.control.at, state.control.resume, result))
  {
    var next := DoToolReturns(state, state.control.action, state.control.at, state.control.resume, result);
    forall n | 0 <= n < |state.history| ensures Sourced(next.history[n], next.calls) {
      SourcedGrows(state.history[n], state.calls, next.calls[|state.calls|]);
    }
  }

  lemma SourcedGrows(note: Note, calls: seq<Call>, call: Call)
    requires Sourced(note, calls)
    ensures Sourced(note, calls + [call])
  {
    if note.evidence != [] {
      var k :| 0 <= k < |calls| && calls[k].actionId == note.actionId && calls[k].observation.evidence == note.evidence;
      assert (calls + [call])[k] == calls[k];
    }
  }

  /** What the second transaction commits, case by case. */
  ghost predicate Recorded(
    config: Config, task: Task, action: PendingAction, observation: Observation, newId: nat, done: Task)
  {
    && EventInv(done)
    && done == task.(
         status := done.status, pending := done.pending, written := done.written, wakeup := done.wakeup,
         failures := done.failures,
         events := done.events,
         observations := Newest(task.observations + [NoteOf(action, observation)], config.maxObservations))
    && done.failures == task.failures + (if observation.outcome == Error then 1 else 0)
    && done.status in {Running, WaitingForExternal, Failed}
    && (done.status == WaitingForExternal ==>
          && done.wakeup.Some? && done.pending.Some? && done.pending.value.id == newId && !done.pending.value.started
          && config.registry.Pollable(done.pending.value.tool))
    && (done.status != WaitingForExternal ==> done.pending.None? && done.wakeup.None?)
    && (done.written <==> task.written || done.pending.Some?)
    && (done.status == Failed <==>
          observation.outcome == Error && (!observation.retryable || task.failures + 1 > task.budget.maxFailures))
    && (done.status == WaitingForExternal <==> observation.outcome == Ok && observation.continuation.Some?)
  }

  function Noted(config: Config, task: Task, action: PendingAction, observation: Observation): Task {
    RecordObservation(config, task, NoteOf(action, observation)).(pending := None, wakeup := None)
  }

  lemma FinishedTask(config: Config, task: Task, action: PendingAction, observation: Observation, newId: nat, now: nat)
    requires EventInv(task) && task.pending == Some(action) && task.wakeup.None? && Executable(task.status)
    ensures var done := FinishExecution(config, task, action, observation, newId, now);
      done.Some? ==> Recorded(config, task, action, observation, newId, done.value)
  {
    if observation.outcome == Error {
      FinishedWithError(config, task, action, observation, newId, now);
    } else {
      FinishedWell(config, task, action, observation, newId, now);
    }
  }

  lemma FinishedWithError(
    config: Config, task: Task, action: PendingAction, observation: Observation, newId: nat, now: nat)
    requires EventInv(task) && task.pending == Some(action) && observation.outcome == Error
    ensures var done := FinishExecution(config, task, action, observation, newId, now);
      done.Some? && Recorded(config, task, action, observation, newId, done.value)
  {
    hide MaxSequence;
    var recorded := RecordFailure(Noted(config, task, action, observation), observation.retryable);
    AppendNumbers(recorded, ToolFailed);
    AppendNumbers(AppendEvent(recorded, ToolFailed), TaskFailed);
  }

  lemma FinishedWell(
    config: Config, task: Task, action: PendingAction, observation: Observation, newId: nat, now: nat)
    requires EventInv(task) && task.pending == Some(action) && observation.outcome == Ok
    ensures var done := FinishExecution(config, task, action, observation, newId, now);
      done.Some? ==> Recorded(config, task, action, observation, newId, done.value)
  {
    var continued := PrepareContinuation(config, Noted(config, task, action, observation), observation, newId, now);
    if continued.Some? { AppendNumbers(continued.value, ToolCompleted); }
  }

  lemma FinishedSafe(
    config: Config, state: State, action: PendingAction, observation: Observation, task': Task)
    requires Inv(config, state) && Recorded(config, state.task, action, observation, state.nextId, task')
    requires Executable(state.task.status)
    ensures SafeInv(config, task', state.invocations, state.nextId + 1)
  {
    hide EventInv, EvidenceInv, ControlInv, BudgetInv;
    if task'.status == WaitingForExternal {
      SafeWithFreshAction(config, state.task, task', state.invocations, state.nextId);
    } else {
      SafeWithoutPending(config, state.task, task', state.invocations, state.nextId, state.nextId + 1);
    }
  }

  lemma FinishedControl(
    config: Config, state: State, action: PendingAction, observation: Observation, task': Task, control': Control)
    requires Inv(config, state) && state.control.ToFinish?
    requires Recorded(config, state.task, action, observation, state.nextId, task')
    requires control' == AfterExecution(task'.status, observation, state.control.resume)
    ensures StatusInv(config, task') && BudgetInv(task', state.decided)
    ensures ControlInv(config, state.(task := task', control := control'))
  {
    hide EvidenceInv, InvocationInv, ApprovalInv, AnswerInv;
  }

  lemma FinishedKeeps(config: Config, state: State, task': Task, control': Control)
    requires Inv(config, state) && state.control.ToFinish?
    requires FinishExecution(config, state.task, state.control.action, state.control.observation, state.nextId,
      state.now)
          == Some(task')
    requires control' == AfterExecution(task'.status, state.control.observation, state.control.resume)
    ensures Inv(config, state.(task := task', control := control', nextId := state.nextId + 1,
                               history := state.history + [NoteOf(state.control.action, state.control.observation)]))
  {
    hide FinishExecution, StatusInv, BudgetInv, ApprovalInv, InvocationInv, AnswerInv;
    var action, observation := state.control.action, state.control.observation;
    var note := NoteOf(action, observation);
    FinishedTask(config, state.task, action, observation, state.nextId, state.now);
    assert Sourced(note, state.calls) by {
      assert state.calls[|state.calls| - 1].actionId == note.actionId;
    }
    FinishedSafe(config, state, action, observation, task');
    FinishedControl(config, state, action, observation, task', control');
    FinishedEvidence(config, state, task', note);
  }

  lemma FinishedEvidence(config: Config, state: State, task': Task, note: Note)
    requires EvidenceInv(config, state) && config.maxObservations >= 1 && Sourced(note, state.calls)
    requires task'.observations == Newest(state.task.observations + [note], config.maxObservations)
    requires task'.status != Completed
    ensures EvidenceInv(config, state.(task := task', history := state.history + [note]))
  {
    NewestAppend(state.history, note, config.maxObservations);
  }

  lemma FinishToolKeeps(config: Config, state: State)
    requires Inv(config, state) && state.control.ToFinish?
    ensures Inv(config, DoFinishTool(config, state, state.control.action, state.control.observation,
      state.control.resume))
  {
    var action, observation := state.control.action, state.control.observation;
    var done := FinishExecution(config, state.task, action, observation, state.nextId, state.now);
    if done.Some? {
      FinishedKeeps(config, state, done.value, AfterExecution(done.value.status, observation, state.control.resume));
    }
  }

  function Counted(task: Task): Task {
    AppendEvent(task.(status := Running, steps := task.steps + 1), ModelDecision)
  }

  /** A committed tool decision only adds a fresh action, and its approval request when the tool needs one. */
  lemma PreparedTask(config: Config, task: Task, tool: string, arguments: Arguments, newId: nat)
    requires EventInv(task)
    ensures PrepareToolAction(config, task, tool, arguments, newId).Committed? ==>
      var applied := PrepareToolAction(config, task, tool, arguments, newId);
      var normalized := config.registry.Validate(tool, arguments);
      var done := applied.task;
      && EventInv(done) && normalized.Some?
      && applied.execute == !config.registry.NeedsApproval(tool)
      && done == task.Store(PendingAction(newId, tool, normalized.value, false, 0)).(
           wakeup := None,
           status := if applied.execute then task.status else WaitingForApproval,
           approvals := if applied.execute then task.approvals
                        else task.approvals + [Approval(newId, newId, tool, normalized.value, Pending)],
           events := done.events)
  {
    if config.registry.Validate(tool, arguments).Some? && config.registry.NeedsApproval(tool) {
      var normalized := config.registry.Validate(tool, arguments).value;
      AppendNumbers(task.Store(PendingAction(newId, tool, normalized, false, 0)).(
                      wakeup := None, status := WaitingForApproval,
                      approvals := task.approvals + [Approval(newId, newId, tool, normalized, Pending)]),
                    ApprovalRequested);
    }
  }

  /** A decision outcome that leaves a fresh action pending, to run at once or to wait for its approval. */
  lemma FreshActionKeeps(config: Config, state: State, task': Task, action: PendingAction, control': Control)
    requires Inv(config, state) && state.control.ToDecide? && state.task.steps < state.task.budget.maxSteps
    requires action.id == state.nextId && !action.started && action.tool in config.registry.specs
    requires EventInv(task')
    requires
      var execute := !config.registry.NeedsApproval(action.tool);
      && control' == (if execute then ToExecute(ContinueLoop(state.control.left - 1)) else AtRest)
      && task' == state.task.Store(action).(
           status := if execute then Running else WaitingForApproval, wakeup := None,
           approvals := if execute then state.task.approvals
                        else state.task.approvals
                             + [Approval(action.id, action.id, action.tool, action.arguments, Pending)],
           steps := state.task.steps + 1, events := task'.events)
    requires state.control.left > 0
    ensures Inv(config, state.(task := task', decided := state.decided + 1, nextId := state.nextId + 1,
      control := control'))
  {
    if config.registry.NeedsApproval(action.tool) {
      SafeWithRequest(config, state.task, task', state.invocations, state.nextId);
    } else {
      SafeWithFreshAction(config, state.task, task', state.invocations, state.nextId);
    }
    assert EvidenceInv(config, state.(task := task'));
  }

  lemma DecideUnfolds(config: Config, state: State, left: nat, decision: Decision, task': Task, execute: bool)
    requires left > 0 && state.task.steps < state.task.budget.maxSteps
    requires ApplyDecision(config, state.task, decision, state.nextId) == Committed(task', execute)
    ensures DoDecide(config, state, left, Chose(decision)) == state.(
      task := task', decided := state.decided + 1, nextId := state.nextId + 1,
      control := if execute then ToExecute(ContinueLoop(left - 1)) else AtRest)
  {
    hide ApplyDecision;
  }

  lemma ToolUnfolds(config: Config, task: Task, tool: string, arguments: Arguments, newId: nat)
    requires task.status in {Created, Running}
    ensures ApplyDecision(config, task, CallTool(Some(tool), arguments), newId)
         == PrepareToolAction(config, Counted(task), tool, arguments, newId)
    ensures PrepareToolAction(config, Counted(task), tool, arguments, newId).Committed?
         <==> config.registry.Validate(tool, arguments).Some?
  {
  }

  lemma ToolDecisionKeeps(config: Config, state: State, tool: string, arguments: Arguments)
    requires Inv(config, state) && state.control.ToDecide? && state.control.left > 0
    requires state.task.steps < state.task.budget.maxSteps
    requires config.registry.Validate(tool, arguments).Some?
    ensures Inv(config, DoDecide(config, state, state.control.left, Chose(CallTool(Some(tool), arguments))))
  {
    CountedShape(state.task);
    PreparedTask(config, Counted(state.task), tool, arguments, state.nextId);
    ToolUnfolds(config, state.task, tool, arguments, state.nextId);
    var applied := PrepareToolAction(config, Counted(state.task), tool, arguments, state.nextId);
    var action := applied.task.pending.value;
    DecideUnfolds(config, state, state.control.left, CallTool(Some(tool), arguments), applied.task, applied.execute);
    FreshActionKeeps(config, state, applied.task, action,
                     if applied.execute then ToExecute(ContinueLoop(state.control.left - 1)) else AtRest);
  }

  /** A decision outcome that leaves no action pending and no approval touched. */
  lemma PlainOutcomeKeeps(config: Config, state: State, task': Task)
    requires Inv(config, state) && state.control.ToDecide? && state.task.steps < state.task.budget.maxSteps
    requires EventInv(task')
    requires task' == state.task.(
      status := task'.status, question := task'.question, events := task'.events, steps := state.task.steps + 1,
      failures := task'.failures, finalEvidence := task'.finalEvidence)
    requires task'.status in {Running, WaitingForInput, Completed, Failed}
    requires task'.status == WaitingForInput ==> task'.question.Some?
    requires task'.status == Completed ==> EvidenceAccepted(state.task, task'.finalEvidence)
    requires
      || task'.failures == state.task.failures
      || (task'.failures == state.task.failures + 1
        && (!Terminal(task'.status) ==> task'.failures <= task'.budget.maxFailures))
    ensures Inv(config, state.(task := task', decided := state.decided + 1, nextId := state.nextId + 1,
      control := AtRest))
  {
    SafeWithoutPending(config, state.task, task', state.invocations, state.nextId, state.nextId + 1);
    assert Available(task') == Available(state.task);
    assert EvidenceInv(config, state.(task := task'));
  }

  lemma PlainDecisionKeeps(config: Config, state: State, decision: Decision)
    requires Inv(config, state) && state.control.ToDecide? && state.control.left > 0
    requires state.task.steps < state.task.budget.maxSteps
    requires !decision.CallTool?
    ensures Inv(config, DoDecide(config, state, state.control.left, Chose(decision)))
  {
    var done := PlainOutcome(state.task, decision);
    PlainShape(state.task, decision);
    PlainUnfolds(config, state.task, decision, state.nextId);
    DecideUnfolds(config, state, state.control.left, decision, done, false);
    PlainOutcomeKeeps(config, state, done);
  }

  /** What the decisions that call no tool may change. */
  lemma PlainShape(task: Task, decision: Decision)
    requires EventInv(task) && !decision.CallTool? && task.wakeup.None? && task.pending.None?
    ensures var done := PlainOutcome(task, decision);
      && EventInv(done)
      && done == task.(
           status := done.status, question := done.question, events := done.events, steps := task.steps + 1,
           failures := done.failures, finalEvidence := done.finalEvidence)
      && done.status in {Running, WaitingForInput, Completed, Failed}
      && (done.status == WaitingForInput ==> done.question.Some?)
      && (done.status == Completed ==> EvidenceAccepted(task, done.finalEvidence))
      && (done.failures == task.failures
          || (done.failures == task.failures + 1
            && (!Terminal(done.status) ==> done.failures <= done.budget.maxFailures)))
  {
    match decision
    case AskUser(_) => AskShape(task, decision);
    case Finish(_, _) => FinishShape(task, decision);
    case GiveUp(_) => GiveUpShape(task, decision);
  }

  /** The record a non-tool decision commits; it does not depend on the registry or on fresh ids. */
  function PlainOutcome(task: Task, decision: Decision): Task
    requires !decision.CallTool?
  {
    match decision
    case AskUser(question) => Counted(task).(status := WaitingForInput, wakeup := None, question := Some(question))
    case Finish(_, cited) =>
      if !EvidenceAccepted(Counted(task), cited) then RecordFailure(Counted(task), true)
      else AppendEvent(Counted(task).(status := Completed, wakeup := None, finalEvidence := cited), TaskCompleted)
    case GiveUp(_) => AppendEvent(Counted(task).(status := Failed, wakeup := None), TaskFailed)
  }

  lemma PlainUnfolds(config: Config, task: Task, decision: Decision, newId: nat)
    requires task.status in {Created, Running} && !decision.CallTool?
    ensures ApplyDecision(config, task, decision, newId) == Committed(PlainOutcome(task, decision), false)
  {
  }

  lemma CountedShape(task: Task)
    requires EventInv(task)
    ensures EventInv(Counted(task)) && Available(Counted(task)) == Available(task)
  {
    AppendNumbers(task.(status := Running, steps := task.steps + 1), ModelDecision);
    assert Counted(task).observations == task.observations;
  }

  lemma AskShape(task: Task, decision: Decision)
    requires EventInv(task) && decision.AskUser? && task.wakeup.None?
    ensures var done := PlainOutcome(task, decision);
      EventInv(done) && done == task.(status := WaitingForInput, question := Some(decision.question),
                                      events := done.events, steps := task.steps + 1)
  {
    CountedShape(task);
  }

  lemma FinishShape(task: Task, decision: Decision)
    requires EventInv(task) && decision.Finish? && task.wakeup.None? && task.pending.None?
    ensures var done := PlainOutcome(task, decision);
      && EventInv(done)
      && done == task.(status := done.status, events := done.events, steps := task.steps + 1, failures := done.failures,
                       finalEvidence := done.finalEvidence)
      && (EvidenceAccepted(task, decision.evidence) ==>
            done.status == Completed && done.finalEvidence == decision.evidence && done.failures == task.failures)
      && (!EvidenceAccepted(task, decision.evidence) ==>
            done.failures == task.failures + 1 && done.finalEvidence == task.finalEvidence
            && done.status == (if done.failures > task.budget.maxFailures then Failed else Running))
  {
    CountedShape(task);
    AppendNumbers(Counted(task).(status := Completed, wakeup := None, finalEvidence := decision.evidence),
      TaskCompleted);
  }

  lemma GiveUpShape(task: Task, decision: Decision)
    requires EventInv(task) && decision.GiveUp? && task.wakeup.None?
    ensures var done := PlainOutcome(task, decision);
      EventInv(done) && done == task.(status := Failed, events := done.events, steps := task.steps + 1)
  {
    CountedShape(task);
    AppendNumbers(Counted(task).(status := Failed, wakeup := None), TaskFailed);
  }

  /** The model failed, or its tool call was refused: one failure is recorded. */
  lemma ModelFailureKeeps(config: Config, state: State)
    requires Inv(config, state) && state.control.ToDecide?
    ensures Inv(config, state.(task := RecordModelFailure(state.task), decided := state.decided + 1, control := AtRest))
  {
    var recorded := RecordFailure(state.task, true);
    AppendNumbers(recorded, if recorded.status == Failed then TaskFailed else ModelDecision);
    var next := state.(task := RecordModelFailure(state.task), decided := state.decided + 1, control := AtRest);
    SafeWithoutPending(config, state.task, next.task, state.invocations, state.nextId, state.nextId);
    assert EvidenceInv(config, next);
  }

  /** A transaction that ends the task and drops its pending action. */
  lemma EndingKeeps(config: Config, state: State, task': Task, kind: EventKind, decided': nat)
    requires Inv(config, state)
    requires task'.events == state.task.events
    requires task' == state.task.(status := task'.status, pending := None, wakeup := None, question := task'.question)
    requires task'.status in {Failed, Cancelled}
    requires decided' <= state.decided + (if Terminal(state.task.status) then 0 else 1)
    ensures Inv(config, state.(task := AppendEvent(task', kind), control := AtRest, decided := decided'))
  {
    AppendNumbers(task', kind);
    var next := state.(task := AppendEvent(task', kind), control := AtRest, decided := decided');
    SafeWithoutPending(config, state.task, next.task, state.invocations, state.nextId, state.nextId);
    assert EvidenceInv(config, next);
  }

  lemma DecideKeeps(config: Config, state: State, reply: ModelReply)
    requires Inv(config, state) && state.control.ToDecide? && state.control.left > 0
    ensures Inv(config, DoDecide(config, state, state.control.left, reply))
  {
    if state.task.steps >= state.task.budget.maxSteps {
      EndingKeeps(config, state, state.task.(status := Failed, pending := None, wakeup := None), TaskFailed,
        state.decided + 1);
    } else if reply.ModelError? || ApplyDecision(config, state.task, reply.decision, state.nextId).Refused? {
      ModelFailureKeeps(config, state);
    } else if reply.decision.CallTool? {
      ToolDecisionKeeps(config, state, reply.decision.tool.value, reply.decision.arguments);
    } else {
      PlainDecisionKeeps(config, state, reply.decision);
    }
  }

  lemma ResolveKeeps(config: Config, state: State, approvalId: nat, approve: bool)
    requires Inv(config, state) && state.control.AtRest?
    ensures Inv(config, DoResolve(config, state, approvalId, approve))
  {
    var task := state.task;
    if ResolveApproval(config, task, approvalId, approve).Some? {
      var at := FindApproval(task.approvals, approvalId).value;
      var approval := task.approvals[at];
      var decided := approval.(status := if approve then Approved else Rejected);
      var resolved := task.(approvals := task.approvals[at := decided]);
      AppendNumbers(resolved, ApprovalResolved);
      var next := DoResolve(config, state, approvalId, approve);
      NewestAppend(state.history, Note(approval.actionId, approval.tool, Error, true, []), config.maxObservations);
      assert EvidenceInv(config, next);
      SafeWhenResolved(config, task, next.task, state.invocations, state.nextId, at, approve);
    }
  }

  lemma SafeWhenResolved(
    config: Config, task: Task, task': Task, invocations: seq<Invocation>, nextId: nat, at: nat, approve: bool)
    requires SafeInv(config, task, invocations, nextId) && StatusInv(config, task) && task.status == WaitingForApproval
    requires at < |task.approvals| && task.approvals[at].status == Pending && task'.status == Running
    requires task'.approvals ==
      task.approvals[at := task.approvals[at].(status := if approve then Approved else Rejected)]
    requires task'.pending == if approve then task.pending else None
    ensures SafeInv(config, task', invocations, nextId)
  {
    assert at == |task.approvals| - 1;
    forall k | 0 <= k < |invocations| && config.registry.NeedsApproval(invocations[k].tool)
      ensures Granted(task'.approvals, invocations[k].actionId, invocations[k].tool, invocations[k].arguments)
    {
      var i :| 0 <= i < |task.approvals|
        && Matches(task.approvals[i], invocations[k].actionId, invocations[k].tool, invocations[k].arguments)
        && task.approvals[i].status == Approved;
      assert task'.approvals[i] == task.approvals[i];
    }
    if approve {
      assert Matches(task'.approvals[at], task.pending.value.id, task.pending.value.tool, task.pending.value.arguments);
    }
  }

  lemma InputKeeps(config: Config, state: State, text: string)
    requires Inv(config, state) && state.control.AtRest? && state.task.status == WaitingForInput
    ensures Inv(config, Adopt(state, SubmitInput(state.task, text)))
  {
    var resumed := state.task.(
      inputs := Newest(state.task.inputs + [text], USER_INPUT_WINDOW), question := None, wakeup := None,
        status := Running);
    AppendNumbers(resumed, UserInputReceived);
    var next := Adopt(state, SubmitInput(state.task, text));
    SafeWithoutPending(config, state.task, next.task, state.invocations, state.nextId, state.nextId);
    assert EvidenceInv(config, next);
  }

  /** Time, crashes and the start of a run leave the record alone. */
  lemma PauseKeeps(config: Config, state: State, move: Move)
    requires Inv(config, state) && (move.Tick? || move.Crash? || move.Run?)
    ensures Inv(config, Next(config, state, move))
  {
    hide ApprovalInv, InvocationInv, AnswerInv, EventInv;
  }

  lemma CancelKeeps(config: Config, state: State)
    requires Inv(config, state) && state.control.AtRest? && !Terminal(state.task.status)
    ensures Inv(config, Adopt(state, Cancel(state.task)))
  {
    hide Inv;
    var ended := state.task.(status := Cancelled, pending := None, wakeup := None, question := None);
    EndingKeeps(config, state, ended, TaskCancelled, state.decided);
    assert Adopt(state, Cancel(state.task))
        == state.(task := AppendEvent(ended, TaskCancelled), control := AtRest, decided := state.decided);
  }

  lemma RevokeKeeps(config: Config, state: State)
    requires Inv(config, state) && state.control.AtRest? && !Terminal(state.task.status)
    ensures Inv(config, state.(task := FailAuthorization(state.task)))
  {
    hide Inv;
    var ended := state.task.(status := Failed, pending := None, wakeup := None);
    EndingKeeps(config, state, ended, TaskFailed, state.decided);
    assert state.(task := FailAuthorization(state.task))
        == state.(task := AppendEvent(ended, TaskFailed), control := AtRest, decided := state.decided);
  }

  /** Every move of the machine keeps the invariant. */
  lemma MoveKeeps(config: Config, state: State, move: Move)
    requires Inv(config, state)
    ensures Inv(config, Next(config, state, move))
  {
    hide Inv, DoExecute, DoInvoke, DoToolReturns, DoFinishTool, DoDecide, DoResolve;
    match move
    case Tick(_) => PauseKeeps(config, state, move);
    case Crash(_) => PauseKeeps(config, state, move);
    case Run(_) => PauseKeeps(config, state, move);
    case Execute => if state.control.ToExecute? { ExecuteKeeps(config, state); }
    case Invoke => if state.control.ToInvoke? { InvokeKeeps(config, state); }
    case ToolReturns(result) => if state.control.InTool? { ToolReturnsKeeps(config, state, result); }
    case FinishTool => if state.control.ToFinish? { FinishToolKeeps(config, state); }
    case Decide(reply) => if state.control.ToDecide? && state.control.left > 0 { DecideKeeps(config, state, reply); }
    case Resolve(approvalId, approve) => if state.control.AtRest? { ResolveKeeps(config, state, approvalId, approve); }
    case Input(text) =>
      if state.control.AtRest? && state.task.status == WaitingForInput { InputKeeps(config, state, text); }
    case CancelTask =>
      if state.control.AtRest? && !Terminal(state.task.status) { CancelKeeps(config, state); }
    case RevokeAuthorization =>
      if state.control.AtRest? && !Terminal(state.task.status) { RevokeKeeps(config, state); }
  }

  /** The invariant holds after every run. */
  lemma {:induction false} RunKeeps(config: Config, state: State, moves: seq<Move>)
    requires Inv(config, state)
    ensures Inv(config, After(config, state, moves))
  {
    if moves != [] {
      RunKeeps(config, state, moves[..|moves| - 1]);
      MoveKeeps(config, After(config, state, moves[..|moves| - 1]), moves[|moves| - 1]);
    }
  }
}
