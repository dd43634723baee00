/** The control service itself: records that are loaded, changed in place and committed, and the methods that
    drive them. Each method is tied to the task machine: the ghost run `moves` leads from the task's creation
    to the present state, so every theorem about runs holds of the service. */
module AgentControl {
  import opened Prelude
  import opened AgentContracts
  import T = AgentTransactions
  import M = AgentMachine
  import opened AgentInvariant
  import S = AgentSafety

  /** A loaded task row. Changes reach the database only when the row is committed. */
  class AgentTask {
    var status: TaskStatus
    var pending: Option<PendingAction>
    var written: bool
    var wakeup: Option<nat>
    var question: Option<string>
    var approvals: seq<Approval>
    var observations: seq<Note>
    var events: seq<Event>
    var inputs: seq<string>
    var steps: nat
    var failures: nat
    const budget: Budget
    var finalEvidence: seq<string>

    function Row(): Task
      reads this
    {
      Task(status, pending, written, wakeup, question, approvals, observations, events, inputs, steps, failures, budget,
        finalEvidence)
    }

    constructor Load(row: Task)
      ensures Row() == row
    {
      status, pending, written, wakeup, question := row.status, row.pending, row.written, row.wakeup, row.question;
      approvals, observations, events, inputs := row.approvals, row.observations, row.events, row.inputs;
      steps, failures, budget, finalEvidence := row.steps, row.failures, row.budget, row.finalEvidence;
    }

    method AppendEvent(kind: EventKind)
      modifies this
      ensures Row() == T.AppendEvent(old(Row()), kind)
    {
      var sequence := 0;
      for i := 0 to |events|
        invariant sequence == T.MaxSequence(events[..i])
      {
        assert events[..i + 1][..i] == events[..i];
        if events[i].sequence > sequence { sequence := events[i].sequence; }
      }
      assert events[..|events|] == events;
      events := events + [Event(sequence + 1, kind)];
    }

    method RecordObservation(config: Config, note: Note)
      modifies this
      ensures Row() == T.RecordObservation(config, old(Row()), note)
    {
      observations := Newest(observations + [note], config.maxObservations);
    }

    method RecordFailure(retryable: bool)
      modifies this
      ensures Row() == T.RecordFailure(old(Row()), retryable)
    {
      failures := failures + 1;
      var terminal := !retryable || failures > budget.maxFailures;
      status := if terminal then Failed else Running;
      if terminal {
        pending := None;
        wakeup := None;
      }
    }

    /** `accepted` is false when the tool or its arguments are refused; the row is then abandoned. */
    method PrepareToolAction(config: Config, tool: string, arguments: Arguments, newId: nat)
      returns (accepted: bool, execute: bool)
      modifies this
      ensures accepted <==> T.PrepareToolAction(config, old(Row()), tool, arguments, newId).Committed?
      ensures accepted ==>
        T.PrepareToolAction(config, old(Row()), tool, arguments, newId) == T.Committed(Row(), execute)
      ensures !accepted ==>
        T.PrepareToolAction(config, old(Row()), tool, arguments, newId) == T.Refused && Row() == old(Row())
    {
      var normalized := config.registry.Validate(tool, arguments);
      if normalized.None? { return false, false; }
      pending, written := Some(PendingAction(newId, tool, normalized.value, false, 0)), true;
      wakeup := None;
      if config.registry.NeedsApproval(tool) {
        approvals := approvals + [Approval(newId, newId, tool, normalized.value, Pending)];
        status := WaitingForApproval;
        AppendEvent(ApprovalRequested);
        return true, false;
      }
      return true, true;
    }

    /** `armed` is false when preparing the follow-up raises; the row is then abandoned. */
    method PrepareContinuation(config: Config, observation: Observation, newId: nat, now: nat) returns (armed: bool)
      modifies this
      ensures armed <==> T.PrepareContinuation(config, old(Row()), observation, newId, now).Some?
      ensures armed ==> T.PrepareContinuation(config, old(Row()), observation, newId, now) == Some(Row())
    {
      if observation.continuation.None? {
        status := Running;
        wakeup := None;
        return true;
      }
      var next := observation.continuation.value;
      var normalized := config.registry.Validate(next.tool, next.arguments);
      if normalized.None? || !config.registry.Pollable(next.tool) { return false; }
      pending, written := Some(PendingAction(newId, next.tool, normalized.value, false, 0)), true;
      if observation.pollAfter.None? { return false; }
      wakeup := Some(now + observation.pollAfter.value);
      status := WaitingForExternal;
      return true;
    }
  
    /** The user's verdict on the approval at `index`; `resolved` is false when it is not the open one. */
    method Resolve(config: Config, index: nat, approve: bool) returns (resolved: bool)
      requires index < |approvals| && T.FindApproval(approvals, approvals[index].approvalId) == Some(index)
      modifies this
      ensures resolved <==> T.ResolveApproval(config, old(Row()), old(approvals)[index].approvalId, approve).Some?
      ensures resolved ==>
        T.ResolveApproval(config, old(Row()), old(approvals)[index].approvalId, approve) == Some(Row())
    {
      hide T.AppendEvent, T.RecordObservation;
      var approval := approvals[index];
      if status != WaitingForApproval || approval.status != Pending
        || pending.None? || pending.value.id != approval.actionId
      {
        return false;
      }
      approvals := approvals[index := approval.(status := if approve then Approved else Rejected)];
      AppendEvent(ApprovalResolved);
      if approve {
        wakeup := None;
        status := Running;
      } else {
        RecordObservation(config, Note(approval.actionId, approval.tool, Error, true, []));
        pending := None;
        wakeup := None;
        status := Running;
      }
      return true;
    }

    method AcceptInput(text: string)
      requires status == WaitingForInput
      modifies this
      ensures T.SubmitInput(old(Row()), text) == Some(Row())
    {
      inputs := Newest(inputs + [text], T.USER_INPUT_WINDOW);
      question := None;
      wakeup := None;
      status := Running;
      AppendEvent(UserInputReceived);
    }

    method MarkCancelled()
      requires !Terminal(status)
      modifies this
      ensures T.Cancel(old(Row())) == Some(Row())
    {
      status := Cancelled;
      pending := None;
      wakeup := None;
      question := None;
      AppendEvent(TaskCancelled);
    }

    /** Ends the task as failed: its step budget is used up, or its creator can no longer authorize it. */
    method MarkFailed()
      modifies this
      ensures Row() == T.FailForBudget(old(Row()))
    {
      status := Failed;
      pending := None;
      wakeup := None;
      AppendEvent(TaskFailed);
    }

    /** First transaction of an execution: nothing to do, stop for good, or set the started flag. */
    method BeginExecution(config: Config) returns (begun: T.Begun)
      modifies this
      ensures begun == T.BeginExecution(config, old(Row()))
      ensures !begun.NothingPending? ==> begun.task == Row()
    {
      if pending.None? { return T.NothingPending; }
      var action := pending.value;
      if action.started && !config.registry.Idempotent(action.tool) {
        RecordObservation(config, NoteOf(action, T.AMBIGUOUS));
        pending := None;
        wakeup := None;
        RecordFailure(false);
        AppendEvent(ToolFailed);
        AppendEvent(TaskFailed);
        return T.Ambiguous(Row());
      }
      action := action.(started := true, attempts := action.attempts + 1);
      pending, written := Some(action), true;
      wakeup := None;
      AppendEvent(ToolStarted);
      return T.Started(Row(), action);
    }

    /** Second transaction of an execution; `done` is false when it raises and the row is abandoned. */
    method FinishExecution(config: Config, action: PendingAction, observation: Observation, newId: nat, now: nat)
      returns (done: bool)
      modifies this
      ensures done <==> T.FinishExecution(config, old(Row()), action, observation, newId, now).Some?
      ensures done ==> T.FinishExecution(config, old(Row()), action, observation, newId, now) == Some(Row())
    {
      if pending.None? || pending.value.id != action.id { return false; }
      RecordObservation(config, NoteOf(action, observation));
      pending := None;
      wakeup := None;
      if observation.outcome == Error {
        RecordFailure(observation.retryable);
        AppendEvent(ToolFailed);
        if status == Failed { AppendEvent(TaskFailed); }
      } else {
        ghost var noted := Row();
        var armed := PrepareContinuation(config, observation, newId, now);
        if !armed { return false; }
        AppendEvent(ToolCompleted);
      }
      return true;
    }

    /** The transaction of one model decision. */
    method ApplyDecision(config: Config, decision: Decision, newId: nat) returns (applied: T.Applied)
      modifies this
      ensures applied == T.ApplyDecision(config, old(Row()), decision, newId)
      ensures applied.Committed? ==> applied.task == Row()
    {
      if status !in {Created, Running} { return T.Conflict; }
      ghost var before := Row();
      CountStep();
      if !decision.CallTool? {
        ApplyPlainDecision(decision, before);
        PlainUnfolds(config, before, decision, newId);
        return T.Committed(Row(), false);
      }
      if decision.tool.None? { return T.Refused; }
      var accepted, execute := PrepareToolAction(config, decision.tool.value, decision.arguments, newId);
      applied := if accepted then T.Committed(Row(), execute) else T.Refused;
    }

    method CountStep()
      modifies this
      ensures Row() == Counted(old(Row()))
    {
      status := Running;
      steps := steps + 1;
      AppendEvent(ModelDecision);
    }

    /** FINISH completes only on available evidence; otherwise it counts as a failure. */
    method TryComplete(cited: seq<string>)
      modifies this
      ensures Row() ==
        if !T.EvidenceAccepted(old(Row()), cited) then T.RecordFailure(old(Row()), true)
        else T.AppendEvent(old(Row()).(status := Completed, wakeup := None, finalEvidence := cited), TaskCompleted)
    {
      var accepted := T.EvidenceAccepted(Row(), cited);
      if !accepted {
        RecordFailure(true);
      } else {
        status := Completed;
        wakeup := None;
        finalEvidence := cited;
        AppendEvent(TaskCompleted);
      }
    }

    /** The branches of a decision that calls no tool, after the step has been counted. */
    method ApplyPlainDecision(decision: Decision, ghost before: Task)
      requires !decision.CallTool? && Row() == Counted(before)
      modifies this
      ensures Row() == PlainOutcome(before, decision)
    {
      match decision {
        case AskUser(asked) =>
          status := WaitingForInput;
          wakeup := None;
          question := Some(asked);
        case Finish(_, cited) =>
          TryComplete(cited);
        case GiveUp(_) =>
          status := Failed;
          wakeup := None;
          AppendEvent(TaskFailed);
      }
    }
  }

  /** How a service call ends for its caller: normally, with a state conflict, with an error because a result cannot be
      recorded, or early, for a reason that lies outside the record. */
  datatype Exit = Done | Conflicted | Raised | Aborted(cause: M.Cause)

  /** What looking up the creator of a task for the resume batch finds. */
  datatype Lookup = Active | Inactive | Lost(cause: M.Cause)

  /** Where the resume batch files a task, unless the batch itself ends there. */
  datatype Place = Resumed | Filed | Skipped | Leaves(cause: M.Cause)

  /** A missing row is passed over, any other error files the task as failed, and death ends everything. */
  function PlaceOfError(cause: M.Cause): Place {
    match cause
    case NotFound => Skipped
    case Unhandled => Filed
    case Died => Leaves(M.Died)
  }

  /** The moves of one turn in the batch, from the record it found to the one it left, and where it files the task. */
  ghost predicate TurnOf(creator: Lookup, place: Place, moves: seq<M.Move>, before: Task, after: Task) {
    && moves != []
    && (var last := moves[|moves| - 1];
        match creator
        case Active =>
          && moves[0] == M.Run(0)
          && place == if last.Crash? then PlaceOfError(last.cause)
                      else if Terminal(before.status) then Skipped
                      else if Interrupted(after) then Filed else Resumed
        case Inactive =>
          if last.Crash? then
            after == before && place == if last.cause == M.NotFound then Filed else Leaves(last.cause)
          else
            moves == [M.RevokeAuthorization] && after == T.FailAuthorization(before) && place == Filed
        case Lost(cause) =>
          moves == [M.Crash(cause)] && after == before && place == PlaceOfError(cause))
  }

  /** The moves a holder of the task lock makes on its own. */
  predicate Internal(move: M.Move) {
    move.Execute? || move.Invoke? || move.ToolReturns? || move.FinishTool? || move.Decide?
  }

  /** Where a run starts, by the status it finds. */
  lemma RunStarts(config: Config, state: M.State, maxSteps: nat)
    requires state.control == M.AtRest
    ensures var next := M.Next(config, state, M.Run(maxSteps));
      var task, limit := state.task, M.RunLimit(state.task.budget, maxSteps);
      && next == state.(control := next.control)
      && next.control ==
           (if task.status in {WaitingForApproval, WaitingForInput} || Terminal(task.status) then M.AtRest
            else if task.status == WaitingForExternal && task.wakeup.Some? && task.wakeup.value > state.now then
              M.AtRest
            else if task.status == WaitingForExternal || task.pending.Some? then M.ToExecute(M.EnterLoop(limit))
            else M.LoopControl(limit))
  {
  }

  /** An action was started and its result is not recorded. */
  predicate Interrupted(task: Task) {
    task.pending.Some? && task.pending.value.started
  }

  /** A task that waits for a tool to finish elsewhere has an action to execute; no waiting action has started. */
  lemma WaitsOnAction(config: Config, budget: Budget, moves: seq<M.Move>)
    requires config.Valid()
    ensures var task := S.RunFrom(config, budget, moves).task;
      && (task.status == WaitingForExternal ==> task.pending.Some?)
      && (task.status == WaitingForExternal && task.wakeup.Some? ==> !Interrupted(task))
      && (task.status in {WaitingForApproval, WaitingForInput} || Terminal(task.status) ==> !Interrupted(task))
  {
    hide S.RunFrom, ApprovalInv, InvocationInv, AnswerInv, ControlInv, BudgetInv, EvidenceInv, EventInv;
    S.Reached(config, budget, moves);
  }

  class AgentControlService {
    const config: Config
    var db: Task         // the committed row
    var nextId: nat      // source of fresh ids
    var now: nat         // logical clock
    ghost const budget: Budget
    ghost var moves: seq<M.Move>
    ghost var state: M.State

    /** The committed row is the one the recorded run of the machine leads to. */
    ghost predicate Valid()
      reads this
    {
      && config.Valid()
      && state == S.RunFrom(config, budget, moves)
      && db == state.task && nextId == state.nextId && now == state.now && db.budget == budget
    }

    /** No call is in progress: the task lock is free. */
    ghost predicate Free()
      reads this
    {
      Valid() && state.control == M.AtRest
    }

    /** The run continued by internal moves only. */
    twostate predicate Continued()
      reads this
    {
      && old(moves) <= moves
      && forall i :: |old(moves)| <= i < |moves| ==> Internal(moves[i])
    }

    constructor Create(config: Config, budget: Budget)
      requires config.Valid()
      ensures Free() && this.config == config && this.budget == budget && moves == []
      ensures db == T.NewTask(budget)
    {
      this.config, this.budget := config, budget;
      db, nextId, now := T.NewTask(budget), 0, 0;
      moves, state := [], M.Init(budget);
    }

    /** Advances the ghost run by one move. */
    ghost method Log(move: M.Move)
      requires config.Valid() && state == S.RunFrom(config, budget, moves)
      modifies this`moves, this`state
      ensures moves == old(moves) + [move] && state == M.Next(config, old(state), move)
      ensures state == S.RunFrom(config, budget, moves) && state.task.budget == budget
    {
      assert (moves + [move])[..|moves + [move]| - 1] == moves;
      moves := moves + [move];
      state := M.Next(config, state, move);
      InitInv(config, budget);
      S.TraceGrows(config, M.Init(budget), moves);
    }

    method Abort(cause: M.Cause) returns (exit: Exit)
      requires Valid()
      modifies this`moves, this`state
      ensures Free() && exit == Aborted(cause) && state.decided == old(state.decided)
      ensures moves == old(moves) + [M.Crash(cause)]
    {
      hide S.RunFrom;
      Log(M.Crash(cause));
      exit := Aborted(cause);
    }

    /** The call ended early; nothing it had not committed is left of it. */
    twostate predicate Ended(exit: Exit)
      reads this
    {
      exit.Aborted? && state.control == M.AtRest
      && old(moves) < moves && moves[|moves| - 1] == M.Crash(exit.cause)
    }

    /** The model and the tools may do anything, and any step may end the call. */
    method AskModel() returns (reply: ModelReply) { reply := *; }
    method CallTool(tool: string, arguments: Arguments) returns (result: ToolResult) { result := *; }
    method Trouble() returns (cause: Option<M.Cause>) { cause := *; }

    /** First transaction of an execution. */
    method CommitStart(ghost resume: M.Resumption) returns (begun: T.Begun)
      requires Valid() && state.control == M.ToExecute(resume)
      modifies this
      ensures Valid() && moves == old(moves) + [M.Execute]
      ensures begun == T.BeginExecution(config, old(db)) && state == M.DoExecute(config, old(state), resume)
    {
      hide S.RunFrom;
      var task := new AgentTask.Load(db);
      begun := task.BeginExecution(config);
      if !begun.NothingPending? { db := task.Row(); }
      Log(M.Execute);
    }

    /** Second transaction of an execution; nothing is committed when it raises. */
    method CommitResult(action: PendingAction, observation: Observation, ghost resume: M.Resumption)
        returns (done: bool)
      requires Valid() && state.control == M.ToFinish(action, observation, resume)
      modifies this
      ensures Valid() && moves == old(moves) + [M.FinishTool]
      ensures state.control == if done then M.AfterExecution(db.status, observation, resume) else M.AtRest
      ensures state.decided == old(state.decided) && if done then !Interrupted(db) else db == old(db)
    {
      hide S.RunFrom;
      var task := new AgentTask.Load(db);
      done := task.FinishExecution(config, action, observation, nextId, now);
      if done {
        db := task.Row();
        nextId := nextId + 1;
      }
      Log(M.FinishTool);
    }

    /** The tool itself runs outside any transaction; the process may die before it, inside it or after it. */
    method RunTool(action: PendingAction, ghost resume: M.Resumption) returns (exit: Exit, observation: Observation)
      requires Valid() && state.control == M.ToInvoke(action, resume)
      modifies this`moves, this`state
      ensures Valid() && state.decided == old(state.decided)
      ensures exit == Done ==> Continued() && state.control == M.ToFinish(action, observation, resume)
      ensures exit.Aborted? ==> Ended(exit)
      ensures exit.Done? || exit.Aborted?
    {
      hide S.RunFrom;
      observation := T.AMBIGUOUS;
      var cause := Trouble();
      if cause.Some? { exit := Abort(cause.value); return; }
      Log(M.Invoke);
      var result := CallTool(action.tool, action.arguments);
      cause := Trouble();
      if cause.Some? { exit := Abort(cause.value); return; }
      Log(M.ToolReturns(result));
      observation := ObservationOf(result);
      exit := Done;
    }

    method ExecutePendingAction(ghost resume: M.Resumption) returns (exit: Exit, observation: Observation)
      requires Valid() && state.control == M.ToExecute(resume)
      modifies this
      ensures Valid()
      ensures exit == Done ==> Continued() && state.control == M.AfterExecution(db.status, observation, resume)
      ensures exit.Raised? || exit.Conflicted? ==> Continued() && state.control == M.AtRest
      ensures exit.Aborted? ==> Ended(exit)
      ensures !exit.Aborted? ==> (exit == Conflicted <==> old(db).pending.None?)
      ensures !exit.Aborted? ==> (exit == Raised <==> Interrupted(db))
      ensures state.decided == old(state.decided)
    {
      hide S.RunFrom;
      observation := T.AMBIGUOUS;
      var cause := Trouble();
      if cause.Some? { exit := Abort(cause.value); return; }
      var begun := CommitStart(resume);
      if begun.NothingPending? { return Conflicted, observation; }
      if begun.Ambiguous? { return Done, observation; }
      exit, observation := RunTool(begun.action, resume);
      if exit.Aborted? { return; }
      cause := Trouble();
      if cause.Some? { exit := Abort(cause.value); return; }
      var known := db.pending.Some? && db.pending.value.id == begun.action.id;
      var done := CommitResult(begun.action, observation, resume);
      exit := if done then Done else if known then Raised else Conflicted;
    }

    /** One turn of the planning loop; `stop` asks the loop to end. */
    method AdvanceOnce(ghost left: nat) returns (exit: Exit, stop: bool)
      requires Valid() && state.control == M.ToDecide(left) && left > 0 && !Interrupted(db)
      modifies this
      ensures Valid() && (!exit.Aborted? ==> (exit == Raised <==> Interrupted(db)))
      ensures exit == Done ==> Continued()
      ensures exit == Done ==>
        state.control == if stop || db.status != Running then M.AtRest else M.LoopControl(left - 1)
      ensures exit.Raised? || exit.Conflicted? ==> Continued() && state.control == M.AtRest
      ensures exit.Aborted? ==> Ended(exit)
      ensures exit == Conflicted ==> old(db).status !in {Created, Running}
      ensures state.decided <= old(state.decided) + 1
    {
      hide S.RunFrom;
      stop := true;
      var cause := Trouble();
      if cause.Some? { exit := Abort(cause.value); return; }
      if db.steps >= db.budget.maxSteps {
        FailForBudget();
        return Done, true;
      }
      var reply := AskModel();
      cause := Trouble();
      if cause.Some? { exit := Abort(cause.value); return; }
      if reply.ModelError? {
        RecordModelFailure(reply);
        return Done, true;
      }
      var applied := CommitDecision(reply.decision);
      if applied.Conflict? { return Conflicted, true; }
      if applied.Refused? {
        RecordModelFailure(reply);
        return Done, true;
      }
      if !applied.execute { return Done, true; }
      var observation;
      exit, observation := ExecutePendingAction(M.ContinueLoop(left - 1));
      stop := observation.pollAfter.Some?;
    }

    method FailForBudget()
      requires Valid() && state.control.ToDecide? && state.control.left > 0
      requires db.steps >= db.budget.maxSteps
      modifies this
      ensures Valid() && Continued() && state.control == M.AtRest && db == T.FailForBudget(old(db))
      ensures state.decided == old(state.decided) + 1
    {
      hide S.RunFrom;
      var task := new AgentTask.Load(db);
      task.MarkFailed();
      db := task.Row();
      Log(M.Decide(ModelError));
    }

    /** The transaction of a decision; a refused tool call is rolled back and left to the caller to record. */
    method CommitDecision(decision: Decision) returns (applied: T.Applied)
      requires Valid() && state.control.ToDecide? && state.control.left > 0
      requires db.steps < db.budget.maxSteps
      modifies this
      ensures Valid() && applied == T.ApplyDecision(config, old(db), decision, old(nextId))
      ensures if applied.Refused?
              then db == old(db) && nextId == old(nextId) && moves == old(moves) && state == old(state)
              else moves == old(moves) + [M.Decide(Chose(decision))]
      ensures applied.Conflict? ==> state.control == M.AtRest && db == old(db)
      ensures state.decided == old(state.decided) + if applied.Committed? then 1 else 0
      ensures applied.Committed? ==> db == applied.task
      ensures applied.Committed? ==>
        state.control == if applied.execute then M.ToExecute(M.ContinueLoop(old(state.control.left) - 1)) else M.AtRest
    {
      hide S.RunFrom;
      var task := new AgentTask.Load(db);
      applied := task.ApplyDecision(config, decision, nextId);
      if applied.Refused? { return; }
      if applied.Committed? {
        db := task.Row();
        nextId := nextId + 1;
      }
      Log(M.Decide(Chose(decision)));
    }

    method RecordModelFailure(ghost reply: ModelReply)
      requires Valid() && state.control.ToDecide? && state.control.left > 0
      requires db.steps < db.budget.maxSteps
      requires reply.ModelError? || T.ApplyDecision(config, db, reply.decision, nextId).Refused?
      modifies this
      ensures Valid() && Continued() && state.control == M.AtRest && moves == old(moves) + [M.Decide(reply)]
      ensures db.pending in {None, old(db).pending}
      ensures state.decided == old(state.decided) + 1
    {
      hide S.RunFrom;
      var task := new AgentTask.Load(db);
      task.RecordFailure(true);
      task.AppendEvent(if task.status == Failed then TaskFailed else ModelDecision);
      db := task.Row();
      Log(M.Decide(reply));
    }

    /** Time passes. */
    method Wait(elapsed: nat)
      requires Free()
      modifies this
      ensures Free() && moves == old(moves) + [M.Tick(elapsed)] && db == old(db)
    {
      hide S.RunFrom;
      now := now + elapsed;
      Log(M.Tick(elapsed));
    }

    /** The planning loop of a call. */
    method AdvanceUpTo(limit: nat) returns (exit: Exit)
      requires Valid() && state.control == M.LoopControl(limit) && db.status in {Created, Running} && !Interrupted(db)
      modifies this
      ensures Free() && exit != Conflicted && old(moves) <= moves
      ensures exit.Aborted? ==> Ended(exit)
      ensures !exit.Aborted? ==> Continued() && (exit == Raised <==> Interrupted(db))
      ensures state.decided <= old(state.decided) + limit
    {
      hide S.RunFrom, M.Next;
      var left: nat := limit;
      exit := Done;
      while left > 0
        invariant Valid() && state.control == M.LoopControl(left) && exit == Done
        invariant Continued() && db.status in {Created, Running} && !Interrupted(db)
        invariant left <= limit && state.decided + left <= old(state.decided) + limit
      {
        var stop;
        exit, stop := AdvanceOnce(left);
        if exit != Done { return; }
        var cause := Trouble();
        if cause.Some? { exit := Abort(cause.value); return; }
        if stop || db.status != Running { return; }
        left := left - 1;
      }
    }

    /** Advance until a boundary: approval, input, asynchronous work, completion or the call budget. */
    method Run(maxSteps: nat) returns (exit: Exit)
      requires Free()
      modifies this
      ensures Free() && old(moves) < moves && moves[|old(moves)|] == M.Run(maxSteps)
      ensures exit.Aborted? ==> moves[|moves| - 1] == M.Crash(exit.cause)
      ensures !exit.Aborted? ==> forall i :: |old(moves)| < i < |moves| ==> Internal(moves[i])
      ensures state.decided <= old(state.decided) + M.RunLimit(budget, maxSteps)
      ensures !exit.Aborted? ==> (exit == Conflicted <==> Terminal(old(db).status))
      ensures !exit.Aborted? ==> (exit == Raised <==> Interrupted(db))
      ensures Terminal(old(db).status) ==> db == old(db)
      ensures old(db).status in {WaitingForApproval, WaitingForInput} ==> !exit.Raised? && db == old(db)
    {
      hide S.RunFrom, M.Next;
      ghost var before := moves;
      WaitsOnAction(config, budget, moves);
      RunStarts(config, state, maxSteps);
      Log(M.Run(maxSteps));
      var cause := Trouble();
      if cause.Some? { exit := Abort(cause.value); return; }
      if db.status in {WaitingForApproval, WaitingForInput} { return Done; }
      if Terminal(db.status) { return Conflicted; }
      ghost var limit := M.RunLimit(db.budget, maxSteps);
      if db.status == WaitingForExternal && db.wakeup.Some? && db.wakeup.value > now { return Done; }
      if db.status == WaitingForExternal || db.pending.Some? {
        var observation;
        exit, observation := ExecutePendingAction(M.EnterLoop(limit));
        if exit != Done { return; }
        cause := Trouble();
        if cause.Some? { exit := Abort(cause.value); return; }
        if observation.continuation.Some? || db.status != Running { return; }
      }
      var left: nat := if maxSteps == 0 || maxSteps > db.budget.maxAutoSteps then db.budget.maxAutoSteps else maxSteps;
      exit := AdvanceUpTo(left);
    }

    method ResolveApproval(approvalId: nat, approve: bool) returns (exit: Exit)
      requires Free()
      modifies this
      ensures Free() && old(moves) < moves && moves[|old(moves)|] == M.Resolve(approvalId, approve)
      ensures exit.Aborted? ==> moves[|moves| - 1] == M.Crash(exit.cause)
      ensures !exit.Aborted? ==> forall i :: |old(moves)| < i < |moves| ==> Internal(moves[i])
      ensures T.ResolveApproval(config, old(db), approvalId, approve).None? ==> exit == Conflicted && db == old(db)
    {
      hide S.RunFrom;
      var committed := CommitResolution(approvalId, approve);
      if !committed { return Conflicted; }
      if !approve { return Done; }
      var observation;
      exit, observation := ExecutePendingAction(M.ReturnToCaller);
    }

    method CommitResolution(approvalId: nat, approve: bool) returns (committed: bool)
      requires Free()
      modifies this
      ensures Valid() && moves == old(moves) + [M.Resolve(approvalId, approve)]
      ensures committed <==> T.ResolveApproval(config, old(db), approvalId, approve).Some?
      ensures !committed ==> db == old(db)
      ensures state.control == if committed && approve then M.ToExecute(M.ReturnToCaller) else M.AtRest
    {
      hide S.RunFrom;
      committed := false;
      var task := new AgentTask.Load(db);
      var found := T.FindApproval(task.approvals, approvalId);
      if found.Some? {
        committed := task.Resolve(config, found.value, approve);
        if committed { db := task.Row(); }
      }
      Log(M.Resolve(approvalId, approve));
    }

    method SubmitInput(text: string) returns (exit: Exit)
      requires Free()
      modifies this
      ensures Free() && moves == old(moves) + [M.Input(text)]
      ensures exit == Done <==> old(db).status == WaitingForInput
      ensures exit != Done ==> db == old(db)
    {
      hide S.RunFrom;
      var task := new AgentTask.Load(db);
      if task.status != WaitingForInput {
        Log(M.Input(text));
        return Conflicted;
      }
      task.AcceptInput(text);
      db := task.Row();
      Log(M.Input(text));
      return Done;
    }

    method Cancel() returns (exit: Exit)
      requires Free()
      modifies this
      ensures Free() && moves == old(moves) + [M.CancelTask]
      ensures exit == Done <==> !Terminal(old(db).status)
      ensures exit == Done ==> db.status == Cancelled && db.pending.None?
      ensures exit != Done ==> db == old(db)
    {
      hide S.RunFrom;
      var task := new AgentTask.Load(db);
      if Terminal(task.status) {
        Log(M.CancelTask);
        return Conflicted;
      }
      task.MarkCancelled();
      db := task.Row();
      Log(M.CancelTask);
      return Done;
    }

    /** Other calls, one after the other, that reach the task in the meantime. */
    method OtherCalls()
      requires Free()
      modifies this
      ensures Free() && old(moves) <= moves
    {
      hide S.RunFrom;
      var calls: nat :| true;
      for i := 0 to calls
        invariant Free() && old(moves) <= moves
      {
        AnyCall();
      }
    }

    method AnyCall()
      requires Free()
      modifies this
      ensures Free() && old(moves) < moves
    {
      hide S.RunFrom;
      var kind: nat, number: nat, approve: bool, text: string := *, *, *, *;
      var exit: Exit;
      match kind {
        case 0 => exit := Run(number);
        case 1 => exit := ResolveApproval(number, approve);
        case 2 => exit := SubmitInput(text);
        case 3 => exit := Cancel();
        case _ => Wait(number);
      }
    }

    /** One task of a resume batch: look up its creator, then run it, or fail it when the creator can no longer
        authorize work. */
    method Resume(creator: Lookup) returns (place: Place)
      requires Free()
      modifies this
      ensures Free() && old(moves) < moves && TurnOf(creator, place, moves[|old(moves)|..], old(db), db)
    {
      hide S.RunFrom;
      match creator {
        case Active =>
          var exit := Run(0);
          match exit {
            case Done => place := Resumed;
            case Conflicted => place := Skipped;
            case Raised => place := Filed;
            case Aborted(cause) => place := PlaceOfError(cause);
          }
        case Inactive =>
          place := Revoke();
        case Lost(cause) =>
          var exit := Abort(cause);
          place := PlaceOfError(cause);
      }
    }

    /** Failing the authorization; an error of this transaction leaves the batch, since nothing handles it there. */
    method Revoke() returns (place: Place)
      requires Free()
      modifies this
      ensures Free() && old(moves) < moves && TurnOf(Inactive, place, moves[|old(moves)|..], old(db), db)
    {
      hide S.RunFrom;
      var cause := Trouble();
      if cause.Some? {
        var exit := Abort(cause.value);
        return if cause.value == M.NotFound then Filed else Leaves(cause.value);
      }
      if !Terminal(db.status) {
        var task := new AgentTask.Load(db);
        task.MarkFailed();
        db := task.Row();
      }
      Log(M.RevokeAuthorization);
      place := Filed;
    }
  }
}
