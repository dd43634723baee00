/** What the record keeps of what came in: the results of tools, the evidence in them, and the user's inputs. */
module AgentEvidence {
  import opened Prelude
  import opened AgentContracts
  import opened AgentTransactions
  import opened AgentMachine
  import opened AgentInvariant
  import opened AgentSafety

  // ----- results

  /** The second transaction of an execution is committed: only then does the log grow. */
  ghost predicate Records(config: Config, state: State, move: Move) {
    && move.FinishTool? && state.control.ToFinish?
    && |Next(config, state, move).task.events| > |state.task.events|
  }

  /** The return that is about to be recorded. */
  function LastReturn(state: State): Call
    requires state.calls != []
  {
    state.calls[|state.calls| - 1]
  }

  /** Everything of a returned observation that is stored with the action it belongs to. */
  ghost predicate Keeps(note: Note, call: Call) {
    && note.actionId == call.actionId && note.tool == call.tool
    && note.outcome == call.observation.outcome && note.retryable == call.observation.retryable
    && note.evidence == call.observation.evidence
  }

  /** One note at most is added, at the end; a note with evidence is the result that just returned. */
  lemma HistoryStep(config: Config, state: State, move: Move)
    requires Inv(config, state)
    ensures var next := Next(config, state, move);
      && state.history <= next.history && |next.history| <= |state.history| + 1
      && (Records(config, state, move) ==>
            && state.calls != [] && |next.history| == |state.history| + 1
            && Keeps(next.history[|state.history|], LastReturn(state)))
      && (!Records(config, state, move) && |next.history| > |state.history| ==>
            next.history[|state.history|].evidence == [])
  {
    match move
    case FinishTool =>
      if state.control.ToFinish? {
        FinishRecords(config, state);
      }
    case _ =>
  }

  lemma FinishRecords(config: Config, state: State)
    requires Inv(config, state) && state.control.ToFinish?
    ensures var next := Next(config, state, FinishTool);
      && state.calls != []
      && (if |next.task.events| > |state.task.events| then
            && next.history == state.history + [next.history[|state.history|]]
            && Keeps(next.history[|state.history|], LastReturn(state))
          else next.history == state.history)
  {
    FinishLogs(config, state.task, state.control.action, state.control.observation, state.nextId, state.now);
    hide FinishExecution;
  }

  lemma FinishLogs(config: Config, task: Task, action: PendingAction, observation: Observation, newId: nat, now: nat)
    ensures var done := FinishExecution(config, task, action, observation, newId, now);
      done.Some? ==> |done.value.events| > |task.events|
  {
  }

  /** Recorded results, by the move that recorded them. */
  ghost predicate RecordedAt(config: Config, budget: Budget, moves: seq<Move>, at: nat) {
    at < |moves| && Records(config, RunFrom(config, budget, moves[..at]), moves[at])
  }

  /** How many notes there were before that move: the place of its own note. */
  ghost function PlaceOfNote(config: Config, budget: Budget, moves: seq<Move>, at: nat): nat
    requires at <= |moves|
  {
    |RunFrom(config, budget, moves[..at]).history|
  }

  lemma {:induction false} HistoryGrows(config: Config, budget: Budget, moves: seq<Move>, at: nat)
    requires config.Valid() && at <= |moves|
    ensures RunFrom(config, budget, moves[..at]).history <= RunFrom(config, budget, moves).history
  {
    if at < |moves| {
      hide Next;
      var shorter := moves[..|moves| - 1];
      HistoryGrows(config, budget, shorter, at);
      assert shorter[..at] == moves[..at];
      Reached(config, budget, shorter);
      HistoryStep(config, RunFrom(config, budget, shorter), moves[|moves| - 1]);
    } else {
      assert moves[..at] == moves;
    }
  }

  /** What a tool returned is what the record keeps of it: outcome, retry flag and evidence, under its own action. */
  lemma ResultIsStored(config: Config, budget: Budget, moves: seq<Move>, at: nat)
    requires config.Valid() && RecordedAt(config, budget, moves, at)
    ensures var before, last := RunFrom(config, budget, moves[..at]), RunFrom(config, budget, moves);
      && before.calls != [] && |before.history| < |last.history|
      && Keeps(last.history[|before.history|], LastReturn(before))
  {
    hide Next, Records, Keeps;
    var before := moves[..at];
    assert moves[..at + 1][..at] == before && moves[..at + 1][at] == moves[at];
    Reached(config, budget, before);
    HistoryStep(config, RunFrom(config, budget, before), moves[at]);
    HistoryGrows(config, budget, moves, at + 1);
  }

  /** Every note with evidence was made by a move that recorded a result. */
  lemma {:induction false} NoteOrigin(config: Config, budget: Budget, moves: seq<Move>, n: nat) returns (at: nat)
    requires config.Valid() && n < |RunFrom(config, budget, moves).history|
    requires RunFrom(config, budget, moves).history[n].evidence != []
    ensures RecordedAt(config, budget, moves, at) && PlaceOfNote(config, budget, moves, at) == n
  {
    hide Next, Records;
    var shorter := moves[..|moves| - 1];
    var before := RunFrom(config, budget, shorter);
    Reached(config, budget, shorter);
    HistoryStep(config, before, moves[|moves| - 1]);
    if n < |before.history| {
      at := NoteOrigin(config, budget, shorter, n);
      assert shorter[..at] == moves[..at];
    } else {
      at := |moves| - 1;
    }
  }

  // ----- evidence

  /** A non-empty reference that a tool returned in one of the newest recorded results. */
  ghost predicate Citable(config: Config, budget: Budget, moves: seq<Move>, ref: string) {
    ref != "" && exists at :: CitedFrom(config, budget, moves, at, ref)
  }

  ghost predicate CitedFrom(config: Config, budget: Budget, moves: seq<Move>, at: nat, ref: string) {
    && at < |moves| && RecordedAt(config, budget, moves, at)
    && |RunFrom(config, budget, moves).history| - PlaceOfNote(config, budget, moves, at) <= config.maxObservations
    && (var before := RunFrom(config, budget, moves[..at]);
        before.calls != [] && ref in LastReturn(before).observation.evidence)
  }

  lemma WindowPlace(shown: seq<Note>, all: seq<Note>, n: nat)
    requires shown == Newest(all, n)
    ensures |shown| == Min(|all|, n)
    ensures forall i :: 0 <= i < |shown| ==> shown[i] == all[|all| - |shown| + i]
  {
    hide Newest;
  }

  /** The evidence the record offers is exactly what tools returned in the newest recorded results. */
  lemma AvailableIsReturned(config: Config, budget: Budget, moves: seq<Move>, ref: string)
    requires config.Valid()
    ensures ref in Available(RunFrom(config, budget, moves).task) <==> Citable(config, budget, moves, ref)
  {
    Reached(config, budget, moves);
    if Citable(config, budget, moves, ref) { CitableIsAvailable(config, budget, moves, ref); }
    if ref in Available(RunFrom(config, budget, moves).task) { AvailableIsCitable(config, budget, moves, ref); }
  }

  lemma CitableIsAvailable(config: Config, budget: Budget, moves: seq<Move>, ref: string)
    requires config.Valid() && Citable(config, budget, moves, ref)
    ensures ref in Available(RunFrom(config, budget, moves).task)
  {
    hide RunFrom, RecordedAt, Inv, Newest;
    var last := RunFrom(config, budget, moves);
    var at :| CitedFrom(config, budget, moves, at, ref);
    Reached(config, budget, moves);
    ResultIsStored(config, budget, moves, at);
    var n := PlaceOfNote(config, budget, moves, at);
    WindowOf(config, last);
    WindowPlace(last.task.observations, last.history, config.maxObservations);
    var i := n - (|last.history| - |last.task.observations|);
    assert last.task.observations[i] == last.history[n];
    var k :| 0 <= k < |last.history[n].evidence| && last.history[n].evidence[k] == ref;
    assert last.task.observations[i].evidence[k] == ref;
  }

  lemma AvailableIsCitable(config: Config, budget: Budget, moves: seq<Move>, ref: string)
    requires config.Valid() && ref in Available(RunFrom(config, budget, moves).task)
    ensures Citable(config, budget, moves, ref)
  {
    var last := RunFrom(config, budget, moves);
    var n := NoteOffering(config, budget, moves, ref);
    hide RunFrom, Available;
    var at := NoteOrigin(config, budget, moves, n);
    ResultIsStored(config, budget, moves, at);
    assert LastReturn(RunFrom(config, budget, moves[..at])).observation.evidence == last.history[n].evidence;
    assert CitedFrom(config, budget, moves, at, ref);
  }

  lemma NoteOffering(config: Config, budget: Budget, moves: seq<Move>, ref: string) returns (n: nat)
    requires config.Valid() && ref in Available(RunFrom(config, budget, moves).task)
    ensures var last := RunFrom(config, budget, moves);
      ref != "" && n < |last.history| && ref in last.history[n].evidence
      && |last.history| - n <= config.maxObservations
  {
    hide RunFrom, Inv, Newest;
    var last := RunFrom(config, budget, moves);
    var shown := last.task.observations;
    Reached(config, budget, moves);
    WindowOf(config, last);
    WindowPlace(shown, last.history, config.maxObservations);
    var i := NoteWith(last.task, ref);
    n := |last.history| - |shown| + i;
    assert shown[i] == last.history[n];
  }

  lemma WindowOf(config: Config, state: State)
    requires Inv(config, state)
    ensures state.task.observations == Newest(state.history, config.maxObservations)
  {
  }

  lemma NoteWith(task: Task, ref: string) returns (i: nat)
    requires ref in Available(task)
    ensures ref != "" && i < |task.observations| && ref in task.observations[i].evidence
  {
    var k: nat;
    i, k :| 0 <= i < |task.observations| && 0 <= k < |task.observations[i].evidence|
      && task.observations[i].evidence[k] == ref && ref != "";
  }

  /** FINISH completes the task exactly when some evidence was returned lately and all that is cited was. */
  lemma FinishCompletes(config: Config, budget: Budget, moves: seq<Move>, answer: string, cited: seq<string>)
    requires config.Valid() && RunFrom(config, budget, moves).control.ToDecide?
    requires RunFrom(config, budget, moves).task.steps < budget.maxSteps
    ensures
      var done := RunFrom(config, budget, moves + [Decide(Chose(Decision.Finish(answer, cited)))]).task;
      && (done.status == Completed <==>
            && (exists ref :: Citable(config, budget, moves, ref))
            && forall i :: 0 <= i < |cited| ==> Citable(config, budget, moves, cited[i]))
      && (done.status == Completed ==> done.finalEvidence == cited)
  {
    var last, decision := RunFrom(config, budget, moves), Decision.Finish(answer, cited);
    InitInv(config, budget);
    TraceGrows(config, Init(budget), moves);
    Reached(config, budget, moves);
    assert (moves + [Decide(Chose(decision))])[..|moves|] == moves;
    FinishDecided(config, last, decision);
    hide RunFrom, Next, Inv, Citable;
    forall ref ensures ref in Available(last.task) <==> Citable(config, budget, moves, ref) {
      AvailableIsReturned(config, budget, moves, ref);
    }
    NoneAvailable(last.task);
  }

  lemma NoneAvailable(task: Task)
    ensures Available(task) != {} <==> exists ref :: ref in Available(task)
  {
    if Available(task) != {} { var ref :| ref in Available(task); }
  }

  lemma FinishDecided(config: Config, state: State, decision: Decision)
    requires Inv(config, state) && state.control.ToDecide? && decision.Finish?
    requires state.task.steps < state.task.budget.maxSteps
    ensures var done := Next(config, state, Decide(Chose(decision))).task;
      && (done.status == Completed <==> EvidenceAccepted(state.task, decision.evidence))
      && (done.status == Completed ==> done.finalEvidence == decision.evidence)
  {
    hide ApplyDecision, PlainOutcome, ApprovalInv, InvocationInv, AnswerInv, EvidenceInv;
    FinishShape(state.task, decision);
    PlainUnfolds(config, state.task, decision, state.nextId);
    DecideUnfolds(config, state, state.control.left, decision, PlainOutcome(state.task, decision), false);
  }

  // ----- what a tool may return

  /** An observation a tool returns is taken as it is; an exception counts as one failure without evidence, and ends
      the task when it cannot be retried or the failures are used up. */
  lemma ToolOutcomes(config: Config, state: State, result: ToolResult)
    requires Inv(config, state) && state.control.InTool?
    ensures var returned := Next(config, state, ToolReturns(result));
      var last, action := Next(config, returned, FinishTool), state.control.action;
      && returned.calls != []
      && (match result
          case Returned(observation) => LastReturn(returned).observation == observation
          case _ =>
            var retryable := result == DomainError(true) || result.BadArguments?;
            && last.history == state.history + [Note(action.id, action.tool, Error, retryable, [])]
            && last.task.failures == state.task.failures + 1 && last.task.pending.None?
            && last.task.status ==
                 if !retryable || state.task.failures + 1 > state.task.budget.maxFailures then Failed else Running)
  {
    ToolReturnsKeeps(config, state, result);
    var returned := Next(config, state, ToolReturns(result));
    FinishedTask(config, returned.task, returned.control.action, returned.control.observation, returned.nextId,
                 returned.now);
    if returned.control.observation.outcome == Error {
      FinishedWithError(config, returned.task, returned.control.action, returned.control.observation,
                        returned.nextId, returned.now);
    }
    hide FinishExecution;
  }

  // ----- inputs

  /** The texts that reached the task while it awaited input, in order. */
  ghost function Submitted(config: Config, budget: Budget, moves: seq<Move>): seq<string> {
    if moves == [] then []
    else
      var shorter, last := moves[..|moves| - 1], moves[|moves| - 1];
      var before := RunFrom(config, budget, shorter);
      Submitted(config, budget, shorter)
      + if last.Input? && before.control.AtRest? && before.task.status == WaitingForInput then [last.text] else []
  }

  lemma InputsStep(config: Config, state: State, move: Move)
    requires Inv(config, state)
    ensures var next := Next(config, state, move);
      next.task.inputs ==
        if move.Input? && state.control.AtRest? && state.task.status == WaitingForInput
        then Newest(state.task.inputs + [move.text], 8) else state.task.inputs
  {
    match move
    case FinishTool =>
      if state.control.ToFinish? {
        FinishedTask(config, state.task, state.control.action, state.control.observation, state.nextId, state.now);
        hide FinishExecution;
      }
    case Decide(reply) => if state.control.ToDecide? { InputsOfDecision(config, state, reply); }
    case _ =>
  }

  lemma InputsOfDecision(config: Config, state: State, reply: ModelReply)
    requires Inv(config, state) && state.control.ToDecide?
    ensures DoDecide(config, state, state.control.left, reply).task.inputs == state.task.inputs
  {
    if state.task.steps < state.task.budget.maxSteps && reply.Chose? {
      var decision := reply.decision;
      if decision.CallTool? && decision.tool.Some? {
        CountedShape(state.task);
        PreparedTask(config, Counted(state.task), decision.tool.value, decision.arguments, state.nextId);
      } else if !decision.CallTool? {
        PlainShape(state.task, decision);
        PlainUnfolds(config, state.task, decision, state.nextId);
        hide ApplyDecision;
      }
    }
  }

  lemma {:induction false} InputsAreWindow(config: Config, budget: Budget, moves: seq<Move>)
    requires config.Valid()
    ensures RunFrom(config, budget, moves).task.inputs == Newest(Submitted(config, budget, moves), 8)
  {
    if moves != [] {
      hide Next, Newest;
      var shorter, last := moves[..|moves| - 1], moves[|moves| - 1];
      InputsAreWindow(config, budget, shorter);
      Reached(config, budget, shorter);
      InputsStep(config, RunFrom(config, budget, shorter), last);
      if last.Input? { NewestAppend(Submitted(config, budget, shorter), last.text, 8); }
    }
  }

  /** The record keeps the newest eight of all inputs ever submitted. */
  lemma InputsAreNewest(config: Config, budget: Budget, moves: seq<Move>)
    requires config.Valid()
    ensures var inputs, submitted := RunFrom(config, budget, moves).task.inputs, Submitted(config, budget, moves);
      && |inputs| == Min(|submitted|, 8)
      && forall i :: 0 <= i < |inputs| ==> inputs[i] == submitted[|submitted| - |inputs| + i]
  {
    hide RunFrom, Submitted;
    InputsAreWindow(config, budget, moves);
  }
}
