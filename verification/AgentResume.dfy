/** The resume batch: due and interrupted tasks are run again, oldest first, up to a limit. */
module AgentResume {
  import opened Prelude
  import opened AgentContracts
  import T = AgentTransactions
  import M = AgentMachine
  import S = AgentSafety
  import opened AgentControl

  const MAX_BATCH := 100

  /** Positions in the order of the last update. */
  datatype Batch = Batch(selected: seq<nat>, resumed: seq<nat>, failed: seq<nat>)

  /** An error that nothing handles, or the death of the process, ends the batch at the task `at`. */
  datatype Outcome = BadLimit | Left(cause: M.Cause, at: nat) | Finished(batch: Batch)

  /** The query: the first `limit` ready rows. */
  function Selected(rows: seq<Task>, now: nat, limit: nat): seq<nat> {
    if rows == [] then []
    else
      var last := |rows| - 1;
      var before := Selected(rows[..last], now, limit);
      if |before| < limit && T.ResumeReady(rows[last], now) then before + [last] else before
  }

  ghost predicate Ascending(positions: seq<nat>) {
    forall i, j :: 0 <= i < j < |positions| ==> positions[i] < positions[j]
  }

  lemma {:induction false} SelectedAreReady(rows: seq<Task>, now: nat, limit: nat)
    ensures var selected := Selected(rows, now, limit);
      && |selected| <= limit && Ascending(selected)
      && (forall i :: 0 <= i < |selected| ==> selected[i] < |rows| && T.ResumeReady(rows[selected[i]], now))
  {
    if rows != [] {
      hide T.ResumeReady;
      SelectedAreReady(rows[..|rows| - 1], now, limit);
    }
  }

  lemma {:induction false} LeftOut(rows: seq<Task>, now: nat, limit: nat, p: nat)
    requires p < |rows| && T.ResumeReady(rows[p], now) && p !in Selected(rows, now, limit)
    ensures |Selected(rows, now, limit)| == limit
    ensures forall q :: q in Selected(rows, now, limit) ==> q < p
  {
    hide T.ResumeReady;
    var last := |rows| - 1;
    SelectedAreReady(rows[..last], now, limit);
    if p < last { LeftOut(rows[..last], now, limit, p); }
  }

  /** Every selected row is ready, and a ready row is left out only when the batch is full of older ones. */
  lemma SelectsOldest(rows: seq<Task>, now: nat, limit: nat)
    ensures var selected := Selected(rows, now, limit);
      && |selected| <= limit && Ascending(selected)
      && (forall p :: p in selected ==> p < |rows| && T.ResumeReady(rows[p], now))
      && (forall p :: 0 <= p < |rows| && T.ResumeReady(rows[p], now) && p !in selected ==>
            |selected| == limit && forall q :: q in selected ==> q < p)
  {
    hide T.ResumeReady, Selected, Ascending;
    SelectedAreReady(rows, now, limit);
    forall p | 0 <= p < |rows| && T.ResumeReady(rows[p], now) && p !in Selected(rows, now, limit)
      ensures |Selected(rows, now, limit)| == limit && forall q :: q in Selected(rows, now, limit) ==> q < p
    {
      LeftOut(rows, now, limit, p);
    }
  }

  function Rows(services: seq<AgentControlService>): (rows: seq<Task>)
    reads services
    ensures |rows| == |services| && forall i :: 0 <= i < |rows| ==> rows[i] == services[i].db
  {
    if services == [] then [] else Rows(services[..|services| - 1]) + [services[|services| - 1].db]
  }

  /** What the batch did to a selected task whose run was `was` at first: other calls may have reached it, then, after
      `turn` moves of the run, came its turn. */
  ghost predicate Handled(service: AgentControlService, was: seq<M.Move>, creator: Lookup, place: Place, turn: nat)
    reads service
  {
    && was <= service.moves && |was| <= turn < |service.moves|
    && (var before := S.RunFrom(service.config, service.budget, service.moves[..turn]).task;
        TurnOf(creator, place, service.moves[turn..], before, service.db))
  }

  ghost predicate Untouched(service: AgentControlService, row: Task, was: seq<M.Move>)
    reads service
  {
    service.db == row && service.moves == was
  }

  ghost function Histories(services: seq<AgentControlService>): (moves: seq<seq<M.Move>>)
    reads services
    ensures |moves| == |services| && forall i :: 0 <= i < |moves| ==> moves[i] == services[i].moves
  {
    if services == [] then [] else Histories(services[..|services| - 1]) + [services[|services| - 1].moves]
  }

  function Home(batch: Batch, p: nat): Place {
    if p in batch.resumed then Resumed else if p in batch.failed then Filed else Skipped
  }

  function File(batch: Batch, p: nat, place: Place): Batch {
    match place
    case Resumed => batch.(resumed := batch.resumed + [p])
    case Filed => batch.(failed := batch.failed + [p])
    case _ => batch
  }

  /** Both lists are in order, hold processed tasks only and share none. */
  ghost predicate Tidy(done: set<nat>, batch: Batch) {
    && Ascending(batch.resumed) && Ascending(batch.failed)
    && (forall p :: p in batch.resumed || p in batch.failed ==> p in done)
    && (forall p :: p in batch.resumed ==> p !in batch.failed)
  }

  function Members(positions: seq<nat>): set<nat> {
    set p | p in positions
  }

  lemma Files(done: set<nat>, batch: Batch, p: nat, place: Place)
    requires Tidy(done, batch) && forall q :: q in done ==> q < p
    ensures Tidy(done + {p}, File(batch, p, place))
    ensures !place.Leaves? ==> Home(File(batch, p, place), p) == place
    ensures forall q :: q != p ==> Home(File(batch, p, place), q) == Home(batch, q)
  {
    AppendsLast(batch.resumed, p);
    AppendsLast(batch.failed, p);
    hide Ascending;
  }

  lemma AppendsLast(positions: seq<nat>, p: nat)
    requires Ascending(positions) && forall q :: q in positions ==> q < p
    ensures Ascending(positions + [p])
  {
    assert forall i :: 0 <= i < |positions| ==> positions[i] in positions;
  }

  /** A task that no other call reached before its turn is skipped only when a row is missing, and filed as failed
      only for a creator who can no longer authorize it, an error that is not handled, or an action whose result could
      not be recorded. */
  lemma TurnsOfReady(creator: Lookup, place: Place, moves: seq<M.Move>, before: Task, after: Task, now: nat)
    requires TurnOf(creator, place, moves, before, after) && T.ResumeReady(before, now)
    ensures var last := moves[|moves| - 1];
      && (place == Skipped <==> !creator.Inactive? && last == M.Crash(M.NotFound))
      && (place == Filed <==>
            if creator.Inactive? then !last.Crash? || last.cause == M.NotFound
            else last == M.Crash(M.Unhandled) || (!last.Crash? && Interrupted(after)))
      && (place == Resumed <==> creator.Active? && !last.Crash? && !Interrupted(after))
      && (creator.Inactive? && !last.Crash? ==> after.status == Failed)
  {
  }

  /** One selected task. */
  method ResumeOne(service: AgentControlService, creator: Lookup) returns (place: Place, ghost turn: nat)
    requires service.Free()
    modifies service
    ensures service.Free() && Handled(service, old(service.moves), creator, place, turn)
  {
    hide S.RunFrom, M.Next, TurnOf;
    service.OtherCalls();
    ghost var before := service.moves;
    turn := |before|;
    place := service.Resume(creator);
    assert service.moves[..turn] == before;
  }

  ghost predicate Distinct(services: seq<AgentControlService>) {
    forall i, j :: 0 <= i < j < |services| ==> services[i] != services[j]
  }

  /** The tasks in `turns` had their turn, the others are as they were. */
  ghost predicate Progressed(services: seq<AgentControlService>, rows: seq<Task>, was: seq<seq<M.Move>>,
                             creators: seq<Lookup>, batch: Batch, turns: map<nat, nat>)
    requires |rows| == |was| == |creators| == |services|
    reads services
  {
    && (forall s :: s in services ==> s.Free())
    && (forall p :: 0 <= p < |services| && p !in turns ==> Untouched(services[p], rows[p], was[p]))
    && (forall p :: p in turns ==>
          p < |services| && Handled(services[p], was[p], creators[p], Home(batch, p), turns[p]))
  }

  /** The turn of the task `at`; an error that leaves the batch leaves the lists as they are. */
  method ResumeNext(services: seq<AgentControlService>, creators: seq<Lookup>, at: nat, batch: Batch,
                    ghost rows: seq<Task>, ghost was: seq<seq<M.Move>>, ghost turns: map<nat, nat>)
    returns (ending: Place, after: Batch, ghost turn: nat)
    requires |rows| == |was| == |creators| == |services| && Distinct(services) && at < |services|
    requires Progressed(services, rows, was, creators, batch, turns) && Tidy(turns.Keys, batch)
    requires forall q :: q in turns ==> q < at
    modifies services[at]
    ensures !ending.Leaves? ==>
      && Progressed(services, rows, was, creators, after, turns[at := turn])
      && Tidy(turns.Keys + {at}, after) && after.selected == batch.selected
    ensures ending.Leaves? ==>
      && (forall s :: s in services ==> s.Free())
      && (forall p :: 0 <= p < |services| && p != at && p !in turns ==> Untouched(services[p], rows[p], was[p]))
      && Handled(services[at], was[at], creators[at], ending, turn)
  {
    hide S.RunFrom, M.Next, Handled, Tidy, Home, File, AgentControlService.Free, AgentControlService.Valid;
    after := batch;
    ending, turn := ResumeOne(services[at], creators[at]);
    if !ending.Leaves? {
      Files(turns.Keys, batch, at, ending);
      after := FileIn(batch, at, ending);
    }
  }

  /** The selected tasks in turn, until one of them ends the batch. */
  method ResumeAll(services: seq<AgentControlService>, creators: seq<Lookup>, selected: seq<nat>,
                   ghost rows: seq<Task>, ghost was: seq<seq<M.Move>>)
    returns (ending: Place, at: nat, batch: Batch, ghost turns: map<nat, nat>)
    requires |rows| == |was| == |creators| == |services| && Distinct(services)
    requires Progressed(services, rows, was, creators, Batch(selected, [], []), map[])
    requires Ascending(selected) && forall i :: 0 <= i < |selected| ==> selected[i] < |services|
    modifies services
    ensures !ending.Leaves? ==>
      && batch.selected == selected && turns.Keys == Members(selected) && Tidy(Members(selected), batch)
      && Progressed(services, rows, was, creators, batch, turns)
    ensures ending.Leaves? ==>
      && (forall s :: s in services ==> s.Free())
      && (forall p :: 0 <= p < |services| && (p !in selected || p > at) ==> Untouched(services[p], rows[p], was[p]))
      && at in selected && at < |services| && at in turns
      && Handled(services[at], was[at], creators[at], ending, turns[at])
  {
    EmptyIsTidy(selected);
    hide S.RunFrom, M.Next, Handled, Ascending, Progressed, Tidy, Home, File, Untouched, Distinct, Taken, Members;
    hide AgentControlService.Free, AgentControlService.Valid;
    batch := Batch(selected, [], []);
    ending, at, turns := Resumed, 0, map[];
    TakenNone(selected);
    assert turns.Keys == {};
    for i := 0 to |selected|
      invariant Taken(turns.Keys, selected, i) && batch.selected == selected && Tidy(turns.Keys, batch)
      invariant Progressed(services, rows, was, creators, batch, turns)
      invariant !ending.Leaves?
    {
      at := selected[i];
      TakenNext(turns.Keys, selected, i);
      ghost var before, turn := turns, 0;
      ending, batch, turn := ResumeNext(services, creators, at, batch, rows, was, turns);
      turns := turns[at := turn];
      assert turns.Keys == before.Keys + {at};
      if ending.Leaves? { return; }
    }
    TakenAll(turns.Keys, selected);
  }

  /** The first `i` selected positions. */
  ghost predicate Taken(done: set<nat>, selected: seq<nat>, i: nat) {
    i <= |selected| && done == set j | 0 <= j < i :: selected[j]
  }

  lemma TakenNone(selected: seq<nat>)
    ensures Taken({}, selected, 0)
  {
  }

  lemma TakenNext(done: set<nat>, selected: seq<nat>, i: nat)
    requires Taken(done, selected, i) && i < |selected| && Ascending(selected)
    ensures Taken(done + {selected[i]}, selected, i + 1)
    ensures forall p :: p in done ==> p < selected[i] && p in selected
  {
  }

  lemma TakenAll(done: set<nat>, selected: seq<nat>)
    requires Taken(done, selected, |selected|)
    ensures done == Members(selected)
  {
  }

  lemma EmptyIsTidy(selected: seq<nat>)
    ensures Tidy({}, Batch(selected, [], []))
  {
  }

  method FileIn(batch: Batch, p: nat, place: Place) returns (filed: Batch)
    requires !place.Leaves?
    ensures filed == File(batch, p, place) && filed.selected == batch.selected
  {
    filed := batch;
    match place {
      case Resumed => filed := filed.(resumed := filed.resumed + [p]);
      case Filed => filed := filed.(failed := filed.failed + [p]);
      case Skipped =>
      case Leaves(_) =>
    }
  }

  /**
   * The services stand for the tasks in the order of their last update, `creators` for what looking up each task's
   * creator will find. Each selected task has its turn and is filed as the turn ended; all others are left alone.
   */
  method ResumeReadyTasks(services: seq<AgentControlService>, creators: seq<Lookup>, now: nat, limit: int)
    returns (outcome: Outcome, ghost turns: map<nat, nat>)
    requires |creators| == |services| && forall s :: s in services ==> s.Free()
    requires Distinct(services)
    modifies services
    ensures forall s :: s in services ==> s.Free()
    ensures outcome.BadLimit? <==> limit < 1 || limit > MAX_BATCH
    ensures outcome.BadLimit? ==> forall s :: s in services ==> Untouched(s, old(s.db), old(s.moves))
    ensures !outcome.BadLimit? ==> var selected := Selected(old(Rows(services)), now, limit);
      && (forall p :: 0 <= p < |services| && p !in selected ==>
            Untouched(services[p], old(services[p].db), old(services[p].moves)))
      && (outcome.Finished? ==> var batch := outcome.batch;
            && batch.selected == selected && Tidy(Members(selected), batch)
            && (forall i :: 0 <= i < |selected| ==> var p := selected[i];
                  && p < |services| && p in turns
                  && Handled(services[p], old(services[p].moves), creators[p], Home(batch, p), turns[p])))
      && (outcome.Left? ==> var at := outcome.at;
            && at in selected && at < |services| && at in turns
            && Handled(services[at], old(services[at].moves), creators[at], Leaves(outcome.cause), turns[at])
            && (forall p :: at < p < |services| ==>
                  Untouched(services[p], old(services[p].db), old(services[p].moves))))
  {
    hide S.RunFrom, M.Next, Handled, Tidy, Home, Selected, Rows, Histories, Ascending;
    hide AgentControlService.Free, AgentControlService.Valid;
    ghost var rows, was := Rows(services), Histories(services);
    if limit < 1 || limit > MAX_BATCH {
      return BadLimit, map[];
    }
    var selected := SelectReady(services, now, limit);
    SelectedAreReady(Rows(services), now, limit);
    var ending, at, batch;
    ending, at, batch, turns := ResumeAll(services, creators, selected, rows, was);
    outcome := if ending.Leaves? then Left(ending.cause, at) else Finished(batch);
  }

  method SelectReady(services: seq<AgentControlService>, now: nat, limit: nat) returns (selected: seq<nat>)
    ensures selected == Selected(Rows(services), now, limit)
  {
    selected := [];
    for i := 0 to |services|
      invariant selected == Selected(Rows(services[..i]), now, limit)
    {
      assert services[..i + 1][..i] == services[..i];
      assert Rows(services[..i + 1])[..i] == Rows(services[..i]);
      if |selected| < limit && T.ResumeReady(services[i].db, now) { selected := selected + [i]; }
    }
    assert services[..|services|] == services;
  }
}
