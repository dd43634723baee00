/** The reference-counted per-task lock: a table of entries that live exactly as long as some thread needs them.
    A step of the protocol is one critical section of the table guard, or one operation of an entry's own lock. */
module TaskLocks {
  import opened Prelude

  type TaskId = string
  type ThreadId = nat
  type EntryId = nat

  /** Where a thread stands between entering and leaving: waiting for the entry's lock, holding it, or past it. */
  datatype Phase = Waiting | Holding | Leaving
  datatype Inside = Inside(task: TaskId, entry: EntryId, phase: Phase)
  datatype Entry = Entry(users: int, holder: Option<ThreadId>)

  /** `entries` are the entry objects ever created, whether or not the table still refers to them. */
  datatype Locks = Locks(
    table: map<TaskId, EntryId>, entries: map<EntryId, Entry>, threads: map<ThreadId, Inside>, created: nat)

  datatype Step = Enter(task: TaskId) | Acquire | Interrupt | Release | Exit

  const EMPTY := Locks(map[], map[], map[], 0)

  function SetEntry(locks: Locks, id: EntryId, entry: Entry): Locks {
    locks.(entries := locks.entries[id := entry])
  }

  function SetThread(locks: Locks, thread: ThreadId, inside: Inside): Locks {
    locks.(threads := locks.threads[thread := inside])
  }

  /** `setdefault`: the table refers to an entry for the task; a fresh entry is created either way. */
  function WithEntry(locks: Locks, task: TaskId): Locks {
    if task in locks.table then locks.(created := locks.created + 1)
    else Locks(locks.table[task := locks.created], locks.entries[locks.created := Entry(0, None)], locks.threads,
      locks.created + 1)
  }

  /** One step of one thread; a step the thread cannot take now leaves everything as it is. */
  function Take(locks: Locks, thread: ThreadId, step: Step): Locks {
    if step.Enter? then
      var ready := WithEntry(locks, step.task);
      var id := ready.table[step.task];
      if thread in locks.threads || id !in ready.entries then locks
      else
        var counted := SetEntry(ready, id, ready.entries[id].(users := ready.entries[id].users + 1));
        SetThread(counted, thread, Inside(step.task, id, Waiting))
    else if thread !in locks.threads || locks.threads[thread].entry !in locks.entries then locks
    else
      var inside := locks.threads[thread];
      var entry := locks.entries[inside.entry];
      match step
      case Acquire =>
        if inside.phase != Waiting || entry.holder.Some? then locks
        else SetThread(SetEntry(locks, inside.entry, entry.(holder := Some(thread))), thread, inside.(phase := Holding))
      case Interrupt =>
        if inside.phase != Waiting then locks else SetThread(locks, thread, inside.(phase := Leaving))
      case Release =>
        if inside.phase != Holding then locks
        else SetThread(SetEntry(locks, inside.entry, entry.(holder := None)), thread, inside.(phase := Leaving))
      case Exit =>
        if inside.phase != Leaving then locks
        else
          var left := entry.(users := entry.users - 1);
          var dropped := left.users == 0 && inside.task in locks.table && locks.table[inside.task] == inside.entry;
          SetEntry(locks, inside.entry, left).(
            table := if dropped then locks.table - {inside.task} else locks.table,
            threads := locks.threads - {thread})
  }

  function Interleave(schedule: seq<(ThreadId, Step)>): Locks {
    if schedule == [] then EMPTY
    else
      var last := schedule[|schedule| - 1];
      Take(Interleave(schedule[..|schedule| - 1]), last.0, last.1)
  }

  function UsersOf(threads: map<ThreadId, Inside>, entry: EntryId): set<ThreadId> {
    set t | t in threads && threads[t].entry == entry
  }

  /** Every thread inside refers to its task's table entry; distinct tasks have distinct entries. */
  ghost predicate TableInv(locks: Locks) {
    && (forall task :: task in locks.table ==> locks.table[task] in locks.entries)
    && (forall a, b :: a in locks.table && b in locks.table && locks.table[a] == locks.table[b] ==> a == b)
    && (forall t :: t in locks.threads ==>
          locks.threads[t].task in locks.table && locks.table[locks.threads[t].task] == locks.threads[t].entry)
    && (forall e :: e in locks.entries ==> e < locks.created)
  }

  /** Counts are exact, and the table holds no entry without users. */
  ghost predicate CountInv(locks: Locks) {
    && (forall e :: e in locks.entries ==> locks.entries[e].users == |UsersOf(locks.threads, e)|)
    && (forall task :: task in locks.table && locks.table[task] in locks.entries ==>
          locks.entries[locks.table[task]].users > 0)
  }

  /** An entry names as holder exactly the thread that holds it. */
  ghost predicate HolderInv(locks: Locks) {
    && (forall t :: t in locks.threads && locks.threads[t].phase == Holding ==>
          locks.threads[t].entry in locks.entries && locks.entries[locks.threads[t].entry].holder == Some(t))
    && (forall e :: e in locks.entries && locks.entries[e].holder.Some? ==>
          var t := locks.entries[e].holder.value;
          t in locks.threads && locks.threads[t].entry == e && locks.threads[t].phase == Holding)
  }

  ghost predicate Inv(locks: Locks) {
    TableInv(locks) && CountInv(locks) && HolderInv(locks)
  }

  lemma UsersAfterEnter(threads: map<ThreadId, Inside>, thread: ThreadId, inside: Inside, e: EntryId)
    requires thread !in threads
    ensures UsersOf(threads[thread := inside], e) ==
      if e == inside.entry then UsersOf(threads, e) + {thread} else UsersOf(threads, e)
  {
  }

  lemma UsersAfterExit(threads: map<ThreadId, Inside>, thread: ThreadId, e: EntryId)
    requires thread in threads
    ensures UsersOf(threads - {thread}, e) == UsersOf(threads, e) - {thread}
    ensures |UsersOf(threads - {thread}, e)| == |UsersOf(threads, e)| - if threads[thread].entry == e then 1 else 0
  {
    assert UsersOf(threads - {thread}, e) == UsersOf(threads, e) - {thread};
    if threads[thread].entry == e {
      assert thread in UsersOf(threads, e);
    } else {
      assert UsersOf(threads, e) - {thread} == UsersOf(threads, e);
    }
  }

  lemma UsersAfterPhase(threads: map<ThreadId, Inside>, thread: ThreadId, phase: Phase, e: EntryId)
    requires thread in threads
    ensures UsersOf(threads[thread := threads[thread].(phase := phase)], e) == UsersOf(threads, e)
  {
  }

  /** The invariant, except that `pending` threads more are counted for `id` than are inside. */
  ghost predicate NearlyInv(locks: Locks, id: EntryId, pending: int) {
    && TableInv(locks) && HolderInv(locks)
    && (forall e :: e in locks.entries ==>
          locks.entries[e].users == |UsersOf(locks.threads, e)| + if e == id then pending else 0)
    && (forall task :: task in locks.table && locks.table[task] in locks.entries && locks.table[task] != id ==>
          locks.entries[locks.table[task]].users > 0)
  }

  lemma WithEntryKeeps(locks: Locks, task: TaskId)
    requires Inv(locks)
    ensures NearlyInv(WithEntry(locks, task), WithEntry(locks, task).table[task], 0)
  {
    var ready := WithEntry(locks, task);
    if task !in locks.table {
      assert UsersOf(locks.threads, locks.created) == {} by {
        forall t | t in locks.threads ensures locks.threads[t].entry != locks.created {}
      }
    }
    assert TableInv(ready);
  }

  function Counted(locks: Locks, id: EntryId): Locks
    requires id in locks.entries
  {
    SetEntry(locks, id, locks.entries[id].(users := locks.entries[id].users + 1))
  }

  lemma EnterCounts(ready: Locks, thread: ThreadId, inside: Inside)
    requires NearlyInv(ready, inside.entry, 0) && thread !in ready.threads && inside.entry in ready.entries
    ensures CountInv(SetThread(Counted(ready, inside.entry), thread, inside))
  {
    var next := SetThread(Counted(ready, inside.entry), thread, inside);
    forall e | e in next.entries ensures next.entries[e].users == |UsersOf(next.threads, e)| {
      UsersAfterEnter(ready.threads, thread, inside, e);
    }
  }

  lemma EnterTables(ready: Locks, thread: ThreadId, inside: Inside)
    requires TableInv(ready) && thread !in ready.threads && inside.entry in ready.entries
    requires inside.task in ready.table && ready.table[inside.task] == inside.entry
    ensures TableInv(SetThread(Counted(ready, inside.entry), thread, inside))
  {
  }

  lemma EnterHolders(ready: Locks, thread: ThreadId, inside: Inside)
    requires HolderInv(ready) && thread !in ready.threads && inside.entry in ready.entries && inside.phase == Waiting
    ensures HolderInv(SetThread(Counted(ready, inside.entry), thread, inside))
  {
  }

  lemma EnterInto(ready: Locks, thread: ThreadId, inside: Inside)
    requires NearlyInv(ready, inside.entry, 0) && thread !in ready.threads && inside.entry in ready.entries
    requires inside.task in ready.table && ready.table[inside.task] == inside.entry && inside.phase == Waiting
    ensures Inv(SetThread(Counted(ready, inside.entry), thread, inside))
  {
    EnterCounts(ready, thread, inside);
    EnterTables(ready, thread, inside);
    EnterHolders(ready, thread, inside);
  }

  lemma EnterUnfolds(locks: Locks, thread: ThreadId, task: TaskId)
    requires thread !in locks.threads && WithEntry(locks, task).table[task] in WithEntry(locks, task).entries
    ensures var ready := WithEntry(locks, task);
      Take(locks, thread, Enter(task)) ==
        SetThread(Counted(ready, ready.table[task]), thread, Inside(task, ready.table[task], Waiting))
  {
  }

  lemma EnterKeeps(locks: Locks, thread: ThreadId, task: TaskId)
    requires Inv(locks) && thread !in locks.threads
    ensures Inv(Take(locks, thread, Enter(task)))
  {
    WithEntryKeeps(locks, task);
    EnterUnfolds(locks, thread, task);
    EnterInto(WithEntry(locks, task), thread, Inside(task, WithEntry(locks, task).table[task], Waiting));
  }

  /** After the exit of `thread`: it is gone and counted out, and its task's entry is dropped with the last user. */
  function Exited(locks: Locks, thread: ThreadId): Locks
    requires thread in locks.threads && locks.threads[thread].entry in locks.entries
  {
    var inside := locks.threads[thread];
    var left := locks.entries[inside.entry].(users := locks.entries[inside.entry].users - 1);
    var dropped := left.users == 0 && inside.task in locks.table && locks.table[inside.task] == inside.entry;
    Locks(if dropped then locks.table - {inside.task} else locks.table, locks.entries[inside.entry := left],
          locks.threads - {thread}, locks.created)
  }

  lemma ExitCounts(locks: Locks, thread: ThreadId)
    requires TableInv(locks) && CountInv(locks) && thread in locks.threads
    ensures locks.threads[thread].entry in locks.entries && CountInv(Exited(locks, thread))
  {
    assert locks.threads[thread].entry in locks.entries;
    var next := Exited(locks, thread);
    forall e | e in next.entries ensures next.entries[e].users == |UsersOf(next.threads, e)| {
      UsersAfterExit(locks.threads, thread, e);
    }
  }

  /** As long as another thread is inside for the same task, its entry stays. */
  lemma ExitTables(locks: Locks, thread: ThreadId)
    requires TableInv(locks) && thread in locks.threads && locks.threads[thread].entry in locks.entries
    requires CountInv(Exited(locks, thread))
    ensures TableInv(Exited(locks, thread))
  {
    var next := Exited(locks, thread);
    var inside := locks.threads[thread];
    forall t | t in next.threads ensures next.threads[t].task in next.table {
      if next.threads[t].task == inside.task {
        assert t in UsersOf(next.threads, inside.entry);
        assert next.entries[inside.entry].users == |UsersOf(next.threads, inside.entry)|;
      }
    }
  }

  lemma ExitHolders(locks: Locks, thread: ThreadId)
    requires HolderInv(locks) && thread in locks.threads && locks.threads[thread].entry in locks.entries
    requires locks.threads[thread].phase == Leaving
    ensures HolderInv(Exited(locks, thread))
  {
  }

  lemma ExitKeeps(locks: Locks, thread: ThreadId)
    requires Inv(locks) && thread in locks.threads && locks.threads[thread].phase == Leaving
    ensures Inv(Take(locks, thread, Exit))
  {
    ExitCounts(locks, thread);
    ExitTables(locks, thread);
    ExitHolders(locks, thread);
    ExitUnfolds(locks, thread);
  }

  lemma ExitUnfolds(locks: Locks, thread: ThreadId)
    requires thread in locks.threads && locks.threads[thread].entry in locks.entries
    requires locks.threads[thread].phase == Leaving
    ensures Take(locks, thread, Exit) == Exited(locks, thread)
  {
  }

  /** Moving a thread to another phase touches neither the table nor any count. */
  lemma PhaseKeeps(locks: Locks, thread: ThreadId, phase: Phase, holder: Option<ThreadId>)
    requires TableInv(locks) && CountInv(locks) && thread in locks.threads
    ensures var inside := locks.threads[thread];
      inside.entry in locks.entries &&
      var next := SetThread(SetEntry(locks, inside.entry, locks.entries[inside.entry].(holder := holder)),
                            thread, inside.(phase := phase));
      TableInv(next) && CountInv(next)
  {
    PhaseKeepsTable(locks, thread, phase, holder);
    var inside := locks.threads[thread];
    var next := SetThread(SetEntry(locks, inside.entry, locks.entries[inside.entry].(holder := holder)),
                          thread, inside.(phase := phase));
    forall e ensures UsersOf(next.threads, e) == UsersOf(locks.threads, e) {
      UsersAfterPhase(locks.threads, thread, phase, e);
    }
  }

  lemma PhaseKeepsTable(locks: Locks, thread: ThreadId, phase: Phase, holder: Option<ThreadId>)
    requires TableInv(locks) && thread in locks.threads
    ensures var inside := locks.threads[thread];
      inside.entry in locks.entries &&
      TableInv(SetThread(SetEntry(locks, inside.entry, locks.entries[inside.entry].(holder := holder)),
                         thread, inside.(phase := phase)))
  {
  }

  /** Taking or dropping a free or own hold, or giving up while waiting, keeps holders and phases in step. */
  lemma PhaseKeepsHolders(locks: Locks, thread: ThreadId, phase: Phase, holder: Option<ThreadId>)
    requires HolderInv(locks) && thread in locks.threads && locks.threads[thread].entry in locks.entries
    requires
      var inside, entry := locks.threads[thread], locks.entries[locks.threads[thread].entry];
      || (inside.phase == Waiting && entry.holder.None? && phase == Holding && holder == Some(thread))
      || (inside.phase == Waiting && phase == Leaving && holder == entry.holder)
      || (inside.phase == Holding && phase == Leaving && holder.None?)
    ensures var inside := locks.threads[thread];
      HolderInv(SetThread(SetEntry(locks, inside.entry, locks.entries[inside.entry].(holder := holder)),
                          thread, inside.(phase := phase)))
  {
  }

  lemma InPlaceKeeps(locks: Locks, thread: ThreadId, step: Step)
    requires Inv(locks) && thread in locks.threads && (step.Acquire? || step.Interrupt? || step.Release?)
    ensures Inv(Take(locks, thread, step))
  {
    var inside := locks.threads[thread];
    assert inside.entry in locks.entries;
    var entry := locks.entries[inside.entry];
    var phase := if step.Acquire? then Holding else Leaving;
    var holder := match step case Acquire => Some(thread) case Interrupt => entry.holder case _ => None;
    if Take(locks, thread, step) != locks {
      PhaseKeeps(locks, thread, phase, holder);
      PhaseKeepsHolders(locks, thread, phase, holder);
      if step.Interrupt? { assert locks.entries == locks.entries[inside.entry := entry.(holder := holder)]; }
    }
  }

  lemma StepKeeps(locks: Locks, thread: ThreadId, step: Step)
    requires Inv(locks)
    ensures Inv(Take(locks, thread, step))
  {
    if step.Enter? {
      if thread !in locks.threads { EnterKeeps(locks, thread, step.task); }
    } else if thread in locks.threads {
      if step.Exit? {
        if locks.threads[thread].phase == Leaving { ExitKeeps(locks, thread); }
      } else {
        InPlaceKeeps(locks, thread, step);
      }
    }
  }

  lemma {:induction false} ScheduleKeeps(schedule: seq<(ThreadId, Step)>)
    ensures Inv(Interleave(schedule))
  {
    if schedule != [] {
      ScheduleKeeps(schedule[..|schedule| - 1]);
      var last := schedule[|schedule| - 1];
      StepKeeps(Interleave(schedule[..|schedule| - 1]), last.0, last.1);
    }
  }

  /** Under every interleaving: at most one thread holds the lock of a task, all threads inside for a task share
      the table's entry, its count is their number, and the table has an entry exactly while there are such threads. */
  lemma LockProtocol(schedule: seq<(ThreadId, Step)>, task: TaskId)
    ensures var locks := Interleave(schedule);
      var inside := set t | t in locks.threads && locks.threads[t].task == task;
      && (task in locks.table <==> inside != {})
      && (forall t :: t in inside ==> locks.threads[t].entry == locks.table[task])
      && (task in locks.table ==>
        locks.table[task] in locks.entries && locks.entries[locks.table[task]].users == |inside|)
      && (forall s, t | s in inside && t in inside :: locks.threads[s].phase == locks.threads[t].phase == Holding ==>
        s == t)
  {
    ScheduleKeeps(schedule);
    var locks := Interleave(schedule);
    var inside := set t | t in locks.threads && locks.threads[t].task == task;
    if task in locks.table {
      assert inside == UsersOf(locks.threads, locks.table[task]);
    }
    forall s, t | s in inside && t in inside && locks.threads[s].phase == Holding && locks.threads[t].phase == Holding
      ensures s == t
    {
      assert locks.entries[locks.threads[s].entry].holder == Some(s);
      assert locks.entries[locks.threads[t].entry].holder == Some(t);
    }
  }

  /** A waiting thread can take the lock at once unless another thread holds it: no lock is ever left behind. */
  lemma NoStaleLock(schedule: seq<(ThreadId, Step)>, thread: ThreadId)
    requires thread in Interleave(schedule).threads && Interleave(schedule).threads[thread].phase == Waiting
    ensures var locks := Interleave(schedule);
      var next := Take(locks, thread, Acquire);
      (thread in next.threads && next.threads[thread].phase == Holding) <==>
        !exists t :: t in locks.threads && locks.threads[t].task == locks.threads[thread].task
                     && locks.threads[t].phase == Holding
  {
    ScheduleKeeps(schedule);
    var locks := Interleave(schedule);
    var entry := locks.threads[thread].entry;
    if locks.entries[entry].holder.Some? {
      var t := locks.entries[entry].holder.value;
      assert locks.threads[t].task == locks.threads[thread].task;
    } else {
      forall t | t in locks.threads && locks.threads[t].task == locks.threads[thread].task
        ensures locks.threads[t].phase != Holding
      {
        assert locks.entries[entry].holder != Some(t);
      }
    }
  }

  /** The entry a thread refers to always exists. */
  lemma EntryExists(schedule: seq<(ThreadId, Step)>, thread: ThreadId)
    ensures var locks := Interleave(schedule);
      thread in locks.threads ==> locks.threads[thread].entry in locks.entries
  {
    ScheduleKeeps(schedule);
  }

  lemma TableEntryExists(schedule: seq<(ThreadId, Step)>, task: TaskId)
    ensures var locks := Interleave(schedule);
      task in locks.table ==> locks.table[task] in locks.entries
  {
    ScheduleKeeps(schedule);
  }

  /** The lock table of the service, updated in place by the threads that pass through it. */
  class TaskLockTable {
    var table: map<TaskId, EntryId>
    var entries: map<EntryId, Entry>
    var threads: map<ThreadId, Inside>
    var created: nat
    ghost var schedule: seq<(ThreadId, Step)>

    function Snapshot(): Locks
      reads this
    {
      Locks(table, entries, threads, created)
    }

    ghost predicate Valid()
      reads this
    {
      Snapshot() == Interleave(schedule)
    }

    constructor ()
      ensures Valid() && schedule == []
    {
      table, entries, threads, created := map[], map[], map[], 0;
      schedule := [];
    }

    ghost method Log(thread: ThreadId, step: Step)
      modifies this`schedule
      ensures schedule == old(schedule) + [(thread, step)]
      ensures Interleave(schedule) == Take(Interleave(old(schedule)), thread, step)
    {
      assert (schedule + [(thread, step)])[..|schedule + [(thread, step)]| - 1] == schedule;
      schedule := schedule + [(thread, step)];
    }

    /** Find or create the task's entry and count this thread in, under the table guard. */
    method EnterTask(thread: ThreadId, task: TaskId)
      requires Valid() && thread !in threads
      modifies this
      ensures Valid() && schedule == old(schedule) + [(thread, Enter(task))]
      ensures thread in threads && task in table && threads[thread] == Inside(task, table[task], Waiting)
    {
      hide Interleave;
      TableEntryExists(schedule, task);
      ghost var before := Snapshot();
      if task !in table {
        table := table[task := created];
        entries := entries[created := Entry(0, None)];
      }
      created := created + 1;
      assert Snapshot() == WithEntry(before, task);
      var entry := table[task];
      entries := entries[entry := entries[entry].(users := entries[entry].users + 1)];
      threads := threads[thread := Inside(task, entry, Waiting)];
      EnterUnfolds(before, thread, task);
      Log(thread, Enter(task));
    }

    /** Try to take the entry's lock. */
    method AcquireLock(thread: ThreadId) returns (acquired: bool)
      requires Valid() && thread in threads && threads[thread].phase == Waiting
      modifies this
      ensures Valid() && schedule == old(schedule) + [(thread, Acquire)]
      ensures thread in threads && (acquired <==> threads[thread].phase == Holding)
      ensures old(threads)[thread].entry in old(entries)
           && (acquired <==> old(entries)[old(threads)[thread].entry].holder.None?)
    {
      hide Interleave;
      EntryExists(schedule, thread);
      var entry := threads[thread].entry;
      acquired := entries[entry].holder.None?;
      if acquired {
        entries := entries[entry := entries[entry].(holder := Some(thread))];
        threads := threads[thread := threads[thread].(phase := Holding)];
      }
      Log(thread, Acquire);
    }

    method ReleaseLock(thread: ThreadId)
      requires Valid() && thread in threads && threads[thread].phase == Holding
      modifies this
      ensures Valid() && schedule == old(schedule) + [(thread, Release)]
      ensures thread in threads && threads[thread].phase == Leaving
    {
      hide Interleave;
      EntryExists(schedule, thread);
      var entry := threads[thread].entry;
      entries := entries[entry := entries[entry].(holder := None)];
      threads := threads[thread := threads[thread].(phase := Leaving)];
      Log(thread, Release);
    }

    /** Count this thread out and drop the entry when it was the last, under the table guard. */
    method ExitTask(thread: ThreadId)
      requires Valid() && thread in threads && threads[thread].phase == Leaving
      modifies this
      ensures Valid() && schedule == old(schedule) + [(thread, Exit)]
      ensures thread !in threads
    {
      hide Interleave;
      EntryExists(schedule, thread);
      ghost var before := Snapshot();
      var inside := threads[thread];
      var users := entries[inside.entry].users - 1;
      entries := entries[inside.entry := entries[inside.entry].(users := users)];
      if users == 0 && inside.task in table && table[inside.task] == inside.entry {
        table := table - {inside.task};
      }
      threads := threads - {thread};
      ExitUnfolds(before, thread);
      Log(thread, Exit);
    }
  }
}
