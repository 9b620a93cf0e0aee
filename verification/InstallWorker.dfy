/**
  The process itself: the shared state as fields that every turn updates in place, the boot reconciliation, and
  the worker loop. Each method is proved against the transition system, whose laws it inherits.
 */
module InstallWorker {
  import opened AppStatus
  import opened InstallProtocol
  import opened InstallSafety
  import opened InstallDrain
  import opened InstallAlone

  class Shard {
    var rows: map<Name, Status>
    var stacks: set<Name>
    var queue: seq<Task>
    var worker: Worker
    var locks: map<Name, seq<Party>>
    var calls: map<nat, Call>

    ghost function View(): State
      reads this
    {
      State(rows, stacks, queue, worker, locks, calls)
    }

    constructor (rows: map<Name, Status>, stacks: set<Name>)
      ensures View() == Booted(rows, stacks, [])
    {
      this.rows, this.stacks, this.queue := rows, stacks, [];
      this.worker, this.locks, this.calls := Idle, map[], map[];
    }

    method Enqueue(task: Task)
      modifies this`queue
      ensures queue == old(queue) + [task]
    {
      queue := queue + [task];
    }

    /** Queues one uninstallation for every row an earlier process left in an uninstall status. */
    method ReconcileInterruptedUninstalls()
      requires queue == []
      modifies this`queue
      ensures Reconciled(rows, queue)
    {
      var remaining := rows.Keys;
      while remaining != {}
        invariant remaining <= rows.Keys
        invariant forall t :: t in queue ==>
          && t.kind.Uninstall? && t.name in rows && t.name !in remaining
          && rows[t.name] in {UninstallationQueued, Uninstalling}
        invariant forall n :: n in rows && n !in remaining && rows[n] in {UninstallationQueued, Uninstalling} ==>
          Task(n, Uninstall) in queue
        invariant forall i, j :: 0 <= i < j < |queue| ==> queue[i] != queue[j]
        decreases remaining
      {
        var n :| n in remaining;
        remaining := remaining - {n};
        if rows[n].UninstallationQueued? || rows[n].Uninstalling? {
          assert Task(n, Uninstall) !in queue;
          Enqueue(Task(n, Uninstall));
        }
      }
    }

    // ---- the operations on the shared state ----

    method UpdateStatus(n: Name, status: Status)
      modifies this`rows
      ensures rows == ApplyRow(old(rows), n, Update(status))
    {
      if n in rows {
        rows := rows[n := status];
      }
    }

    method JoinLock(n: Name, p: Party)
      modifies this`locks
      ensures locks == old(locks)[n := LockQueue(old(View()), n) + [p]]
    {
      var waiters := if n in locks then locks[n] else [];
      locks := locks[n := waiters + [p]];
    }

    method ReleaseLock(n: Name)
      modifies this`locks
      ensures locks == old(locks)[n := ApplyLock(LockQueue(old(View()), n), TheWorker, Leave)]
    {
      var waiters := if n in locks then locks[n] else [];
      locks := locks[n := if waiters == [] then [] else waiters[1..]];
    }

    predicate IsIn(n: Name, status: Status)
      reads this
    {
      n in rows && rows[n] == status
    }

    // ---- the worker ----

    /** One turn of the loop of the installation worker, from one await to the next. */
    method WorkerTurn(out: Outcome)
      modifies this
      ensures View() == WorkerNext(old(View()), out)
    {
      match worker
      case Idle =>
        if queue != [] {
          var task := queue[0];
          queue := queue[1..];
          worker := Busy(task, if task.kind.Uninstall? then WAskLock else WLoadRow);
        }
      case Busy(task, pc) =>
        if pc.WAskLock? || pc.WAwaitLock? || pc.WCleanup? || (pc.WLoadRow? && task.kind.Uninstall?) {
          GuardTurn(task, pc);
        } else if pc.WLoadRow? || pc.WCheckFrozen? || pc.WUnfreeze? || pc.WMarkUnfrozen? {
          CheckTurn(task, pc, out);
        } else if pc.WBegin? {
          BeginTurn(task);
        } else if pc.WObtain? || pc.WCreate? {
          CreateTurn(task, pc, out);
        } else if pc.WFinish? || pc.WFail? || pc.WDeleteRow? {
          CompleteTurn(task, pc, out);
        } else if pc.WDownLoad? || pc.WDownRun? || pc.WDownMark? {
          ShutdownAppTurn(task, pc, out);
        } else {
          StopAppTurn(task, pc, out);
        }
    }

    /** Taking and leaving the op lock around a teardown. */
    method GuardTurn(task: Task, pc: WorkerPc)
      requires worker == Busy(task, pc)
      requires pc.WAskLock? || pc.WAwaitLock? || pc.WCleanup? || (pc.WLoadRow? && task.kind.Uninstall?)
      modifies this`locks, this`worker
      ensures forall out :: View() == WorkerNext(old(View()), out)
    {
      var n := task.name;
      match pc
      case WAskLock =>
        JoinLock(n, TheWorker);
        worker := Busy(task, WAwaitLock);
      case WAwaitLock =>
        if n in locks && locks[n] != [] && locks[n][0] == TheWorker {
          worker := Busy(task, WLoadRow);
        }
      case WLoadRow =>
        if n !in rows {
          worker := Busy(task, WStopLoad);
        } else if rows[n] == Paused {
          worker := Busy(task, WCheckFrozen);
        } else {
          worker := Busy(task, WBegin);
        }
      case WCleanup =>
        ReleaseLock(n);
        worker := Idle;
    }

    /** Checking the row, and unfreezing a paused app. */
    method CheckTurn(task: Task, pc: WorkerPc, out: Outcome)
      requires worker == Busy(task, pc)
      requires pc.WCheckFrozen? || pc.WUnfreeze? || pc.WMarkUnfrozen? || (pc.WLoadRow? && !task.kind.Uninstall?)
      modifies this`rows, this`locks, this`worker
      ensures View() == WorkerNext(old(View()), out)
    {
      var n := task.name;
      match pc
      case WLoadRow =>
        var allowed := if task.kind.Reinstall? then ReinstallationQueued else InstallationQueued;
        worker := if IsIn(n, allowed) then Busy(task, WBegin) else Idle;
      case WCheckFrozen =>
        worker := Busy(task, if IsIn(n, Paused) then WUnfreeze else WBegin);
      case WUnfreeze =>
        if out == Success {
          worker := Busy(task, WMarkUnfrozen);
        } else {
          ReleaseLock(n);
          worker := Idle;
        }
      case WMarkUnfrozen =>
        UpdateStatus(n, Running);
        worker := Busy(task, WBegin);
    }

    /** Writing the working status. */
    method BeginTurn(task: Task)
      requires worker == Busy(task, WBegin)
      modifies this`rows, this`worker
      ensures forall out :: View() == WorkerNext(old(View()), out)
    {
      var n := task.name;
      if task.kind.Uninstall? {
        UpdateStatus(n, Uninstalling);
        worker := Busy(task, WStopLoad);
      } else if n !in rows {
        worker := Idle;
      } else if task.kind.Reinstall? {
        UpdateStatus(n, Reinstalling);
        worker := Busy(task, WStopLoad);
      } else {
        UpdateStatus(n, Installing);
        worker := Busy(task, WObtain);
      }
    }

    /** docker_stop_app; only a teardown records the result in the status column. */
    method StopAppTurn(task: Task, pc: WorkerPc, out: Outcome)
      requires worker == Busy(task, pc)
      requires pc.WStopLoad? || pc.WStopUnfreeze? || pc.WStopRun? || pc.WStopMark?
      modifies this`rows, this`worker
      ensures View() == WorkerNext(old(View()), out)
    {
      var n := task.name;
      var giveUp := if task.kind.Uninstall? then WDeleteRow else WObtain;
      match pc
      case WStopLoad =>
        if IsIn(n, Paused) {
          worker := Busy(task, WStopUnfreeze);
        } else if IsIn(n, Running) || IsIn(n, Uninstalling) {
          worker := Busy(task, WStopRun);
        } else {
          worker := Busy(task, WDownLoad);
        }
      case WStopUnfreeze =>
        worker := Busy(task, if out == Success then WStopRun else giveUp);
      case WStopRun =>
        var onward := if task.kind.Uninstall? then WStopMark else WDownLoad;
        worker := Busy(task, if out == Success then onward else giveUp);
      case WStopMark =>
        UpdateStatus(n, Stopped);
        worker := Busy(task, WDownLoad);
    }

    /** docker_shutdown_app; only a teardown records the result in the status column. */
    method ShutdownAppTurn(task: Task, pc: WorkerPc, out: Outcome)
      requires worker == Busy(task, pc)
      requires pc.WDownLoad? || pc.WDownRun? || pc.WDownMark?
      modifies this`rows, this`stacks, this`worker
      ensures View() == WorkerNext(old(View()), out)
    {
      var n := task.name;
      var after := if task.kind.Uninstall? then WDeleteRow else WObtain;
      match pc
      case WDownLoad =>
        worker := Busy(task, if IsIn(n, Stopped) || IsIn(n, Uninstalling) then WDownRun else after);
      case WDownRun =>
        if out == Success {
          stacks := stacks - {n};
          worker := Busy(task, if task.kind.Uninstall? then WDownMark else after);
        } else {
          worker := Busy(task, after);
        }
      case WDownMark =>
        UpdateStatus(n, Down);
        worker := Busy(task, after);
    }

    /** Obtaining the app and creating its containers. */
    method CreateTurn(task: Task, pc: WorkerPc, out: Outcome)
      requires worker == Busy(task, pc)
      requires pc.WObtain? || pc.WCreate?
      modifies this`stacks, this`worker
      ensures View() == WorkerNext(old(View()), out)
    {
      if pc.WObtain? {
        worker := Busy(task, if out == Success then WCreate else WFail);
      } else {
        stacks := stacks + {task.name};
        worker := Busy(task, if out == Success then WFinish else WFail);
      }
    }

    /** The final status, or the deletion of the row. */
    method CompleteTurn(task: Task, pc: WorkerPc, out: Outcome)
      requires worker == Busy(task, pc)
      requires pc.WFinish? || pc.WFail? || pc.WDeleteRow?
      modifies this`rows, this`worker
      ensures View() == WorkerNext(old(View()), out)
    {
      var n := task.name;
      match pc
      case WFinish =>
        if n in rows {
          UpdateStatus(n, Stopped);
          worker := Idle;
        } else {
          worker := Busy(task, WFail);
        }
      case WFail =>
        UpdateStatus(n, Error);
        worker := Idle;
      case WDeleteRow =>
        rows := rows - {n};
        worker := Busy(task, WCleanup);
    }

    /** The loop body of the worker for one task, with nobody else at work on its app. */
    method ProcessTask(answers: Answers)
      requires Unhindered(View())
      modifies this
      ensures View() == Finished(old(View()), answers)
    {
      ghost var start := View();
      while worker.Busy?
        invariant Unhindered(View()) && Finished(View(), answers) == Finished(start, answers)
        decreases if worker.Idle? then 0 else 1 + PcRank(worker.pc)
      {
        UnhinderedKept(View(), answers(worker.pc));
        WorkerTurn(answers(worker.pc));
      }
    }

    // ---- the other calls ----

    /** One turn of a revive, a pause, a stop or an API call. */
    method TurnOfCall(id: nat, out: Outcome)
      modifies this
      ensures View() == CallNext(old(View()), id, out)
    {
      if id in calls {
        match calls[id]
        case StartCall(n, pc) => StartTurn(id, n, pc, out);
        case PauseCall(n, pc) => PauseTurn(id, n, pc, out);
        case StopCall(n, pc) => StopTurn(id, n, pc, out);
        case ApiCall(task, pc) => ApiTurn(id, task, pc);
      }
    }

    method StartTurn(id: nat, n: Name, pc: StartPc, out: Outcome)
      requires id in calls && calls[id] == StartCall(n, pc)
      modifies this
      ensures View() == CallNext(old(View()), id, out)
    {
      if pc.SAskLock? || pc.SAwaitLock? || pc.SLoadRow? || pc.SInspect? {
        StartGuardTurn(id, n, pc, out);
      } else if pc.SUp? || pc.SReset? || pc.SUpAgain? {
        StartComposeTurn(id, n, pc, out);
      } else {
        StartActTurn(id, n, pc, out);
      }
    }

    /** The revive ends and leaves the op lock. */
    method EndStart(id: nat, n: Name)
      modifies this`calls, this`locks
      ensures calls == old(calls) - {id}
      ensures locks == old(locks)[n := ApplyLock(LockQueue(old(View()), n), TheCall(id), Leave)]
    {
      ReleaseLock(n);
      calls := calls - {id};
    }

    /** Up to the decision: the lock, the row, the state of the containers. */
    method StartGuardTurn(id: nat, n: Name, pc: StartPc, out: Outcome)
      requires id in calls && calls[id] == StartCall(n, pc)
      requires pc.SAskLock? || pc.SAwaitLock? || pc.SLoadRow? || pc.SInspect?
      modifies this`locks, this`calls
      ensures View() == CallNext(old(View()), id, out)
    {
      match pc
      case SAskLock =>
        JoinLock(n, TheCall(id));
        calls := calls[id := StartCall(n, SAwaitLock)];
      case SAwaitLock =>
        if n in locks && locks[n] != [] && locks[n][0] == TheCall(id) {
          calls := calls[id := StartCall(n, SLoadRow)];
        }
      case SLoadRow =>
        if n in rows && Revivable(rows[n]) {
          calls := calls[id := StartCall(n, SInspect(rows[n]))];
        } else {
          EndStart(id, n);
        }
      case SInspect(seen) =>
        if out == Observed(AllRunning) && seen == Running {
          EndStart(id, n);
        } else if out == Observed(AllRunning) {
          calls := calls[id := StartCall(n, SMark)];
        } else if out == Observed(SomePaused) {
          calls := calls[id := StartCall(n, SUnpause)];
        } else {
          calls := calls[id := StartCall(n, SUp)];
        }
    }

    /** Unfreezing, or the write of the status. */
    method StartActTurn(id: nat, n: Name, pc: StartPc, out: Outcome)
      requires id in calls && calls[id] == StartCall(n, pc)
      requires pc.SUnpause? || pc.SMark? || pc.SUnlock?
      modifies this`rows, this`locks, this`calls
      ensures View() == CallNext(old(View()), id, out)
    {
      match pc
      case SUnpause =>
        calls := calls[id := StartCall(n, if out == Success then SMark else SUp)];
      case SMark =>
        UpdateStatus(n, Running);
        calls := calls[id := StartCall(n, SUnlock)];
      case SUnlock =>
        EndStart(id, n);
    }

    /** compose up, with its one retry after removing stale containers. */
    method StartComposeTurn(id: nat, n: Name, pc: StartPc, out: Outcome)
      requires id in calls && calls[id] == StartCall(n, pc)
      requires pc.SUp? || pc.SReset? || pc.SUpAgain?
      modifies this`stacks, this`locks, this`calls
      ensures View() == CallNext(old(View()), id, out)
    {
      match pc
      case SUp =>
        stacks := stacks + {n};
        if out == Success || out == StaleContainers {
          calls := calls[id := StartCall(n, if out == Success then SMark else SReset)];
        } else {
          EndStart(id, n);
        }
      case SReset =>
        if out == Success {
          stacks := stacks - {n};
          calls := calls[id := StartCall(n, SUpAgain)];
        } else {
          EndStart(id, n);
        }
      case SUpAgain =>
        stacks := stacks + {n};
        if out == Success {
          calls := calls[id := StartCall(n, SMark)];
        } else {
          EndStart(id, n);
        }
    }

    method PauseTurn(id: nat, n: Name, pc: PausePc, out: Outcome)
      requires id in calls && calls[id] == PauseCall(n, pc)
      modifies this`rows, this`calls
      ensures View() == CallNext(old(View()), id, out)
    {
      match pc
      case PLoadRow =>
        calls := if IsIn(n, Running) then calls[id := PauseCall(n, PFreeze)] else calls - {id};
      case PFreeze =>
        calls := if out == Success then calls[id := PauseCall(n, PMark)] else calls - {id};
      case PMark =>
        UpdateStatus(n, Paused);
        calls := calls - {id};
    }

    method StopTurn(id: nat, n: Name, pc: StopPc, out: Outcome)
      requires id in calls && calls[id] == StopCall(n, pc)
      modifies this`rows, this`calls
      ensures View() == CallNext(old(View()), id, out)
    {
      match pc
      case TLoadRow =>
        if IsIn(n, Paused) {
          calls := calls[id := StopCall(n, TUnfreeze)];
        } else if IsIn(n, Running) || IsIn(n, Uninstalling) {
          calls := calls[id := StopCall(n, TStop)];
        } else {
          calls := calls - {id};
        }
      case TUnfreeze =>
        calls := if out == Success then calls[id := StopCall(n, TStop)] else calls - {id};
      case TStop =>
        calls := if out == Success then calls[id := StopCall(n, TMark)] else calls - {id};
      case TMark =>
        UpdateStatus(n, Stopped);
        calls := calls - {id};
    }

    method ApiTurn(id: nat, task: Task, pc: ApiPc)
      requires id in calls && calls[id] == ApiCall(task, pc)
      modifies this`rows, this`queue, this`calls
      ensures forall out :: View() == CallNext(old(View()), id, out)
    {
      var n := task.name;
      var wantsRow := task.kind.Uninstall? || task.kind.Reinstall?;
      match pc
      case ACheck =>
        calls := if wantsRow == (n in rows) then calls[id := ApiCall(task, AWrite)] else calls - {id};
      case AWrite =>
        if wantsRow != (n in rows) {
          calls := calls - {id};
        } else {
          rows := rows[n := if task.kind.Uninstall? then UninstallationQueued
                            else if task.kind.Reinstall? then ReinstallationQueued
                            else InstallationQueued];
          calls := calls[id := ApiCall(task, AEnqueue)];
        }
      case AEnqueue =>
        Enqueue(task);
        calls := calls - {id};
    }

    // ---- whole schedules ----

    method Dispatch(e: Event)
      modifies this
      ensures View() == Next(old(View()), e)
    {
      match e
      case Spawn(id, call) =>
        if id !in calls && IsFresh(call) {
          calls := calls[id := call];
        }
      case CallTurn(id, out) => TurnOfCall(id, out);
      case WorkerTurn(out) => WorkerTurn(out);
    }

    /** Any schedule at all, from a reconciled boot, ends in a state where every status is backed. */
    method RunSchedule(events: seq<Event>, ghost resumed: set<Name>)
      requires Inv(View(), resumed)
      modifies this
      ensures View() == Run(old(View()), events)
      ensures Inv(View(), resumed)
    {
      ghost var start := View();
      for i := 0 to |events|
        invariant View() == Run(start, events[..i])
        invariant Inv(View(), resumed)
      {
        InvKept(View(), events[i], resumed);
        assert events[..i + 1][..i] == events[..i];
        Dispatch(events[i]);
      }
      assert events[..|events|] == events;
    }

    /** The party in front of the worker if there is one, and otherwise the worker. */
    method NextRunner() returns (p: Party)
      ensures p == Runner(View())
    {
      p := TheWorker;
      if worker.Busy? && worker.pc.WAwaitLock? && worker.task.name in locks && locks[worker.task.name] != [] {
        p := locks[worker.task.name][0];
      }
    }

    /** The worker loop without further API calls: it comes to rest, whatever docker and the downloads answer. */
    method Drain(answers: nat -> Outcome, ghost resumed: set<Name>)
      requires Inv(View(), resumed) && Quiet(View())
      modifies this
      ensures Drained(View()) && Inv(View(), resumed) && Quiet(View())
      ensures forall n :: n in rows ==> Settled(rows[n])
    {
      var turn := 0;
      while queue != [] || worker.Busy?
        invariant Inv(View(), resumed) && Quiet(View())
        decreases |queue|, TurnsLeft(View()), Delay(View())
      {
        var p := NextRunner();
        var e :=
          match p
          case TheWorker => Event.WorkerTurn(answers(turn))
          case TheCall(id) => CallTurn(id, answers(turn));
        InvKept(View(), e, resumed);
        QuietKept(View(), e);
        RunnerAdvances(View(), e);
        Dispatch(e);
        turn := turn + 1;
      }
      forall n | n in rows ensures Settled(rows[n]) {
        DrainedIsSettled(View(), resumed, n);
      }
    }
  }

  /** Boot, then any schedule, then silence: every status is settled. */
  method BootRunDrain(rows: map<Name, Status>, stacks: set<Name>, events: seq<Event>, answers: nat -> Outcome)
      returns (shard: Shard, queue: seq<Task>)
    requires Bootable(rows)
    ensures fresh(shard) && Reconciled(rows, queue)
    ensures Quiet(Run(Booted(rows, stacks, queue), events)) ==>
      forall n :: n in shard.rows ==> Settled(shard.rows[n])
  {
    shard := new Shard(rows, stacks);
    shard.ReconcileInterruptedUninstalls();
    queue := shard.queue;
    BootInv(rows, stacks, queue);
    shard.RunSchedule(events, Interrupted(rows));
    var quiet := forall id :: id in shard.calls ==> !shard.calls[id].ApiCall?;
    if quiet {
      shard.Drain(answers, Interrupted(rows));
    }
  }
}
