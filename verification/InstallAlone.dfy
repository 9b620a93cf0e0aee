/**
  The exact result of a whole task when nothing else is at work on its app, for every row it may find and whatever
  docker and the download answer.
 */
module InstallAlone {
  import opened AppStatus
  import opened InstallProtocol
  import opened InstallSafety
  import opened InstallDrain
  import opened InstallGaps

  /** What each turn of a task gets for an answer; no task passes the same point twice. */
  type Answers = WorkerPc -> Outcome

  /** The worker is at a point its task can be at, and nobody else wants the op lock it needs. */
  ghost predicate Unhindered(s: State) {
    s.worker.Busy? ==>
      && PcFits(s.worker.task.kind, s.worker.pc)
      && (s.worker.task.kind.Uninstall? ==>
            LockQueue(s, s.worker.task.name) == if s.worker.pc.WAskLock? then [] else [TheWorker])
  }

  lemma UnhinderedKept(s: State, out: Outcome)
    requires Unhindered(s) && s.worker.Busy?
    ensures Unhindered(WorkerNext(s, out))
    ensures var s' := WorkerNext(s, out); s'.worker.Busy? ==> PcRank(s'.worker.pc) < PcRank(s.worker.pc)
  {
    var task := s.worker.task;
    WorkerTurnInLock(task.kind, s.worker.pc, RowOf(s, task.name), Holds(s, task.name, TheWorker), out);
    TurnLowersRank(task.kind, s.worker.pc, RowOf(s, task.name), Holds(s, task.name, TheWorker), out);
  }

  /** The state in which the worker is idle again. */
  ghost function Finished(s: State, answers: Answers): State
    requires Unhindered(s)
    decreases if s.worker.Idle? then 0 else 1 + PcRank(s.worker.pc)
  {
    if s.worker.Idle? then s
    else
      UnhinderedKept(s, answers(s.worker.pc));
      Finished(WorkerNext(s, answers(s.worker.pc)), answers)
  }

  /** The points the task passes. */
  ghost function Passed(s: State, answers: Answers): seq<WorkerPc>
    requires Unhindered(s)
    decreases if s.worker.Idle? then 0 else 1 + PcRank(s.worker.pc)
  {
    if s.worker.Idle? then []
    else
      UnhinderedKept(s, answers(s.worker.pc));
      [s.worker.pc] + Passed(WorkerNext(s, answers(s.worker.pc)), answers)
  }

  /** One turn that moves on without ending the task. */
  lemma Turns(s: State, answers: Answers, next: State)
    requires Unhindered(s) && s.worker.Busy? && next == WorkerNext(s, answers(s.worker.pc))
    ensures Unhindered(next) && Finished(s, answers) == Finished(next, answers)
    ensures Passed(s, answers) == [s.worker.pc] + Passed(next, answers)
  {
    UnhinderedKept(s, answers(s.worker.pc));
  }

  /** The turns of the task, as a schedule. */
  function TurnsOf(passed: seq<WorkerPc>, answers: Answers): (events: seq<Event>)
    ensures |events| == |passed|
  {
    seq(|passed|, i requires 0 <= i < |passed| => WorkerTurn(answers(passed[i])))
  }

  lemma TurnsOfOneMore(pc: WorkerPc, passed: seq<WorkerPc>, answers: Answers)
    ensures TurnsOf([pc] + passed, answers) == [WorkerTurn(answers(pc))] + TurnsOf(passed, answers)
  {
  }

  lemma RunFirst(s: State, out: Outcome, next: State, events: seq<Event>)
    requires next == WorkerNext(s, out)
    ensures Run(s, [WorkerTurn(out)] + events) == Run(next, events)
  {
    RunCons(s, WorkerTurn(out), events);
  }

  /** That schedule leads to the state in which the worker is idle again. */
  lemma {:induction false} FinishedIsRun(s: State, answers: Answers)
    requires Unhindered(s)
    ensures Run(s, TurnsOf(Passed(s, answers), answers)) == Finished(s, answers)
    decreases if s.worker.Idle? then 0 else 1 + PcRank(s.worker.pc)
  {
    if s.worker.Busy? {
      var next := WorkerNext(s, answers(s.worker.pc));
      UnhinderedKept(s, answers(s.worker.pc));
      FinishedIsRun(next, answers);
      Turns(s, answers, next);
      TurnsOfOneMore(s.worker.pc, Passed(next, answers), answers);
      RunFirst(s, answers(s.worker.pc), next, TurnsOf(Passed(next, answers), answers));
    }
  }

  // ---- installations and reinstallations ----

  /** The download succeeded, and so did creating the containers. */
  predicate Installs(answers: Answers) {
    answers(WObtain).Success? && answers(WCreate).Success?
  }

  /** What is passed from the download on. */
  function Obtaining(answers: Answers): seq<WorkerPc> {
    if !answers(WObtain).Success? then [WObtain, WFail]
    else [WObtain, WCreate, if answers(WCreate).Success? then WFinish else WFail]
  }

  /** STOPPED or ERROR, with or without new containers. */
  function Obtained(s: State, n: Name, answers: Answers): State {
    s.(worker := Idle,
       rows := s.rows[n := if Installs(answers) then Stopped else Error],
       stacks := if answers(WObtain).Success? then s.stacks + {n} else s.stacks)
  }

  lemma CreateAlone(s: State, task: Task, answers: Answers)
    requires s.worker == Busy(task, WCreate) && !task.kind.Uninstall? && task.name in s.rows
    ensures Finished(s, answers) == s.(
      worker := Idle,
      rows := s.rows[task.name := if answers(WCreate).Success? then Stopped else Error],
      stacks := s.stacks + {task.name})
    ensures Passed(s, answers) == [WCreate, if answers(WCreate).Success? then WFinish else WFail]
  {
    var next := WorkerNext(s, answers(WCreate));
    Turns(s, answers, next);
    Turns(next, answers, WorkerNext(next, answers(next.worker.pc)));
  }

  lemma ObtainAlone(s: State, task: Task, answers: Answers)
    requires s.worker == Busy(task, WObtain) && !task.kind.Uninstall? && task.name in s.rows
    ensures Finished(s, answers) == Obtained(s, task.name, answers)
    ensures Passed(s, answers) == Obtaining(answers)
  {
    var next := WorkerNext(s, answers(WObtain));
    Turns(s, answers, next);
    if answers(WObtain).Success? {
      CreateAlone(next, task, answers);
    } else {
      Turns(next, answers, WorkerNext(next, answers(WFail)));
    }
  }

  lemma ObtainedOver(s: State, n: Name, answers: Answers, status: Status)
    ensures Obtained(s.(rows := s.rows[n := status]), n, answers) == Obtained(s, n, answers)
  {
    var result := if Installs(answers) then Stopped else Error;
    assert s.rows[n := status][n := result] == s.rows[n := result];
  }

  /**
    An installation that finds its status ends STOPPED exactly when download and creation succeed, and in ERROR
    otherwise; nothing else of the state changes but that containers may now exist.
   */
  lemma InstallAlone(s: State, task: Task, answers: Answers)
    requires s.worker == Busy(task, WLoadRow) && IsInstall(task.kind)
    ensures Finished(s, answers) ==
      if RowOf(s, task.name) != Row(InstallationQueued) then s.(worker := Idle) else Obtained(s, task.name, answers)
    ensures Passed(s, answers) ==
      if RowOf(s, task.name) != Row(InstallationQueued) then [WLoadRow] else [WLoadRow, WBegin] + Obtaining(answers)
  {
    var n, checked := task.name, WorkerNext(s, answers(WLoadRow));
    Turns(s, answers, checked);
    if checked.worker.Busy? {
      var begun := s.(worker := Busy(task, WObtain), rows := s.rows[n := Installing]);
      Turns(checked, answers, begun);
      ObtainAlone(begun, task, answers);
      ObtainedOver(s.(worker := Busy(task, WObtain)), n, answers, Installing);
    }
  }

  /** In its own status neither docker_stop_app nor docker_shutdown_app does anything for a reinstallation. */
  lemma ReinstallSkipsShutdown(s: State, task: Task, answers: Answers)
    requires s.worker == Busy(task, WStopLoad) && task.kind.Reinstall? && RowOf(s, task.name) == Row(Reinstalling)
    ensures Finished(s, answers) == Obtained(s, task.name, answers)
    ensures Passed(s, answers) == [WStopLoad, WDownLoad] + Obtaining(answers)
  {
    var stopped := s.(worker := Busy(task, WDownLoad));
    var down := s.(worker := Busy(task, WObtain));
    Turns(s, answers, stopped);
    Turns(stopped, answers, down);
    ObtainAlone(down, task, answers);
  }

  lemma ReinstallBegins(s: State, task: Task, answers: Answers)
    requires s.worker == Busy(task, WBegin) && task.kind.Reinstall? && task.name in s.rows
    ensures Finished(s, answers) == Obtained(s, task.name, answers)
    ensures Passed(s, answers) == [WBegin] + ([WStopLoad, WDownLoad] + Obtaining(answers))
  {
    var at := s.(worker := Busy(task, WStopLoad));
    var begun := at.(rows := s.rows[task.name := Reinstalling]);
    Turns(s, answers, begun);
    ReinstallSkipsShutdown(begun, task, answers);
    ObtainedOver(at, task.name, answers, Reinstalling);
  }

  /** A reinstallation ends like an installation; it never stops or removes the old containers. */
  lemma ReinstallAlone(s: State, task: Task, answers: Answers)
    requires s.worker == Busy(task, WLoadRow) && task.kind.Reinstall?
    ensures Finished(s, answers) ==
      if RowOf(s, task.name) != Row(ReinstallationQueued) then s.(worker := Idle) else Obtained(s, task.name, answers)
    ensures Passed(s, answers) ==
      if RowOf(s, task.name) != Row(ReinstallationQueued) then [WLoadRow]
      else [WLoadRow, WBegin, WStopLoad, WDownLoad] + Obtaining(answers)
    ensures WStopRun !in Passed(s, answers) && WDownRun !in Passed(s, answers)
  {
    if RowOf(s, task.name) == Row(ReinstallationQueued) {
      var checked := s.(worker := Busy(task, WBegin));
      Turns(s, answers, checked);
      ReinstallBegins(checked, task, answers);
      assert [WLoadRow] + ([WBegin] + ([WStopLoad, WDownLoad] + Obtaining(answers))) ==
        [WLoadRow, WBegin, WStopLoad, WDownLoad] + Obtaining(answers);
    } else {
      Turns(s, answers, s.(worker := Idle));
    }
  }

  // ---- teardowns ----

  /** The teardown of n is at pc, under the lock. */
  ghost predicate At(s: State, n: Name, pc: WorkerPc) {
    s.worker == Busy(Task(n, Uninstall), pc) && LockQueue(s, n) == [TheWorker] && pc != WAskLock
  }

  /** The task unfreezes the app, in docker_unpause_app or in docker_stop_app. */
  predicate Unfreezes(passed: seq<WorkerPc>) {
    WUnfreeze in passed || WStopUnfreeze in passed
  }

  /** Row and lock are gone; the containers are left or not. */
  function Deleted(s: State, n: Name, containersGo: bool): State {
    s.(worker := Idle, rows := s.rows - {n}, locks := s.locks[n := []],
       stacks := if containersGo then s.stacks - {n} else s.stacks)
  }

  lemma DeleteAlone(s: State, n: Name, answers: Answers)
    requires At(s, n, WDeleteRow)
    ensures Unhindered(s) && Finished(s, answers) == Deleted(s, n, false) && !Unfreezes(Passed(s, answers))
  {
    var deleted := WorkerNext(s, answers(WDeleteRow));
    Turns(s, answers, deleted);
    Turns(deleted, answers, WorkerNext(deleted, answers(WCleanup)));
  }

  lemma MarkDownAlone(s: State, n: Name, answers: Answers)
    requires At(s, n, WDownMark)
    ensures Unhindered(s) && !Unfreezes(Passed(s, answers)) && Finished(s, answers) == Deleted(s, n, false)
  {
    var marked := s.(worker := Busy(Task(n, Uninstall), WDeleteRow), rows := ApplyRow(s.rows, n, Update(Down)));
    Turns(s, answers, marked);
    DeleteAlone(marked, n, answers);
    assert marked.rows - {n} == s.rows - {n};
  }

  lemma RemoveAlone(s: State, n: Name, answers: Answers)
    requires At(s, n, WDownRun)
    ensures Unhindered(s) && !Unfreezes(Passed(s, answers))
    ensures Finished(s, answers) == Deleted(s, n, answers(WDownRun).Success?)
  {
    var t := Task(n, Uninstall);
    if answers(WDownRun).Success? {
      var down := s.(worker := Busy(t, WDownMark), stacks := s.stacks - {n});
      Turns(s, answers, down);
      MarkDownAlone(down, n, answers);
    } else {
      var failed := s.(worker := Busy(t, WDeleteRow));
      Turns(s, answers, failed);
      DeleteAlone(failed, n, answers);
    }
  }

  lemma DownAlone(s: State, n: Name, answers: Answers)
    requires At(s, n, WDownLoad)
    ensures Unhindered(s) && !Unfreezes(Passed(s, answers))
    ensures Finished(s, answers) == Deleted(s, n, Removable(RowOf(s, n)) && answers(WDownRun).Success?)
  {
    var next := WorkerNext(s, answers(WDownLoad));
    Turns(s, answers, next);
    if Removable(RowOf(s, n)) {
      RemoveAlone(next, n, answers);
    } else {
      DeleteAlone(next, n, answers);
    }
  }

  lemma MarkStoppedAlone(s: State, n: Name, answers: Answers)
    requires At(s, n, WStopMark) && n in s.rows
    ensures Unhindered(s) && !Unfreezes(Passed(s, answers))
    ensures Finished(s, answers) == Deleted(s, n, answers(WDownRun).Success?)
  {
    var marked := s.(worker := Busy(Task(n, Uninstall), WDownLoad), rows := s.rows[n := Stopped]);
    Turns(s, answers, marked);
    DownAlone(marked, n, answers);
    assert marked.rows - {n} == s.rows - {n};
  }

  lemma StopRunAlone(s: State, n: Name, answers: Answers)
    requires At(s, n, WStopRun) && n in s.rows
    ensures Unhindered(s) && !Unfreezes(Passed(s, answers))
    ensures Finished(s, answers) == Deleted(s, n, answers(WStopRun).Success? && answers(WDownRun).Success?)
  {
    var t := Task(n, Uninstall);
    var next := s.(worker := Busy(t, if answers(WStopRun).Success? then WStopMark else WDeleteRow));
    Turns(s, answers, next);
    if answers(WStopRun).Success? {
      MarkStoppedAlone(next, n, answers);
    } else {
      DeleteAlone(next, n, answers);
    }
  }

  lemma StopAlone(s: State, n: Name, answers: Answers)
    requires At(s, n, WStopLoad) && (n in s.rows ==> s.rows[n] == Uninstalling)
    ensures Unhindered(s) && !Unfreezes(Passed(s, answers))
    ensures Finished(s, answers) ==
      Deleted(s, n, n in s.rows && answers(WStopRun).Success? && answers(WDownRun).Success?)
  {
    var next := s.(worker := Busy(Task(n, Uninstall), if n in s.rows then WStopRun else WDownLoad));
    Turns(s, answers, next);
    if n in s.rows {
      StopRunAlone(next, n, answers);
    } else {
      DownAlone(next, n, answers);
    }
  }

  lemma BeginAlone(s: State, n: Name, answers: Answers)
    requires At(s, n, WBegin) && n in s.rows
    ensures Unhindered(s) && !Unfreezes(Passed(s, answers))
    ensures Finished(s, answers) == Deleted(s, n, answers(WStopRun).Success? && answers(WDownRun).Success?)
  {
    var begun := s.(worker := Busy(Task(n, Uninstall), WStopLoad), rows := s.rows[n := Uninstalling]);
    Turns(s, answers, begun);
    StopAlone(begun, n, answers);
    assert begun.rows - {n} == s.rows - {n};
  }

  lemma ThawedAlone(s: State, n: Name, answers: Answers)
    requires At(s, n, WMarkUnfrozen) && n in s.rows
    ensures Unhindered(s) && !Unfreezes(Passed(s, answers))
    ensures Finished(s, answers) == Deleted(s, n, answers(WStopRun).Success? && answers(WDownRun).Success?)
  {
    var marked := s.(worker := Busy(Task(n, Uninstall), WBegin), rows := s.rows[n := Running]);
    Turns(s, answers, marked);
    BeginAlone(marked, n, answers);
    assert marked.rows - {n} == s.rows - {n};
  }

  lemma PausedAlone(s: State, n: Name, answers: Answers)
    requires At(s, n, WLoadRow) && RowOf(s, n) == Row(Paused)
    ensures Unhindered(s) && WUnfreeze in Passed(s, answers) && WStopUnfreeze !in Passed(s, answers)
    ensures Finished(s, answers) ==
      if answers(WUnfreeze).Success? then Deleted(s, n, answers(WStopRun).Success? && answers(WDownRun).Success?)
      else s.(worker := Idle, locks := s.locks[n := []])
  {
    var checked := WorkerNext(s, answers(WLoadRow));
    Turns(s, answers, checked);
    var frozen := WorkerNext(checked, answers(WCheckFrozen));
    Turns(checked, answers, frozen);
    var thawed := WorkerNext(frozen, answers(WUnfreeze));
    Turns(frozen, answers, thawed);
    if answers(WUnfreeze).Success? {
      ThawedAlone(thawed, n, answers);
    }
  }

  /** What a whole teardown leaves, from the row it finds and the answers of docker. */
  function AfterTeardown(s: State, n: Name, answers: Answers): State {
    if RowOf(s, n) == Row(Paused) && !answers(WUnfreeze).Success? then s.(worker := Idle, locks := s.locks[n := []])
    else Deleted(s, n, n in s.rows && answers(WStopRun).Success? && answers(WDownRun).Success?)
  }

  lemma LockedAlone(s: State, n: Name, answers: Answers)
    requires At(s, n, WLoadRow)
    ensures Unhindered(s) && Finished(s, answers) == AfterTeardown(s, n, answers)
    ensures Unfreezes(Passed(s, answers)) <==> RowOf(s, n) == Row(Paused)
    ensures WStopUnfreeze !in Passed(s, answers)
  {
    if RowOf(s, n) == Row(Paused) {
      PausedAlone(s, n, answers);
    } else {
      var next := WorkerNext(s, answers(WLoadRow));
      Turns(s, answers, next);
      if n in s.rows {
        BeginAlone(next, n, answers);
      } else {
        StopAlone(next, n, answers);
      }
    }
  }

  /**
    A teardown deletes the row unless it has to unfreeze the app and cannot; it leaves no containers exactly when
    there was a row and both stopping and removing them succeeded; and it unfreezes exactly an app whose row says
    PAUSED when the teardown reads it.
   */
  lemma TeardownAlone(s: State, n: Name, answers: Answers)
    requires s.worker == Busy(Task(n, Uninstall), WAskLock) && LockQueue(s, n) == []
    ensures Finished(s, answers) == AfterTeardown(s, n, answers)
    ensures Unfreezes(Passed(s, answers)) <==> RowOf(s, n) == Row(Paused)
    ensures WStopUnfreeze !in Passed(s, answers)
  {
    var asked := WorkerNext(s, answers(WAskLock));
    Turns(s, answers, asked);
    var locked := WorkerNext(asked, answers(WAwaitLock));
    Turns(asked, answers, locked);
    assert locked.locks[n := []] == s.locks[n := []];
    LockedAlone(locked, n, answers);
  }

  /** The state when the worker has picked the task up that an accepted uninstallation has queued. */
  function Requested(s: State, id: nat): State {
    WorkerNext(CallNext(CallNext(s, id, Success), id, Success), Success)
  }

  /**
    The request itself hides that the app is frozen: it overwrites PAUSED, so the teardown it queues never unfreezes
    the containers. Where docker refuses to stop or to remove a frozen stack, the row is deleted all the same and
    the containers are left behind.
   */
  lemma RequestHidesFrozenApp(s: State, id: nat, n: Name, answers: Answers)
    requires s.worker.Idle? && s.queue == [] && LockQueue(s, n) == []
    requires id in s.calls && s.calls[id] == ApiCall(Task(n, Uninstall), AWrite) && RowOf(s, n) == Row(Paused)
    ensures Unhindered(Requested(s, id))
    ensures !Unfreezes(Passed(Requested(s, id), answers))
    ensures var after := Finished(Requested(s, id), answers);
      && after.rows == s.rows - {n}
      && (n in s.stacks ==>
            (n in after.stacks <==> !answers(WStopRun).Success? || !answers(WDownRun).Success?))
  {
    var written := CallNext(s, id, Success);
    assert RowOf(written, n) == Row(UninstallationQueued) && written.queue == [];
    var queued := CallNext(written, id, Success);
    assert queued.queue == [Task(n, Uninstall)] && RowOf(queued, n) == Row(UninstallationQueued);
    TeardownAlone(Requested(s, id), n, answers);
    assert written.rows - {n} == s.rows - {n};
  }

  // ---- the other calls, each alone ----

  lemma ThreeTurns(s: State, id: nat, o1: Outcome, o2: Outcome, o3: Outcome)
    ensures Run(s, [CallTurn(id, o1), CallTurn(id, o2), CallTurn(id, o3)]) ==
      CallNext(CallNext(CallNext(s, id, o1), id, o2), id, o3)
  {
    var e1, e2, e3 := CallTurn(id, o1), CallTurn(id, o2), CallTurn(id, o3);
    RunSnoc(s, [], e1);
    RunSnoc(s, [e1], e2);
    RunSnoc(s, [e1, e2], e3);
    assert [] + [e1] == [e1] && [e1] + [e2] == [e1, e2] && [e1, e2] + [e3] == [e1, e2, e3];
  }

  lemma PauseAfterLoad(s: State, id: nat, n: Name, freeze: Outcome)
    requires id in s.calls && s.calls[id] == PauseCall(n, PFreeze) && n in s.rows
    ensures CallNext(CallNext(s, id, freeze), id, Success) == s.(
      calls := s.calls - {id}, rows := if freeze == Success then s.rows[n := Paused] else s.rows)
  {
    if freeze == Success {
      var due := s.(calls := s.calls[id := PauseCall(n, PMark)]);
      assert CallNext(s, id, freeze) == due;
      assert due.calls - {id} == s.calls - {id};
    }
  }

  /** A pause freezes a RUNNING app and writes PAUSED if that succeeds; any other app it leaves alone. */
  lemma PauseCallAlone(s: State, id: nat, n: Name, freeze: Outcome)
    requires id in s.calls && s.calls[id] == PauseCall(n, PLoadRow)
    ensures Run(s, [CallTurn(id, Success), CallTurn(id, freeze), CallTurn(id, Success)]) == s.(
      calls := s.calls - {id},
      rows := if n in s.rows && s.rows[n] == Running && freeze == Success then s.rows[n := Paused] else s.rows)
  {
    ThreeTurns(s, id, Success, freeze, Success);
    if n in s.rows && s.rows[n] == Running {
      var loaded := s.(calls := s.calls[id := PauseCall(n, PFreeze)]);
      assert CallNext(s, id, Success) == loaded;
      PauseAfterLoad(loaded, id, n, freeze);
      assert loaded.calls - {id} == s.calls - {id};
    } else {
      assert CallNext(s, id, Success) == s.(calls := s.calls - {id});
    }
  }

  lemma StopAfterLoad(s: State, id: nat, n: Name, stop: Outcome)
    requires id in s.calls && s.calls[id] == StopCall(n, TStop) && n in s.rows
    ensures CallNext(CallNext(s, id, stop), id, Success) == s.(
      calls := s.calls - {id}, rows := if stop == Success then s.rows[n := Stopped] else s.rows)
  {
    if stop == Success {
      var due := s.(calls := s.calls[id := StopCall(n, TMark)]);
      assert CallNext(s, id, stop) == due;
      assert due.calls - {id} == s.calls - {id};
    }
  }

  /** A stop of an app that is RUNNING, or under a teardown: STOPPED if it succeeds. */
  lemma StopCallAlone(s: State, id: nat, n: Name, stop: Outcome)
    requires id in s.calls && s.calls[id] == StopCall(n, TLoadRow) && RowOf(s, n) != Row(Paused)
    ensures Run(s, [CallTurn(id, Success), CallTurn(id, stop), CallTurn(id, Success)]) == s.(
      calls := s.calls - {id},
      rows := if n in s.rows && s.rows[n] in {Running, Uninstalling} && stop == Success then s.rows[n := Stopped]
              else s.rows)
  {
    ThreeTurns(s, id, Success, stop, Success);
    if n in s.rows && s.rows[n] in {Running, Uninstalling} {
      var loaded := s.(calls := s.calls[id := StopCall(n, TStop)]);
      assert CallNext(s, id, Success) == loaded;
      StopAfterLoad(loaded, id, n, stop);
      assert loaded.calls - {id} == s.calls - {id};
    } else {
      assert CallNext(s, id, Success) == s.(calls := s.calls - {id});
    }
  }

  /** A PAUSED app is unfrozen first, and not stopped when that fails. */
  lemma StopOfPausedAlone(s: State, id: nat, n: Name, unfreeze: Outcome, stop: Outcome)
    requires id in s.calls && s.calls[id] == StopCall(n, TLoadRow) && RowOf(s, n) == Row(Paused)
    ensures Run(s, [CallTurn(id, Success), CallTurn(id, unfreeze), CallTurn(id, stop)] + [CallTurn(id, Success)]) == s.(
      calls := s.calls - {id},
      rows := if unfreeze == Success && stop == Success then s.rows[n := Stopped] else s.rows)
  {
    var turns := [CallTurn(id, Success), CallTurn(id, unfreeze), CallTurn(id, stop)];
    ThreeTurns(s, id, Success, unfreeze, stop);
    RunSnoc(s, turns, CallTurn(id, Success));
    var loaded := s.(calls := s.calls[id := StopCall(n, TUnfreeze)]);
    assert CallNext(s, id, Success) == loaded;
    if unfreeze == Success {
      var thawed := s.(calls := s.calls[id := StopCall(n, TStop)]);
      assert CallNext(loaded, id, unfreeze) == thawed;
      StopAfterLoad(thawed, id, n, stop);
      assert thawed.calls - {id} == s.calls - {id};
    } else {
      assert CallNext(loaded, id, unfreeze) == s.(calls := s.calls - {id});
    }
  }

  /** The status that announces a task. */
  function Announcement(kind: TaskKind): Status {
    match kind
    case InstallFromStore => InstallationQueued
    case InstallFromZip => InstallationQueued
    case Uninstall => UninstallationQueued
    case Reinstall => ReinstallationQueued
  }

  /**
    A request to install is refused for an app that has a row, a request to uninstall or reinstall for one that has
    none. Otherwise the row announces the task and the task is queued last.
   */
  lemma RequestAlone(s: State, id: nat, task: Task)
    requires id in s.calls && s.calls[id] == ApiCall(task, ACheck)
    ensures Run(s, [CallTurn(id, Success), CallTurn(id, Success), CallTurn(id, Success)]) ==
      if (task.kind == InstallFromStore || task.kind == InstallFromZip) == (task.name in s.rows)
      then s.(calls := s.calls - {id})
      else s.(
        calls := s.calls - {id},
        rows := s.rows[task.name := Announcement(task.kind)],
        queue := s.queue + [task])
  {
    ThreeTurns(s, id, Success, Success, Success);
    if (task.kind == InstallFromStore || task.kind == InstallFromZip) == (task.name in s.rows) {
      assert CallNext(s, id, Success) == s.(calls := s.calls - {id});
    } else {
      var checked := s.(calls := s.calls[id := ApiCall(task, AWrite)]);
      assert CallNext(s, id, Success) == checked;
      RequestWritten(checked, id, task);
      assert checked.calls - {id} == s.calls - {id};
    }
  }

  lemma RequestWritten(s: State, id: nat, task: Task)
    requires id in s.calls && s.calls[id] == ApiCall(task, AWrite)
    requires (task.kind == InstallFromStore || task.kind == InstallFromZip) != (task.name in s.rows)
    ensures CallNext(CallNext(s, id, Success), id, Success) == s.(
      calls := s.calls - {id},
      rows := s.rows[task.name := Announcement(task.kind)],
      queue := s.queue + [task])
  {
    var written := s.(
      calls := s.calls[id := ApiCall(task, AEnqueue)], rows := s.rows[task.name := Announcement(task.kind)]);
    assert CallNext(s, id, Success) == written;
    assert written.calls - {id} == s.calls - {id};
  }
}
