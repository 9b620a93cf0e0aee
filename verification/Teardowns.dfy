/**
  When a teardown takes the containers with it. From its first write on the condition is one on the row and the calls
  in flight: while it holds every schedule removes the containers, and where it fails a schedule deletes the row and
  leaves them.
 */
module Teardowns {
  import opened AppStatus
  import opened InstallProtocol
  import opened InstallSafety
  import opened InstallDrain
  import opened InstallGaps

  predicate TearsDownAt(s: State, n: Name, pc: WorkerPc) {
    s.worker == Busy(Task(n, Uninstall), pc)
  }

  /** Before compose down is decided on. */
  predicate BeforeDown(s: State, n: Name) {
    || TearsDownAt(s, n, WBegin) || TearsDownAt(s, n, WStopLoad) || TearsDownAt(s, n, WStopUnfreeze)
    || TearsDownAt(s, n, WStopRun) || TearsDownAt(s, n, WStopMark) || TearsDownAt(s, n, WDownLoad)
  }

  /** From the write of UNINSTALLING up to compose down. */
  predicate Underway(s: State, n: Name) {
    BeforeDown(s, n) || TearsDownAt(s, n, WDownRun)
  }

  /** A call that will write a status under which docker_shutdown_app does nothing. */
  predicate Hides(call: Call, n: Name) {
    && AppOf(call) == n
    && ((call.PauseCall? && !call.pause.PLoadRow?)
        || (call.ApiCall? && !IsInstall(call.task.kind) && !call.api.AEnqueue?))
  }

  /** A row from which the teardown, left alone, gets to compose down. */
  predicate LeadsDown(s: State, n: Name)
    requires n in s.rows
  {
    if TearsDownAt(s, n, WDownLoad) then Removable(RowOf(s, n))
    else if TearsDownAt(s, n, WStopLoad) then s.rows[n].Uninstalling? || s.rows[n].Stopped? || s.rows[n].Paused?
    else !s.rows[n].Running?
  }

  /** Such a row, and nobody about to hide it. */
  ghost predicate Clear(s: State, n: Name) {
    || TearsDownAt(s, n, WDownRun)
    || (BeforeDown(s, n) && n in s.rows && LeadsDown(s, n)
        && forall id :: id in s.calls ==> !Hides(s.calls[id], n))
  }

  /** Unfreezing, stopping or removing the containers fails. */
  predicate CommandFails(s: State, e: Event, n: Name) {
    && e.WorkerTurn? && !e.out.Success?
    && (TearsDownAt(s, n, WStopUnfreeze) || TearsDownAt(s, n, WStopRun) || TearsDownAt(s, n, WDownRun))
  }

  predicate AsksFor(e: Event, n: Name) {
    e.Spawn? && e.call.ApiCall? && AppOf(e.call) == n
  }

  // ---- while the condition holds ----

  /** No other call hides the row: at most a stop writes STOPPED. */
  lemma CallTurnStaysClear(call: Call, row: Row, holds: bool, out: Outcome)
    requires !Hides(call, AppOf(call)) && !(call.StartCall? && Acting(call.start))
    requires row.Row? && !row.status.Running?
    ensures
      match CallTurnOf(call, row, holds, out)
      case Wait => true
      case Continue(call', effect) =>
        !Hides(call', AppOf(call)) && (Written(row, effect.row) == row || Written(row, effect.row) == Row(Stopped))
      case End(effect) => Written(row, effect.row) == row || Written(row, effect.row) == Row(Stopped)
      case EndEnqueueing(_) => true
  {
  }

  lemma CallStaysClear(s: State, id: nat, out: Outcome, n: Name)
    requires Sound(s) && Clear(s, n) && BeforeDown(s, n)
    requires id in s.calls && AppOf(s.calls[id]) == n
    ensures Clear(CallNext(s, id, out), n)
  {
    var call, s' := s.calls[id], CallNext(s, id, out);
    NoReviveDuringTeardown(s, n, id);
    AfterTurn(s, id, out);
    CallTurnStaysClear(call, RowOf(s, n), Holds(s, n, TheCall(id)), out);
    assert s'.worker == s.worker by { WorkerUntouched(s, CallTurn(id, out)); }
    assert RowOf(s', n) == RowOf(s, n) || RowOf(s', n) == Row(Stopped);
    forall other | other in s'.calls ensures !Hides(s'.calls[other], n) {
      if other != id {
        OthersUntouched(s, CallTurn(id, out));
      }
    }
  }

  lemma OthersStayClear(s: State, e: Event, n: Name)
    requires Clear(s, n) && Actor(e) != TheWorker && !AsksFor(e, n)
    requires e.CallTurn? && e.id in s.calls ==> AppOf(s.calls[e.id]) != n || TearsDownAt(s, n, WDownRun)
    ensures Clear(Next(s, e), n)
  {
    WorkerUntouched(s, e);
    OthersUntouched(s, e);
    if e.CallTurn? && e.id in s.calls {
      AfterTurn(s, e.id, e.out);
    }
  }

  /** Every event keeps the condition, until the containers are gone. */
  lemma {:induction false} ClearKept(s: State, e: Event, n: Name)
    requires Sound(s) && Clear(s, n) && !AsksFor(e, n) && !CommandFails(s, e, n)
    ensures Clear(Next(s, e), n) || (TornDown(Next(s, e), n) && Emptied(Next(s, e), n))
  {
    if Actor(e) != TheWorker {
      if e.CallTurn? && e.id in s.calls && AppOf(s.calls[e.id]) == n && !TearsDownAt(s, n, WDownRun) {
        CallStaysClear(s, e.id, e.out, n);
      } else {
        OthersStayClear(s, e, n);
      }
    }
  }

  /** The teardown has removed the containers and is still under way. */
  predicate Emptied(s: State, n: Name) {
    && n !in s.stacks
    && (TearsDownAt(s, n, WDownMark) || TearsDownAt(s, n, WDeleteRow) || TearsDownAt(s, n, WCleanup))
  }

  lemma EmptiedKept(s: State, e: Event, n: Name)
    requires Sound(s) && Emptied(s, n)
    ensures Emptied(Next(s, e), n) || Next(s, e).worker.Idle?
  {
    if Actor(e) != TheWorker {
      StackFrozen(s, e, n);
      WorkerUntouched(s, e);
    }
  }

  /** Along the schedule the teardown does not end, and its commands succeed. */
  ghost predicate Succeeds(s: State, events: seq<Event>, n: Name) {
    && (forall i :: 0 <= i <= |events| ==> Run(s, events[..i]).worker.Busy?)
    && (forall i :: 0 <= i < |events| ==> !CommandFails(Run(s, events[..i]), events[i], n))
  }

  lemma ClearOrEmptiedKept(s: State, e: Event, s': State, n: Name)
    requires Sound(s) && (Clear(s, n) || Emptied(s, n)) && s' == Next(s, e) && s'.worker.Busy?
    requires !AsksFor(e, n) && !CommandFails(s, e, n)
    ensures Clear(s', n) || Emptied(s', n)
  {
    if Clear(s, n) {
      ClearKept(s, e, n);
    } else {
      EmptiedKept(s, e, n);
    }
  }

  lemma {:induction false} ClearAlong(s: State, events: seq<Event>, n: Name)
    requires Sound(s) && Clear(s, n) && NoRequestFor(events, n) && Succeeds(s, events, n)
    ensures Clear(Run(s, events), n) || Emptied(Run(s, events), n)
    decreases |events|
  {
    if events != [] {
      var front, e := events[..|events| - 1], events[|events| - 1];
      assert forall i :: 0 <= i <= |front| ==> front[..i] == events[..i];
      ClearAlong(s, front, n);
      EveryRunIsSound(s, front);
      assert e in events && events[..|events|] == events;
      assert !CommandFails(Run(s, events[..|front|]), e, n);
      assert Run(s, events[..|events|]).worker.Busy?;
      ClearOrEmptiedKept(Run(s, front), e, Run(s, events), n);
    }
  }

  ghost predicate TornDownAt(run: nat -> State, n: Name, k: nat) {
    TornDown(run(k), n)
  }

  /** Something the condition does not cover: a new request for the app, or a command that fails. */
  ghost predicate DisturbedAt(run: nat -> State, events: nat -> Event, n: Name, k: nat) {
    AsksFor(events(k), n) || CommandFails(run(k), events(k), n)
  }

  lemma {:induction false} ClearAt(run: nat -> State, events: nat -> Event, n: Name, i: nat)
    requires FairRun(run, events) && Clear(run(0), n)
    requires forall k: nat :: k < i ==> !DisturbedAt(run, events, n, k)
    requires forall k: nat :: k <= i ==> !TornDownAt(run, n, k)
    ensures Clear(run(i), n)
  {
    if i > 0 {
      ClearAt(run, events, n, i - 1);
      SoundAt(run, events, i - 1);
      var s, e := run(i - 1), events(i - 1);
      assert !DisturbedAt(run, events, n, i - 1) && !TornDownAt(run, n, i);
      ClearKept(s, e, n);
      assert StepsAt(run, events, i - 1);
    }
  }

  /** In every fair run such a teardown removes the containers, unless a request or a failed command comes first. */
  lemma ClearTearsDown(run: nat -> State, events: nat -> Event, n: Name)
    requires FairRun(run, events) && Clear(run(0), n)
    ensures exists k: nat :: TornDownAt(run, n, k) || DisturbedAt(run, events, n, k)
  {
    var j := FinishesTask(run, events, 0);
    if forall k: nat :: k <= j ==> !TornDownAt(run, n, k) && !DisturbedAt(run, events, n, k) {
      ClearAt(run, events, n, j);
    }
  }

  // ---- where the condition fails ----

  /** The row is deleted, and the containers are still there. */
  predicate LeftBehind(s: State, n: Name) {
    TearsDownAt(s, n, WCleanup) && n !in s.rows && n in s.stacks
  }

  /** Without a new request and although its commands succeed, the schedule leaves the containers. */
  ghost predicate Leaves(s: State, events: seq<Event>, n: Name) {
    NoRequestFor(events, n) && Succeeds(s, events, n) && LeftBehind(Run(s, events), n)
  }

  lemma LeavesLater(s: State, e: Event, events: seq<Event>, n: Name)
    requires s.worker.Busy? && !AsksFor(e, n) && !CommandFails(s, e, n) && Leaves(Next(s, e), events, n)
    ensures Leaves(s, [e] + events, n)
  {
    var all := [e] + events;
    RunCons(s, e, events);
    forall i | 0 < i <= |all| ensures Run(s, all[..i]) == Run(Next(s, e), events[..i - 1]) {
      assert all[..i] == [e] + events[..i - 1];
      RunCons(s, e, events[..i - 1]);
    }
    assert all[..0] == [];
  }

  /** Nothing left to do for docker_shutdown_app: the worker goes on and deletes the row. */
  lemma HiddenLeaves(s: State, n: Name) returns (events: seq<Event>)
    requires TearsDownAt(s, n, WDownLoad) && !Removable(RowOf(s, n)) && n in s.stacks
    ensures Leaves(s, events, n)
  {
    var w := WorkerTurn(Success);
    var s1 := WorkerNext(s, Success);
    var s2 := WorkerNext(s1, Success);
    assert LeftBehind(s2, n);
    assert Leaves(s2, [], n);
    LeavesLater(s1, w, [], n);
    events := [w] + [];
    LeavesLater(s, w, events, n);
    events := [w] + events;
  }

  function HiderRank(call: Call): nat {
    match call
    case PauseCall(_, pc) => if pc.PMark? then 0 else 1
    case ApiCall(_, pc) => if pc.AWrite? then 0 else 1
    case _ => 0
  }

  /** One turn of a call that hides the row. */
  lemma HiderTurn(s: State, id: nat, n: Name)
    requires id in s.calls && Hides(s.calls[id], n) && n in s.rows
    ensures var s' := CallNext(s, id, Success);
      && s'.worker == s.worker && s'.stacks == s.stacks && n in s'.rows
      && if id in s'.calls && Hides(s'.calls[id], n) then HiderRank(s'.calls[id]) < HiderRank(s.calls[id])
         else !Removable(RowOf(s', n))
  {
  }

  lemma {:induction false} HiderLeaves(s: State, id: nat, n: Name) returns (events: seq<Event>)
    requires TearsDownAt(s, n, WDownLoad) && n in s.rows && n in s.stacks
    requires id in s.calls && Hides(s.calls[id], n)
    ensures Leaves(s, events, n)
    decreases HiderRank(s.calls[id])
  {
    var e := CallTurn(id, Success);
    var s' := Next(s, e);
    HiderTurn(s, id, n);
    if id in s'.calls && Hides(s'.calls[id], n) {
      events := HiderLeaves(s', id, n);
    } else {
      events := HiddenLeaves(s', n);
    }
    LeavesLater(s, e, events, n);
    events := [e] + events;
  }

  /** The stop succeeds; then the call hides the row, or there is none. */
  lemma {:induction false} StopLeaves(s: State, id: nat, n: Name) returns (events: seq<Event>)
    requires BeforeDown(s, n) && n in s.stacks
    requires n in s.rows ==> id in s.calls && Hides(s.calls[id], n)
    ensures Leaves(s, events, n)
    decreases TurnsLeft(s)
  {
    if !TearsDownAt(s, n, WDownLoad) {
      var e := WorkerTurn(Success);
      events := StopLeaves(WorkerNext(s, Success), id, n);
      LeavesLater(s, e, events, n);
      events := [e] + events;
    } else if n in s.rows {
      events := HiderLeaves(s, id, n);
    } else {
      events := HiddenLeaves(s, n);
    }
  }

  lemma UnusedId(calls: map<nat, Call>) returns (id: nat)
    ensures id !in calls
  {
    id := 0;
    if calls.Keys != {} {
      var m := Largest(calls.Keys);
      id := m + 1;
    }
  }

  lemma {:induction false} Largest(ids: set<nat>) returns (m: nat)
    requires ids != {}
    ensures forall i :: i in ids ==> i <= m
    decreases ids
  {
    var i :| i in ids;
    m := i;
    if ids != {i} {
      assert ids - {i} != {};
      var rest := Largest(ids - {i});
      m := if rest > i then rest else i;
    }
    assert forall j :: j in ids ==> j == i || j in ids - {i};
  }

  /** A row that still says RUNNING lets a new pause begin. */
  lemma NewPauseLeaves(s: State, n: Name) returns (events: seq<Event>)
    requires BeforeDown(s, n) && n in s.stacks && RowOf(s, n) == Row(Running)
    ensures Leaves(s, events, n)
  {
    var id := UnusedId(s.calls);
    var spawn, check := Spawn(id, PauseCall(n, PLoadRow)), CallTurn(id, Success);
    var s1 := Next(s, spawn);
    var s2 := Next(s1, check);
    assert s2.calls[id] == PauseCall(n, PFreeze);
    events := StopLeaves(s2, id, n);
    LeavesLater(s1, check, events, n);
    events := [check] + events;
    LeavesLater(s, spawn, events, n);
    events := [spawn] + events;
  }

  /** Any other row is skipped by both operations. */
  lemma SkippedLeaves(s: State, n: Name) returns (events: seq<Event>)
    requires TearsDownAt(s, n, WStopLoad) && n in s.stacks
    requires !Stoppable(RowOf(s, n)) && !Removable(RowOf(s, n))
    ensures Leaves(s, events, n)
  {
    var e := WorkerTurn(Success);
    events := HiddenLeaves(WorkerNext(s, Success), n);
    LeavesLater(s, e, events, n);
    events := [e] + events;
  }

  lemma HiddenRowLeaves(s: State, n: Name) returns (events: seq<Event>)
    requires Underway(s, n) && !Clear(s, n) && n in s.stacks
    ensures Leaves(s, events, n)
  {
    if n !in s.rows {
      events := StopLeaves(s, 0, n);
    } else if id :| id in s.calls && Hides(s.calls[id], n) {
      events := StopLeaves(s, id, n);
    } else if TearsDownAt(s, n, WDownLoad) {
      events := HiddenLeaves(s, n);
    } else if RowOf(s, n) == Row(Running) {
      events := NewPauseLeaves(s, n);
    } else {
      events := SkippedLeaves(s, n);
    }
  }

  /**
    From its first write on, a teardown whose commands succeed removes the containers in every schedule exactly when
    the row is still there, in a status from which it gets to compose down, and no pause past its check and no
    request is about to overwrite it. After the last check nothing can stop it any more.
   */
  lemma ContainersGoExactlyWhen(s: State, n: Name)
    requires Sound(s) && Underway(s, n) && n in s.stacks
    ensures Clear(s, n) <==> forall events :: !Leaves(s, events, n)
  {
    if Clear(s, n) {
      forall events ensures !Leaves(s, events, n) {
        if NoRequestFor(events, n) && Succeeds(s, events, n) {
          ClearAlong(s, events, n);
        }
      }
    } else {
      var events := HiddenRowLeaves(s, n);
    }
  }

  // ---- a command that fails ----

  /** The row is going to be deleted, and the containers are going to stay. */
  predicate GivesUpContainers(s: State, n: Name) {
    n in s.stacks && (TearsDownAt(s, n, WDeleteRow) || TearsDownAt(s, n, WCleanup))
  }

  /** A stop or a compose down that fails is not repeated, and a failed stop skips compose down. */
  lemma FailureGivesUp(s: State, e: Event, n: Name)
    requires CommandFails(s, e, n) && n in s.stacks
    ensures GivesUpContainers(Next(s, e), n)
  {
  }

  lemma GivesUpKept(s: State, e: Event, n: Name)
    requires Sound(s) && GivesUpContainers(s, n)
    ensures GivesUpContainers(Next(s, e), n) || (Next(s, e).worker.Idle? && n in Next(s, e).stacks)
  {
    if Actor(e) != TheWorker {
      StackFrozen(s, e, n);
      WorkerUntouched(s, e);
    }
  }

  lemma {:induction false} GivesUpUntilTheEnd(s: State, events: seq<Event>, n: Name)
    requires Sound(s) && GivesUpContainers(s, n)
    requires forall i :: 0 <= i < |events| ==> Run(s, events[..i]).worker.Busy?
    ensures n in Run(s, events).stacks
    ensures Run(s, events).worker.Busy? ==> GivesUpContainers(Run(s, events), n)
    decreases |events|
  {
    if events != [] {
      var front := events[..|events| - 1];
      assert forall i :: 0 <= i <= |front| ==> front[..i] == events[..i];
      GivesUpUntilTheEnd(s, front, n);
      EveryRunIsSound(s, front);
      assert Run(s, events[..|front|]).worker.Busy?;
      GivesUpKept(Run(s, front), events[|front|], n);
    }
  }

  /** When a command has failed, the teardown ends without removing the containers, whatever happens meanwhile. */
  lemma FailedCommandLeaves(s: State, e: Event, events: seq<Event>, n: Name)
    requires Sound(s) && CommandFails(s, e, n) && n in s.stacks
    requires forall i :: 0 <= i < |events| ==> Run(Next(s, e), events[..i]).worker.Busy?
    ensures n in Run(s, [e] + events).stacks
  {
    FailureGivesUp(s, e, n);
    SoundKept(s, e);
    GivesUpUntilTheEnd(Next(s, e), events, n);
    RunCons(s, e, events);
  }

  // ---- from boot ----

  ghost predicate At(s: State, pc: WorkerPc, status: Status, api: ApiPc) {
    && TearsDownAt(s, "a", pc) && RowOf(s, "a") == Row(status) && "a" in s.stacks
    && s.calls == map[0 := ApiCall(Task("a", Reinstall), api)]
  }

  /** A teardown that boot resumed, and a reinstallation requested as soon as it is picked up. */
  lemma RequestUnderway(boot: State) returns (events: seq<Event>, s: State)
    requires boot == Booted(map["a" := UninstallationQueued], {"a"}, [Task("a", Uninstall)])
    ensures s == Run(boot, events) && At(s, WAskLock, UninstallationQueued, AWrite) && LockQueue(s, "a") == []
  {
    events, s := [], boot;
    events, s := Extend(boot, events, s, WorkerTurn(Success));
    assert TearsDownAt(s, "a", WAskLock) && s.calls == map[];
    events, s := Extend(boot, events, s, Spawn(0, ApiCall(Task("a", Reinstall), ACheck)));
    assert At(s, WAskLock, UninstallationQueued, ACheck);
    events, s := Extend(boot, events, s, CallTurn(0, Success));
  }

  lemma TeardownUpToItsStop(boot: State) returns (events: seq<Event>, s: State)
    requires boot == Booted(map["a" := UninstallationQueued], {"a"}, [Task("a", Uninstall)])
    ensures s == Run(boot, events) && At(s, WStopRun, Uninstalling, AWrite)
  {
    events, s := RequestUnderway(boot);
    events, s := Extend(boot, events, s, WorkerTurn(Success));
    assert At(s, WAwaitLock, UninstallationQueued, AWrite) && Holds(s, "a", TheWorker);
    events, s := Extend(boot, events, s, WorkerTurn(Success));
    assert At(s, WLoadRow, UninstallationQueued, AWrite);
    events, s := Extend(boot, events, s, WorkerTurn(Success));
    assert At(s, WBegin, UninstallationQueued, AWrite);
    events, s := Extend(boot, events, s, WorkerTurn(Success));
    assert At(s, WStopLoad, Uninstalling, AWrite);
    events, s := Extend(boot, events, s, WorkerTurn(Success));
  }

  lemma {:induction false} RunAppend(s: State, before: seq<Event>, after: seq<Event>)
    ensures Run(s, before + after) == Run(Run(s, before), after)
    decreases |after|
  {
    if after == [] {
      assert before + after == before;
    } else {
      var front, e := after[..|after| - 1], after[|after| - 1];
      RunAppend(s, before, front);
      assert after == front + [e] && before + after == (before + front) + [e];
      RunSnoc(s, before + front, e);
      RunSnoc(Run(s, before), front, e);
    }
  }

  /** A schedule from boot whose teardown deletes the row and leaves the containers, though all commands succeed. */
  lemma TeardownCanLeaveContainers() returns (before: seq<Event>, after: seq<Event>)
    ensures var rows, queue := map["a" := UninstallationQueued], [Task("a", Uninstall)];
      && Reconciled(rows, queue)
      && var stopping := Run(Booted(rows, {"a"}, queue), before);
         && TearsDownAt(stopping, "a", WStopRun) && Leaves(stopping, after, "a")
         && LeftBehind(Run(Booted(rows, {"a"}, queue), before + after), "a")
  {
    var boot := Booted(map["a" := UninstallationQueued], {"a"}, [Task("a", Uninstall)]);
    var s: State;
    before, s := TeardownUpToItsStop(boot);
    assert Hides(s.calls[0], "a");
    after := HiddenRowLeaves(s, "a");
    RunAppend(boot, before, after);
  }
}
