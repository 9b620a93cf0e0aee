/**
  When an accepted uninstallation is given up. A teardown that reads PAUSED and cannot unfreeze the app ends without
  deleting the row, and nothing tries again; once it has the lock, that can happen exactly when the row says PAUSED or
  RUNNING, or a pause is past its check.
 */
module Unfreezing {
  import opened AppStatus
  import opened InstallProtocol
  import opened InstallSafety
  import opened InstallDrain
  import opened InstallGaps
  import opened Teardowns

  // ---- given up for good ----

  ghost predicate NoUninstallUnderway(s: State, n: Name) {
    forall id :: id in s.calls && s.calls[id].ApiCall? ==> s.calls[id].task != Task(n, Uninstall)
  }

  /** The app is there, and nothing is going to delete it. */
  ghost predicate Spared(s: State, n: Name) {
    n in s.rows && !Doomed(s, n) && NoUninstallUnderway(s, n)
  }

  lemma GivingUpSpares(s: State, e: Event, n: Name)
    requires UnfreezeFails(s, e, n) && n in s.rows
    requires Task(n, Uninstall) !in s.queue && NoUninstallUnderway(s, n)
    ensures Spared(Next(s, e), n)
  {
  }

  lemma {:induction false} SparedKept(s: State, e: Event, n: Name)
    requires WorkerOk(s) && Spared(s, n) && !AsksUninstall(e, n)
    ensures Spared(Next(s, e), n)
  {
    OthersUntouched(s, e);
    RowsComeAndGo(s, e, n);
    assert !Deletes(s, n);
  }

  /** Without a new request the app keeps its row in every schedule, and no uninstallation of it is ever under way. */
  lemma {:induction false} SparedForGood(s: State, events: seq<Event>, n: Name)
    requires Sound(s) && Spared(s, n) && forall e :: e in events ==> !AsksUninstall(e, n)
    ensures Spared(Run(s, events), n)
    decreases |events|
  {
    if events != [] {
      var front, e := events[..|events| - 1], events[|events| - 1];
      SparedForGood(s, front, n);
      EveryRunIsSound(s, front);
      assert e in events;
      SparedKept(Run(s, front), e, n);
    }
  }

  /** So a teardown that fails to unfreeze is not tried again. */
  lemma GivenUpForGood(s: State, e: Event, events: seq<Event>, n: Name)
    requires Sound(s) && UnfreezeFails(s, e, n) && n in s.rows
    requires Task(n, Uninstall) !in s.queue && NoUninstallUnderway(s, n)
    requires forall f :: f in events ==> !AsksUninstall(f, n)
    ensures Spared(Run(s, [e] + events), n)
  {
    GivingUpSpares(s, e, n);
    SoundKept(s, e);
    SparedForGood(Next(s, e), events, n);
    RunCons(s, e, events);
  }

  // ---- when it cannot happen ----

  predicate Pausing(call: Call, n: Name) {
    call.PauseCall? && call.name == n && !call.pause.PLoadRow?
  }

  /** The teardown has the lock, and the row neither needs unfreezing nor is about to. */
  ghost predicate Firm(s: State, n: Name) {
    && TearsDownAt(s, n, WLoadRow)
    && RowOf(s, n) != Row(Paused) && RowOf(s, n) != Row(Running)
    && forall id :: id in s.calls ==> !Pausing(s.calls[id], n)
  }

  predicate PastUnfreezing(s: State, n: Name) {
    && s.worker.Busy? && s.worker.task == Task(n, Uninstall)
    && !s.worker.pc.WAskLock? && !s.worker.pc.WAwaitLock? && !s.worker.pc.WLoadRow?
    && !s.worker.pc.WCheckFrozen? && !s.worker.pc.WUnfreeze?
  }

  lemma CallTurnStaysFirm(call: Call, row: Row, holds: bool, out: Outcome)
    requires !Pausing(call, AppOf(call)) && !(call.StartCall? && Acting(call.start))
    requires row != Row(Paused) && row != Row(Running)
    ensures
      match CallTurnOf(call, row, holds, out)
      case Wait => true
      case Continue(call', effect) =>
        && !Pausing(call', AppOf(call))
        && Written(row, effect.row) != Row(Paused) && Written(row, effect.row) != Row(Running)
      case End(effect) => Written(row, effect.row) != Row(Paused) && Written(row, effect.row) != Row(Running)
      case EndEnqueueing(_) => true
  {
  }

  lemma CallStaysFirm(s: State, id: nat, out: Outcome, n: Name)
    requires Sound(s) && Firm(s, n) && id in s.calls
    ensures Firm(CallNext(s, id, out), n)
  {
    var call, s' := s.calls[id], CallNext(s, id, out);
    var m := AppOf(call);
    OthersUntouched(s, CallTurn(id, out));
    AfterTurn(s, id, out);
    CallKeepsItsApp(call, RowOf(s, m), Holds(s, m, TheCall(id)), out);
    if m == n {
      NoReviveDuringTeardown(s, n, id);
      CallTurnStaysFirm(call, RowOf(s, n), Holds(s, n, TheCall(id)), out);
    } else {
      assert RowOf(s', n) == RowOf(s, n);
    }
    forall other | other in s'.calls ensures !Pausing(s'.calls[other], n) {
      assert other != id ==> other in s.calls && s'.calls[other] == s.calls[other];
    }
  }

  lemma {:induction false} FirmKept(s: State, e: Event, n: Name)
    requires Sound(s) && (Firm(s, n) || PastUnfreezing(s, n))
    ensures Firm(Next(s, e), n) || PastUnfreezing(Next(s, e), n) || Next(s, e).worker.Idle?
  {
    if e.CallTurn? && e.id in s.calls && Firm(s, n) {
      CallStaysFirm(s, e.id, e.out, n);
    } else if Actor(e) != TheWorker {
      WorkerUntouched(s, e);
      OthersUntouched(s, e);
    } else if PastUnfreezing(s, n) {
      var task := s.worker.task;
      WorkerTurnInLock(task.kind, s.worker.pc, RowOf(s, n), Holds(s, n, TheWorker), e.out);
    }
  }

  /** The schedule ends with this teardown given up. */
  ghost predicate GivesUp(s: State, events: seq<Event>, n: Name) {
    && events != []
    && (forall i :: 0 <= i < |events| ==> Run(s, events[..i]).worker.Busy?)
    && UnfreezeFails(Run(s, events[..|events| - 1]), events[|events| - 1], n)
  }

  lemma {:induction false} FirmAlong(s: State, events: seq<Event>, n: Name)
    requires Sound(s) && Firm(s, n)
    requires forall i :: 0 <= i <= |events| ==> Run(s, events[..i]).worker.Busy?
    ensures Firm(Run(s, events), n) || PastUnfreezing(Run(s, events), n)
    decreases |events|
  {
    if events != [] {
      var front := events[..|events| - 1];
      assert forall i :: 0 <= i <= |front| ==> front[..i] == events[..i];
      FirmAlong(s, front, n);
      EveryRunIsSound(s, front);
      assert events[..|events|] == events && Run(s, events[..|events|]).worker.Busy?;
      FirmKept(Run(s, front), events[|front|], n);
    }
  }

  // ---- when it can ----

  lemma GivesUpLater(s: State, e: Event, events: seq<Event>, n: Name)
    requires s.worker.Busy? && GivesUp(Next(s, e), events, n)
    ensures GivesUp(s, [e] + events, n) && Run(s, [e] + events) == Run(Next(s, e), events)
  {
    var all := [e] + events;
    RunCons(s, e, events);
    forall i | 0 < i <= |all| ensures Run(s, all[..i]) == Run(Next(s, e), events[..i - 1]) {
      assert all[..i] == [e] + events[..i - 1];
      RunCons(s, e, events[..i - 1]);
    }
    assert all[..0] == [];
  }

  /** What is left when the teardown has been given up. */
  predicate Left(s: State, s': State, n: Name, calls: map<nat, Call>) {
    n in s'.rows && s'.worker.Idle? && s'.queue == s.queue && s'.calls == calls
  }

  lemma FrozenGivesUp(s: State, n: Name) returns (events: seq<Event>)
    requires TearsDownAt(s, n, WUnfreeze) && n in s.rows
    ensures GivesUp(s, events, n) && Left(s, Run(s, events), n, s.calls)
  {
    var e := WorkerTurn(Failure);
    events := [e];
    assert events[..0] == [];
    assert Run(s, []) == s;
  }

  lemma PausedGivesUp(s: State, n: Name) returns (events: seq<Event>)
    requires TearsDownAt(s, n, WLoadRow) && RowOf(s, n) == Row(Paused)
    ensures GivesUp(s, events, n) && Left(s, Run(s, events), n, s.calls)
  {
    var e := WorkerTurn(Success);
    var s1 := Next(s, e);
    var s2 := Next(s1, e);
    events := FrozenGivesUp(s2, n);
    GivesUpLater(s1, e, events, n);
    events := [e] + events;
    GivesUpLater(s, e, events, n);
    events := [e] + events;
  }

  /** The turn in which a pause overwrites the row. */
  lemma PauseWrites(s: State, id: nat, n: Name)
    requires n in s.rows && id in s.calls && s.calls[id] == PauseCall(n, PMark)
    ensures var s' := CallNext(s, id, Success);
      RowOf(s', n) == Row(Paused) && s'.worker == s.worker && s'.queue == s.queue && s'.calls == s.calls - {id}
  {
  }

  lemma DuePauseGivesUp(s: State, id: nat, n: Name) returns (events: seq<Event>)
    requires TearsDownAt(s, n, WLoadRow) && n in s.rows && id in s.calls && s.calls[id] == PauseCall(n, PMark)
    ensures GivesUp(s, events, n) && Left(s, Run(s, events), n, s.calls - {id})
  {
    var e := CallTurn(id, Success);
    PauseWrites(s, id, n);
    events := PausedGivesUp(Next(s, e), n);
    GivesUpLater(s, e, events, n);
    events := [e] + events;
  }

  lemma PauseFreezes(s: State, id: nat, n: Name)
    requires n in s.rows && id in s.calls && s.calls[id] == PauseCall(n, PFreeze)
    ensures var s' := CallNext(s, id, Success);
      && s'.rows == s.rows && s'.worker == s.worker && s'.queue == s.queue
      && s'.calls == s.calls[id := PauseCall(n, PMark)]
  {
  }

  lemma PauseGivesUp(s: State, id: nat, n: Name) returns (events: seq<Event>)
    requires TearsDownAt(s, n, WLoadRow) && n in s.rows && id in s.calls && Pausing(s.calls[id], n)
    ensures GivesUp(s, events, n) && Left(s, Run(s, events), n, s.calls - {id})
  {
    if s.calls[id].pause.PMark? {
      events := DuePauseGivesUp(s, id, n);
    } else {
      var e := CallTurn(id, Success);
      PauseFreezes(s, id, n);
      var s' := Next(s, e);
      events := DuePauseGivesUp(s', id, n);
      assert s'.calls - {id} == s.calls - {id};
      GivesUpLater(s, e, events, n);
      events := [e] + events;
    }
  }

  /** A row that says RUNNING lets a new pause begin. */
  lemma NewPauseGivesUp(s: State, n: Name) returns (events: seq<Event>)
    requires TearsDownAt(s, n, WLoadRow) && RowOf(s, n) == Row(Running)
    ensures GivesUp(s, events, n)
  {
    var id := UnusedId(s.calls);
    var spawn, check := Spawn(id, PauseCall(n, PLoadRow)), CallTurn(id, Success);
    var s1 := Next(s, spawn);
    var s2 := Next(s1, check);
    assert s2.calls[id] == PauseCall(n, PFreeze);
    events := PauseGivesUp(s2, id, n);
    GivesUpLater(s1, check, events, n);
    events := [check] + events;
    GivesUpLater(s, spawn, events, n);
    events := [spawn] + events;
  }

  /**
    Once a teardown has the lock and its app has a row, no schedule gives it up exactly when the row says neither
    PAUSED nor RUNNING and no pause is past its check.
   */
  lemma NeverGivenUpExactlyWhen(s: State, n: Name)
    requires Sound(s) && TearsDownAt(s, n, WLoadRow) && n in s.rows
    ensures Firm(s, n) <==> forall events :: !GivesUp(s, events, n)
  {
    if Firm(s, n) {
      forall events ensures !GivesUp(s, events, n) {
        if GivesUp(s, events, n) {
          var front := events[..|events| - 1];
          assert forall i :: 0 <= i <= |front| ==> front[..i] == events[..i];
          FirmAlong(s, front, n);
        }
      }
    } else if id :| id in s.calls && Pausing(s.calls[id], n) {
      var events := PauseGivesUp(s, id, n);
    } else if RowOf(s, n) == Row(Paused) {
      var events := PausedGivesUp(s, n);
    } else {
      var events := NewPauseGivesUp(s, n);
    }
  }

  // ---- from boot ----

  ghost predicate Both(s: State, status: Status, pause: PausePc, api: ApiPc) {
    && RowOf(s, "a") == Row(status) && s.worker.Idle? && s.queue == [] && LockQueue(s, "a") == []
    && s.calls == map[0 := PauseCall("a", pause), 1 := ApiCall(Task("a", Uninstall), api)]
  }

  lemma PauseUnderway(boot: State) returns (events: seq<Event>, s: State)
    requires boot == Booted(map["a" := Running], {"a"}, [])
    ensures s == Run(boot, events) && Both(s, Running, PMark, ACheck)
  {
    events, s := [], boot;
    events, s := Extend(boot, events, s, Spawn(0, PauseCall("a", PLoadRow)));
    events, s := Extend(boot, events, s, CallTurn(0, Success));
    assert s.calls == map[0 := PauseCall("a", PFreeze)];
    events, s := Extend(boot, events, s, CallTurn(0, Success));
    assert s.calls == map[0 := PauseCall("a", PMark)];
    events, s := Extend(boot, events, s, Spawn(1, ApiCall(Task("a", Uninstall), ACheck)));
  }

  lemma UninstallWritten(boot: State) returns (events: seq<Event>, s: State)
    requires boot == Booted(map["a" := Running], {"a"}, [])
    ensures s == Run(boot, events) && Both(s, UninstallationQueued, PMark, AEnqueue)
  {
    events, s := PauseUnderway(boot);
    events, s := Extend(boot, events, s, CallTurn(1, Success));
    assert Both(s, Running, PMark, AWrite);
    events, s := Extend(boot, events, s, CallTurn(1, Success));
  }

  lemma UninstallPicked(boot: State) returns (events: seq<Event>, s: State)
    requires boot == Booted(map["a" := Running], {"a"}, [])
    ensures s == Run(boot, events) && TearsDownAt(s, "a", WAskLock) && RowOf(s, "a") == Row(UninstallationQueued)
    ensures s.queue == [] && LockQueue(s, "a") == [] && s.calls == map[0 := PauseCall("a", PMark)]
  {
    events, s := UninstallWritten(boot);
    events, s := Extend(boot, events, s, CallTurn(1, Success));
    assert s.queue == [Task("a", Uninstall)] && s.calls == map[0 := PauseCall("a", PMark)];
    events, s := Extend(boot, events, s, WorkerTurn(Success));
  }

  lemma UninstallAtItsCheck(boot: State) returns (events: seq<Event>, s: State)
    requires boot == Booted(map["a" := Running], {"a"}, [])
    ensures s == Run(boot, events) && TearsDownAt(s, "a", WLoadRow) && RowOf(s, "a") == Row(UninstallationQueued)
    ensures s.queue == [] && s.calls == map[0 := PauseCall("a", PMark)]
  {
    events, s := UninstallPicked(boot);
    events, s := Extend(boot, events, s, WorkerTurn(Success));
    assert TearsDownAt(s, "a", WAwaitLock) && Holds(s, "a", TheWorker);
    events, s := Extend(boot, events, s, WorkerTurn(Success));
  }

  /** A pause past its check overwrites an accepted uninstallation; unfreezing fails, and the app stays for good. */
  lemma UninstallCanBeGivenUp() returns (before: seq<Event>, after: seq<Event>)
    ensures var boot := Booted(map["a" := Running], {"a"}, []);
      && Doomed(Run(boot, before), "a") && RowOf(Run(boot, before), "a") == Row(UninstallationQueued)
      && GivesUp(Run(boot, before), after, "a") && Spared(Run(boot, before + after), "a")
  {
    var boot := Booted(map["a" := Running], {"a"}, []);
    var s: State;
    before, s := UninstallAtItsCheck(boot);
    after := PauseGivesUp(s, 0, "a");
    RunAppend(boot, before, after);
  }
}
