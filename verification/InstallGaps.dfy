/**
  Two things the protocol does not promise, each shown from boot: an accepted reinstallation may be dropped, and a
  status left by an earlier process outside the uninstall pair is never resumed.
 */
module InstallGaps {
  import opened AppStatus
  import opened InstallProtocol
  import opened InstallSafety

  lemma RunSnoc(s: State, events: seq<Event>, e: Event)
    ensures Run(s, events + [e]) == Next(Run(s, events), e)
  {
    assert (events + [e])[..|events|] == events;
  }

  lemma {:induction false} RunCons(s: State, e: Event, events: seq<Event>)
    ensures Run(s, [e] + events) == Run(Next(s, e), events)
    decreases |events|
  {
    var all := [e] + events;
    if events == [] {
      assert all[..0] == [];
      assert Run(s, all) == Next(Run(s, []), e);
    } else {
      assert all[..|events|] == [e] + events[..|events| - 1];
      RunCons(s, e, events[..|events| - 1]);
    }
  }

  /** A schedule built turn by turn. */
  lemma Extend(s: State, events: seq<Event>, now: State, e: Event) returns (events': seq<Event>, now': State)
    requires now == Run(s, events)
    ensures events' == events + [e] && now' == Next(now, e) && now' == Run(s, events')
  {
    RunSnoc(s, events, e);
    events', now' := events + [e], Next(now, e);
  }

  // The schedule that drops a reinstallation, in three parts.

  ghost predicate At(s: State, status: Status, queue: seq<Task>) {
    RowOf(s, "a") == Row(status) && s.queue == queue && s.worker.Idle?
  }

  ghost predicate Runs(s: State, id: nat, call: Call) {
    id in s.calls && s.calls[id] == call
  }

  lemma ReviveUpToItsCheck(boot: State) returns (events: seq<Event>, s: State)
    requires boot == Booted(map["a" := Stopped], {}, [])
    ensures s == Run(boot, events) && At(s, Stopped, []) && Runs(s, 0, StartCall("a", SLoadRow)) && 1 !in s.calls
  {
    events, s := [], boot;
    events, s := Extend(boot, events, s, Spawn(0, StartCall("a", SAskLock)));
    assert At(s, Stopped, []) && Runs(s, 0, StartCall("a", SAskLock));
    events, s := Extend(boot, events, s, CallTurn(0, Success));
    assert Holds(s, "a", TheCall(0));
    assert At(s, Stopped, []) && Runs(s, 0, StartCall("a", SAwaitLock));
    events, s := Extend(boot, events, s, CallTurn(0, Success));
  }

  lemma ReviveUpToItsWrite(boot: State) returns (events: seq<Event>, s: State)
    requires boot == Booted(map["a" := Stopped], {}, [])
    ensures s == Run(boot, events) && At(s, Stopped, []) && Runs(s, 0, StartCall("a", SMark)) && 1 !in s.calls
  {
    events, s := ReviveUpToItsCheck(boot);
    events, s := Extend(boot, events, s, CallTurn(0, Success));
    assert At(s, Stopped, []) && Runs(s, 0, StartCall("a", SInspect(Stopped)));
    events, s := Extend(boot, events, s, CallTurn(0, Observed(Exited)));
    assert At(s, Stopped, []) && Runs(s, 0, StartCall("a", SUp));
    events, s := Extend(boot, events, s, CallTurn(0, Success));
  }

  lemma ReinstallRequested(boot: State, before: seq<Event>, s0: State) returns (events: seq<Event>, s: State)
    requires s0 == Run(boot, before) && At(s0, Stopped, [])
    requires Runs(s0, 0, StartCall("a", SMark)) && 1 !in s0.calls
    ensures s == Run(boot, events) && At(s, ReinstallationQueued, [Task("a", Reinstall)])
    ensures Runs(s, 0, StartCall("a", SMark))
  {
    var start, task := StartCall("a", SMark), Task("a", Reinstall);
    events, s := Extend(boot, before, s0, Spawn(1, ApiCall(task, ACheck)));
    assert At(s, Stopped, []) && Runs(s, 0, start) && Runs(s, 1, ApiCall(task, ACheck));
    events, s := Extend(boot, events, s, CallTurn(1, Success));
    assert At(s, Stopped, []) && Runs(s, 0, start) && Runs(s, 1, ApiCall(task, AWrite));
    events, s := Extend(boot, events, s, CallTurn(1, Success));
    assert At(s, ReinstallationQueued, []) && Runs(s, 0, start) && Runs(s, 1, ApiCall(task, AEnqueue));
    events, s := Extend(boot, events, s, CallTurn(1, Success));
  }

  /** A revive that passed its check before the request overwrites the request, and the task is dropped. */
  lemma ReinstallCanBeDropped() returns (accepted: seq<Event>, events: seq<Event>)
    ensures var boot := Booted(map["a" := Stopped], {}, []);
      && accepted < events
      && At(Run(boot, accepted), ReinstallationQueued, [Task("a", Reinstall)])
      && At(Run(boot, events), Running, [])
  {
    var boot, task := Booted(map["a" := Stopped], {}, []), Task("a", Reinstall);
    var s: State;
    accepted, s := ReviveUpToItsWrite(boot);
    accepted, s := ReinstallRequested(boot, accepted, s);
    events, s := Extend(boot, accepted, s, CallTurn(0, Success));
    assert At(s, Running, [task]);
    events, s := Extend(boot, events, s, WorkerTurn(Success));
    assert s.worker == Busy(task, WLoadRow) && s.queue == [];
    assert RowOf(s, "a") == Row(Running);
    events, s := Extend(boot, events, s, WorkerTurn(Success));
  }

  // ---- containers left behind ----

  /** While a teardown holds the lock, nobody but the worker creates or removes containers of the app. */
  lemma StackFrozen(s: State, e: Event, n: Name)
    requires Sound(s) && Inside(s, n, TheWorker) && Actor(e) != TheWorker
    ensures n in Next(s, e).stacks <==> n in s.stacks
  {
    if e.CallTurn? {
      NoReviveDuringTeardown(s, n, e.id);
    }
  }

  // ---- statuses nobody resumes ----

  /** A status that no lifecycle call acts on, and that waits for the worker. */
  predicate Waits(status: Status) {
    status in {InstallationQueued, Installing, ReinstallationQueued, Reinstalling, UninstallationQueued}
  }

  /** No party has anything to do with n. */
  ghost predicate Abandoned(s: State, n: Name) {
    && (forall t :: t in s.queue ==> t.name != n)
    && (s.worker.Busy? ==> s.worker.task.name != n)
    && (forall id :: id in s.calls ==> AppOf(s.calls[id]) != n || IsIdleCall(s.calls[id]))
  }

  /** A lifecycle call that has not got past its own status check. */
  predicate IsIdleCall(call: Call) {
    match call
    case StartCall(_, pc) => !Acting(pc)
    case PauseCall(_, pc) => pc.PLoadRow?
    case StopCall(_, pc) => pc.TLoadRow?
    case ApiCall(_, _) => false
  }

  /** A lifecycle call that meets such a status at its check does nothing more. */
  lemma IdleCallGivesUp(call: Call, status: Status, holds: bool, out: Outcome)
    requires IsIdleCall(call) && Waits(status)
    ensures
      match CallTurnOf(call, Row(status), holds, out)
      case Wait => true
      case Continue(call', effect) =>
        IsIdleCall(call') && AppOf(call') == AppOf(call) && effect.row.KeepRow? && effect.stack.KeepStack?
      case End(effect) => effect.row.KeepRow? && effect.stack.KeepStack?
      case EndEnqueueing(_) => false
  {
  }

  /** Another app's call stays another app's call. */
  lemma CallKeepsItsApp(call: Call, row: Row, holds: bool, out: Outcome)
    ensures
      match CallTurnOf(call, row, holds, out)
      case Continue(call', _) => AppOf(call') == AppOf(call)
      case EndEnqueueing(task) => task.name == AppOf(call)
      case _ => true
  {
  }

  lemma AbandonedKept(s: State, e: Event, n: Name)
    requires Abandoned(s, n) && n in s.rows && Waits(s.rows[n])
    requires e.Spawn? && e.call.ApiCall? ==> AppOf(e.call) != n
    ensures Abandoned(Next(s, e), n)
  {
    OthersUntouched(s, e);
    if e.CallTurn? && e.id in s.calls {
      var call := s.calls[e.id];
      var holds := Holds(s, AppOf(call), TheCall(e.id));
      CallKeepsItsApp(call, RowOf(s, AppOf(call)), holds, e.out);
      if AppOf(call) == n {
        IdleCallGivesUp(call, s.rows[n], holds, e.out);
      }
    }
  }

  lemma StrandedStep(s: State, e: Event, n: Name)
    requires Abandoned(s, n) && n in s.rows && Waits(s.rows[n])
    requires e.Spawn? && e.call.ApiCall? ==> AppOf(e.call) != n
    ensures Abandoned(Next(s, e), n) && RowOf(Next(s, e), n) == RowOf(s, n)
  {
    AbandonedKept(s, e, n);
    if e.CallTurn? && e.id in s.calls {
      assert AppOf(s.calls[e.id]) != n || IsIdleCall(s.calls[e.id]);
    }
  }

  ghost predicate NoRequestFor(events: seq<Event>, n: Name) {
    forall e :: e in events && e.Spawn? && e.call.ApiCall? ==> AppOf(e.call) != n
  }

  /**
    A row that boot finds in an install or reinstall status keeps it in every schedule in which no API call names
    the app, whatever the worker and the lifecycle calls do.
   */
  lemma {:induction false} StrandedStatusStays(rows: map<Name, Status>, stacks: set<Name>, queue: seq<Task>,
                                               events: seq<Event>, n: Name)
    requires Reconciled(rows, queue) && NoRequestFor(events, n)
    requires n in rows && rows[n] in {InstallationQueued, Installing, ReinstallationQueued, Reinstalling}
    ensures var s := Run(Booted(rows, stacks, queue), events); Abandoned(s, n) && RowOf(s, n) == Row(rows[n])
    decreases |events|
  {
    if events != [] {
      var last := |events| - 1;
      StrandedStatusStays(rows, stacks, queue, events[..last], n);
      assert events[last] in events;
      StrandedStep(Run(Booted(rows, stacks, queue), events[..last]), events[last], n);
    }
  }
}
