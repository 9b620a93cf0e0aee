/**
  When an accepted reinstallation is carried out. The condition is one on the state in which its status is written:
  while it holds nothing can come between the request and the worker, and where it fails a schedule drops the task.
 */
module Reinstalls {
  import opened AppStatus
  import opened InstallProtocol
  import opened InstallSafety
  import opened InstallDrain
  import opened InstallGaps

  function TaskFor(n: Name): Task {
    Task(n, Reinstall)
  }

  function TeardownOf(n: Name): Task {
    Task(n, Uninstall)
  }

  /** The row still asks for the reinstallation. */
  predicate Says(s: State, n: Name) {
    RowOf(s, n) == Row(ReinstallationQueued)
  }

  predicate AtCheck(s: State, n: Name) {
    s.worker == Busy(TaskFor(n), WLoadRow)
  }

  /** The worker has found the status it must find, and starts to reinstall. */
  predicate Begins(s: State, n: Name) {
    s.worker == Busy(TaskFor(n), WBegin)
  }

  ghost predicate Waiting(s: State, n: Name) {
    TaskFor(n) in s.queue || Announced(s, TaskFor(n)) || AtCheck(s, n)
  }

  // ---- what may come between ----

  /** A call that will write another status, if it gets that far. */
  predicate Overwrites(call: Call, n: Name) {
    AppOf(call) == n && (Engaged(call) || (call.ApiCall? && call.task.kind.Uninstall? && !call.api.AEnqueue?))
  }

  /** The worker is at a task for n that will write another status or delete the row. */
  predicate WorkerOverwrites(s: State, n: Name) {
    && s.worker.Busy? && s.worker.task.name == n
    && if s.worker.task.kind.Uninstall? then !s.worker.pc.WCleanup? else !s.worker.pc.WLoadRow?
  }

  /** A teardown at position i, with no reinstallation in front of it. */
  predicate TeardownAt(q: seq<Task>, n: Name, i: nat) {
    i < |q| && q[i] == TeardownOf(n) && TaskFor(n) !in q[..i]
  }

  /** A teardown of n may reach the worker before the reinstallation does. */
  ghost predicate TeardownFirst(s: State, n: Name) {
    && !AtCheck(s, n)
    && ((exists i :: TeardownAt(s.queue, n, i)) || (TaskFor(n) !in s.queue && Announced(s, TeardownOf(n))))
  }

  /** Nothing in flight can come between the request and the worker. */
  ghost predicate Undisturbed(s: State, n: Name) {
    && (forall id :: id in s.calls ==> !Overwrites(s.calls[id], n))
    && !WorkerOverwrites(s, n)
    && !TeardownFirst(s, n)
  }

  ghost predicate Secured(s: State, n: Name) {
    Says(s, n) && Waiting(s, n) && Undisturbed(s, n)
  }

  // ---- while the condition holds ----

  /** No lifecycle call gets past its check, and every request that is written asks for the same again. */
  lemma CallTurnKeeps(s: State, id: nat, out: Outcome, n: Name)
    requires Says(s, n) && id in s.calls && !Overwrites(s.calls[id], n)
    ensures Says(CallNext(s, id, out), n)
    ensures id in CallNext(s, id, out).calls ==> !Overwrites(CallNext(s, id, out).calls[id], n)
  {
  }

  lemma EventKeepsSaying(s: State, e: Event, n: Name)
    requires Secured(s, n) && !AsksUninstall(e, n)
    ensures Says(Next(s, e), n)
    ensures forall id :: id in Next(s, e).calls ==> !Overwrites(Next(s, e).calls[id], n)
  {
    OthersUntouched(s, e);
    if e.CallTurn? && e.id in s.calls {
      CallTurnKeeps(s, e.id, e.out, n);
    }
  }

  /** Tasks that are queued later do not come first. */
  lemma TeardownAppended(q: seq<Task>, more: seq<Task>, n: Name, i: nat)
    requires TeardownAt(q + more, n, i) && TaskFor(n) in q
    ensures TeardownAt(q, n, i)
  {
    assert forall k :: 0 <= k < |q| && k < i ==> (q + more)[..i][k] == q[k];
    assert (q + more)[..i] == q[..i];
  }

  lemma WaitingKept(s: State, e: Event, n: Name)
    requires Waiting(s, n) && Says(s, n)
    ensures Waiting(Next(s, e), n) || Begins(Next(s, e), n)
  {
    var s', t := Next(s, e), TaskFor(n);
    OthersUntouched(s, e);
    if AtCheck(s, n) {
      assert e.WorkerTurn? ==> Begins(s', n);
    } else if t in s.queue {
      if e.WorkerTurn? && s.worker.Idle? {
        assert s.queue == [s.queue[0]] + s'.queue;
      }
    } else {
      var id :| id in s.calls && s.calls[id] == ApiCall(t, AEnqueue);
      if e.CallTurn? && e.id == id {
        assert s'.queue[|s.queue|] == t;
      } else {
        assert id in s'.calls && s'.calls[id] == ApiCall(t, AEnqueue);
      }
    }
  }

  lemma WorkerStaysOff(s: State, e: Event, n: Name)
    requires Secured(s, n) && WorkerOk(s)
    ensures WorkerOverwrites(Next(s, e), n) ==> Begins(Next(s, e), n)
  {
    OthersUntouched(s, e);
    if e.WorkerTurn? && s.worker.Idle? && s.queue != [] && s.queue[0] == TeardownOf(n) {
      assert TeardownAt(s.queue, n, 0);
    }
  }

  lemma NoTeardownAnnounced(s: State, e: Event, n: Name)
    requires Secured(s, n) && !AsksUninstall(e, n) && Announced(Next(s, e), TeardownOf(n))
    ensures Announced(s, TeardownOf(n))
  {
    var s' := Next(s, e);
    var id :| id in s'.calls && s'.calls[id] == ApiCall(TeardownOf(n), AEnqueue);
    OthersUntouched(s, e);
    if id in s.calls {
      assert !Overwrites(s.calls[id], n);
    }
  }

  /** The worker takes a task off the front. */
  lemma TeardownWasBehind(s: State, out: Outcome, n: Name, i: nat)
    requires TeardownAt(WorkerNext(s, out).queue, n, i) && !AtCheck(WorkerNext(s, out), n)
    ensures exists j :: TeardownAt(s.queue, n, j)
  {
    var s' := WorkerNext(s, out);
    if s.worker.Idle? && s.queue != [] {
      assert s.queue == [s.queue[0]] + s'.queue;
      assert s.queue[..i + 1] == [s.queue[0]] + s'.queue[..i];
      assert TeardownAt(s.queue, n, i + 1);
    } else {
      assert TeardownAt(s.queue, n, i);
    }
  }

  /** A call puts a task at the end. */
  lemma TeardownWasThere(s: State, e: Event, n: Name, i: nat)
    requires Actor(e) != TheWorker && TeardownAt(Next(s, e).queue, n, i)
    ensures (exists j :: TeardownAt(s.queue, n, j)) || (TaskFor(n) !in s.queue && Announced(s, TeardownOf(n)))
  {
    var s' := Next(s, e);
    WorkerUntouched(s, e);
    var more := s'.queue[|s.queue|..];
    assert s'.queue == s.queue + more;
    if TaskFor(n) in s.queue {
      TeardownAppended(s.queue, more, n, i);
    } else if i < |s.queue| {
      assert s'.queue[..i] == s.queue[..i];
      assert TeardownAt(s.queue, n, i);
    } else {
      assert e.CallTurn? && s.calls[e.id] == ApiCall(TeardownOf(n), AEnqueue);
    }
  }

  lemma TeardownStaysBehind(s: State, e: Event, n: Name)
    requires Secured(s, n) && !AsksUninstall(e, n) && !Begins(Next(s, e), n)
    ensures !TeardownFirst(Next(s, e), n)
  {
    var s' := Next(s, e);
    if AtCheck(s', n) {
      return;
    }
    if AtCheck(s, n) {
      WorkerUntouched(s, e);
      return;
    }
    if Announced(s', TeardownOf(n)) {
      NoTeardownAnnounced(s, e, n);
      WaitingKept(s, e, n);
      assert TaskFor(n) in s.queue;
    }
    if i: nat :| TeardownAt(s'.queue, n, i) {
      if Actor(e) == TheWorker {
        TeardownWasBehind(s, e.out, n, i);
      } else {
        TeardownWasThere(s, e, n, i);
      }
    }
  }

  /** Whatever happens short of a new uninstallation request, the reinstallation stays secured until it begins. */
  lemma {:induction false} SecuredKept(s: State, e: Event, n: Name)
    requires Sound(s) && Secured(s, n) && !AsksUninstall(e, n)
    ensures Secured(Next(s, e), n) || Begins(Next(s, e), n)
  {
    if !Begins(Next(s, e), n) {
      EventKeepsSaying(s, e, n);
      WaitingKept(s, e, n);
      WorkerStaysOff(s, e, n);
      TeardownStaysBehind(s, e, n);
    }
  }

  ghost predicate NoUninstallAsked(events: seq<Event>, n: Name) {
    forall e :: e in events ==> !AsksUninstall(e, n)
  }

  ghost predicate BeginsAlong(s: State, events: seq<Event>, n: Name) {
    exists i :: 0 <= i <= |events| && Begins(Run(s, events[..i]), n)
  }

  /** In every schedule the reinstallation is still secured, unless it has begun. */
  lemma {:induction false} SecuredUntilItBegins(s: State, events: seq<Event>, n: Name)
    requires Sound(s) && Secured(s, n) && NoUninstallAsked(events, n)
    ensures Secured(Run(s, events), n) || BeginsAlong(s, events, n)
    decreases |events|
  {
    if events != [] {
      var front, e := events[..|events| - 1], events[|events| - 1];
      SecuredUntilItBegins(s, front, n);
      if BeginsAlong(s, front, n) {
        var i :| 0 <= i <= |front| && Begins(Run(s, front[..i]), n);
        assert front[..i] == events[..i];
      } else {
        EveryRunIsSound(s, front);
        assert e in events;
        SecuredKept(Run(s, front), e, n);
        assert events[..|events|] == events;
      }
    }
  }

  ghost predicate BeginsAt(run: nat -> State, n: Name, k: nat) {
    Begins(run(k), n)
  }

  ghost predicate AskedAt(events: nat -> Event, n: Name, k: nat) {
    AsksUninstall(events(k), n)
  }

  lemma {:induction false} SecuredAt(run: nat -> State, events: nat -> Event, n: Name, i: nat)
    requires FairRun(run, events) && Secured(run(0), n)
    requires forall k: nat :: k < i ==> !AskedAt(events, n, k)
    requires forall k: nat :: k <= i ==> !BeginsAt(run, n, k)
    ensures Secured(run(i), n)
  {
    if i > 0 {
      SecuredAt(run, events, n, i - 1);
      SoundAt(run, events, i - 1);
      var s, e := run(i - 1), events(i - 1);
      assert !AskedAt(events, n, i - 1) && !BeginsAt(run, n, i);
      SecuredKept(s, e, n);
      assert StepsAt(run, events, i - 1);
    }
  }

  /** And in every fair run it does begin, unless an uninstallation is asked for first. */
  lemma SecuredReinstallBegins(run: nat -> State, events: nat -> Event, n: Name)
    requires FairRun(run, events) && Secured(run(0), n)
    ensures exists k: nat :: BeginsAt(run, n, k) || AskedAt(events, n, k)
  {
    var i := 0;
    if !AtCheck(run(0), n) {
      i := TaskIsPicked(run, events, TaskFor(n), 0);
    }
    var k := RunnerTakesTurn(run, events, i);
    assert StandsStill(run(i), run(k));
    if forall l: nat :: l <= k ==> !BeginsAt(run, n, l) && !AskedAt(events, n, l) {
      SecuredAt(run, events, n, k);
      assert StepsAt(run, events, k);
      assert BeginsAt(run, n, k + 1);
    }
  }

  // ---- where the condition fails ----

  /** The request has been written, and no second one is still to be written. */
  ghost predicate Requested(s: State, n: Name) {
    && Sound(s) && Says(s, n) && !Begins(s, n) && NoOtherRequest(s, n)
  }

  ghost predicate NoOtherRequest(s: State, n: Name) {
    forall id :: id in s.calls && s.calls[id].ApiCall? && s.calls[id].task == TaskFor(n) ==> s.calls[id].api.AEnqueue?
  }

  predicate AsksReinstall(e: Event, n: Name) {
    e.Spawn? && e.call.ApiCall? && e.call.task == TaskFor(n)
  }

  /** The status has been overwritten, and no request will write it again. */
  ghost predicate Lost(s: State, n: Name) {
    !Says(s, n) && !Begins(s, n) && NoOtherRequest(s, n)
  }

  lemma RequestsComeFromOutside(s: State, e: Event, n: Name)
    requires NoOtherRequest(s, n) && !AsksReinstall(e, n)
    ensures NoOtherRequest(Next(s, e), n)
  {
    OthersUntouched(s, e);
  }

  /** Short of a new request, a lost reinstallation stays lost: the worker drops its task. */
  lemma {:induction false} LostKept(s: State, e: Event, n: Name)
    requires WorkerOk(s) && Lost(s, n) && !AsksReinstall(e, n)
    ensures Lost(Next(s, e), n)
  {
    RequestsComeFromOutside(s, e, n);
    OthersUntouched(s, e);
    assert !Begins(Next(s, e), n);
    if e.WorkerTurn? && Says(Next(s, e), n) {
      WorkerNeverQueues(s, e.out, n, Reinstall);
    } else if e.CallTurn? && e.id in s.calls && Says(Next(s, e), n) {
      var task := CallAnnounces(s, e.id, e.out, n, Reinstall);
    }
  }

  /** What an event does to a requested reinstallation: it is lost, or still requested, unless it begins. */
  lemma RequestedOrLost(s: State, e: Event, n: Name)
    requires Requested(s, n) && !AsksReinstall(e, n) && !Begins(Next(s, e), n)
    ensures Requested(Next(s, e), n) || Lost(Next(s, e), n)
  {
    SoundKept(s, e);
    RequestsComeFromOutside(s, e, n);
  }

  /** The schedule loses the reinstallation before it begins, without any new request for the app. */
  ghost predicate Drops(s: State, events: seq<Event>, n: Name) {
    NoRequestFor(events, n) && Lost(Run(s, events), n) && !BeginsAlong(s, events, n)
  }

  lemma DropsLater(s: State, e: Event, events: seq<Event>, n: Name)
    requires !Begins(s, n) && Drops(Next(s, e), events, n)
    requires e.Spawn? && e.call.ApiCall? ==> AppOf(e.call) != n
    ensures Drops(s, [e] + events, n)
  {
    var all := [e] + events;
    RunCons(s, e, events);
    forall i | 0 <= i <= |all| ensures !Begins(Run(s, all[..i]), n) {
      if i > 0 {
        assert all[..i] == [e] + events[..i - 1];
        RunCons(s, e, events[..i - 1]);
      }
    }
  }

  lemma DropsNow(s: State, n: Name)
    requires Lost(s, n)
    ensures Drops(s, [], n)
  {
  }

  // A call at work.

  function OverwriterRank(call: Call): nat {
    match call
    case StartCall(_, pc) => StartRank(pc)
    case PauseCall(_, pc) => if pc.PMark? then 0 else 1
    case StopCall(_, pc) => if pc.TMark? then 0 else if pc.TStop? then 1 else 2
    case ApiCall(_, pc) => if pc.AWrite? then 0 else 1
  }

  /** An answer that keeps the call going. */
  function GoOn(call: Call): Outcome {
    if call.StartCall? && call.start.SInspect? then Observed(Exited) else Success
  }

  lemma OverwriterTurn(s: State, id: nat, n: Name)
    requires Requested(s, n) && id in s.calls && Overwrites(s.calls[id], n)
    ensures var s' := CallNext(s, id, GoOn(s.calls[id]));
      && !Begins(s', n)
      && (Says(s', n) ==>
            && id in s'.calls && Overwrites(s'.calls[id], n)
            && OverwriterRank(s'.calls[id]) < OverwriterRank(s.calls[id]))
  {
    WorkerUntouched(s, CallTurn(id, GoOn(s.calls[id])));
  }

  lemma {:induction false} OverwriterDrops(s: State, id: nat, n: Name) returns (events: seq<Event>)
    requires Requested(s, n) && id in s.calls && Overwrites(s.calls[id], n)
    ensures Drops(s, events, n)
    decreases OverwriterRank(s.calls[id])
  {
    var e := CallTurn(id, GoOn(s.calls[id]));
    var s' := Next(s, e);
    OverwriterTurn(s, id, n);
    RequestedOrLost(s, e, n);
    if Says(s', n) {
      events := OverwriterDrops(s', id, n);
    } else {
      events := [];
      DropsNow(s', n);
    }
    DropsLater(s, e, events, n);
    events := [e] + events;
  }

  // The worker at work.

  function RunnerTurn(s: State): Event {
    match Runner(s)
    case TheWorker => WorkerTurn(Success)
    case TheCall(id) => CallTurn(id, Success)
  }

  lemma WorkerOverwritesOn(s: State, n: Name)
    requires Requested(s, n) && WorkerOverwrites(s, n)
    ensures !Begins(Next(s, RunnerTurn(s)), n)
    ensures Says(Next(s, RunnerTurn(s)), n) ==> WorkerOverwrites(Next(s, RunnerTurn(s)), n)
  {
    OthersUntouched(s, RunnerTurn(s));
  }

  lemma {:induction false} WorkerDrops(s: State, n: Name) returns (events: seq<Event>)
    requires Requested(s, n) && WorkerOverwrites(s, n)
    ensures Drops(s, events, n)
    decreases TurnsLeft(s), Delay(s)
  {
    var e := RunnerTurn(s);
    var s' := Next(s, e);
    WorkerOverwritesOn(s, n);
    RunnerAdvances(s, e);
    RequestedOrLost(s, e, n);
    if Says(s', n) {
      events := WorkerDrops(s', n);
    } else {
      events := [];
      DropsNow(s', n);
    }
    DropsLater(s, e, events, n);
    events := [e] + events;
  }

  // A teardown in front.

  /** The worker gets to the teardown without passing the reinstallation. */
  lemma TeardownComesUp(s: State, n: Name, i: nat)
    requires Requested(s, n) && !WorkerOverwrites(s, n) && !AtCheck(s, n) && TeardownAt(s.queue, n, i)
    ensures var s' := Next(s, RunnerTurn(s));
      && !Begins(s', n) && !AtCheck(s', n)
      && (Says(s', n) && !WorkerOverwrites(s', n) ==>
            if s.worker.Idle? then i > 0 && TeardownAt(s'.queue, n, i - 1) else TeardownAt(s'.queue, n, i))
  {
    var s' := Next(s, RunnerTurn(s));
    RunnerAdvances(s, RunnerTurn(s));
    OthersUntouched(s, RunnerTurn(s));
    if s.worker.Idle? && i > 0 {
      assert s.queue[..i] == [s.queue[0]] + s'.queue[..i - 1];
      assert s.queue[0] in s.queue[..i];
    }
  }

  lemma {:induction false} TeardownDrops(s: State, n: Name, i: nat) returns (events: seq<Event>)
    requires Requested(s, n) && !AtCheck(s, n) && TeardownAt(s.queue, n, i)
    ensures Drops(s, events, n)
    decreases i, s.worker.Busy?, TurnsLeft(s), Delay(s)
  {
    if WorkerOverwrites(s, n) {
      events := WorkerDrops(s, n);
      return;
    }
    var e := RunnerTurn(s);
    var s' := Next(s, e);
    TeardownComesUp(s, n, i);
    RunnerAdvances(s, e);
    RequestedOrLost(s, e, n);
    if !Says(s', n) {
      events := [];
      DropsNow(s', n);
    } else if WorkerOverwrites(s', n) {
      events := WorkerDrops(s', n);
    } else {
      events := TeardownDrops(s', n, if s.worker.Idle? then i - 1 else i);
    }
    DropsLater(s, e, events, n);
    events := [e] + events;
  }

  // Requests that are still to be written.

  /** Something at work, or already queued, that can come between. */
  ghost predicate Threatened(s: State, n: Name) {
    || (exists id :: id in s.calls && Overwrites(s.calls[id], n))
    || WorkerOverwrites(s, n)
    || (!AtCheck(s, n) && exists i :: TeardownAt(s.queue, n, i))
  }

  lemma ThreatDrops(s: State, n: Name) returns (events: seq<Event>)
    requires Requested(s, n) && Threatened(s, n)
    ensures Drops(s, events, n)
  {
    if id :| id in s.calls && Overwrites(s.calls[id], n) {
      events := OverwriterDrops(s, id, n);
    } else if WorkerOverwrites(s, n) {
      events := WorkerDrops(s, n);
    } else {
      var i: nat :| TeardownAt(s.queue, n, i);
      events := TeardownDrops(s, n, i);
    }
  }

  ghost function RequestsAt(s: State, n: Name, api: ApiPc): set<nat> {
    set id | id in s.calls && s.calls[id] == ApiCall(TaskFor(n), api)
  }

  /** A second request asks for the same again; what threatens the first one stays. */
  lemma RequestTurn(s: State, id: nat, n: Name)
    requires Says(s, n) && !Begins(s, n) && Threatened(s, n)
    requires id in s.calls && s.calls[id].ApiCall? && s.calls[id].task == TaskFor(n) && !s.calls[id].api.AEnqueue?
    ensures var s' := CallNext(s, id, Success);
      && Says(s', n) && !Begins(s', n) && Threatened(s', n)
      && s'.calls == s.calls[id := ApiCall(TaskFor(n), if s.calls[id].api.ACheck? then AWrite else AEnqueue)]
  {
    var s' := CallNext(s, id, Success);
    assert s'.worker == s.worker && s'.queue == s.queue;
    if other :| other in s.calls && Overwrites(s.calls[other], n) {
      assert other in s'.calls && s'.calls[other] == s.calls[other];
    }
  }

  lemma FewerRequests(s: State, s': State, n: Name, id: nat)
    requires id in RequestsAt(s, n, ACheck) || id in RequestsAt(s, n, AWrite)
    requires s'.calls == s.calls[id := ApiCall(TaskFor(n), if s.calls[id].api.ACheck? then AWrite else AEnqueue)]
    ensures |RequestsAt(s', n, ACheck)| < |RequestsAt(s, n, ACheck)|
      || (|RequestsAt(s', n, ACheck)| == |RequestsAt(s, n, ACheck)|
          && |RequestsAt(s', n, AWrite)| < |RequestsAt(s, n, AWrite)|)
  {
    if id in RequestsAt(s, n, ACheck) {
      assert RequestsAt(s', n, ACheck) == RequestsAt(s, n, ACheck) - {id};
    } else {
      assert RequestsAt(s', n, ACheck) == RequestsAt(s, n, ACheck);
      assert RequestsAt(s', n, AWrite) == RequestsAt(s, n, AWrite) - {id};
    }
  }

  /** Second requests are written first; the threat is still there. */
  lemma {:induction false} WrittenThenDropped(s: State, n: Name) returns (events: seq<Event>)
    requires Sound(s) && Says(s, n) && !Begins(s, n) && Threatened(s, n)
    ensures Drops(s, events, n)
    decreases |RequestsAt(s, n, ACheck)|, |RequestsAt(s, n, AWrite)|
  {
    if id :| id in RequestsAt(s, n, ACheck) || id in RequestsAt(s, n, AWrite) {
      var e := CallTurn(id, Success);
      RequestTurn(s, id, n);
      SoundKept(s, e);
      var s' := Next(s, e);
      FewerRequests(s, s', n, id);
      events := WrittenThenDropped(s', n);
      DropsLater(s, e, events, n);
      events := [e] + events;
    } else {
      forall id | id in s.calls && s.calls[id].ApiCall? && s.calls[id].task == TaskFor(n)
        ensures s.calls[id].api.AEnqueue?
      {
        assert id !in RequestsAt(s, n, ACheck) && id !in RequestsAt(s, n, AWrite);
      }
      events := ThreatDrops(s, n);
    }
  }

  /** Whatever can come between does so in some schedule. */
  lemma DisturbedDrops(s: State, n: Name) returns (events: seq<Event>)
    requires Sound(s) && Says(s, n) && !Begins(s, n) && !Undisturbed(s, n)
    ensures Drops(s, events, n)
  {
    if Threatened(s, n) {
      events := WrittenThenDropped(s, n);
    } else {
      var id :| id in s.calls && s.calls[id] == ApiCall(TeardownOf(n), AEnqueue);
      var e := CallTurn(id, Success);
      var s' := Next(s, e);
      assert s'.queue == s.queue + [TeardownOf(n)] && s'.worker == s.worker && s'.rows == s.rows;
      assert s'.queue[..|s.queue|] == s.queue;
      assert TeardownAt(s'.queue, n, |s.queue|);
      SoundKept(s, e);
      events := WrittenThenDropped(s', n);
      DropsLater(s, e, events, n);
      events := [e] + events;
    }
  }

  /**
    An accepted reinstallation is carried out, whatever the schedule, exactly when at the time of its request no
    lifecycle call is past its check, no uninstallation is asked for or queued in front, and the worker is not
    already at work on the app.
   */
  lemma ReinstallGoesAheadExactlyWhen(s: State, n: Name)
    requires Sound(s) && Says(s, n) && !Begins(s, n) && Waiting(s, n)
    ensures Undisturbed(s, n) <==> forall events :: !Drops(s, events, n)
  {
    if Undisturbed(s, n) {
      forall events ensures !Drops(s, events, n) {
        if NoRequestFor(events, n) {
          forall e | e in events ensures !AsksUninstall(e, n) {}
          SecuredUntilItBegins(s, events, n);
        }
      }
    } else {
      var events := DisturbedDrops(s, n);
    }
  }

  /** A lost reinstallation never begins, in any continuation without a new request. */
  lemma {:induction false} LostForGood(s: State, events: seq<Event>, n: Name)
    requires Sound(s) && Lost(s, n) && NoRequestFor(events, n)
    ensures Lost(Run(s, events), n)
    decreases |events|
  {
    if events != [] {
      LostForGood(s, events[..|events| - 1], n);
      EveryRunIsSound(s, events[..|events| - 1]);
      assert events[|events| - 1] in events;
      LostKept(Run(s, events[..|events| - 1]), events[|events| - 1], n);
    }
  }
}
