/**
  Liveness of the installation queue. Once the API calls have stopped, every fair schedule drains the queue,
  whatever revives, pauses and stops run beside the worker; and an accepted uninstallation ends in a deleted row,
  whatever else is requested beside it.
 */
module InstallDrain {
  import opened AppStatus
  import opened InstallProtocol
  import opened InstallSafety

  /** No API call is running. */
  ghost predicate Quiet(s: State) {
    forall id :: id in s.calls ==> !s.calls[id].ApiCall?
  }

  predicate QuietEvent(e: Event) {
    e.Spawn? ==> !e.call.ApiCall?
  }

  predicate Drained(s: State) {
    s.queue == [] && s.worker.Idle?
  }

  // ---- the measure ----

  function PcRank(pc: WorkerPc): nat {
    match pc
    case WAskLock => 20
    case WAwaitLock => 19
    case WLoadRow => 18
    case WCheckFrozen => 17
    case WUnfreeze => 16
    case WMarkUnfrozen => 15
    case WBegin => 14
    case WStopLoad => 13
    case WStopUnfreeze => 12
    case WStopRun => 11
    case WStopMark => 10
    case WDownLoad => 9
    case WDownRun => 8
    case WDownMark => 7
    case WObtain => 6
    case WCreate => 5
    case WFinish => 4
    case WFail => 3
    case WDeleteRow => 2
    case WCleanup => 1
  }

  /** How many turns the worker can still take before its task ends. */
  function TurnsLeft(s: State): nat {
    if s.worker.Idle? then 0 else PcRank(s.worker.pc)
  }

  function StartRank(pc: StartPc): nat {
    match pc
    case SAskLock => 10
    case SAwaitLock => 9
    case SLoadRow => 8
    case SInspect(_) => 7
    case SUnpause => 6
    case SUp => 5
    case SReset => 4
    case SUpAgain => 3
    case SMark => 2
    case SUnlock => 1
  }

  function PartyRank(calls: map<nat, Call>, p: Party): nat {
    if p.TheCall? && p.id in calls && calls[p.id].StartCall? then StartRank(calls[p.id].start) else 0
  }

  /** The turns left to the parties in front of the worker. */
  function Ahead(q: seq<Party>, calls: map<nat, Call>): nat {
    if q == [] || q[0] == TheWorker then 0 else PartyRank(calls, q[0]) + Ahead(q[1..], calls)
  }

  predicate AwaitsLock(s: State) {
    s.worker.Busy? && s.worker.pc.WAwaitLock?
  }

  function Delay(s: State): nat {
    if AwaitsLock(s) then Ahead(LockQueue(s, s.worker.task.name), s.calls) else 0
  }

  /** The party whose turn brings the queue closer to being drained. */
  function Runner(s: State): Party {
    if AwaitsLock(s) && LockQueue(s, s.worker.task.name) != [] then LockQueue(s, s.worker.task.name)[0]
    else TheWorker
  }

  predicate Turn(e: Event, p: Party) {
    !e.Spawn? && Actor(e) == p
  }

  predicate Enabled(s: State, p: Party) {
    match p
    case TheWorker =>
      if s.worker.Idle? then s.queue != []
      else s.worker.pc.WAwaitLock? ==> Holds(s, s.worker.task.name, TheWorker)
    case TheCall(id) =>
      id in s.calls
      && (s.calls[id].StartCall? && s.calls[id].start.SAwaitLock? ==> Holds(s, s.calls[id].name, p))
  }

  // ---- one event ----

  lemma QuietKept(s: State, e: Event)
    requires Quiet(s) && QuietEvent(e)
    ensures Quiet(Next(s, e))
  {
    OthersUntouched(s, e);
  }

  lemma RunnerIsEnabled(s: State)
    requires Sound(s) && !Drained(s)
    ensures Enabled(s, Runner(s))
  {
    if AwaitsLock(s) {
      var n := s.worker.task.name;
      assert LockFair(s, n) && Queued(s, n, TheWorker);
      assert Runner(s) in LockQueue(s, n);
    }
  }

  lemma {:induction false} AheadFrame(q: seq<Party>, calls: map<nat, Call>, calls': map<nat, Call>)
    requires forall p :: p in q ==> PartyRank(calls, p) == PartyRank(calls', p)
    ensures Ahead(q, calls) == Ahead(q, calls')
  {
    if q != [] && q[0] != TheWorker {
      AheadFrame(q[1..], calls, calls');
    }
  }

  lemma {:induction false} AheadAppend(q: seq<Party>, p: Party, calls: map<nat, Call>)
    requires TheWorker in q
    ensures Ahead(q + [p], calls) == Ahead(q, calls)
  {
    if q[0] != TheWorker {
      assert (q + [p])[1..] == q[1..] + [p];
      AheadAppend(q[1..], p, calls);
    }
  }

  lemma TurnLowersRank(kind: TaskKind, pc: WorkerPc, row: Row, holds: bool, out: Outcome)
    requires PcFits(kind, pc) && (pc.WAwaitLock? ==> holds)
    ensures
      match WorkerTurnOf(kind, pc, row, holds, out)
      case Stay => false
      case GoTo(pc', _) => PcRank(pc') < PcRank(pc)
      case Finish(_) => true
  {
  }

  /** Other parties leave the worker alone and at most append to the queue; only API calls do even that. */
  lemma WorkerUntouched(s: State, e: Event)
    requires Actor(e) != TheWorker
    ensures Next(s, e).worker == s.worker && s.queue <= Next(s, e).queue
    ensures Next(s, e).queue != s.queue ==> e.CallTurn? && e.id in s.calls && s.calls[e.id].ApiCall?
  {
    OthersUntouched(s, e);
  }

  /** A revive at the head of the lock queue gets closer to the end of its turn under the lock. */
  lemma HeadAdvances(s: State, id: nat, out: Outcome)
    requires Sound(s) && AwaitsLock(s) && Runner(s) == TheCall(id)
    ensures Delay(CallNext(s, id, out)) < Delay(s) && CallNext(s, id, out).queue == s.queue
  {
    var n, s' := s.worker.task.name, CallNext(s, id, out);
    var q, q' := LockQueue(s, n), LockQueue(s', n);
    assert LockFair(s, n) && Queued(s, n, TheWorker);
    assert q[0] == TheCall(id);
    assert Queued(s, n, TheCall(id));
    WorkerUntouched(s, CallTurn(id, out));
    var call := s.calls[id];
    CallTurnInLock(call, RowOf(s, n), Holds(s, n, TheCall(id)), out);
    forall p | p in q[1..] ensures PartyRank(s.calls, p) == PartyRank(s'.calls, p) {
      assert p != TheCall(id);
    }
    AheadFrame(q[1..], s.calls, s'.calls);
  }

  /** Any other party's turn leaves the delay, and the runner, as they are. */
  lemma BystanderKeepsDelay(s: State, e: Event)
    requires Sound(s) && AwaitsLock(s) && Actor(e) != TheWorker && !Turn(e, Runner(s))
    ensures Delay(Next(s, e)) == Delay(s) && Runner(Next(s, e)) == Runner(s)
  {
    var n, s' := s.worker.task.name, Next(s, e);
    var q, q' := LockQueue(s, n), LockQueue(s', n);
    var id := Actor(e).id;
    assert LockFair(s, n) && Queued(s, n, TheWorker);
    assert TheWorker in q;
    WorkerUntouched(s, e);
    OthersUntouched(s, e);
    if e.CallTurn? {
      CallLockMove(s, id, e.out, n);
    }
    forall p | p in q ensures PartyRank(s.calls, p) == PartyRank(s'.calls, p) {
      if p == TheCall(id) {
        assert Queued(s, n, p);
        assert e.Spawn? || !Holds(s, n, p);
      }
    }
    AheadFrame(q, s.calls, s'.calls);
    if q' != q {
      AheadAppend(q, TheCall(id), s'.calls);
    }
  }

  /** The next task is picked up, or the current one gets closer to its end. */
  ghost predicate Advanced(s: State, s': State) {
    if s.worker.Idle? then
      s.queue != [] && s'.worker == Busy(s.queue[0], FirstPc(s.queue[0].kind)) && s'.queue == s.queue[1..]
    else
      && s'.queue == s.queue
      && (s'.worker.Idle? || s'.worker.task == s.worker.task)
      && (TurnsLeft(s') < TurnsLeft(s) || (TurnsLeft(s') == TurnsLeft(s) && Delay(s') < Delay(s)))
  }

  lemma WorkerTurnAdvances(s: State, out: Outcome)
    requires Sound(s) && !Drained(s) && Runner(s) == TheWorker
    ensures Advanced(s, WorkerNext(s, out))
  {
    RunnerIsEnabled(s);
    if s.worker.Busy? {
      var task := s.worker.task;
      TurnLowersRank(task.kind, s.worker.pc, RowOf(s, task.name), Holds(s, task.name, TheWorker), out);
    }
  }

  /** A turn of the runner brings the end of the task closer. */
  lemma RunnerAdvances(s: State, e: Event)
    requires Sound(s) && !Drained(s) && Turn(e, Runner(s))
    ensures Advanced(s, Next(s, e))
  {
    match e
    case WorkerTurn(out) => WorkerTurnAdvances(s, out);
    case CallTurn(id, out) =>
      WorkerUntouched(s, e);
      HeadAdvances(s, id, out);
  }

  /** s' is as far from the end of the task as s, with the same runner; tasks may have been queued behind. */
  ghost predicate StandsStill(s: State, s': State) {
    && s'.worker == s.worker && s.queue <= s'.queue
    && Delay(s') == Delay(s) && Runner(s') == Runner(s) && !Drained(s')
  }

  /** Nobody else can push the end away or take the turn from the runner. */
  lemma BystandersDoNotHinder(s: State, e: Event)
    requires Sound(s) && !Drained(s) && !Turn(e, Runner(s))
    ensures StandsStill(s, Next(s, e))
  {
    if Actor(e) != TheWorker {
      WorkerUntouched(s, e);
      if AwaitsLock(s) {
        BystanderKeepsDelay(s, e);
      }
    } else {
      assert AwaitsLock(s);
      assert LockFair(s, s.worker.task.name) && Queued(s, s.worker.task.name, TheWorker);
      assert Next(s, e) == s;
    }
  }

  // ---- whole runs ----

  ghost predicate StepsAt(run: nat -> State, events: nat -> Event, i: nat) {
    run(i + 1) == Next(run(i), events(i))
  }

  ghost predicate IsRun(run: nat -> State, events: nat -> Event) {
    forall i: nat :: StepsAt(run, events, i)
  }

  ghost predicate TakesTurn(events: nat -> Event, p: Party, from: nat) {
    exists j: nat :: j >= from && Turn(events(j), p)
  }

  ghost predicate AlwaysEnabled(run: nat -> State, p: Party, from: nat) {
    forall j: nat :: j >= from ==> Enabled(run(j), p)
  }

  /** Weak fairness: a party that stays enabled eventually takes a turn. */
  ghost predicate Fair(run: nat -> State, events: nat -> Event) {
    forall p, i: nat :: AlwaysEnabled(run, p, i) ==> TakesTurn(events, p, i)
  }

  /** A fair run of any calls at all, API calls included. */
  ghost predicate FairRun(run: nat -> State, events: nat -> Event) {
    IsRun(run, events) && Fair(run, events) && Sound(run(0))
  }

  lemma {:induction false} SoundAt(run: nat -> State, events: nat -> Event, i: nat)
    requires FairRun(run, events)
    ensures Sound(run(i))
  {
    if i > 0 {
      SoundAt(run, events, i - 1);
      assert StepsAt(run, events, i - 1);
      SoundKept(run(i - 1), events(i - 1));
    }
  }

  /** Until the runner takes its turn, the worker stays where it is. */
  lemma {:induction false} Waits(run: nat -> State, events: nat -> Event, i: nat, j: nat)
    requires FairRun(run, events) && !Drained(run(i)) && i <= j
    requires forall k: nat :: i <= k < j ==> !Turn(events(k), Runner(run(i)))
    ensures StandsStill(run(i), run(j))
    decreases j
  {
    if i < j {
      Waits(run, events, i, j - 1);
      SoundAt(run, events, j - 1);
      assert StepsAt(run, events, j - 1);
      BystandersDoNotHinder(run(j - 1), events(j - 1));
    }
  }

  lemma FirstTurn(events: nat -> Event, p: Party, i: nat, j: nat) returns (k: nat)
    requires i <= j && Turn(events(j), p)
    ensures i <= k <= j && Turn(events(k), p)
    ensures forall l: nat :: i <= l < k ==> !Turn(events(l), p)
  {
    k := i;
    while !Turn(events(k), p)
      invariant i <= k <= j
      invariant forall l: nat :: i <= l < k ==> !Turn(events(l), p)
      decreases j - k
    {
      k := k + 1;
    }
  }

  ghost predicate WaitsFrom(run: nat -> State, i: nat, k: nat) {
    forall l: nat :: i <= l <= k ==> StandsStill(run(i), run(l))
  }

  /** The runner does take its turn, and nothing happens to the worker before. */
  lemma RunnerTakesTurn(run: nat -> State, events: nat -> Event, i: nat) returns (k: nat)
    requires FairRun(run, events) && !Drained(run(i))
    ensures k >= i && WaitsFrom(run, i, k) && Turn(events(k), Runner(run(i))) && Advanced(run(k), run(k + 1))
  {
    var p := Runner(run(i));
    if !TakesTurn(events, p, i) {
      forall j: nat | j >= i ensures Enabled(run(j), p) {
        forall l: nat | i <= l < j ensures !Turn(events(l), p) {}
        Waits(run, events, i, j);
        SoundAt(run, events, j);
        RunnerIsEnabled(run(j));
      }
    }
    var j: nat :| j >= i && Turn(events(j), p);
    k := FirstTurn(events, p, i, j);
    forall l: nat | i <= l <= k ensures StandsStill(run(i), run(l)) {
      Waits(run, events, i, l);
    }
    assert StandsStill(run(i), run(k));
    SoundAt(run, events, k);
    RunnerAdvances(run(k), events(k));
    assert StepsAt(run, events, k);
  }

  ghost predicate WorksOn(run: nat -> State, t: Task, i: nat, j: nat) {
    forall l: nat :: i <= l < j ==> run(l).worker.Busy? && run(l).worker.task == t
  }

  /** The current task ends; tasks queued meanwhile are behind those that were queued. */
  lemma {:induction false} FinishesTask(run: nat -> State, events: nat -> Event, i: nat) returns (j: nat)
    requires FairRun(run, events) && run(i).worker.Busy?
    ensures j > i && run(j).worker.Idle? && run(i).queue <= run(j).queue && WorksOn(run, run(i).worker.task, i, j)
    decreases TurnsLeft(run(i)), Delay(run(i))
  {
    var k := RunnerTakesTurn(run, events, i);
    assert StandsStill(run(i), run(k));
    forall l: nat | i <= l <= k ensures run(l).worker == run(i).worker {
      assert StandsStill(run(i), run(l));
    }
    j := k + 1;
    if run(j).worker.Busy? {
      j := FinishesTask(run, events, j);
    }
  }

  /** The next task is picked up. */
  lemma PicksTask(run: nat -> State, events: nat -> Event, i: nat) returns (j: nat)
    requires FairRun(run, events) && run(i).worker.Idle? && run(i).queue != []
    ensures var t := run(i).queue[0];
      j > i && run(j).worker == Busy(t, FirstPc(t.kind)) && run(i).queue[1..] <= run(j).queue
  {
    var k := RunnerTakesTurn(run, events, i);
    assert StandsStill(run(i), run(k));
    j := k + 1;
  }

  /** Every task in the queue is picked up, whatever is queued behind it meanwhile. */
  lemma {:induction false} ReachesTask(run: nat -> State, events: nat -> Event, i: nat, t: Task, at: nat)
      returns (j: nat)
    requires FairRun(run, events) && at < |run(i).queue| && run(i).queue[at] == t
    ensures j >= i && run(j).worker == Busy(t, FirstPc(t.kind))
    decreases at, run(i).worker.Busy?
  {
    if run(i).worker.Busy? {
      var k := FinishesTask(run, events, i);
      j := ReachesTask(run, events, k, t, at);
    } else {
      j := PicksTask(run, events, i);
      if at > 0 {
        assert run(i).queue[1..][at - 1] == t;
        j := ReachesTask(run, events, j, t, at - 1);
      }
    }
  }

  // ---- without further API calls ----

  ghost predicate AllQuiet(events: nat -> Event) {
    forall i: nat :: QuietEvent(events(i))
  }

  ghost predicate QuietRun(run: nat -> State, events: nat -> Event) {
    FairRun(run, events) && AllQuiet(events) && Quiet(run(0))
  }

  lemma {:induction false} QuietAt(run: nat -> State, events: nat -> Event, i: nat)
    requires QuietRun(run, events)
    ensures Quiet(run(i))
  {
    if i > 0 {
      QuietAt(run, events, i - 1);
      assert QuietEvent(events(i - 1)) && StepsAt(run, events, i - 1);
      QuietKept(run(i - 1), events(i - 1));
    }
  }

  lemma {:induction false} QueueNeverGrows(run: nat -> State, events: nat -> Event, i: nat, j: nat)
    requires QuietRun(run, events) && i <= j
    ensures |run(j).queue| <= |run(i).queue| && (Drained(run(i)) ==> Drained(run(j)))
    decreases j
  {
    if i < j {
      QueueNeverGrows(run, events, i, j - 1);
      QuietAt(run, events, j - 1);
      assert StepsAt(run, events, j - 1);
      if Actor(events(j - 1)) != TheWorker {
        WorkerUntouched(run(j - 1), events(j - 1));
      }
    }
  }

  lemma {:induction false} ReachesDrained(run: nat -> State, events: nat -> Event, i: nat) returns (k: nat)
    requires QuietRun(run, events)
    ensures k >= i && Drained(run(k))
    decreases |run(i).queue|, run(i).worker.Busy?
  {
    k := i;
    if run(i).worker.Busy? {
      var j := FinishesTask(run, events, i);
      QueueNeverGrows(run, events, i, j);
      k := ReachesDrained(run, events, j);
    } else if run(i).queue != [] {
      var l := RunnerTakesTurn(run, events, i);
      assert StandsStill(run(i), run(l));
      QueueNeverGrows(run, events, i, l);
      k := ReachesDrained(run, events, l + 1);
    }
  }

  lemma {:induction false} InvAt(run: nat -> State, events: nat -> Event, resumed: set<Name>, i: nat)
    requires IsRun(run, events) && Inv(run(0), resumed)
    ensures Inv(run(i), resumed)
  {
    if i > 0 {
      InvAt(run, events, resumed, i - 1);
      assert StepsAt(run, events, i - 1);
      InvKept(run(i - 1), events(i - 1), resumed);
    }
  }

  /** None of the six statuses that promise work. */
  predicate Settled(status: Status) {
    status !in {InstallationQueued, Installing, UninstallationQueued, Uninstalling, ReinstallationQueued, Reinstalling}
  }

  /** With nothing queued, no call announcing anything and an idle worker, every status is a settled one. */
  lemma DrainedIsSettled(s: State, resumed: set<Name>, n: Name)
    requires Inv(s, resumed) && Quiet(s) && Drained(s)
    ensures n in s.rows ==> Settled(s.rows[n])
  {
    assert Backed(s, resumed, n);
  }

  ghost predicate DrainedFrom(run: nat -> State, k: nat) {
    forall j: nat :: j >= k ==> Drained(run(j))
  }

  ghost predicate SettledFrom(run: nat -> State, k: nat) {
    forall j: nat, n :: j >= k && n in run(j).rows ==> Settled(run(j).rows[n])
  }

  /** After the API calls stop, every fair run drains the queue, and no transitional status is ever seen again. */
  lemma QueueDrains(run: nat -> State, events: nat -> Event, resumed: set<Name>)
    requires QuietRun(run, events) && Inv(run(0), resumed)
    ensures exists k: nat :: DrainedFrom(run, k) && SettledFrom(run, k)
  {
    var k := ReachesDrained(run, events, 0);
    forall j: nat | j >= k ensures Drained(run(j)) {
      QueueNeverGrows(run, events, k, j);
    }
    assert DrainedFrom(run, k);
    forall j: nat, n | j >= k && n in run(j).rows ensures Settled(run(j).rows[n]) {
      QueueNeverGrows(run, events, k, j);
      QuietAt(run, events, j);
      InvAt(run, events, resumed, j);
      DrainedIsSettled(run(j), resumed, n);
    }
    assert SettledFrom(run, k);
  }

  // ---- uninstallations, whatever else is requested ----

  /** The worker is on its way to delete the row of n, or has deleted it. */
  predicate Deletes(s: State, n: Name) {
    n !in s.rows || (s.worker.Busy? && s.worker.task == Task(n, Uninstall) && !s.worker.pc.WCleanup?)
  }

  /** An uninstallation of n was accepted and will be carried out. */
  ghost predicate Doomed(s: State, n: Name) {
    var t := Task(n, Uninstall);
    Deletes(s, n) || t in s.queue || Announced(s, t)
  }

  /** A new request to uninstall n. */
  predicate AsksUninstall(e: Event, n: Name) {
    e.Spawn? && e.call.ApiCall? && e.call.task == Task(n, Uninstall)
  }

  /** The one docker failure a teardown does not survive: unfreezing an app whose row says PAUSED. */
  predicate UnfreezeFails(s: State, e: Event, n: Name) {
    e.WorkerTurn? && s.worker == Busy(Task(n, Uninstall), WUnfreeze) && !e.out.Success?
  }

  lemma DeletesKept(s: State, e: Event, s': State, n: Name)
    requires Sound(s) && Deletes(s, n) && n in s.rows && !UnfreezeFails(s, e, n) && s' == Next(s, e)
    ensures Deletes(s', n)
  {
    OthersUntouched(s, e);
    RowsComeAndGo(s, e, n);
  }

  ghost predicate GivenUpAt(run: nat -> State, events: nat -> Event, n: Name, k: nat) {
    UnfreezeFails(run(k), events(k), n)
  }

  ghost predicate GoneAt(run: nat -> State, n: Name, k: nat) {
    n !in run(k).rows
  }

  /** As long as the row is there, the teardown is still going to delete it, unless it is given up. */
  lemma {:induction false} DeletesAt(run: nat -> State, events: nat -> Event, n: Name, i: nat, j: nat)
    requires FairRun(run, events) && i <= j && Deletes(run(i), n)
    requires forall l: nat :: i <= l < j ==> !GoneAt(run, n, l)
    requires forall l: nat :: i <= l < j ==> !GivenUpAt(run, events, n, l)
    ensures Deletes(run(j), n)
    decreases j
  {
    if i < j {
      DeletesAt(run, events, n, i, j - 1);
      assert !GoneAt(run, n, j - 1) && !GivenUpAt(run, events, n, j - 1);
      SoundAt(run, events, j - 1);
      assert StepsAt(run, events, j - 1);
      DeletesKept(run(j - 1), events(j - 1), run(j), n);
    }
  }

  ghost predicate DecidedAt(run: nat -> State, events: nat -> Event, n: Name, k: nat) {
    GoneAt(run, n, k) || GivenUpAt(run, events, n, k)
  }

  lemma TeardownDeletes(run: nat -> State, events: nat -> Event, n: Name, i: nat) returns (k: nat)
    requires FairRun(run, events) && Deletes(run(i), n)
    ensures DecidedAt(run, events, n, k)
  {
    if GoneAt(run, n, i) {
      return i;
    }
    var j := FinishesTask(run, events, i);
    if l: nat :| i <= l < j && DecidedAt(run, events, n, l) {
      return l;
    }
    forall l: nat | i <= l < j ensures !GoneAt(run, n, l) && !GivenUpAt(run, events, n, l) {
      assert !DecidedAt(run, events, n, l);
    }
    DeletesAt(run, events, n, i, j);
    return j;
  }

  lemma {:induction false} StillAnnounces(run: nat -> State, events: nat -> Event, t: Task, id: nat, i: nat, j: nat)
    requires IsRun(run, events) && i <= j && id in run(i).calls && run(i).calls[id] == ApiCall(t, AEnqueue)
    requires forall k: nat :: i <= k < j ==> !Turn(events(k), TheCall(id))
    ensures id in run(j).calls && run(j).calls[id] == ApiCall(t, AEnqueue)
    decreases j
  {
    if i < j {
      StillAnnounces(run, events, t, id, i, j - 1);
      assert StepsAt(run, events, j - 1);
      OthersUntouched(run(j - 1), events(j - 1));
    }
  }

  /** An announced task is queued. */
  lemma GetsQueued(run: nat -> State, events: nat -> Event, t: Task, i: nat) returns (j: nat)
    requires FairRun(run, events) && Announced(run(i), t)
    ensures j > i && t in run(j).queue
  {
    var id :| id in run(i).calls && run(i).calls[id] == ApiCall(t, AEnqueue);
    var p := TheCall(id);
    if !TakesTurn(events, p, i) {
      forall j: nat | j >= i ensures Enabled(run(j), p) {
        forall l: nat | i <= l < j ensures !Turn(events(l), p) {}
        StillAnnounces(run, events, t, id, i, j);
      }
    }
    var j0: nat :| j0 >= i && Turn(events(j0), p);
    var k := FirstTurn(events, p, i, j0);
    StillAnnounces(run, events, t, id, i, k);
    j := k + 1;
    assert StepsAt(run, events, k);
    assert run(j).queue[|run(k).queue|] == t;
  }

  /** Every task in the queue, or about to enter it, is picked up. */
  lemma TaskIsPicked(run: nat -> State, events: nat -> Event, t: Task, i: nat) returns (j: nat)
    requires FairRun(run, events) && (t in run(i).queue || Announced(run(i), t))
    ensures j >= i && run(j).worker == Busy(t, FirstPc(t.kind))
  {
    var k := i;
    if t !in run(i).queue {
      k := GetsQueued(run, events, t, i);
    }
    var at: nat :| at < |run(k).queue| && run(k).queue[at] == t;
    j := ReachesTask(run, events, k, t, at);
  }

  ghost predicate InstalledBetween(run: nat -> State, events: nat -> Event, n: Name, i: nat, j: nat) {
    exists l: nat :: i <= l < j && Inserting(run(l), events(l), n)
  }

  lemma NotInserted(s: State, e: Event, s': State, n: Name)
    requires n !in s.rows && !Inserting(s, e, n) && s' == Next(s, e)
    ensures n !in s'.rows
  {
    RowsComeAndGo(s, e, n);
  }

  lemma {:induction false} StaysGone(run: nat -> State, events: nat -> Event, n: Name, i: nat, j: nat)
    requires IsRun(run, events) && i <= j && GoneAt(run, n, i)
    requires !InstalledBetween(run, events, n, i, j)
    ensures GoneAt(run, n, j)
    decreases j
  {
    if i < j {
      assert !InstalledBetween(run, events, n, i, j - 1) && !Inserting(run(j - 1), events(j - 1), n);
      StaysGone(run, events, n, i, j - 1);
      assert StepsAt(run, events, j - 1);
      NotInserted(run(j - 1), events(j - 1), run(j), n);
    }
  }

  /** The row is gone at k, and stays away until the app is installed anew. */
  ghost predicate GoneFrom(run: nat -> State, events: nat -> Event, n: Name, k: nat) {
    GoneAt(run, n, k) && forall j: nat :: j >= k && !InstalledBetween(run, events, n, k, j) ==> GoneAt(run, n, j)
  }

  /**
    Every uninstallation that was accepted deletes its row in every fair run, whatever else is requested meanwhile,
    unless its unfreezing fails first; and the row stays away until the app is installed anew.
   */
  lemma DoomedAppsGo(run: nat -> State, events: nat -> Event, n: Name)
    requires FairRun(run, events) && Doomed(run(0), n)
    ensures exists k: nat :: GoneFrom(run, events, n, k) || GivenUpAt(run, events, n, k)
  {
    var i := 0;
    if !Deletes(run(0), n) {
      i := TaskIsPicked(run, events, Task(n, Uninstall), 0);
    }
    var k := TeardownDeletes(run, events, n, i);
    if GoneAt(run, n, k) {
      forall j: nat | j >= k && !InstalledBetween(run, events, n, k, j) ensures GoneAt(run, n, j) {
        StaysGone(run, events, n, k, j);
      }
      assert GoneFrom(run, events, n, k);
    } else {
      assert GivenUpAt(run, events, n, k);
    }
  }

  /** So does every uninstallation a previous process left in either status, whatever other rows boot finds. */
  lemma ResumedUninstallsFinish(rows: map<Name, Status>, stacks: set<Name>, queue: seq<Task>,
                                run: nat -> State, events: nat -> Event, n: Name)
    requires Reconciled(rows, queue) && run(0) == Booted(rows, stacks, queue)
    requires IsRun(run, events) && Fair(run, events)
    requires n in rows && (rows[n] == UninstallationQueued || rows[n] == Uninstalling)
    ensures exists k: nat :: GoneFrom(run, events, n, k) || GivenUpAt(run, events, n, k)
  {
    BootSound(rows, stacks, queue);
    DoomedAppsGo(run, events, n);
  }
}
