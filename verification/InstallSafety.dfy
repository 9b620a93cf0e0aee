/**
  What every interleaving of the protocol keeps: mutual exclusion on the op lock, a pending task behind every
  queued status, the worker behind every working status, and no resurrection of a torn-down app.
 */
module InstallSafety {
  import opened AppStatus
  import opened InstallProtocol

  // ---- the op locks ----

  /** p has asked for the lock of n and has not released it. */
  ghost predicate Queued(s: State, n: Name, p: Party) {
    match p
    case TheWorker => s.worker.Busy? && s.worker.task == Task(n, Uninstall) && !s.worker.pc.WAskLock?
    case TheCall(id) =>
      id in s.calls && s.calls[id].StartCall? && s.calls[id].name == n && !s.calls[id].start.SAskLock?
  }

  /** p runs under the lock of n. */
  ghost predicate Inside(s: State, n: Name, p: Party) {
    && Queued(s, n, p)
    && match p
       case TheWorker => !s.worker.pc.WAwaitLock?
       case TheCall(id) => !s.calls[id].start.SAwaitLock?
  }

  ghost predicate LockFair(s: State, n: Name) {
    && (forall p :: p in LockQueue(s, n) <==> Queued(s, n, p))
    && (forall i, j :: 0 <= i < j < |LockQueue(s, n)| ==> LockQueue(s, n)[i] != LockQueue(s, n)[j])
    && (forall p :: Inside(s, n, p) ==> Holds(s, n, p))
  }

  // ---- the program counters ----

  ghost predicate PcFits(kind: TaskKind, pc: WorkerPc) {
    match pc
    case WLoadRow => true
    case WBegin => true
    case WObtain => !kind.Uninstall?
    case WCreate => !kind.Uninstall?
    case WFinish => !kind.Uninstall?
    case WFail => !kind.Uninstall?
    case WStopLoad => !IsInstall(kind)
    case WStopUnfreeze => !IsInstall(kind)
    case WStopRun => !IsInstall(kind)
    case WDownLoad => !IsInstall(kind)
    case WDownRun => !IsInstall(kind)
    case _ => kind.Uninstall?
  }

  /** Past its status check an installation or reinstallation has a row, because only the worker deletes rows. */
  ghost predicate WorkerOk(s: State) {
    s.worker.Busy? ==>
      && PcFits(s.worker.task.kind, s.worker.pc)
      && (!s.worker.task.kind.Uninstall? && !s.worker.pc.WLoadRow? ==> s.worker.task.name in s.rows)
  }

  predicate Acting(pc: StartPc) {
    !pc.SAskLock? && !pc.SAwaitLock? && !pc.SLoadRow?
  }

  /** A lifecycle call past its status check, and its own status not yet written. */
  predicate Engaged(call: Call) {
    match call
    case StartCall(_, pc) => Acting(pc) && !pc.SUnlock?
    case PauseCall(_, pc) => !pc.PLoadRow?
    case StopCall(_, pc) => !pc.TLoadRow?
    case ApiCall(_, _) => false
  }

  /** A revive past its status check has a row, because the teardown deletes rows under the lock. */
  ghost predicate ReviveOk(s: State, id: nat) {
    id in s.calls && s.calls[id].StartCall? && Acting(s.calls[id].start) ==> s.calls[id].name in s.rows
  }

  // ---- the statuses ----

  /** The API call that wrote the status has not enqueued its task yet. */
  ghost predicate Announced(s: State, t: Task) {
    exists id :: id in s.calls && s.calls[id] == ApiCall(t, AEnqueue)
  }

  predicate JustPicked(s: State, t: Task) {
    && s.worker.Busy? && s.worker.task == t
    && (s.worker.pc.WAskLock? || s.worker.pc.WAwaitLock? || s.worker.pc.WLoadRow? || s.worker.pc.WBegin?)
  }

  ghost predicate Pending(s: State, t: Task) {
    t in s.queue || JustPicked(s, t) || Announced(s, t)
  }

  predicate WorkingOn(s: State, n: Name) {
    s.worker.Busy? && s.worker.task.name == n
  }

  predicate TearingDown(s: State, n: Name) {
    && s.worker.Busy? && s.worker.task == Task(n, Uninstall)
    && !s.worker.pc.WCheckFrozen? && !s.worker.pc.WUnfreeze? && !s.worker.pc.WMarkUnfrozen? && !s.worker.pc.WCleanup?
  }

  predicate Completes(pc: WorkerPc) {
    pc.WObtain? || pc.WCreate? || pc.WFinish? || pc.WFail?
  }

  predicate ShutsDown(pc: WorkerPc) {
    pc.WStopLoad? || pc.WStopUnfreeze? || pc.WStopRun? || pc.WDownLoad? || pc.WDownRun?
  }

  /**
    Every transitional status has its work behind it. The names in `resumed` were interrupted in an earlier
    process, so their UNINSTALLING may still wait for the task the boot reconciliation queued.
   */
  ghost predicate Backed(s: State, resumed: set<Name>, n: Name) {
    n in s.rows ==>
      match s.rows[n]
      case InstallationQueued => Pending(s, Task(n, InstallFromStore)) || Pending(s, Task(n, InstallFromZip))
      case UninstallationQueued => Pending(s, Task(n, Uninstall))
      case ReinstallationQueued => Pending(s, Task(n, Reinstall))
      case Installing => WorkingOn(s, n) && IsInstall(s.worker.task.kind) && Completes(s.worker.pc)
      case Reinstalling =>
        WorkingOn(s, n) && s.worker.task.kind.Reinstall? && (Completes(s.worker.pc) || ShutsDown(s.worker.pc))
      case Uninstalling => TearingDown(s, n) || (n in resumed && Task(n, Uninstall) in s.queue)
      case _ => true
  }

  /** What needs no assumption about the rows a process starts with. */
  ghost predicate Sound(s: State) {
    && (forall n :: LockFair(s, n))
    && WorkerOk(s)
    && (forall id :: ReviveOk(s, id))
  }

  ghost predicate Inv(s: State, resumed: set<Name>) {
    Sound(s) && forall n :: Backed(s, resumed, n)
  }

  // ---- what one event touches ----

  function Actor(e: Event): Party {
    match e
    case Spawn(id, _) => TheCall(id)
    case CallTurn(id, _) => TheCall(id)
    case WorkerTurn(_) => TheWorker
  }

  /** No event changes another party. */
  lemma OthersUntouched(s: State, e: Event)
    ensures forall id :: TheCall(id) != Actor(e) ==>
      (id in Next(s, e).calls <==> id in s.calls) && (id in s.calls ==> Next(s, e).calls[id] == s.calls[id])
    ensures Actor(e) != TheWorker ==> Next(s, e).worker == s.worker
    ensures Actor(e) == TheWorker ==> Next(s, e).calls == s.calls
  {
  }

  predicate Deleting(s: State, e: Event, n: Name) {
    e.WorkerTurn? && s.worker.Busy? && s.worker.task.name == n && s.worker.pc.WDeleteRow?
  }

  predicate Inserting(s: State, e: Event, n: Name) {
    && e.CallTurn? && e.id in s.calls && s.calls[e.id].ApiCall? && s.calls[e.id].api.AWrite?
    && s.calls[e.id].task.name == n && IsInstall(s.calls[e.id].task.kind)
  }

  /** A row disappears only in the last write of its own teardown, and appears only in an install call. */
  lemma RowsComeAndGo(s: State, e: Event, n: Name)
    ensures n in s.rows && !Deleting(s, e, n) ==> n in Next(s, e).rows
    ensures n in Next(s, e).rows && !Inserting(s, e, n) ==> n in s.rows
  {
  }

  /** The row of the acting party's app after its turn. */
  function Written(row: Row, w: RowWrite): Row {
    match w
    case KeepRow => row
    case Update(status) => if row.Row? then Row(status) else NoRow
    case Insert(status) => Row(status)
    case Delete => NoRow
  }

  /** The row and the acting call after its turn. */
  lemma AfterTurn(s: State, id: nat, out: Outcome)
    requires id in s.calls
    ensures var n, s' := AppOf(s.calls[id]), CallNext(s, id, out);
      match CallTurnOf(s.calls[id], RowOf(s, n), Holds(s, n, TheCall(id)), out)
      case Wait => s' == s
      case Continue(call, effect) =>
        RowOf(s', n) == Written(RowOf(s, n), effect.row) && s'.calls == s.calls[id := call] && AppOf(call) == n
      case End(effect) => RowOf(s', n) == Written(RowOf(s, n), effect.row) && s'.calls == s.calls - {id}
      case EndEnqueueing(_) => RowOf(s', n) == RowOf(s, n) && s'.calls == s.calls - {id}
  {
  }

  // ---- preservation: locks ----

  /** The acting party joins at the end of the queue, leaves from its head, or keeps its place. */
  ghost predicate LockMove(s: State, s': State, n: Name, a: Party) {
    var q, q' := LockQueue(s, n), LockQueue(s', n);
    || (q' == q && Queued(s, n, a) == Queued(s', n, a) && (Inside(s', n, a) ==> Holds(s, n, a)))
    || (q' == q + [a] && !Queued(s, n, a) && Queued(s', n, a) && !Inside(s', n, a))
    || (q != [] && q' == q[1..] && q[0] == a && !Queued(s', n, a))
  }

  function StartsLock(call: Call): LockMove {
    if call.StartCall? && call.start.SAskLock? then Join else KeepLock
  }

  predicate InLock(call: Call) {
    call.StartCall? && !call.start.SAskLock?
  }

  predicate PastLock(call: Call) {
    InLock(call) && !call.start.SAwaitLock?
  }

  /** Only a revive moves in the lock queue: it joins with its first turn and leaves exactly when it ends. */
  lemma CallTurnInLock(call: Call, row: Row, holds: bool, out: Outcome)
    ensures
      match CallTurnOf(call, row, holds, out)
      case Wait => true
      case Continue(call', effect) =>
        && effect.lock == StartsLock(call) && AppOf(call') == AppOf(call)
        && InLock(call') == call.StartCall? && (PastLock(call') ==> PastLock(call) || holds)
      case End(effect) => (if InLock(call) then effect.lock.Leave? && PastLock(call) else effect.lock.KeepLock?)
      case EndEnqueueing(task) => !InLock(call)
  {
  }

  lemma CallLockMove(s: State, id: nat, out: Outcome, n: Name)
    requires LockFair(s, n)
    ensures LockMove(s, CallNext(s, id, out), n, TheCall(id))
  {
    assert Inside(s, n, TheCall(id)) ==> Holds(s, n, TheCall(id));
    if id in s.calls {
      var call := s.calls[id];
      CallTurnInLock(call, RowOf(s, AppOf(call)), Holds(s, AppOf(call), TheCall(id)), out);
    }
  }

  /** Only a teardown moves in the lock queue: it joins with its first turn and leaves exactly when it ends. */
  lemma WorkerTurnInLock(kind: TaskKind, pc: WorkerPc, row: Row, holds: bool, out: Outcome)
    requires PcFits(kind, pc)
    ensures
      match WorkerTurnOf(kind, pc, row, holds, out)
      case Stay => true
      case GoTo(pc', effect) =>
        && effect.lock == (if pc.WAskLock? then Join else KeepLock)
        && !pc'.WAskLock? && (pc'.WAwaitLock? <==> pc.WAskLock?)
        && (pc.WAwaitLock? ==> holds) && PcFits(kind, pc')
      case Finish(effect) =>
        && effect.lock == (if kind.Uninstall? then Leave else KeepLock)
        && !pc.WAskLock? && !pc.WAwaitLock?
  {
  }

  lemma WorkerLockMove(s: State, out: Outcome, n: Name)
    requires LockFair(s, n) && WorkerOk(s)
    ensures LockMove(s, WorkerNext(s, out), n, TheWorker)
  {
    assert Inside(s, n, TheWorker) ==> Holds(s, n, TheWorker);
    if s.worker.Busy? {
      var task := s.worker.task;
      WorkerTurnInLock(task.kind, s.worker.pc, RowOf(s, task.name), Holds(s, task.name, TheWorker), out);
    }
  }

  lemma FairMove(s: State, s': State, n: Name, a: Party)
    requires LockFair(s, n) && LockMove(s, s', n, a)
    requires forall p :: p != a ==> Queued(s', n, p) == Queued(s, n, p) && Inside(s', n, p) == Inside(s, n, p)
    ensures LockFair(s', n)
  {
    var q, q' := LockQueue(s, n), LockQueue(s', n);
    if q' == q + [a] {
      assert forall p :: p in q' <==> p in q || p == a;
      assert forall p :: Inside(s', n, p) ==> p in q;
    } else if q' != q {
      assert forall p :: p in q' <==> p in q && p != q[0];
      assert forall p :: Inside(s', n, p) ==> p != a && Inside(s, n, p);
    }
  }

  lemma {:induction false} LockKept(s: State, e: Event, n: Name)
    requires LockFair(s, n) && WorkerOk(s)
    ensures LockFair(Next(s, e), n)
  {
    var s', a := Next(s, e), Actor(e);
    OthersUntouched(s, e);
    assert forall p :: p != a ==> Queued(s', n, p) == Queued(s, n, p) && Inside(s', n, p) == Inside(s, n, p);
    match e
    case Spawn(_, _) => assert LockMove(s, s', n, a);
    case CallTurn(id, out) => CallLockMove(s, id, out, n);
    case WorkerTurn(out) => WorkerLockMove(s, out, n);
    FairMove(s, s', n, a);
  }

  // ---- preservation: program counters ----

  lemma {:induction false} WorkerKept(s: State, e: Event)
    requires WorkerOk(s)
    ensures WorkerOk(Next(s, e))
  {
    OthersUntouched(s, e);
    if s.worker.Busy? {
      RowsComeAndGo(s, e, s.worker.task.name);
    }
  }

  lemma {:induction false} ReviveKept(s: State, e: Event, id: nat)
    requires ReviveOk(s, id) && forall n :: LockFair(s, n)
    requires WorkerOk(s)
    ensures ReviveOk(Next(s, e), id)
  {
    OthersUntouched(s, e);
    if id in s.calls && s.calls[id].StartCall? && Acting(s.calls[id].start) {
      var n := s.calls[id].name;
      RowsComeAndGo(s, e, n);
      assert LockFair(s, n) && Inside(s, n, TheCall(id));
    }
  }

  // ---- preservation: statuses ----

  /** A pending task leaves the pending state only when the worker gets past its status check. */
  lemma {:induction false} PendingKept(s: State, e: Event, t: Task)
    requires Pending(s, t)
    requires e.WorkerTurn? && JustPicked(s, t) ==>
      !s.worker.pc.WBegin? && (s.worker.pc.WLoadRow? ==> RowOf(s, t.name) == Row(QueuedStatus(t.kind)))
    ensures Pending(Next(s, e), t)
  {
    var s' := Next(s, e);
    OthersUntouched(s, e);
    if Announced(s, t) {
      var id :| id in s.calls && s.calls[id] == ApiCall(t, AEnqueue);
      if e.CallTurn? && e.id == id {
        assert s'.queue[|s.queue|] == t;
      } else {
        assert id in s'.calls && s'.calls[id] == ApiCall(t, AEnqueue);
      }
    } else if t in s.queue && e.WorkerTurn? && s.worker.Idle? {
      assert s.queue == [s.queue[0]] + s'.queue;
    }
  }

  predicate Writes(w: RowWrite, status: Status) {
    w == Update(status) || w == Insert(status)
  }

  /** Only the write of an API call produces a queued status, and the call is then about to enqueue its task. */
  lemma OnlyApiCallsQueue(call: Call, row: Row, holds: bool, out: Outcome, kind: TaskKind)
    ensures
      match CallTurnOf(call, row, holds, out)
      case Continue(call', effect) =>
        Writes(effect.row, QueuedStatus(kind)) ==>
          call.ApiCall? && call' == ApiCall(call.task, AEnqueue) && QueuedStatus(call.task.kind) == QueuedStatus(kind)
      case End(effect) => !Writes(effect.row, QueuedStatus(kind))
      case _ => true
  {
  }

  /** The worker never queues anything. */
  lemma WorkerTurnNeverQueues(kind: TaskKind, pc: WorkerPc, row: Row, holds: bool, out: Outcome, queued: TaskKind)
    ensures
      match WorkerTurnOf(kind, pc, row, holds, out)
      case Stay => true
      case GoTo(_, effect) => !Writes(effect.row, QueuedStatus(queued))
      case Finish(effect) => !Writes(effect.row, QueuedStatus(queued))
  {
  }

  lemma WorkerNeverQueues(s: State, out: Outcome, n: Name, kind: TaskKind)
    requires RowOf(WorkerNext(s, out), n) == Row(QueuedStatus(kind))
    ensures RowOf(s, n) == Row(QueuedStatus(kind))
  {
    if s.worker.Busy? {
      var task := s.worker.task;
      WorkerTurnNeverQueues(task.kind, s.worker.pc, RowOf(s, task.name), Holds(s, task.name, TheWorker), out, kind);
    }
  }

  lemma CallAnnounces(s: State, id: nat, out: Outcome, n: Name, kind: TaskKind) returns (task: Task)
    requires id in s.calls
    requires RowOf(CallNext(s, id, out), n) == Row(QueuedStatus(kind)) && RowOf(s, n) != Row(QueuedStatus(kind))
    ensures id in CallNext(s, id, out).calls && CallNext(s, id, out).calls[id] == ApiCall(task, AEnqueue)
    ensures task.name == n && QueuedStatus(task.kind) == QueuedStatus(kind)
  {
    var call := s.calls[id];
    OnlyApiCallsQueue(call, RowOf(s, AppOf(call)), Holds(s, AppOf(call), TheCall(id)), out, kind);
    assert AppOf(call) == n;
    task := call.task;
  }

  /** A status that was not there before has been announced by the call that wrote it. */
  lemma {:induction false} QueuedStatusIsAnnounced(s: State, e: Event, n: Name, kind: TaskKind)
    requires RowOf(Next(s, e), n) == Row(QueuedStatus(kind)) && RowOf(s, n) != Row(QueuedStatus(kind))
    ensures exists k :: QueuedStatus(k) == QueuedStatus(kind) && Pending(Next(s, e), Task(n, k))
  {
    if e.WorkerTurn? {
      WorkerNeverQueues(s, e.out, n, kind);
    } else if e.CallTurn? && e.id in s.calls {
      var task := CallAnnounces(s, e.id, e.out, n, kind);
      assert Announced(Next(s, e), Task(n, task.kind));
      assert Pending(Next(s, e), Task(n, task.kind));
    }
  }

  lemma {:induction false} QueuedKept(s: State, e: Event, n: Name, kind: TaskKind)
    requires RowOf(Next(s, e), n) == Row(QueuedStatus(kind))
    requires RowOf(s, n) == Row(QueuedStatus(kind)) ==> Pending(s, Task(n, kind))
    ensures exists k :: QueuedStatus(k) == QueuedStatus(kind) && Pending(Next(s, e), Task(n, k))
  {
    if RowOf(s, n) == Row(QueuedStatus(kind)) {
      PendingKept(s, e, Task(n, kind));
    } else {
      QueuedStatusIsAnnounced(s, e, n, kind);
    }
  }

  predicate Working(row: Row) {
    row == Row(Installing) || row == Row(Reinstalling) || row == Row(Uninstalling)
  }

  /** A call never writes a working status. */
  lemma CallsKeepWorking(s: State, e: Event, resumed: set<Name>, n: Name)
    requires Backed(s, resumed, n) && !e.WorkerTurn? && Working(RowOf(Next(s, e), n))
    ensures RowOf(Next(s, e), n) == RowOf(s, n) && Backed(Next(s, e), resumed, n)
  {
    OthersUntouched(s, e);
  }

  /** The worker writes no working status but the one of its own task, and never ends a task that has one. */
  lemma WorkerTurnWrites(kind: TaskKind, pc: WorkerPc, row: Row, holds: bool, out: Outcome)
    requires PcFits(kind, pc)
    ensures
      match WorkerTurnOf(kind, pc, row, holds, out)
      case Stay => true
      case GoTo(pc', effect) =>
        && (effect.row.Update? && Working(Row(effect.row.status)) ==>
              pc.WBegin? && effect.row.status == WorkingStatus(kind))
        && !effect.row.Insert?
        && (pc.WBegin? ==> pc' == (if IsInstall(kind) then WObtain else WStopLoad))
        && (pc.WBegin? ==> effect.row == Update(WorkingStatus(kind)))
        && (Completes(pc) ==> Completes(pc'))
        && (kind.Reinstall? && ShutsDown(pc) ==> Completes(pc') || ShutsDown(pc'))
        && (kind.Uninstall? && (pc'.WCheckFrozen? || pc'.WUnfreeze? || pc'.WMarkUnfrozen?) ==>
              pc.WCheckFrozen? || pc.WUnfreeze? || row == Row(Paused))
        && (pc'.WCleanup? ==> effect.row.Delete?)
      case Finish(effect) =>
        && (effect.row.KeepRow? || (effect.row.Update? && !Working(Row(effect.row.status))))
        && (effect.row.KeepRow? ==>
              !Completes(pc) && !ShutsDown(pc) && (kind.Uninstall? ==> pc.WUnfreeze? || pc.WCleanup?))
  {
  }

  /** The worker writes a working status for its own task, and replaces or deletes it before the task ends. */
  lemma WorkerKeepsWorking(s: State, out: Outcome, resumed: set<Name>, n: Name)
    requires Backed(s, resumed, n) && WorkerOk(s) && Working(RowOf(WorkerNext(s, out), n))
    ensures Backed(WorkerNext(s, out), resumed, n)
  {
    if s.worker.Idle? {
      if s.queue != [] {
        assert s.queue == [s.queue[0]] + WorkerNext(s, out).queue;
      }
    } else {
      var task := s.worker.task;
      WorkerTurnWrites(task.kind, s.worker.pc, RowOf(s, task.name), Holds(s, task.name, TheWorker), out);
    }
  }

  /** The task kind that backs a queued status; a row alone does not tell a store install from a zip install. */
  ghost function Backing(s: State, n: Name, kind: TaskKind): TaskKind {
    if IsInstall(kind) && Pending(s, Task(n, InstallFromStore)) then InstallFromStore
    else if IsInstall(kind) then InstallFromZip
    else kind
  }

  lemma BackedByPending(s: State, resumed: set<Name>, n: Name, kind: TaskKind)
    requires RowOf(s, n) == Row(QueuedStatus(kind))
    ensures Backed(s, resumed, n) <==> Pending(s, Task(n, Backing(s, n, kind)))
    ensures Backed(s, resumed, n) <==> exists k :: QueuedStatus(k) == QueuedStatus(kind) && Pending(s, Task(n, k))
  {
    assert QueuedStatus(Backing(s, n, kind)) == QueuedStatus(kind);
  }

  lemma {:induction false} QueuedBackedKept(s: State, e: Event, resumed: set<Name>, n: Name, kind: TaskKind)
    requires Backed(s, resumed, n) && RowOf(Next(s, e), n) == Row(QueuedStatus(kind))
    ensures Backed(Next(s, e), resumed, n)
  {
    if RowOf(s, n) == Row(QueuedStatus(kind)) {
      BackedByPending(s, resumed, n, kind);
    }
    QueuedKept(s, e, n, Backing(s, n, kind));
    BackedByPending(Next(s, e), resumed, n, kind);
  }

  lemma {:induction false} BackedKept(s: State, e: Event, resumed: set<Name>, n: Name)
    requires Backed(s, resumed, n) && WorkerOk(s)
    ensures Backed(Next(s, e), resumed, n)
  {
    var row := RowOf(Next(s, e), n);
    if Working(row) {
      if e.WorkerTurn? {
        WorkerKeepsWorking(s, e.out, resumed, n);
      } else {
        CallsKeepWorking(s, e, resumed, n);
      }
    } else if row == Row(InstallationQueued) {
      QueuedBackedKept(s, e, resumed, n, InstallFromStore);
    } else if row == Row(UninstallationQueued) {
      QueuedBackedKept(s, e, resumed, n, Uninstall);
    } else if row == Row(ReinstallationQueued) {
      QueuedBackedKept(s, e, resumed, n, Reinstall);
    }
  }

  // ---- the main results ----

  lemma {:induction false} SoundKept(s: State, e: Event)
    requires Sound(s)
    ensures Sound(Next(s, e))
  {
    forall n { LockKept(s, e, n); }
    WorkerKept(s, e);
    forall id { ReviveKept(s, e, id); }
  }

  lemma {:induction false} InvKept(s: State, e: Event, resumed: set<Name>)
    requires Inv(s, resumed)
    ensures Inv(Next(s, e), resumed)
  {
    SoundKept(s, e);
    forall n { BackedKept(s, e, resumed, n); }
  }

  /** Locks and program counters are in order after every boot, whatever rows it finds. */
  lemma {:induction false} EveryRunIsSound(s: State, events: seq<Event>)
    requires Sound(s)
    ensures Sound(Run(s, events))
    decreases |events|
  {
    if events != [] {
      EveryRunIsSound(s, events[..|events| - 1]);
      SoundKept(Run(s, events[..|events| - 1]), events[|events| - 1]);
    }
  }

  lemma BootSound(rows: map<Name, Status>, stacks: set<Name>, queue: seq<Task>)
    ensures Sound(Booted(rows, stacks, queue))
  {
  }

  /** The rows an earlier process left in UNINSTALLING. */
  function Interrupted(rows: map<Name, Status>): set<Name> {
    set n | n in rows && rows[n].Uninstalling?
  }

  /** The boot reconciliation answers for the uninstall statuses only. */
  ghost predicate Bootable(rows: map<Name, Status>) {
    forall n :: n in rows ==>
      rows[n] !in {InstallationQueued, Installing, ReinstallationQueued, Reinstalling}
  }

  /** The reconciled boot is safe exactly when nothing but uninstallations was under way. */
  lemma BootInv(rows: map<Name, Status>, stacks: set<Name>, queue: seq<Task>)
    requires Reconciled(rows, queue)
    ensures Inv(Booted(rows, stacks, queue), Interrupted(rows)) <==> Bootable(rows)
  {
    var s := Booted(rows, stacks, queue);
    if Bootable(rows) {
      assert forall n :: Backed(s, Interrupted(rows), n);
    } else {
      var n :| n in rows && rows[n] in {InstallationQueued, Installing, ReinstallationQueued, Reinstalling};
      assert !Backed(s, Interrupted(rows), n);
    }
  }

  /** Every state of every schedule after boot is backed and locked as Inv says. */
  lemma {:induction false} EveryRunIsSafe(rows: map<Name, Status>, stacks: set<Name>, queue: seq<Task>,
                                           events: seq<Event>)
    requires Bootable(rows) && Reconciled(rows, queue)
    ensures Inv(Run(Booted(rows, stacks, queue), events), Interrupted(rows))
    decreases |events|
  {
    if events == [] {
      BootInv(rows, stacks, queue);
    } else {
      var last := |events| - 1;
      EveryRunIsSafe(rows, stacks, queue, events[..last]);
      InvKept(Run(Booted(rows, stacks, queue), events[..last]), events[last], Interrupted(rows));
    }
  }

  /**
    The promise in full: a queued status has its task in the queue, just picked up, or announced by an API call
    that is about to enqueue it; a working status belongs to the worker's current task, or to a teardown that an
    earlier process left and this one has queued again.
   */
  lemma TransitionalRowsHaveWork(rows: map<Name, Status>, stacks: set<Name>, queue: seq<Task>, events: seq<Event>,
                                 n: Name, kind: TaskKind)
    requires Bootable(rows) && Reconciled(rows, queue)
    ensures var s := Run(Booted(rows, stacks, queue), events);
      && (RowOf(s, n) == Row(QueuedStatus(kind)) ==>
            exists k :: QueuedStatus(k) == QueuedStatus(kind) && Pending(s, Task(n, k)))
      && (RowOf(s, n) == Row(WorkingStatus(kind)) ==>
            || (s.worker.Busy? && s.worker.task.name == n && WorkingStatus(s.worker.task.kind) == WorkingStatus(kind))
            || (kind.Uninstall? && n in Interrupted(rows) && Task(n, Uninstall) in s.queue))
  {
    EveryRunIsSafe(rows, stacks, queue, events);
    var s := Run(Booted(rows, stacks, queue), events);
    assert Backed(s, Interrupted(rows), n);
    if RowOf(s, n) == Row(QueuedStatus(kind)) {
      BackedByPending(s, Interrupted(rows), n, kind);
    }
  }

  // ---- no resurrection ----

  predicate RevivesNow(s: State, id: nat, n: Name) {
    id in s.calls && s.calls[id].StartCall? && s.calls[id].name == n && Acting(s.calls[id].start)
  }

  /** A teardown that holds the lock, or an app without a row, keeps every revive before its status check. */
  lemma NoReviveDuringTeardown(s: State, n: Name, id: nat)
    requires Sound(s)
    requires Inside(s, n, TheWorker) || n !in s.rows
    ensures !RevivesNow(s, id, n)
  {
    assert LockFair(s, n) && ReviveOk(s, id);
    if RevivesNow(s, id, n) {
      assert Inside(s, n, TheCall(id));
    }
  }

  /** A revive before its status check writes no row and runs no docker command. */
  lemma WaitingReviveTouchesNothing(s: State, id: nat, out: Outcome, n: Name)
    requires id in s.calls && s.calls[id].StartCall? && !RevivesNow(s, id, s.calls[id].name)
    ensures RowOf(CallNext(s, id, out), n) == RowOf(s, n)
    ensures n in CallNext(s, id, out).stacks <==> n in s.stacks
  {
  }

  /** Two parties never run under the lock of one app. */
  lemma OneInside(s: State, n: Name, p: Party, q: Party)
    requires Sound(s) && Inside(s, n, p) && Inside(s, n, q)
    ensures p == q
  {
    assert LockFair(s, n);
  }

  /** The teardown of n has removed the containers, and may have deleted the row as well. */
  ghost predicate TornDown(s: State, n: Name) {
    && n !in s.stacks
    && (n in s.rows ==>
          && s.worker.Busy? && s.worker.task == Task(n, Uninstall)
          && (s.worker.pc.WDownMark? || s.worker.pc.WDeleteRow?))
  }

  lemma DownTearsDown(s: State, n: Name)
    requires s.worker == Busy(Task(n, Uninstall), WDownRun)
    ensures TornDown(WorkerNext(s, Success), n)
  {
  }

  lemma {:induction false} TornDownKept(s: State, e: Event, n: Name)
    requires Sound(s) && TornDown(s, n) && !Inserting(s, e, n)
    ensures TornDown(Next(s, e), n)
  {
    OthersUntouched(s, e);
    RowsComeAndGo(s, e, n);
    if e.CallTurn? {
      NoReviveDuringTeardown(s, n, e.id);
    }
  }

  /** No event of the schedule inserts a row for n. */
  ghost predicate NeverInserts(s: State, events: seq<Event>, n: Name)
    decreases |events|
  {
    events != [] ==>
      var front := events[..|events| - 1];
      NeverInserts(s, front, n) && !Inserting(Run(s, front), events[|front|], n)
  }

  /** Once a teardown has removed the containers, nothing brings them back before the app is installed anew. */
  lemma {:induction false} NoResurrection(s: State, events: seq<Event>, n: Name)
    requires Sound(s) && TornDown(s, n) && NeverInserts(s, events, n)
    ensures TornDown(Run(s, events), n)
    decreases |events|
  {
    if events != [] {
      var front := events[..|events| - 1];
      NoResurrection(s, front, n);
      EveryRunIsSound(s, front);
      TornDownKept(Run(s, front), events[|front|], n);
    }
  }
}
