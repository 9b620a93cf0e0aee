/**
  The install, revive and teardown protocol as a transition system.

  Three kinds of party share one status column and one stack of containers per app: API calls, the single
  installation worker, and lifecycle operations. A transition runs one party from one await to the next, so
  everything between two database or docker operations may be interleaved with every other party. The event
  carries the result of the docker command or download that the party was waiting for.
 */
module InstallProtocol {
  import opened AppStatus

  type Name = string

  datatype TaskKind = InstallFromStore | InstallFromZip | Uninstall | Reinstall

  datatype Task = Task(name: Name, kind: TaskKind)

  /** Where the worker stands inside the task it is processing. */
  datatype WorkerPc =
    | WAskLock | WAwaitLock                              // async with app_op_lock
    | WLoadRow                                           // read the row, check its status
    | WCheckFrozen | WUnfreeze | WMarkUnfrozen           // docker_unpause_app
    | WBegin                                             // write INSTALLING / UNINSTALLING / REINSTALLING
    | WStopLoad | WStopUnfreeze | WStopRun | WStopMark   // docker_stop_app
    | WDownLoad | WDownRun | WDownMark                   // docker_shutdown_app
    | WObtain | WCreate                                  // download, unpack, compose up --no-start
    | WFinish | WFail                                    // write STOPPED / ERROR
    | WDeleteRow | WCleanup                              // delete the row, rewrite the routes, release

  datatype Worker = Idle | Busy(task: Task, pc: WorkerPc)

  datatype StartPc =
    | SAskLock | SAwaitLock | SLoadRow | SInspect(seen: Status)
    | SUnpause | SUp | SReset | SUpAgain | SMark | SUnlock

  datatype PausePc = PLoadRow | PFreeze | PMark

  datatype StopPc = TLoadRow | TUnfreeze | TStop | TMark

  datatype ApiPc = ACheck | AWrite | AEnqueue

  /** A running call other than the worker. */
  datatype Call =
    | StartCall(name: Name, start: StartPc)
    | PauseCall(name: Name, pause: PausePc)
    | StopCall(name: Name, stop: StopPc)
    | ApiCall(task: Task, api: ApiPc)

  /** Who may wait for, or hold, the op lock of an app. */
  datatype Party = TheWorker | TheCall(id: nat)

  /** The result of what a party was waiting for. Turns that wait for nothing that can fail ignore it. */
  datatype Outcome = Success | Failure | StaleContainers | Observed(stack: StackState)

  datatype Event =
    | Spawn(id: nat, call: Call)
    | CallTurn(id: nat, out: Outcome)
    | WorkerTurn(out: Outcome)

  /**
    rows:   the status column; a name without a row is not installed.
    stacks: the apps that may have containers in docker.
    locks:  the waiters of each op lock in arrival order; the first one holds it.
   */
  datatype State = State(
    rows: map<Name, Status>,
    stacks: set<Name>,
    queue: seq<Task>,
    worker: Worker,
    locks: map<Name, seq<Party>>,
    calls: map<nat, Call>)

  function LockQueue(s: State, n: Name): seq<Party> {
    if n in s.locks then s.locks[n] else []
  }

  predicate Holds(s: State, n: Name, p: Party) {
    LockQueue(s, n) != [] && LockQueue(s, n)[0] == p
  }

  /** The status column as a party reads it. */
  datatype Row = NoRow | Row(status: Status)

  function RowOf(s: State, n: Name): Row {
    if n in s.rows then Row(s.rows[n]) else NoRow
  }

  // ---- what a turn may do to the state it shares with others ----

  /** An UPDATE by name does nothing without a row; so does a DELETE. */
  datatype RowWrite = KeepRow | Update(status: Status) | Insert(status: Status) | Delete

  datatype LockMove = KeepLock | Join | Leave

  datatype StackMove = KeepStack | MayExist | Gone

  /** Everything a turn does to the row, the lock and the containers of its own app. */
  datatype Effect = Effect(row: RowWrite, lock: LockMove, stack: StackMove)

  const NOTHING := Effect(KeepRow, KeepLock, KeepStack)

  function Write(status: Status): Effect {
    Effect(Update(status), KeepLock, KeepStack)
  }

  const LEAVE := Effect(KeepRow, Leave, KeepStack)

  function ApplyRow(rows: map<Name, Status>, n: Name, w: RowWrite): map<Name, Status> {
    match w
    case KeepRow => rows
    case Update(status) => if n in rows then rows[n := status] else rows
    case Insert(status) => rows[n := status]
    case Delete => rows - {n}
  }

  function ApplyLock(q: seq<Party>, p: Party, m: LockMove): seq<Party> {
    match m
    case KeepLock => q
    case Join => q + [p]
    case Leave => if q == [] then q else q[1..]
  }

  function ApplyStack(stacks: set<Name>, n: Name, m: StackMove): set<Name> {
    match m
    case KeepStack => stacks
    case MayExist => stacks + {n}
    case Gone => stacks - {n}
  }

  function Apply(s: State, n: Name, p: Party, e: Effect): State {
    s.(rows := ApplyRow(s.rows, n, e.row),
       locks := if e.lock.KeepLock? then s.locks else s.locks[n := ApplyLock(LockQueue(s, n), p, e.lock)],
       stacks := ApplyStack(s.stacks, n, e.stack))
  }

  // ---- the worker ----

  predicate IsInstall(kind: TaskKind) {
    kind.InstallFromStore? || kind.InstallFromZip?
  }

  function FirstPc(kind: TaskKind): WorkerPc {
    if kind.Uninstall? then WAskLock else WLoadRow
  }

  /** The status in which a task is announced, and which an installation or reinstallation must find. */
  function QueuedStatus(kind: TaskKind): Status {
    if IsInstall(kind) then InstallationQueued
    else if kind.Uninstall? then UninstallationQueued
    else ReinstallationQueued
  }

  function WorkingStatus(kind: TaskKind): Status {
    if IsInstall(kind) then Installing else if kind.Uninstall? then Uninstalling else Reinstalling
  }

  /** Where a task goes on once its containers have been dealt with. */
  function AfterShutdown(kind: TaskKind): WorkerPc {
    if kind.Uninstall? then WDeleteRow else WObtain
  }

  datatype WorkerMove = Stay | GoTo(pc: WorkerPc, effect: Effect) | Finish(effect: Effect)

  function Step(pc: WorkerPc): WorkerMove {
    GoTo(pc, NOTHING)
  }

  function LoadRow(kind: TaskKind, row: Row): WorkerMove {
    if kind.Uninstall? then
      Step(if row.NoRow? then WStopLoad else if row == Row(Paused) then WCheckFrozen else WBegin)
    else if row == Row(QueuedStatus(kind)) then Step(WBegin)
    else Finish(NOTHING)
  }

  function Begin(kind: TaskKind, row: Row): WorkerMove {
    if kind.Uninstall? then GoTo(WStopLoad, Write(Uninstalling))
    else if row.NoRow? then Finish(NOTHING)
    else GoTo(if kind.Reinstall? then WStopLoad else WObtain, Write(WorkingStatus(kind)))
  }

  /** docker_stop_app stops an app in these statuses; anything else it skips. */
  predicate Stoppable(row: Row) {
    row == Row(Running) || row == Row(Paused) || row == Row(Uninstalling)
  }

  /** docker_shutdown_app removes the containers of an app in these statuses; anything else it skips. */
  predicate Removable(row: Row) {
    row == Row(Stopped) || row == Row(Uninstalling)
  }

  function WorkerTurnOf(kind: TaskKind, pc: WorkerPc, row: Row, holds: bool, out: Outcome): WorkerMove {
    var after := AfterShutdown(kind);
    match pc
    case WAskLock => GoTo(WAwaitLock, Effect(KeepRow, Join, KeepStack))
    case WAwaitLock => if holds then Step(WLoadRow) else Stay
    case WLoadRow => LoadRow(kind, row)
    case WCheckFrozen => Step(if row == Row(Paused) then WUnfreeze else WBegin)
    case WUnfreeze => if out.Success? then Step(WMarkUnfrozen) else Finish(LEAVE)
    case WMarkUnfrozen => GoTo(WBegin, Write(Running))
    case WBegin => Begin(kind, row)
    case WStopLoad =>
      Step(if !Stoppable(row) then WDownLoad else if row == Row(Paused) then WStopUnfreeze else WStopRun)
    case WStopUnfreeze => Step(if out.Success? then WStopRun else after)
    case WStopRun => Step(if !out.Success? then after else if kind.Uninstall? then WStopMark else WDownLoad)
    case WStopMark => GoTo(WDownLoad, Write(Stopped))
    case WDownLoad => Step(if Removable(row) then WDownRun else after)
    case WDownRun =>
      if out.Success? then GoTo(if kind.Uninstall? then WDownMark else after, Effect(KeepRow, KeepLock, Gone))
      else Step(after)
    case WDownMark => GoTo(after, Write(Down))
    case WObtain => Step(if out.Success? then WCreate else WFail)
    case WCreate => GoTo(if out.Success? then WFinish else WFail, Effect(KeepRow, KeepLock, MayExist))
    case WFinish => if row.NoRow? then Step(WFail) else Finish(Write(Stopped))
    case WFail => Finish(Write(Error))
    case WDeleteRow => GoTo(WCleanup, Effect(Delete, KeepLock, KeepStack))
    case WCleanup => Finish(LEAVE)
  }

  function PickTask(s: State): State {
    if s.queue == [] then s
    else s.(queue := s.queue[1..], worker := Busy(s.queue[0], FirstPc(s.queue[0].kind)))
  }

  function WorkerNext(s: State, out: Outcome): State {
    match s.worker
    case Idle => PickTask(s)
    case Busy(task, pc) =>
      var n := task.name;
      match WorkerTurnOf(task.kind, pc, RowOf(s, n), Holds(s, n, TheWorker), out)
      case Stay => s
      case GoTo(pc', effect) => Apply(s, n, TheWorker, effect).(worker := Busy(task, pc'))
      case Finish(effect) => Apply(s, n, TheWorker, effect).(worker := Idle)
  }

  // ---- the other calls ----

  predicate IsFresh(call: Call) {
    match call
    case StartCall(_, pc) => pc.SAskLock?
    case PauseCall(_, pc) => pc.PLoadRow?
    case StopCall(_, pc) => pc.TLoadRow?
    case ApiCall(_, pc) => pc.ACheck?
  }

  function AppOf(call: Call): Name {
    if call.ApiCall? then call.task.name else call.name
  }

  datatype CallMove = Wait | Continue(call: Call, effect: Effect) | End(effect: Effect) | EndEnqueueing(task: Task)

  function StartTurnOf(n: Name, pc: StartPc, row: Row, holds: bool, out: Outcome): CallMove {
    match pc
    case SAskLock => Continue(StartCall(n, SAwaitLock), Effect(KeepRow, Join, KeepStack))
    case SAwaitLock => if holds then Continue(StartCall(n, SLoadRow), NOTHING) else Wait
    case SLoadRow =>
      if row.Row? && Revivable(row.status) then Continue(StartCall(n, SInspect(row.status)), NOTHING) else End(LEAVE)
    case SInspect(seen) =>
      if out == Observed(AllRunning) then
        if seen.Running? then End(LEAVE) else Continue(StartCall(n, SMark), NOTHING)
      else Continue(StartCall(n, if out == Observed(SomePaused) then SUnpause else SUp), NOTHING)
    case SUnpause => Continue(StartCall(n, if out.Success? then SMark else SUp), NOTHING)
    case SUp =>
      if out.Success? then Continue(StartCall(n, SMark), Effect(KeepRow, KeepLock, MayExist))
      else if out.StaleContainers? then Continue(StartCall(n, SReset), Effect(KeepRow, KeepLock, MayExist))
      else End(Effect(KeepRow, Leave, MayExist))
    case SReset =>
      if out.Success? then Continue(StartCall(n, SUpAgain), Effect(KeepRow, KeepLock, Gone)) else End(LEAVE)
    case SUpAgain =>
      if out.Success? then Continue(StartCall(n, SMark), Effect(KeepRow, KeepLock, MayExist))
      else End(Effect(KeepRow, Leave, MayExist))
    case SMark => Continue(StartCall(n, SUnlock), Write(Running))
    case SUnlock => End(LEAVE)
  }

  function PauseTurnOf(n: Name, pc: PausePc, row: Row, out: Outcome): CallMove {
    match pc
    case PLoadRow => if row == Row(Running) then Continue(PauseCall(n, PFreeze), NOTHING) else End(NOTHING)
    case PFreeze => if out.Success? then Continue(PauseCall(n, PMark), NOTHING) else End(NOTHING)
    case PMark => End(Write(Paused))
  }

  function StopTurnOf(n: Name, pc: StopPc, row: Row, out: Outcome): CallMove {
    match pc
    case TLoadRow =>
      if !Stoppable(row) then End(NOTHING)
      else Continue(StopCall(n, if row == Row(Paused) then TUnfreeze else TStop), NOTHING)
    case TUnfreeze => if out.Success? then Continue(StopCall(n, TStop), NOTHING) else End(NOTHING)
    case TStop => if out.Success? then Continue(StopCall(n, TMark), NOTHING) else End(NOTHING)
    case TMark => End(Write(Stopped))
  }

  /** Installing demands that there is no row, both at the check and at the insert; the other calls demand one. */
  function ApiTurnOf(task: Task, pc: ApiPc, row: Row): CallMove {
    match pc
    case ACheck => if IsInstall(task.kind) == row.Row? then End(NOTHING) else Continue(ApiCall(task, AWrite), NOTHING)
    case AWrite =>
      var status := QueuedStatus(task.kind);
      if IsInstall(task.kind) == row.Row? then End(NOTHING)
      else if IsInstall(task.kind) then
        Continue(ApiCall(task, AEnqueue), Effect(Insert(status), KeepLock, KeepStack))
      else Continue(ApiCall(task, AEnqueue), Write(status))
    case AEnqueue => EndEnqueueing(task)
  }

  function CallTurnOf(call: Call, row: Row, holds: bool, out: Outcome): CallMove {
    match call
    case StartCall(n, pc) => StartTurnOf(n, pc, row, holds, out)
    case PauseCall(n, pc) => PauseTurnOf(n, pc, row, out)
    case StopCall(n, pc) => StopTurnOf(n, pc, row, out)
    case ApiCall(task, pc) => ApiTurnOf(task, pc, row)
  }

  function CallNext(s: State, id: nat, out: Outcome): State {
    if id !in s.calls then s
    else
      var n := AppOf(s.calls[id]);
      match CallTurnOf(s.calls[id], RowOf(s, n), Holds(s, n, TheCall(id)), out)
      case Wait => s
      case Continue(call, effect) => Apply(s, n, TheCall(id), effect).(calls := s.calls[id := call])
      case End(effect) => Apply(s, n, TheCall(id), effect).(calls := s.calls - {id})
      case EndEnqueueing(task) => s.(calls := s.calls - {id}, queue := s.queue + [task])
  }

  /** A turn that is not enabled leaves the state as it is. */
  function Next(s: State, e: Event): State {
    match e
    case Spawn(id, call) => if id in s.calls || !IsFresh(call) then s else s.(calls := s.calls[id := call])
    case CallTurn(id, out) => CallNext(s, id, out)
    case WorkerTurn(out) => WorkerNext(s, out)
  }

  /** The state after a whole schedule. */
  function Run(s: State, events: seq<Event>): State
    decreases |events|
  {
    if events == [] then s else Next(Run(s, events[..|events| - 1]), events[|events| - 1])
  }

  // ---- boot ----

  /** A freshly started process before any call: the worker has whatever tasks the boot reconciliation left. */
  function Booted(rows: map<Name, Status>, stacks: set<Name>, queue: seq<Task>): State {
    State(rows, stacks, queue, Idle, map[], map[])
  }

  /** What the boot reconciliation promises: exactly one uninstallation for every interrupted row, nothing else. */
  ghost predicate Reconciled(rows: map<Name, Status>, queue: seq<Task>) {
    && (forall t :: t in queue ==>
          t.kind.Uninstall? && t.name in rows && rows[t.name] in {UninstallationQueued, Uninstalling})
    && (forall n :: n in rows && rows[n] in {UninstallationQueued, Uninstalling} ==> Task(n, Uninstall) in queue)
    && (forall i, j :: 0 <= i < j < |queue| ==> queue[i] != queue[j])
  }
}
