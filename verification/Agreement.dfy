/**
  The status column and the containers themselves. Pauses and stops run without the op lock, so the two may part;
  they agree in every schedule in which revives, pauses, stops and the worker are not at work on the app at the same
  time.
 */
module Agreement {
  import opened AppStatus
  import opened InstallProtocol
  import opened InstallSafety
  import opened InstallDrain
  import opened InstallGaps
  import Teardowns

  /** What the containers of one app really are. */
  datatype Real = Absent | Up | Frozen | Ended

  /** A status that says something about the containers says the truth. */
  predicate Agrees(row: Row, c: Real) {
    match row
    case NoRow => true
    case Row(Running) => c.Up?
    case Row(Paused) => c.Frozen?
    case Row(Stopped) => c.Ended? || c.Absent?
    case Row(Down) => c.Absent?
    case Row(_) => true
  }

  // ---- docker ----

  datatype Command = NoCommand | Inspect | Freeze | Unfreeze | StartStack | StopStack | RemoveStack | CreateStack

  function CommandOf(call: Call): Command {
    match call
    case StartCall(_, SInspect(_)) => Inspect
    case StartCall(_, SUnpause) => Unfreeze
    case StartCall(_, SUp) => StartStack
    case StartCall(_, SUpAgain) => StartStack
    case StartCall(_, SReset) => RemoveStack
    case PauseCall(_, PFreeze) => Freeze
    case StopCall(_, TUnfreeze) => Unfreeze
    case StopCall(_, TStop) => StopStack
    case _ => NoCommand
  }

  function WorkerCommand(pc: WorkerPc): Command {
    match pc
    case WUnfreeze => Unfreeze
    case WStopUnfreeze => Unfreeze
    case WStopRun => StopStack
    case WDownRun => RemoveStack
    case WCreate => CreateStack
    case _ => NoCommand
  }

  function Observation(c: Real): Outcome {
    match c
    case Absent => Observed(Missing)
    case Up => Observed(AllRunning)
    case Frozen => Observed(SomePaused)
    case Ended => Observed(Exited)
  }

  /** docker may turn c into c' while it answers so; a command that fails may leave anything. */
  predicate Possible(cmd: Command, out: Outcome, c: Real, c': Real) {
    match cmd
    case NoCommand => c' == c
    case Inspect => c' == c && (out == Observation(c) || out == Observed(Missing))
    case Freeze => out.Success? ==> c.Up? && c'.Frozen?
    case Unfreeze => out.Success? ==> c.Frozen? && c'.Up?
    case StartStack => out.Success? ==> c'.Up?
    case StopStack => out.Success? ==> c'.Ended?
    case RemoveStack => out.Success? ==> c'.Absent?
    case CreateStack => out.Success? ==> c'.Ended? || (c' == c && !c.Absent?)
  }

  /** A command after whose failure the call gives up. */
  predicate GivesUp(call: Call, out: Outcome) {
    match CommandOf(call)
    case NoCommand => false
    case Inspect => false
    case Unfreeze => call.StopCall? && !out.Success?
    case StartStack => !out.Success? && !(call.start.SUp? && out.StaleContainers?)
    case _ => !out.Success?
  }

  /** An unfreezing that fails ends the teardown; containers that are there may survive a creation as they are. */
  predicate WorkerSpoils(pc: WorkerPc, out: Outcome, c: Real) {
    (pc.WUnfreeze? && !out.Success?) || (pc.WCreate? && out.Success? && (c.Up? || c.Frozen?))
  }

  // ---- parties at work on an app ----

  /** From its first decision until its row is settled. */
  predicate WorkerEngaged(pc: WorkerPc) {
    !pc.WAskLock? && !pc.WAwaitLock? && !pc.WLoadRow? && !pc.WCleanup?
  }

  ghost predicate AtWork(s: State, n: Name, p: Party) {
    match p
    case TheCall(id) => id in s.calls && AppOf(s.calls[id]) == n && Engaged(s.calls[id])
    case TheWorker => WorkingOn(s, n) && WorkerEngaged(s.worker.pc)
  }

  predicate SameKind(call: Call, other: Call) {
    match call
    case StartCall(_, _) => other.StartCall?
    case PauseCall(_, _) => other.PauseCall?
    case StopCall(_, _) => other.StopCall?
    case ApiCall(_, _) => false
  }

  ghost predicate Alike(s: State, p: Party, q: Party) {
    || p == q
    || (p.TheCall? && q.TheCall? && p.id in s.calls && q.id in s.calls && SameKind(s.calls[p.id], s.calls[q.id]))
  }

  /** All parties at work on n do the same: only revives, only pauses, only stops, or only the worker. */
  ghost predicate Unmixed(s: State, n: Name) {
    forall p, q :: AtWork(s, n, p) && AtWork(s, n, q) ==> Alike(s, p, q)
  }

  /** What holds while a call is at work: a write that is due is true of the containers. */
  predicate Halfway(call: Call, row: Row, c: Real) {
    match call
    case StartCall(_, SInspect(_)) => Agrees(row, c)
    case StartCall(_, SMark) => c.Up?
    case PauseCall(_, PMark) => c.Frozen?
    case StopCall(_, TMark) => c.Ended?
    case _ => true
  }

  predicate WorkerHalfway(pc: WorkerPc, c: Real) {
    match pc
    case WMarkUnfrozen => c.Up?
    case WStopMark => c.Ended?
    case WDownMark => c.Absent?
    case WFinish => c.Ended? || c.Absent?
    case _ => true
  }

  ghost predicate PartyHalfway(s: State, n: Name, p: Party, c: Real)
    requires AtWork(s, n, p)
  {
    match p
    case TheCall(id) => Halfway(s.calls[id], RowOf(s, n), c)
    case TheWorker => WorkerHalfway(s.worker.pc, c)
  }

  ghost predicate InStep(s: State, n: Name, c: Real) {
    && ((forall p :: !AtWork(s, n, p)) ==> Agrees(RowOf(s, n), c))
    && (forall p :: AtWork(s, n, p) ==> PartyHalfway(s, n, p, c))
  }

  /** The turn is one of a call on n, or of the worker at a task for n. */
  predicate OnApp(s: State, e: Event, n: Name) {
    || (e.CallTurn? && e.id in s.calls && AppOf(s.calls[e.id]) == n)
    || (e.WorkerTurn? && WorkingOn(s, n))
  }

  /**
    The containers of n after one event. Commands of calls do not fail for good, an unfreezing of the worker does not
    fail, and the worker creates containers only over none or stopped ones.
   */
  ghost predicate Touches(s: State, e: Event, n: Name, c: Real, c': Real) {
    if !OnApp(s, e, n) then c' == c
    else if e.CallTurn? then Possible(CommandOf(s.calls[e.id]), e.out, c, c') && !GivesUp(s.calls[e.id], e.out)
    else Possible(WorkerCommand(s.worker.pc), e.out, c, c') && !WorkerSpoils(s.worker.pc, e.out, c)
  }

  // ---- one turn ----

  /** A call that checks the row, works or writes leaves the row and the containers in step. */
  lemma CallInStep(call: Call, row: Row, holds: bool, out: Outcome, c: Real, c': Real)
    requires if Engaged(call) then Halfway(call, row, c) else Agrees(row, c)
    requires Possible(CommandOf(call), out, c, c') && !GivesUp(call, out)
    ensures
      match CallTurnOf(call, row, holds, out)
      case Wait => !Engaged(call)
      case Continue(call', effect) =>
        var row' := Written(row, effect.row);
        if Engaged(call') then Halfway(call', row', c') else Agrees(row', c')
      case End(effect) => Agrees(Written(row, effect.row), c')
      case EndEnqueueing(_) => true
  {
  }

  /** So does the worker. */
  lemma WorkerInStep(kind: TaskKind, pc: WorkerPc, row: Row, holds: bool, out: Outcome, c: Real, c': Real)
    requires if WorkerEngaged(pc) then WorkerHalfway(pc, c) else Agrees(row, c)
    requires Possible(WorkerCommand(pc), out, c, c') && !WorkerSpoils(pc, out, c)
    ensures
      match WorkerTurnOf(kind, pc, row, holds, out)
      case Stay => !WorkerEngaged(pc)
      case GoTo(pc', effect) =>
        if WorkerEngaged(pc') then WorkerHalfway(pc', c') else Agrees(Written(row, effect.row), c')
      case Finish(effect) => Agrees(Written(row, effect.row), c')
  {
  }

  /** While another call is at work on n, a call that is not can only write an API request. */
  lemma BystanderInStep(call: Call, row: Row, holds: bool, out: Outcome, other: Call, c: Real)
    requires !Engaged(call) && Engaged(other) && Halfway(other, row, c)
    ensures
      match CallTurnOf(call, row, holds, out)
      case Wait => true
      case Continue(_, effect) => Halfway(other, Written(row, effect.row), c)
      case End(effect) => Halfway(other, Written(row, effect.row), c)
      case EndEnqueueing(_) => true
  {
  }

  /** Two pauses, or two stops, do not get in each other's way. */
  lemma FellowInStep(call: Call, row: Row, holds: bool, out: Outcome, other: Call, c: Real, c': Real)
    requires Engaged(call) && Engaged(other) && SameKind(call, other) && !call.StartCall?
    requires Halfway(call, row, c) && Halfway(other, row, c)
    requires Possible(CommandOf(call), out, c, c') && !GivesUp(call, out)
    ensures forall row' :: Halfway(other, row', c')
  {
  }

  /** The row and the worker after its turn. */
  lemma AfterWorkerTurn(s: State, out: Outcome)
    requires s.worker.Busy?
    ensures var n, s' := s.worker.task.name, WorkerNext(s, out);
      && s'.calls == s.calls
      && match WorkerTurnOf(s.worker.task.kind, s.worker.pc, RowOf(s, n), Holds(s, n, TheWorker), out)
         case Stay => s' == s
         case GoTo(pc, effect) =>
           RowOf(s', n) == Written(RowOf(s, n), effect.row) && s'.worker == Busy(s.worker.task, pc)
         case Finish(effect) => RowOf(s', n) == Written(RowOf(s, n), effect.row) && s'.worker.Idle?
  {
  }

  // ---- one event ----

  /** Nobody but the acting party changes what it is at. */
  lemma OthersStayAtWork(s: State, e: Event, n: Name)
    ensures forall p :: p != Actor(e) ==>
      && AtWork(Next(s, e), n, p) == AtWork(s, n, p)
      && (p.TheCall? && AtWork(s, n, p) ==> Next(s, e).calls[p.id] == s.calls[p.id])
      && (p.TheWorker? ==> Next(s, e).worker == s.worker)
  {
    OthersUntouched(s, e);
  }

  lemma RowElsewhere(s: State, e: Event, n: Name)
    requires !OnApp(s, e, n)
    ensures RowOf(Next(s, e), n) == RowOf(s, n)
  {
  }

  /** A party that moves on another app, or a new call, is not at work on n. */
  lemma ActorElsewhere(s: State, e: Event, n: Name)
    requires !OnApp(s, e, n) && Next(s, e) != s
    ensures !AtWork(s, n, Actor(e)) && !AtWork(Next(s, e), n, Actor(e))
  {
    if e.CallTurn? && e.id in s.calls {
      AfterTurn(s, e.id, e.out);
    }
  }

  lemma ElsewhereInStep(s: State, e: Event, n: Name, c: Real)
    requires InStep(s, n, c) && !OnApp(s, e, n)
    ensures InStep(Next(s, e), n, c)
  {
    var s' := Next(s, e);
    if s' == s {
      return;
    }
    ActorElsewhere(s, e, n);
    RowElsewhere(s, e, n);
    OthersStayAtWork(s, e, n);
    forall p ensures AtWork(s', n, p) <==> AtWork(s, n, p) {
      if p == Actor(e) {
        assert !AtWork(s, n, p) && !AtWork(s', n, p);
      }
    }
  }

  /** What the acting call is up to after its turn. */
  lemma ActorAfterTurn(s: State, id: nat, out: Outcome, n: Name, c: Real, c': Real)
    requires id in s.calls && AppOf(s.calls[id]) == n
    requires if Engaged(s.calls[id]) then Halfway(s.calls[id], RowOf(s, n), c) else Agrees(RowOf(s, n), c)
    requires Possible(CommandOf(s.calls[id]), out, c, c') && !GivesUp(s.calls[id], out)
    ensures var s', p := CallNext(s, id, out), TheCall(id);
      if AtWork(s', n, p) then PartyHalfway(s', n, p, c') else Agrees(RowOf(s', n), c')
  {
    AfterTurn(s, id, out);
    CallInStep(s.calls[id], RowOf(s, n), Holds(s, n, TheCall(id)), out, c, c');
  }

  lemma WorkerAfterTurn(s: State, out: Outcome, n: Name, c: Real, c': Real)
    requires WorkingOn(s, n)
    requires if WorkerEngaged(s.worker.pc) then WorkerHalfway(s.worker.pc, c) else Agrees(RowOf(s, n), c)
    requires Possible(WorkerCommand(s.worker.pc), out, c, c') && !WorkerSpoils(s.worker.pc, out, c)
    ensures var s' := WorkerNext(s, out);
      if AtWork(s', n, TheWorker) then PartyHalfway(s', n, TheWorker, c') else Agrees(RowOf(s', n), c')
  {
    AfterWorkerTurn(s, out);
    WorkerInStep(s.worker.task.kind, s.worker.pc, RowOf(s, n), Holds(s, n, TheWorker), out, c, c');
  }

  /** The turn of the only party at work on n, or of a party when none is. */
  lemma SoleTurnInStep(s: State, e: Event, n: Name, c: Real, c': Real)
    requires InStep(s, n, c) && OnApp(s, e, n) && Touches(s, e, n, c, c')
    requires forall p :: p != Actor(e) ==> !AtWork(s, n, p)
    ensures InStep(Next(s, e), n, c')
  {
    var s', a := Next(s, e), Actor(e);
    OthersStayAtWork(s, e, n);
    assert !AtWork(s, n, a) ==> Agrees(RowOf(s, n), c);
    assert AtWork(s, n, a) ==> PartyHalfway(s, n, a, c);
    match e {
      case CallTurn(id, out) => ActorAfterTurn(s, id, out, n, c, c');
      case WorkerTurn(out) => WorkerAfterTurn(s, out, n, c, c');
    }
    assert forall p :: p != a ==> !AtWork(s', n, p);
  }

  /** A party at work keeps its state while another one moves. */
  lemma OtherHalfway(s: State, e: Event, n: Name, c: Real, c': Real, p: Party)
    requires p != Actor(e) && AtWork(s, n, p) && AtWork(Next(s, e), n, p)
    requires
      match p
      case TheWorker => c' == c && WorkerHalfway(s.worker.pc, c)
      case TheCall(id) => Halfway(s.calls[id], RowOf(Next(s, e), n), c')
    ensures PartyHalfway(Next(s, e), n, p, c')
  {
    OthersStayAtWork(s, e, n);
  }

  /** A call that is not at work on n moves beside one that is. */
  lemma BesideInStep(s: State, id: nat, out: Outcome, n: Name, c: Real, p: Party)
    requires id in s.calls && AppOf(s.calls[id]) == n && !AtWork(s, n, TheCall(id))
    requires p != TheCall(id) && AtWork(s, n, p) && PartyHalfway(s, n, p, c)
    ensures AtWork(CallNext(s, id, out), n, p) && PartyHalfway(CallNext(s, id, out), n, p, c)
  {
    OthersStayAtWork(s, CallTurn(id, out), n);
    if p.TheCall? {
      AfterTurn(s, id, out);
      BystanderInStep(s.calls[id], RowOf(s, n), Holds(s, n, TheCall(id)), out, s.calls[p.id], c);
    }
    OtherHalfway(s, CallTurn(id, out), n, c, c, p);
  }

  /** Two revives are never at work on one app, for they hold its lock. */
  lemma NoTwoRevives(s: State, n: Name, i: nat, j: nat)
    requires Sound(s) && AtWork(s, n, TheCall(i)) && AtWork(s, n, TheCall(j)) && i != j
    ensures !s.calls[i].StartCall? || !s.calls[j].StartCall?
  {
    if s.calls[i].StartCall? && s.calls[j].StartCall? {
      OneInside(s, n, TheCall(i), TheCall(j));
    }
  }

  /** A call that gets to work beside another one has nothing due yet. */
  lemma JoinsInStep(s: State, id: nat, out: Outcome, n: Name, c: Real, p: Party)
    requires Sound(s) && id in s.calls && AppOf(s.calls[id]) == n && !AtWork(s, n, TheCall(id))
    requires p != TheCall(id) && AtWork(s, n, p) && AtWork(CallNext(s, id, out), n, TheCall(id))
    requires Unmixed(CallNext(s, id, out), n)
    ensures PartyHalfway(CallNext(s, id, out), n, TheCall(id), c)
  {
    var s', e := CallNext(s, id, out), CallTurn(id, out);
    OthersStayAtWork(s, e, n);
    AfterTurn(s, id, out);
    SoundKept(s, e);
    assert Alike(s', TheCall(id), p);
    NoTwoRevives(s', n, id, p.id);
  }

  lemma FellowTurnInStep(s: State, id: nat, out: Outcome, n: Name, c: Real, c': Real, p: Party)
    requires Sound(s) && Unmixed(s, n) && p != TheCall(id) && AtWork(s, n, p) && AtWork(s, n, TheCall(id))
    requires PartyHalfway(s, n, p, c) && PartyHalfway(s, n, TheCall(id), c)
    requires Possible(CommandOf(s.calls[id]), out, c, c') && !GivesUp(s.calls[id], out)
    ensures AtWork(CallNext(s, id, out), n, p) && PartyHalfway(CallNext(s, id, out), n, p, c')
  {
    OthersStayAtWork(s, CallTurn(id, out), n);
    assert Alike(s, TheCall(id), p);
    NoTwoRevives(s, n, id, p.id);
    FellowInStep(s.calls[id], RowOf(s, n), Holds(s, n, TheCall(id)), out, s.calls[p.id], c, c');
    OtherHalfway(s, CallTurn(id, out), n, c, c', p);
  }

  /** The turn of a call while others are at work on the app. */
  lemma CallAmongOthers(s: State, id: nat, out: Outcome, n: Name, c: Real, c': Real, other: Party)
    requires Sound(s) && InStep(s, n, c) && Unmixed(s, n) && Unmixed(CallNext(s, id, out), n)
    requires id in s.calls && AppOf(s.calls[id]) == n && other != TheCall(id) && AtWork(s, n, other)
    requires Possible(CommandOf(s.calls[id]), out, c, c') && !GivesUp(s.calls[id], out)
    ensures InStep(CallNext(s, id, out), n, c')
  {
    var s', e, a := CallNext(s, id, out), CallTurn(id, out), TheCall(id);
    OthersStayAtWork(s, e, n);
    assert AtWork(s', n, other);
    forall p | AtWork(s', n, p) ensures PartyHalfway(s', n, p, c') {
      if AtWork(s, n, a) {
        if p == a {
          ActorAfterTurn(s, id, out, n, c, c');
        } else {
          FellowTurnInStep(s, id, out, n, c, c', p);
        }
      } else {
        assert c' == c;
        if p == a {
          JoinsInStep(s, id, out, n, c, other);
        } else {
          BesideInStep(s, id, out, n, c, p);
        }
      }
    }
  }

  /** The worker does not get to work while calls are, and before that it touches neither row nor containers. */
  lemma WorkerAmongOthers(s: State, out: Outcome, n: Name, c: Real, c': Real, other: Party)
    requires InStep(s, n, c) && Unmixed(s, n) && Unmixed(WorkerNext(s, out), n)
    requires WorkingOn(s, n) && other != TheWorker && AtWork(s, n, other)
    requires Possible(WorkerCommand(s.worker.pc), out, c, c')
    ensures InStep(WorkerNext(s, out), n, c')
  {
    var s' := WorkerNext(s, out);
    OthersStayAtWork(s, WorkerTurn(out), n);
    assert AtWork(s', n, other);
    assert !AtWork(s, n, TheWorker) by { assert !Alike(s, TheWorker, other); }
    assert !AtWork(s', n, TheWorker) by { assert !Alike(s', TheWorker, other); }
    AfterWorkerTurn(s, out);
    assert RowOf(s', n) == RowOf(s, n) && c' == c;
  }

  lemma {:induction false} InStepKept(s: State, e: Event, n: Name, c: Real, c': Real)
    requires Sound(s) && InStep(s, n, c) && Unmixed(s, n) && Unmixed(Next(s, e), n) && Touches(s, e, n, c, c')
    ensures InStep(Next(s, e), n, c')
  {
    if !OnApp(s, e, n) {
      ElsewhereInStep(s, e, n, c);
    } else if other :| other != Actor(e) && AtWork(s, n, other) {
      match e
      case CallTurn(id, out) => CallAmongOthers(s, id, out, n, c, c', other);
      case WorkerTurn(out) => WorkerAmongOthers(s, out, n, c, c', other);
    } else {
      SoleTurnInStep(s, e, n, c, c');
    }
  }

  // ---- whole schedules ----

  /** The containers of n along a schedule: reals[i] before event i. */
  ghost predicate Along(s: State, events: seq<Event>, n: Name, reals: seq<Real>) {
    && |reals| == |events| + 1
    && forall i, j :: 0 <= i < j <= |events| && j == i + 1 ==>
         Touches(Run(s, events[..i]), events[i], n, reals[i], reals[j])
  }

  ghost predicate NeverMixed(s: State, events: seq<Event>, n: Name) {
    forall i :: 0 <= i <= |events| ==> Unmixed(Run(s, events[..i]), n)
  }

  lemma {:induction false} InStepAt(s: State, events: seq<Event>, n: Name, reals: seq<Real>, i: nat)
    requires Sound(s) && Along(s, events, n, reals) && NeverMixed(s, events, n) && InStep(s, n, reals[0])
    requires i <= |events|
    ensures InStep(Run(s, events[..i]), n, reals[i])
  {
    if i > 0 {
      InStepAt(s, events, n, reals, i - 1);
      assert events[..i][..i - 1] == events[..i - 1];
      assert Unmixed(Run(s, events[..i - 1]), n) && Unmixed(Run(s, events[..i]), n);
      EveryRunIsSound(s, events[..i - 1]);
      InStepKept(Run(s, events[..i - 1]), events[i - 1], n, reals[i - 1], reals[i]);
    }
  }

  /**
    As long as different kinds of work on an app do not mix, and the commands succeed, status and containers agree
    whenever nobody is at work on it, through installations and teardowns, whatever API calls and other apps do.
   */
  lemma AgreeUnlessMixed(s: State, events: seq<Event>, n: Name, reals: seq<Real>)
    requires Sound(s) && Along(s, events, n, reals) && NeverMixed(s, events, n)
    requires Agrees(RowOf(s, n), reals[0]) && forall p :: !AtWork(s, n, p)
    requires forall p :: !AtWork(Run(s, events), n, p)
    ensures Agrees(RowOf(Run(s, events), n), reals[|events|])
  {
    InStepAt(s, events, n, reals, |events|);
    assert events[..|events|] == events;
  }

  // ---- work that mixes ----

  /** The next turn of the call writes its status. */
  predicate Due(call: Call) {
    match call
    case StartCall(_, pc) => pc.SMark?
    case PauseCall(_, pc) => pc.PMark?
    case StopCall(_, pc) => pc.TMark?
    case ApiCall(_, _) => false
  }

  function DueStatus(call: Call): Status
    requires Due(call)
  {
    match call
    case StartCall(_, _) => Running
    case PauseCall(_, _) => Paused
    case StopCall(_, _) => Stopped
  }

  /** The schedule so far, the containers along it, and the state it has led to. */
  ghost predicate Reached(s0: State, events: seq<Event>, n: Name, reals: seq<Real>, s: State) {
    Along(s0, events, n, reals) && s == Run(s0, events)
  }

  function Now(reals: seq<Real>): Real
    requires reals != []
  {
    reals[|reals| - 1]
  }

  lemma DueTurnWrites(s: State, n: Name, id: nat, other: nat)
    requires id in s.calls && AppOf(s.calls[id]) == n && Due(s.calls[id]) && n in s.rows
    ensures RowOf(CallNext(s, id, Success), n) == Row(DueStatus(s.calls[id]))
    ensures other != id && other in s.calls ==>
      other in CallNext(s, id, Success).calls && CallNext(s, id, Success).calls[other] == s.calls[other]
  {
    AfterTurn(s, id, Success);
  }

  /** Of those at work before, all but p are at work. */
  ghost predicate Done(s: State, s': State, n: Name, p: Party) {
    forall q :: AtWork(s', n, q) <==> AtWork(s, n, q) && q != p
  }

  lemma DueTurnDone(s: State, n: Name, id: nat)
    requires id in s.calls && AppOf(s.calls[id]) == n && Due(s.calls[id])
    ensures Done(s, CallNext(s, id, Success), n, TheCall(id))
  {
    AfterTurn(s, id, Success);
    OthersStayAtWork(s, CallTurn(id, Success), n);
  }

  lemma DueTurn(s0: State, events: seq<Event>, n: Name, reals: seq<Real>, s: State, id: nat, other: nat)
      returns (events': seq<Event>, reals': seq<Real>, s': State)
    requires Reached(s0, events, n, reals, s) && n in s.rows && id != other
    requires id in s.calls && AppOf(s.calls[id]) == n && Due(s.calls[id])
    ensures Reached(s0, events', n, reals', s')
    ensures events' == events + [CallTurn(id, Success)] && reals' == reals + [Now(reals)]
    ensures RowOf(s', n) == Row(DueStatus(s.calls[id])) && Done(s, s', n, TheCall(id)) && s'.worker == s.worker
    ensures other in s.calls ==> other in s'.calls && s'.calls[other] == s.calls[other]
  {
    DueTurnWrites(s, n, id, other);
    DueTurnDone(s, n, id);
    WorkerUntouched(s, CallTurn(id, Success));
    events', reals', s' := Follow(s0, events, n, reals, s, CallTurn(id, Success), Now(reals));
  }

  lemma StartsHere(s: State, n: Name, c: Real)
    ensures Reached(s, [], n, [c], s)
  {
  }

  lemma DueTurns(s: State, n: Name, first: nat, last: nat, c: Real) returns (events: seq<Event>)
    requires n in s.rows && first in s.calls && last in s.calls && first != last
    requires AppOf(s.calls[first]) == AppOf(s.calls[last]) == n && Due(s.calls[first]) && Due(s.calls[last])
    ensures events == [CallTurn(first, Success), CallTurn(last, Success)] && Along(s, events, n, [c, c, c])
    ensures RowOf(Run(s, events), n) == Row(DueStatus(s.calls[last]))
    ensures BothDone(s, Run(s, events), n, TheCall(first), TheCall(last))
  {
    StartsHere(s, n, c);
    var events1, reals1, s1 := DueTurn(s, [], n, [c], s, first, last);
    assert reals1 == [c, c] && Now(reals1) == c;
    var events2, reals2, s2 := DueTurn(s, events1, n, reals1, s1, last, first);
    assert reals2 == [c, c, c];
    events := events2;
  }

  /** Of those at work before, all but p and q are at work: nobody, if they were the only ones. */
  ghost predicate BothDone(s: State, s': State, n: Name, p: Party, q: Party) {
    forall r :: AtWork(s', n, r) <==> AtWork(s, n, r) && r != p && r != q
  }

  /**
    Wherever two calls of different kinds have their writes due, one order of the two turns leaves a status that is
    not true of the containers, whatever state these are in.
   */
  lemma MixedWritesPart(s: State, n: Name, i: nat, j: nat, c: Real) returns (events: seq<Event>)
    requires n in s.rows && i in s.calls && j in s.calls && AppOf(s.calls[i]) == AppOf(s.calls[j]) == n
    requires Due(s.calls[i]) && Due(s.calls[j]) && !SameKind(s.calls[i], s.calls[j])
    ensures events in {[CallTurn(i, Success), CallTurn(j, Success)], [CallTurn(j, Success), CallTurn(i, Success)]}
    ensures Along(s, events, n, [c, c, c]) && !Agrees(RowOf(Run(s, events), n), c)
    ensures BothDone(s, Run(s, events), n, TheCall(i), TheCall(j))
  {
    if Agrees(Row(DueStatus(s.calls[j])), c) {
      events := DueTurns(s, n, j, i, c);
    } else {
      events := DueTurns(s, n, i, j, c);
    }
  }

  /** One turn of a call that writes nothing yet. */
  lemma Moves(s0: State, events: seq<Event>, n: Name, reals: seq<Real>, s: State,
              id: nat, out: Outcome, call: Call, c: Real)
      returns (events': seq<Event>, reals': seq<Real>, s': State)
    requires Reached(s0, events, n, reals, s) && id in s.calls && AppOf(s.calls[id]) == n
    requires var move := CallTurnOf(s.calls[id], RowOf(s, n), Holds(s, n, TheCall(id)), out);
      move.Continue? && move.call == call && move.effect.row.KeepRow?
    requires Possible(CommandOf(s.calls[id]), out, Now(reals), c) && !GivesUp(s.calls[id], out)
    ensures Reached(s0, events', n, reals', s') && Now(reals') == c && reals'[0] == reals[0]
    ensures s'.calls == s.calls[id := call] && RowOf(s', n) == RowOf(s, n) && s'.worker == s.worker
  {
    AfterTurn(s, id, out);
    WorkerUntouched(s, CallTurn(id, out));
    events', reals', s' := Follow(s0, events, n, reals, s, CallTurn(id, out), c);
  }

  /** A revive at work can always get its containers up. */
  lemma {:induction false} ReviveGetsDue(s0: State, events: seq<Event>, n: Name, reals: seq<Real>, s: State, id: nat)
      returns (events': seq<Event>, reals': seq<Real>, s': State)
    requires Reached(s0, events, n, reals, s)
    requires id in s.calls && s.calls[id].StartCall? && s.calls[id].name == n && Engaged(s.calls[id])
    ensures Reached(s0, events', n, reals', s') && reals'[0] == reals[0]
    ensures s'.calls == s.calls[id := StartCall(n, SMark)] && RowOf(s', n) == RowOf(s, n) && s'.worker == s.worker
    ensures Now(reals') == if s.calls[id].start.SMark? then Now(reals) else Up
    decreases StartRank(s.calls[id].start)
  {
    events', reals', s' := events, reals, s;
    var pc, c := s.calls[id].start, Now(reals);
    if !pc.SMark? {
      var (out, next, c') :=
        match pc
        case SInspect(_) => (Observed(Missing), SUp, c)
        case SUnpause => (Failure, SUp, c)
        case SReset => (Success, SUpAgain, Absent)
        case _ => (Success, SMark, Up);
      events', reals', s' := Moves(s0, events, n, reals, s, id, out, StartCall(n, next), c');
      if c' == Up && next.SMark? {
        return;
      }
      events', reals', s' := ReviveGetsDue(s0, events', n, reals', s', id);
    }
  }

  lemma PauseGetsDue(s0: State, events: seq<Event>, n: Name, reals: seq<Real>, s: State, id: nat)
      returns (events': seq<Event>, reals': seq<Real>, s': State)
    requires Reached(s0, events, n, reals, s)
    requires id in s.calls && s.calls[id].PauseCall? && s.calls[id].name == n && Engaged(s.calls[id])
    requires s.calls[id].pause.PFreeze? ==> Now(reals).Up?
    ensures Reached(s0, events', n, reals', s') && reals'[0] == reals[0]
    ensures s'.calls == s.calls[id := PauseCall(n, PMark)] && RowOf(s', n) == RowOf(s, n) && s'.worker == s.worker
    ensures Now(reals') == if s.calls[id].pause.PMark? then Now(reals) else Frozen
  {
    events', reals', s' := events, reals, s;
    if s.calls[id].pause.PFreeze? {
      events', reals', s' := Moves(s0, events, n, reals, s, id, Success, PauseCall(n, PMark), Frozen);
    }
  }

  lemma StopGetsDue(s0: State, events: seq<Event>, n: Name, reals: seq<Real>, s: State, id: nat)
      returns (events': seq<Event>, reals': seq<Real>, s': State)
    requires Reached(s0, events, n, reals, s)
    requires id in s.calls && s.calls[id].StopCall? && s.calls[id].name == n && Engaged(s.calls[id])
    requires s.calls[id].stop.TUnfreeze? ==> Now(reals).Frozen?
    ensures Reached(s0, events', n, reals', s') && reals'[0] == reals[0]
    ensures s'.calls == s.calls[id := StopCall(n, TMark)] && RowOf(s', n) == RowOf(s, n) && s'.worker == s.worker
  {
    events', reals', s' := events, reals, s;
    if s'.calls[id].stop.TUnfreeze? {
      events', reals', s' := Moves(s0, events', n, reals', s', id, Success, StopCall(n, TStop), Up);
    }
    if s'.calls[id].stop.TStop? {
      events', reals', s' := Moves(s0, events', n, reals', s', id, Success, StopCall(n, TMark), Ended);
    }
  }

  /** docker can let both calls succeed. */
  predicate BothCanSucceed(call: Call, other: Call, c: Real) {
    match (call, other)
    case (StartCall(_, start), PauseCall(_, pause)) => pause.PFreeze? && start.SMark? ==> c.Up?
    case (StartCall(_, _), StopCall(_, stop)) => stop.TUnfreeze? ==> c.Frozen?
    case (PauseCall(_, pause), StopCall(_, stop)) =>
      && (pause.PFreeze? ==> c.Up? || (c.Frozen? && stop.TUnfreeze?))
      && (stop.TUnfreeze? ==> c.Frozen? || (c.Up? && pause.PFreeze?))
    case _ => false
  }

  /** Both writes are due, and nobody else has moved. */
  ghost predicate BothDue(s: State, s': State, n: Name, i: nat, j: nat) {
    && RowOf(s', n) == RowOf(s, n) && SameAtWork(s, s', n)
    && i in s'.calls && j in s'.calls && AppOf(s'.calls[i]) == AppOf(s'.calls[j]) == n
    && Due(s'.calls[i]) && Due(s'.calls[j]) && !SameKind(s'.calls[i], s'.calls[j])
  }

  lemma ReviveAndPauseGetDue(s: State, n: Name, i: nat, j: nat, c: Real)
      returns (events: seq<Event>, reals: seq<Real>, s': State)
    requires AtWork(s, n, TheCall(i)) && AtWork(s, n, TheCall(j)) && s.calls[i].StartCall? && s.calls[j].PauseCall?
    requires BothCanSucceed(s.calls[i], s.calls[j], c)
    ensures Reached(s, events, n, reals, s') && reals[0] == c && BothDue(s, s', n, i, j)
  {
    StartsHere(s, n, c);
    var events1, reals1, s1 := ReviveGetsDue(s, [], n, [c], s, i);
    events, reals, s' := PauseGetsDue(s, events1, n, reals1, s1, j);
  }

  lemma ReviveAndStopGetDue(s: State, n: Name, i: nat, j: nat, c: Real)
      returns (events: seq<Event>, reals: seq<Real>, s': State)
    requires AtWork(s, n, TheCall(i)) && AtWork(s, n, TheCall(j)) && s.calls[i].StartCall? && s.calls[j].StopCall?
    requires BothCanSucceed(s.calls[i], s.calls[j], c)
    ensures Reached(s, events, n, reals, s') && reals[0] == c && BothDue(s, s', n, i, j)
  {
    StartsHere(s, n, c);
    var events1, reals1, s1 := StopGetsDue(s, [], n, [c], s, j);
    events, reals, s' := ReviveGetsDue(s, events1, n, reals1, s1, i);
  }

  lemma PauseAndStopGetDue(s: State, n: Name, i: nat, j: nat, c: Real)
      returns (events: seq<Event>, reals: seq<Real>, s': State)
    requires AtWork(s, n, TheCall(i)) && AtWork(s, n, TheCall(j)) && s.calls[i].PauseCall? && s.calls[j].StopCall?
    requires BothCanSucceed(s.calls[i], s.calls[j], c)
    ensures Reached(s, events, n, reals, s') && reals[0] == c && BothDue(s, s', n, i, j)
  {
    StartsHere(s, n, c);
    events, reals, s' := [], [c], s;
    if s.calls[i].pause.PFreeze? && c.Frozen? {
      events, reals, s' := Moves(s, events, n, reals, s', j, Success, StopCall(n, TStop), Up);
    }
    events, reals, s' := PauseGetsDue(s, events, n, reals, s', i);
    events, reals, s' := StopGetsDue(s, events, n, reals, s', j);
  }

  lemma BothGetDue(s: State, n: Name, i: nat, j: nat, c: Real)
      returns (events: seq<Event>, reals: seq<Real>, s': State)
    requires AtWork(s, n, TheCall(i)) && AtWork(s, n, TheCall(j)) && BothCanSucceed(s.calls[i], s.calls[j], c)
    ensures Reached(s, events, n, reals, s') && reals[0] == c && BothDue(s, s', n, i, j)
  {
    if s.calls[j].PauseCall? {
      events, reals, s' := ReviveAndPauseGetDue(s, n, i, j, c);
    } else if s.calls[i].StartCall? {
      events, reals, s' := ReviveAndStopGetDue(s, n, i, j, c);
    } else {
      events, reals, s' := PauseAndStopGetDue(s, n, i, j, c);
    }
  }

  ghost predicate SameAtWork(s: State, s': State, n: Name) {
    forall p :: AtWork(s', n, p) <==> AtWork(s, n, p)
  }

  /**
    Wherever two calls of different kinds are at work on an app and docker can let both succeed, a schedule in which
    both do leaves, when both are done, a status that is not true of the containers.
   */
  lemma MixedWorkMayPart(s: State, n: Name, i: nat, j: nat, c: Real)
      returns (events: seq<Event>, reals: seq<Real>, writes: seq<Event>)
    requires n in s.rows && AtWork(s, n, TheCall(i)) && AtWork(s, n, TheCall(j))
    requires BothCanSucceed(s.calls[i], s.calls[j], c)
    ensures Along(s, events, n, reals) && reals[0] == c
    ensures var s', c' := Run(s, events), reals[|events|];
      && Along(s', writes, n, [c', c', c']) && !Agrees(RowOf(Run(s', writes), n), c')
      && BothDone(s, Run(s', writes), n, TheCall(i), TheCall(j))
  {
    var s': State;
    events, reals, s' := BothGetDue(s, n, i, j, c);
    writes := MixedWritesPart(s', n, i, j, Now(reals));
  }

  // ---- a call that mixes with the worker ----

  /** Between the download and the last write of an installation or a reinstallation. */
  predicate Obtains(s: State, n: Name) {
    && s.worker.Busy? && s.worker.task.name == n && !s.worker.task.kind.Uninstall?
    && (s.worker.pc.WObtain? || s.worker.pc.WCreate? || s.worker.pc.WFinish?)
  }

  /** One turn of the worker that writes nothing yet. */
  lemma WorkerMoves(s0: State, events: seq<Event>, n: Name, reals: seq<Real>, s: State, c: Real)
      returns (events': seq<Event>, reals': seq<Real>, s': State)
    requires Reached(s0, events, n, reals, s) && Obtains(s, n) && !s.worker.pc.WFinish?
    requires Possible(WorkerCommand(s.worker.pc), Success, Now(reals), c)
    requires !WorkerSpoils(s.worker.pc, Success, Now(reals))
    ensures Reached(s0, events', n, reals', s') && Now(reals') == c && reals'[0] == reals[0]
    ensures s'.worker == Busy(s.worker.task, if s.worker.pc.WObtain? then WCreate else WFinish)
    ensures s'.calls == s.calls && s'.rows == s.rows
  {
    WorkerMovesOn(s, n);
    events', reals', s' := Follow(s0, events, n, reals, s, WorkerTurn(Success), c);
  }

  lemma WorkerMovesOn(s: State, n: Name)
    requires Obtains(s, n) && !s.worker.pc.WFinish?
    ensures var s' := WorkerNext(s, Success);
      && s'.worker == Busy(s.worker.task, if s.worker.pc.WObtain? then WCreate else WFinish)
      && s'.calls == s.calls && s'.rows == s.rows
  {
  }

  lemma TaskGetsDue(s0: State, events: seq<Event>, n: Name, reals: seq<Real>, s: State)
      returns (events': seq<Event>, reals': seq<Real>, s': State)
    requires Reached(s0, events, n, reals, s) && Obtains(s, n)
    requires !s.worker.pc.WFinish? ==> Now(reals).Absent? || Now(reals).Ended?
    ensures Reached(s0, events', n, reals', s') && reals'[0] == reals[0]
    ensures s'.worker == Busy(s.worker.task, WFinish) && s'.calls == s.calls && s'.rows == s.rows
    ensures s.worker.pc.WFinish? ==> Now(reals') == Now(reals)
  {
    events', reals', s' := events, reals, s;
    if s'.worker.pc.WObtain? {
      events', reals', s' := WorkerMoves(s0, events', n, reals', s', Now(reals'));
    }
    if s'.worker.pc.WCreate? {
      events', reals', s' := WorkerMoves(s0, events', n, reals', s', Ended);
    }
  }

  /** The last write of the task. */
  lemma LastTurnOfTask(s0: State, events: seq<Event>, n: Name, reals: seq<Real>, s: State)
      returns (events': seq<Event>, reals': seq<Real>, s': State)
    requires Reached(s0, events, n, reals, s) && Obtains(s, n) && s.worker.pc.WFinish? && n in s.rows
    ensures Reached(s0, events', n, reals', s')
    ensures events' == events + [WorkerTurn(Success)] && reals' == reals + [Now(reals)]
    ensures RowOf(s', n) == Row(Stopped) && s'.calls == s.calls && Done(s, s', n, TheWorker)
  {
    OthersStayAtWork(s, WorkerTurn(Success), n);
    events', reals', s' := Follow(s0, events, n, reals, s, WorkerTurn(Success), Now(reals));
  }

  /** Wherever the last write of a task and one of a revive or a pause are due, one order leaves a false status. */
  lemma TaskAndCallPart(s: State, n: Name, id: nat, c: Real) returns (events: seq<Event>)
    requires n in s.rows && Obtains(s, n) && s.worker.pc.WFinish?
    requires id in s.calls && AppOf(s.calls[id]) == n && Due(s.calls[id]) && !s.calls[id].StopCall?
    ensures Along(s, events, n, [c, c, c]) && |events| == 2 && !Agrees(RowOf(Run(s, events), n), c)
    ensures BothDone(s, Run(s, events), n, TheWorker, TheCall(id))
  {
    if Agrees(Row(DueStatus(s.calls[id])), c) {
      events := CallThenTask(s, n, id, c);
    } else {
      events := TaskThenCall(s, n, id, c);
    }
  }

  lemma CallThenTask(s: State, n: Name, id: nat, c: Real) returns (events: seq<Event>)
    requires n in s.rows && Obtains(s, n) && s.worker.pc.WFinish?
    requires id in s.calls && AppOf(s.calls[id]) == n && Due(s.calls[id])
    ensures Along(s, events, n, [c, c, c]) && |events| == 2 && RowOf(Run(s, events), n) == Row(Stopped)
    ensures BothDone(s, Run(s, events), n, TheWorker, TheCall(id))
  {
    StartsHere(s, n, c);
    var events1, reals1, s1 := DueTurn(s, [], n, [c], s, id, id + 1);
    assert reals1 == [c, c] && Now(reals1) == c;
    var events2, reals2, s2 := LastTurnOfTask(s, events1, n, reals1, s1);
    assert reals2 == [c, c, c];
    events := events2;
  }

  lemma TaskThenCall(s: State, n: Name, id: nat, c: Real) returns (events: seq<Event>)
    requires n in s.rows && Obtains(s, n) && s.worker.pc.WFinish?
    requires id in s.calls && AppOf(s.calls[id]) == n && Due(s.calls[id])
    ensures Along(s, events, n, [c, c, c]) && |events| == 2
    ensures RowOf(Run(s, events), n) == Row(DueStatus(s.calls[id]))
    ensures BothDone(s, Run(s, events), n, TheWorker, TheCall(id))
  {
    StartsHere(s, n, c);
    var events1, reals1, s1 := LastTurnOfTask(s, [], n, [c], s);
    assert reals1 == [c, c] && Now(reals1) == c;
    var events2, reals2, s2 := DueTurn(s, events1, n, reals1, s1, id, id + 1);
    assert reals2 == [c, c, c];
    events := events2;
  }

  /** docker can let both the task and the call succeed, over no running or frozen containers. */
  predicate TaskAndCallCanSucceed(pc: WorkerPc, call: Call, c: Real) {
    && (!pc.WFinish? ==> c.Absent? || c.Ended?)
    && (call.StartCall? || (call.PauseCall? && (call.pause.PFreeze? ==> pc.WFinish? && c.Up?)))
  }

  lemma TaskAndCallGetDue(s: State, n: Name, id: nat, c: Real)
      returns (events: seq<Event>, reals: seq<Real>, s': State)
    requires n in s.rows && Obtains(s, n) && AtWork(s, n, TheCall(id))
    requires TaskAndCallCanSucceed(s.worker.pc, s.calls[id], c)
    ensures Reached(s, events, n, reals, s') && reals[0] == c && SameAtWork(s, s', n)
    ensures n in s'.rows && Obtains(s', n) && s'.worker.pc.WFinish?
    ensures id in s'.calls && AppOf(s'.calls[id]) == n && Due(s'.calls[id]) && !s'.calls[id].StopCall?
  {
    StartsHere(s, n, c);
    var events1, reals1, s1 := TaskGetsDue(s, [], n, [c], s);
    if s.calls[id].StartCall? {
      events, reals, s' := ReviveGetsDue(s, events1, n, reals1, s1, id);
    } else {
      events, reals, s' := PauseGetsDue(s, events1, n, reals1, s1, id);
    }
  }

  /**
    A revive or a pause at work beside an installation or a reinstallation: a schedule in which both succeed leaves,
    when both are done, a status that is not true of the containers.
   */
  lemma MixedWithTaskMayPart(s: State, n: Name, id: nat, c: Real)
      returns (events: seq<Event>, reals: seq<Real>, writes: seq<Event>)
    requires n in s.rows && Obtains(s, n) && AtWork(s, n, TheCall(id))
    requires TaskAndCallCanSucceed(s.worker.pc, s.calls[id], c)
    ensures Along(s, events, n, reals) && reals[0] == c
    ensures var s', c' := Run(s, events), reals[|events|];
      && Along(s', writes, n, [c', c', c']) && !Agrees(RowOf(Run(s', writes), n), c')
      && BothDone(s, Run(s', writes), n, TheWorker, TheCall(id))
  {
    var s': State;
    events, reals, s' := TaskAndCallGetDue(s, n, id, c);
    writes := TaskAndCallPart(s', n, id, Now(reals));
  }

  // A pause that outlives a teardown.

  function InstallCall(n: Name, api: ApiPc): Call {
    ApiCall(Task(n, InstallFromStore), api)
  }

  /** One turn of a request to install n. */
  lemma InstallTurn(s0: State, events: seq<Event>, n: Name, reals: seq<Real>, s: State, id: nat)
      returns (events': seq<Event>, reals': seq<Real>, s': State)
    requires Reached(s0, events, n, reals, s) && n !in s.rows && id in s.calls
    requires s.calls[id] == InstallCall(n, ACheck) || s.calls[id] == InstallCall(n, AWrite)
    ensures Reached(s0, events', n, reals', s') && reals' == reals + [Now(reals)] && s'.worker == s.worker
    ensures s'.calls == s.calls[id := InstallCall(n, if s.calls[id].api.ACheck? then AWrite else AEnqueue)]
    ensures RowOf(s', n) == if s.calls[id].api.ACheck? then NoRow else Row(InstallationQueued)
  {
    AfterTurn(s, id, Success);
    WorkerUntouched(s, CallTurn(id, Success));
    events', reals', s' := Follow(s0, events, n, reals, s, CallTurn(id, Success), Now(reals));
  }

  /** A request that inserts the row. */
  lemma NewInstall(s0: State, events: seq<Event>, n: Name, reals: seq<Real>, s: State)
      returns (events': seq<Event>, reals': seq<Real>, s': State, id: nat)
    requires Reached(s0, events, n, reals, s) && n !in s.rows
    ensures Reached(s0, events', n, reals', s') && Now(reals') == Now(reals) && reals'[0] == reals[0]
    ensures RowOf(s', n) == Row(InstallationQueued) && s'.worker == s.worker
    ensures id !in s.calls && s'.calls == s.calls[id := InstallCall(n, AEnqueue)]
  {
    id := Teardowns.UnusedId(s.calls);
    var events1, reals1, s1 := Follow(s0, events, n, reals, s, Spawn(id, InstallCall(n, ACheck)), Now(reals));
    assert s1 == s.(calls := s.calls[id := InstallCall(n, ACheck)]);
    var events2, reals2, s2 := InstallTurn(s0, events1, n, reals1, s1, id);
    events', reals', s' := InstallTurn(s0, events2, n, reals2, s2, id);
  }

  lemma LastTurnOfTeardown(s: State, n: Name, c: Real) returns (events: seq<Event>, reals: seq<Real>, s': State)
    requires Teardowns.TearsDownAt(s, n, WDeleteRow)
    ensures Reached(s, events, n, reals, s') && reals == [c, c]
    ensures n !in s'.rows && s'.calls == s.calls && s'.worker == Busy(Task(n, Uninstall), WCleanup)
  {
    StartsHere(s, n, c);
    events, reals, s' := Follow(s, [], n, [c], s, WorkerTurn(Success), c);
  }

  /**
    A pause past its check beside a teardown: the row is deleted, the app is installed anew, and the pause writes
    PAUSED over the new row, which is false unless the containers are frozen.
   */
  lemma PauseOutlivesTeardown(s: State, n: Name, id: nat, c: Real)
      returns (events: seq<Event>, reals: seq<Real>, s': State)
    requires Teardowns.TearsDownAt(s, n, WDeleteRow) && id in s.calls && s.calls[id] == PauseCall(n, PMark)
    ensures Reached(s, events, n, reals, s') && reals[0] == Now(reals) == c
    ensures RowOf(s', n) == Row(Paused) && (Agrees(RowOf(s', n), c) <==> c.Frozen?)
    ensures BothDone(s, s', n, TheWorker, TheCall(id))
  {
    var s1: State, s2: State, newId: nat;
    events, reals, s1 := LastTurnOfTeardown(s, n, c);
    events, reals, s2, newId := NewInstall(s, events, n, reals, s1);
    assert BothDone(s, s2, n, TheWorker, TheWorker);
    events, reals, s' := DueTurn(s, events, n, reals, s2, id, newId);
  }

  // ---- a revive repairs ----

  /** The statuses of an app that a revive may start. */
  predicate StartableRow(row: Row) {
    row == Row(Stopped) || row == Row(Running) || row == Row(Down) || row == Row(Paused)
  }

  /** What a revive has achieved at each point, if nobody else works on the app. */
  predicate OnItsWay(call: Call, row: Row, c: Real) {
    match call
    case StartCall(_, SLoadRow) => StartableRow(row)
    case StartCall(_, SInspect(seen)) => StartableRow(row) && row == Row(seen)
    case StartCall(_, SUnpause) => row.Row?
    case StartCall(_, SUp) => row.Row?
    case StartCall(_, SReset) => row.Row?
    case StartCall(_, SUpAgain) => row.Row?
    case StartCall(_, SMark) => row.Row? && c.Up?
    case StartCall(_, SUnlock) => row == Row(Running) && c.Up?
    case _ => false
  }

  lemma ReviveStaysOnItsWay(call: Call, row: Row, holds: bool, out: Outcome, c: Real, c': Real)
    requires OnItsWay(call, row, c) && Possible(CommandOf(call), out, c, c') && !GivesUp(call, out)
    ensures
      match CallTurnOf(call, row, holds, out)
      case Wait => false
      case Continue(call', effect) => OnItsWay(call', Written(row, effect.row), c')
      case End(effect) => Written(row, effect.row) == Row(Running) && c'.Up?
      case EndEnqueueing(_) => false
  {
  }

  /** The revive is on its way, or has ended with a running app and a row that says so. */
  ghost predicate Reviving(s: State, n: Name, id: nat, c: Real) {
    if id in s.calls then AppOf(s.calls[id]) == n && OnItsWay(s.calls[id], RowOf(s, n), c)
    else RowOf(s, n) == Row(Running) && c.Up?
  }

  lemma ReviveTurnRepairs(s: State, e: Event, s': State, n: Name, id: nat, c: Real, c': Real)
    requires Reviving(s, n, id, c) && id in s.calls && e.CallTurn? && e.id == id && s' == Next(s, e)
    requires Touches(s, e, n, c, c')
    ensures Reviving(s', n, id, c')
  {
    AfterTurn(s, id, e.out);
    ReviveStaysOnItsWay(s.calls[id], RowOf(s, n), Holds(s, n, TheCall(id)), e.out, c, c');
  }

  lemma ElsewhereStaysReviving(s: State, e: Event, s': State, n: Name, id: nat, c: Real)
    requires Reviving(s, n, id, c) && id in s.calls && !OnApp(s, e, n) && s' == Next(s, e)
    ensures Reviving(s', n, id, c)
  {
    RowElsewhere(s, e, n);
    if !(e.Spawn? && e.id == id) {
      OthersUntouched(s, e);
    }
  }

  /** Up to its end, nobody but the revive moves on the app; others may move on other apps. */
  ghost predicate OnlyRevives(s: State, events: seq<Event>, n: Name, id: nat) {
    forall i :: 0 <= i < |events| ==>
      var now := Run(s, events[..i]);
      id in now.calls && (OnApp(now, events[i], n) ==> events[i].CallTurn? && events[i].id == id)
  }

  lemma {:induction false} RevivingAlong(s: State, events: seq<Event>, n: Name, reals: seq<Real>, id: nat, k: nat)
    requires Along(s, events, n, reals) && OnlyRevives(s, events, n, id) && k <= |events|
    requires Reviving(s, n, id, reals[0])
    ensures Reviving(Run(s, events[..k]), n, id, reals[k])
  {
    if k > 0 {
      RevivingAlong(s, events, n, reals, id, k - 1);
      var now, e := Run(s, events[..k - 1]), events[k - 1];
      assert events[..k][..k - 1] == events[..k - 1] && events[..k][k - 1] == e;
      assert id in now.calls && Touches(now, e, n, reals[k - 1], reals[k]);
      if OnApp(now, e, n) {
        ReviveTurnRepairs(now, e, Run(s, events[..k]), n, id, reals[k - 1], reals[k]);
      } else {
        ElsewhereStaysReviving(now, e, Run(s, events[..k]), n, id, reals[k]);
      }
    }
  }

  /**
    Whatever the row of a STOPPED, RUNNING, DOWN or PAUSED app says, and whatever its containers are, a revive that has
    the lock and whose commands do not fail for good ends with every container running and a row that says RUNNING.
   */
  lemma ReviveRepairs(s: State, events: seq<Event>, n: Name, reals: seq<Real>, id: nat)
    requires id in s.calls && s.calls[id] == StartCall(n, SLoadRow) && n in s.rows
    requires s.rows[n] == Stopped || s.rows[n] == Running || s.rows[n] == Down || s.rows[n] == Paused
    requires Along(s, events, n, reals) && OnlyRevives(s, events, n, id)
    requires id !in Run(s, events).calls
    ensures RowOf(Run(s, events), n) == Row(Running) && reals[|events|] == Up
  {
    RevivingAlong(s, events, n, reals, id, |events|);
    assert events[..|events|] == events;
  }

  /** In any other status the revive leaves row and containers as they are. */
  lemma ReviveLeavesOthersAlone(s: State, n: Name, id: nat, out: Outcome)
    requires id in s.calls && s.calls[id] == StartCall(n, SLoadRow)
    requires n in s.rows ==>
      s.rows[n] != Stopped && s.rows[n] != Running && s.rows[n] != Down && s.rows[n] != Paused
    ensures var s' := CallNext(s, id, out);
      s'.calls == s.calls - {id} && RowOf(s', n) == RowOf(s, n) && s'.stacks == s.stacks
  {
  }

  // ---- a pause and a revive that overlap ----

  lemma Follow(s: State, events: seq<Event>, n: Name, reals: seq<Real>, now: State, e: Event, c: Real)
      returns (events': seq<Event>, reals': seq<Real>, now': State)
    requires Along(s, events, n, reals) && now == Run(s, events)
    requires Touches(now, e, n, reals[|events|], c)
    ensures events' == events + [e] && reals' == reals + [c] && now' == Next(now, e)
    ensures Along(s, events', n, reals') && now' == Run(s, events')
  {
    events', now' := Extend(s, events, now, e);
    reals' := reals + [c];
    assert forall i :: 0 <= i <= |events| ==> events'[..i] == events[..i];
    assert events[..|events|] == events;
  }

  ghost predicate Pair(s: State, status: Status, pause: PausePc, start: StartPc) {
    && RowOf(s, "a") == Row(status) && s.calls.Keys == {0, 1} && s.worker.Idle?
    && s.calls[0] == PauseCall("a", pause) && s.calls[1] == StartCall("a", start)
  }

  lemma FrozenUnderway(boot: State) returns (events: seq<Event>, reals: seq<Real>, s: State)
    requires boot == Booted(map["a" := Running], {"a"}, [])
    ensures s == Run(boot, events) && Along(boot, events, "a", reals) && reals[0] == Up && reals[|events|] == Frozen
    ensures Pair(s, Running, PMark, SAskLock) && LockQueue(s, "a") == []
  {
    events, reals, s := [], [Up], boot;
    events, reals, s := Follow(boot, events, "a", reals, s, Spawn(0, PauseCall("a", PLoadRow)), Up);
    events, reals, s := Follow(boot, events, "a", reals, s, CallTurn(0, Success), Up);
    assert s.calls.Keys == {0} && s.calls[0] == PauseCall("a", PFreeze);
    events, reals, s := Follow(boot, events, "a", reals, s, CallTurn(0, Success), Frozen);
    assert s.calls.Keys == {0} && s.calls[0] == PauseCall("a", PMark);
    events, reals, s := Follow(boot, events, "a", reals, s, Spawn(1, StartCall("a", SAskLock)), Frozen);
  }

  /** One turn of the revive while the pause waits to write. */
  lemma ReviveTurn(boot: State, events: seq<Event>, reals: seq<Real>, s: State, status: Status,
                   start: StartPc, out: Outcome, c: Real, start': StartPc)
      returns (events': seq<Event>, reals': seq<Real>, s': State)
    requires s == Run(boot, events) && Along(boot, events, "a", reals) && Pair(s, status, PMark, start)
    requires var move := StartTurnOf("a", start, Row(status), Holds(s, "a", TheCall(1)), out);
      move.Continue? && move.call == StartCall("a", start')
    requires var call := StartCall("a", start);
      Possible(CommandOf(call), out, reals[|events|], c) && !GivesUp(call, out)
    ensures s' == Run(boot, events') && Along(boot, events', "a", reals')
    ensures events' == events + [CallTurn(1, out)] && reals' == reals + [c]
    ensures s' == CallNext(s, 1, out) && Pair(s', if start.SMark? then Running else status, PMark, start')
  {
    AfterTurn(s, 1, out);
    WorkerUntouched(s, CallTurn(1, out));
    events', reals', s' := Follow(boot, events, "a", reals, s, CallTurn(1, out), c);
  }

  lemma ReviveSeesFrozen(boot: State) returns (events: seq<Event>, reals: seq<Real>, s: State)
    requires boot == Booted(map["a" := Running], {"a"}, [])
    ensures s == Run(boot, events) && Along(boot, events, "a", reals) && reals[0] == Up && reals[|events|] == Frozen
    ensures Pair(s, Running, PMark, SInspect(Running))
  {
    events, reals, s := FrozenUnderway(boot);
    events, reals, s := ReviveTurn(boot, events, reals, s, Running, SAskLock, Success, Frozen, SAwaitLock);
    assert Holds(s, "a", TheCall(1));
    events, reals, s := ReviveTurn(boot, events, reals, s, Running, SAwaitLock, Success, Frozen, SLoadRow);
    events, reals, s := ReviveTurn(boot, events, reals, s, Running, SLoadRow, Success, Frozen, SInspect(Running));
  }

  lemma ReviveThaws(boot: State) returns (events: seq<Event>, reals: seq<Real>, s: State)
    requires boot == Booted(map["a" := Running], {"a"}, [])
    ensures s == Run(boot, events) && Along(boot, events, "a", reals) && reals[0] == Up && reals[|events|] == Up
    ensures Pair(s, Running, PMark, SUnlock)
  {
    events, reals, s := ReviveSeesFrozen(boot);
    var frozen := Observed(SomePaused);
    events, reals, s := ReviveTurn(boot, events, reals, s, Running, SInspect(Running), frozen, Frozen, SUnpause);
    events, reals, s := ReviveTurn(boot, events, reals, s, Running, SUnpause, Success, Up, SMark);
    events, reals, s := ReviveTurn(boot, events, reals, s, Running, SMark, Success, Up, SUnlock);
  }

  lemma ReviveEnds(boot: State) returns (events: seq<Event>, reals: seq<Real>, s: State)
    requires boot == Booted(map["a" := Running], {"a"}, [])
    ensures s == Run(boot, events) && Along(boot, events, "a", reals) && reals[0] == Up && reals[|events|] == Up
    ensures RowOf(s, "a") == Row(Running) && s.calls == map[0 := PauseCall("a", PMark)] && s.worker.Idle?
  {
    events, reals, s := ReviveThaws(boot);
    AfterTurn(s, 1, Success);
    WorkerUntouched(s, CallTurn(1, Success));
    events, reals, s := Follow(boot, events, "a", reals, s, CallTurn(1, Success), Up);
  }

  /** What the overlap leaves: a running app, a row that says PAUSED, and nobody at work. */
  ghost predicate Parted(boot: State, events: seq<Event>, reals: seq<Real>, s: State) {
    && s == Run(boot, events) && Along(boot, events, "a", reals) && reals[0] == reals[|events|] == Up
    && RowOf(s, "a") == Row(Paused) && s.calls == map[] && s.worker.Idle?
  }

  /** The pause freezes, the revive thaws and writes RUNNING, the pause writes PAUSED: the row is wrong from then on. */
  lemma OverlapPartsThem() returns (events: seq<Event>, reals: seq<Real>)
    ensures var boot := Booted(map["a" := Running], {"a"}, []); Parted(boot, events, reals, Run(boot, events))
  {
    var boot := Booted(map["a" := Running], {"a"}, []);
    var s: State;
    events, reals, s := ReviveEnds(boot);
    AfterTurn(s, 0, Success);
    WorkerUntouched(s, CallTurn(0, Success));
    events, reals, s := Follow(boot, events, "a", reals, s, CallTurn(0, Success), Up);
  }

  /** A revive of "a" alone, at a point and with a row. */
  ghost predicate Alone(boot: State, events: seq<Event>, reals: seq<Real>, s: State, pc: StartPc, status: Status) {
    && s == Run(boot, events) && Along(boot, events, "a", reals) && reals[0] == reals[|events|] == Up
    && RowOf(s, "a") == Row(status) && s.calls == map[0 := StartCall("a", pc)]
  }

  lemma AloneTurn(boot: State, events: seq<Event>, reals: seq<Real>, s: State, pc: StartPc, status: Status,
                  out: Outcome, pc': StartPc)
      returns (events': seq<Event>, reals': seq<Real>, s': State)
    requires Alone(boot, events, reals, s, pc, status)
    requires var move := StartTurnOf("a", pc, Row(status), Holds(s, "a", TheCall(0)), out);
      move.Continue? && move.call == StartCall("a", pc')
    requires var call := StartCall("a", pc); Possible(CommandOf(call), out, Up, Up) && !GivesUp(call, out)
    ensures Alone(boot, events', reals', s', pc', if pc.SMark? then Running else status)
    ensures events <= events' && s' == CallNext(s, 0, out)
  {
    AfterTurn(s, 0, out);
    events', reals', s' := Follow(boot, events, "a", reals, s, CallTurn(0, out), Up);
  }

  lemma NextReviveHasLock(boot: State, events0: seq<Event>, reals0: seq<Real>, s0: State)
      returns (events: seq<Event>, reals: seq<Real>, s: State)
    requires Parted(boot, events0, reals0, s0) && LockQueue(s0, "a") == []
    ensures Alone(boot, events, reals, s, SLoadRow, Paused) && events0 <= events
  {
    events, reals, s := Follow(boot, events0, "a", reals0, s0, Spawn(0, StartCall("a", SAskLock)), Up);
    assert Alone(boot, events, reals, s, SAskLock, Paused) && LockQueue(s, "a") == [];
    events, reals, s := AloneTurn(boot, events, reals, s, SAskLock, Paused, Success, SAwaitLock);
    assert Holds(s, "a", TheCall(0));
    events, reals, s := AloneTurn(boot, events, reals, s, SAwaitLock, Paused, Success, SLoadRow);
  }

  lemma NextReviveMarks(boot: State, events0: seq<Event>, reals0: seq<Real>, s0: State)
      returns (events: seq<Event>, reals: seq<Real>, s: State)
    requires Alone(boot, events0, reals0, s0, SLoadRow, Paused)
    ensures Alone(boot, events, reals, s, SUnlock, Running) && events0 <= events
  {
    events, reals, s := AloneTurn(boot, events0, reals0, s0, SLoadRow, Paused, Success, SInspect(Paused));
    events, reals, s := AloneTurn(boot, events, reals, s, SInspect(Paused), Paused, Observed(AllRunning), SMark);
    events, reals, s := AloneTurn(boot, events, reals, s, SMark, Paused, Success, SUnlock);
  }

  lemma SomeMember(q: seq<Party>)
    requires q != []
    ensures exists p :: p in q
  {
    assert q[0] in q;
  }

  /** Nobody waits for a lock in a state without calls and with an idle worker. */
  lemma NobodyWaits(s: State, n: Name)
    requires Sound(s) && s.calls == map[] && s.worker.Idle?
    ensures LockQueue(s, n) == []
  {
    assert LockFair(s, n);
    if LockQueue(s, n) != [] {
      SomeMember(LockQueue(s, n));
    }
  }

  /** The next revive of the app puts the row right again. */
  lemma OverlapIsRepaired() returns (events: seq<Event>, more: seq<Event>, reals: seq<Real>)
    ensures var boot := Booted(map["a" := Running], {"a"}, []);
      && events <= more && RowOf(Run(boot, events), "a") == Row(Paused)
      && Along(boot, more, "a", reals) && reals[|more|] == Up
      && RowOf(Run(boot, more), "a") == Row(Running) && Run(boot, more).calls == map[]
  {
    var boot := Booted(map["a" := Running], {"a"}, []);
    events, reals := OverlapPartsThem();
    var s := Run(boot, events);
    BootSound(map["a" := Running], {"a"}, []);
    EveryRunIsSound(boot, events);
    NobodyWaits(s, "a");
    more, reals, s := NextReviveHasLock(boot, events, reals, s);
    more, reals, s := NextReviveMarks(boot, more, reals, s);
    AfterTurn(s, 0, Success);
    more, reals, s := Follow(boot, more, "a", reals, s, CallTurn(0, Success), Up);
  }
}
