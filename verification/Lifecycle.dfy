/**
  The idle and pressure control loop: two idle tiers per app, least-recently-used demotion under memory
  pressure, decided on a snapshot of the statuses that the first stage of the same cycle may already have changed.
 */
module Lifecycle {
  import opened Options
  import opened AppStatus

  type Name = string

  /** The lifecycle section of an app's metadata; None means that the global default applies. */
  datatype Lifecycle = Lifecycle(alwaysOn: bool, skipPause: bool, idleForPause: Option<int>, idleForStop: Option<int>)

  /** What the metadata validator lets through. */
  predicate ValidCombination(l: Lifecycle) {
    && !(l.alwaysOn && (l.skipPause || l.idleForPause.Some? || l.idleForStop.Some?))
    && !(l.skipPause && l.idleForPause.Some?)
    && !(l.idleForPause.Some? && l.idleForPause.value < 5)
    && !(l.idleForStop.Some? && l.idleForStop.value < 5)
    && !(l.idleForPause.Some? && l.idleForStop.Some? && l.idleForPause.value >= l.idleForStop.value)
  }

  datatype Settings = Settings(
    pauseEnabled: bool,
    defaultIdleForPause: int,
    defaultIdleForStop: int,
    psiThreshold: real)

  /** `declared or default`: a declared zero counts as undeclared. */
  function OrDefault(declared: Option<int>, default: int): int {
    if declared.None? || declared.value == 0 then default else declared.value
  }

  function PauseAfter(l: Lifecycle, cfg: Settings): int {
    OrDefault(l.idleForPause, cfg.defaultIdleForPause)
  }

  function StopAfter(l: Lifecycle, cfg: Settings): int {
    OrDefault(l.idleForStop, cfg.defaultIdleForStop)
  }

  /** meta is None when the metadata cannot be loaded; fits is the answer of size_is_compatible. */
  datatype App = App(status: Status, meta: Option<Lifecycle>, fits: bool)

  const RECENT_ACCESS_GRACE := 5.0

  function LastAccess(access: map<Name, real>, n: Name): real {
    if n in access then access[n] else 0.0
  }

  /** The apps a control cycle looks at. */
  predicate Listed(status: Status) {
    !status.InstallationQueued? && !status.Installing?
  }

  // ---- the docker operations, which check the status again before they act ----

  datatype Op = Nothing | Pause | Stop | Start | Raise

  /** The operation issues docker commands for an app in this status. */
  predicate Acts(op: Op, status: Status) {
    match op
    case Pause => status.Running?
    case Stop => status.Running? || status.Paused? || status.Uninstalling?
    case Start => Revivable(status)
    case Nothing => false
    case Raise => false
  }

  function Target(op: Op): Status {
    match op
    case Pause => Paused
    case Stop => Stopped
    case _ => Running
  }

  function Perform(status: Status, op: Op, ok: bool): Status {
    if Acts(op, status) && ok then Target(op) else status
  }

  // ---- one cycle ----

  /**
    What one control cycle depends on besides the rows.
    order:  the listed apps as the database returns them.
    now:    the clock as it is read for each app in the idle stage; later, in the pressure stage.
    docker: whether the docker commands for an app succeed; throttled: whether the throttle drops a start.
   */
  datatype Tick = Tick(
    order: seq<Name>,
    now: Name -> real,
    later: Name -> real,
    psi: real,
    diskLow: bool,
    docker: Name -> bool,
    throttled: Name -> bool)

  predicate PressureHigh(t: Tick, cfg: Settings) {
    cfg.pauseEnabled && t.psi > cfg.psiThreshold
  }

  /** The decision of the idle stage for one app of the snapshot. */
  function IdleOp(app: App, idle: real, cfg: Settings, diskLow: bool, throttled: bool): Op {
    if app.meta.None? then Raise
    else
      var l := app.meta.value;
      if diskLow then Stop
      else if l.alwaysOn then if !app.status.Running? && app.fits && !throttled then Start else Nothing
      else if !cfg.pauseEnabled || l.skipPause then
        if app.status.Running? && idle >= StopAfter(l, cfg) as real then Stop else Nothing
      else if app.status.Running? && idle >= PauseAfter(l, cfg) as real then Pause
      else if app.status.Paused? && idle >= StopAfter(l, cfg) as real then Stop
      else Nothing
  }

  function IdleOpOf(apps: map<Name, App>, access: map<Name, real>, n: Name, t: Tick, cfg: Settings): Op
    requires n in apps
  {
    if Listed(apps[n].status) then IdleOp(apps[n], t.now(n) - LastAccess(access, n), cfg, t.diskLow, t.throttled(n))
    else Nothing
  }

  function Idled(apps: map<Name, App>, access: map<Name, real>, n: Name, t: Tick, cfg: Settings): App
    requires n in apps
  {
    apps[n].(status := Perform(apps[n].status, IdleOpOf(apps, access, n, t, cfg), t.docker(n)))
  }

  function AfterIdleStage(apps: map<Name, App>, access: map<Name, real>, t: Tick, cfg: Settings): map<Name, App> {
    map n | n in apps :: Idled(apps, access, n, t, cfg)
  }

  /** The idle stage raises, and the pressure stage does not run, when an operation of the idle stage fails. */
  predicate IdleFails(apps: map<Name, App>, access: map<Name, real>, n: Name, t: Tick, cfg: Settings)
    requires n in apps
  {
    var op := IdleOpOf(apps, access, n, t, cfg);
    op.Raise? || (Acts(op, apps[n].status) && !t.docker(n))
  }

  predicate IdleStageFails(apps: map<Name, App>, access: map<Name, real>, t: Tick, cfg: Settings) {
    exists n :: n in apps && IdleFails(apps, access, n, t, cfg)
  }

  /** May be demoted under pressure: not always-on, and not accessed within the grace window. */
  predicate Demotable(app: App, last: real, later: real) {
    app.meta.Some? && !app.meta.value.alwaysOn && later - last > RECENT_ACCESS_GRACE
  }

  predicate Candidate(apps: map<Name, App>, access: map<Name, real>, n: Name, t: Tick, status: Status) {
    n in apps && apps[n].status == status && Demotable(apps[n], LastAccess(access, n), t.later(n))
  }

  function Candidates(apps: map<Name, App>, access: map<Name, real>, order: seq<Name>, t: Tick, status: Status)
      : seq<Name>
  {
    if order == [] then []
    else
      var rest := Candidates(apps, access, order[..|order| - 1], t, status);
      var n := order[|order| - 1];
      if Candidate(apps, access, n, t, status) then rest + [n] else rest
  }

  /** The first of the least recently accessed. */
  function Lru(candidates: seq<Name>, access: map<Name, real>): Name
    requires candidates != []
  {
    var n := candidates[|candidates| - 1];
    if |candidates| == 1 then n
    else
      var rest := Lru(candidates[..|candidates| - 1], access);
      if LastAccess(access, n) < LastAccess(access, rest) then n else rest
  }

  datatype Demotion = NoDemotion | Demote(victim: Name, op: Op)

  /** The choice of the pressure stage, made on the snapshot taken before the idle stage. */
  function Choice(snapshot: map<Name, App>, access: map<Name, real>, t: Tick): Demotion {
    var running := Candidates(snapshot, access, t.order, t, Running);
    var paused := Candidates(snapshot, access, t.order, t, Paused);
    if running != [] then
      var v := Lru(running, access);
      Demote(v, if v in snapshot && snapshot[v].meta.Some? && snapshot[v].meta.value.skipPause then Stop else Pause)
    else if paused != [] then Demote(Lru(paused, access), Stop)
    else NoDemotion
  }

  function ApplyDemotion(apps: map<Name, App>, d: Demotion, t: Tick): map<Name, App> {
    if d.Demote? && d.victim in apps then
      apps[d.victim := apps[d.victim].(status := Perform(apps[d.victim].status, d.op, t.docker(d.victim)))]
    else apps
  }

  predicate PressureStageRuns(apps: map<Name, App>, access: map<Name, real>, t: Tick, cfg: Settings) {
    PressureHigh(t, cfg) && !IdleStageFails(apps, access, t, cfg)
  }

  function Cycle(apps: map<Name, App>, access: map<Name, real>, t: Tick, cfg: Settings): map<Name, App> {
    var idled := AfterIdleStage(apps, access, t, cfg);
    if PressureStageRuns(apps, access, t, cfg) then ApplyDemotion(idled, Choice(apps, access, t), t) else idled
  }

  /** The order a database may return the listed apps in. */
  ghost predicate Lists(order: seq<Name>, apps: map<Name, App>) {
    && (forall n :: n in order <==> n in apps && Listed(apps[n].status))
    && (forall i, j :: 0 <= i < j < |order| ==> order[i] != order[j])
  }

  // ---- the loop as the source runs it ----

  class Controller {
    var apps: map<Name, App>
    var lastAccess: map<Name, real>

    constructor (apps: map<Name, App>)
      ensures this.apps == apps && this.lastAccess == map[]
    {
      this.apps, this.lastAccess := apps, map[];
    }

    /** ensure_app_is_running, up to the revive it spawns: remembers the access of an app that may be started. */
    method NoteAccess(n: Name, now: real, diskLow: bool)
      modifies this`lastAccess
      ensures lastAccess ==
        if !diskLow && n in apps && apps[n].meta.Some? && apps[n].fits then old(lastAccess)[n := now]
        else old(lastAccess)
    {
      if diskLow {
        return;
      }
      if n in apps && apps[n].meta.Some? && apps[n].fits {
        lastAccess := lastAccess[n := now];
      }
    }

    /** docker_pause_app, docker_stop_app and start_app: the status is read again. */
    method Operate(n: Name, op: Op, ok: bool) returns (raised: bool)
      requires n in apps
      modifies this`apps
      ensures apps == old(apps)[n := old(apps)[n].(status := Perform(old(apps)[n].status, op, ok))]
      ensures raised == (Acts(op, old(apps)[n].status) && !ok)
    {
      var status := apps[n].status;
      raised := false;
      var next := status;
      match op {
        case Pause =>
          if status == Running {
            raised := !ok;
            next := if ok then Paused else status;
          }
        case Stop =>
          if status == Running || status == Paused || status == Uninstalling {
            raised := !ok;
            next := if ok then Stopped else status;
          }
        case Start =>
          if Revivable(status) {
            raised := !ok;
            next := if ok then Running else status;
          }
        case _ =>
      }
      apps := apps[n := apps[n].(status := next)];
    }

    /** _control_app_time for one app of the snapshot. */
    method ControlAppTime(n: Name, snapshot: map<Name, App>, t: Tick, cfg: Settings) returns (raised: bool)
      requires n in apps && n in snapshot && snapshot[n] == apps[n] && Listed(apps[n].status)
      modifies this`apps
      ensures apps == old(apps)[n := Idled(snapshot, lastAccess, n, t, cfg)]
      ensures raised == IdleFails(snapshot, lastAccess, n, t, cfg)
    {
      var app := snapshot[n];
      raised := false;
      if app.meta.None? {
        raised := true;
        return;
      }
      var l := app.meta.value;
      if t.diskLow {
        raised := Operate(n, Stop, t.docker(n));
        return;
      }
      if l.alwaysOn {
        if app.status != Running && app.fits && !t.throttled(n) {
          raised := Operate(n, Start, t.docker(n));
        }
        return;
      }
      var idle := t.now(n) - LastAccess(lastAccess, n);
      var t2 := OrDefault(l.idleForStop, cfg.defaultIdleForStop) as real;
      if !cfg.pauseEnabled || l.skipPause {
        if app.status == Running && idle >= t2 {
          raised := Operate(n, Stop, t.docker(n));
        }
        return;
      }
      var t1 := OrDefault(l.idleForPause, cfg.defaultIdleForPause) as real;
      if app.status == Running && idle >= t1 {
        raised := Operate(n, Pause, t.docker(n));
      } else if app.status == Paused && idle >= t2 {
        raised := Operate(n, Stop, t.docker(n));
      }
    }

    /** min() over the candidates: the first with the least last access. */
    method PickLru(candidates: seq<Name>) returns (v: Name)
      requires candidates != []
      ensures v == Lru(candidates, lastAccess)
    {
      v := candidates[0];
      for i := 1 to |candidates|
        invariant v == Lru(candidates[..i], lastAccess)
      {
        assert candidates[..i + 1][..i] == candidates[..i];
        if LastAccess(lastAccess, candidates[i]) < LastAccess(lastAccess, v) {
          v := candidates[i];
        }
      }
      assert candidates[..|candidates|] == candidates;
    }

    /** _demote_lru on the snapshot the cycle started with. */
    method DemoteLru(snapshot: map<Name, App>, t: Tick)
      requires snapshot.Keys == apps.Keys
      requires forall n :: n in t.order ==> n in snapshot && snapshot[n].meta.Some?
      modifies this`apps
      ensures apps == ApplyDemotion(old(apps), Choice(snapshot, lastAccess, t), t)
    {
      var running, paused := [], [];
      for i := 0 to |t.order|
        invariant running == Candidates(snapshot, lastAccess, t.order[..i], t, Running)
        invariant paused == Candidates(snapshot, lastAccess, t.order[..i], t, Paused)
      {
        var n := t.order[i];
        assert t.order[..i + 1][..i] == t.order[..i];
        var app := snapshot[n];
        if app.meta.value.alwaysOn || t.later(n) - LastAccess(lastAccess, n) <= RECENT_ACCESS_GRACE {
          continue;
        }
        if app.status == Running {
          running := running + [n];
        } else if app.status == Paused {
          paused := paused + [n];
        }
      }
      assert t.order[..|t.order|] == t.order;
      if running != [] {
        LruIsCandidate(running, lastAccess);
        CandidatesAre(snapshot, lastAccess, t.order, t, Running);
        var v := PickLru(running);
        if snapshot[v].meta.value.skipPause {
          var _ := Operate(v, Stop, t.docker(v));
        } else {
          var _ := Operate(v, Pause, t.docker(v));
        }
      } else if paused != [] {
        LruIsCandidate(paused, lastAccess);
        CandidatesAre(snapshot, lastAccess, t.order, t, Paused);
        var v := PickLru(paused);
        var _ := Operate(v, Stop, t.docker(v));
      }
    }

    /** The idle stage: every app of the snapshot is controlled, whether or not another one raises. */
    method IdleStage(snapshot: map<Name, App>, t: Tick, cfg: Settings) returns (raised: bool)
      requires apps == snapshot && Lists(t.order, snapshot)
      modifies this`apps
      ensures apps == AfterIdleStage(snapshot, lastAccess, t, cfg)
      ensures raised <==> IdleStageFails(snapshot, lastAccess, t, cfg)
    {
      raised := false;
      for i := 0 to |t.order|
        invariant apps.Keys == snapshot.Keys
        invariant forall n :: n in snapshot ==>
          apps[n] == if n in t.order[..i] then Idled(snapshot, lastAccess, n, t, cfg) else snapshot[n]
        invariant raised ==> IdleStageFails(snapshot, lastAccess, t, cfg)
        invariant !raised ==> forall n :: n in t.order[..i] ==> !IdleFails(snapshot, lastAccess, n, t, cfg)
      {
        var n := t.order[i];
        assert n in t.order && n !in t.order[..i];
        assert t.order[..i + 1] == t.order[..i] + [n];
        var failed := ControlAppTime(n, snapshot, t, cfg);
        raised := raised || failed;
      }
      assert t.order[..|t.order|] == t.order;
      RaisedMeansFails(snapshot, lastAccess, t, cfg);
    }

    /** control_apps: the idle stage over the snapshot, then the pressure stage if nothing was raised. */
    method ControlApps(t: Tick, cfg: Settings)
      requires Lists(t.order, apps)
      modifies this`apps
      ensures apps == Cycle(old(apps), lastAccess, t, cfg)
    {
      var pressureHigh := cfg.pauseEnabled && t.psi > cfg.psiThreshold;
      var snapshot := apps;
      var raised := IdleStage(snapshot, t, cfg);
      if pressureHigh && !raised {
        RaisedMeansFails(snapshot, lastAccess, t, cfg);
        DemoteLru(snapshot, t);
      }
    }
  }

  lemma RaisedMeansFails(apps: map<Name, App>, access: map<Name, real>, t: Tick, cfg: Settings)
    requires Lists(t.order, apps)
    ensures IdleStageFails(apps, access, t, cfg) <==>
      exists n :: n in t.order && IdleFails(apps, access, n, t, cfg)
    ensures !IdleStageFails(apps, access, t, cfg) ==> forall n :: n in t.order ==> apps[n].meta.Some?
  {
    if IdleStageFails(apps, access, t, cfg) {
      var n :| n in apps && IdleFails(apps, access, n, t, cfg);
      assert n in t.order;
    }
    forall n | n in t.order && apps[n].meta.None? ensures IdleFails(apps, access, n, t, cfg) {}
  }

  // ---- the pressure stage ----

  lemma {:induction false} CandidatesAre(apps: map<Name, App>, access: map<Name, real>, order: seq<Name>, t: Tick,
                                         status: Status)
    ensures forall n :: n in Candidates(apps, access, order, t, status) <==>
      n in order && Candidate(apps, access, n, t, status)
  {
    if order != [] {
      CandidatesAre(apps, access, order[..|order| - 1], t, status);
      assert order == order[..|order| - 1] + [order[|order| - 1]];
    }
  }

  lemma {:induction false} LruIsCandidate(candidates: seq<Name>, access: map<Name, real>)
    requires candidates != []
    ensures Lru(candidates, access) in candidates
    ensures forall n :: n in candidates ==> LastAccess(access, Lru(candidates, access)) <= LastAccess(access, n)
  {
    var front := candidates[..|candidates| - 1];
    assert candidates == front + [candidates[|candidates| - 1]];
    if |candidates| > 1 {
      LruIsCandidate(front, access);
    }
  }
}
