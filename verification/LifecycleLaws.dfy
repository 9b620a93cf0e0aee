/**
  What the control loop promises: at most one demotion per app and cycle, the victim of memory pressure, progress
  under sustained pressure, and real-time bounds on pausing and stopping.
 */
module LifecycleLaws {
  import opened Options
  import opened AppStatus
  import opened Lifecycle

  // ---- the idle times ----

  function Declared(declared: Option<int>, default: int): int {
    if declared.Some? then declared.value else default
  }

  /** `declared or default` is the declared value exactly when that value is not zero (or is the default anyway). */
  lemma OrDefaultIsDeclaredExactlyWhen(declared: Option<int>, default: int)
    ensures OrDefault(declared, default) == Declared(declared, default) <==> declared != Some(0) || default == 0
  {
  }

  /** For validated metadata the idle times are exactly the declared ones, and the pause comes before the stop. */
  lemma ValidatedIdleTimes(l: Lifecycle, cfg: Settings)
    requires ValidCombination(l)
    ensures PauseAfter(l, cfg) == Declared(l.idleForPause, cfg.defaultIdleForPause)
    ensures StopAfter(l, cfg) == Declared(l.idleForStop, cfg.defaultIdleForStop)
    ensures l.idleForPause.Some? && l.idleForStop.Some? ==> 5 <= PauseAfter(l, cfg) < StopAfter(l, cfg)
    ensures l.alwaysOn || l.skipPause ==> PauseAfter(l, cfg) == cfg.defaultIdleForPause
  {
  }

  // ---- one cycle, one app ----

  /** The operation the pressure stage performs on n, as it finds n after the idle stage. */
  function PressureOpOf(apps: map<Name, App>, access: map<Name, real>, n: Name, t: Tick, cfg: Settings): Op {
    var d := Choice(apps, access, t);
    if PressureStageRuns(apps, access, t, cfg) && d.Demote? && d.victim == n then d.op else Op.Nothing
  }

  lemma AppInCycle(apps: map<Name, App>, access: map<Name, real>, n: Name, t: Tick, cfg: Settings)
    requires n in apps
    ensures n in Cycle(apps, access, t, cfg)
    ensures var idled := Idled(apps, access, n, t, cfg);
      Cycle(apps, access, t, cfg)[n] ==
        idled.(status := Perform(idled.status, PressureOpOf(apps, access, n, t, cfg), t.docker(n)))
    ensures Cycle(apps, access, t, cfg).Keys == apps.Keys
  {
  }

  /** What the pressure stage may choose, in terms of the snapshot it chooses from. */
  lemma VictimOf(apps: map<Name, App>, access: map<Name, real>, t: Tick)
    ensures var d := Choice(apps, access, t);
      d.Demote? ==>
        && d.victim in apps && d.victim in t.order
        && Demotable(apps[d.victim], LastAccess(access, d.victim), t.later(d.victim))
        && (apps[d.victim].status.Running? || apps[d.victim].status.Paused?)
        && d.op == if apps[d.victim].status.Running? && !apps[d.victim].meta.value.skipPause then Pause else Stop
  {
    CandidatesAre(apps, access, t.order, t, Running);
    CandidatesAre(apps, access, t.order, t, Paused);
    if Candidates(apps, access, t.order, t, Running) != [] {
      LruIsCandidate(Candidates(apps, access, t.order, t, Running), access);
    } else if Candidates(apps, access, t.order, t, Paused) != [] {
      LruIsCandidate(Candidates(apps, access, t.order, t, Paused), access);
    }
  }

  /**
    The victim is the least recently accessed eligible RUNNING app, or, when there is none, the least recently
    accessed eligible PAUSED app; and there is a victim exactly when some app is eligible.
   */
  lemma VictimIsLeastRecentlyUsed(apps: map<Name, App>, access: map<Name, real>, t: Tick)
    ensures var d := Choice(apps, access, t);
      && (d.Demote? <==> exists n :: n in t.order && n in apps && Eligible(apps, access, n, t))
      && (d.Demote? ==>
            d.victim in apps && forall n :: n in t.order && Candidate(apps, access, n, t, apps[d.victim].status) ==>
              LastAccess(access, d.victim) <= LastAccess(access, n))
      && (d.Demote? && apps[d.victim].status.Paused? ==>
            forall n :: n in t.order ==> !Candidate(apps, access, n, t, Running))
  {
    VictimOf(apps, access, t);
    var running, paused := Candidates(apps, access, t.order, t, Running), Candidates(apps, access, t.order, t, Paused);
    CandidatesAre(apps, access, t.order, t, Running);
    CandidatesAre(apps, access, t.order, t, Paused);
    if running != [] {
      LruIsCandidate(running, access);
      assert Eligible(apps, access, running[0], t);
    } else if paused != [] {
      LruIsCandidate(paused, access);
      assert Eligible(apps, access, paused[0], t);
    }
  }

  predicate Eligible(apps: map<Name, App>, access: map<Name, real>, n: Name, t: Tick) {
    Candidate(apps, access, n, t, Running) || Candidate(apps, access, n, t, Paused)
  }

  /** Although the pressure stage decides on stale statuses, it never acts on an app the idle stage acted on. */
  lemma AtMostOneOperation(apps: map<Name, App>, access: map<Name, real>, n: Name, t: Tick, cfg: Settings)
    requires n in apps
    ensures !(Acts(IdleOpOf(apps, access, n, t, cfg), apps[n].status)
              && Acts(PressureOpOf(apps, access, n, t, cfg), Idled(apps, access, n, t, cfg).status))
  {
    VictimOf(apps, access, t);
    if PressureStageRuns(apps, access, t, cfg) {
      assert !IdleFails(apps, access, n, t, cfg);
    }
  }

  /** The pressure stage changes the victim and nobody else, and never an always-on or recently accessed app. */
  lemma PressureTouchesOneApp(apps: map<Name, App>, access: map<Name, real>, n: Name, t: Tick, cfg: Settings)
    requires n in apps && Cycle(apps, access, t, cfg)[n] != Idled(apps, access, n, t, cfg)
    ensures Choice(apps, access, t).Demote? && Choice(apps, access, t).victim == n
    ensures apps[n].meta.Some? && !apps[n].meta.value.alwaysOn
    ensures cfg.pauseEnabled && t.psi > cfg.psiThreshold
    ensures t.later(n) - (if n in access then access[n] else 0.0) > 5.0
  {
    AppInCycle(apps, access, n, t, cfg);
    VictimOf(apps, access, t);
  }

  /** One listed app whose metadata cannot be loaded keeps every other app from being demoted. */
  lemma UnreadableMetadataBlocksPressure(apps: map<Name, App>, access: map<Name, real>, n: Name, t: Tick, cfg: Settings)
    requires n in apps && Listed(apps[n].status) && apps[n].meta.None?
    ensures Cycle(apps, access, t, cfg) == AfterIdleStage(apps, access, t, cfg)
  {
    assert IdleFails(apps, access, n, t, cfg);
  }

  // ---- progress under sustained pressure ----

  /** Two demotions are left for a RUNNING app, one for a PAUSED app. */
  function Level(status: Status): nat {
    if status.Running? then 2 else if status.Paused? then 1 else 0
  }

  function LevelOf(apps: map<Name, App>, n: Name): nat {
    if n in apps && apps[n].meta.Some? && !apps[n].meta.value.alwaysOn then Level(apps[n].status) else 0
  }

  function Load(apps: map<Name, App>, names: seq<Name>): nat {
    if names == [] then 0 else LevelOf(apps, names[0]) + Load(apps, names[1..])
  }

  /**
    High pressure and, for the apps the cycle looks at, loadable metadata, docker succeeding, and no access within the
    grace window. Apps that are being installed may be in any state.
   */
  ghost predicate UnderPressure(apps: map<Name, App>, access: map<Name, real>, t: Tick, cfg: Settings) {
    && cfg.pauseEnabled && t.psi > cfg.psiThreshold && Lists(t.order, apps)
    && (forall n :: n in apps && Listed(apps[n].status) ==> apps[n].meta.Some? && t.docker(n))
    && (forall n :: n in apps && Listed(apps[n].status) && !apps[n].meta.value.alwaysOn ==>
          t.later(n) - (if n in access then access[n] else 0.0) > 5.0)
  }

  lemma LevelNeverRises(apps: map<Name, App>, access: map<Name, real>, n: Name, t: Tick, cfg: Settings)
    ensures LevelOf(Cycle(apps, access, t, cfg), n) <= LevelOf(apps, n)
  {
    if n in apps {
      AppInCycle(apps, access, n, t, cfg);
      VictimOf(apps, access, t);
    }
  }

  lemma {:induction false} LoadNeverRises(apps: map<Name, App>, access: map<Name, real>, names: seq<Name>,
                                          t: Tick, cfg: Settings)
    ensures Load(Cycle(apps, access, t, cfg), names) <= Load(apps, names)
  {
    if names != [] {
      LevelNeverRises(apps, access, names[0], t, cfg);
      LoadNeverRises(apps, access, names[1..], t, cfg);
    }
  }

  lemma {:induction false} LoadFallsWith(apps: map<Name, App>, access: map<Name, real>, names: seq<Name>,
                                         t: Tick, cfg: Settings, n: Name)
    requires n in names && LevelOf(Cycle(apps, access, t, cfg), n) < LevelOf(apps, n)
    ensures Load(Cycle(apps, access, t, cfg), names) < Load(apps, names)
  {
    LevelNeverRises(apps, access, names[0], t, cfg);
    if names[0] == n {
      LoadNeverRises(apps, access, names[1..], t, cfg);
    } else {
      LoadFallsWith(apps, access, names[1..], t, cfg, n);
    }
  }

  lemma {:induction false} LoadedName(apps: map<Name, App>, names: seq<Name>) returns (n: Name)
    requires Load(apps, names) > 0
    ensures n in names && LevelOf(apps, n) > 0
  {
    if LevelOf(apps, names[0]) > 0 {
      n := names[0];
    } else {
      n := LoadedName(apps, names[1..]);
    }
  }

  /** Whichever app the pressure stage picks falls by at least one level, at its hands or the idle stage's. */
  lemma VictimFalls(apps: map<Name, App>, access: map<Name, real>, t: Tick, cfg: Settings)
    requires UnderPressure(apps, access, t, cfg) && Choice(apps, access, t).Demote?
    ensures var v := Choice(apps, access, t).victim;
      v in apps && LevelOf(Cycle(apps, access, t, cfg), v) < LevelOf(apps, v)
  {
    VictimOf(apps, access, t);
    var v := Choice(apps, access, t).victim;
    assert !IdleStageFails(apps, access, t, cfg);
    AppInCycle(apps, access, v, t, cfg);
  }

  /** Under pressure the load falls in every cycle until nothing is left to demote. */
  lemma PressureMakesProgress(apps: map<Name, App>, access: map<Name, real>, names: seq<Name>, t: Tick, cfg: Settings)
    requires UnderPressure(apps, access, t, cfg)
    requires Names(names, apps)
    requires Load(apps, names) > 0
    ensures Load(Cycle(apps, access, t, cfg), names) < Load(apps, names)
  {
    var n := LoadedName(apps, names);
    assert Eligible(apps, access, n, t) && n in t.order;
    VictimIsLeastRecentlyUsed(apps, access, t);
    VictimFalls(apps, access, t, cfg);
    LoadFallsWith(apps, access, names, t, cfg, Choice(apps, access, t).victim);
  }

  /** The rows after a run of cycles without accesses. */
  function AfterCycles(apps: map<Name, App>, access: map<Name, real>, ticks: seq<Tick>, cfg: Settings): map<Name, App>
    decreases |ticks|
  {
    if ticks == [] then apps else AfterCycles(Cycle(apps, access, ticks[0], cfg), access, ticks[1..], cfg)
  }

  ghost predicate SustainedPressure(apps: map<Name, App>, access: map<Name, real>, ticks: seq<Tick>, cfg: Settings)
    decreases |ticks|
  {
    ticks != [] ==>
      && UnderPressure(apps, access, ticks[0], cfg)
      && SustainedPressure(Cycle(apps, access, ticks[0], cfg), access, ticks[1..], cfg)
  }

  ghost predicate Names(names: seq<Name>, apps: map<Name, App>) {
    forall n :: n in apps <==> n in names
  }

  /** One cycle takes one off the load, unless nothing is left. */
  lemma LoadAfterCycle(apps: map<Name, App>, access: map<Name, real>, names: seq<Name>, t: Tick, cfg: Settings)
    requires UnderPressure(apps, access, t, cfg) && Names(names, apps)
    ensures Names(names, Cycle(apps, access, t, cfg))
    ensures var load := Load(Cycle(apps, access, t, cfg), names); load < Load(apps, names) || load == 0
  {
    if Load(apps, names) > 0 {
      PressureMakesProgress(apps, access, names, t, cfg);
    } else {
      LoadNeverRises(apps, access, names, t, cfg);
    }
  }

  lemma {:induction false} NothingComesBack(apps: map<Name, App>, access: map<Name, real>, names: seq<Name>,
                                            ticks: seq<Tick>, cfg: Settings)
    ensures Load(AfterCycles(apps, access, ticks, cfg), names) <= Load(apps, names)
    decreases |ticks|
  {
    if ticks != [] {
      LoadNeverRises(apps, access, names, ticks[0], cfg);
      NothingComesBack(Cycle(apps, access, ticks[0], cfg), access, names, ticks[1..], cfg);
    }
  }

  lemma {:induction false} LoadAfterCycles(apps: map<Name, App>, access: map<Name, real>, names: seq<Name>,
                                           ticks: seq<Tick>, cfg: Settings)
    requires SustainedPressure(apps, access, ticks, cfg) && Names(names, apps)
    ensures Load(AfterCycles(apps, access, ticks, cfg), names) + |ticks| <= Load(apps, names)
            || Load(AfterCycles(apps, access, ticks, cfg), names) == 0
    decreases |ticks|
  {
    if ticks != [] {
      var next := Cycle(apps, access, ticks[0], cfg);
      LoadAfterCycle(apps, access, names, ticks[0], cfg);
      LoadAfterCycles(next, access, names, ticks[1..], cfg);
      NothingComesBack(next, access, names, ticks[1..], cfg);
    }
  }

  /** The number of apps that pressure may demote. */
  function DemotableCount(apps: map<Name, App>, names: seq<Name>): nat {
    if names == [] then 0
    else (if LevelOf(apps, names[0]) > 0 then 1 else 0) + DemotableCount(apps, names[1..])
  }

  lemma {:induction false} LoadIsAtMostTwice(apps: map<Name, App>, names: seq<Name>)
    ensures Load(apps, names) <= 2 * DemotableCount(apps, names)
  {
    if names != [] {
      LoadIsAtMostTwice(apps, names[1..]);
    }
  }

  lemma {:induction false} NoLoadMeansNoneLeft(apps: map<Name, App>, names: seq<Name>, n: Name)
    requires Load(apps, names) == 0 && n in names
    ensures LevelOf(apps, n) == 0
  {
    if names[0] != n {
      NoLoadMeansNoneLeft(apps, names[1..], n);
    }
  }

  /** Twice as many cycles as there are demotable apps stop every one of them. */
  lemma PressureStopsEverything(apps: map<Name, App>, access: map<Name, real>, names: seq<Name>,
                                ticks: seq<Tick>, cfg: Settings, n: Name)
    requires SustainedPressure(apps, access, ticks, cfg)
    requires Names(names, apps)
    requires |ticks| >= 2 * DemotableCount(apps, names)
    requires n in names
    ensures LevelOf(AfterCycles(apps, access, ticks, cfg), n) == 0
  {
    LoadAfterCycles(apps, access, names, ticks, cfg);
    LoadIsAtMostTwice(apps, names);
    NoLoadMeansNoneLeft(AfterCycles(apps, access, ticks, cfg), names, n);
  }

  // ---- real time ----

  /**
    One app over a run of cycles. Between two cycles anything may happen to the other apps; this app is not
    accessed after time a and only the control loop operates on it.
   */
  datatype Watch = Watch(
    n: Name,
    l: Lifecycle,
    a: real,
    before: seq<map<Name, App>>,
    access: seq<map<Name, real>>,
    ticks: seq<Tick>)
  {
    ghost predicate Valid(cfg: Settings) {
      && |before| == |access| == |ticks|
      && (forall i :: 0 <= i < |ticks| ==> n in before[i] && before[i][n].meta == Some(l))
      && (forall i :: 0 <= i < |ticks| ==> AccessedAt(access[i]) && !ticks[i].diskLow && ticks[i].docker(n))
      && (forall i, j :: 0 <= i < j < |ticks| && j == i + 1 ==> before[j][n].status == After(i, cfg))
    }

    /** An app that has not been accessed since the start of the process counts as accessed at time zero. */
    predicate AccessedAt(access: map<Name, real>) {
      if n in access then access[n] == a else a == 0.0
    }

    function Time(i: nat): real
      requires i < |ticks|
    {
      ticks[i].now(n)
    }

    ghost function After(i: nat, cfg: Settings): Status
      requires |before| == |access| == |ticks| && i < |ticks| && n in before[i]
    {
      var rows := Cycle(before[i], access[i], ticks[i], cfg);
      if n in rows then rows[n].status else before[i][n].status
    }
  }

  predicate Tier(status: Status) {
    status.Running? || status.Paused? || status.Stopped?
  }

  /** Idle-tier apps only ever move down. */
  lemma TierStep(w: Watch, cfg: Settings, i: nat)
    requires w.Valid(cfg) && i < |w.ticks| && !w.l.alwaysOn && Tier(w.before[i][w.n].status)
    ensures Tier(w.After(i, cfg)) && Level(w.After(i, cfg)) <= Level(w.before[i][w.n].status)
    ensures Level(w.After(i, cfg)) <= Level(Idled(w.before[i], w.access[i], w.n, w.ticks[i], cfg).status)
  {
    AppInCycle(w.before[i], w.access[i], w.n, w.ticks[i], cfg);
    VictimOf(w.before[i], w.access[i], w.ticks[i]);
  }

  lemma {:induction false} StaysInTier(w: Watch, cfg: Settings, i: nat)
    requires w.Valid(cfg) && i < |w.ticks| && !w.l.alwaysOn && Tier(w.before[0][w.n].status)
    ensures Tier(w.before[i][w.n].status)
  {
    if i > 0 {
      StaysInTier(w, cfg, i - 1);
      TierStep(w, cfg, i - 1);
      assert w.before[i][w.n].status == w.After(i - 1, cfg);
    }
  }

  /** Consecutive cycles look at the app at most r apart, the first one at most r after the access. */
  ghost predicate Paced(w: Watch, r: real) {
    && (|w.ticks| > 0 ==> w.Time(0) <= w.a + r)
    && (forall i, j :: 0 <= i < j < |w.ticks| && j == i + 1 ==> w.Time(i) <= w.Time(j) <= w.Time(i) + r)
  }

  ghost predicate Pausable(w: Watch, cfg: Settings) {
    w.Valid(cfg) && cfg.pauseEnabled && !w.l.alwaysOn && !w.l.skipPause
  }

  /** A cycle at or after a + t1 leaves the app PAUSED or STOPPED. */
  lemma PausedOnceIdle(w: Watch, cfg: Settings, i: nat)
    requires Pausable(w, cfg) && i < |w.ticks| && Tier(w.before[0][w.n].status)
    requires w.Time(i) >= w.a + PauseAfter(w.l, cfg) as real
    ensures !w.After(i, cfg).Running? && Tier(w.After(i, cfg))
  {
    StaysInTier(w, cfg, i);
    TierStep(w, cfg, i);
  }

  /** Two cycles are enough: every cycle from a + max(t1 + r, t2) on, except the very first, leaves the app STOPPED. */
  lemma StoppedOnceIdle(w: Watch, cfg: Settings, r: real, i: nat)
    requires Pausable(w, cfg) && Paced(w, r) && 0 < i < |w.ticks| && Tier(w.before[0][w.n].status)
    requires w.Time(i) >= w.a + PauseAfter(w.l, cfg) as real + r
    requires w.Time(i) >= w.a + StopAfter(w.l, cfg) as real
    ensures w.After(i, cfg).Stopped?
  {
    assert w.ticks[i].docker(w.n) && w.Time(i) <= w.Time(i - 1) + r;
    PausedOnceIdle(w, cfg, i - 1);
    assert w.before[i][w.n].status == w.After(i - 1, cfg);
    TierStep(w, cfg, i);
  }

  function Max(x: real, y: real): real {
    if x >= y then x else y
  }

  /** The deadline a + max(t1 + 2r, t2 + r). */
  function Deadline(w: Watch, cfg: Settings, r: real): real {
    w.a + Max(PauseAfter(w.l, cfg) as real + 2.0 * r, StopAfter(w.l, cfg) as real + r)
  }

  /** The first cycle that sees at least the time given. */
  lemma {:induction false} FirstFrom(w: Watch, cfg: Settings, r: real, time: real, i: nat) returns (k: nat)
    requires w.Valid(cfg) && Paced(w, r) && i < |w.ticks| && w.Time(i) >= time
    ensures k <= i && time <= w.Time(k) && (k == 0 || w.Time(k) < time + r)
  {
    k := i;
    while k > 0 && w.Time(k - 1) >= time
      invariant k <= i && time <= w.Time(k)
    {
      k := k - 1;
    }
    if k > 0 {
      assert w.ticks[k].docker(w.n);
    }
  }

  lemma {:induction false} StoppedStays(w: Watch, cfg: Settings, i: nat, j: nat)
    requires w.Valid(cfg) && i <= j < |w.ticks| && !w.l.alwaysOn && w.After(i, cfg).Stopped?
    ensures w.After(j, cfg).Stopped?
    decreases j
  {
    if i < j {
      StoppedStays(w, cfg, i, j - 1);
      assert w.before[j][w.n].status == w.After(j - 1, cfg);
      TierStep(w, cfg, j);
    }
  }

  /** A run that reaches the deadline has stopped the app by then, and the app stays stopped. */
  lemma StoppedByDeadline(w: Watch, cfg: Settings, r: real) returns (k: nat)
    requires Pausable(w, cfg) && Paced(w, r) && Tier(if |w.ticks| > 0 then w.before[0][w.n].status else Stopped)
    requires r > 0.0 && PauseAfter(w.l, cfg) > 0
    requires |w.ticks| > 0 && w.Time(|w.ticks| - 1) >= Deadline(w, cfg, r)
    ensures k < |w.ticks| && w.Time(k) <= Deadline(w, cfg, r)
    ensures forall j :: k <= j < |w.ticks| ==> w.After(j, cfg).Stopped?
  {
    var time := Deadline(w, cfg, r) - r;
    k := FirstFrom(w, cfg, r, time, |w.ticks| - 1);
    StoppedOnceIdle(w, cfg, r, k);
    forall j | k <= j < |w.ticks| ensures w.After(j, cfg).Stopped? {
      StoppedStays(w, cfg, k, j);
    }
  }

  // ---- never too early ----

  ghost predicate NoPressure(w: Watch, cfg: Settings) {
    forall i :: 0 <= i < |w.ticks| ==> !cfg.pauseEnabled || w.ticks[i].psi <= cfg.psiThreshold
  }

  /** Absent pressure, an operation on the app only happens once it has been idle for the time its tier demands. */
  lemma NeverTooEarly(w: Watch, cfg: Settings, i: nat)
    requires Pausable(w, cfg) && NoPressure(w, cfg) && i < |w.ticks|
    requires Tier(w.before[i][w.n].status) && w.After(i, cfg) != w.before[i][w.n].status
    ensures w.After(i, cfg).Paused? ==> w.Time(i) >= w.a + PauseAfter(w.l, cfg) as real
    ensures w.After(i, cfg).Stopped? ==> w.Time(i) >= w.a + StopAfter(w.l, cfg) as real
    ensures w.After(i, cfg).Paused? || w.After(i, cfg).Stopped?
  {
    assert !cfg.pauseEnabled || w.ticks[i].psi <= cfg.psiThreshold;
    AppInCycle(w.before[i], w.access[i], w.n, w.ticks[i], cfg);
  }

  /** Absent pressure, the app still runs while less than t1 has passed, and is not stopped before t2 has. */
  lemma {:induction false} RunsUntilIdle(w: Watch, cfg: Settings, r: real, i: nat)
    requires Pausable(w, cfg) && NoPressure(w, cfg) && Paced(w, r) && i < |w.ticks|
    requires w.before[0][w.n].status.Running?
    ensures Tier(w.After(i, cfg))
    ensures w.Time(i) < w.a + PauseAfter(w.l, cfg) as real ==> w.After(i, cfg).Running?
    ensures w.Time(i) < w.a + StopAfter(w.l, cfg) as real ==> !w.After(i, cfg).Stopped?
  {
    StaysInTier(w, cfg, i);
    TierStep(w, cfg, i);
    if i > 0 {
      RunsUntilIdle(w, cfg, r, i - 1);
      assert w.before[i][w.n].status == w.After(i - 1, cfg);
      assert w.ticks[i].docker(w.n) && w.Time(i - 1) <= w.Time(i);
    }
    if w.After(i, cfg) != w.before[i][w.n].status {
      NeverTooEarly(w, cfg, i);
    }
  }

  // ---- low disk ----

  /** On a low disk a cycle stops every app it looks at, always-on ones and those under a teardown included. */
  lemma LowDiskStops(apps: map<Name, App>, access: map<Name, real>, n: Name, t: Tick, cfg: Settings)
    requires t.diskLow && n in apps && apps[n].meta.Some? && t.docker(n)
    requires apps[n].status != InstallationQueued && apps[n].status != Installing
    ensures n in Cycle(apps, access, t, cfg)
    ensures Cycle(apps, access, t, cfg)[n].status ==
      if apps[n].status in {Running, Paused, Uninstalling} then Stopped else apps[n].status
  {
    AppInCycle(apps, access, n, t, cfg);
    VictimOf(apps, access, t);
  }

  /** Apps that are being installed are not looked at. */
  lemma InstallationsAreLeftAlone(apps: map<Name, App>, access: map<Name, real>, n: Name, t: Tick, cfg: Settings)
    requires n in apps && apps[n].status in {InstallationQueued, Installing}
    ensures n in Cycle(apps, access, t, cfg) && Cycle(apps, access, t, cfg)[n] == apps[n]
  {
    AppInCycle(apps, access, n, t, cfg);
    VictimOf(apps, access, t);
  }

  // ---- always-on apps ----

  /**
    With enough disk, a cycle starts an always-on app that is stopped, down or paused, fits and is not throttled, if
    docker can; in every other case, and under any pressure, it leaves the app as it is.
   */
  lemma AlwaysOnStarts(apps: map<Name, App>, access: map<Name, real>, n: Name, t: Tick, cfg: Settings)
    requires !t.diskLow && n in apps && apps[n].meta.Some? && apps[n].meta.value.alwaysOn
    ensures n in Cycle(apps, access, t, cfg)
    ensures Cycle(apps, access, t, cfg)[n].status ==
      if apps[n].status in {Stopped, Down, Paused} && apps[n].fits && !t.throttled(n) && t.docker(n) then Running
      else apps[n].status
  {
    AppInCycle(apps, access, n, t, cfg);
    VictimOf(apps, access, t);
  }

  /** An always-on app over a run of cycles, with anything happening to the other apps in between. */
  datatype Course = Course(n: Name, before: seq<map<Name, App>>, access: seq<map<Name, real>>, ticks: seq<Tick>)
  {
    ghost predicate Valid(cfg: Settings) {
      && |before| == |access| == |ticks|
      && (forall i :: 0 <= i < |ticks| ==> !ticks[i].diskLow && n in before[i] && before[i][n].meta.Some?)
      && (forall i :: 0 <= i < |ticks| ==> before[i][n].meta.value.alwaysOn)
      && (forall i, j :: 0 <= i < j < |ticks| && j == i + 1 ==> before[j][n].status == After(i, cfg))
    }

    ghost function After(i: nat, cfg: Settings): Status
      requires |before| == |access| == |ticks| && i < |ticks| && n in before[i]
    {
      var rows := Cycle(before[i], access[i], ticks[i], cfg);
      if n in rows then rows[n].status else before[i][n].status
    }

    /** A cycle that can start the app. */
    predicate Starts(i: nat)
      requires i < |ticks| && i < |before| && n in before[i]
    {
      before[i][n].fits && !ticks[i].throttled(n) && ticks[i].docker(n)
    }
  }

  /** Once one cycle has been able to start it, an always-on app is RUNNING after that cycle and every later one. */
  lemma {:induction false} AlwaysOnStaysOn(w: Course, cfg: Settings, i: nat, j: nat)
    requires w.Valid(cfg) && i <= j < |w.ticks| && w.Starts(i)
    requires w.before[0][w.n].status in {Stopped, Down, Paused, Running}
    ensures w.After(j, cfg) == Running
    decreases j
  {
    AlwaysOnStarts(w.before[j], w.access[j], w.n, w.ticks[j], cfg);
    if i < j {
      AlwaysOnStaysOn(w, cfg, i, j - 1);
      assert w.before[j][w.n].status == w.After(j - 1, cfg);
    } else {
      AlwaysOnIsStartable(w, cfg, j);
    }
  }

  lemma {:induction false} AlwaysOnIsStartable(w: Course, cfg: Settings, i: nat)
    requires w.Valid(cfg) && i < |w.ticks|
    requires w.before[0][w.n].status in {Stopped, Down, Paused, Running}
    ensures w.before[i][w.n].status in {Stopped, Down, Paused, Running}
  {
    if i > 0 {
      AlwaysOnIsStartable(w, cfg, i - 1);
      AlwaysOnStarts(w.before[i - 1], w.access[i - 1], w.n, w.ticks[i - 1], cfg);
      assert w.before[i][w.n].status == w.After(i - 1, cfg);
    }
  }

  // ---- apps that are only stopped ----

  /** Pausing is switched off, or the app opts out of it. */
  ghost predicate StopOnly(w: Watch, cfg: Settings) {
    w.Valid(cfg) && !w.l.alwaysOn && (!cfg.pauseEnabled || w.l.skipPause)
  }

  /** One cycle: pressure stops a skip_pause app, idle time stops either, and nothing pauses them. */
  lemma StopOnlyStep(w: Watch, cfg: Settings, i: nat)
    requires StopOnly(w, cfg) && i < |w.ticks|
    ensures w.before[i][w.n].status == Running ==>
      && w.After(i, cfg) in {Running, Stopped}
      && (w.Time(i) >= w.a + StopAfter(w.l, cfg) as real ==> w.After(i, cfg) == Stopped)
      && (w.After(i, cfg) == Stopped ==>
            w.Time(i) >= w.a + StopAfter(w.l, cfg) as real || PressureHigh(w.ticks[i], cfg))
    ensures w.before[i][w.n].status == Stopped ==> w.After(i, cfg) == Stopped
    ensures w.before[i][w.n].status == Paused ==>
      w.After(i, cfg) == Paused || (w.After(i, cfg) == Stopped && PressureHigh(w.ticks[i], cfg))
  {
    AppInCycle(w.before[i], w.access[i], w.n, w.ticks[i], cfg);
    VictimOf(w.before[i], w.access[i], w.ticks[i]);
  }

  /** Such an app is never paused, under pressure or not, and a stopped one stays stopped. */
  lemma {:induction false} NeverPaused(w: Watch, cfg: Settings, i: nat)
    requires StopOnly(w, cfg) && i < |w.ticks| && w.before[0][w.n].status in {Running, Stopped}
    ensures w.before[i][w.n].status in {Running, Stopped} && w.After(i, cfg) in {Running, Stopped}
  {
    if i > 0 {
      NeverPaused(w, cfg, i - 1);
      assert w.before[i][w.n].status == w.After(i - 1, cfg);
    }
    StopOnlyStep(w, cfg, i);
  }

  lemma {:induction false} StopOnlyStays(w: Watch, cfg: Settings, i: nat, j: nat)
    requires StopOnly(w, cfg) && i <= j < |w.ticks| && w.After(i, cfg) == Stopped
    ensures w.After(j, cfg) == Stopped
    decreases j
  {
    if i < j {
      StopOnlyStays(w, cfg, i, j - 1);
      assert w.before[j][w.n].status == w.After(j - 1, cfg);
      StopOnlyStep(w, cfg, j);
    }
  }

  /** A run that reaches a + t2 + r has stopped the app by then, and the app stays stopped. */
  lemma StopOnlyByDeadline(w: Watch, cfg: Settings, r: real) returns (k: nat)
    requires StopOnly(w, cfg) && Paced(w, r) && StopAfter(w.l, cfg) >= 0 && r >= 0.0
    requires |w.ticks| > 0 && w.before[0][w.n].status in {Running, Stopped}
    requires w.Time(|w.ticks| - 1) >= w.a + StopAfter(w.l, cfg) as real + r
    ensures k < |w.ticks| && w.Time(k) <= w.a + StopAfter(w.l, cfg) as real + r
    ensures forall j :: k <= j < |w.ticks| ==> w.After(j, cfg) == Stopped
  {
    k := FirstFrom(w, cfg, r, w.a + StopAfter(w.l, cfg) as real, |w.ticks| - 1);
    NeverPaused(w, cfg, k);
    StopOnlyStep(w, cfg, k);
    forall j | k <= j < |w.ticks| ensures w.After(j, cfg) == Stopped {
      StopOnlyStays(w, cfg, k, j);
    }
  }

  /** Absent pressure it runs until a + t2. */
  lemma {:induction false} StopOnlyRunsUntilIdle(w: Watch, cfg: Settings, r: real, i: nat)
    requires StopOnly(w, cfg) && NoPressure(w, cfg) && Paced(w, r) && i < |w.ticks|
    requires w.before[0][w.n].status == Running && w.Time(i) < w.a + StopAfter(w.l, cfg) as real
    ensures w.After(i, cfg) == Running
  {
    assert !cfg.pauseEnabled || w.ticks[i].psi <= cfg.psiThreshold;
    if i > 0 {
      assert w.Time(i - 1) <= w.Time(i);
      StopOnlyRunsUntilIdle(w, cfg, r, i - 1);
      assert w.before[i][w.n].status == w.After(i - 1, cfg);
    }
    StopOnlyStep(w, cfg, i);
  }

  /** An app that was PAUSED when it became stop-only stays PAUSED absent pressure, however long it is idle. */
  lemma {:induction false} PausedIsForgotten(w: Watch, cfg: Settings, i: nat)
    requires StopOnly(w, cfg) && NoPressure(w, cfg) && i < |w.ticks| && w.before[0][w.n].status == Paused
    ensures w.After(i, cfg) == Paused
  {
    assert !cfg.pauseEnabled || w.ticks[i].psi <= cfg.psiThreshold;
    if i > 0 {
      PausedIsForgotten(w, cfg, i - 1);
      assert w.before[i][w.n].status == w.After(i - 1, cfg);
    }
    StopOnlyStep(w, cfg, i);
  }
}
