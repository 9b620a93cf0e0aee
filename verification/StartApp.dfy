/**
  The revive primitive on its own: it decides from the real state of the containers, whatever the row says, and
  ends with both in agreement. The throttle in front of it drops calls that follow each other too closely.
 */
module StartApp {
  import opened Options
  import opened AppStatus

  datatype Container = Up | Frozen | Ended | Created

  /** get_app_container_state, given what the daemon reports for each container. */
  function Classify(containers: seq<Container>): (s: StackState)
    ensures s.AllRunning? <==> containers != [] && forall i :: 0 <= i < |containers| ==> containers[i].Up?
    ensures s.SomePaused? <==> exists i :: 0 <= i < |containers| && containers[i].Frozen?
    ensures s.Missing? <==> containers == []
  {
    if containers == [] then Missing
    else if exists i :: 0 <= i < |containers| && containers[i].Frozen? then SomePaused
    else if forall i :: 0 <= i < |containers| ==> containers[i].Up? then AllRunning
    else Exited
  }

  predicate AllUp(containers: seq<Container>) {
    Classify(containers).AllRunning?
  }

  predicate AllFrozen(containers: seq<Container>) {
    forall i :: 0 <= i < |containers| ==> containers[i].Frozen?
  }

  predicate AnyFrozen(containers: seq<Container>) {
    exists i :: 0 <= i < |containers| && containers[i].Frozen?
  }

  /** The docker commands that change something. */
  datatype Command = UnpauseStack | UpStack | DownStack

  datatype UpResult = UpSucceeds | StaleNetwork | NameConflict | OtherFailure

  /**
    What docker answers during one run. A command that fails may leave the containers in any state.
    services: how many containers compose creates for the app.
   */
  datatype Docker = Docker(
    services: nat,
    inspectWorks: bool,
    unpauseWorks: bool, afterUnpause: seq<Container>,
    up: UpResult, afterUp: seq<Container>,
    downWorks: bool, afterDown: seq<Container>,
    upAgainWorks: bool, afterUpAgain: seq<Container>)

  function Started(n: nat): (c: seq<Container>)
    ensures |c| == n
    ensures n > 0 ==> AllUp(c)
  {
    seq(n, _ => Up)
  }

  /** compose up gets through, possibly after the stale containers have been removed. */
  predicate ComposeUpWorks(d: Docker) {
    || d.up.UpSucceeds?
    || ((d.up.StaleNetwork? || d.up.NameConflict?) && d.downWorks && d.upAgainWorks)
  }

  /** The revive has to start containers, rather than find them running or unfreeze them. */
  predicate NeedsUp(containers: seq<Container>, d: Docker) {
    var seen := if d.inspectWorks then Classify(containers) else Missing;
    !seen.AllRunning? && (seen.SomePaused? ==> !d.unpauseWorks)
  }

  function UpCommands(d: Docker): seq<Command> {
    if d.up.UpSucceeds? || d.up.OtherFailure? then [UpStack]
    else [UpStack, DownStack] + if d.downWorks then [UpStack] else []
  }

  /** The commands a revive issues for a revivable app. */
  function CommandsFor(containers: seq<Container>, d: Docker): seq<Command> {
    var seen := if d.inspectWorks then Classify(containers) else Missing;
    (if seen.SomePaused? then [UnpauseStack] else []) + if NeedsUp(containers, d) then UpCommands(d) else []
  }

  class AppStack {
    var row: Option<Status>
    var containers: seq<Container>
    var commands: seq<Command>

    constructor (row: Option<Status>, containers: seq<Container>)
      ensures this.row == row && this.containers == containers && this.commands == []
    {
      this.row, this.containers, this.commands := row, containers, [];
    }

    /** An UPDATE by name. */
    method MarkRunning()
      modifies this`row
      ensures row == if old(row).Some? then Some(Running) else None
    {
      if row.Some? {
        row := Some(Running);
      }
    }

    /** A stale network and a name conflict are each retried once, after a compose down; nothing else is retried. */
    method ComposeUp(d: Docker) returns (raised: bool)
      requires d.services > 0
      modifies this`containers, this`commands
      ensures raised <==> !ComposeUpWorks(d)
      ensures commands == old(commands) + UpCommands(d)
      ensures !raised ==> |containers| == d.services && forall i :: 0 <= i < |containers| ==> containers[i].Up?
      ensures d.up == UpSucceeds ==> !raised && commands == old(commands) + [UpStack]
      ensures d.up == OtherFailure ==> raised && commands == old(commands) + [UpStack]
      ensures d.up == StaleNetwork || d.up == NameConflict ==>
        && (raised <==> !d.downWorks || !d.upAgainWorks)
        && commands == old(commands) + if d.downWorks then [UpStack, DownStack, UpStack] else [UpStack, DownStack]
    {
      commands := commands + [UpStack];
      if d.up.UpSucceeds? {
        containers := Started(d.services);
        return false;
      }
      containers := d.afterUp;
      if d.up.OtherFailure? {
        return true;
      }
      commands := commands + [DownStack];
      if !d.downWorks {
        containers := d.afterDown;
        return true;
      }
      containers := [];
      commands := commands + [UpStack];
      if !d.upAgainWorks {
        containers := d.afterUpAgain;
        return true;
      }
      containers := Started(d.services);
      raised := false;
    }

    /**
      start_app under the op lock, with nobody else at work. It raises exactly when containers have to be started
      and compose cannot start them; otherwise a revivable app ends RUNNING with every container running. An app
      that is not revivable is left alone, and one that already runs as its row says sees no command.
     */
    method Start(d: Docker) returns (raised: bool)
      requires d.services > 0
      requires d.unpauseWorks ==> AllFrozen(containers)
      modifies this
      ensures old(row) !in {Some(Stopped), Some(Running), Some(Down), Some(Paused)} ==>
        !raised && row == old(row) && containers == old(containers) && commands == old(commands)
      ensures old(row) in {Some(Stopped), Some(Running), Some(Down), Some(Paused)} ==>
        && (raised <==> NeedsUp(old(containers), d) && !ComposeUpWorks(d))
        && (!raised ==> row == Some(Running))
        && (!raised ==> containers != [] && forall i :: 0 <= i < |containers| ==> containers[i].Up?)
        && (raised ==> row == old(row))
        && commands == old(commands) + CommandsFor(old(containers), d)
        && (d.inspectWorks && AnyFrozen(old(containers)) ==>
              if d.unpauseWorks then commands == old(commands) + [UnpauseStack]
              else commands == old(commands) + [UnpauseStack] + UpCommands(d) && (raised <==> !ComposeUpWorks(d)))
        && (!d.inspectWorks || !(AnyFrozen(old(containers)) || AllUp(old(containers))) ==>
              commands == old(commands) + UpCommands(d) && (raised <==> !ComposeUpWorks(d)))
      ensures AllUp(old(containers)) && d.inspectWorks ==> commands == old(commands) && containers == old(containers)
    {
      raised := false;
      if row.None? || !Revivable(row.value) {
        return;
      }
      var seen := if d.inspectWorks then Classify(containers) else Missing;
      if seen.AllRunning? {
        if row != Some(Running) {
          MarkRunning();
        }
        return;
      }
      if seen.SomePaused? {
        commands := commands + [UnpauseStack];
        if d.unpauseWorks {
          containers := seq(|containers|, _ => Up);
        } else {
          containers := d.afterUnpause;
          raised := ComposeUp(d);
          if raised {
            return;
          }
        }
        MarkRunning();
        return;
      }
      raised := ComposeUp(d);
      if raised {
        return;
      }
      MarkRunning();
    }

    /** A revive followed by another: the second one finds everything in order and issues no command. */
    method StartTwice(d: Docker, d': Docker) returns (raised: bool)
      requires d.services > 0 && d'.services > 0
      requires d.unpauseWorks ==> AllFrozen(containers)
      requires row.Some? && Revivable(row.value)
      requires NeedsUp(containers, d) ==> ComposeUpWorks(d)
      requires d'.inspectWorks && !d'.unpauseWorks
      modifies this
      ensures !raised && row == Some(Running) && AllUp(containers)
      ensures commands == old(commands) + CommandsFor(old(containers), d)
    {
      raised := Start(d);
      raised := Start(d');
    }
  }

  // ---- the throttle ----

  /** One decorated function: the last call per argument that was let through. */
  class Throttle {
    const minDuration: real
    var lastCall: map<string, real>

    constructor (minDuration: real)
      ensures this.minDuration == minDuration && lastCall == map[]
    {
      this.minDuration, this.lastCall := minDuration, map[];
    }

    method Call(arg: string, now: real) returns (passes: bool)
      modifies this
      ensures passes <==> Passes(old(lastCall), minDuration, arg, now)
      ensures lastCall == if passes then old(lastCall)[arg := now] else old(lastCall)
    {
      passes := arg !in lastCall || lastCall[arg] + minDuration < now;
      if passes {
        lastCall := lastCall[arg := now];
      }
    }

    /** The calls of a whole run, and which of them are let through. */
    method CallAll(calls: seq<(string, real)>) returns (passed: seq<bool>)
      requires lastCall == map[]
      modifies this
      ensures passed == Passed(calls, minDuration)
    {
      passed := [];
      for i := 0 to |calls|
        invariant passed == Passed(calls[..i], minDuration) && lastCall == LastCalls(calls[..i], minDuration)
      {
        assert calls[..i + 1][..i] == calls[..i];
        var p := Call(calls[i].0, calls[i].1);
        passed := passed + [p];
      }
      assert calls[..|calls|] == calls;
    }
  }

  predicate Passes(lastCall: map<string, real>, minDuration: real, arg: string, now: real) {
    arg in lastCall ==> lastCall[arg] + minDuration < now
  }

  function LastCalls(calls: seq<(string, real)>, minDuration: real): map<string, real> {
    if calls == [] then map[]
    else
      var front, last := calls[..|calls| - 1], calls[|calls| - 1];
      var before := LastCalls(front, minDuration);
      if Passes(before, minDuration, last.0, last.1) then before[last.0 := last.1] else before
  }

  function Passed(calls: seq<(string, real)>, minDuration: real): (p: seq<bool>)
    ensures |p| == |calls|
  {
    if calls == [] then []
    else
      var front, last := calls[..|calls| - 1], calls[|calls| - 1];
      Passed(front, minDuration) + [Passes(LastCalls(front, minDuration), minDuration, last.0, last.1)]
  }

  ghost predicate InOrder(calls: seq<(string, real)>) {
    forall i, j :: 0 <= i < j < |calls| ==> calls[i].1 <= calls[j].1
  }

  /** Call i is the last one before n for its argument that was let through. */
  ghost predicate LastPassed(calls: seq<(string, real)>, minDuration: real, n: nat, arg: string, i: nat) {
    && i < n <= |calls| && calls[i].0 == arg && Passed(calls, minDuration)[i]
    && forall j :: i < j < n && calls[j].0 == arg ==> !Passed(calls, minDuration)[j]
  }

  lemma {:induction false} PassedPrefix(calls: seq<(string, real)>, minDuration: real, n: nat)
    requires n <= |calls|
    ensures Passed(calls, minDuration)[..n] == Passed(calls[..n], minDuration)
    decreases |calls|
  {
    if n < |calls| {
      var front := calls[..|calls| - 1];
      PassedPrefix(front, minDuration, n);
      assert front[..n] == calls[..n];
    } else {
      assert calls[..n] == calls;
    }
  }

  /** The dictionary holds exactly the time of the last call let through per argument. */
  lemma {:induction false} LastCallsAre(calls: seq<(string, real)>, minDuration: real, arg: string)
    ensures var m := LastCalls(calls, minDuration);
      && (arg in m ==> exists i: nat :: LastPassed(calls, minDuration, |calls|, arg, i) && m[arg] == calls[i].1)
      && (arg !in m ==> forall i :: 0 <= i < |calls| && calls[i].0 == arg ==> !Passed(calls, minDuration)[i])
    decreases |calls|
  {
    if calls != [] {
      var front, k := calls[..|calls| - 1], |calls| - 1;
      var m := LastCalls(front, minDuration);
      LastCallsAre(front, minDuration, arg);
      if calls[k].0 == arg && Passes(m, minDuration, arg, calls[k].1) {
        assert LastPassed(calls, minDuration, |calls|, arg, k);
      } else if arg in m {
        var i: nat :| LastPassed(front, minDuration, |front|, arg, i) && m[arg] == front[i].1;
        assert LastPassed(calls, minDuration, |calls|, arg, i);
      }
    }
  }

  lemma PassedAt(calls: seq<(string, real)>, minDuration: real, n: nat)
    requires n < |calls|
    ensures Passed(calls, minDuration)[n] <==>
      Passes(LastCalls(calls[..n], minDuration), minDuration, calls[n].0, calls[n].1)
    ensures forall i :: 0 <= i < n ==> Passed(calls, minDuration)[i] == Passed(calls[..n], minDuration)[i]
  {
    var p := Passed(calls, minDuration);
    PassedPrefix(calls, minDuration, n + 1);
    PassedPrefix(calls, minDuration, n);
    assert calls[..n + 1][..n] == calls[..n];
    assert p[n] == p[..n + 1][n];
    forall i | 0 <= i < n ensures p[i] == p[..n][i] {}
  }

  /** A call is dropped exactly when a call with the same argument was let through at most minDuration before. */
  lemma DroppedExactlyWhen(calls: seq<(string, real)>, minDuration: real, n: nat)
    requires n < |calls| && InOrder(calls) && minDuration >= 0.0
    ensures !Passed(calls, minDuration)[n] <==>
      exists i :: 0 <= i < n && calls[i].0 == calls[n].0 && Passed(calls, minDuration)[i]
        && calls[n].1 <= calls[i].1 + minDuration
  {
    var arg, before := calls[n].0, calls[..n];
    PassedAt(calls, minDuration, n);
    LastCallsAre(before, minDuration, arg);
    var m, p := LastCalls(before, minDuration), Passed(calls, minDuration);
    if arg in m {
      var j: nat :| LastPassed(before, minDuration, n, arg, j) && m[arg] == before[j].1;
      assert p[j] && calls[j].0 == arg;
      forall i | 0 <= i < n && calls[i].0 == arg && p[i] ensures calls[i].1 <= calls[j].1 {
        assert before[i] == calls[i] && Passed(before, minDuration)[i];
        assert i <= j;
      }
    } else {
      assert forall i :: 0 <= i < n && calls[i].0 == arg ==> before[i] == calls[i] && !p[i];
    }
  }
}
