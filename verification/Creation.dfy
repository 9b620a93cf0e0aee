/**
  Whether STOPPED is true of the containers when an installation or a reinstallation has ended. Neither stops the
  containers it finds, so the answer lies in what was there when it began.
 */
module Creation {
  import opened AppStatus
  import opened InstallProtocol
  import opened InstallSafety
  import opened InstallDrain
  import opened InstallGaps
  import opened InstallAlone
  import opened Agreement
  import Teardowns

  /** The points of a task may turn the containers from c into c', given what docker answers at each. */
  ghost predicate Leads(passed: seq<WorkerPc>, answers: Answers, c: Real, c': Real) {
    if passed == [] then c' == c
    else
      exists mid ::
        Possible(WorkerCommand(passed[0]), answers(passed[0]), c, mid) && Leads(passed[1..], answers, mid, c')
  }

  lemma LeadsOn(pc: WorkerPc, passed: seq<WorkerPc>, answers: Answers, c: Real, c': Real)
    requires WorkerCommand(pc) == NoCommand
    ensures Leads([pc] + passed, answers, c, c') <==> Leads(passed, answers, c, c')
  {
    assert ([pc] + passed)[1..] == passed;
  }

  lemma {:induction false} LeadsAcross(quiet: seq<WorkerPc>, passed: seq<WorkerPc>, answers: Answers, c: Real, c': Real)
    requires forall pc :: pc in quiet ==> WorkerCommand(pc) == NoCommand
    ensures Leads(quiet + passed, answers, c, c') <==> Leads(passed, answers, c, c')
  {
    if quiet == [] {
      assert quiet + passed == passed;
    } else {
      LeadsAcross(quiet[1..], passed, answers, c, c');
      LeadsOn(quiet[0], quiet[1..] + passed, answers, c, c');
      assert quiet + passed == [quiet[0]] + (quiet[1..] + passed);
    }
  }

  lemma LeadsLast(pc: WorkerPc, answers: Answers, c: Real, c': Real)
    requires WorkerCommand(pc) == NoCommand
    ensures Leads([pc], answers, c, c') <==> c' == c
  {
    LeadsOn(pc, [], answers, c, c');
    assert [pc] + [] == [pc];
  }

  lemma LeadsCreating(last: WorkerPc, answers: Answers, c: Real, c': Real)
    requires WorkerCommand(last) == NoCommand
    ensures Leads([WCreate, last], answers, c, c') <==> Possible(CreateStack, answers(WCreate), c, c')
  {
    var passed := [WCreate, last];
    assert passed[1..] == [last] && WorkerCommand(passed[0]) == CreateStack;
    forall mid ensures Leads(passed[1..], answers, mid, c') <==> c' == mid {
      LeadsLast(last, answers, mid, c');
    }
    if Possible(CreateStack, answers(WCreate), c, c') {
      assert Possible(WorkerCommand(passed[0]), answers(passed[0]), c, c') && Leads(passed[1..], answers, c', c');
    }
  }

  /** Only the creation touches the containers. */
  lemma LeadsObtaining(answers: Answers, c: Real, c': Real)
    ensures Leads(Obtaining(answers), answers, c, c') <==>
      if answers(WObtain).Success? then Possible(CreateStack, answers(WCreate), c, c') else c' == c
  {
    if answers(WObtain).Success? {
      var last := if answers(WCreate).Success? then WFinish else WFail;
      LeadsOn(WObtain, [WCreate, last], answers, c, c');
      LeadsCreating(last, answers, c, c');
      assert [WObtain] + [WCreate, last] == [WObtain, WCreate, last];
    } else {
      LeadsOn(WObtain, [WFail], answers, c, c');
      LeadsLast(WFail, answers, c, c');
      assert [WObtain] + [WFail] == [WObtain, WFail];
    }
  }

  /** A task that creates containers is about to check its row, and will find what it looks for. */
  predicate AboutToCreate(s: State, task: Task) {
    s.worker == Busy(task, WLoadRow) && !task.kind.Uninstall? && RowOf(s, task.name) == Row(QueuedStatus(task.kind))
  }

  lemma TaskAlone(s: State, task: Task, answers: Answers, c: Real, c': Real)
    requires AboutToCreate(s, task)
    ensures Unhindered(s) && Finished(s, answers) == Obtained(s, task.name, answers)
    ensures Leads(Passed(s, answers), answers, c, c') <==> Leads(Obtaining(answers), answers, c, c')
  {
    if task.kind.Reinstall? {
      ReinstallAlone(s, task, answers);
      LeadsAcross([WLoadRow, WBegin, WStopLoad, WDownLoad], Obtaining(answers), answers, c, c');
    } else {
      InstallAlone.InstallAlone(s, task, answers);
      LeadsAcross([WLoadRow, WBegin], Obtaining(answers), answers, c, c');
    }
  }

  /**
    Left alone, an installation or a reinstallation ends with a status that is true of the containers, whatever docker
    and the download answer, exactly when it found no containers that were running or frozen.
   */
  lemma EndsTrueExactlyWhen(s: State, task: Task, c: Real)
    requires AboutToCreate(s, task)
    ensures Unhindered(s)
    ensures !(c.Up? || c.Frozen?) <==> forall answers, c' ::
      Leads(Passed(s, answers), answers, c, c') ==> Agrees(RowOf(Finished(s, answers), task.name), c')
  {
    TaskAlone(s, task, _ => Success, c, c);
    if c.Up? || c.Frozen? {
      var answers: Answers := _ => Success;
      TaskAlone(s, task, answers, c, c);
      LeadsObtaining(answers, c, c);
      assert Leads(Passed(s, answers), answers, c, c);
      assert !Agrees(RowOf(Finished(s, answers), task.name), c);
    } else {
      forall answers, c' | Leads(Passed(s, answers), answers, c, c')
        ensures Agrees(RowOf(Finished(s, answers), task.name), c')
      {
        TaskAlone(s, task, answers, c, c');
        LeadsObtaining(answers, c, c');
      }
    }
  }

  // ---- from boot ----

  lemma RequestWritten(boot: State) returns (events: seq<Event>, reals: seq<Real>, s: State)
    requires boot == Booted(map["a" := Running], {"a"}, [])
    ensures s == Run(boot, events) && Along(boot, events, "a", reals) && reals[0] == reals[|events|] == Up
    ensures RowOf(s, "a") == Row(ReinstallationQueued) && s.worker.Idle? && s.queue == []
    ensures s.calls == map[0 := ApiCall(Task("a", Reinstall), AEnqueue)]
  {
    events, reals, s := [], [Up], boot;
    events, reals, s := Follow(boot, events, "a", reals, s, Spawn(0, ApiCall(Task("a", Reinstall), ACheck)), Up);
    assert s.calls == map[0 := ApiCall(Task("a", Reinstall), ACheck)];
    events, reals, s := Follow(boot, events, "a", reals, s, CallTurn(0, Success), Up);
    assert s.calls == map[0 := ApiCall(Task("a", Reinstall), AWrite)];
    events, reals, s := Follow(boot, events, "a", reals, s, CallTurn(0, Success), Up);
  }

  lemma RequestPicked(boot: State) returns (events: seq<Event>, reals: seq<Real>, s: State)
    requires boot == Booted(map["a" := Running], {"a"}, [])
    ensures s == Run(boot, events) && Along(boot, events, "a", reals) && reals[0] == reals[|events|] == Up
    ensures AboutToCreate(s, Task("a", Reinstall))
  {
    events, reals, s := RequestWritten(boot);
    events, reals, s := Follow(boot, events, "a", reals, s, CallTurn(0, Success), Up);
    assert s.queue == [Task("a", Reinstall)] && s.worker.Idle?;
    events, reals, s := Follow(boot, events, "a", reals, s, WorkerTurn(Success), Up);
  }

  /** A reinstallation of a running app, with everything succeeding, that ends STOPPED with the app still running. */
  lemma ReinstallCanEndFalse() returns (before: seq<Event>, reals: seq<Real>, after: seq<Event>)
    ensures var boot := Booted(map["a" := Running], {"a"}, []);
      && Along(boot, before, "a", reals) && reals[0] == reals[|before|] == Up
      && var mid, answers := Run(boot, before), (_ => Success);
         && Unhindered(mid) && after == TurnsOf(Passed(mid, answers), answers)
         && Leads(Passed(mid, answers), answers, Up, Up)
         && RowOf(Run(boot, before + after), "a") == Row(Stopped)
  {
    var boot := Booted(map["a" := Running], {"a"}, []);
    var s: State;
    before, reals, s := RequestPicked(boot);
    var answers: Answers := _ => Success;
    TaskAlone(s, Task("a", Reinstall), answers, Up, Up);
    LeadsObtaining(answers, Up, Up);
    after := TurnsOf(Passed(s, answers), answers);
    FinishedIsRun(s, answers);
    Teardowns.RunAppend(boot, before, after);
  }
}
