/** Whole runs of the kernel's threads, in any interleaving. */
module SchedulerRuns {
  import opened Builds
  import opened Queues
  import opened Scheduler
  import opened SchedulerSafety

  predicate Possible(build: Build, policy: Policy, s: Kernel, run: seq<Event>)
    decreases |run|
  {
    run == [] || (Enabled(build, policy, s, run[0]) &&
        Possible(build, policy, Step(build, policy, s, run[0]), run[1..]))
  }

  function After(build: Build, policy: Policy, s: Kernel, run: seq<Event>): Kernel
    requires Possible(build, policy, s, run)
    decreases |run|
  {
    if run == [] then s else After(build, policy, Step(build, policy, s, run[0]), run[1..])
  }

  lemma {:induction false} RunThenRun(build: Build, policy: Policy, s: Kernel, run: seq<Event>, more: seq<Event>)
    requires Possible(build, policy, s, run)
    ensures Possible(build, policy, s, run + more) <==> Possible(build, policy, After(build, policy, s, run), more)
    ensures Possible(build, policy, s, run + more) ==>
      After(build, policy, s, run + more) == After(build, policy, After(build, policy, s, run), more)
    decreases |run|
  {
    hide Enabled, Step;
    if run == [] {
      assert run + more == more;
    } else {
      assert (run + more)[1..] == run[1..] + more;
      RunThenRun(build, policy, Step(build, policy, s, run[0]), run[1..], more);
    }
  }

  lemma {:induction false} OneStep(build: Build, policy: Policy, s: Kernel, e: Event)
    requires Enabled(build, policy, s, e)
    ensures Possible(build, policy, s, [e]) && After(build, policy, s, [e]) == Step(build, policy, s, e)
  {
    hide Enabled, Step;
    assert [e][1..] == [];
  }

  /** A run and one step more. */
  lemma {:induction false} RunThenStep(build: Build, policy: Policy, s: Kernel, run: seq<Event>, e: Event)
    requires Possible(build, policy, s, run) && Enabled(build, policy, After(build, policy, s, run), e)
    ensures Possible(build, policy, s, run + [e])
    ensures After(build, policy, s, run + [e]) == Step(build, policy, After(build, policy, s, run), e)
  {
    hide Enabled, Step;
    RunThenRun(build, policy, s, run, [e]);
    OneStep(build, policy, After(build, policy, s, run), e);
  }

  /** The first part of a run. */
  lemma {:induction false} RunSoFar(build: Build, policy: Policy, s: Kernel, run: seq<Event>, k: nat)
    requires Possible(build, policy, s, run) && k <= |run|
    ensures Possible(build, policy, s, run[..k])
    decreases |run|
  {
    hide Enabled, Step;
    if k > 0 {
      assert run[..k][1..] == run[1..][..k - 1];
      RunSoFar(build, policy, Step(build, policy, s, run[0]), run[1..], k - 1);
    }
  }

  predicate KillFree(run: seq<Event>) {
    forall e :: e in run ==> !e.Kill?
  }

  lemma {:induction false} RunsKeepInv(build: Build, policy: Policy, s: Kernel, run: seq<Event>)
    requires Inv(build, policy, s) && Possible(build, policy, s, run)
    ensures Inv(build, policy, After(build, policy, s, run))
    decreases |run|
  {
    hide Inv, Enabled, Step;
    if run != [] {
      StepKeepsInv(build, policy, s, run[0]);
      RunsKeepInv(build, policy, Step(build, policy, s, run[0]), run[1..]);
    }
  }

  lemma {:induction false} StartInv(build: Build, policy: Policy, degree: nat)
    ensures Inv(build, policy, Start(degree))
  {
  }

  /** No thread ever pops an empty queue, in any interleaving; every process that has been
      created and not buried is in exactly one place; and it is labelled Running exactly while
      the dispatcher has it, so one process runs at a time. */
  lemma {:induction false} RunsAreSafe(policy: Policy, degree: nat, run: seq<Event>, p: nat)
    requires Possible(Repaired, policy, Start(degree), run)
    ensures var s := After(Repaired, policy, Start(degree), run);
            && !s.crashed
            && Places(SpotsOf(s, p)) == (if p in s.alive then 1 else 0)
            && (p in s.alive ==> p in s.labels && (s.labels[p].Running? <==> s.dispatcher == Holds(p)))
  {
    StartInv(Repaired, policy, degree);
    RunsKeepInv(Repaired, policy, Start(degree), run);
    var s := After(Repaired, policy, Start(degree), run);
    assert Placed(Repaired, s, p);
    hide After, Possible, Times;
  }

  /** How far the console has moved the degree of multiprogramming. */
  function Raised(run: seq<Event>): int {
    if run == [] then 0
    else (if run[0].Raise? then 1 else if run[0].Lower? then -1 else 0) + Raised(run[1..])
  }

  lemma {:induction false} DegreeFollows(build: Build, policy: Policy, s: Kernel, run: seq<Event>)
    requires Possible(build, policy, s, run)
    ensures After(build, policy, s, run).tally.degree == s.tally.degree + Raised(run)
    decreases |run|
  {
    hide Enabled, Step;
    if run != [] {
      DegreeAfter(build, policy, s, run[0]);
      DegreeFollows(build, policy, Step(build, policy, s, run[0]), run[1..]);
    }
  }

  lemma {:induction false} DegreeAfter(build: Build, policy: Policy, s: Kernel, e: Event)
    requires Enabled(build, policy, s, e)
    ensures Step(build, policy, s, e).tally.degree
            == s.tally.degree + (if e.Raise? then 1 else if e.Lower? then -1 else 0)
  {
    if e.Kill? {
      KilledDegree(build, s, e.pid);
    } else {
      TallyOf(build, policy, s, e);
    }
    hide Killed, Returned, Picked, Slaughtered, ToReady;
  }

  lemma {:induction false} KilledDegree(build: Build, s: Kernel, x: nat)
    requires Enabled(build, Fifo, s, Kill(x))
    ensures Killed(build, s, x).tally.degree == s.tally.degree
  {
  }

  /** When no thread has a unit or owes one, the semaphores count their queues, and the free
      slots are the degree of multiprogramming less the processes that have been let in. */
  lemma {:induction false} AtRest(policy: Policy, degree: nat, run: seq<Event>)
    requires Possible(Repaired, policy, Start(degree), run)
    ensures var s := After(Repaired, policy, Start(degree), run);
            s.createdSem.owed == s.readySem.owed == s.exitSem.owed == 0 && s.planner.Empty? && s.dispatcher.Empty?
            && s.reaper.Empty? ==>
              && s.createdSem.units == |s.created| && s.readySem.units == |s.ready| + |s.plus|
              && s.exitSem.units == |s.exiting|
              && s.slots == degree + Raised(run)
                            - (|s.ready| + |s.plus| + |s.blocked| + |s.waiting| + |s.served| + |s.woken|)
  {
    StartInv(Repaired, policy, degree);
    RunsKeepInv(Repaired, policy, Start(degree), run);
    DegreeFollows(Repaired, policy, Start(degree), run);
    hide After, Possible, Placed;
  }
}
