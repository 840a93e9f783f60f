/** What the lines of the kernel that miss their intent cost, exactly, in any interleaving. */
module SchedulerAsWritten {
  import opened Builds
  import opened Queues
  import opened Scheduler
  import opened SchedulerRuns
  import opened SchedulerSafety

  // ------------------------------------------------- harmful kills and lost slots

  /** The kill of a process not yet let in, for which the planner's semaphore keeps its unit. */
  predicate HarmsPlanner(s: Kernel, e: Event) {
    e.Kill? && e.pid in s.created
  }

  /** The kill of one that is queued after a SIGNAL with its label unchanged, for which the
      dispatcher's semaphore keeps its unit. */
  predicate HarmsDispatcher(s: Kernel, e: Event) {
    e.Kill? && e.pid !in s.created && (e.pid in s.ready || e.pid in s.plus) && !TakesUnit(s, e.pid)
  }

  /** How many kills of the first kind a run makes. */
  function PlannerHarms(policy: Policy, s: Kernel, run: seq<Event>): nat
    requires Possible(AsWritten, policy, s, run)
    decreases |run|
  {
    if run == [] then 0
    else Bit(HarmsPlanner(s, run[0])) + PlannerHarms(policy, Step(AsWritten, policy, s, run[0]), run[1..])
  }

  function DispatcherHarms(policy: Policy, s: Kernel, run: seq<Event>): nat
    requires Possible(AsWritten, policy, s, run)
    decreases |run|
  {
    if run == [] then 0
    else Bit(HarmsDispatcher(s, run[0])) + DispatcherHarms(policy, Step(AsWritten, policy, s, run[0]), run[1..])
  }

  /** How many programs a run fails to load. */
  function Failed(run: seq<Event>): nat {
    if run == [] then 0 else Bit(run[0] == Load(false)) + Failed(run[1..])
  }

  lemma {:induction false} TallyStep(policy: Policy, s: Kernel, e: Event)
    requires Enabled(AsWritten, policy, s, e)
    ensures Step(AsWritten, policy, s, e).tally
         == Tally(s.tally.degree + (if e.Raise? then 1 else if e.Lower? then -1 else 0),
                  s.tally.leaked + Bit(e == Load(false)),
                  s.tally.createdSurplus + Bit(HarmsPlanner(s, e)), s.tally.readySurplus + Bit(HarmsDispatcher(s, e)))
  {
    if e.Kill? {
      KilledTally(s, e.pid);
    } else {
      TallyOf(AsWritten, policy, s, e);
    }
    hide Killed, TakenOut, Returned, Picked, Slaughtered, ToReady;
  }

  lemma {:induction false} KilledTally(s: Kernel, x: nat)
    requires Enabled(AsWritten, Fifo, s, Kill(x))
    ensures Killed(AsWritten, s, x).tally
         == s.tally.(createdSurplus := s.tally.createdSurplus + Bit(HarmsPlanner(s, Kill(x))),
                     readySurplus := s.tally.readySurplus + Bit(HarmsDispatcher(s, Kill(x))))
  {
  }

  /** The proof's bookkeeping is what can be counted in the run. */
  lemma {:induction false} TallyFollows(policy: Policy, s: Kernel, run: seq<Event>)
    requires Possible(AsWritten, policy, s, run)
    ensures After(AsWritten, policy, s, run).tally
         == Tally(s.tally.degree + Raised(run), s.tally.leaked + Failed(run),
                  s.tally.createdSurplus + PlannerHarms(policy, s, run),
                  s.tally.readySurplus + DispatcherHarms(policy, s, run))
    decreases |run|
  {
    hide Enabled, Step, HarmsPlanner, HarmsDispatcher;
    if run != [] {
      TallyStep(policy, s, run[0]);
      TallyFollows(policy, Step(AsWritten, policy, s, run[0]), run[1..]);
    }
  }

  lemma {:induction false} Reached(policy: Policy, degree: nat, run: seq<Event>)
    requires Possible(AsWritten, policy, Start(degree), run)
    ensures Inv(AsWritten, policy, After(AsWritten, policy, Start(degree), run))
    ensures After(AsWritten, policy, Start(degree), run).tally
         == Tally(degree + Raised(run), Failed(run), PlannerHarms(policy, Start(degree), run),
                  DispatcherHarms(policy, Start(degree), run))
  {
    hide Inv, Possible, After, PlannerHarms, DispatcherHarms, Raised, Failed;
    StartInv(AsWritten, policy, degree);
    RunsKeepInv(AsWritten, policy, Start(degree), run);
    TallyFollows(policy, Start(degree), run);
  }

  /** At rest each semaphore is ahead of its queue by the kills that harmed it, and as many slots
      as loads that failed are gone. */
  lemma {:induction false} AtRestAsWritten(policy: Policy, degree: nat, run: seq<Event>)
    requires Possible(AsWritten, policy, Start(degree), run)
    ensures var s := After(AsWritten, policy, Start(degree), run);
            s.createdSem.owed == s.readySem.owed == s.exitSem.owed == 0 && s.planner.Empty? && s.dispatcher.Empty?
            && s.reaper.Empty? ==>
              && s.createdSem.units == |s.created| + PlannerHarms(policy, Start(degree), run)
              && s.readySem.units == |s.ready| + |s.plus| + DispatcherHarms(policy, Start(degree), run)
              && s.exitSem.units == |s.exiting|
              && s.slots == degree + Raised(run) - Failed(run)
                            - (|s.ready| + |s.plus| + |s.blocked| + |s.waiting| + |s.served| + |s.woken|)
  {
    hide After, Possible, Placed, PlannerHarms, DispatcherHarms, Raised, Failed;
    Reached(policy, degree, run);
  }

  // ----------------------------------------------------- popping an empty queue

  /** How the dispatcher is driven towards a pop. */
  function Drive(policy: Policy, s: Kernel): Event {
    match s.dispatcher
    case Holds(_) => Finish
    case Empty => if s.readySem.units > 0 then DispatcherWait else PostReady
    case Called => if policy.VirtualRoundRobin? then Look else Pick
    case _ => Pick
  }

  function Rank(s: Kernel): nat {
    match s.dispatcher
    case Holds(_) => 4
    case Empty => if s.readySem.units > 0 then 2 else 3
    case Called => 1
    case _ => 0
  }

  /** Once its semaphore is ahead of the ready queues, the dispatcher need only empty them, and
      pops an empty queue next. */
  lemma {:induction false} DispatcherCrashes(build: Build, policy: Policy, s: Kernel) returns (run: seq<Event>)
    requires Inv(build, policy, s) && !s.crashed && s.tally.readySurplus > 0
    ensures Possible(build, policy, s, run) && After(build, policy, s, run).crashed
    ensures KillFree(run)
    decreases |s.ready| + |s.plus|, Rank(s)
  {
    hide Inv, Enabled, Step, Drive, Rank;
    var e := Drive(policy, s);
    DrivesOn(build, policy, s);
    StepKeepsInv(build, policy, s, e);
    var s' := Step(build, policy, s, e);
    run := [e];
    if !s'.crashed {
      var rest := DispatcherCrashes(build, policy, s');
      run := [e] + rest;
      assert run[1..] == rest;
    } else {
      assert run[1..] == [];
    }
  }

  lemma {:induction false} DrivesOn(build: Build, policy: Policy, s: Kernel)
    requires Inv(build, policy, s) && !s.crashed && s.tally.readySurplus > 0
    ensures !Drive(policy, s).Kill? && Enabled(build, policy, s, Drive(policy, s))
    ensures var s' := Step(build, policy, s, Drive(policy, s));
            && s'.tally == s.tally
            && (s'.crashed || |s'.ready| + |s'.plus| < |s.ready| + |s.plus|
                || (|s'.ready| + |s'.plus| == |s.ready| + |s.plus| && Rank(s') < Rank(s)))
  {
    hide Placed;
  }

  /** How the planner is driven towards a pop: the console raises the degree when it waits for a slot. */
  function DrivePlanner(s: Kernel): Event {
    match s.planner
    case Empty => if s.createdSem.units > 0 then PlannerWait else PostCreated
    case Called => PlannerPop
    case Admitted(_) => Load(true)
    case _ => if s.slots > 0 then Admit else Raise
  }

  function PlannerRank(s: Kernel): nat {
    match s.planner
    case Called => 0
    case Empty => if s.createdSem.units > 0 then 1 else 2
    case Admitted(_) => 3
    case _ => if s.slots > 0 then 4 else 5
  }

  /** So with the planner. */
  lemma {:induction false} PlannerCrashes(build: Build, policy: Policy, s: Kernel) returns (run: seq<Event>)
    requires Inv(build, policy, s) && !s.crashed && s.tally.createdSurplus > 0
    ensures Possible(build, policy, s, run) && After(build, policy, s, run).crashed
    ensures KillFree(run)
    decreases |s.created|, PlannerRank(s)
  {
    hide Inv, Enabled, Step, DrivePlanner, PlannerRank;
    var e := DrivePlanner(s);
    PlannerDrivesOn(build, policy, s);
    StepKeepsInv(build, policy, s, e);
    var s' := Step(build, policy, s, e);
    run := [e];
    if !s'.crashed {
      var rest := PlannerCrashes(build, policy, s');
      run := [e] + rest;
      assert run[1..] == rest;
    } else {
      assert run[1..] == [];
    }
  }

  lemma {:induction false} PlannerDrivesOn(build: Build, policy: Policy, s: Kernel)
    requires Inv(build, policy, s) && !s.crashed && s.tally.createdSurplus > 0
    ensures !DrivePlanner(s).Kill? && Enabled(build, policy, s, DrivePlanner(s))
    ensures var s' := Step(build, policy, s, DrivePlanner(s));
            && s'.tally.createdSurplus == s.tally.createdSurplus
            && (s'.crashed || |s'.created| < |s.created|
                || (|s'.created| == |s.created| && PlannerRank(s') < PlannerRank(s)))
  {
    hide Placed;
  }

  predicate Crashes(policy: Policy, s: Kernel, run: seq<Event>) {
    Possible(AsWritten, policy, s, run) && After(AsWritten, policy, s, run).crashed
  }

  /** A run that has popped an empty queue has made a harmful kill. */
  lemma {:induction false} HarmlessRunsAreSafe(policy: Policy, degree: nat, run: seq<Event>)
    requires Crashes(policy, Start(degree), run)
    ensures PlannerHarms(policy, Start(degree), run) + DispatcherHarms(policy, Start(degree), run) > 0
  {
    hide After, Possible, Placed, PlannerHarms, DispatcherHarms;
    Reached(policy, degree, run);
  }

  lemma {:induction false} KillFreeHarms(policy: Policy, s: Kernel, run: seq<Event>)
    requires Possible(AsWritten, policy, s, run) && KillFree(run)
    ensures PlannerHarms(policy, s, run) == DispatcherHarms(policy, s, run) == 0
    decreases |run|
  {
    hide Step, Enabled;
    if run != [] {
      KillFreeHarms(policy, Step(AsWritten, policy, s, run[0]), run[1..]);
    }
  }

  /** And once one has been made a thread can be brought to pop an empty queue, without any
      further kill: exactly then. */
  lemma {:induction false} CrashFollowsIff(policy: Policy, degree: nat, run: seq<Event>)
    requires Possible(AsWritten, policy, Start(degree), run)
    requires !After(AsWritten, policy, Start(degree), run).crashed
    ensures (exists more :: KillFree(more) && Crashes(policy, After(AsWritten, policy, Start(degree), run), more))
            <==> PlannerHarms(policy, Start(degree), run) + DispatcherHarms(policy, Start(degree), run) > 0
  {
    hide After, Possible, Placed, PlannerHarms, DispatcherHarms, KillFree;
    var s := After(AsWritten, policy, Start(degree), run);
    Reached(policy, degree, run);
    if s.tally.readySurplus > 0 {
      var more := DispatcherCrashes(AsWritten, policy, s);
      assert KillFree(more) && Crashes(policy, s, more);
    } else if s.tally.createdSurplus > 0 {
      var more := PlannerCrashes(AsWritten, policy, s);
      assert KillFree(more) && Crashes(policy, s, more);
    } else {
      forall more | KillFree(more) && Possible(AsWritten, policy, s, more)
        ensures !Crashes(policy, s, more)
      {
        KillFreeHarms(policy, s, more);
        TallyFollows(policy, s, more);
        RunsKeepInv(AsWritten, policy, s, more);
      }
    }
  }

  lemma {:induction false} StepThenRun(policy: Policy, s: Kernel, e: Event, run: seq<Event>)
    requires Enabled(AsWritten, policy, s, e) && Possible(AsWritten, policy, Step(AsWritten, policy, s, e), run)
    ensures var s' := Step(AsWritten, policy, s, e);
            && Possible(AsWritten, policy, s, [e] + run)
            && After(AsWritten, policy, s, [e] + run) == After(AsWritten, policy, s', run)
            && PlannerHarms(policy, s, [e] + run) == Bit(HarmsPlanner(s, e)) + PlannerHarms(policy, s', run)
            && DispatcherHarms(policy, s, [e] + run) == Bit(HarmsDispatcher(s, e)) + DispatcherHarms(policy, s', run)
            && Failed([e] + run) == Bit(e == Load(false)) + Failed(run)
            && Raised([e] + run) == (if e.Raise? then 1 else if e.Lower? then -1 else 0) + Raised(run)
  {
    hide Enabled, Step, HarmsPlanner, HarmsDispatcher;
    assert ([e] + run)[1..] == run;
  }

  /** Both kinds of kill can be made: three steps are enough for the first, and one process that
      runs, signals and is killed in the queue for the second. */
  lemma {:induction false} NewIsKilled(policy: Policy, degree: nat) returns (run: seq<Event>)
    ensures Possible(AsWritten, policy, Start(degree), run) && PlannerHarms(policy, Start(degree), run) > 0
  {
    var s1 := Step(AsWritten, policy, Start(degree), Create);
    var s2 := Step(AsWritten, policy, s1, PostCreated);
    StepThenRun(policy, s2, Kill(1), []);
    StepThenRun(policy, s1, PostCreated, [Kill(1)]);
    run := [PostCreated] + [Kill(1)];
    StepThenRun(policy, Start(degree), Create, run);
    run := [Create] + run;
  }

  lemma {:induction false} SignallerIsKilled(policy: Policy, degree: nat) returns (run: seq<Event>)
    requires degree > 0
    ensures Possible(AsWritten, policy, Start(degree), run) && DispatcherHarms(policy, Start(degree), run) > 0
  {
    hide DispatcherHarms, PlannerHarms, HarmsDispatcher, HarmsPlanner;
    var s1 := Step(AsWritten, policy, Start(degree), Create);
    var s2 := Step(AsWritten, policy, s1, PostCreated);
    run := FirstLoaded(policy, s2);
    StepThenRun(policy, s1, PostCreated, run);
    run := [PostCreated] + run;
    StepThenRun(policy, Start(degree), Create, run);
    run := [Create] + run;
  }

  lemma {:induction false} FirstLoaded(policy: Policy, s: Kernel) returns (run: seq<Event>)
    requires !s.crashed && s.planner.Empty? && s.createdSem == Sem(1, 0) && s.created == [1] && s.slots > 0
    requires s.dispatcher.Empty? && s.readySem == Sem(0, 0) && s.ready == s.plus == []
    ensures Possible(AsWritten, policy, s, run) && DispatcherHarms(policy, s, run) > 0
  {
    hide DispatcherHarms, PlannerHarms, HarmsDispatcher, HarmsPlanner;
    var s1 := Step(AsWritten, policy, s, PlannerWait);
    var s2 := Step(AsWritten, policy, s1, PlannerPop);
    var s3 := Step(AsWritten, policy, s2, Admit);
    var s4 := Step(AsWritten, policy, s3, Load(true));
    run := FirstSignals(policy, Step(AsWritten, policy, s4, PostReady));
    StepThenRun(policy, s4, PostReady, run);
    run := [PostReady] + run;
    StepThenRun(policy, s3, Load(true), run);
    run := [Load(true)] + run;
    StepThenRun(policy, s2, Admit, run);
    run := [Admit] + run;
    StepThenRun(policy, s1, PlannerPop, run);
    run := [PlannerPop] + run;
    StepThenRun(policy, s, PlannerWait, run);
    run := [PlannerWait] + run;
  }

  lemma {:induction false} FirstSignals(policy: Policy, s: Kernel) returns (run: seq<Event>)
    requires !s.crashed && s.dispatcher.Empty? && s.readySem == Sem(1, 0) && s.ready == [1] && s.plus == [] &&
        s.created == []
    ensures Possible(AsWritten, policy, s, run) && DispatcherHarms(policy, s, run) > 0
  {
    hide DispatcherHarms, PlannerHarms, HarmsDispatcher, HarmsPlanner;
    var s1 := Step(AsWritten, policy, s, DispatcherWait);
    var s2 := if policy.VirtualRoundRobin? then Step(AsWritten, policy, s1, Look) else s1;
    var s3 := Step(AsWritten, policy, s2, Pick);
    run := SignalsAndDies(policy, s3);
    StepThenRun(policy, s2, Pick, run);
    run := [Pick] + run;
    if policy.VirtualRoundRobin? {
      StepThenRun(policy, s1, Look, run);
      run := [Look] + run;
    }
    StepThenRun(policy, s, DispatcherWait, run);
    run := [DispatcherWait] + run;
  }

  lemma {:induction false} SignalsAndDies(policy: Policy, s: Kernel) returns (run: seq<Event>)
    requires !s.crashed && s.dispatcher == Holds(1) && s.ready == s.plus == s.created == []
    ensures Possible(AsWritten, policy, s, run) && DispatcherHarms(policy, s, run) > 0
  {
    var s1 := Step(AsWritten, policy, s, Signalled);
    assert 1 in (if policy.VirtualRoundRobin? then s1.plus else s1.ready) && !TakesUnit(s1, 1);
    StepThenRun(policy, s1, Kill(1), []);
    StepThenRun(policy, s, Signalled, [Kill(1)]);
    run := [Signalled] + [Kill(1)];
  }

  // --------------------------------------------------------------- lost slots

  /** With every slot lost no process is let in any more, whatever happens, unless the degree is raised. */
  lemma {:induction false} NoneIsAdmitted(policy: Policy, s: Kernel, run: seq<Event>)
    requires Inv(AsWritten, policy, s) && Possible(AsWritten, policy, s, run)
    requires s.tally.leaked >= s.tally.degree && Raise !in run
    ensures Admit !in run
    decreases |run|
  {
    hide Enabled, Step, Inv;
    if run != [] {
      StepKeepsInv(AsWritten, policy, s, run[0]);
      TallyStep(policy, s, run[0]);
      FullMeansNone(policy, s);
      NoneIsAdmitted(policy, Step(AsWritten, policy, s, run[0]), run[1..]);
      assert run == [run[0]] + run[1..];
    }
  }

  lemma {:induction false} FullMeansNone(policy: Policy, s: Kernel)
    requires Inv(AsWritten, policy, s) && s.tally.leaked >= s.tally.degree
    ensures !Enabled(AsWritten, policy, s, Admit)
  {
    hide Placed;
  }

  /** A run that lets a process in without the degree having been raised. */
  predicate Admits(policy: Policy, s: Kernel, run: seq<Event>) {
    Possible(AsWritten, policy, s, run) && Raise !in run && Admit in run
  }

  /** A step that brings some process nearer to giving its slot back. */
  function SeekSlot(policy: Policy, s: Kernel): Event {
    if s.planner.Admitted? then Load(true)
    else if s.waiting != [] then Wake(s.waiting[0])
    else if s.woken != [] then ReadyWoken(s.woken[0])
    else if s.served != [] then FailServed(s.served[0])
    else if s.blocked != [] then Serve(s.blocked[0])
    else Drive(policy, s)
  }

  function SlotRank(s: Kernel): nat {
    10 * Bit(s.planner.Admitted?) + 20 * |s.waiting| + 10 * |s.woken| + 10 * |s.blocked| +
    match s.dispatcher
    case Holds(_) => 0
    case Empty => if s.readySem.units > 0 then 3 else 4
    case Called => 2
    case _ => 1
  }

  lemma {:induction false} SlotIsNear(policy: Policy, s: Kernel)
    requires Inv(AsWritten, policy, s) && !s.crashed && s.slots == 0 && s.tally.leaked < s.tally.degree
    ensures var e := SeekSlot(policy, s);
            && Enabled(AsWritten, policy, s, e) && !e.Kill? && !e.Raise?
            && var s' := Step(AsWritten, policy, s, e);
               s'.tally == s.tally && (s'.crashed || s'.slots > 0 || SlotRank(s') < SlotRank(s))
  {
    hide SlotRank, Step, Enabled, Inv;
    if s.planner.Admitted? || s.waiting != [] || s.woken != [] || s.served != [] || s.blocked != [] {
      StoppedSlotIsNear(policy, s);
    } else {
      DispatchedSlotIsNear(policy, s);
    }
  }

  lemma {:induction false} StoppedSlotIsNear(policy: Policy, s: Kernel)
    requires Inv(AsWritten, policy, s) && !s.crashed && s.slots == 0
    requires s.planner.Admitted? || s.waiting != [] || s.woken != [] || s.served != [] || s.blocked != []
    ensures var e := SeekSlot(policy, s);
            && Enabled(AsWritten, policy, s, e) && !e.Kill? && !e.Raise?
            && var s' := Step(AsWritten, policy, s, e);
               s'.tally == s.tally && (s'.slots > 0 || SlotRank(s') < SlotRank(s))
  {
    if s.served != [] {
      assert Placed(AsWritten, s, s.served[0]);
      LabelNow(AsWritten, s, s.served[0]);
    }
    hide Placed, Counted, TakenOut;
  }

  lemma {:induction false} DispatchedSlotIsNear(policy: Policy, s: Kernel)
    requires Inv(AsWritten, policy, s) && !s.crashed && s.slots == 0 && s.tally.leaked < s.tally.degree
    requires !s.planner.Admitted? && s.waiting == s.woken == s.served == s.blocked == []
    ensures var e := SeekSlot(policy, s);
            && Enabled(AsWritten, policy, s, e) && !e.Kill? && !e.Raise?
            && var s' := Step(AsWritten, policy, s, e);
               s'.tally == s.tally && (s'.crashed || s'.slots > 0 || SlotRank(s') < SlotRank(s))
  {
    if s.dispatcher.Holds? {
      assert Placed(AsWritten, s, s.dispatcher.pid);
      LabelNow(AsWritten, s, s.dispatcher.pid);
    }
    hide Placed;
  }

  /** A step that brings the planner nearer to letting a process in. */
  function SeekAdmission(s: Kernel): Event {
    match s.planner
    case Admitted(_) => Load(true)
    case Holds(_) => Admit
    case Called => PlannerPop
    case _ => if s.createdSem.units > 0 then PlannerWait else if s.createdSem.owed > 0 then PostCreated else Create
  }

  function AdmissionRank(s: Kernel): nat {
    match s.planner
    case Admitted(_) => 5
    case Holds(_) => 0
    case Called => 1
    case _ => if s.createdSem.units > 0 then 2 else if s.createdSem.owed > 0 then 3 else 4
  }

  lemma {:induction false} AdmissionIsNear(policy: Policy, s: Kernel)
    requires Inv(AsWritten, policy, s) && !s.crashed && s.slots > 0
    ensures var e := SeekAdmission(s);
            && Enabled(AsWritten, policy, s, e) && !e.Kill? && !e.Raise?
            && (e != Admit ==> var s' := Step(AsWritten, policy, s, e);
                  s'.tally == s.tally && (s'.crashed || (s'.slots > 0 && AdmissionRank(s') < AdmissionRank(s))))
  {
    hide Placed;
  }

  /** While one slot is left, a process can be let in, unless a queue is popped empty first. */
  lemma {:induction false} SomeIsAdmitted(policy: Policy, s: Kernel) returns (run: seq<Event>)
    requires Inv(AsWritten, policy, s) && !s.crashed && s.tally.leaked < s.tally.degree
    ensures KillFree(run) && (Admits(policy, s, run) || Crashes(policy, s, run))
    ensures Possible(AsWritten, policy, s, run) && Raise !in run
    decreases if s.slots > 0 then 0 else 1, if s.slots > 0 then AdmissionRank(s) else SlotRank(s)
  {
    hide Inv, Enabled, Step, SeekSlot, SeekAdmission, SlotRank, AdmissionRank;
    var e := if s.slots > 0 then SeekAdmission(s) else SeekSlot(policy, s);
    if s.slots > 0 {
      AdmissionIsNear(policy, s);
    } else {
      SlotIsNear(policy, s);
    }
    StepKeepsInv(AsWritten, policy, s, e);
    var s' := Step(AsWritten, policy, s, e);
    var rest: seq<Event> := [];
    if !s'.crashed && e != Admit {
      rest := SomeIsAdmitted(policy, s');
    }
    StepThenRun(policy, s, e, rest);
    run := [e] + rest;
    assert forall x :: x in run <==> x == e || x in rest;
    assert Admit in rest ==> Admit in run;
    assert e == Admit ==> Admit in run;
  }

  /** Exactly when fewer programs have failed to load than the degree allows processes, another
      process can still be let in before the degree is raised; after a harmful kill the attempt
      may end in an empty queue instead. */
  lemma {:induction false} AdmitsIff(policy: Policy, degree: nat, run: seq<Event>)
    requires Possible(AsWritten, policy, Start(degree), run)
    requires !After(AsWritten, policy, Start(degree), run).crashed
    ensures var s, left := After(AsWritten, policy, Start(degree), run), Failed(run) < degree + Raised(run);
            var harms := PlannerHarms(policy, Start(degree), run) + DispatcherHarms(policy, Start(degree), run);
            && (!left ==> forall more :: !Admits(policy, s, more))
            && (left ==> exists more :: KillFree(more) && (Admits(policy, s, more) || Crashes(policy, s, more)))
            && (left && harms == 0 ==> exists more :: KillFree(more) && Admits(policy, s, more))
  {
    hide After, Possible, Inv, Raised, Failed, PlannerHarms, DispatcherHarms, KillFree;
    var s := After(AsWritten, policy, Start(degree), run);
    Reached(policy, degree, run);
    if Failed(run) < degree + Raised(run) {
      var more := SomeIsAdmitted(policy, s);
      assert KillFree(more) && (Admits(policy, s, more) || Crashes(policy, s, more));
      if Crashes(policy, s, more) {
        SurplusFirst(policy, s, more);
      }
    } else {
      forall more | Possible(AsWritten, policy, s, more) && Raise !in more
        ensures Admit !in more
      {
        NoneIsAdmitted(policy, s, more);
      }
    }
  }

  lemma {:induction false} SurplusFirst(policy: Policy, s: Kernel, run: seq<Event>)
    requires Inv(AsWritten, policy, s) && KillFree(run) && Crashes(policy, s, run)
    ensures s.tally.createdSurplus + s.tally.readySurplus > 0
  {
    hide After, Possible, Placed, PlannerHarms, DispatcherHarms, KillFree;
    KillFreeHarms(policy, s, run);
    TallyFollows(policy, s, run);
    RunsKeepInv(AsWritten, policy, s, run);
  }

  /** All slots can be lost: one program after the other fails to load. */
  lemma {:induction false} AllFail(policy: Policy, s: Kernel) returns (run: seq<Event>)
    requires !s.crashed && s.planner.Empty? && s.createdSem == Sem(0, 0) && s.created == []
    ensures Possible(AsWritten, policy, s, run) && Raised(run) == 0 && Failed(run) == s.slots
    ensures !After(AsWritten, policy, s, run).crashed
    decreases s.slots, 0
  {
    run := [];
    if s.slots > 0 {
      hide Possible, After, Failed, Raised, PlannerHarms, DispatcherHarms, HarmsPlanner, HarmsDispatcher, Step, Enabled;
      var s1, s2, s3 := NewcomerIsCalled(policy, s);
      run := FailsAndGoesOn(policy, s3);
      StepThenRun(policy, s2, PlannerWait, run);
      run := [PlannerWait] + run;
      StepThenRun(policy, s1, PostCreated, run);
      run := [PostCreated] + run;
      StepThenRun(policy, s, Create, run);
      run := [Create] + run;
    } else {
      NothingRuns(policy, s);
    }
  }

  lemma {:induction false} NothingRuns(policy: Policy, s: Kernel)
    ensures Possible(AsWritten, policy, s, []) && After(AsWritten, policy, s, []) == s && Raised([]) == Failed([]) == 0
  {
  }

  lemma {:induction false} NewcomerIsCalled(policy: Policy, s: Kernel) returns (s1: Kernel, s2: Kernel, s3: Kernel)
    requires !s.crashed && s.planner.Empty? && s.createdSem == Sem(0, 0) && s.created == []
    ensures Enabled(AsWritten, policy, s, Create) && s1 == Step(AsWritten, policy, s, Create)
    ensures Enabled(AsWritten, policy, s1, PostCreated) && s2 == Step(AsWritten, policy, s1, PostCreated)
    ensures Enabled(AsWritten, policy, s2, PlannerWait) && s3 == Step(AsWritten, policy, s2, PlannerWait)
    ensures !s3.crashed && s3.planner.Called? && s3.createdSem == Sem(0, 0) && |s3.created| == 1 && s3.slots == s.slots
    ensures s3.created[0] in s3.labels && s3.labels[s3.created[0]].New?
  {
    s1 := Step(AsWritten, policy, s, Create);
    s2 := Step(AsWritten, policy, s1, PostCreated);
    s3 := Step(AsWritten, policy, s2, PlannerWait);
  }

  lemma {:induction false} NewcomerFails(policy: Policy, s: Kernel) returns (s1: Kernel, s2: Kernel, s3: Kernel)
    requires !s.crashed && s.planner.Called? && s.createdSem == Sem(0, 0) && |s.created| == 1 && s.slots > 0
    requires s.created[0] in s.labels && s.labels[s.created[0]].New?
    ensures Enabled(AsWritten, policy, s, PlannerPop) && s1 == Step(AsWritten, policy, s, PlannerPop)
    ensures Enabled(AsWritten, policy, s1, Admit) && s2 == Step(AsWritten, policy, s1, Admit)
    ensures Enabled(AsWritten, policy, s2, Load(false)) && s3 == Step(AsWritten, policy, s2, Load(false))
    ensures !s3.crashed && s3.planner.Empty? && s3.createdSem == Sem(0, 0) && s3.created == [] &&
            s3.slots == s.slots - 1
  {
    s1 := Step(AsWritten, policy, s, PlannerPop);
    s2 := Step(AsWritten, policy, s1, Admit);
    s3 := Step(AsWritten, policy, s2, Load(false));
  }

  lemma {:induction false} FailsAndGoesOn(policy: Policy, s: Kernel) returns (run: seq<Event>)
    requires !s.crashed && s.planner.Called? && s.createdSem == Sem(0, 0) && |s.created| == 1 && s.slots > 0
    requires s.created[0] in s.labels && s.labels[s.created[0]].New?
    ensures Possible(AsWritten, policy, s, run) && Raised(run) == 0 && Failed(run) == s.slots
    ensures !After(AsWritten, policy, s, run).crashed
    decreases s.slots - 1, 1
  {
    hide Possible, After, Failed, Raised, PlannerHarms, DispatcherHarms, HarmsPlanner, HarmsDispatcher, Step, Enabled;
    var s1, s2, s3 := NewcomerFails(policy, s);
    run := AllFail(policy, s3);
    StepThenRun(policy, s2, Load(false), run);
    run := [Load(false)] + run;
    StepThenRun(policy, s1, Admit, run);
    run := [Admit] + run;
    StepThenRun(policy, s, PlannerPop, run);
    run := [PlannerPop] + run;
  }

  // ------------------------------------------------------------- wrong labels

  /** Labelled Running without being with the dispatcher. */
  predicate Astray(s: Kernel, p: nat) {
    p in s.alive && p in s.labels && s.labels[p].Running? && s.dispatcher != Holds(p)
  }

  /** The process with the dispatcher signals. */
  predicate Signals(s: Kernel, e: Event, p: nat) {
    e.Signalled? && s.dispatcher == Holds(p)
  }

  /** A process is taken out of its ready queue, to run or to die. */
  predicate TakesAway(policy: Policy, s: Kernel, e: Event, p: nat)
    requires Enabled(AsWritten, policy, s, e)
  {
    e == Kill(p) || (e.Pick? && Step(AsWritten, policy, s, e).dispatcher == Holds(p))
  }

  /** A step that relabels the process it moves, and not as Running. */
  predicate Relabels(e: Event) {
    e.Create? || e.Bury? || e.Load? || e.ReadyWoken? || e.ReadyServed? || e.FailServed? || e.Kill?
  }

  predicate ComesBack(e: Event) {
    e.Finish? || e.RequestIo? || e.AwaitResource? || e.GrantResource? || e.Signalled? || e.QuantumEnd?
  }

  lemma {:induction false} KilledAstray(policy: Policy, s: Kernel, x: nat, p: nat)
    requires Enabled(AsWritten, policy, s, Kill(x)) && p != x
    ensures Astray(Step(AsWritten, policy, s, Kill(x)), p) <==> Astray(s, p)
  {
    hide TakenOut;
  }

  lemma {:induction false} RelabelledAstray(policy: Policy, s: Kernel, e: Event, p: nat)
    requires Enabled(AsWritten, policy, s, e) && Relabels(e) && !e.Kill? && p != Moved(s, e)
    ensures Astray(Step(AsWritten, policy, s, e), p) <==> Astray(s, p)
  {
    hide TakenOut;
  }

  lemma {:induction false} NotAstrayAfter(policy: Policy, s: Kernel, e: Event)
    requires Inv(AsWritten, policy, s) && Enabled(AsWritten, policy, s, e) && Relabels(e)
    ensures !Astray(Step(AsWritten, policy, s, e), Moved(s, e))
  {
    hide Placed, Counted, TakenOut;
  }

  lemma {:induction false} NotAstrayBefore(policy: Policy, s: Kernel, e: Event)
    requires Inv(AsWritten, policy, s) && Enabled(AsWritten, policy, s, e) && Relabels(e) && !e.Kill?
    ensures !Astray(s, Moved(s, e))
  {
    assert Placed(AsWritten, s, Moved(s, e));
    LabelNow(AsWritten, s, Moved(s, e));
    hide Counted, Times;
  }

  lemma {:induction false} HeldIsAlive(s: Kernel)
    requires s.dispatcher.Holds? && Placed(AsWritten, s, s.dispatcher.pid)
    ensures s.dispatcher.pid in s.alive
  {
    hide Times;
  }

  lemma {:induction false} ReturnedAstray(policy: Policy, s: Kernel, e: Event, p: nat)
    requires Inv(AsWritten, policy, s) && Enabled(AsWritten, policy, s, e) && ComesBack(e)
    ensures Astray(Step(AsWritten, policy, s, e), p) <==> Signals(s, e, p) || Astray(s, p)
  {
    hide Placed, Counted;
    assert Placed(AsWritten, s, s.dispatcher.pid);
    HeldIsAlive(s);
  }

  lemma {:induction false} PickedAstray(policy: Policy, s: Kernel, p: nat)
    requires Inv(AsWritten, policy, s) && Enabled(AsWritten, policy, s, Pick)
    ensures Astray(Step(AsWritten, policy, s, Pick), p) <==> Astray(s, p) && !TakesAway(policy, s, Pick, p)
  {
    hide Placed, Counted;
  }

  lemma {:induction false} QuietAstray(policy: Policy, s: Kernel, e: Event, p: nat)
    requires Inv(AsWritten, policy, s) && Enabled(AsWritten, policy, s, e) && !Relabels(e) && !ComesBack(e) && !e.Pick?
    ensures Astray(Step(AsWritten, policy, s, e), p) <==> Astray(s, p)
  {
    hide Placed, Counted, TakenOut;
  }

  /** After a step exactly who signalled, and who was astray before and was not taken away. */
  lemma {:induction false} StepAstrayIff(policy: Policy, s: Kernel, e: Event, p: nat)
    requires Inv(AsWritten, policy, s) && Enabled(AsWritten, policy, s, e)
    ensures Astray(Step(AsWritten, policy, s, e), p)
            <==> Signals(s, e, p) || (Astray(s, p) && !TakesAway(policy, s, e, p))
  {
    hide Step, Enabled, Inv, Astray;
    if e.Pick? {
      PickedAstray(policy, s, p);
    } else if ComesBack(e) {
      ReturnedAstray(policy, s, e, p);
    } else if !Relabels(e) {
      QuietAstray(policy, s, e, p);
    } else {
      NotAstrayAfter(policy, s, e);
      if !e.Kill? {
        NotAstrayBefore(policy, s, e);
      }
      if p != Moved(s, e) {
        if e.Kill? {
          KilledAstray(policy, s, e.pid, p);
        } else {
          RelabelledAstray(policy, s, e, p);
        }
      }
    }
  }

  /** Where a run is after its first k steps. */
  function At(policy: Policy, degree: nat, run: seq<Event>, k: nat): Kernel
    requires Possible(AsWritten, policy, Start(degree), run) && k <= |run|
  {
    RunSoFar(AsWritten, policy, Start(degree), run, k);
    After(AsWritten, policy, Start(degree), run[..k])
  }

  predicate SignalsAt(policy: Policy, degree: nat, run: seq<Event>, k: nat, p: nat)
    requires Possible(AsWritten, policy, Start(degree), run) && k < |run|
  {
    Signals(At(policy, degree, run, k), run[k], p)
  }

  predicate TakesAt(policy: Policy, degree: nat, run: seq<Event>, k: nat, p: nat)
    requires Possible(AsWritten, policy, Start(degree), run) && k < |run|
  {
    StepAt(policy, degree, run, k);
    TakesAway(policy, At(policy, degree, run, k), run[k], p)
  }

  lemma {:induction false} StepAt(policy: Policy, degree: nat, run: seq<Event>, k: nat)
    requires Possible(AsWritten, policy, Start(degree), run) && k < |run|
    ensures Enabled(AsWritten, policy, At(policy, degree, run, k), run[k])
    ensures At(policy, degree, run, k + 1) == Step(AsWritten, policy, At(policy, degree, run, k), run[k])
  {
    hide Enabled, Step;
    assert run == run[..k] + run[k..] && run[k..][0] == run[k];
    RunSoFar(AsWritten, policy, Start(degree), run, k);
    RunThenRun(AsWritten, policy, Start(degree), run[..k], run[k..]);
    RunThenStep(AsWritten, policy, Start(degree), run[..k], run[k]);
    assert run[..k + 1] == run[..k] + [run[k]];
  }

  /** It has signalled before step k, and nothing since has taken it away. */
  predicate StillAstray(policy: Policy, degree: nat, run: seq<Event>, k: nat, p: nat)
    requires Possible(AsWritten, policy, Start(degree), run) && k <= |run|
  {
    exists i :: 0 <= i < k && SignalsAt(policy, degree, run, i, p) && NotTaken(policy, degree, run, i, k, p)
  }

  predicate NotTaken(policy: Policy, degree: nat, run: seq<Event>, i: nat, k: nat, p: nat)
    requires Possible(AsWritten, policy, Start(degree), run) && k <= |run|
  {
    forall j :: i < j < k ==> !TakesAt(policy, degree, run, j, p)
  }

  /** As written, a process is labelled Running without being with the dispatcher exactly from a
      SIGNAL of its own until it is picked or killed. */
  lemma {:induction false} AstrayIff(policy: Policy, degree: nat, run: seq<Event>, k: nat, p: nat)
    requires Possible(AsWritten, policy, Start(degree), run) && k <= |run|
    ensures Astray(At(policy, degree, run, k), p) <==> StillAstray(policy, degree, run, k, p)
  {
    hide Enabled, Step, Signals, TakesAway, SignalsAt, TakesAt;
    if k > 0 {
      AstrayIff(policy, degree, run, k - 1, p);
      AstrayStep(policy, degree, run, k - 1, p);
      StillStep(policy, degree, run, k - 1, p);
    }
  }

  lemma {:induction false} AstrayStep(policy: Policy, degree: nat, run: seq<Event>, k: nat, p: nat)
    requires Possible(AsWritten, policy, Start(degree), run) && k < |run|
    ensures Astray(At(policy, degree, run, k + 1), p)
            <==> SignalsAt(policy, degree, run, k, p)
                 || (Astray(At(policy, degree, run, k), p) && !TakesAt(policy, degree, run, k, p))
  {
    hide Enabled, Step, Signals, TakesAway, Inv, Astray, Possible, After;
    StepAt(policy, degree, run, k);
    RunSoFar(AsWritten, policy, Start(degree), run, k);
    Reached(policy, degree, run[..k]);
    StepAstrayIff(policy, At(policy, degree, run, k), run[k], p);
  }

  lemma {:induction false} StillStep(policy: Policy, degree: nat, run: seq<Event>, k: nat, p: nat)
    requires Possible(AsWritten, policy, Start(degree), run) && k < |run|
    ensures StillAstray(policy, degree, run, k + 1, p)
            <==> SignalsAt(policy, degree, run, k, p)
                 || (StillAstray(policy, degree, run, k, p) && !TakesAt(policy, degree, run, k, p))
  {
    hide SignalsAt, TakesAt, Possible;
    if SignalsAt(policy, degree, run, k, p) {
      assert NotTaken(policy, degree, run, k, k + 1, p);
    }
    forall i | 0 <= i < k
      ensures NotTaken(policy, degree, run, i, k + 1, p)
              <==> NotTaken(policy, degree, run, i, k, p) && !TakesAt(policy, degree, run, k, p)
    {
    }
  }
}
