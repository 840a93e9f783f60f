/** What every interleaving of the kernel's threads keeps. */
module SchedulerSafety {
  import opened Builds
  import opened Queues
  import opened Scheduler

  function InHand(h: Hand, pid: nat): nat {
    if (h.Holds? || h.Admitted?) && h.pid == pid then 1 else 0
  }

  /** In how many places of each kind a process is: before it is let in, in either ready queue,
      with the dispatcher, stopped, or finished. */
  datatype Spots = Spots(early: nat, ready: nat, plus: nat, running: nat, stopped: nat, done: nat)

  function SpotsOf(s: Kernel, p: nat): Spots {
    Spots(Times(s.created, p) + InHand(s.planner, p), Times(s.ready, p), Times(s.plus, p), InHand(s.dispatcher, p),
          Times(s.blocked, p) + Times(s.waiting, p) + Times(s.served, p) + Times(s.woken, p),
          Times(s.exiting, p) + InHand(s.reaper, p))
  }

  function Places(t: Spots): nat {
    t.early + t.ready + t.plus + t.running + t.stopped + t.done
  }

  /** The label a process has, by where it is; as written, one that has signalled keeps Running,
      and one that was granted its WAIT is ReadyPlus in the plain queue. */
  predicate Fits(build: Build, t: Spots, l: Label) {
    && (t.early > 0 ==> l.New?)
    && (t.ready > 0 ==> l.Ready? || (build.AsWritten? && (l.ReadyPlus? || l.Running?)))
    && (t.plus > 0 ==> l.ReadyPlus? || (build.AsWritten? && l.Running?))
    && (t.running > 0 ==> l.Running?)
    && (t.stopped > 0 ==> l.Blocked?)
    && (t.done > 0 ==> l.Finished?)
  }

  /** A process that has been created and not buried is in exactly one place; no other is in any. */
  predicate Placed(build: Build, s: Kernel, p: nat) {
    && Places(SpotsOf(s, p)) == Bit(p in s.alive)
    && (p in s.alive ==> p < s.next && p in s.labels && Fits(build, SpotsOf(s, p), s.labels[p]))
  }

  /** Processes that take up a place of the degree of multiprogramming. */
  function InUse(s: Kernel): nat {
    |s.ready| + |s.plus| + |s.blocked| + |s.waiting| + |s.served| + |s.woken|
    + Bit(s.dispatcher.Holds?) + Bit(s.planner.Admitted?)
  }

  /** Semaphore units, owed ones, and the one a thread has taken before it pops, all told. */
  function Backing(q: Sem, called: bool): nat {
    q.units + q.owed + Bit(called)
  }

  predicate Counted(policy: Policy, s: Kernel) {
    && Backing(s.createdSem, s.planner.Called?) == |s.created| + s.tally.createdSurplus
    && Backing(s.readySem, s.dispatcher.Called? || s.dispatcher.Looked?) == |s.ready| + |s.plus| + s.tally.readySurplus
    && Backing(s.exitSem, s.reaper.Called?) == |s.exiting|
    && s.slots + InUse(s) + s.tally.leaked == s.tally.degree
    && (s.dispatcher.Looked? ==> if s.dispatcher.plus then s.plus != [] else s.ready != [] || s.tally.readySurplus > 0)
    && (!policy.VirtualRoundRobin? ==> s.plus == [] && !s.dispatcher.Looked?)
    && !s.planner.Looked? && !s.dispatcher.Admitted? && !s.reaper.Looked? && !s.reaper.Admitted?
    && (s.crashed ==> s.tally.createdSurplus + s.tally.readySurplus > 0)
  }

  ghost predicate Inv(build: Build, policy: Policy, s: Kernel) {
    && Counted(policy, s)
    && (forall p: nat :: Placed(build, s, p))
    && (build.Repaired? ==> s.tally.leaked == s.tally.createdSurplus == s.tally.readySurplus == 0)
  }

  /** The process a step moves from one place to another. */
  function Moved(s: Kernel, e: Event): nat {
    match e
    case Create => s.next
    case PlannerPop => if s.created != [] then s.created[0] else 0
    case Load(_) => if s.planner.Admitted? then s.planner.pid else 0
    case Pick =>
      if s.dispatcher.Looked? && s.dispatcher.plus then (if s.plus != [] then s.plus[0] else 0)
      else if s.ready != [] then s.ready[0] else 0
    case ReaperPop => if s.exiting != [] then s.exiting[0] else 0
    case Bury => if s.reaper.Holds? then s.reaper.pid else 0
    case Kill(pid) => pid
    case Wake(pid) => pid
    case ReadyWoken(pid) => pid
    case Serve(pid) => pid
    case ReadyServed(pid) => pid
    case FailServed(pid) => pid
    case _ => if s.dispatcher.Holds? then s.dispatcher.pid else 0
  }

  lemma {:induction false} InTimes(list: seq<nat>, x: nat)
    ensures x in list <==> Times(list, x) > 0
  {
    if list != [] {
      InTimes(list[1..], x);
    }
  }

  // --------------------------------------------- each process in one place

  /** A process on its way: lifted out of one place and not yet put into another. */
  predicate Lifted(build: Build, s: Kernel, x: nat, p: nat) {
    if p == x then Places(SpotsOf(s, p)) == 0 && p in s.alive && p < s.next else Placed(build, s, p)
  }

  lemma {:induction false} ReadyPlaces(build: Build, s: Kernel, x: nat, l: Label, p: nat)
    requires Lifted(build, s, x, p) && (l.Ready? || (build.AsWritten? && (l.ReadyPlus? || l.Running?)))
    ensures Placed(build, PutReady(s, x, l), p)
  {
    hide Times;
    TimesAppend(s.ready, x, p);
  }

  lemma {:induction false} PlusPlaces(build: Build, s: Kernel, x: nat, l: Label, p: nat)
    requires Lifted(build, s, x, p) && (l.ReadyPlus? || (build.AsWritten? && l.Running?))
    ensures Placed(build, PutPlus(s, x, l), p)
  {
    hide Times;
    TimesAppend(s.plus, x, p);
  }

  lemma {:induction false} SlaughterPlaces(build: Build, s: Kernel, x: nat, p: nat)
    requires Lifted(build, s, x, p)
    ensures Placed(build, Slaughtered(s, x), p)
  {
    hide Times;
    TimesAppend(s.exiting, x, p);
  }

  lemma {:induction false} StopPlaces(build: Build, s: Kernel, x: nat, p: nat)
    requires Lifted(build, s, x, p)
    ensures Placed(build, s.(blocked := s.blocked + [x], labels := s.labels[x := Blocked]), p)
    ensures Placed(build, s.(waiting := s.waiting + [x], labels := s.labels[x := Blocked]), p)
  {
    hide Times;
    TimesAppend(s.blocked, x, p);
    TimesAppend(s.waiting, x, p);
  }

  /** Out of a thread's hands. */
  lemma {:induction false} HandLifts(build: Build, s: Kernel, p: nat)
    requires Placed(build, s, p)
    ensures s.planner.Admitted? && Placed(build, s, s.planner.pid) ==>
      Lifted(build, s.(planner := Empty), s.planner.pid, p)
    ensures s.dispatcher.Holds? && Placed(build, s, s.dispatcher.pid) ==>
      Lifted(build, s.(dispatcher := Empty), s.dispatcher.pid, p)
  {
    hide Times;
  }

  /** Out of a queue. */
  lemma {:induction false} TakeOut(list: seq<nat>, x: nat, p: nat)
    requires x in list
    ensures Times(TakenOut(list, x), p) == Times(list, p) - Bit(p == x)
    ensures Times(list, x) > 0
  {
    TimesTakenOut(list, x, p);
    InTimes(list, x);
  }

  lemma {:induction false} QueueLifts(build: Build, s: Kernel, x: nat, p: nat)
    requires Placed(build, s, p) && Placed(build, s, x)
    ensures x in s.served ==> Lifted(build, s.(served := TakenOut(s.served, x)), x, p)
    ensures x in s.woken ==> Lifted(build, s.(woken := TakenOut(s.woken, x)), x, p)
  {
    hide Times, TakenOut;
    if x in s.served {
      TakeOut(s.served, x, p);
    }
    if x in s.woken {
      TakeOut(s.woken, x, p);
    }
  }

  lemma {:induction false} RemovedLifts(build: Build, s: Kernel, x: nat, p: nat)
    requires Placed(build, s, p) && Placed(build, s, x) && Listed(s, x)
    requires build.Repaired? && x in s.created ==> s.createdSem.units > 0
    ensures Lifted(build, Removed(build, s, x), x, p)
  {
    if x in s.created {
      CreatedLifts(build, s, x, p);
    } else if x in s.ready || x in s.plus {
      ReadyLifts(build, s, x, p);
    } else {
      StoppedLifts(build, s, x, p);
    }
    hide Lifted, Placed, TakenOut;
  }

  lemma {:induction false} CreatedLifts(build: Build, s: Kernel, x: nat, p: nat)
    requires Placed(build, s, p) && Placed(build, s, x) && x in s.created
    requires build.Repaired? ==> s.createdSem.units > 0
    ensures Lifted(build, Removed(build, s, x), x, p)
  {
    hide Times, TakenOut;
    TakeOut(s.created, x, p);
  }

  lemma {:induction false} ReadyLifts(build: Build, s: Kernel, x: nat, p: nat)
    requires Placed(build, s, p) && Placed(build, s, x) && x !in s.created && (x in s.ready || x in s.plus)
    ensures Lifted(build, Removed(build, s, x), x, p)
  {
    hide Times, TakenOut;
    TakeOut(if x in s.ready then s.ready else s.plus, x, p);
  }

  lemma {:induction false} StoppedLifts(build: Build, s: Kernel, x: nat, p: nat)
    requires Placed(build, s, p) && Placed(build, s, x) && Listed(s, x)
    requires x !in s.created && x !in s.ready && x !in s.plus
    ensures Lifted(build, Removed(build, s, x), x, p)
  {
    hide Times, TakenOut;
    TakeOut(if x in s.blocked then s.blocked else s.waiting, x, p);
  }

  lemma {:induction false} TimesPop(list: seq<nat>, p: nat)
    requires list != []
    ensures Times(list, p) == Times(list[1..], p) + Bit(list[0] == p)
  {
  }

  // ------------------------------------------------------------ step by step

  /** Steps that leave every process where it is, or move it between places of one kind. */
  lemma {:induction false} PlacedAfterStay(build: Build, policy: Policy, s: Kernel, e: Event, p: nat)
    requires Enabled(build, policy, s, e) && Placed(build, s, p) && Counted(policy, s)
    requires e.Raise? || e.Lower? || e.PostCreated? || e.PostReady? || e.PostExit? || e.PlannerWait? || e.Admit?
          || e.DispatcherWait? || e.Look? || e.ReaperWait?
    ensures Placed(build, Step(build, policy, s, e), p)
  {
    hide Times;
  }

  lemma {:induction false} PlacedAfterPop(build: Build, policy: Policy, s: Kernel, e: Event, p: nat)
    requires Enabled(build, policy, s, e) && Placed(build, s, p)
    requires e.PlannerPop? || e.ReaperPop?
    ensures Placed(build, Step(build, policy, s, e), p)
  {
    hide Times;
    if e.PlannerPop? && s.created != [] {
      TimesPop(s.created, p);
    }
    if e.ReaperPop? && s.exiting != [] {
      TimesPop(s.exiting, p);
    }
  }

  lemma {:induction false} PlacedAfterHandOver(build: Build, policy: Policy, s: Kernel, e: Event, p: nat)
    requires Enabled(build, policy, s, e) && Placed(build, s, p)
    requires e.Wake? || e.Serve?
    ensures Placed(build, Step(build, policy, s, e), p)
  {
    hide Times, TakenOut;
    var from, to := if e.Wake? then s.waiting else s.blocked, if e.Wake? then s.woken else s.served;
    TakeOut(from, e.pid, p);
    TimesAppend(to, e.pid, p);
  }

  lemma {:induction false} PlacedAfterPick(build: Build, policy: Policy, s: Kernel, p: nat)
    requires Enabled(build, policy, s, Pick) && (forall q: nat :: Placed(build, s, q))
    ensures Placed(build, Step(build, policy, s, Pick), p)
  {
    hide Placed;
    assert Placed(build, s, p);
    CrashPlaces(build, s, p);
    if s.dispatcher.Looked? && s.dispatcher.plus {
      if s.plus != [] {
        PlusPicked(build, s, p);
      }
    } else if s.ready != [] {
      ReadyPicked(build, s, p);
    }
  }

  lemma {:induction false} CrashPlaces(build: Build, s: Kernel, p: nat)
    requires Placed(build, s, p)
    ensures Placed(build, s.(crashed := true), p)
  {
  }

  lemma {:induction false} PlusPicked(build: Build, s: Kernel, p: nat)
    requires (forall q: nat :: Placed(build, s, q)) && s.plus != [] && s.dispatcher.Looked? && s.dispatcher.plus
    ensures Placed(build, Picked(s), p)
  {
    hide Times;
    var x := s.plus[0];
    TimesPop(s.plus, p);
    TimesPop(s.plus, x);
    assert Placed(build, s, x) && Placed(build, s, p);
  }

  lemma {:induction false} ReadyPicked(build: Build, s: Kernel, p: nat)
    requires (forall q: nat :: Placed(build, s, q)) && s.ready != []
    requires s.dispatcher.Called? || (s.dispatcher.Looked? && !s.dispatcher.plus)
    ensures Placed(build, Picked(s), p)
  {
    hide Times;
    var x := s.ready[0];
    TimesPop(s.ready, p);
    TimesPop(s.ready, x);
    assert Placed(build, s, x) && Placed(build, s, p);
  }

  lemma {:induction false} PlacedAfterEnds(build: Build, policy: Policy, s: Kernel, e: Event, p: nat)
    requires Enabled(build, policy, s, e) && (forall q: nat :: Placed(build, s, q))
    requires e.Create? || e.Bury?
    ensures Placed(build, Step(build, policy, s, e), p)
  {
    hide Times;
    TimesAppend(s.created, s.next, p);
    assert Placed(build, s, p) && Placed(build, s, if e.Create? then s.next else s.reaper.pid);
  }

  lemma {:induction false} PlacedAfterReturn(build: Build, policy: Policy, s: Kernel, e: Event, p: nat)
    requires Enabled(build, policy, s, e) && (forall q: nat :: Placed(build, s, q))
    requires e.Finish? || e.RequestIo? || e.AwaitResource? || e.GrantResource? || e.Signalled? || e.QuantumEnd?
    ensures Placed(build, Step(build, policy, s, e), p)
  {
    hide Placed, Lifted, PutReady, PutPlus, Slaughtered;
    var x, t := s.dispatcher.pid, s.(dispatcher := Empty);
    assert Placed(build, s, x) && Placed(build, s, p);
    HandLifts(build, s, p);
    var vrr := policy.VirtualRoundRobin?;
    match e
    case RequestIo => StopPlaces(build, t, x, p);
    case AwaitResource => StopPlaces(build, t, x, p);
    case GrantResource =>
      if build.Repaired? && vrr {
        PlusPlaces(build, t, x, ReadyPlus, p);
      } else {
        ReadyPlaces(build, t, x, if vrr then ReadyPlus else Ready, p);
      }
    case Signalled =>
      if vrr {
        PlusPlaces(build, t, x, if build.Repaired? then ReadyPlus else Running, p);
      } else {
        ReadyPlaces(build, t, x, if build.Repaired? then Ready else Running, p);
      }
    case QuantumEnd => ReadyPlaces(build, t, x, Ready, p);
    case Finish => SlaughterPlaces(build, t, x, p);
  }

  lemma {:induction false} PlacedAfterLoad(build: Build, policy: Policy, s: Kernel, ok: bool, p: nat)
    requires Enabled(build, policy, s, Load(ok)) && (forall q: nat :: Placed(build, s, q))
    ensures Placed(build, Step(build, policy, s, Load(ok)), p)
  {
    hide Placed, PutReady, Slaughtered;
    var x, t := s.planner.pid, s.(planner := Empty);
    assert Placed(build, s, x) && Placed(build, s, p);
    HandLifts(build, s, p);
    if ok {
      ReadyPlaces(build, t, x, Ready, p);
    } else {
      OtherFields(build, t, x, p, s.slots + 1, s.tally.(leaked := s.tally.leaked + 1));
      SlaughterPlaces(build, t.(slots := s.slots + 1), x, p);
      SlaughterPlaces(build, t.(tally := s.tally.(leaked := s.tally.leaked + 1)), x, p);
    }
  }

  lemma {:induction false} OtherFields(build: Build, s: Kernel, x: nat, p: nat, slots: nat, tally: Tally)
    requires Lifted(build, s, x, p)
    ensures Lifted(build, s.(slots := slots), x, p) && Lifted(build, s.(tally := tally), x, p)
  {
    hide Times;
  }

  lemma {:induction false} PlacedAfterServed(build: Build, policy: Policy, s: Kernel, e: Event, p: nat)
    requires Enabled(build, policy, s, e) && (forall q: nat :: Placed(build, s, q))
    requires e.ReadyWoken? || e.ReadyServed? || e.FailServed?
    ensures Placed(build, Step(build, policy, s, e), p)
  {
    hide Placed, Lifted, PutReady, PutPlus, Slaughtered, TakenOut;
    var x := e.pid;
    var t := if e.ReadyWoken? then s.(woken := TakenOut(s.woken, x)) else s.(served := TakenOut(s.served, x));
    assert Placed(build, s, x) && Placed(build, s, p);
    QueueLifts(build, s, x, p);
    if e.FailServed? {
      SlaughterPlaces(build, t, x, p);
    } else if policy.VirtualRoundRobin? {
      PlusPlaces(build, t, x, ReadyPlus, p);
    } else {
      ReadyPlaces(build, t, x, Ready, p);
    }
  }

  lemma {:induction false} PlacedAfterKill(build: Build, policy: Policy, s: Kernel, x: nat, p: nat)
    requires Enabled(build, policy, s, Kill(x)) && (forall q: nat :: Placed(build, s, q))
    ensures Placed(build, Step(build, policy, s, Kill(x)), p)
  {
    assert Placed(build, s, x) && Placed(build, s, p);
    var t := if TakesUnit(s, x) then s.(readySem := Taken(s.readySem)) else s;
    UnitTaken(build, s, t.readySem, x);
    UnitTaken(build, s, t.readySem, p);
    hide Placed, Lifted, Slaughtered, Removed;
    RemovedLifts(build, t, x, p);
    SlaughterPlaces(build, Removed(build, t, x), x, p);
  }

  lemma {:induction false} UnitTaken(build: Build, s: Kernel, q: Sem, p: nat)
    requires Placed(build, s, p)
    ensures Placed(build, s.(readySem := q), p)
  {
  }

  /** No step puts a process into two places or loses one. */
  lemma {:induction false} StepPlaces(build: Build, policy: Policy, s: Kernel, e: Event, p: nat)
    requires Enabled(build, policy, s, e) && Counted(policy, s) && (forall q: nat :: Placed(build, s, q))
    ensures Placed(build, Step(build, policy, s, e), p)
  {
    hide Enabled, Step, Counted, Placed;
    assert Placed(build, s, p);
    match e
    case Create => PlacedAfterEnds(build, policy, s, e, p);
    case Bury => PlacedAfterEnds(build, policy, s, e, p);
    case Kill(x) => PlacedAfterKill(build, policy, s, x, p);
    case Load(ok) => PlacedAfterLoad(build, policy, s, ok, p);
    case Pick => PlacedAfterPick(build, policy, s, p);
    case PlannerPop => PlacedAfterPop(build, policy, s, e, p);
    case ReaperPop => PlacedAfterPop(build, policy, s, e, p);
    case Wake(_) => PlacedAfterHandOver(build, policy, s, e, p);
    case Serve(_) => PlacedAfterHandOver(build, policy, s, e, p);
    case ReadyWoken(_) => PlacedAfterServed(build, policy, s, e, p);
    case ReadyServed(_) => PlacedAfterServed(build, policy, s, e, p);
    case FailServed(_) => PlacedAfterServed(build, policy, s, e, p);
    case Finish => PlacedAfterReturn(build, policy, s, e, p);
    case RequestIo => PlacedAfterReturn(build, policy, s, e, p);
    case AwaitResource => PlacedAfterReturn(build, policy, s, e, p);
    case GrantResource => PlacedAfterReturn(build, policy, s, e, p);
    case Signalled => PlacedAfterReturn(build, policy, s, e, p);
    case QuantumEnd => PlacedAfterReturn(build, policy, s, e, p);
    case _ => PlacedAfterStay(build, policy, s, e, p);
  }

  // ---------------------------------------------------- queues and semaphores

  lemma {:induction false} LabelNow(build: Build, s: Kernel, p: nat)
    requires Placed(build, s, p)
    ensures p in s.created || InHand(s.planner, p) > 0 ==> p in s.labels && s.labels[p].New?
    ensures p in s.ready || p in s.plus || InHand(s.dispatcher, p) > 0 ==> p in s.labels && !s.labels[p].New?
    ensures p in s.blocked || p in s.waiting || p in s.served || p in s.woken ==> p in s.labels && s.labels[p].Blocked?
  {
    hide Times;
    InTimes(s.created, p);
    InTimes(s.ready, p);
    InTimes(s.plus, p);
    InTimes(s.blocked, p);
    InTimes(s.waiting, p);
    InTimes(s.served, p);
    InTimes(s.woken, p);
  }

  lemma {:induction false} StayCounts(build: Build, policy: Policy, s: Kernel, e: Event)
    requires Enabled(build, policy, s, e) && Counted(policy, s)
    requires e.Raise? || e.Lower? || e.PostCreated? || e.PostReady? || e.PostExit? || e.PlannerWait? || e.Admit?
          || e.DispatcherWait? || e.Look? || e.ReaperWait?
    ensures Counted(policy, Step(build, policy, s, e))
  {
  }

  /** A pop finds something, or units were there that no process stood behind. */
  lemma {:induction false} PopCounts(build: Build, policy: Policy, s: Kernel, e: Event)
    requires Enabled(build, policy, s, e) && Counted(policy, s)
    requires e.PlannerPop? || e.ReaperPop? || e.Pick?
    ensures Counted(policy, Step(build, policy, s, e))
  {
  }

  lemma {:induction false} EndCounts(build: Build, policy: Policy, s: Kernel, e: Event)
    requires Enabled(build, policy, s, e) && Counted(policy, s)
    requires e.Create? || e.Bury? || e.Wake? || e.Serve?
    ensures Counted(policy, Step(build, policy, s, e))
  {
    hide TakenOut;
  }

  lemma {:induction false} LoadCounts(build: Build, policy: Policy, s: Kernel, ok: bool)
    requires Enabled(build, policy, s, Load(ok)) && Counted(policy, s) && Placed(build, s, s.planner.pid)
    ensures Counted(policy, Step(build, policy, s, Load(ok)))
  {
    LabelNow(build, s, s.planner.pid);
    hide Placed;
  }

  lemma {:induction false} StopCounts(build: Build, policy: Policy, s: Kernel, e: Event)
    requires Enabled(build, policy, s, e) && Counted(policy, s) && (e.Finish? || e.RequestIo? || e.AwaitResource?)
    requires Placed(build, s, s.dispatcher.pid)
    ensures Counted(policy, Step(build, policy, s, e))
  {
    LabelNow(build, s, s.dispatcher.pid);
    hide Placed;
  }

  lemma {:induction false} GrantCounts(build: Build, policy: Policy, s: Kernel)
    requires Enabled(build, policy, s, GrantResource) && Counted(policy, s)
    ensures Counted(policy, Step(build, policy, s, GrantResource))
  {
  }

  lemma {:induction false} SignalCounts(build: Build, policy: Policy, s: Kernel)
    requires Enabled(build, policy, s, Signalled) && Counted(policy, s)
    ensures Counted(policy, Step(build, policy, s, Signalled))
  {
  }

  lemma {:induction false} QuantumCounts(build: Build, policy: Policy, s: Kernel)
    requires Enabled(build, policy, s, QuantumEnd) && Counted(policy, s)
    ensures Counted(policy, Step(build, policy, s, QuantumEnd))
  {
  }

  lemma {:induction false} ServedCounts(build: Build, policy: Policy, s: Kernel, e: Event)
    requires Enabled(build, policy, s, e) && Counted(policy, s) && (e.ReadyWoken? || e.ReadyServed?)
    ensures Counted(policy, Step(build, policy, s, e))
  {
    hide TakenOut;
  }

  lemma {:induction false} FailCounts(build: Build, policy: Policy, s: Kernel, x: nat)
    requires Enabled(build, policy, s, FailServed(x)) && Counted(policy, s) && Placed(build, s, x)
    ensures Counted(policy, Step(build, policy, s, FailServed(x)))
  {
    LabelNow(build, s, x);
    hide Placed, TakenOut;
  }

  lemma {:induction false} KillCounts(build: Build, policy: Policy, s: Kernel, x: nat)
    requires Enabled(build, policy, s, Kill(x)) && Counted(policy, s) && Placed(build, s, x)
    ensures Counted(policy, Step(build, policy, s, Kill(x)))
  {
    if x in s.created {
      KillCreatedCounts(build, policy, s, x);
    } else if x in s.ready || x in s.plus {
      KillReadyCounts(build, policy, s, x);
    } else {
      KillStoppedCounts(build, policy, s, x);
    }
    hide Counted, Placed, Killed;
  }

  lemma {:induction false} KillCreatedCounts(build: Build, policy: Policy, s: Kernel, x: nat)
    requires Enabled(build, policy, s, Kill(x)) && Counted(policy, s) && Placed(build, s, x)
    requires x in s.created
    ensures Counted(policy, Killed(build, s, x))
  {
    LabelNow(build, s, x);
    hide Placed, TakenOut;
  }

  lemma {:induction false} KillReadyCounts(build: Build, policy: Policy, s: Kernel, x: nat)
    requires Enabled(build, policy, s, Kill(x)) && Counted(policy, s) && Placed(build, s, x)
    requires x !in s.created && (x in s.ready || x in s.plus)
    ensures Counted(policy, Killed(build, s, x))
  {
    LabelNow(build, s, x);
    hide Placed, TakenOut;
  }

  lemma {:induction false} KillStoppedCounts(build: Build, policy: Policy, s: Kernel, x: nat)
    requires Enabled(build, policy, s, Kill(x)) && Counted(policy, s) && Placed(build, s, x)
    requires x !in s.created && x !in s.ready && x !in s.plus
    ensures Counted(policy, Killed(build, s, x))
  {
    LabelNow(build, s, x);
    hide Placed, TakenOut;
  }

  lemma {:induction false} StepCounts(build: Build, policy: Policy, s: Kernel, e: Event)
    requires Enabled(build, policy, s, e) && Counted(policy, s) && (forall p: nat :: Placed(build, s, p))
    ensures Counted(policy, Step(build, policy, s, e))
  {
    hide Enabled, Step, Counted, Placed;
    assert Placed(build, s, Moved(s, e));
    HandsHold(build, policy, s, e);
    match e
    case Create => EndCounts(build, policy, s, e);
    case Bury => EndCounts(build, policy, s, e);
    case Wake(_) => EndCounts(build, policy, s, e);
    case Serve(_) => EndCounts(build, policy, s, e);
    case Kill(x) => KillCounts(build, policy, s, x);
    case Load(ok) => LoadCounts(build, policy, s, ok);
    case Pick => PopCounts(build, policy, s, e);
    case PlannerPop => PopCounts(build, policy, s, e);
    case ReaperPop => PopCounts(build, policy, s, e);
    case ReadyWoken(_) => ServedCounts(build, policy, s, e);
    case ReadyServed(_) => ServedCounts(build, policy, s, e);
    case FailServed(x) => FailCounts(build, policy, s, x);
    case Finish => StopCounts(build, policy, s, e);
    case RequestIo => StopCounts(build, policy, s, e);
    case AwaitResource => StopCounts(build, policy, s, e);
    case GrantResource => GrantCounts(build, policy, s);
    case Signalled => SignalCounts(build, policy, s);
    case QuantumEnd => QuantumCounts(build, policy, s);
    case _ => StayCounts(build, policy, s, e);
  }

  lemma {:induction false} HandsHold(build: Build, policy: Policy, s: Kernel, e: Event)
    requires Enabled(build, policy, s, e)
    ensures e.Load? ==> s.planner.Admitted?
    ensures e.Finish? || e.RequestIo? || e.AwaitResource? || e.GrantResource? || e.Signalled? || e.QuantumEnd? ==>
      s.dispatcher.Holds?
  {
  }

  /** What moves the tally, kills apart. */
  lemma {:induction false} TallyOf(build: Build, policy: Policy, s: Kernel, e: Event)
    requires Enabled(build, policy, s, e) && !e.Kill?
    ensures Step(build, policy, s, e).tally
         == (match e
             case Raise => s.tally.(degree := s.tally.degree + 1)
             case Lower => s.tally.(degree := s.tally.degree - 1)
             case Load(ok) => if ok || build.Repaired? then s.tally else s.tally.(leaked := s.tally.leaked + 1)
             case _ => s.tally)
  {
  }

  /** As repaired, no slot is lost and no semaphore unit is left over. */
  lemma {:induction false} NoSurplus(policy: Policy, s: Kernel, e: Event)
    requires Enabled(Repaired, policy, s, e) && (forall p: nat :: Placed(Repaired, s, p))
    requires s.tally.leaked == s.tally.createdSurplus == s.tally.readySurplus == 0
    ensures var t := Step(Repaired, policy, s, e).tally;
            t.leaked == t.createdSurplus == t.readySurplus == 0
  {
    if e.Kill? {
      hide Placed, TakenOut;
      if e.pid in s.ready || e.pid in s.plus {
        RepairedLabel(s, e.pid);
      }
    } else {
      TallyOf(Repaired, policy, s, e);
    }
    hide Returned, Picked, Slaughtered, ToReady;
  }

  lemma {:induction false} RepairedLabel(s: Kernel, x: nat)
    requires Placed(Repaired, s, x) && (x in s.ready || x in s.plus)
    ensures TakesUnit(s, x)
  {
    InTimes(s.ready, x);
    InTimes(s.plus, x);
    hide Times;
  }

  lemma {:induction false} StepKeepsInv(build: Build, policy: Policy, s: Kernel, e: Event)
    requires Inv(build, policy, s) && Enabled(build, policy, s, e)
    ensures Inv(build, policy, Step(build, policy, s, e))
  {
    hide Enabled, Step, Counted, Placed;
    forall p: nat ensures Placed(build, Step(build, policy, s, e), p) {
      StepPlaces(build, policy, s, e, p);
    }
    StepCounts(build, policy, s, e);
    if build.Repaired? {
      NoSurplus(policy, s, e);
    }
  }
}
