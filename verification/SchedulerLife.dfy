/** The way of one process through the kernel, whatever the threads do: the diagram of process
    states, and its place in the line. */
module SchedulerLife {
  import opened Builds
  import opened Queues
  import opened Scheduler
  import opened SchedulerOrder
  import opened SchedulerRuns
  import opened SchedulerSafety

  // ------------------------------------------------ the diagram of process states

  datatype Stage =
    | Unborn | Fresh | Chosen | LetIn | InReady | InPlus | OnCpu
    | AtIo | AfterIo | AtResource | AfterResource | Dying | WithReaper | Buried

  predicate Stands(s: Kernel, p: nat, stage: Stage) {
    match stage
    case Unborn => p >= s.next
    case Fresh => p in s.created
    case Chosen => s.planner == Holds(p)
    case LetIn => s.planner == Hand.Admitted(p)
    case InReady => p in s.ready
    case InPlus => p in s.plus
    case OnCpu => s.dispatcher == Holds(p)
    case AtIo => p in s.blocked
    case AfterIo => p in s.served
    case AtResource => p in s.waiting
    case AfterResource => p in s.woken
    case Dying => p in s.exiting
    case WithReaper => s.reaper == Holds(p)
    case Buried => p < s.next && p !in s.alive
  }

  /** The arrows: where an event finds the process it moves, */
  predicate Leaves(e: Event, stage: Stage) {
    match e
    case Create => stage.Unborn?
    case PlannerPop => stage.Fresh?
    case Admit => stage.Chosen?
    case Load(_) => stage.LetIn?
    case Pick => stage.InReady? || stage.InPlus?
    case Finish => stage.OnCpu?
    case RequestIo => stage.OnCpu?
    case AwaitResource => stage.OnCpu?
    case GrantResource => stage.OnCpu?
    case Signalled => stage.OnCpu?
    case QuantumEnd => stage.OnCpu?
    case Serve(_) => stage.AtIo?
    case ReadyServed(_) => stage.AfterIo?
    case FailServed(_) => stage.AfterIo?
    case Wake(_) => stage.AtResource?
    case ReadyWoken(_) => stage.AfterResource?
    case Kill(_) => stage.Fresh? || stage.InReady? || stage.InPlus? || stage.AtIo? || stage.AtResource?
    case ReaperPop => stage.Dying?
    case Bury => stage.WithReaper?
    case _ => false
  }

  /** and where it puts it. Only the virtual round robin prefers who comes back by itself; as
      written it forgets about a WAIT that is granted at once. */
  function Reaches(build: Build, policy: Policy, e: Event): Stage {
    var back := if policy.VirtualRoundRobin? then InPlus else InReady;
    match e
    case Create => Fresh
    case PlannerPop => Chosen
    case Admit => LetIn
    case Load(ok) => if ok then InReady else Dying
    case Pick => OnCpu
    case RequestIo => AtIo
    case AwaitResource => AtResource
    case GrantResource => if build.Repaired? then back else InReady
    case Signalled => back
    case QuantumEnd => InReady
    case Serve(_) => AfterIo
    case ReadyServed(_) => back
    case Wake(_) => AfterResource
    case ReadyWoken(_) => back
    case ReaperPop => WithReaper
    case Bury => Buried
    case _ => Dying
  }

  /** Whether the step moves process p. */
  predicate Moves(s: Kernel, e: Event, p: nat) {
    match e
    case Create => p == s.next
    case PlannerPop => s.created != [] && s.created[0] == p
    case Admit => s.planner == Holds(p)
    case Load(_) => s.planner == Hand.Admitted(p)
    case Pick =>
      if s.dispatcher.Looked? && s.dispatcher.plus then s.plus != [] && s.plus[0] == p
      else s.ready != [] && s.ready[0] == p
    case ReaperPop => s.exiting != [] && s.exiting[0] == p
    case Bury => s.reaper == Holds(p)
    case Kill(pid) => pid == p
    case Wake(pid) => pid == p
    case ReadyWoken(pid) => pid == p
    case Serve(pid) => pid == p
    case ReadyServed(pid) => pid == p
    case FailServed(pid) => pid == p
    case Finish => s.dispatcher == Holds(p)
    case RequestIo => s.dispatcher == Holds(p)
    case AwaitResource => s.dispatcher == Holds(p)
    case GrantResource => s.dispatcher == Holds(p)
    case Signalled => s.dispatcher == Holds(p)
    case QuantumEnd => s.dispatcher == Holds(p)
    case _ => false
  }

  lemma {:induction false} StaysIn(list: seq<nat>, x: nat, p: nat)
    requires p != x
    ensures p in TakenOut(list, x) <==> p in list
  {
    InTimes(list, p);
    InTimes(TakenOut(list, x), p);
    TimesTakenOut(list, x, p);
  }

  /** Wake, Serve and the like take a process out of a list by its number. */
  predicate ByNumber(e: Event) {
    e.Wake? || e.ReadyWoken? || e.Serve? || e.ReadyServed? || e.FailServed?
  }

  predicate Pops(e: Event) {
    e.PlannerPop? || e.Pick? || e.ReaperPop?
  }

  lemma {:induction false} OthersStayListed(build: Build, policy: Policy, s: Kernel, e: Event, p: nat, stage: Stage)
    requires Enabled(build, policy, s, e) && ByNumber(e) && p != e.pid
    ensures Stands(Step(build, policy, s, e), p, stage) <==> Stands(s, p, stage)
  {
    hide TakenOut;
    match e
    case Wake(x) => StaysIn(s.waiting, x, p);
    case ReadyWoken(x) => StaysIn(s.woken, x, p);
    case Serve(x) => StaysIn(s.blocked, x, p);
    case ReadyServed(x) => StaysIn(s.served, x, p);
    case FailServed(x) => StaysIn(s.served, x, p);
  }

  lemma {:induction false} OthersStaySlaughtered(s: Kernel, x: nat, p: nat, stage: Stage)
    requires p != x
    ensures Stands(Slaughtered(s, x), p, stage) <==> Stands(s, p, stage)
  {
  }

  lemma {:induction false} OthersStayRemoved(build: Build, s: Kernel, x: nat, p: nat, stage: Stage)
    requires (build.Repaired? && x in s.created ==> s.createdSem.units > 0) && p != x
    ensures Stands(Removed(build, s, x), p, stage) <==> Stands(s, p, stage)
  {
    hide TakenOut;
    if x in s.created {
      StaysIn(s.created, x, p);
    } else if x in s.ready {
      StaysIn(s.ready, x, p);
    } else if x in s.plus {
      StaysIn(s.plus, x, p);
    } else if x in s.blocked {
      StaysIn(s.blocked, x, p);
    } else {
      StaysIn(s.waiting, x, p);
    }
  }

  lemma {:induction false} OthersStayKilled(build: Build, policy: Policy, s: Kernel, x: nat, p: nat, stage: Stage)
    requires Enabled(build, policy, s, Kill(x)) && p != x
    ensures Stands(Step(build, policy, s, Kill(x)), p, stage) <==> Stands(s, p, stage)
  {
    hide TakenOut, Removed, Slaughtered;
    var t := if TakesUnit(s, x) then s.(readySem := Taken(s.readySem)) else s;
    OthersStayRemoved(build, t, x, p, stage);
    OthersStaySlaughtered(Removed(build, t, x), x, p, stage);
  }

  lemma {:induction false} OthersStayPopped(build: Build, policy: Policy, s: Kernel, e: Event, p: nat, stage: Stage)
    requires Enabled(build, policy, s, e) && !Moves(s, e, p) && !Step(build, policy, s, e).crashed && Pops(e)
    ensures Stands(Step(build, policy, s, e), p, stage) <==> Stands(s, p, stage)
  {
  }

  lemma {:induction false} OthersStayReady(policy: Policy, s: Kernel, x: nat, l: Label, p: nat, stage: Stage)
    requires p != x
    ensures Stands(PutReady(s, x, l), p, stage) <==> Stands(s, p, stage)
    ensures Stands(PutPlus(s, x, l), p, stage) <==> Stands(s, p, stage)
  {
  }

  lemma {:induction false} OthersStayStopped(s: Kernel, x: nat, p: nat, stage: Stage)
    requires p != x && s.dispatcher == Holds(x)
    ensures var t := s.(dispatcher := Empty);
            && (Stands(t, p, stage) <==> Stands(s, p, stage))
            && (Stands(t.(blocked := s.blocked + [x], labels := s.labels[x := Blocked]), p, stage) <==>
                Stands(s, p, stage))
            && (Stands(t.(waiting := s.waiting + [x], labels := s.labels[x := Blocked]), p, stage) <==>
                Stands(s, p, stage))
  {
  }

  lemma {:induction false} OthersStayReturned(build: Build, policy: Policy, s: Kernel, e: Event, p: nat, stage: Stage)
    requires Enabled(build, policy, s, e) && s.dispatcher.Holds? && p != s.dispatcher.pid && Returns(e)
    ensures Stands(Step(build, policy, s, e), p, stage) <==> Stands(s, p, stage)
  {
    hide PutReady, PutPlus, Slaughtered, Stands;
    var x, t := s.dispatcher.pid, s.(dispatcher := Empty);
    OthersStayStopped(s, x, p, stage);
    OthersStayReady(policy, t, x, Ready, p, stage);
    OthersStayReady(policy, t, x, ReadyPlus, p, stage);
    OthersStayReady(policy, t, x, Running, p, stage);
    OthersStaySlaughtered(t, x, p, stage);
  }

  lemma {:induction false} OthersStayLoaded(build: Build, policy: Policy, s: Kernel, ok: bool, p: nat, stage: Stage)
    requires Enabled(build, policy, s, Load(ok)) && !Moves(s, Load(ok), p)
    ensures Stands(Step(build, policy, s, Load(ok)), p, stage) <==> Stands(s, p, stage)
  {
    hide PutReady, Slaughtered;
    var x, t := s.planner.pid, s.(planner := Empty);
    OthersStayReady(policy, t, x, Ready, p, stage);
    OthersStaySlaughtered(t.(slots := s.slots + 1), x, p, stage);
    OthersStaySlaughtered(t.(tally := s.tally.(leaked := s.tally.leaked + 1)), x, p, stage);
  }

  lemma {:induction false} OthersStayQuietly(build: Build, policy: Policy, s: Kernel, e: Event, p: nat, stage: Stage)
    requires Enabled(build, policy, s, e) && !Moves(s, e, p)
    requires !Pops(e) && !ByNumber(e) && !e.Kill? && !Returns(e) && !e.Load?
    ensures Stands(Step(build, policy, s, e), p, stage) <==> Stands(s, p, stage)
  {
  }

  lemma {:induction false} OthersStay(build: Build, policy: Policy, s: Kernel, e: Event, p: nat, stage: Stage)
    requires Enabled(build, policy, s, e) && !Moves(s, e, p) && !Step(build, policy, s, e).crashed
    ensures Stands(Step(build, policy, s, e), p, stage) <==> Stands(s, p, stage)
  {
    hide Stands, Step;
    if Pops(e) {
      OthersStayPopped(build, policy, s, e, p, stage);
    } else if ByNumber(e) {
      OthersStayListed(build, policy, s, e, p, stage);
    } else if e.Kill? {
      OthersStayKilled(build, policy, s, e.pid, p, stage);
    } else if Returns(e) {
      OthersStayReturned(build, policy, s, e, p, stage);
    } else if e.Load? {
      OthersStayLoaded(build, policy, s, e.ok, p, stage);
    } else {
      OthersStayQuietly(build, policy, s, e, p, stage);
    }
  }

  lemma {:induction false} FollowsWhenKilled(build: Build, s: Kernel, p: nat)
    requires Enabled(build, Fifo, s, Kill(p))
    ensures Stands(s, p, Source(s, Kill(p))) && p in Killed(build, s, p).exiting
  {
    hide TakenOut;
  }

  lemma {:induction false} FollowsWhenReturned(build: Build, policy: Policy, s: Kernel, e: Event, p: nat)
    requires Enabled(build, policy, s, e) && Moves(s, e, p) && Returns(e)
    ensures Stands(Step(build, policy, s, e), p, Reaches(build, policy, e))
  {
  }

  lemma {:induction false} FollowsWhenListed(build: Build, policy: Policy, s: Kernel, e: Event, p: nat)
    requires Enabled(build, policy, s, e) && Moves(s, e, p) && (ByNumber(e) || e.Load?)
    ensures Stands(Step(build, policy, s, e), p, Reaches(build, policy, e))
  {
    hide TakenOut;
  }

  lemma {:induction false} FollowsOtherwise(build: Build, policy: Policy, s: Kernel, e: Event, p: nat)
    requires Enabled(build, policy, s, e) && Moves(s, e, p) && !Step(build, policy, s, e).crashed
    requires Pops(e) || e.Create? || e.Admit? || (e.Bury? && p in s.alive && p < s.next)
    ensures Stands(Step(build, policy, s, e), p, Reaches(build, policy, e))
  {
  }

  lemma {:induction false} HeldByReaper(build: Build, policy: Policy, s: Kernel)
    requires Inv(build, policy, s) && s.reaper.Holds?
    ensures s.reaper.pid in s.alive && s.reaper.pid < s.next
  {
    assert Placed(build, s, s.reaper.pid);
    hide Times, Counted;
  }

  /** Where the process is that a step moves. */
  function Source(s: Kernel, e: Event): Stage {
    match e
    case Create => Unborn
    case PlannerPop => Fresh
    case Admit => Chosen
    case Load(_) => LetIn
    case Pick => if s.dispatcher == Looked(true) then InPlus else InReady
    case Serve(_) => AtIo
    case ReadyServed(_) => AfterIo
    case FailServed(_) => AfterIo
    case Wake(_) => AtResource
    case ReadyWoken(_) => AfterResource
    case ReaperPop => Dying
    case Bury => WithReaper
    case Kill(x) =>
      if x in s.created then Fresh else if x in s.ready then InReady else if x in s.plus then InPlus
      else if x in s.blocked then AtIo else AtResource
    case _ => OnCpu
  }

  lemma {:induction false} SourceIsLeft(build: Build, policy: Policy, s: Kernel, e: Event, p: nat)
    requires Enabled(build, policy, s, e) && Moves(s, e, p)
    ensures Leaves(e, Source(s, e)) && Stands(s, p, Source(s, e))
  {
  }

  /** A step moves a process along an arrow of the diagram. */
  lemma {:induction false} StepFollowsArrow(build: Build, policy: Policy, s: Kernel, e: Event, p: nat)
    requires Inv(build, policy, s) && Enabled(build, policy, s, e) && Moves(s, e, p) &&
        !Step(build, policy, s, e).crashed
    ensures Leaves(e, Source(s, e)) && Stands(s, p, Source(s, e))
    ensures Stands(Step(build, policy, s, e), p, Reaches(build, policy, e))
  {
    hide Killed, Returned, Picked, TakenOut, Slaughtered, ToReady, Inv, Source;
    SourceIsLeft(build, policy, s, e, p);
    if e.Kill? {
      FollowsWhenKilled(build, s, p);
    } else if Returns(e) {
      FollowsWhenReturned(build, policy, s, e, p);
    } else if ByNumber(e) || e.Load? {
      FollowsWhenListed(build, policy, s, e, p);
    } else {
      if e.Bury? {
        HeldByReaper(build, policy, s);
      }
      FollowsOtherwise(build, policy, s, e, p);
    }
  }

  /** And every arrow out of a place can be taken by the thread that has the process there. */
  lemma {:induction false} ArrowsAreOpen(build: Build, policy: Policy, s: Kernel, e: Event, p: nat, stage: Stage)
    requires !s.crashed && Stands(s, p, stage) && Leaves(e, stage) && stage !in {Unborn, Fresh, InReady, InPlus, Dying}
    requires !e.Kill? && (ByNumber(e) ==> e.pid == p) && (e.Admit? ==> s.slots > 0)
    ensures Enabled(build, policy, s, e) && Moves(s, e, p) <==> !(e.QuantumEnd? && policy.Fifo?)
  {
  }

  /** The label a process has after a step that moves it: its stage's, but as written a SIGNAL leaves
      Running. Moves from hand to hand and between lists of the stopped leave the label alone. */
  function Shows(build: Build, policy: Policy, e: Event, l: Label): Label {
    var back := if policy.VirtualRoundRobin? then ReadyPlus else Ready;
    match e
    case Create => New
    case Load(ok) => if ok then Ready else Finished
    case Pick => Running
    case RequestIo => Blocked
    case AwaitResource => Blocked
    case GrantResource => back
    case Signalled => if build.Repaired? then back else Running
    case QuantumEnd => Ready
    case ReadyServed(_) => back
    case ReadyWoken(_) => back
    case Finish => Finished
    case FailServed(_) => Finished
    case Kill(_) => Finished
    case _ => l
  }

  function LabelOf(s: Kernel, p: nat): Label {
    if p in s.labels then s.labels[p] else New
  }

  lemma {:induction false} KilledLabel(build: Build, policy: Policy, s: Kernel, x: nat, p: nat)
    requires Enabled(build, policy, s, Kill(x))
    ensures LabelOf(Step(build, policy, s, Kill(x)), p) == if p == x then Finished else LabelOf(s, p)
  {
    hide TakenOut;
  }

  /** A step labels the process it moves, and nobody else. */
  lemma {:induction false} StepLabels(build: Build, policy: Policy, s: Kernel, e: Event, p: nat)
    requires Enabled(build, policy, s, e) && !Step(build, policy, s, e).crashed
    ensures LabelOf(Step(build, policy, s, e), p)
            == if Moves(s, e, p) then Shows(build, policy, e, LabelOf(s, p)) else LabelOf(s, p)
  {
    if e.Kill? {
      KilledLabel(build, policy, s, e.pid, p);
    }
    hide TakenOut, Killed;
  }

  lemma {:induction false} OneSeat(build: Build, s: Kernel, p: nat, a: Stage, b: Stage)
    requires Placed(build, s, p) && Stands(s, p, a) && Stands(s, p, b)
    ensures a == b
  {
    InTimes(s.created, p);
    InTimes(s.ready, p);
    InTimes(s.plus, p);
    InTimes(s.blocked, p);
    InTimes(s.waiting, p);
    InTimes(s.served, p);
    InTimes(s.woken, p);
    InTimes(s.exiting, p);
    hide Times;
  }

  /** The steps of a run that move process p, in order. */
  function MovesOf(build: Build, policy: Policy, s: Kernel, run: seq<Event>, p: nat): seq<Event>
    requires Possible(build, policy, s, run)
    decreases |run|
  {
    if run == [] then []
    else (if Moves(s, run[0], p) then [run[0]] else [])
         + MovesOf(build, policy, Step(build, policy, s, run[0]), run[1..], p)
  }

  /** Moves that follow the arrows from one stage to another. */
  predicate Path(build: Build, policy: Policy, a: Stage, moves: seq<Event>, b: Stage)
    decreases |moves|
  {
    if moves == [] then a == b
    else Leaves(moves[0], a) && Path(build, policy, Reaches(build, policy, moves[0]), moves[1..], b)
  }

  lemma {:induction false} CrashIsLast(build: Build, policy: Policy, s: Kernel, run: seq<Event>)
    requires Possible(build, policy, s, run) && run != [] && !After(build, policy, s, run).crashed
    ensures !Step(build, policy, s, run[0]).crashed
  {
    hide Step;
    assert run[1..] != [] ==> Enabled(build, policy, Step(build, policy, s, run[0]), run[1..][0]);
  }

  /** In every interleaving, of either build and under every policy, the life of each process is a
      path through the diagram. */
  lemma {:induction false} LivesFollowDiagram(build: Build, policy: Policy, s: Kernel, run: seq<Event>, p: nat,
                                              a: Stage, b: Stage)
    requires Inv(build, policy, s) && Possible(build, policy, s, run) && !After(build, policy, s, run).crashed
    requires Stands(s, p, a) && Stands(After(build, policy, s, run), p, b)
    ensures Path(build, policy, a, MovesOf(build, policy, s, run, p), b)
    decreases |run|
  {
    hide Inv, Enabled, Step, Stands, Moves, Leaves, Reaches, Placed;
    if run == [] {
      InvPlaces(build, policy, s, p);
      OneSeat(build, s, p, a, b);
    } else {
      var e, s' := run[0], Step(build, policy, s, run[0]);
      CrashIsLast(build, policy, s, run);
      StepKeepsInv(build, policy, s, e);
      if Moves(s, e, p) {
        StepFollowsArrow(build, policy, s, e, p);
        InvPlaces(build, policy, s, p);
        OneSeat(build, s, p, a, Source(s, e));
        LivesFollowDiagram(build, policy, s', run[1..], p, Reaches(build, policy, e), b);
        PathGoesOn(build, policy, a, e, MovesOf(build, policy, s', run[1..], p), b);
      } else {
        OthersStay(build, policy, s, e, p, a);
        LivesFollowDiagram(build, policy, s', run[1..], p, a, b);
        assert [] + MovesOf(build, policy, s', run[1..], p) == MovesOf(build, policy, s', run[1..], p);
      }
    }
  }

  lemma {:induction false} InvPlaces(build: Build, policy: Policy, s: Kernel, p: nat)
    requires Inv(build, policy, s)
    ensures Placed(build, s, p)
  {
  }

  lemma {:induction false} PathGoesOn(build: Build, policy: Policy, a: Stage, e: Event, moves: seq<Event>, b: Stage)
    requires Leaves(e, a) && Path(build, policy, Reaches(build, policy, e), moves, b)
    ensures Path(build, policy, a, [e] + moves, b)
  {
    hide Leaves, Reaches;
    assert ([e] + moves)[1..] == moves;
  }

  // ------------------------------------------- what that means for the processor

  lemma {:induction false} MovesAreIts(build: Build, policy: Policy, s: Kernel, run: seq<Event>, p: nat)
    requires Possible(build, policy, s, run)
    ensures forall e :: e in MovesOf(build, policy, s, run, p) ==> e in run && (ByNumber(e) ==> e.pid == p)
    ensures !After(build, policy, s, run).crashed && p in Dispatched(build, policy, s, run)
            ==> Pick in MovesOf(build, policy, s, run, p)
    decreases |run|
  {
    hide Enabled, Step, Moves, DispatchedNow;
    if run != [] {
      var s' := Step(build, policy, s, run[0]);
      MovesAreIts(build, policy, s', run[1..], p);
      MoveIsIts(build, policy, s, run[0], p);
      if !After(build, policy, s, run).crashed {
        CrashIsLast(build, policy, s, run);
      }
    }
  }

  lemma {:induction false} MoveIsIts(build: Build, policy: Policy, s: Kernel, e: Event, p: nat)
    requires Enabled(build, policy, s, e)
    ensures Moves(s, e, p) && ByNumber(e) ==> e.pid == p
    ensures !Step(build, policy, s, e).crashed && p in DispatchedNow(build, policy, s, e) ==> e.Pick? && Moves(s, e, p)
  {
  }

  lemma {:induction false} NoWayBack(build: Build, policy: Policy, a: Stage, moves: seq<Event>, b: Stage)
    requires Path(build, policy, a, moves, b) && (a.Dying? || a.WithReaper? || a.Buried?)
    ensures Pick !in moves
    decreases |moves|
  {
    if moves != [] {
      NoWayBack(build, policy, Reaches(build, policy, moves[0]), moves[1..], b);
      assert moves == [moves[0]] + moves[1..];
    }
  }

  /** A process that has ended never runs again. */
  lemma {:induction false} EndedForever(build: Build, policy: Policy, s: Kernel, run: seq<Event>, p: nat, a: Stage,
                                        b: Stage)
    requires Inv(build, policy, s) && Possible(build, policy, s, run) && !After(build, policy, s, run).crashed
    requires Stands(s, p, a) && Stands(After(build, policy, s, run), p, b) && (a.Dying? || a.WithReaper? || a.Buried?)
    ensures p !in Dispatched(build, policy, s, run)
  {
    hide Inv, Stands, Possible, After, Path, MovesOf, Dispatched;
    LivesFollowDiagram(build, policy, s, run, p, a, b);
    NoWayBack(build, policy, a, MovesOf(build, policy, s, run, p), b);
    MovesAreIts(build, policy, s, run, p);
  }

  lemma {:induction false} FirstMoves(build: Build, policy: Policy, a: Stage, moves: seq<Event>, b: Stage)
    requires Path(build, policy, a, moves, b) && Pick in moves
    ensures a.AtIo? ==> |moves| >= 2 && moves[0].Serve? && moves[1].ReadyServed?
    ensures a.AtResource? ==> |moves| >= 2 && moves[0].Wake? && moves[1].ReadyWoken?
  {
    if a.AtIo? || a.AtResource? {
      var next := Reaches(build, policy, moves[0]);
      assert moves == [moves[0]] + moves[1..];
      if next.Dying? {
        NoWayBack(build, policy, next, moves[1..], b);
      } else {
        assert moves[1..] == [moves[1]] + moves[2..] && moves[1..][1..] == moves[2..];
        if moves[1].FailServed? {
          NoWayBack(build, policy, Dying, moves[2..], b);
        }
      }
    }
  }

  /** A process that has asked for I/O runs again only when it has been served, with success; one
      that waits for a resource, only when it has been granted it. */
  lemma {:induction false} ServedFirst(build: Build, policy: Policy, s: Kernel, run: seq<Event>, p: nat, b: Stage)
    requires Inv(build, policy, s) && Possible(build, policy, s, run) && !After(build, policy, s, run).crashed
    requires Stands(After(build, policy, s, run), p, b) && p in Dispatched(build, policy, s, run)
    ensures p in s.blocked ==> Serve(p) in run && ReadyServed(p) in run
    ensures p in s.waiting ==> Wake(p) in run && ReadyWoken(p) in run
  {
    hide Inv, Possible, After, Path, MovesOf, Dispatched;
    if p in s.blocked || p in s.waiting {
      var a := if p in s.blocked then AtIo else AtResource;
      var moves := MovesOf(build, policy, s, run, p);
      LivesFollowDiagram(build, policy, s, run, p, a, b);
      MovesAreIts(build, policy, s, run, p);
      FirstMoves(build, policy, a, moves, b);
      assert moves[0] in moves && moves[1] in moves;
      if p in s.blocked && p in s.waiting {
        InvPlaces(build, policy, s, p);
        OneSeat(build, s, p, AtIo, AtResource);
      }
    }
  }

  predicate Early(a: Stage) {
    a.Unborn? || a.Fresh? || a.Chosen? || a.LetIn?
  }

  lemma {:induction false} LoadOnTheWay(build: Build, policy: Policy, a: Stage, moves: seq<Event>, b: Stage)
    requires Path(build, policy, a, moves, b) && Pick in moves && Early(a)
    ensures Load(true) in moves
    decreases |moves|
  {
    var next := Reaches(build, policy, moves[0]);
    assert moves == [moves[0]] + moves[1..];
    if next.Dying? {
      NoWayBack(build, policy, next, moves[1..], b);
    } else if Early(next) {
      LoadOnTheWay(build, policy, next, moves[1..], b);
    }
  }

  /** A new process runs only when it has been let in and its program has been loaded. */
  lemma {:induction false} LoadedFirst(build: Build, policy: Policy, s: Kernel, run: seq<Event>, p: nat, a: Stage,
                                       b: Stage)
    requires Inv(build, policy, s) && Possible(build, policy, s, run) && !After(build, policy, s, run).crashed
    requires Stands(s, p, a) && Stands(After(build, policy, s, run), p, b) && Early(a)
    requires p in Dispatched(build, policy, s, run)
    ensures Load(true) in run
  {
    hide Inv, Stands, Possible, After, Path, MovesOf, Dispatched;
    LivesFollowDiagram(build, policy, s, run, p, a, b);
    MovesAreIts(build, policy, s, run, p);
    LoadOnTheWay(build, policy, a, MovesOf(build, policy, s, run, p), b);
  }

  // -------------------------------------------------------- the back of the line

  /** If p is in the list, y is in it before. */
  predicate ComesFirst(list: seq<nat>, y: nat, p: nat) {
    p in list ==> exists j :: 0 <= j < |list| && list[j] == y && p !in list[..j]
  }

  /** Process p is at position i of the plain queue, and y will be dispatched before it: it stands
      in front, or in the preferred queue, which the dispatcher has not just passed over in favour
      of p. */
  predicate InFrontOf(s: Kernel, y: nat, p: nat, i: nat) {
    && i < |s.ready| && s.ready[i] == p && p !in s.ready[..i]
    && (y in s.ready[..i] || (y in s.plus && (NotPassing(s) || i > 0)))
  }

  lemma {:induction false} OneQueue(build: Build, policy: Policy, s: Kernel, p: nat)
    requires Inv(build, policy, s) && p in s.ready
    ensures p !in s.plus && (!policy.VirtualRoundRobin? ==> s.plus == [] && !s.dispatcher.Looked?)
    ensures p !in s.blocked && p !in s.waiting && p !in s.served && p !in s.woken
    ensures s.dispatcher != Holds(p) && s.planner != Hand.Admitted(p)
  {
    InvPlaces(build, policy, s, p);
    InTimes(s.ready, p);
    InTimes(s.plus, p);
    InTimes(s.blocked, p);
    InTimes(s.waiting, p);
    InTimes(s.served, p);
    InTimes(s.woken, p);
    hide Times;
  }

  lemma {:induction false} PlusDispatched(build: Build, policy: Policy, s: Kernel, y: nat, p: nat, i: nat)
    requires InFrontOf(s, y, p, i) && p !in s.plus && s.dispatcher == Looked(true) && Enabled(build, policy, s, Pick)
    ensures var s', now := Step(build, policy, s, Pick), DispatchedNow(build, policy, s, Pick);
            now == [y] || (p !in now && InFrontOf(s', y, p, i))
  {
  }

  lemma {:induction false} ReadyDispatched(build: Build, policy: Policy, s: Kernel, y: nat, p: nat, i: nat)
    requires InFrontOf(s, y, p, i) && s.dispatcher != Looked(true) && Enabled(build, policy, s, Pick)
    requires !policy.VirtualRoundRobin? ==> s.plus == []
    ensures var s', now := Step(build, policy, s, Pick), DispatchedNow(build, policy, s, Pick);
            i > 0 && (now == [y] || (p !in now && InFrontOf(s', y, p, i - 1)))
  {
    if i > 0 {
      assert s.ready[..i] == [s.ready[0]] + s.ready[1..][..i - 1];
    }
  }

  lemma {:induction false} MovesUp(list: seq<nat>, x: nat, y: nat, p: nat, i: nat) returns (i': nat)
    requires i < |list| && list[i] == p && p !in list[..i] && x != p && x != y
    ensures i' < |TakenOut(list, x)| && TakenOut(list, x)[i'] == p && p !in TakenOut(list, x)[..i']
    ensures y in list[..i] ==> y in TakenOut(list, x)[..i']
  {
    hide TakenOut;
    var k := TakenOutKeepsOrder(list, x);
    i' := if x in list && k < i then i - 1 else i;
    if x in list {
      GapCloses(list, k, i);
    }
  }

  lemma {:induction false} GapCloses(list: seq<nat>, k: nat, i: nat)
    requires k < |list| && i < |list| && k != i
    ensures var less, i' := list[..k] + list[k + 1..], if k < i then i - 1 else i;
            && less[i'] == list[i]
            && (forall z :: z in less[..i'] ==> z in list[..i])
            && (forall z :: z in list[..i] && z != list[k] ==> z in less[..i'])
  {
    var less := list[..k] + list[k + 1..];
    if k < i {
      assert less[..i - 1] == list[..k] + list[k + 1..i];
      assert list[..i] == list[..k] + [list[k]] + list[k + 1..i];
    } else {
      assert less[..i] == list[..i];
    }
  }

  lemma {:induction false} FrontKilled(build: Build, policy: Policy, s: Kernel, x: nat, y: nat, p: nat,
                                       i: nat) returns (i': nat)
    requires InFrontOf(s, y, p, i) && Enabled(build, policy, s, Kill(x)) && x != y && x != p
    ensures InFrontOf(Step(build, policy, s, Kill(x)), y, p, i')
  {
    hide TakenOut, Step;
    var k := MovesUp(s.ready, x, y, p, i);
    StaysIn(s.plus, x, y);
    KilledQueues(build, policy, s, x);
    i' := if Step(build, policy, s, Kill(x)).ready == s.ready then i else k;
  }

  lemma {:induction false} KilledQueues(build: Build, policy: Policy, s: Kernel, x: nat)
    requires Enabled(build, policy, s, Kill(x))
    ensures var s' := Step(build, policy, s, Kill(x));
            && (s'.ready == s.ready || s'.ready == TakenOut(s.ready, x))
            && (s'.plus == s.plus || s'.plus == TakenOut(s.plus, x)) && s'.dispatcher == s.dispatcher
  {
    hide TakenOut;
  }

  lemma {:induction false} FrontStays(build: Build, policy: Policy, s: Kernel, e: Event, y: nat, p: nat, i: nat)
    requires Inv(build, policy, s) && InFrontOf(s, y, p, i) && Enabled(build, policy, s, e) && !e.Pick? && !e.Kill?
    ensures InFrontOf(Step(build, policy, s, e), y, p, i)
  {
    hide Step, Inv;
    StepKeepsOrder(build, policy, s, e, ReadyQueue);
    StepKeepsOrder(build, policy, s, e, PlusQueue);
    var s' := Step(build, policy, s, e);
    assert s.ready <= s'.ready && s.plus <= s'.plus;
    assert s'.ready[..i] == s.ready[..i];
    OneQueue(build, policy, s, p);
    if policy.VirtualRoundRobin? && NotPassing(s) && i == 0 {
      StepPassing(build, s, e);
    }
    hide Enabled;
  }

  /** Whoever is in front is dispatched first, in every run that kills neither. */
  lemma {:induction false} FrontGoesFirst(build: Build, policy: Policy, s: Kernel, run: seq<Event>, y: nat, p: nat,
                                          i: nat)
    requires Inv(build, policy, s) && InFrontOf(s, y, p, i) && Possible(build, policy, s, run)
    requires Kill(y) !in run && Kill(p) !in run
    ensures ComesFirst(Dispatched(build, policy, s, run), y, p)
    decreases |run|
  {
    hide Inv, Enabled, Step, InFrontOf, NotPassing, DispatchedNow;
    if run != [] {
      var e, s' := run[0], Step(build, policy, s, run[0]);
      var now, later := DispatchedNow(build, policy, s, e), Dispatched(build, policy, s', run[1..]);
      StepKeepsInv(build, policy, s, e);
      var i' := i;
      if e.Kill? {
        i' := FrontKilled(build, policy, s, e.pid, y, p, i);
      } else if e.Pick? {
        i' := FrontPicked(build, policy, s, y, p, i);
      } else {
        FrontStays(build, policy, s, e, y, p, i);
      }
      NowOrLater(build, policy, s, e);
      if now == [y] {
        assert (now + later)[0] == y && p !in (now + later)[..0];
      } else {
        FrontGoesFirst(build, policy, s', run[1..], y, p, i');
        FirstStill(now, later, y, p);
      }
    }
  }

  lemma {:induction false} FrontPicked(build: Build, policy: Policy, s: Kernel, y: nat, p: nat,
                                       i: nat) returns (i': nat)
    requires Inv(build, policy, s) && InFrontOf(s, y, p, i) && Enabled(build, policy, s, Pick)
    ensures var s', now := Step(build, policy, s, Pick), DispatchedNow(build, policy, s, Pick);
            now == [y] || (p !in now && InFrontOf(s', y, p, i'))
  {
    hide Inv, Step, Enabled, DispatchedNow;
    OneQueue(build, policy, s, p);
    if s.dispatcher == Looked(true) {
      PlusDispatched(build, policy, s, y, p, i);
      i' := i;
    } else {
      ReadyDispatched(build, policy, s, y, p, i);
      i' := i - 1;
    }
  }

  lemma {:induction false} NowOrLater(build: Build, policy: Policy, s: Kernel, e: Event)
    requires Enabled(build, policy, s, e)
    ensures |DispatchedNow(build, policy, s, e)| <= 1 && (!e.Pick? ==> DispatchedNow(build, policy, s, e) == [])
  {
    hide Step;
  }

  lemma {:induction false} FirstStill(now: seq<nat>, later: seq<nat>, y: nat, p: nat)
    requires p !in now && ComesFirst(later, y, p)
    ensures ComesFirst(now + later, y, p)
  {
    if p in now + later {
      assert p in later;
      var j :| 0 <= j < |later| && later[j] == y && p !in later[..j];
      assert (now + later)[|now| + j] == y && (now + later)[..|now| + j] == now + later[..j];
    }
  }

  /** The events that send a process to the back of the plain queue: its program has been loaded or
      its quantum is used up; and whatever brings one back, where no queue is preferred, or where
      the program as written forgets to prefer it. */
  predicate ToTheBack(build: Build, policy: Policy, e: Event) {
    || e.QuantumEnd? || e == Load(true)
    || (!policy.VirtualRoundRobin? && (e.GrantResource? || e.Signalled? || e.ReadyWoken? || e.ReadyServed?))
    || (build.AsWritten? && e.GrantResource?)
  }

  lemma {:induction false} AtTheBack(build: Build, policy: Policy, s: Kernel, e: Event, y: nat)
    requires Enabled(build, policy, s, e) && ToTheBack(build, policy, e) && (NotPassing(s) || s.ready != [])
    requires y in s.ready || y in s.plus
    requires Moved(s, e) !in s.ready
    ensures InFrontOf(Step(build, policy, s, e), y, Moved(s, e), |s.ready|)
  {
    hide TakenOut;
  }

  /** Such a process is not dispatched again before everybody who was in the plain queue then and
      everybody who was in the preferred one, whatever comes in later. */
  lemma {:induction false} BackOfLine(build: Build, policy: Policy, s: Kernel, e: Event, run: seq<Event>, y: nat)
    requires Inv(build, policy, s) && Enabled(build, policy, s, e) && ToTheBack(build, policy, e)
    requires build.Repaired? || NotPassing(s) || s.ready != []
    requires Possible(build, policy, Step(build, policy, s, e), run)
    requires (y in s.ready || y in s.plus) && Kill(y) !in run && Kill(Moved(s, e)) !in run
    ensures ComesFirst(Dispatched(build, policy, Step(build, policy, s, e), run), y, Moved(s, e))
  {
    hide Inv, Step, Enabled, InFrontOf, Possible, NotPassing, ToTheBack, Dispatched, ComesFirst;
    MovedIsElsewhere(build, policy, s, e);
    PassesForSomebody(build, policy, s);
    AtTheBack(build, policy, s, e, y);
    StepKeepsInv(build, policy, s, e);
    FrontGoesFirst(build, policy, Step(build, policy, s, e), run, y, Moved(s, e), |s.ready|);
  }

  lemma {:induction false} PassesForSomebody(build: Build, policy: Policy, s: Kernel)
    requires Inv(build, policy, s)
    ensures build.Repaired? ==> NotPassing(s) || s.ready != []
  {
    hide Placed;
  }

  lemma {:induction false} MovedIsElsewhere(build: Build, policy: Policy, s: Kernel, e: Event)
    requires Inv(build, policy, s) && Enabled(build, policy, s, e) && ToTheBack(build, policy, e)
    ensures Moved(s, e) !in s.ready
  {
    hide Counted, Placed;
    if Moved(s, e) in s.ready {
      OneQueue(build, policy, s, Moved(s, e));
    }
  }
}
