/** In what order the kernel serves its queues. */
module SchedulerOrder {
  import opened Builds
  import opened Queues
  import opened Scheduler
  import opened SchedulerRuns
  import opened SchedulerSafety

  // --------------------------------------------------------- first come, first served

  datatype Queue = CreatedQueue | ReadyQueue | PlusQueue | ExitQueue

  function Line(s: Kernel, q: Queue): seq<nat> {
    match q
    case CreatedQueue => s.created
    case ReadyQueue => s.ready
    case PlusQueue => s.plus
    case ExitQueue => s.exiting
  }

  /** Whether a step pops that queue: the dispatcher pops the one it has looked at. */
  predicate Pops(s: Kernel, e: Event, q: Queue) {
    match q
    case CreatedQueue => e.PlannerPop?
    case ReadyQueue => e.Pick? && !(s.dispatcher.Looked? && s.dispatcher.plus)
    case PlusQueue => e.Pick? && s.dispatcher.Looked? && s.dispatcher.plus
    case ExitQueue => e.ReaperPop?
  }

  /** The processes a thread has after its pops, in order. */
  function Popped(build: Build, policy: Policy, s: Kernel, run: seq<Event>, q: Queue): seq<nat>
    requires Possible(build, policy, s, run)
    decreases |run|
  {
    if run == [] then []
    else PoppedNow(build, policy, s, run[0], q) + Popped(build, policy, Step(build, policy, s, run[0]), run[1..], q)
  }

  function PoppedNow(build: Build, policy: Policy, s: Kernel, e: Event, q: Queue): seq<nat>
    requires Enabled(build, policy, s, e)
  {
    var s' := Step(build, policy, s, e);
    var hand := match q case CreatedQueue => s'.planner case ExitQueue => s'.reaper case _ => s'.dispatcher;
    if Pops(s, e, q) && hand.Holds? then [hand.pid] else []
  }

  lemma {:induction false} StepKeepsOrder(build: Build, policy: Policy, s: Kernel, e: Event, q: Queue)
    requires Enabled(build, policy, s, e) && !e.Kill?
    ensures Line(s, q) <= PoppedNow(build, policy, s, e, q) + Line(Step(build, policy, s, e), q)
  {
    hide Step, Line;
    if e.PlannerPop? || e.Pick? || e.ReaperPop? {
      PopKeepsOrder(build, policy, s, e, q);
    } else if e.Load? || (s.dispatcher.Holds? && Returns(e)) {
      ReturnKeepsOrder(build, policy, s, e, q);
    } else {
      RestKeepsOrder(build, policy, s, e, q);
    }
  }

  predicate Returns(e: Event) {
    e.Finish? || e.RequestIo? || e.AwaitResource? || e.GrantResource? || e.Signalled? || e.QuantumEnd?
  }

  lemma {:induction false} PopKeepsOrder(build: Build, policy: Policy, s: Kernel, e: Event, q: Queue)
    requires Enabled(build, policy, s, e) && (e.PlannerPop? || e.Pick? || e.ReaperPop?)
    ensures Line(s, q) <= PoppedNow(build, policy, s, e, q) + Line(Step(build, policy, s, e), q)
  {
  }

  lemma {:induction false} ReturnKeepsOrder(build: Build, policy: Policy, s: Kernel, e: Event, q: Queue)
    requires Enabled(build, policy, s, e) && (e.Load? || Returns(e))
    ensures Line(s, q) <= Line(Step(build, policy, s, e), q)
  {
  }

  lemma {:induction false} RestKeepsOrder(build: Build, policy: Policy, s: Kernel, e: Event, q: Queue)
    requires Enabled(build, policy, s, e) && !e.Kill? && !e.PlannerPop? && !e.Pick? && !e.ReaperPop? && !e.Load? &&
        !Returns(e)
    ensures Line(s, q) <= Line(Step(build, policy, s, e), q)
  {
    hide TakenOut;
  }

  /** In every queue processes are served in the order in which they came, with nobody passed
      over: those that were there are the first to be popped, and those not popped yet are still
      in front. Only a kill takes one out of the line. */
  lemma {:induction false} RunsKeepOrder(build: Build, policy: Policy, s: Kernel, run: seq<Event>, q: Queue)
    requires Possible(build, policy, s, run) && KillFree(run)
    ensures Line(s, q) <= Popped(build, policy, s, run, q) + Line(After(build, policy, s, run), q)
    decreases |run|
  {
    hide Enabled, Step, Line, PoppedNow;
    if run != [] {
      var s' := Step(build, policy, s, run[0]);
      StepKeepsOrder(build, policy, s, run[0], q);
      RunsKeepOrder(build, policy, s', run[1..], q);
      InFront(Line(s, q), PoppedNow(build, policy, s, run[0], q), Line(s', q), Popped(build, policy, s', run[1..], q),
              Line(After(build, policy, s, run), q));
    }
  }

  lemma {:induction false} InFront(a: seq<nat>, p: seq<nat>, b: seq<nat>, q: seq<nat>, c: seq<nat>)
    requires a <= p + b && b <= q + c
    ensures a <= (p + q) + c
  {
    assert p + (q + c) == (p + q) + c;
  }

  // ------------------------------------------- the virtual round robin's priority

  /** Who comes back from I/O, a WAIT or a SIGNAL joins the preferred queue, but for a granted
      WAIT as written, which joins the other. */
  lemma {:induction false} JoinsPlusIff(build: Build, s: Kernel, e: Event)
    requires Enabled(build, VirtualRoundRobin, s, e)
    requires e.GrantResource? || e.Signalled? || e.ReadyWoken? || e.ReadyServed?
    ensures var s', x := Step(build, VirtualRoundRobin, s, e), Moved(s, e);
            if build.Repaired? || !e.GrantResource? then s'.plus == s.plus + [x] && s'.ready == s.ready
            else s'.ready == s.ready + [x] && s'.plus == s.plus
  {
    hide TakenOut;
  }

  /** The dispatcher is not on its way to the plain queue. */
  predicate NotPassing(s: Kernel) {
    s.dispatcher.Looked? ==> s.dispatcher.plus
  }

  /** It takes nobody from the plain queue before everybody who was in the preferred one. */
  lemma {:induction false} PlusGoesFirst(build: Build, s: Kernel, run: seq<Event>)
    requires Possible(build, VirtualRoundRobin, s, run) && KillFree(run) && NotPassing(s)
    ensures Popped(build, VirtualRoundRobin, s, run, ReadyQueue) != []
            ==> s.plus <= Popped(build, VirtualRoundRobin, s, run, PlusQueue)
    decreases |run|
  {
    hide Enabled, Step, Line, PoppedNow, NotPassing;
    if run != [] {
      var s' := Step(build, VirtualRoundRobin, s, run[0]);
      StepKeepsOrder(build, VirtualRoundRobin, s, run[0], PlusQueue);
      StepPassing(build, s, run[0]);
      if NotPassing(s') {
        PlusGoesFirst(build, s', run[1..]);
        var now, later := PoppedNow(build, VirtualRoundRobin, s, run[0], PlusQueue),
                          Popped(build, VirtualRoundRobin, s', run[1..], PlusQueue);
        if s'.plus <= later {
          assert later == s'.plus + later[|s'.plus|..];
          assert now + later == (now + s'.plus) + later[|s'.plus|..];
        }
      }
    }
  }

  lemma {:induction false} StepPassing(build: Build, s: Kernel, e: Event)
    requires Enabled(build, VirtualRoundRobin, s, e) && NotPassing(s) && !e.Kill?
    ensures Line(s, PlusQueue) == s.plus && PoppedNow(build, VirtualRoundRobin, s, e, ReadyQueue) == []
    ensures Line(Step(build, VirtualRoundRobin, s, e), PlusQueue) == Step(build, VirtualRoundRobin, s, e).plus
    ensures NotPassing(Step(build, VirtualRoundRobin, s, e)) || s.plus == []
  {
    hide TakenOut;
  }

  // ------------------------------------- when it is the turn of who comes back

  function DispatchedNow(build: Build, policy: Policy, s: Kernel, e: Event): seq<nat>
    requires Enabled(build, policy, s, e)
  {
    var s' := Step(build, policy, s, e);
    if e.Pick? && s'.dispatcher.Holds? then [s'.dispatcher.pid] else []
  }

  /** The processes a run dispatches, in order. */
  function Dispatched(build: Build, policy: Policy, s: Kernel, run: seq<Event>): seq<nat>
    requires Possible(build, policy, s, run)
    decreases |run|
  {
    if run == [] then []
    else DispatchedNow(build, policy, s, run[0]) + Dispatched(build, policy, Step(build, policy, s, run[0]), run[1..])
  }

  lemma {:induction false} DispatchedThen(build: Build, policy: Policy, s: Kernel, run: seq<Event>, more: seq<Event>)
    requires Possible(build, policy, s, run) && Possible(build, policy, After(build, policy, s, run), more)
    ensures Possible(build, policy, s, run + more)
    ensures After(build, policy, s, run + more) == After(build, policy, After(build, policy, s, run), more)
    ensures Dispatched(build, policy, s, run + more)
         == Dispatched(build, policy, s, run) + Dispatched(build, policy, After(build, policy, s, run), more)
    decreases |run|
  {
    hide Enabled, Step, DispatchedNow;
    RunThenRun(build, policy, s, run, more);
    if run == [] {
      assert run + more == more;
    } else {
      assert (run + more)[1..] == run[1..] + more;
      DispatchedThen(build, policy, Step(build, policy, s, run[0]), run[1..], more);
    }
  }

  /** One goes as far as the other, or further. */
  predicate Comparable(a: seq<nat>, b: seq<nat>) {
    a <= b || b <= a
  }

  /** Whatever the threads do, the next processes to be dispatched are those in the preferred
      queue, in their order. */
  lemma {:induction false} PlusInTurn(build: Build, s: Kernel, run: seq<Event>, l: seq<nat>)
    requires Possible(build, VirtualRoundRobin, s, run) && KillFree(run) && NotPassing(s) && l <= s.plus
    ensures Comparable(Dispatched(build, VirtualRoundRobin, s, run), l)
    decreases |run|
  {
    hide Enabled, Step, DispatchedNow, NotPassing;
    if run != [] && l != [] {
      var s' := Step(build, VirtualRoundRobin, s, run[0]);
      PlusStep(build, s, run[0], l);
      if run[0].Pick? {
        PlusInTurn(build, s', run[1..], l[1..]);
        assert l == [l[0]] + l[1..];
        SameHead(l[0], Dispatched(build, VirtualRoundRobin, s', run[1..]), l[1..]);
      } else {
        PlusInTurn(build, s', run[1..], l);
        assert [] + Dispatched(build, VirtualRoundRobin, s', run[1..])
            == Dispatched(build, VirtualRoundRobin, s', run[1..]);
      }
    }
  }

  lemma {:induction false} SameHead(x: nat, a: seq<nat>, b: seq<nat>)
    requires Comparable(a, b)
    ensures Comparable([x] + a, [x] + b)
  {
    if a <= b {
      assert b == a + b[|a|..];
      assert [x] + b == ([x] + a) + b[|a|..];
    } else {
      assert a == b + a[|b|..];
      assert [x] + a == ([x] + b) + a[|b|..];
    }
  }

  lemma {:induction false} PlusStep(build: Build, s: Kernel, e: Event, l: seq<nat>)
    requires Enabled(build, VirtualRoundRobin, s, e) && !e.Kill? && NotPassing(s) && l != [] && l <= s.plus
    ensures var s', now := Step(build, VirtualRoundRobin, s, e), DispatchedNow(build, VirtualRoundRobin, s, e);
            NotPassing(s') && if e.Pick? then now == [l[0]] && l[1..] <= s'.plus else now == [] && l <= s'.plus
  {
    hide TakenOut;
  }

  /** In no continuation without kills is anybody dispatched out of this order. */
  ghost predicate AlwaysNext(build: Build, s: Kernel, l: seq<nat>) {
    forall run :: KillFree(run) && Possible(build, VirtualRoundRobin, s, run) ==>
      Comparable(Dispatched(build, VirtualRoundRobin, s, run), l)
  }

  /** Nobody but the process with the dispatcher has been let in. */
  predicate NobodyElse(s: Kernel) {
    s.ready == s.plus == s.blocked == s.waiting == s.served == s.woken == []
  }

  /** Nobody is between the plain queue's first and the dispatcher. */
  predicate FirstAndAlone(s: Kernel, x: nat) {
    && s.ready != [] && s.ready[0] == x && s.plus == s.blocked == s.waiting == s.served == s.woken == []
    && !s.dispatcher.Holds? && (s.dispatcher.Looked? ==> !s.dispatcher.plus)
  }

  lemma {:induction false} AloneStep(build: Build, s: Kernel, e: Event, x: nat)
    requires Enabled(build, VirtualRoundRobin, s, e) && !e.Kill? && FirstAndAlone(s, x)
    ensures var now := DispatchedNow(build, VirtualRoundRobin, s, e);
            if e.Pick? then now == [x] else now == [] && FirstAndAlone(Step(build, VirtualRoundRobin, s, e), x)
  {
    hide TakenOut;
  }

  lemma {:induction false} AloneInTurn(build: Build, s: Kernel, run: seq<Event>, x: nat)
    requires Possible(build, VirtualRoundRobin, s, run) && KillFree(run) && FirstAndAlone(s, x)
    ensures Comparable(Dispatched(build, VirtualRoundRobin, s, run), [x])
    decreases |run|
  {
    hide Enabled, Step, DispatchedNow, FirstAndAlone;
    if run != [] {
      var s' := Step(build, VirtualRoundRobin, s, run[0]);
      AloneStep(build, s, run[0], x);
      if !run[0].Pick? {
        AloneInTurn(build, s', run[1..], x);
        assert [] + Dispatched(build, VirtualRoundRobin, s', run[1..])
            == Dispatched(build, VirtualRoundRobin, s', run[1..]);
      }
    }
  }

  // --------------------------------------------------- a run, made step by step

  /** A run without kills from a state the invariant holds of, that has dispatched `done` and has led to t. */
  ghost predicate Made(build: Build, s: Kernel, run: seq<Event>, done: seq<nat>, t: Kernel) {
    && Possible(build, VirtualRoundRobin, s, run) && KillFree(run)
    && After(build, VirtualRoundRobin, s, run) == t && Dispatched(build, VirtualRoundRobin, s, run) == done
    && Inv(build, VirtualRoundRobin, t) && !t.crashed
  }

  lemma {:induction false} MadeNothing(build: Build, s: Kernel)
    requires Inv(build, VirtualRoundRobin, s) && !s.crashed
    ensures Made(build, s, [], [], s)
  {
    hide Inv;
  }

  lemma {:induction false} MakeStep(build: Build, s: Kernel, run: seq<Event>, done: seq<nat>, t: Kernel, e: Event)
    requires Made(build, s, run, done, t) && Enabled(build, VirtualRoundRobin, t, e) && !e.Kill?
    requires !Step(build, VirtualRoundRobin, t, e).crashed
    ensures Made(build, s, run + [e], done + DispatchedNow(build, VirtualRoundRobin, t, e),
                 Step(build, VirtualRoundRobin, t, e))
  {
    hide Enabled, Step, Inv, DispatchedNow;
    OneStep(build, VirtualRoundRobin, t, e);
    DispatchedThen(build, VirtualRoundRobin, s, run, [e]);
    StepKeepsInv(build, VirtualRoundRobin, t, e);
    assert [e][1..] == [];
    assert Dispatched(build, VirtualRoundRobin, t, [e]) == DispatchedNow(build, VirtualRoundRobin, t, e);
  }

  /** The free dispatcher takes the next process. */
  lemma {:induction false} DispatchesNext(build: Build, s: Kernel, run: seq<Event>, done: seq<nat>, t: Kernel)
      returns (run': seq<Event>, x: nat, t': Kernel)
    requires Made(build, s, run, done, t) && t.dispatcher.Empty? && (t.plus != [] || t.ready != [])
    ensures x == (if t.plus != [] then t.plus[0] else t.ready[0])
    ensures Made(build, s, run', done + [x], t') && t'.dispatcher == Holds(x)
    ensures t'.plus == if t.plus != [] then t.plus[1..] else []
  {
    hide Made, Inv;
    run', t' := run, t;
    UnitIsThere(build, s, run, done, t);
    if t.readySem.units == 0 {
      MakeStep(build, s, run, done, t, PostReady);
      run', t' := run + [PostReady], Step(build, VirtualRoundRobin, t, PostReady);
      assert done + [] == done;
    }
    MakeStep(build, s, run', done, t', DispatcherWait);
    run', t' := run' + [DispatcherWait], Step(build, VirtualRoundRobin, t', DispatcherWait);
    assert done + [] == done;
    MakeStep(build, s, run', done, t', Look);
    run', t' := run' + [Look], Step(build, VirtualRoundRobin, t', Look);
    MakeStep(build, s, run', done, t', Pick);
    run', t' := run' + [Pick], Step(build, VirtualRoundRobin, t', Pick);
    x := t'.dispatcher.pid;
  }

  lemma {:induction false} UnitIsThere(build: Build, s: Kernel, run: seq<Event>, done: seq<nat>, t: Kernel)
    requires Made(build, s, run, done, t) && t.dispatcher.Empty? && (t.plus != [] || t.ready != [])
    ensures !t.crashed && (t.readySem.units > 0 || t.readySem.owed > 0)
  {
    hide Possible, After, Dispatched, Placed;
  }

  /** Every process in the preferred queue is dispatched, one after the other, and each ends. */
  lemma {:induction false} DispatchesPlus(build: Build, s: Kernel, run: seq<Event>, done: seq<nat>, t: Kernel)
      returns (run': seq<Event>, t': Kernel)
    requires Made(build, s, run, done, t) && t.dispatcher.Empty? && t.plus != []
    ensures Made(build, s, run', done + t.plus, t')
    decreases |t.plus|
  {
    hide Made;
    var x;
    run', x, t' := DispatchesNext(build, s, run, done, t);
    if |t.plus| == 1 {
      assert t.plus == [x];
    } else {
      StillGoes(build, s, run', done + [x], t');
      MakeStep(build, s, run', done + [x], t', Finish);
      var t1 := Step(build, VirtualRoundRobin, t', Finish);
      assert (done + [x]) + [] == done + [x];
      run', t' := DispatchesPlus(build, s, run' + [Finish], done + [x], t1);
      assert (done + [x]) + t.plus[1..] == done + t.plus;
    }
  }

  lemma {:induction false} StillGoes(build: Build, s: Kernel, run: seq<Event>, done: seq<nat>, t: Kernel)
    requires Made(build, s, run, done, t)
    ensures !t.crashed
  {
  }

  /** A process in the preferred queue runs, asks for I/O and is back behind the others. */
  lemma {:induction false} ComesBackToPlus(build: Build, s: Kernel, run: seq<Event>, done: seq<nat>, t: Kernel)
      returns (run': seq<Event>, t': Kernel)
    requires Made(build, s, run, done, t) && t.dispatcher.Empty? && t.plus != []
    ensures Made(build, s, run', done + [t.plus[0]], t') && t'.dispatcher.Empty? && t'.plus == t.plus[1..] + [t.plus[0]]
  {
    hide Made, TakenOut;
    var x;
    run', x, t' := DispatchesNext(build, s, run, done, t);
    StillGoes(build, s, run', done + [x], t');
    MakeStep(build, s, run', done + [x], t', RequestIo);
    run', t' := run' + [RequestIo], Step(build, VirtualRoundRobin, t', RequestIo);
    assert (done + [x]) + [] == done + [x];
    assert t'.blocked[|t'.blocked| - 1] == x;
    run', t' := ServedToPlus(build, s, run', done + [x], t', x);
  }

  lemma {:induction false} ServedToPlus(build: Build, s: Kernel, run: seq<Event>, done: seq<nat>, t: Kernel, p: nat)
      returns (run': seq<Event>, t': Kernel)
    requires Made(build, s, run, done, t) && t.dispatcher.Empty? && p in t.blocked
    ensures Made(build, s, run', done, t') && t'.dispatcher.Empty? && t'.plus == t.plus + [p]
  {
    hide Made, TakenOut;
    StillGoes(build, s, run, done, t);
    MakeStep(build, s, run, done, t, Serve(p));
    run', t' := run + [Serve(p)], Step(build, VirtualRoundRobin, t, Serve(p));
    assert done + [] == done;
    assert t'.served[|t'.served| - 1] == p;
    MakeStep(build, s, run', done, t', ReadyServed(p));
    run', t' := run' + [ReadyServed(p)], Step(build, VirtualRoundRobin, t', ReadyServed(p));
  }

  lemma {:induction false} WokenToPlus(build: Build, s: Kernel, run: seq<Event>, done: seq<nat>, t: Kernel, p: nat)
      returns (run': seq<Event>, t': Kernel)
    requires Made(build, s, run, done, t) && t.dispatcher.Empty? && p in t.waiting
    ensures Made(build, s, run', done, t') && t'.dispatcher.Empty? && t'.plus == t.plus + [p]
  {
    hide Made, TakenOut;
    StillGoes(build, s, run, done, t);
    MakeStep(build, s, run, done, t, Wake(p));
    run', t' := run + [Wake(p)], Step(build, VirtualRoundRobin, t, Wake(p));
    assert done + [] == done;
    assert t'.woken[|t'.woken| - 1] == p;
    MakeStep(build, s, run', done, t', ReadyWoken(p));
    run', t' := run' + [ReadyWoken(p)], Step(build, VirtualRoundRobin, t', ReadyWoken(p));
  }

  /** A process that was stopped overtakes the plain queue. */
  lemma {:induction false} StoppedOvertakes(build: Build, t: Kernel) returns (run: seq<Event>, p: nat)
    requires Inv(build, VirtualRoundRobin, t) && !t.crashed && t.dispatcher.Empty? && t.plus == []
    requires t.blocked != [] || t.waiting != [] || t.served != [] || t.woken != []
    ensures Possible(build, VirtualRoundRobin, t, run) && KillFree(run) &&
            Dispatched(build, VirtualRoundRobin, t, run) == [p]
    ensures p in t.blocked || p in t.waiting || p in t.served || p in t.woken
  {
    hide Inv, TakenOut;
    MadeNothing(build, t);
    var t';
    if t.blocked != [] {
      p := t.blocked[0];
      run, t' := ServedToPlus(build, t, [], [], t, p);
    } else if t.waiting != [] {
      p := t.waiting[0];
      run, t' := WokenToPlus(build, t, [], [], t, p);
    } else {
      p := if t.served != [] then t.served[0] else t.woken[0];
      var e := if t.served != [] then ReadyServed(p) else ReadyWoken(p);
      MakeStep(build, t, [], [], t, e);
      run, t' := [] + [e], Step(build, VirtualRoundRobin, t, e);
    }
    run, t' := DispatchesPlus(build, t, run, [], t');
    assert [] + [p] == [p];
  }

  /** Some other process overtakes one that has come back to the plain queue. */
  lemma {:induction false} Overtaken(build: Build, s: Kernel, t: Kernel, x: nat) returns (run: seq<Event>)
    requires Inv(build, VirtualRoundRobin, t) && !t.crashed && t.dispatcher.Empty?
    requires t.ready == s.ready + [x] && t.plus == s.plus && !NobodyElse(s)
    requires t.blocked == s.blocked && t.waiting == s.waiting && t.served == s.served && t.woken == s.woken
    requires x !in s.ready && x !in s.plus && x !in s.blocked && x !in s.waiting && x !in s.served && x !in s.woken
    ensures Possible(build, VirtualRoundRobin, t, run) && KillFree(run)
    ensures !Comparable(Dispatched(build, VirtualRoundRobin, t, run), s.plus + [x])
  {
    MadeNothing(build, t);
    var t', y;
    if s.plus != [] {
      run, t' := ComesBackToPlus(build, t, [], [], t);
      var again := t'.plus;
      run, t' := DispatchesPlus(build, t, run, [] + [s.plus[0]], t');
      assert ([] + [s.plus[0]]) + again == s.plus + [s.plus[0]];
      LastDiffers(s.plus, s.plus[0], x);
    } else if s.ready != [] {
      run, y, t' := DispatchesNext(build, t, [], [], t);
      assert [] + [y] == [] + [s.ready[0]];
      LastDiffers([], y, x);
    } else {
      run, y := StoppedOvertakes(build, t);
      LastDiffers([], y, x);
      assert [] + [y] == [y];
    }
    hide Inv;
  }

  lemma {:induction false} LastDiffers(l: seq<nat>, y: nat, x: nat)
    requires x != y
    ensures !Comparable(l + [y], l + [x])
  {
    assert (l + [y])[|l|] != (l + [x])[|l|];
  }

  lemma {:induction false} NowhereElse(build: Build, s: Kernel)
    requires s.dispatcher.Holds? && Placed(build, s, s.dispatcher.pid)
    ensures var x := s.dispatcher.pid;
            x !in s.ready && x !in s.plus && x !in s.blocked && x !in s.waiting && x !in s.served && x !in s.woken
  {
    var x := s.dispatcher.pid;
    hide Times;
    InTimes(s.ready, x);
    InTimes(s.plus, x);
    InTimes(s.blocked, x);
    InTimes(s.waiting, x);
    InTimes(s.served, x);
    InTimes(s.woken, x);
  }

  /** Who comes back from I/O, a WAIT or a SIGNAL is dispatched next after those already in the
      preferred queue, in every continuation. As written this fails for a granted WAIT, exactly
      when another process has been let in, wherever that one is. */
  lemma {:induction false} NextIff(build: Build, s: Kernel, e: Event)
    requires Inv(build, VirtualRoundRobin, s) && Enabled(build, VirtualRoundRobin, s, e) && NotPassing(s)
    requires e.GrantResource? || e.Signalled? || e.ReadyWoken? || e.ReadyServed?
    ensures AlwaysNext(build, Step(build, VirtualRoundRobin, s, e), s.plus + [Moved(s, e)])
            <==> build.Repaired? || !e.GrantResource? || NobodyElse(s)
  {
    hide Placed, Counted, TakenOut;
    var t, x := Step(build, VirtualRoundRobin, s, e), Moved(s, e);
    JoinsPlusIff(build, s, e);
    if build.Repaired? || !e.GrantResource? {
      forall run | KillFree(run) && Possible(build, VirtualRoundRobin, t, run)
        ensures Comparable(Dispatched(build, VirtualRoundRobin, t, run), s.plus + [x])
      {
        PlusInTurn(build, t, run, s.plus + [x]);
      }
    } else if NobodyElse(s) {
      forall run | KillFree(run) && Possible(build, VirtualRoundRobin, t, run)
        ensures Comparable(Dispatched(build, VirtualRoundRobin, t, run), s.plus + [x])
      {
        AloneInTurn(build, t, run, x);
      }
    } else {
      StepKeepsInv(build, VirtualRoundRobin, s, e);
      assert Placed(build, s, x);
      NowhereElse(build, s);
      var run := Overtaken(build, s, t, x);
      assert KillFree(run) && Possible(build, VirtualRoundRobin, t, run);
    }
  }
}
