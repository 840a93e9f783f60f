/** The kernel's counted resources: WAIT, SIGNAL, the end of a process, and the killing of one
    that waits. What each operation does is a function on values here; ResourceManager has the
    operations. */
module Resources {
  import opened Builds
  import opened Queues

  /** The instance counter, negative while processes wait, and the queue of those. */
  datatype Resource = Resource(instances: int, blocked: seq<nat>)

  /** `held` lists for each process number, in the order of granting, the resources it holds;
      `ready` collects the processes sent back to a ready queue. */
  datatype State = State(resources: seq<Resource>, held: seq<seq<nat>>, ready: seq<nat>)

  predicate Sound(s: State) {
    && (forall i :: 0 <= i < |s.resources| ==> AllBelow(s.resources[i].blocked, |s.held|))
    && (forall p :: 0 <= p < |s.held| ==> AllBelow(s.held[p], |s.resources|))
  }

  predicate IsBlocked(s: State, pid: nat) {
    exists i :: 0 <= i < |s.resources| && pid in s.resources[i].blocked
  }

  /** The index of the first resource of a name, or -1. */
  function Find(names: seq<string>, name: string): (i: int)
    ensures -1 <= i < |names|
    ensures i == -1 <==> name !in names
    ensures i >= 0 ==> names[i] == name && name !in names[..i]
  {
    if names == [] then -1
    else if names[0] == name then 0
    else
      var i := Find(names[1..], name);
      assert i >= 0 ==> names[..i + 1] == [names[0]] + names[1..][..i];
      if i == -1 then -1 else i + 1
  }

  // ------------------------------------------------------------- operations

  function Give(held: seq<seq<nat>>, pid: nat, i: nat): seq<seq<nat>>
    requires pid < |held|
  {
    held[pid := held[pid] + [i]]
  }

  function Ask(s: State, pid: nat, i: nat): State
    requires i < |s.resources| && pid < |s.held|
  {
    var n := s.resources[i].instances - 1;
    if n < 0 then s.(resources := s.resources[i := Resource(n, s.resources[i].blocked + [pid])])
    else State(s.resources[i := Resource(n, s.resources[i].blocked)], Give(s.held, pid, i), s.ready + [pid])
  }

  function Release(s: State, i: nat): State
    requires i < |s.resources| && AllBelow(s.resources[i].blocked, |s.held|)
  {
    var n, blocked := s.resources[i].instances + 1, s.resources[i].blocked;
    if n <= 0 && blocked != [] then
      State(s.resources[i := Resource(n, blocked[1..])], Give(s.held, blocked[0], i), s.ready + [blocked[0]])
    else s.(resources := s.resources[i := Resource(n, blocked)])
  }

  lemma {:induction false} ReleaseKeepsSound(s: State, i: nat)
    requires Sound(s) && i < |s.resources|
    ensures Sound(Release(s, i))
    ensures forall pid :: IsBlocked(Release(s, i), pid) ==> IsBlocked(s, pid)
    ensures forall p :: 0 <= p < |s.held| && !IsBlocked(s, p) ==> Release(s, i).held[p] == s.held[p]
  {
  }

  /** One release for every entry of a list, in order. */
  function ReleaseAll(s: State, list: seq<nat>): (r: State)
    requires Sound(s) && AllBelow(list, |s.resources|)
    ensures Sound(r) && |r.resources| == |s.resources| && |r.held| == |s.held|
    ensures forall p :: 0 <= p < |s.held| && !IsBlocked(s, p) ==> r.held[p] == s.held[p] && !IsBlocked(r, p)
    decreases |list|
  {
    if list == [] then s
    else
      ReleaseKeepsSound(s, list[0]);
      ReleaseAll(Release(s, list[0]), list[1..])
  }

  // ------------------------------------------------------------------ events

  datatype Event =
    | Wait(pid: nat, name: string)
    | Signal(pid: nat, name: string)
    | Exit(pid: nat)
    | Kill(pid: nat)

  /** A process that waits, signals or ends is not in a resource's queue; one that is killed is. */
  predicate Enabled(s: State, e: Event) {
    e.pid < |s.held| && (e.Kill? <==> IsBlocked(s, e.pid))
  }

  /** The first resource in whose queue a process is. */
  function QueueOf(resources: seq<Resource>, pid: nat): (i: nat)
    ensures i <= |resources|
    ensures i < |resources| ==> pid in resources[i].blocked
    ensures forall j :: 0 <= j < i ==> pid !in resources[j].blocked
  {
    if resources == [] || pid in resources[0].blocked then 0 else 1 + QueueOf(resources[1..], pid)
  }

  /** Taken out of a queue, a process leaves the counter as it is; repaired, it undoes its wait. */
  function Unblocked(build: Build, r: Resource, pid: nat): Resource {
    Resource(if build.Repaired? then r.instances + 1 else r.instances, TakenOut(r.blocked, pid))
  }

  function Step(build: Build, names: seq<string>, s: State, e: Event): (r: State)
    requires Sound(s) && |names| == |s.resources| && Enabled(s, e)
    ensures Sound(r) && |r.resources| == |s.resources| && |r.held| == |s.held|
  {
    match e
    case Wait(pid, name) =>
      var i := Find(names, name);
      if i == -1 then s else Ask(s, pid, i)
    case Signal(pid, name) =>
      var i := Find(names, name);
      if i == -1 then s
      else
        var s1 := s.(held := s.held[pid := TakenOut(s.held[pid], i)]);
        TakingKeepsSound(s, pid, i);
        ReleaseKeepsSound(s1, i);
        var s2 := Release(s1, i);
        s2.(ready := s2.ready + [pid])
    case Exit(pid) =>
      var s1 := ReleaseAll(s, s.held[pid]);
      s1.(held := s1.held[pid := []])
    case Kill(pid) =>
      var i := QueueOf(s.resources, pid);
      UnblockingKeepsSound(build, s, pid, i);
      s.(resources := s.resources[i := Unblocked(build, s.resources[i], pid)])
  }

  lemma {:induction false} TakingKeepsSound(s: State, pid: nat, i: nat)
    requires Sound(s) && pid < |s.held|
    ensures Sound(s.(held := s.held[pid := TakenOut(s.held[pid], i)]))
  {
  }

  lemma {:induction false} UnblockingKeepsSound(build: Build, s: State, pid: nat, i: nat)
    requires Sound(s) && i < |s.resources|
    ensures Sound(s.(resources := s.resources[i := Unblocked(build, s.resources[i], pid)]))
  {
  }

  // ------------------------------------------------------------------- runs

  predicate Possible(build: Build, names: seq<string>, s: State, run: seq<Event>)
    requires Sound(s) && |names| == |s.resources|
    decreases |run|
  {
    run == [] || (Enabled(s, run[0]) && Possible(build, names, Step(build, names, s, run[0]), run[1..]))
  }

  function After(build: Build, names: seq<string>, s: State, run: seq<Event>): (r: State)
    requires Sound(s) && |names| == |s.resources| && Possible(build, names, s, run)
    ensures Sound(r) && |r.resources| == |s.resources|
    decreases |run|
  {
    if run == [] then s else After(build, names, Step(build, names, s, run[0]), run[1..])
  }

  // ----------------------------------------------------------- conservation

  /** How many instances of resource i all processes hold together. */
  function Holding(held: seq<seq<nat>>, i: nat): nat {
    if held == [] then 0 else Times(held[0], i) + Holding(held[1..], i)
  }

  lemma {:induction false} HoldingPut(held: seq<seq<nat>>, p: nat, list: seq<nat>, i: nat)
    requires p < |held|
    ensures Holding(held[p := list], i) == Holding(held, i) - Times(held[p], i) + Times(list, i)
  {
    if p == 0 {
      assert held[0 := list][1..] == held[1..];
    } else {
      assert held[p := list][1..] == held[1..][p - 1 := list];
      HoldingPut(held[1..], p - 1, list, i);
    }
  }

  lemma {:induction false} HoldingEnter(held: seq<seq<nat>>, i: nat)
    ensures Holding(held + [[]], i) == Holding(held, i)
  {
    if held != [] {
      assert (held + [[]])[1..] == held[1..] + [[]];
      HoldingEnter(held[1..], i);
    }
  }

  /** All instances of a resource there are: free ones, held ones, and one for each process that
      waits, whose wait has been taken off the counter in advance. */
  function Total(s: State, i: nat): int
    requires i < |s.resources|
  {
    s.resources[i].instances + Holding(s.held, i) + |s.resources[i].blocked|
  }

  lemma {:induction false} AskKeepsTotal(s: State, pid: nat, i: nat, j: nat)
    requires i < |s.resources| && j < |s.resources| && pid < |s.held|
    ensures Total(Ask(s, pid, i), j) == Total(s, j)
  {
    HoldingPut(s.held, pid, s.held[pid] + [i], j);
    TimesAppend(s.held[pid], i, j);
  }

  lemma {:induction false} ReleaseAddsOne(s: State, i: nat, j: nat)
    requires Sound(s) && i < |s.resources| && j < |s.resources|
    ensures Total(Release(s, i), j) == Total(s, j) + (if i == j then 1 else 0)
  {
    var blocked := s.resources[i].blocked;
    if blocked != [] {
      HoldingPut(s.held, blocked[0], s.held[blocked[0]] + [i], j);
      TimesAppend(s.held[blocked[0]], i, j);
    }
  }

  lemma {:induction false} ReleaseAllAdds(s: State, list: seq<nat>, j: nat)
    requires Sound(s) && AllBelow(list, |s.resources|) && j < |s.resources|
    ensures Total(ReleaseAll(s, list), j) == Total(s, j) + Times(list, j)
    decreases |list|
  {
    if list != [] {
      ReleaseKeepsSound(s, list[0]);
      ReleaseAddsOne(s, list[0], j);
      hide Total, Release;
      ReleaseAllAdds(Release(s, list[0]), list[1..], j);
    }
  }

  /** A SIGNAL by a process that does not hold the resource makes an instance. */
  function Gift(names: seq<string>, s: State, e: Event, i: nat): nat
    requires e.pid < |s.held|
  {
    if e.Signal? && Find(names, e.name) == i && i !in s.held[e.pid] then 1 else 0
  }

  /** Killing a waiting process loses one, as the program is written. */
  function Loss(build: Build, s: State, e: Event, i: nat): nat {
    if build.AsWritten? && e.Kill? && QueueOf(s.resources, e.pid) == i then 1 else 0
  }

  lemma {:induction false} StepConserves(build: Build, names: seq<string>, s: State, e: Event, j: nat)
    requires Sound(s) && |names| == |s.resources| && Enabled(s, e) && j < |s.resources|
    ensures Total(Step(build, names, s, e), j) == Total(s, j) + Gift(names, s, e, j) - Loss(build, s, e, j)
  {
    match e
    case Wait(pid, name) =>
      if Find(names, name) != -1 {
        AskKeepsTotal(s, pid, Find(names, name), j);
      }
    case Signal(pid, name) =>
      if Find(names, name) != -1 {
        SignalConserves(s, pid, Find(names, name), j);
      }
    case Exit(pid) =>
      ReleaseAllAdds(s, s.held[pid], j);
      HoldingPut(ReleaseAll(s, s.held[pid]).held, pid, [], j);
    case Kill(pid) =>
  }

  lemma {:induction false} SignalConserves(s: State, pid: nat, i: nat, j: nat)
    requires Sound(s) && pid < |s.held| && i < |s.resources| && j < |s.resources|
    ensures var s1 := s.(held := s.held[pid := TakenOut(s.held[pid], i)]);
            && Sound(s1)
            && Total(Release(s1, i), j) == Total(s, j) + (if i == j && j !in s.held[pid] then 1 else 0)
  {
    TakingKeepsSound(s, pid, i);
    var s1 := s.(held := s.held[pid := TakenOut(s.held[pid], i)]);
    HoldingPut(s.held, pid, TakenOut(s.held[pid], i), j);
    TimesTakenOut(s.held[pid], i, j);
    ReleaseAddsOne(s1, i, j);
    hide Release;
  }

  function Gifts(build: Build, names: seq<string>, s: State, run: seq<Event>, i: nat): nat
    requires Sound(s) && |names| == |s.resources| && Possible(build, names, s, run)
    decreases |run|
  {
    if run == [] then 0
    else Gift(names, s, run[0], i) + Gifts(build, names, Step(build, names, s, run[0]), run[1..], i)
  }

  function Losses(build: Build, names: seq<string>, s: State, run: seq<Event>, i: nat): nat
    requires Sound(s) && |names| == |s.resources| && Possible(build, names, s, run)
    decreases |run|
  {
    if run == [] then 0
    else Loss(build, s, run[0], i) + Losses(build, names, Step(build, names, s, run[0]), run[1..], i)
  }

  /** Over any run, of either build: free, held and waited-for instances are the initial ones,
      those signalled by non-holders, less those lost with killed processes. */
  lemma {:induction false} RunsConserve(build: Build, names: seq<string>, s: State, run: seq<Event>, i: nat)
    requires Sound(s) && |names| == |s.resources| && Possible(build, names, s, run) && i < |s.resources|
    ensures Total(After(build, names, s, run), i)
         == Total(s, i) + Gifts(build, names, s, run, i) - Losses(build, names, s, run, i)
    decreases |run|
  {
    if run != [] {
      StepConserves(build, names, s, run[0], i);
      hide Total, Step, Enabled, Gift, Loss;
      RunsConserve(build, names, Step(build, names, s, run[0]), run[1..], i);
    }
  }

  // ------------------------------------------------- the counter and the queue

  /** A negative counter says how many processes wait. */
  predicate Exact(r: Resource) {
    |r.blocked| == if r.instances < 0 then -r.instances else 0
  }

  predicate AllExact(s: State) {
    forall i :: 0 <= i < |s.resources| ==> Exact(s.resources[i])
  }

  /** Nobody waits while an instance is free. */
  predicate Orderly(r: Resource) {
    r.blocked != [] ==> |r.blocked| <= -r.instances
  }

  predicate AllOrderly(s: State) {
    forall i :: 0 <= i < |s.resources| ==> Orderly(s.resources[i])
  }

  lemma {:induction false} ReleaseAllKeeps(s: State, list: seq<nat>)
    requires Sound(s) && AllBelow(list, |s.resources|)
    ensures AllExact(s) ==> AllExact(ReleaseAll(s, list))
    ensures AllOrderly(s) ==> AllOrderly(ReleaseAll(s, list))
    decreases |list|
  {
    if list != [] {
      ReleaseKeepsSound(s, list[0]);
      ReleaseAllKeeps(Release(s, list[0]), list[1..]);
    }
  }

  /** One step keeps the counter exact, unless it is a kill as written, which always breaks it. */
  lemma {:induction false} StepExactIff(build: Build, names: seq<string>, s: State, e: Event)
    requires Sound(s) && |names| == |s.resources| && Enabled(s, e) && AllExact(s)
    ensures AllExact(Step(build, names, s, e)) <==> !(build.AsWritten? && e.Kill?)
  {
    match e
    case Exit(pid) =>
      ReleaseAllKeeps(s, s.held[pid]);
    case Kill(pid) =>
      var i := QueueOf(s.resources, pid);
      assert Exact(s.resources[i]);
      assert Step(build, names, s, e).resources[i] == Unblocked(build, s.resources[i], pid);
    case Wait(pid, name) =>
    case Signal(pid, name) =>
  }

  lemma {:induction false} StepOrderly(build: Build, names: seq<string>, s: State, e: Event)
    requires Sound(s) && |names| == |s.resources| && Enabled(s, e) && AllOrderly(s)
    ensures AllOrderly(Step(build, names, s, e))
  {
    if e.Exit? {
      ReleaseAllKeeps(s, s.held[e.pid]);
    }
  }

  /** Over any run, of either build, nobody waits while an instance is free; and without kills
      as written the counter is exact at every moment. */
  lemma {:induction false} RunsStayOrderly(build: Build, names: seq<string>, s: State, run: seq<Event>)
    requires Sound(s) && |names| == |s.resources| && Possible(build, names, s, run)
    ensures AllOrderly(s) ==> AllOrderly(After(build, names, s, run))
    ensures AllExact(s) && (build.Repaired? || forall e :: e in run ==> !e.Kill?) ==>
            AllExact(After(build, names, s, run))
    decreases |run|
  {
    if run != [] {
      if AllOrderly(s) {
        StepOrderly(build, names, s, run[0]);
      }
      if AllExact(s) {
        StepExactIff(build, names, s, run[0]);
      }
      hide Step, Enabled, AllExact, AllOrderly;
      RunsStayOrderly(build, names, Step(build, names, s, run[0]), run[1..]);
    }
  }

  // ------------------------------------------------------ the order of grants

  /** What happens to one resource: a process asks for it, or an instance comes back. */
  datatype Act = Asking(pid: nat) | Freeing

  function Acted(r: Resource, a: Act): Resource {
    var n := if a.Asking? then r.instances - 1 else r.instances + 1;
    if a.Asking? then Resource(n, if n < 0 then r.blocked + [a.pid] else r.blocked)
    else Resource(n, if n <= 0 && r.blocked != [] then r.blocked[1..] else r.blocked)
  }

  function AfterActs(r: Resource, acts: seq<Act>): Resource
    decreases |acts|
  {
    if acts == [] then r else AfterActs(Acted(r, acts[0]), acts[1..])
  }

  /** The processes granted the resource out of its queue, in order. */
  function Granted(r: Resource, acts: seq<Act>): seq<nat>
    decreases |acts|
  {
    if acts == [] then []
    else (if acts[0].Freeing? && r.instances < 0 && r.blocked != [] then [r.blocked[0]] else [])
         + Granted(Acted(r, acts[0]), acts[1..])
  }

  function Frees(acts: seq<Act>): nat {
    if acts == [] then 0 else (if acts[0].Freeing? then 1 else 0) + Frees(acts[1..])
  }

  lemma {:induction false} OneAct(r: Resource, a: Act)
    requires Exact(r) && r.blocked != []
    ensures r.instances < 0 && Exact(Acted(r, a))
    ensures Acted(r, a).blocked == if a.Asking? then r.blocked + [a.pid] else r.blocked[1..]
  {
  }

  /** The process at position k of the queue still waits after k releases, k places further on,
      and has been granted the resource, as the k-th from now, after one more. */
  lemma {:induction false} GrantedInTurn(r: Resource, acts: seq<Act>, k: nat)
    requires Exact(r) && k < |r.blocked|
    ensures Frees(acts) <= k ==>
      var j := k - Frees(acts);
      j < |AfterActs(r, acts).blocked| && AfterActs(r, acts).blocked[j] == r.blocked[k] && |Granted(r, acts)| <= k
    ensures Frees(acts) > k ==> |Granted(r, acts)| > k && Granted(r, acts)[k] == r.blocked[k]
    decreases |acts|
  {
    if acts != [] {
      OneAct(r, acts[0]);
      hide Acted, Exact;
      if acts[0].Asking? {
        GrantedInTurn(Acted(r, acts[0]), acts[1..], k);
      } else if k > 0 {
        GrantedInTurn(Acted(r, acts[0]), acts[1..], k - 1);
      }
    }
  }

  /** What an event other than a kill does to resource j. */
  function ActsOf(names: seq<string>, s: State, e: Event, j: nat): seq<Act>
    requires e.pid < |s.held|
  {
    match e
    case Wait(pid, name) => if Find(names, name) == j then [Asking(pid)] else []
    case Signal(_, name) => if Find(names, name) == j then [Freeing] else []
    case Exit(pid) => seq(Times(s.held[pid], j), _ => Freeing)
    case Kill(_) => []
  }

  lemma {:induction false} ReleaseAllIsActs(s: State, list: seq<nat>, j: nat)
    requires Sound(s) && AllBelow(list, |s.resources|) && j < |s.resources|
    ensures ReleaseAll(s, list).resources[j] == AfterActs(s.resources[j], seq(Times(list, j), _ => Freeing))
    decreases |list|
  {
    if list != [] {
      var s' := Release(s, list[0]);
      ReleaseKeepsSound(s, list[0]);
      ReleaseAllIsActs(s', list[1..], j);
      var acts, rest := seq(Times(list, j), _ => Freeing), seq(Times(list[1..], j), _ => Freeing);
      if list[0] == j {
        assert acts[1..] == rest;
        assert s'.resources[j] == Acted(s.resources[j], Freeing);
      }
    }
  }

  lemma {:induction false} StepIsActs(build: Build, names: seq<string>, s: State, e: Event, j: nat)
    requires Sound(s) && |names| == |s.resources| && Enabled(s, e) && j < |s.resources| && !e.Kill?
    ensures Step(build, names, s, e).resources[j] == AfterActs(s.resources[j], ActsOf(names, s, e, j))
  {
    match e
    case Exit(pid) => ReleaseAllIsActs(s, s.held[pid], j);
    case Wait(pid, name) => assert [Asking(pid)][1..] == [];
    case Signal(pid, name) => assert [Freeing][1..] == [];
  }

  function ActsOfRun(build: Build, names: seq<string>, s: State, run: seq<Event>, j: nat): seq<Act>
    requires Sound(s) && |names| == |s.resources| && Possible(build, names, s, run)
    decreases |run|
  {
    if run == [] then []
    else ActsOf(names, s, run[0], j) + ActsOfRun(build, names, Step(build, names, s, run[0]), run[1..], j)
  }

  lemma {:induction false} ActsConcat(r: Resource, a: seq<Act>, b: seq<Act>)
    ensures AfterActs(r, a + b) == AfterActs(AfterActs(r, a), b)
    decreases |a|
  {
    if a == [] {
      assert a + b == b;
    } else {
      assert (a + b)[1..] == a[1..] + b;
      ActsConcat(Acted(r, a[0]), a[1..], b);
    }
  }

  lemma {:induction false} RunIsActs(build: Build, names: seq<string>, s: State, run: seq<Event>, j: nat)
    requires Sound(s) && |names| == |s.resources| && Possible(build, names, s, run) && j < |s.resources|
    requires forall e :: e in run ==> !e.Kill?
    ensures After(build, names, s, run).resources[j] == AfterActs(s.resources[j], ActsOfRun(build, names, s, run, j))
    decreases |run|
  {
    if run != [] {
      StepIsActs(build, names, s, run[0], j);
      var s' := Step(build, names, s, run[0]);
      ActsConcat(s.resources[j], ActsOf(names, s, run[0], j), ActsOfRun(build, names, s', run[1..], j));
      hide Step, ActsOf, AfterActs, Enabled;
      RunIsActs(build, names, s', run[1..], j);
    }
  }

  lemma {:induction false} GrantedConcat(r: Resource, a: seq<Act>, b: seq<Act>)
    ensures Granted(r, a + b) == Granted(r, a) + Granted(AfterActs(r, a), b)
    decreases |a|
  {
    if a == [] {
      assert a + b == b;
    } else {
      assert (a + b)[1..] == a[1..] + b;
      GrantedConcat(Acted(r, a[0]), a[1..], b);
    }
  }

  lemma {:induction false} ReleaseAllReadies(s: State, list: seq<nat>, j: nat)
    requires Sound(s) && AllBelow(list, |s.resources|) && j < |s.resources|
    ensures s.ready <= ReleaseAll(s, list).ready
    ensures AllIn(Granted(s.resources[j], seq(Times(list, j), _ => Freeing)), ReleaseAll(s, list).ready)
    decreases |list|
  {
    if list != [] {
      var s' := Release(s, list[0]);
      ReleaseKeepsSound(s, list[0]);
      ReleaseAllReadies(s', list[1..], j);
      var acts, rest := seq(Times(list, j), _ => Freeing), seq(Times(list[1..], j), _ => Freeing);
      if list[0] == j {
        assert acts[1..] == rest;
        assert forall p :: p in s'.ready ==> p in ReleaseAll(s, list).ready;
        assert s'.resources[j] == Acted(s.resources[j], Freeing);
      }
    }
  }

  lemma {:induction false} StepReadies(build: Build, names: seq<string>, s: State, e: Event, j: nat)
    requires Sound(s) && |names| == |s.resources| && Enabled(s, e) && j < |s.resources|
    ensures s.ready <= Step(build, names, s, e).ready
    ensures AllIn(Granted(s.resources[j], ActsOf(names, s, e, j)), Step(build, names, s, e).ready)
  {
    match e
    case Exit(pid) => ReleaseAllReadies(s, s.held[pid], j);
    case Wait(pid, name) => assert [Asking(pid)][1..] == [];
    case Signal(pid, name) => assert [Freeing][1..] == [];
    case Kill(_) =>
  }

  lemma {:induction false} RunReadies(build: Build, names: seq<string>, s: State, run: seq<Event>, j: nat)
    requires Sound(s) && |names| == |s.resources| && Possible(build, names, s, run) && j < |s.resources|
    requires forall e :: e in run ==> !e.Kill?
    ensures s.ready <= After(build, names, s, run).ready
    ensures AllIn(Granted(s.resources[j], ActsOfRun(build, names, s, run, j)), After(build, names, s, run).ready)
    decreases |run|
  {
    if run != [] {
      var s' := Step(build, names, s, run[0]);
      StepIsActs(build, names, s, run[0], j);
      StepReadies(build, names, s, run[0], j);
      GrantedConcat(s.resources[j], ActsOf(names, s, run[0], j), ActsOfRun(build, names, s', run[1..], j));
      hide Step, ActsOf, AfterActs, Enabled, Granted;
      RunReadies(build, names, s', run[1..], j);
      assert forall p :: p in s'.ready ==> p in After(build, names, s, run).ready;
    }
  }

  /** So in any run without kills the process k places from the front of resource j's queue waits
      through exactly k releases of it, and no longer: the next one sends it to a ready queue. */
  lemma {:induction false} WaitsItsTurn(build: Build, names: seq<string>, s: State, run: seq<Event>, j: nat, k: nat)
    requires Sound(s) && |names| == |s.resources| && Possible(build, names, s, run) && j < |s.resources|
    requires (forall e :: e in run ==> !e.Kill?) && AllExact(s) && k < |s.resources[j].blocked|
    ensures var acts, pid := ActsOfRun(build, names, s, run, j), s.resources[j].blocked[k];
            var s', granted := After(build, names, s, run), Granted(s.resources[j], acts);
            if Frees(acts) <= k
            then k - Frees(acts) < |s'.resources[j].blocked| && s'.resources[j].blocked[k - Frees(acts)] == pid &&
                |granted| <= k
            else k < |granted| && granted[k] == pid && pid in s'.ready
  {
    hide *;
    ExactAt(s, j);
    RunIsActs(build, names, s, run, j);
    RunReadies(build, names, s, run, j);
    Turn(s.resources[j], ActsOfRun(build, names, s, run, j), After(build, names, s, run).ready, k);
  }

  lemma {:induction false} ExactAt(s: State, j: nat)
    requires AllExact(s) && j < |s.resources|
    ensures Exact(s.resources[j])
  {
  }

  lemma {:induction false} Turn(r: Resource, acts: seq<Act>, ready: seq<nat>, k: nat)
    requires Exact(r) && k < |r.blocked| && AllIn(Granted(r, acts), ready)
    ensures Frees(acts) <= k ==>
      var j := k - Frees(acts);
      j < |AfterActs(r, acts).blocked| && AfterActs(r, acts).blocked[j] == r.blocked[k] && |Granted(r, acts)| <= k
    ensures Frees(acts) > k ==> |Granted(r, acts)| > k && Granted(r, acts)[k] == r.blocked[k] && r.blocked[k] in ready
  {
    GrantedInTurn(r, acts, k);
  }

  // ---------------------------------------------------------- the operations

  class ResourceManager {
    const build: Build
    const names: seq<string>
    var resources: seq<Resource>
    var held: seq<seq<nat>>
    var ready: seq<nat>

    ghost function Value(): State
      reads this
    {
      State(resources, held, ready)
    }

    ghost predicate Valid()
      reads this
    {
      Sound(Value()) && |names| == |resources|
    }

    constructor (build: Build, names: seq<string>, instances: seq<nat>)
      requires |names| == |instances|
      ensures Valid() && AllExact(Value()) && held == [] && |resources| == |instances|
      ensures forall i :: 0 <= i < |instances| ==> Total(Value(), i) == instances[i]
    {
      this.build, this.names := build, names;
      resources := seq(|instances|, i requires 0 <= i < |instances| => Resource(instances[i], []));
      held, ready := [], [];
    }

    method FindResource(name: string) returns (i: int)
      requires Valid()
      ensures i == Find(names, name)
    {
      i := 0;
      while i < |names|
        invariant 0 <= i <= |names|
        invariant Find(names, name) == if Find(names[i..], name) == -1 then -1 else i + Find(names[i..], name)
      {
        if names[i] == name {
          return;
        }
        assert names[i..][1..] == names[i + 1..];
        i := i + 1;
      }
      i := -1;
    }

    /** WAIT. An unknown name ends the process, which gives back nothing here. */
    method Wait(pid: nat, name: string) returns (known: bool)
      requires Valid() && Enabled(Value(), Event.Wait(pid, name))
      modifies this
      ensures Valid() && known == (Find(names, name) != -1)
      ensures Value() == Step(build, names, old(Value()), Event.Wait(pid, name))
      ensures var i := Find(names, name); known && old(resources)[i].instances > 0 ==>
        ready == old(ready) + [pid] && held[pid] == old(held)[pid] + [i] &&
            resources[i].blocked == old(resources)[i].blocked
      ensures var i := Find(names, name); known && old(resources)[i].instances <= 0 ==>
        resources[i].blocked == old(resources)[i].blocked + [pid] && ready == old(ready) && held == old(held)
    {
      var i := FindResource(name);
      known := i != -1;
      if known {
        resources := resources[i := resources[i].(instances := resources[i].instances - 1)];
        if resources[i].instances < 0 {
          resources := resources[i := resources[i].(blocked := resources[i].blocked + [pid])];
        } else {
          held := Give(held, pid, i);
          ready := ready + [pid];
        }
      }
    }

    /** Gives one instance back, to the first process in the queue if there is one. */
    method Free(i: nat)
      requires Valid() && i < |resources|
      modifies this`resources, this`held, this`ready
      ensures Valid() && Value() == Release(old(Value()), i)
      ensures var r := old(resources)[i];
              if r.instances < 0 && r.blocked != [] then
                && resources == old(resources)[i := Resource(r.instances + 1, r.blocked[1..])]
                && held == old(held)[r.blocked[0] := old(held)[r.blocked[0]] + [i]] &&
                    ready == old(ready) + [r.blocked[0]]
              else
                resources == old(resources)[i := Resource(r.instances + 1, r.blocked)] && held == old(held) &&
                    ready == old(ready)
    {
      ReleaseKeepsSound(Value(), i);
      resources := resources[i := resources[i].(instances := resources[i].instances + 1)];
      if resources[i].instances <= 0 && resources[i].blocked != [] {
        var pid := resources[i].blocked[0];
        resources := resources[i := resources[i].(blocked := resources[i].blocked[1..])];
        held := Give(held, pid, i);
        ready := ready + [pid];
      }
    }

    method Signal(pid: nat, name: string) returns (known: bool)
      requires Valid() && Enabled(Value(), Event.Signal(pid, name))
      modifies this
      ensures Valid() && known == (Find(names, name) != -1)
      ensures Value() == Step(build, names, old(Value()), Event.Signal(pid, name))
      ensures known ==>
        var r := old(resources)[Find(names, name)];
        ready == old(ready) + (if r.instances < 0 && r.blocked != [] then [r.blocked[0]] else []) + [pid]
    {
      var i := FindResource(name);
      known := i != -1;
      if known {
        TakingKeepsSound(Value(), pid, i);
        held := held[pid := TakenOut(held[pid], i)];
        Free(i);
        ready := ready + [pid];
      }
    }

    /** The end of a process: what it holds goes back, in the order in which it was granted. */
    method Reap(pid: nat)
      requires Valid() && Enabled(Value(), Event.Exit(pid))
      modifies this
      ensures Valid() && Value() == Step(build, names, old(Value()), Event.Exit(pid))
    {
      var list := held[pid];
      ghost var s := Value();
      var k := 0;
      assert list[0..] == list;
      while k < |list|
        invariant Valid() && k <= |list| && |resources| == |s.resources| && |held| == |s.held|
        invariant ReleaseAll(Value(), list[k..]) == ReleaseAll(s, list)
      {
        assert list[k..][1..] == list[k + 1..];
        ReleaseKeepsSound(Value(), list[k]);
        Free(list[k]);
        k := k + 1;
      }
      held := held[pid := []];
    }

    /** Takes a process out of the queue it waits in. */
    method KillBlocked(pid: nat)
      requires Valid() && Enabled(Value(), Event.Kill(pid))
      modifies this`resources
      ensures Valid() && Value() == Step(build, names, old(Value()), Event.Kill(pid))
    {
      var i := 0;
      while pid !in resources[i].blocked
        invariant i <= QueueOf(resources, pid) < |resources|
        decreases |resources| - i
      {
        i := i + 1;
      }
      UnblockingKeepsSound(build, Value(), pid, i);
      resources := resources[i := Unblocked(build, resources[i], pid)];
    }

    /** A new process holds nothing. */
    method Enter() returns (pid: nat)
      requires Valid()
      modifies this`held
      ensures Valid() && pid == old(|held|) && held == old(held) + [[]]
      ensures forall i :: 0 <= i < |resources| ==> Total(Value(), i) == old(Total(Value(), i))
    {
      pid := |held|;
      forall i | 0 <= i < |resources| ensures Holding(held + [[]], i) == Holding(held, i) {
        HoldingEnter(held, i);
      }
      held := held + [[]];
    }
  }
}
