/** Where each process stands with the kernel's resources: what it holds or waits for is its own
    doing alone, and whenever it comes back it is in a ready queue or in a resource's queue. */
module ResourceOwners {
  import opened Builds
  import opened Queues
  import opened Resources

  // -------------------------------------------------------- nobody goes missing

  /** How often a process stands in the queues of resources. */
  function Queued(resources: seq<Resource>, p: nat): nat {
    if resources == [] then 0 else Times(resources[0].blocked, p) + Queued(resources[1..], p)
  }

  lemma {:induction false} QueuedPut(resources: seq<Resource>, i: nat, r: Resource, p: nat)
    requires i < |resources|
    ensures Queued(resources[i := r], p) == Queued(resources, p) - Times(resources[i].blocked, p) + Times(r.blocked, p)
  {
    if i == 0 {
      assert resources[0 := r][1..] == resources[1..];
    } else {
      assert resources[i := r][1..] == resources[1..][i - 1 := r];
      QueuedPut(resources[1..], i - 1, r, p);
    }
  }

  /** How often it has been sent to a ready queue, or waits to be. */
  function Present(s: State, p: nat): nat {
    Times(s.ready, p) + Queued(s.resources, p)
  }

  lemma {:induction false} ReleaseKeepsPresent(s: State, i: nat, p: nat)
    requires Sound(s) && i < |s.resources|
    ensures Present(Release(s, i), p) == Present(s, p)
  {
    var blocked := s.resources[i].blocked;
    QueuedPut(s.resources, i, Release(s, i).resources[i], p);
    if blocked != [] {
      TimesAppend(s.ready, blocked[0], p);
    }
  }

  lemma {:induction false} ReleaseAllKeepsPresent(s: State, list: seq<nat>, p: nat)
    requires Sound(s) && AllBelow(list, |s.resources|)
    ensures Present(ReleaseAll(s, list), p) == Present(s, p)
    decreases |list|
  {
    if list != [] {
      ReleaseKeepsSound(s, list[0]);
      ReleaseKeepsPresent(s, list[0], p);
      hide Present, Release;
      ReleaseAllKeepsPresent(Release(s, list[0]), list[1..], p);
    }
  }

  /** A WAIT or a SIGNAL for a resource there is brings its process back. */
  predicate ComesBack(names: seq<string>, e: Event, p: nat) {
    (e.Wait? || e.Signal?) && e.pid == p && e.name in names
  }

  lemma {:induction false} StepKeepsPresent(build: Build, names: seq<string>, s: State, e: Event, p: nat)
    requires Sound(s) && |names| == |s.resources| && Enabled(s, e)
    ensures Present(Step(build, names, s, e), p) == Present(s, p) + Bit(ComesBack(names, e, p)) - Bit(e == Kill(p))
  {
    match e
    case Wait(pid, name) =>
      var i := Find(names, name);
      if i != -1 {
        QueuedPut(s.resources, i, Ask(s, pid, i).resources[i], p);
        TimesAppend(s.ready, pid, p);
        TimesAppend(s.resources[i].blocked, pid, p);
      }
    case Signal(pid, name) =>
      var i := Find(names, name);
      if i != -1 {
        TakingKeepsSound(s, pid, i);
        var s1 := s.(held := s.held[pid := TakenOut(s.held[pid], i)]);
        ReleaseKeepsPresent(s1, i, p);
        TimesAppend(Release(s1, i).ready, pid, p);
        hide Release;
      }
    case Exit(pid) =>
      ReleaseAllKeepsPresent(s, s.held[pid], p);
    case Kill(pid) =>
      var i := QueueOf(s.resources, pid);
      QueuedPut(s.resources, i, Unblocked(build, s.resources[i], pid), p);
      TimesTakenOut(s.resources[i].blocked, pid, p);
  }

  /** How often a process has come back in a run, and how often it has been killed while it waited. */
  function Returns(names: seq<string>, run: seq<Event>, p: nat): nat {
    if run == [] then 0 else Bit(ComesBack(names, run[0], p)) + Returns(names, run[1..], p)
  }

  function Kills(run: seq<Event>, p: nat): nat {
    if run == [] then 0 else Bit(run[0] == Kill(p)) + Kills(run[1..], p)
  }

  /** So over any run, of either build, no process that came back is missing or there twice: it has
      been sent to a ready queue once for every return, or still waits. */
  lemma {:induction false} NobodyIsLost(build: Build, names: seq<string>, s: State, run: seq<Event>, p: nat)
    requires Sound(s) && |names| == |s.resources| && Possible(build, names, s, run)
    ensures Present(After(build, names, s, run), p) == Present(s, p) + Returns(names, run, p) - Kills(run, p)
    decreases |run|
  {
    if run != [] {
      StepKeepsPresent(build, names, s, run[0], p);
      hide Present, Step, Enabled, ComesBack;
      NobodyIsLost(build, names, Step(build, names, s, run[0]), run[1..], p);
    }
  }

  /** Instances go back in the order of the list. */
  lemma {:induction false} ReleasesInOrder(s: State, a: seq<nat>, b: seq<nat>)
    requires Sound(s) && AllBelow(a, |s.resources|) && AllBelow(b, |s.resources|)
    ensures AllBelow(a + b, |s.resources|)
    ensures ReleaseAll(s, a + b) == ReleaseAll(ReleaseAll(s, a), b)
    ensures a != [] ==> ReleaseAll(s, [a[0]]) == Release(s, a[0])
    decreases |a|
  {
    if a == [] {
      assert a + b == b;
    } else {
      ReleaseKeepsSound(s, a[0]);
      assert (a + b)[1..] == a[1..] + b && [a[0]][1..] == [];
      hide Release;
      ReleasesInOrder(Release(s, a[0]), a[1..], b);
    }
  }

  // --------------------------------------------------------- to each its own

  /** The instances of resource i a process holds or waits for. */
  function Claims(s: State, p: nat, i: nat): nat
    requires p < |s.held| && i < |s.resources|
  {
    Times(s.held[p], i) + Times(s.resources[i].blocked, p)
  }

  lemma {:induction false} ReleaseKeepsClaims(s: State, j: nat, p: nat, i: nat)
    requires Sound(s) && j < |s.resources| && p < |s.held| && i < |s.resources|
    ensures Claims(Release(s, j), p, i) == Claims(s, p, i)
  {
    var blocked := s.resources[j].blocked;
    if blocked != [] {
      TimesAppend(s.held[blocked[0]], j, i);
    }
  }

  lemma {:induction false} ReleaseAllKeepsClaims(s: State, list: seq<nat>, p: nat, i: nat)
    requires Sound(s) && AllBelow(list, |s.resources|) && p < |s.held| && i < |s.resources|
    ensures Claims(ReleaseAll(s, list), p, i) == Claims(s, p, i)
    decreases |list|
  {
    if list != [] {
      ReleaseKeepsSound(s, list[0]);
      ReleaseKeepsClaims(s, list[0], p, i);
      hide Claims, Release;
      ReleaseAllKeepsClaims(Release(s, list[0]), list[1..], p, i);
    }
  }

  /** What a process's own event adds to its claims. */
  function Claimed(names: seq<string>, s: State, e: Event, i: nat): int
    requires e.pid < |s.held| && i < |s.resources|
  {
    match e
    case Wait(_, name) => if Find(names, name) == i then 1 else 0
    case Signal(pid, name) => if Find(names, name) == i && i in s.held[pid] then -1 else 0
    case Exit(pid) => 0 - Times(s.held[pid], i)
    case Kill(pid) => if QueueOf(s.resources, pid) == i then -1 else 0
  }

  /** Nobody else's event changes what a process holds or waits for, and its own only by one; at its
      end it holds nothing. */
  lemma {:induction false} StepClaims(build: Build, names: seq<string>, s: State, e: Event, p: nat, i: nat)
    requires Sound(s) && |names| == |s.resources| && Enabled(s, e) && p < |s.held| && i < |s.resources|
    ensures Claims(Step(build, names, s, e), p, i) == Claims(s, p, i) + if e.pid
            == p then Claimed(names, s, e, i) else 0
  {
    match e
    case Wait(pid, name) =>
      var j := Find(names, name);
      if j != -1 {
        TimesAppend(s.held[pid], j, i);
        TimesAppend(s.resources[j].blocked, pid, p);
      }
    case Signal(pid, name) =>
      var j := Find(names, name);
      if j != -1 {
        TakingKeepsSound(s, pid, j);
        TimesTakenOut(s.held[pid], j, i);
        ReleaseKeepsClaims(s.(held := s.held[pid := TakenOut(s.held[pid], j)]), j, p, i);
        hide Release;
      }
    case Exit(pid) =>
      ReleaseAllKeepsClaims(s, s.held[pid], p, i);
    case Kill(pid) =>
      var j := QueueOf(s.resources, pid);
      TimesTakenOut(s.resources[j].blocked, pid, p);
  }

  function ClaimedInAll(build: Build, names: seq<string>, s: State, run: seq<Event>, p: nat, i: nat): int
    requires Sound(s) && |names| == |s.resources| && Possible(build, names, s, run) && i < |s.resources|
    decreases |run|
  {
    if run == [] then 0
    else (if run[0].pid == p then Claimed(names, s, run[0], i) else 0)
         + ClaimedInAll(build, names, Step(build, names, s, run[0]), run[1..], p, i)
  }

  /** Over any run a process's claims follow from its own events alone. */
  lemma {:induction false} ClaimsAreOnesOwn(build: Build, names: seq<string>, s: State, run: seq<Event>, p: nat, i: nat)
    requires Sound(s) && |names| == |s.resources| && Possible(build, names, s, run) && p < |s.held| && i < |s.resources|
    ensures p < |After(build, names, s, run).held|
    ensures Claims(After(build, names, s, run), p, i) == Claims(s, p, i) + ClaimedInAll(build, names, s, run, p, i)
    ensures (forall e :: e in run ==> e.pid != p) ==> Claims(After(build, names, s, run), p, i) == Claims(s, p, i)
    decreases |run|
  {
    if run != [] {
      StepClaims(build, names, s, run[0], p, i);
      hide Claims, Step, Enabled, Claimed;
      ClaimsAreOnesOwn(build, names, Step(build, names, s, run[0]), run[1..], p, i);
    }
  }
}
