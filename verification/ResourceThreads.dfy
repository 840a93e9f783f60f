/** The two threads that use a resource, the dispatcher and the burier, with any number of
    operations one after the other in each, in any interleaving of their steps. */
module ResourceThreads {
  import opened Queues
  import opened Resources
  import opened ResourceRaces

  /** The first thread of the race is the dispatcher, the second the burier, which only gives
      back. `idle` counts the instances nobody holds: given back or there from the start, and not
      granted since. Below zero, more are granted than there are. */
  datatype Desk = Desk(race: Race, idle: int)

  datatype Move = Ask(pid: nat) | Return(first: bool) | GoOn(first: bool)

  function Hand(s: Desk, first: bool): Thread {
    if first then s.race.first else s.race.second
  }

  /** A thread begins an operation when it has ended the one before. */
  predicate Can(s: Desk, m: Move) {
    match m
    case Ask(_) => s.race.first.pc == 3
    case Return(first) => Hand(s, first).pc == 3
    case GoOn(first) => Hand(s, first).pc in {1, 2}
  }

  /** What a step adds to the idle instances. */
  function Given(r: Resource, t: Thread): int {
    if t.Releasing? && t.pc == 0 then 1
    else if t.Waiting? && t.pc == 1 && r.instances >= 0 then -1
    else if t.Releasing? && t.pc == 2 && t.sure && r.blocked != [] then -1
    else 0
  }

  function GoesOn(s: Desk, first: bool): Desk {
    Desk(Next(s.race, first), s.idle + Given(s.race.r, Hand(s, first)))
  }

  function Done(s: Desk, m: Move): Desk
    requires Can(s, m)
  {
    match m
    case Ask(pid) => GoesOn(s.(race := s.race.(first := Waiting(pid, 0, false))), true)
    case Return(true) => GoesOn(s.(race := s.race.(first := Releasing(0, false))), true)
    case Return(false) => GoesOn(s.(race := s.race.(second := Releasing(0, false))), false)
    case GoOn(first) => GoesOn(s, first)
  }

  predicate CanAll(s: Desk, run: seq<Move>)
    decreases |run|
  {
    run == [] || (Can(s, run[0]) && CanAll(Done(s, run[0]), run[1..]))
  }

  function DoneAll(s: Desk, run: seq<Move>): Desk
    requires CanAll(s, run)
    decreases |run|
  {
    if run == [] then s else DoneAll(Done(s, run[0]), run[1..])
  }

  predicate AtRest(s: Desk) {
    s.race.first.pc == 3 && s.race.second.pc == 3
  }

  // ------------------------------------------------------------ conservation

  /** Who has moved the counter down and not yet joined the queue or been granted. */
  predicate Pending(t: Thread) {
    t.Waiting? && (t.pc == 1 || (t.pc == 2 && t.sure))
  }

  /** The counter, with those who wait, says how many instances are idle. */
  predicate Conserved(s: Desk) {
    && s.race.second.Releasing? && s.race.first.pc <= 3 && s.race.second.pc <= 3
    && s.race.r.instances + |s.race.r.blocked| + Bit(Pending(s.race.first)) == s.idle
  }

  lemma {:induction false} DoneConserves(s: Desk, m: Move)
    requires Conserved(s) && Can(s, m)
    ensures Conserved(Done(s, m))
  {
  }

  /** However the threads overlap, no instance is lost from the accounts or counted twice. */
  lemma {:induction false} RunsConserveIdle(s: Desk, run: seq<Move>)
    requires Conserved(s) && CanAll(s, run)
    ensures Conserved(DoneAll(s, run))
    decreases |run|
  {
    hide Conserved, Can, Done;
    if run != [] {
      DoneConserves(s, run[0]);
      RunsConserveIdle(Done(s, run[0]), run[1..]);
    }
  }

  // ------------------------------------------------------------ faulty tests

  /** Has given an instance back and not yet looked for a waiter. */
  predicate Returns(t: Thread) {
    t.Releasing? && t.pc == 1
  }

  /** Has decided to hand an instance to the first waiter. */
  predicate Hands(t: Thread) {
    t.Releasing? && t.pc == 2 && t.sure
  }

  function Both(s: Desk, p: Thread -> bool): nat {
    Bit(p(s.race.first)) + Bit(p(s.race.second))
  }

  /** Processes that wait, or are about to, and that no thread is going to serve. */
  function Unserved(s: Desk): int {
    |s.race.r.blocked| + Bit(Pending(s.race.first) && s.race.first.pc == 2) - Both(s, Hands)
  }

  /** No instance is promised that is not there, and nobody is left waiting while one is idle
      that is not on its way through a thread's hands. */
  predicate InOrder(s: Desk) {
    && Conserved(s)
    && Both(s, Hands) <= |s.race.r.blocked|
    && Both(s, Hands) <= s.idle
    && (Unserved(s) > 0 ==> s.idle <= Both(s, Hands) + Both(s, Returns))
  }

  /** The test by which a release decides whether to serve a waiter. */
  predicate Serves(r: Resource) {
    r.instances <= 0 && r.blocked != []
  }

  predicate Decides(s: Desk, m: Move) {
    m.GoOn? && Returns(Hand(s, m.first))
  }

  /** It serves one although the instance it gave back has been granted meanwhile. */
  predicate Overdraws(s: Desk, m: Move) {
    Decides(s, m) && Serves(s.race.r) && s.idle == Both(s, Hands)
  }

  /** It serves nobody although somebody waits for whom there is an instance. */
  predicate PassesOver(s: Desk, m: Move) {
    Decides(s, m) && !Serves(s.race.r) && Unserved(s) > 0 && s.idle == Both(s, Hands) + Both(s, Returns)
  }

  lemma {:induction false} InOrderIff(s: Desk, m: Move)
    requires InOrder(s) && Can(s, m)
    ensures InOrder(Done(s, m)) <==> !Overdraws(s, m) && !PassesOver(s, m)
  {
  }

  predicate Throughout(s: Desk, run: seq<Move>)
    requires CanAll(s, run)
    decreases |run|
  {
    InOrder(s) && (run != [] ==> Throughout(Done(s, run[0]), run[1..]))
  }

  predicate Faultless(s: Desk, run: seq<Move>)
    requires CanAll(s, run)
    decreases |run|
  {
    run != [] ==>
      !Overdraws(s, run[0]) && !PassesOver(s, run[0]) && Faultless(Done(s, run[0]), run[1..])
  }

  /** Whatever the threads do, the resource is in order at every moment exactly when no release
      decides wrongly; a WAIT never does. */
  lemma {:induction false} InOrderThroughoutIff(s: Desk, run: seq<Move>)
    requires InOrder(s) && CanAll(s, run)
    ensures Throughout(s, run) <==> Faultless(s, run)
    decreases |run|
  {
    hide InOrder, Can, Done, Overdraws, PassesOver;
    if run != [] {
      InOrderIff(s, run[0]);
      if InOrder(Done(s, run[0])) {
        InOrderThroughoutIff(Done(s, run[0]), run[1..]);
      }
    }
  }

  /** Between operations that means that the counter is exact. */
  lemma {:induction false} AtRestIff(s: Desk)
    requires Conserved(s) && AtRest(s)
    ensures InOrder(s) <==> Exact(s.race.r)
  {
  }

  /** In order, an instance is never granted twice, and nobody is popped from an empty queue. */
  lemma {:induction false} InOrderIsSafe(s: Desk, first: bool)
    requires InOrder(s)
    ensures s.idle >= 0 && (Hands(Hand(s, first)) ==> s.race.r.blocked != [])
  {
  }

  /** From an exact resource, any number of operations without a fault ends in one. */
  lemma {:induction false} FaultlessRunsAreExact(s: Desk, run: seq<Move>)
    requires Conserved(s) && AtRest(s) && Exact(s.race.r) && CanAll(s, run) && Faultless(s, run)
    ensures Conserved(DoneAll(s, run)) && (AtRest(DoneAll(s, run)) ==> Exact(DoneAll(s, run).race.r))
  {
    hide Conserved, AtRest, Exact, InOrder, Can, Done, Overdraws, PassesOver;
    AtRestIff(s);
    InOrderThroughoutIff(s, run);
    EndsInOrder(s, run);
    InOrderConserves(DoneAll(s, run));
    if AtRest(DoneAll(s, run)) {
      AtRestIff(DoneAll(s, run));
    }
  }

  lemma {:induction false} InOrderConserves(s: Desk)
    requires InOrder(s)
    ensures Conserved(s)
  {
  }

  lemma {:induction false} EndsInOrder(s: Desk, run: seq<Move>)
    requires CanAll(s, run) && Throughout(s, run)
    ensures InOrder(DoneAll(s, run))
    decreases |run|
  {
    hide InOrder, Can, Done;
    if run != [] {
      EndsInOrder(Done(s, run[0]), run[1..]);
    }
  }

  // ---------------------------------------------------------- what a fault does

  predicate Leads(s0: Desk, run: seq<Move>, s: Desk) {
    CanAll(s0, run) && DoneAll(s0, run) == s
  }

  lemma {:induction false} LeadsOn(s0: Desk, run: seq<Move>, s: Desk, m: Move) returns (run': seq<Move>, s': Desk)
    requires Leads(s0, run, s) && Can(s, m)
    ensures run' == run + [m] && s' == Done(s, m) && Leads(s0, run', s')
    decreases |run|
  {
    hide Can, Done;
    run', s' := run + [m], Done(s, m);
    if run == [] {
      assert run + [m] == [m] && [m][1..] == [];
      NothingDone(s');
    } else {
      assert (run + [m])[1..] == run[1..] + [m];
      var more, last := LeadsOn(Done(s0, run[0]), run[1..], s, m);
    }
  }

  function AllOut(): Desk {
    Desk(Race(Resource(0, []), Releasing(3, false), Releasing(3, false)), 0)
  }

  /** With every instance out, the burier gives one back, the dispatcher grants it to p and makes
      q wait, all before the burier looks for a waiter. */
  lemma {:induction false} Interposed(p: nat, q: nat) returns (run: seq<Move>, s: Desk)
    ensures Leads(AllOut(), run, s) && s.idle == 0 && s.race.r == Resource(-1, [q])
    ensures s.race.first.pc == 3 && s.race.second == Releasing(1, false)
  {
    hide Leads;
    run, s := [], AllOut();
    assert Leads(AllOut(), [], AllOut()) by {
      NothingDone(AllOut());
    }
    run, s := LeadsOn(AllOut(), run, s, Return(false));
    run, s := LeadsOn(AllOut(), run, s, Ask(p));
    run, s := LeadsOn(AllOut(), run, s, GoOn(true));
    run, s := LeadsOn(AllOut(), run, s, GoOn(true));
    run, s := LeadsOn(AllOut(), run, s, Ask(q));
    run, s := LeadsOn(AllOut(), run, s, GoOn(true));
    run, s := LeadsOn(AllOut(), run, s, GoOn(true));
  }

  lemma {:induction false} NothingDone(s: Desk)
    ensures Leads(s, [], s)
  {
  }

  /** Then it grants q the instance that p holds: one more than there are. */
  lemma {:induction false} GrantsTwice(p: nat, q: nat) returns (run: seq<Move>, s: Desk)
    ensures Leads(AllOut(), run, s) && AtRest(s) && s.idle == -1
  {
    hide Leads;
    run, s := Interposed(p, q);
    run, s := LeadsOn(AllOut(), run, s, GoOn(false));
    run, s := LeadsOn(AllOut(), run, s, GoOn(false));
  }

  /** Or both threads set out to serve q, and the second pops an empty queue. */
  lemma {:induction false} ServesTwice(p: nat, q: nat) returns (run: seq<Move>, s: Desk)
    ensures Leads(AllOut(), run, s) && Hands(s.race.first) && s.race.r.blocked == []
  {
    hide Leads;
    run, s := Interposed(p, q);
    run, s := LeadsOn(AllOut(), run, s, Return(true));
    run, s := LeadsOn(AllOut(), run, s, GoOn(false));
    run, s := LeadsOn(AllOut(), run, s, GoOn(true));
    run, s := LeadsOn(AllOut(), run, s, GoOn(false));
  }

  // ------------------------------------------------------- one at a time

  /** No move is made while the other thread is inside an operation. */
  predicate Alone(s: Desk, m: Move) {
    Hand(s, !(m.Ask? || m.first)).pc == 3
  }

  predicate OneAtATime(s: Desk, run: seq<Move>)
    requires CanAll(s, run)
    decreases |run|
  {
    run != [] ==> Alone(s, run[0]) && OneAtATime(Done(s, run[0]), run[1..])
  }

  /** The resource once the operation under way is over. */
  function Settled(s: Desk): Resource {
    var t, r := if s.race.first.pc == 3 then s.race.second else s.race.first, s.race.r;
    if t.pc == 1 then
      Resource(r.instances, if t.Waiting? then (if r.instances < 0 then r.blocked + [t.pid] else r.blocked)
                            else if Serves(r) then r.blocked[1..] else r.blocked)
    else if t.pc == 2 && t.sure then
      Resource(r.instances, if t.Waiting? then r.blocked + [t.pid] else if r.blocked == [] then [] else r.blocked[1..])
    else r
  }

  predicate Lonely(s: Desk) {
    && InOrder(s) && (s.race.first.pc == 3 || s.race.second.pc == 3) && s.race.first.pc > 0 && s.race.second.pc > 0
    && s.idle >= Both(s, Hands) + Both(s, Returns)
  }

  function ActsIn(run: seq<Move>): seq<Act> {
    if run == [] then []
    else (match run[0] case Ask(pid) => [Asking(pid)] case Return(_) => [Freeing] case GoOn(_) => []) + ActsIn(run[1..])
  }

  lemma {:induction false} LonelyStep(s: Desk, m: Move)
    requires Lonely(s) && Can(s, m) && Alone(s, m)
    ensures Lonely(Done(s, m)) && !Overdraws(s, m) && !PassesOver(s, m)
    ensures Settled(Done(s, m)) ==
      match m
      case Ask(pid) => Acted(Settled(s), Asking(pid))
      case Return(_) => Acted(Settled(s), Freeing)
      case GoOn(_) => Settled(s)
  {
  }

  lemma {:induction false} LonelyRun(s: Desk, run: seq<Move>)
    requires Lonely(s) && CanAll(s, run) && OneAtATime(s, run)
    ensures Faultless(s, run) && Settled(DoneAll(s, run)) == AfterActs(Settled(s), ActsIn(run))
    decreases |run|
  {
    hide Lonely, Can, Done, Alone, Overdraws, PassesOver, Settled, Acted;
    if run != [] {
      LonelyStep(s, run[0]);
      LonelyRun(Done(s, run[0]), run[1..]);
      ActsFollow(run, Settled(s));
    }
  }

  lemma {:induction false} ActsFollow(run: seq<Move>, r: Resource)
    requires run != []
    ensures AfterActs(r, ActsIn(run)) ==
      match run[0]
      case Ask(pid) => AfterActs(Acted(r, Asking(pid)), ActsIn(run[1..]))
      case Return(_) => AfterActs(Acted(r, Freeing), ActsIn(run[1..]))
      case GoOn(_) => AfterActs(r, ActsIn(run[1..]))
  {
    if run[0].GoOn? {
      assert ActsIn(run) == ActsIn(run[1..]);
    } else {
      assert ActsIn(run)[1..] == ActsIn(run[1..]);
    }
  }

  /** Operations that do not overlap are free of faults, and what they do to the resource is what
      the indivisible ones of Resources do. */
  lemma {:induction false} OneAtATimeIsAtomic(s: Desk, run: seq<Move>)
    requires Conserved(s) && AtRest(s) && Exact(s.race.r) && CanAll(s, run) && OneAtATime(s, run)
    ensures Faultless(s, run)
    ensures AtRest(DoneAll(s, run)) ==> DoneAll(s, run).race.r == AfterActs(s.race.r, ActsIn(run))
  {
    assert Lonely(s);
    hide InOrder, Conserved, CanAll, DoneAll, AfterActs, ActsIn, Faultless, OneAtATime;
    LonelyRun(s, run);
  }
}
