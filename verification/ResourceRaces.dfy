/** WAIT and release as two threads run them: the counter changes under the resource's mutex,
    but is tested again after the mutex has been given back. */
module ResourceRaces {
  import opened Queues
  import opened Resources

  /** A thread inside one operation, `pc` of its three steps done; `sure` is its test's outcome. */
  datatype Thread = Waiting(pid: nat, pc: nat, sure: bool) | Releasing(pc: nat, sure: bool)

  datatype Race = Race(r: Resource, first: Thread, second: Thread)

  /** The next step of a thread: move the counter, test it, act on the queue. */
  function Moved(r: Resource, t: Thread): (Resource, Thread) {
    var t' := t.(pc := t.pc + 1);
    if t.pc == 0 then (r.(instances := r.instances + (if t.Waiting? then -1 else 1)), t')
    else if t.pc == 1 then
      (r, t'.(sure := if t.Waiting? then r.instances < 0 else r.instances <= 0 && r.blocked != []))
    else if t.pc == 2 && t.sure then
      (r.(blocked := if t.Waiting? then r.blocked + [t.pid] else if r.blocked == [] then [] else r.blocked[1..]), t')
    else (r, t')
  }

  function Next(race: Race, first: bool): Race {
    if first then var (r, t) := Moved(race.r, race.first); Race(r, t, race.second)
    else var (r, t) := Moved(race.r, race.second); Race(r, race.first, t)
  }

  /** A schedule says, step by step, whether the first thread moves or the second. */
  function Raced(race: Race, s: seq<bool>): Race
    requires |s| == 6
  {
    var half := Next(Next(Next(race, s[0]), s[1]), s[2]);
    Next(Next(Next(half, s[3]), s[4]), s[5])
  }

  /** Each thread makes its three steps. */
  predicate Complete(s: seq<bool>) {
    |s| == 6 && Bit(s[0]) + Bit(s[1]) + Bit(s[2]) + Bit(s[3]) + Bit(s[4]) + Bit(s[5]) == 3
  }

  /** More processes wait than the counter says, so somebody waits even when it says none do. */
  predicate Stranded(r: Resource) {
    |r.blocked| > if r.instances < 0 then -r.instances else 0
  }

  /** A WAIT by one thread against a release by the other, which may be the end of a process:
      the resource is left exact, but for one family of schedules. With no instance free the
      waiter decides to wait, the other thread gives the instance back and finds the queue
      empty, and only then the waiter joins it. */
  lemma {:induction false} WaitAgainstRelease(r: Resource, pid: nat, schedule: seq<bool>)
    requires Exact(r) && Complete(schedule)
    ensures var r' := Raced(Race(r, Waiting(pid, 0, false), Releasing(0, false)), schedule).r;
            if r.instances == 0 && schedule[..4] == [true, true, false, false] then Stranded(r') else Exact(r')
  {
    hide Raced;
    if schedule[0] && schedule[1] {
      WaiterFirst(r, pid, schedule);
    } else if !schedule[0] && !schedule[1] {
      ReleaserFirst(r, pid, schedule);
    } else {
      SideBySide(r, pid, schedule);
    }
  }

  /** The waiter has tested the counter before the other thread starts. */
  lemma {:induction false} WaiterFirst(r: Resource, pid: nat, s: seq<bool>)
    requires Exact(r) && Complete(s) && s[0] && s[1]
    ensures var r' := Raced(Race(r, Waiting(pid, 0, false), Releasing(0, false)), s).r;
            if r.instances == 0 && !s[2] && !s[3] then Stranded(r') else Exact(r')
  {
  }

  lemma {:induction false} ReleaserFirst(r: Resource, pid: nat, s: seq<bool>)
    requires Exact(r) && Complete(s) && !s[0] && !s[1]
    ensures Exact(Raced(Race(r, Waiting(pid, 0, false), Releasing(0, false)), s).r)
  {
  }

  lemma {:induction false} SideBySide(r: Resource, pid: nat, s: seq<bool>)
    requires Exact(r) && Complete(s) && s[0] != s[1]
    ensures Exact(Raced(Race(r, Waiting(pid, 0, false), Releasing(0, false)), s).r)
  {
  }

  /** Two releases: it goes wrong exactly when one process waits and both counters move before
      both tests. */
  lemma {:induction false} ReleaseAgainstRelease(r: Resource, schedule: seq<bool>)
    requires Exact(r) && Complete(schedule)
    ensures var r' := Raced(Race(r, Releasing(0, false), Releasing(0, false)), schedule).r;
            if r.instances == -1 && schedule[0] != schedule[1] then Stranded(r') else Exact(r')
  {
  }

  /** That never changes again: in every later course of events somebody is in the queue,
      however many instances are free. */
  lemma {:induction false} StrandedForever(r: Resource, acts: seq<Act>)
    requires Stranded(r)
    ensures Stranded(AfterActs(r, acts)) && AfterActs(r, acts).blocked != []
    decreases |acts|
  {
    if acts != [] {
      StrandedForever(Acted(r, acts[0]), acts[1..]);
    }
  }
}
