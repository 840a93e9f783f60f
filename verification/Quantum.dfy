/** The virtual round robin's accounting: what is left of a process's quantum when it comes back
    before its end. */
module Quantum {

  /** A reading of the monotonic clock. */
  datatype Time = Time(sec: nat, nsec: nat)

  const NANOS_PER_SECOND := 1_000_000_000
  const NANOS_PER_MILLI := 1_000_000

  predicate Normal(t: Time) {
    t.nsec < NANOS_PER_SECOND
  }

  function Nanos(t: Time): nat {
    t.sec * NANOS_PER_SECOND + t.nsec
  }

  /** C's division, which rounds towards zero. */
  function TruncDiv(x: int, y: nat): int
    requires y > 0
  {
    if x >= 0 then x / y else -(-x / y)
  }

  /** Milliseconds between two readings, as the kernel computes them from the parts. */
  function Elapsed(from: Time, to: Time): int {
    (to.sec - from.sec) * 1000 + TruncDiv(to.nsec - from.nsec, NANOS_PER_MILLI)
  }

  /** It is never negative and less than a millisecond off: rounded down when the nanoseconds
      have grown, and up when they have wrapped. */
  lemma {:induction false} ElapsedIsClose(from: Time, to: Time)
    requires Normal(from) && Normal(to) && Nanos(from) <= Nanos(to)
    ensures Elapsed(from, to) >= 0
    ensures var off := Elapsed(from, to) * NANOS_PER_MILLI - (Nanos(to) - Nanos(from));
            if from.nsec <= to.nsec then -NANOS_PER_MILLI < off <= 0 else 0 <= off < NANOS_PER_MILLI
  {
  }

  function Charged(quantum: int, from: Time, to: Time): int {
    Max(0, quantum - Elapsed(from, to))
  }

  function Max(a: int, b: int): int {
    if a < b then b else a
  }

  class Process {
    var quantum: nat

    constructor (full: nat)
      ensures quantum == full
    {
      quantum := full;
    }

    /** The process came back early, for I/O, a WAIT or a SIGNAL. */
    method Charge(from: Time, to: Time)
      requires Normal(from) && Normal(to) && Nanos(from) <= Nanos(to)
      modifies this
      ensures quantum == Charged(old(quantum), from, to) && quantum <= old(quantum)
      ensures quantum > 0 ==> quantum + Elapsed(from, to) == old(quantum)
      ensures quantum == 0 <==> Elapsed(from, to) >= old(quantum)
    {
      ElapsedIsClose(from, to);
      var elapsed := Elapsed(from, to);
      if quantum >= elapsed {
        quantum := quantum - elapsed;
      } else {
        quantum := 0;
      }
    }

    /** It used its quantum up, and gets a full one for the next turn. */
    method Recharge(full: nat)
      modifies this
      ensures quantum == full
    {
      quantum := full;
    }
  }

  datatype Return = Early(from: Time, to: Time) | UsedUp

  predicate InTime(run: seq<Return>) {
    forall i :: 0 <= i < |run| && run[i].Early? ==>
      Normal(run[i].from) && Normal(run[i].to) && Nanos(run[i].from) <= Nanos(run[i].to)
  }

  /** What is left of a quantum after the process has come back so many times. */
  function Left(full: nat, run: seq<Return>): int
    decreases |run|
  {
    if run == [] then full
    else
      match run[|run| - 1]
      case UsedUp => full
      case Early(from, to) => Charged(Left(full, run[..|run| - 1]), from, to)
  }

  /** The time the process has run since it last had a full quantum. */
  function Spent(run: seq<Return>): int
    decreases |run|
  {
    if run == [] || run[|run| - 1].UsedUp? then 0
    else Spent(run[..|run| - 1]) + Elapsed(run[|run| - 1].from, run[|run| - 1].to)
  }

  /** Over any run it is the full quantum less that time, but never less than nothing. */
  lemma {:induction false} LeftIsFullLessSpent(full: nat, run: seq<Return>)
    requires InTime(run)
    ensures Spent(run) >= 0
    ensures Left(full, run) == if Spent(run) <= full then full - Spent(run) else 0
    ensures 0 <= Left(full, run) <= full
    decreases |run|
  {
    if run != [] {
      LeftIsFullLessSpent(full, run[..|run| - 1]);
      var last := run[|run| - 1];
      if last.Early? {
        ElapsedIsClose(last.from, last.to);
      }
    }
  }

  /** The same by the clock, in nanoseconds, and in how many turns. */
  function TrulySpent(run: seq<Return>): int
    decreases |run|
  {
    if run == [] || run[|run| - 1].UsedUp? then 0
    else TrulySpent(run[..|run| - 1]) + Nanos(run[|run| - 1].to) - Nanos(run[|run| - 1].from)
  }

  function Turns(run: seq<Return>): nat
    decreases |run|
  {
    if run == [] || run[|run| - 1].UsedUp? then 0 else 1 + Turns(run[..|run| - 1])
  }

  /** The rounding costs or gives a process at most a millisecond a turn. */
  lemma {:induction false} SpentIsClose(run: seq<Return>)
    requires InTime(run)
    ensures var off, bound := Spent(run) * NANOS_PER_MILLI - TrulySpent(run), Turns(run) * NANOS_PER_MILLI;
            -bound <= off <= bound
    decreases |run|
  {
    if run != [] {
      SpentIsClose(run[..|run| - 1]);
      var last := run[|run| - 1];
      if last.Early? {
        ElapsedIsClose(last.from, last.to);
      }
    }
  }
}
