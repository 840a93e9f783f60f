/** The kernel's queues of process numbers. */
module Queues {

  function Bit(b: bool): nat {
    if b then 1 else 0
  }

  predicate AllBelow(list: seq<nat>, n: nat) {
    forall k :: 0 <= k < |list| ==> list[k] < n
  }

  predicate AllIn(list: seq<nat>, ready: seq<nat>) {
    forall k :: 0 <= k < |list| ==> list[k] in ready
  }

  /** A queue after its first x has been taken out. */
  function TakenOut(list: seq<nat>, x: nat): (r: seq<nat>)
    ensures forall k :: 0 <= k < |r| ==> r[k] in list
    ensures |r| == if x in list then |list| - 1 else |list|
  {
    if list == [] then []
    else if list[0] == x then list[1..]
    else [list[0]] + TakenOut(list[1..], x)
  }

  /** The others stay, in their order. */
  lemma {:induction false} TakenOutKeepsOrder(list: seq<nat>, x: nat) returns (i: nat)
    ensures if x in list then i < |list| && list[i] == x && x !in list[..i] &&
            TakenOut(list, x) == list[..i] + list[i + 1..]
            else TakenOut(list, x) == list
  {
    i := 0;
    if x in list && list[0] != x {
      var j := TakenOutKeepsOrder(list[1..], x);
      i := j + 1;
      assert list[..i] == [list[0]] + list[1..][..j] && list[i + 1..] == list[1..][j + 1..];
    } else if list != [] && list[0] != x {
      var j := TakenOutKeepsOrder(list[1..], x);
    }
  }

  /** How often x is in a queue. */
  function Times(list: seq<nat>, x: nat): nat {
    if list == [] then 0 else (if list[0] == x then 1 else 0) + Times(list[1..], x)
  }

  lemma {:induction false} TimesAppend(list: seq<nat>, y: nat, x: nat)
    ensures Times(list + [y], x) == Times(list, x) + (if y == x then 1 else 0)
  {
    if list != [] {
      assert (list + [y])[1..] == list[1..] + [y];
      TimesAppend(list[1..], y, x);
    }
  }

  lemma {:induction false} TimesTakenOut(list: seq<nat>, y: nat, x: nat)
    ensures Times(TakenOut(list, y), x) == Times(list, x) - (if y == x && x in list then 1 else 0)
  {
    if list != [] && list[0] != y {
      TimesTakenOut(list[1..], y, x);
      assert TakenOut(list, y)[1..] == TakenOut(list[1..], y);
    }
  }
}
