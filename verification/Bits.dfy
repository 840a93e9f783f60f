/** Bitmaps: the bit array of the block store and the frame bitmap of the memory. */
module Bits {

  /** How many bits are set. */
  function Count(s: seq<bool>): nat {
    if s == [] then 0 else Count(s[..|s| - 1]) + (if s[|s| - 1] then 1 else 0)
  }

  predicate AllAre(s: seq<bool>, from: nat, to: nat, v: bool)
    requires to <= |s|
  {
    forall i :: from <= i < to ==> s[i] == v
  }

  /** s with the n bits from `from` on given the value v. */
  function Marked(s: seq<bool>, from: nat, n: nat, v: bool): (r: seq<bool>)
    requires from + n <= |s|
    ensures |r| == |s|
  {
    seq(|s|, i requires 0 <= i < |s| => if from <= i < from + n then v else s[i])
  }

  lemma {:induction false} CountStep(s: seq<bool>, k: nat)
    requires k < |s|
    ensures Count(s[..k + 1]) == Count(s[..k]) + (if s[k] then 1 else 0)
  {
    assert s[..k + 1][..k] == s[..k];
  }

  /** Marking a stretch that held the opposite value moves the count by its length. */
  lemma {:induction false} CountMarked(s: seq<bool>, from: nat, n: nat, v: bool, k: nat)
    requires from + n <= |s| && k <= |s|
    requires AllAre(s, from, from + n, !v)
    ensures var d := if k <= from then 0 else if k <= from + n then k - from else n;
            Count(Marked(s, from, n, v)[..k]) == Count(s[..k]) + (if v then d else -d)
    decreases k
  {
    if k > 0 {
      CountMarked(s, from, n, v, k - 1);
      CountStep(s, k - 1);
      CountStep(Marked(s, from, n, v), k - 1);
    }
  }

  lemma {:induction false} CountMarkedAll(s: seq<bool>, from: nat, n: nat, v: bool)
    requires from + n <= |s|
    requires AllAre(s, from, from + n, !v)
    ensures Count(Marked(s, from, n, v)) == if v then Count(s) + n else Count(s) - n
  {
    CountMarked(s, from, n, v, |s|);
    assert s[..|s|] == s;
    assert Marked(s, from, n, v)[..|s|] == Marked(s, from, n, v);
  }

  lemma {:induction false} CountBound(s: seq<bool>)
    ensures Count(s) <= |s|
    ensures (forall i :: 0 <= i < |s| ==> !s[i]) ==> Count(s) == 0
    ensures Count(s) == |s| ==> forall i :: 0 <= i < |s| ==> s[i]
    ensures (forall i :: 0 <= i < |s| ==> s[i]) ==> Count(s) == |s|
    decreases |s|
  {
    if s != [] {
      var t := s[..|s| - 1];
      CountBound(t);
      assert forall i :: 0 <= i < |t| ==> t[i] == s[i];
    }
  }

  /** A bitmap whose set bits are exactly its first k has count k. */
  lemma {:induction false} CountPrefix(s: seq<bool>, k: nat)
    requires k <= |s| && AllAre(s, 0, k, true) && AllAre(s, k, |s|, false)
    ensures Count(s) == k
    decreases |s|
  {
    if s != [] {
      CountPrefix(s[..|s| - 1], if k < |s| then k else |s| - 1);
    }
  }

  /** n clear bits in a row from `at` on. */
  predicate RunAt(s: seq<bool>, at: nat, n: nat) {
    at + n <= |s| && AllAre(s, at, at + n, false)
  }

  lemma {:induction false} RunBound(s: seq<bool>, at: nat, n: nat)
    requires RunAt(s, at, n)
    ensures Count(s) + n <= |s|
  {
    CountMarkedAll(s, at, n, true);
    CountBound(Marked(s, at, n, true));
  }

  // --- the same operations on the arrays that the program updates in place ---

  method Mark(bits: array<bool>, from: nat, n: nat, v: bool)
    requires from + n <= bits.Length
    modifies bits
    ensures bits[..] == Marked(old(bits[..]), from, n, v)
  {
    var i := 0;
    while i < n
      invariant i <= n
      invariant bits[..] == Marked(old(bits[..]), from, i, v)
    {
      bits[from + i] := v;
      i := i + 1;
    }
  }

  /** The first clear bit; the source's loop runs off the end when there is none. */
  method FirstClear(bits: array<bool>) returns (i: nat)
    requires exists k :: 0 <= k < bits.Length && !bits[k]
    ensures i < bits.Length && !bits[i]
    ensures AllAre(bits[..], 0, i, true)
  {
    i := 0;
    while bits[i]
      invariant i < bits.Length
      invariant AllAre(bits[..], 0, i, true)
      invariant exists k :: i <= k < bits.Length && !bits[k]
      decreases bits.Length - i
    {
      i := i + 1;
    }
  }

  /** The leftmost run of `need` clear bits, or -1 and the number of clear bits when there is none. */
  method FirstFit(bits: array<bool>, need: nat) returns (start: int, free: nat)
    requires need > 0
    ensures start >= 0 ==> RunAt(bits[..], start, need) && forall s :: 0 <= s < start ==> !RunAt(bits[..], s, need)
    ensures start < 0 ==> free == bits.Length - Count(bits[..])
    ensures start < 0 ==> forall s: nat :: !RunAt(bits[..], s, need)
  {
    free := 0;
    var run, runStart, lastClear := 0, 0, false;
    var i := 0;
    while i < bits.Length
      invariant i <= bits.Length
      invariant free == i - Count(bits[..i])
      invariant lastClear ==> 0 < run < need && runStart + run == i && AllAre(bits[..], runStart, i, false)
      invariant lastClear && runStart > 0 ==> bits[runStart - 1]
      invariant !lastClear && i > 0 ==> bits[i - 1]
      invariant forall s: nat :: s + need <= i ==> !RunAt(bits[..], s, need)
    {
      CountStep(bits[..], i);
      assert bits[..][..i] == bits[..i] && bits[..][..i + 1] == bits[..i + 1];
      if !bits[i] {
        free := free + 1;
        if lastClear {
          run := run + 1;
        } else {
          run := 1;
          runStart := i;
        }
        assert forall s: nat :: s < runStart && s + need > runStart - 1 && s + need <= bits.Length ==>
            !RunAt(bits[..], s, need);
        if run >= need {
          return runStart, free;
        }
        lastClear := true;
      } else {
        lastClear := false;
      }
      i := i + 1;
    }
    assert bits[..bits.Length] == bits[..];
    start := -1;
  }
}
