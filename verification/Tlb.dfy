/** The translation cache as a queue of entries, and what a run of accesses leaves in it. */
module Tlb {
  import opened Sequences

  datatype Policy = Fifo | Lru

  /** What an entry is looked up by. */
  datatype Key = Key(pid: nat, page: nat)

  datatype Entry = Entry(key: Key, frame: nat)

  function Keys(tlb: seq<Entry>): (keys: seq<Key>)
    ensures |keys| == |tlb| && forall i :: 0 <= i < |tlb| ==> keys[i] == tlb[i].key
  {
    if tlb == [] then [] else [tlb[0].key] + Keys(tlb[1..])
  }

  /** The queue after a key has been used: a hit moves to the back under LRU and stays under
      FIFO; a miss is pushed at the back, pushing the front out of a full queue. */
  function Touch(policy: Policy, capacity: nat, keys: seq<Key>, k: Key): seq<Key> {
    if k in keys then (if policy.Lru? then Remove(keys, k) + [k] else keys)
    else Last(keys + [k], capacity)
  }

  function Remove(keys: seq<Key>, k: Key): seq<Key> {
    if keys == [] then [] else (if keys[0] == k then [] else [keys[0]]) + Remove(keys[1..], k)
  }

  function After(policy: Policy, capacity: nat, trace: seq<Key>): seq<Key> {
    if trace == [] then []
    else Touch(policy, capacity, After(policy, capacity, trace[..|trace| - 1]), trace[|trace| - 1])
  }

  predicate Distinct(keys: seq<Key>) {
    forall i, j :: 0 <= i < j < |keys| ==> keys[i] != keys[j]
  }

  // -------------------------------------------------------------- recency

  /** The distinct keys of a trace in order of last use. */
  function Recency(trace: seq<Key>): seq<Key> {
    if trace == [] then []
    else Remove(Recency(trace[..|trace| - 1]), trace[|trace| - 1]) + [trace[|trace| - 1]]
  }

  /** The position of a key's last use. */
  function LastUse(trace: seq<Key>, k: Key): (i: nat)
    requires k in trace
    ensures i < |trace| && trace[i] == k
    ensures forall j :: i < j < |trace| ==> trace[j] != k
  {
    if trace[|trace| - 1] == k then |trace| - 1 else LastUse(trace[..|trace| - 1], k)
  }

  lemma {:induction false} RemoveAbsent(keys: seq<Key>, k: Key)
    requires k !in keys
    ensures Remove(keys, k) == keys
  {
    if keys != [] {
      RemoveAbsent(keys[1..], k);
    }
  }

  /** A removal from a queue without repetitions closes the gap and moves nothing else. */
  lemma {:induction false} RemoveAt(keys: seq<Key>, p: nat)
    requires p < |keys| && forall i :: 0 <= i < |keys| && i != p ==> keys[i] != keys[p]
    ensures Remove(keys, keys[p]) == Without(keys, p)
  {
    var rest := keys[1..];
    if p == 0 {
      RemoveAbsent(rest, keys[0]);
    } else {
      RemoveAt(rest, p - 1);
      assert [keys[0]] + Without(rest, p - 1) == Without(keys, p);
    }
  }

  lemma {:induction false} LastOfLast(s: seq<Key>, k: Key, n: nat)
    ensures Last(Last(s, n) + [k], n) == Last(s + [k], n)
  {
  }

  /** x was last used before y was. */
  predicate UsedBefore(trace: seq<Key>, x: Key, y: Key) {
    x in trace && y in trace && LastUse(trace, x) < LastUse(trace, y)
  }

  predicate InOrder(trace: seq<Key>, keys: seq<Key>) {
    forall i, j {:trigger UsedBefore(trace, keys[i], keys[j])} ::
      0 <= i < j < |keys| ==> UsedBefore(trace, keys[i], keys[j])
  }

  /** Recency lists exactly the keys used, each once, by the time of its last use. */
  lemma {:induction false} RecencyIsByLastUse(trace: seq<Key>)
    ensures forall k :: k in Recency(trace) <==> k in trace
    ensures Distinct(Recency(trace))
    ensures InOrder(trace, Recency(trace))
    decreases |trace|
  {
    if trace != [] {
      var before, k := trace[..|trace| - 1], trace[|trace| - 1];
      var r := Recency(before);
      RecencyIsByLastUse(before);
      RemoveMoves(before, r, k);
      var less := Remove(r, k);
      assert Recency(trace) == less + [k] && before + [k] == trace;
      assert forall i :: 0 <= i < |less| ==> less[i] in less;
      UsedLater(before, k, less);
    }
  }

  /** What a removal leaves: the other keys, in the same order. */
  lemma {:induction false} RemoveMoves(trace: seq<Key>, r: seq<Key>, k: Key)
    requires Distinct(r) && InOrder(trace, r)
    ensures forall x :: x in Remove(r, k) <==> x in r && x != k
    ensures Distinct(Remove(r, k)) && InOrder(trace, Remove(r, k))
  {
    if k in r {
      var p :| 0 <= p < |r| && r[p] == k;
      assert forall i :: 0 <= i < |r| && i != p ==> r[i] != k;
      RemoveAt(r, p);
      WithoutMoves(trace, r, p);
    } else {
      RemoveAbsent(r, k);
    }
  }

  lemma {:induction false} WithoutMoves(trace: seq<Key>, r: seq<Key>, p: nat)
    requires p < |r| && Distinct(r) && InOrder(trace, r)
    ensures forall x :: x in Without(r, p) <==> x in r && x != r[p]
    ensures Distinct(Without(r, p)) && InOrder(trace, Without(r, p))
  {
  }

  /** One more use: the key goes last, and the others keep their last uses. */
  lemma {:induction false} UsedLater(before: seq<Key>, k: Key, less: seq<Key>)
    requires forall x :: x in less ==> x in before && x != k
    requires InOrder(before, less)
    ensures InOrder(before + [k], less + [k])
  {
    var trace, r := before + [k], less + [k];
    assert trace[..|before|] == before;
    forall i, j | 0 <= i < j < |r|
      ensures UsedBefore(trace, r[i], r[j])
    {
      assert less[i] in less && LastUse(trace, less[i]) == LastUse(before, less[i]);
      if j < |less| {
        assert less[j] in less && LastUse(trace, less[j]) == LastUse(before, less[j]);
        assert UsedBefore(before, less[i], less[j]);
      }
    }
  }

  // ------------------------------------------------------------------ LRU

  /** Under LRU the queue holds exactly the most recently used keys, in order of last use. */
  lemma {:induction false} LruIsMostRecent(capacity: nat, trace: seq<Key>)
    ensures After(Lru, capacity, trace) == Last(Recency(trace), capacity)
    decreases |trace|
  {
    if trace != [] {
      var before, k := trace[..|trace| - 1], trace[|trace| - 1];
      LruIsMostRecent(capacity, before);
      RecencyIsByLastUse(before);
      TouchLast(capacity, Recency(before), k);
    }
  }

  lemma {:induction false} TouchLast(capacity: nat, r: seq<Key>, k: Key)
    requires Distinct(r)
    ensures Touch(Lru, capacity, Last(r, capacity), k) == Last(Remove(r, k) + [k], capacity)
  {
    if k in r {
      var p :| 0 <= p < |r| && r[p] == k;
      TouchLastUsed(capacity, r, p);
    } else {
      hide Distinct, Remove;
      RemoveAbsent(r, k);
      LastOfLast(r, k, capacity);
    }
  }

  lemma {:induction false} TouchLastUsed(capacity: nat, r: seq<Key>, p: nat)
    requires p < |r| && forall i :: 0 <= i < |r| && i != p ==> r[i] != r[p]
    ensures Touch(Lru, capacity, Last(r, capacity), r[p]) == Last(Remove(r, r[p]) + [r[p]], capacity)
  {
    hide Remove, Last, Without;
    var kept, k := Last(r, capacity), r[p];
    RemoveAt(r, p);
    if p >= |r| - |kept| {
      LastWithin(r, p, capacity);
      RemoveAt(kept, p - (|r| - |kept|));
    } else {
      LastBeyond(r, p, capacity);
    }
  }

  lemma {:induction false} LastDrops(s: seq<Key>, n: nat)
    ensures Last(s, n) == s[|s| - |Last(s, n)|..]
  {
  }

  lemma {:induction false} WithoutDrop(r: seq<Key>, p: nat, d: nat)
    requires d <= p < |r|
    ensures Without(r, p)[d..] == Without(r[d..], p - d)
  {
  }

  lemma {:induction false} LastWithin(r: seq<Key>, p: nat, n: nat)
    requires p < |r| && |r| - |Last(r, n)| <= p && forall i :: 0 <= i < |r| && i != p ==> r[i] != r[p]
    ensures var kept, q := Last(r, n), p - (|r| - |Last(r, n)|);
            && kept[q] == r[p] && (forall i :: 0 <= i < |kept| && i != q ==> kept[i] != kept[q])
            && Last(Without(r, p) + [r[p]], n) == Without(kept, q) + [r[p]]
  {
    hide Last, Without;
    var d, s := |r| - |Last(r, n)|, Without(r, p) + [r[p]];
    LastDrops(r, n);
    LastDrops(s, n);
    WithoutDrop(r, p, d);
    assert s[d..] == Without(r, p)[d..] + [r[p]];
  }

  lemma {:induction false} LastBeyond(r: seq<Key>, p: nat, n: nat)
    requires p < |r| && p < |r| - |Last(r, n)| && forall i :: 0 <= i < |r| && i != p ==> r[i] != r[p]
    ensures r[p] !in Last(r, n)
    ensures Last(Without(r, p) + [r[p]], n) == Last(Last(r, n) + [r[p]], n)
  {
  }

  /** For the same accesses a larger LRU cache holds all that a smaller one does. */
  lemma {:induction false} LruInclusion(capacity: nat, larger: nat, trace: seq<Key>, k: Key)
    requires capacity <= larger && k in After(Lru, capacity, trace)
    ensures k in After(Lru, larger, trace)
  {
    LruIsMostRecent(capacity, trace);
    LruIsMostRecent(larger, trace);
  }

  /** How many accesses of the trace were hits. */
  function Hits(policy: Policy, capacity: nat, trace: seq<Key>): nat {
    if trace == [] then 0
    else
      var before, k := trace[..|trace| - 1], trace[|trace| - 1];
      Hits(policy, capacity, before) + (if k in After(policy, capacity, before) then 1 else 0)
  }

  /** So more entries never cost a hit under LRU. */
  lemma {:induction false} LruHitsMonotone(capacity: nat, larger: nat, trace: seq<Key>)
    requires capacity <= larger
    ensures Hits(Lru, capacity, trace) <= Hits(Lru, larger, trace)
    decreases |trace|
  {
    if trace != [] {
      var before, k := trace[..|trace| - 1], trace[|trace| - 1];
      LruHitsMonotone(capacity, larger, before);
      if k in After(Lru, capacity, before) {
        LruInclusion(capacity, larger, before, k);
      }
    }
  }

  // ----------------------------------------------------------------- FIFO

  /** The keys in the order in which they were loaded. */
  function Loads(capacity: nat, trace: seq<Key>): seq<Key> {
    if trace == [] then []
    else
      var before, k := trace[..|trace| - 1], trace[|trace| - 1];
      Loads(capacity, before) + (if k in After(Fifo, capacity, before) then [] else [k])
  }

  /** Under FIFO the queue holds the latest loads in load order. */
  lemma {:induction false} FifoIsLoadOrder(capacity: nat, trace: seq<Key>)
    ensures After(Fifo, capacity, trace) == Last(Loads(capacity, trace), capacity)
    decreases |trace|
  {
    if trace != [] {
      var before, k := trace[..|trace| - 1], trace[|trace| - 1];
      hide Last;
      FifoIsLoadOrder(capacity, before);
      LastOfLast(Loads(capacity, before), k, capacity);
      assert Loads(capacity, before) + [] == Loads(capacity, before);
    }
  }

  // -------------------------------------------------- entries in the queue

  /** A queue never holds a key twice, nor more keys than it has room for. */
  lemma {:induction false} TouchKeepsSound(policy: Policy, capacity: nat, keys: seq<Key>, k: Key)
    requires Distinct(keys) && |keys| <= capacity
    ensures Distinct(Touch(policy, capacity, keys, k)) && |Touch(policy, capacity, keys, k)| <= capacity
  {
    if k in keys && policy.Lru? {
      var p :| 0 <= p < |keys| && keys[p] == k;
      RemoveAt(keys, p);
      var less := Without(keys, p);
      assert forall i :: 0 <= i < |less| ==> less[i] != k;
    }
  }

  lemma {:induction false} KeysAppend(tlb: seq<Entry>, e: Entry)
    ensures Keys(tlb + [e]) == Keys(tlb) + [e.key]
  {
  }

  lemma {:induction false} KeysWithout(tlb: seq<Entry>, i: nat)
    requires i < |tlb|
    ensures Keys(Without(tlb, i)) == Without(Keys(tlb), i)
  {
  }

  /** What the code does to its list of entries is what Touch does to their keys. */
  lemma {:induction false} HitMoves(tlb: seq<Entry>, i: nat)
    requires i < |tlb| && Distinct(Keys(tlb))
    ensures tlb[i].key in Keys(tlb)
    ensures Keys(tlb[..i] + tlb[i + 1..] + [tlb[i]]) == Remove(Keys(tlb), tlb[i].key) + [tlb[i].key]
  {
    hide Keys, Remove;
    assert Keys(tlb)[i] == tlb[i].key;
    RemoveAt(Keys(tlb), i);
    KeysWithout(tlb, i);
    KeysAppend(Without(tlb, i), tlb[i]);
  }

  lemma {:induction false} MissLoads(tlb: seq<Entry>, e: Entry, capacity: nat)
    requires |tlb| <= capacity && capacity > 0
    ensures |tlb| < capacity ==> Keys(tlb + [e]) == Last(Keys(tlb) + [e.key], capacity)
    ensures |tlb| == capacity ==> Keys(tlb[1..] + [e]) == Last(Keys(tlb) + [e.key], capacity)
  {
  }

  /** The queue without the entries of one process from page n on. */
  function Purge(tlb: seq<Entry>, pid: nat, n: nat): (r: seq<Entry>)
    ensures |r| <= |tlb|
    ensures forall e :: e in r <==> e in tlb && !(e.key.pid == pid && n <= e.key.page)
  {
    if tlb == [] then []
    else (if tlb[0].key.pid == pid && n <= tlb[0].key.page then [] else [tlb[0]]) + Purge(tlb[1..], pid, n)
  }

  /** Whoever stays keeps its place in the queue. */
  lemma {:induction false} PurgeKeepsOrder(a: seq<Entry>, b: seq<Entry>, pid: nat, n: nat)
    ensures Purge(a + b, pid, n) == Purge(a, pid, n) + Purge(b, pid, n)
  {
    if a == [] {
      assert a + b == b;
    } else {
      assert (a + b)[1..] == a[1..] + b;
      PurgeKeepsOrder(a[1..], b, pid, n);
    }
  }

  lemma {:induction false} PurgeKeepsDistinct(tlb: seq<Entry>, pid: nat, n: nat)
    requires Distinct(Keys(tlb))
    ensures Distinct(Keys(Purge(tlb, pid, n)))
    ensures forall k :: k in Keys(Purge(tlb, pid, n)) ==> k in Keys(tlb)
  {
    if tlb != [] {
      var keys, rest := Keys(tlb), Purge(tlb[1..], pid, n);
      assert keys == [tlb[0].key] + Keys(tlb[1..]);
      DistinctTail(keys);
      PurgeKeepsDistinct(tlb[1..], pid, n);
      hide Distinct;
      assert Keys([tlb[0]] + rest) == [keys[0]] + Keys(rest);
      if keys[0] !in Keys(rest) {
        DistinctCons(keys[0], Keys(rest));
      }
    }
  }

  lemma {:induction false} DistinctTail(keys: seq<Key>)
    requires keys != [] && Distinct(keys)
    ensures Distinct(keys[1..]) && keys[0] !in keys[1..]
  {
  }

  lemma {:induction false} DistinctCons(k: Key, keys: seq<Key>)
    requires k !in keys && Distinct(keys)
    ensures Distinct([k] + keys)
  {
  }
}
