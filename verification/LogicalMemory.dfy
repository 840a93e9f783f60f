/** A process's memory as one private byte array, laid over frames scattered in the store;
    and the cutting of a logical range into pieces that each lie inside one frame. */
module LogicalMemory {
  import opened Arith

  /** Where logical byte a lies in the store. */
  function Phys(frames: seq<nat>, pageSize: nat, a: nat): nat
    requires pageSize > 0 && Cell(a, pageSize) < |frames|
  {
    ByteOf(frames[Cell(a, pageSize)], pageSize) + Within(a, pageSize)
  }

  /** The frames are distinct frames of the store. */
  predicate Sound(frames: seq<nat>, frameCount: nat) {
    && (forall i :: 0 <= i < |frames| ==> frames[i] < frameCount)
    && (forall i, j :: 0 <= i < j < |frames| ==> frames[i] != frames[j])
  }

  lemma {:induction false} PhysInStore(frames: seq<nat>, pageSize: nat, a: nat, frameCount: nat)
    requires pageSize > 0 && Sound(frames, frameCount) && Cell(a, pageSize) < |frames|
    ensures Phys(frames, pageSize, a) < ByteOf(frameCount, pageSize)
    ensures Cell(Phys(frames, pageSize, a), pageSize) == frames[Cell(a, pageSize)]
    ensures Within(Phys(frames, pageSize, a), pageSize) == Within(a, pageSize)
  {
    var p := Phys(frames, pageSize, a);
    CellOf(frames[Cell(a, pageSize)], Within(a, pageSize), pageSize);
    CellBelow(p, frameCount, pageSize);
  }

  /** Distinct logical bytes lie at distinct places. */
  lemma {:induction false} PhysInjective(frames: seq<nat>, pageSize: nat, a: nat, b: nat, frameCount: nat)
    requires pageSize > 0 && Sound(frames, frameCount)
    requires Cell(a, pageSize) < |frames| && Cell(b, pageSize) < |frames|
    requires Phys(frames, pageSize, a) == Phys(frames, pageSize, b)
    ensures a == b
  {
    PhysInStore(frames, pageSize, a, frameCount);
    PhysInStore(frames, pageSize, b, frameCount);
    CellSplit(a, pageSize);
    CellSplit(b, pageSize);
  }

  /** The logical memory the frames hold. */
  function View(store: seq<Byte>, frames: seq<nat>, pageSize: nat, frameCount: nat): (v: seq<Byte>)
    requires pageSize > 0 && Sound(frames, frameCount) && |store| == ByteOf(frameCount, pageSize)
    ensures |v| == ByteOf(|frames|, pageSize)
  {
    seq(ByteOf(|frames|, pageSize), a requires 0 <= a < ByteOf(|frames|, pageSize) =>
      CellBelow(a, |frames|, pageSize);
      PhysInStore(frames, pageSize, a, frameCount);
      store[Phys(frames, pageSize, a)])
  }

  lemma {:induction false} ViewAt(store: seq<Byte>, frames: seq<nat>, pageSize: nat, frameCount: nat, a: nat)
    requires pageSize > 0 && Sound(frames, frameCount) && |store| == ByteOf(frameCount, pageSize)
    requires a < ByteOf(|frames|, pageSize)
    ensures Cell(a, pageSize) < |frames| && Phys(frames, pageSize, a) < |store|
    ensures View(store, frames, pageSize, frameCount)[a] == store[Phys(frames, pageSize, a)]
  {
    CellBelow(a, |frames|, pageSize);
    PhysInStore(frames, pageSize, a, frameCount);
  }

  /** Writing one byte of the store writes one byte of the logical memory. */
  lemma {:induction false} PutIsPut(store: seq<Byte>, frames: seq<nat>, pageSize: nat, frameCount: nat, a: nat, v: Byte)
    requires pageSize > 0 && Sound(frames, frameCount) && |store| == ByteOf(frameCount, pageSize)
    requires a < ByteOf(|frames|, pageSize)
    ensures Cell(a, pageSize) < |frames| && Phys(frames, pageSize, a) < |store|
    ensures View(store[Phys(frames, pageSize, a) := v], frames, pageSize, frameCount)
         == View(store, frames, pageSize, frameCount)[a := v]
  {
    ViewAt(store, frames, pageSize, frameCount, a);
    var store' := store[Phys(frames, pageSize, a) := v];
    var before, after := View(store, frames, pageSize, frameCount), View(store', frames, pageSize, frameCount);
    forall b | 0 <= b < |before| ensures after[b] == before[a := v][b] {
      ViewAt(store, frames, pageSize, frameCount, b);
      ViewAt(store', frames, pageSize, frameCount, b);
      if Phys(frames, pageSize, a) == Phys(frames, pageSize, b) {
        PhysInjective(frames, pageSize, a, b, frameCount);
      }
    }
  }

  /** It writes nothing of a process that has other frames. */
  lemma {:induction false} PutElsewhere(store: seq<Byte>, frames: seq<nat>, others: seq<nat>, pageSize: nat,
                                        frameCount: nat, a: nat, v: Byte)
    requires pageSize > 0 && Sound(frames, frameCount) && Sound(others, frameCount)
    requires |store| == ByteOf(frameCount, pageSize) && a < ByteOf(|frames|, pageSize)
    requires forall f :: f in frames ==> f !in others
    ensures Cell(a, pageSize) < |frames| && Phys(frames, pageSize, a) < |store|
    ensures View(store[Phys(frames, pageSize, a) := v], others, pageSize, frameCount)
         == View(store, others, pageSize, frameCount)
  {
    ViewAt(store, frames, pageSize, frameCount, a);
    PhysInStore(frames, pageSize, a, frameCount);
    var store' := store[Phys(frames, pageSize, a) := v];
    var before, after := View(store, others, pageSize, frameCount), View(store', others, pageSize, frameCount);
    forall b | 0 <= b < |before| ensures after[b] == before[b] {
      ViewAt(store, others, pageSize, frameCount, b);
      ViewAt(store', others, pageSize, frameCount, b);
      PhysInStore(others, pageSize, b, frameCount);
      assert frames[Cell(a, pageSize)] in frames && others[Cell(b, pageSize)] in others;
    }
  }

  // ------------------------------------------------------------ byte ranges

  /** The places of n logical bytes from a on, in order. */
  function Places(frames: seq<nat>, pageSize: nat, a: nat, n: nat): (places: seq<nat>)
    requires pageSize > 0 && a + n <= ByteOf(|frames|, pageSize)
    ensures |places| == n
    decreases n
  {
    if n == 0 then []
    else
      CellBelow(a, |frames|, pageSize);
      [Phys(frames, pageSize, a)] + Places(frames, pageSize, a + 1, n - 1)
  }

  function Gather(store: seq<Byte>, places: seq<nat>): (data: seq<Byte>)
    requires forall i :: 0 <= i < |places| ==> places[i] < |store|
    ensures |data| == |places|
  {
    if places == [] then [] else [store[places[0]]] + Gather(store, places[1..])
  }

  function Scatter(store: seq<Byte>, places: seq<nat>, data: seq<Byte>): (r: seq<Byte>)
    requires |places| == |data| && forall i :: 0 <= i < |places| ==> places[i] < |store|
    ensures |r| == |store|
    decreases |places|
  {
    if places == [] then store else Scatter(store[places[0] := data[0]], places[1..], data[1..])
  }

  lemma {:induction false} PlacesInStore(frames: seq<nat>, pageSize: nat, a: nat, n: nat, frameCount: nat)
    requires pageSize > 0 && Sound(frames, frameCount) && a + n <= ByteOf(|frames|, pageSize)
    ensures forall i :: 0 <= i < n ==> Places(frames, pageSize, a, n)[i] < ByteOf(frameCount, pageSize)
    decreases n
  {
    if n > 0 {
      CellBelow(a, |frames|, pageSize);
      PhysInStore(frames, pageSize, a, frameCount);
      PlacesInStore(frames, pageSize, a + 1, n - 1, frameCount);
    }
  }

  /** Reading the places of a range reads that range of the logical memory. */
  lemma {:induction false} GatherIsSlice(store: seq<Byte>, frames: seq<nat>, pageSize: nat, frameCount: nat, a: nat,
                                         n: nat)
    requires pageSize > 0 && Sound(frames, frameCount) && |store| == ByteOf(frameCount, pageSize)
    requires a + n <= ByteOf(|frames|, pageSize)
    ensures forall i :: 0 <= i < n ==> Places(frames, pageSize, a, n)[i] < |store|
    ensures Gather(store, Places(frames, pageSize, a, n)) == View(store, frames, pageSize, frameCount)[a..a + n]
    decreases n
  {
    hide Phys, View, Sound, Cell, Within, ByteOf;
    PlacesInStore(frames, pageSize, a, n, frameCount);
    if n > 0 {
      var places := Places(frames, pageSize, a, n);
      var view := View(store, frames, pageSize, frameCount);
      ViewAt(store, frames, pageSize, frameCount, a);
      GatherIsSlice(store, frames, pageSize, frameCount, a + 1, n - 1);
      assert places[1..] == Places(frames, pageSize, a + 1, n - 1);
      assert view[a..a + n] == [view[a]] + view[a + 1..a + n];
    }
  }

  /** Writing to the places of a range replaces that range of the logical memory. */
  lemma {:induction false} ScatterIsSplice(store: seq<Byte>, frames: seq<nat>, pageSize: nat, frameCount: nat,
                                           a: nat, data: seq<Byte>)
    requires pageSize > 0 && Sound(frames, frameCount) && |store| == ByteOf(frameCount, pageSize)
    requires a + |data| <= ByteOf(|frames|, pageSize)
    ensures forall i :: 0 <= i < |data| ==> Places(frames, pageSize, a, |data|)[i] < |store|
    ensures View(Scatter(store, Places(frames, pageSize, a, |data|), data), frames, pageSize, frameCount)
         == Splice(View(store, frames, pageSize, frameCount), a, data)
    decreases |data|
  {
    PlacesInStore(frames, pageSize, a, |data|, frameCount);
    var view := View(store, frames, pageSize, frameCount);
    if data == [] {
      assert Splice(view, a, data) == view;
    } else {
      PutIsPut(store, frames, pageSize, frameCount, a, data[0]);
      var store' := store[Phys(frames, pageSize, a) := data[0]];
      ScatterIsSplice(store', frames, pageSize, frameCount, a + 1, data[1..]);
      assert Places(frames, pageSize, a, |data|)[1..] == Places(frames, pageSize, a + 1, |data| - 1);
      SplicePut(view, a, data);
      hide Splice, Phys, View, Sound, Cell;
    }
  }

  lemma {:induction false} SplicePut(view: seq<Byte>, a: nat, data: seq<Byte>)
    requires data != [] && a + |data| <= |view|
    ensures Splice(view[a := data[0]], a + 1, data[1..]) == Splice(view, a, data)
  {
  }

  lemma {:induction false} ScatterElsewhere(store: seq<Byte>, frames: seq<nat>, others: seq<nat>, pageSize: nat,
                                            frameCount: nat, a: nat, data: seq<Byte>)
    requires pageSize > 0 && Sound(frames, frameCount) && Sound(others, frameCount)
    requires |store| == ByteOf(frameCount, pageSize) && a + |data| <= ByteOf(|frames|, pageSize)
    requires forall f :: f in frames ==> f !in others
    ensures forall i :: 0 <= i < |data| ==> Places(frames, pageSize, a, |data|)[i] < |store|
    ensures View(Scatter(store, Places(frames, pageSize, a, |data|), data), others, pageSize, frameCount)
         == View(store, others, pageSize, frameCount)
    decreases |data|
  {
    PlacesInStore(frames, pageSize, a, |data|, frameCount);
    if data != [] {
      PutElsewhere(store, frames, others, pageSize, frameCount, a, data[0]);
      var store' := store[Phys(frames, pageSize, a) := data[0]];
      ScatterElsewhere(store', frames, others, pageSize, frameCount, a + 1, data[1..]);
      assert Places(frames, pageSize, a, |data|)[1..] == Places(frames, pageSize, a + 1, |data| - 1);
    }
  }

  // ------------------------------------------- ranges built up piece by piece

  lemma {:induction false} GatherConcat(store: seq<Byte>, p: seq<nat>, q: seq<nat>)
    requires forall i :: 0 <= i < |p| ==> p[i] < |store|
    requires forall i :: 0 <= i < |q| ==> q[i] < |store|
    ensures forall i :: 0 <= i < |p + q| ==> (p + q)[i] < |store|
    ensures Gather(store, p + q) == Gather(store, p) + Gather(store, q)
  {
    if p == [] {
      assert p + q == q;
    } else {
      assert (p + q)[1..] == p[1..] + q;
      GatherConcat(store, p[1..], q);
    }
  }

  lemma {:induction false} ScatterConcat(store: seq<Byte>, p: seq<nat>, q: seq<nat>, data: seq<Byte>, more: seq<Byte>)
    requires |p| == |data| && |q| == |more|
    requires forall i :: 0 <= i < |p| ==> p[i] < |store|
    requires forall i :: 0 <= i < |q| ==> q[i] < |store|
    ensures forall i :: 0 <= i < |p + q| ==> (p + q)[i] < |store|
    ensures Scatter(store, p + q, data + more) == Scatter(Scatter(store, p, data), q, more)
    decreases |p|
  {
    if p == [] {
      assert p + q == q && data + more == more;
    } else {
      assert (p + q)[1..] == p[1..] + q && (data + more)[1..] == data[1..] + more;
      ScatterConcat(store[p[0] := data[0]], p[1..], q, data[1..], more);
    }
  }

  lemma {:induction false} GatherOne(store: seq<Byte>, p: seq<nat>, x: nat)
    requires x < |store| && forall i :: 0 <= i < |p| ==> p[i] < |store|
    ensures forall i :: 0 <= i < |p + [x]| ==> (p + [x])[i] < |store|
    ensures Gather(store, p + [x]) == Gather(store, p) + [store[x]]
  {
    GatherConcat(store, p, [x]);
  }

  lemma {:induction false} ScatterOne(store: seq<Byte>, p: seq<nat>, x: nat, data: seq<Byte>, v: Byte)
    requires |p| == |data| && x < |store|
    requires forall i :: 0 <= i < |p| ==> p[i] < |store|
    ensures forall i :: 0 <= i < |p + [x]| ==> (p + [x])[i] < |store|
    ensures Scatter(store, p + [x], data + [v]) == Scatter(store, p, data)[x := v]
  {
    ScatterConcat(store, p, [x], data, [v]);
  }
}
