/** Page tables and the frame bitmap of the memory module, and what it means that they agree:
    each used frame holds exactly one page of one process. */
module FrameTables {
  import opened Arith
  import opened Bits
  import opened LogicalMemory

  /** One entry of a page table. */
  datatype Page = Page(frame: nat, present: bool)

  /** The page tables of the live processes. */
  type Tables = map<nat, seq<Page>>

  datatype Owner = Nobody | Holds(pid: nat, page: nat)

  /** How many pages a process has: the index of the first page that is not present. */
  function Size(table: seq<Page>): (n: nat)
    ensures n <= |table|
    ensures forall i :: 0 <= i < n ==> table[i].present
    ensures n < |table| ==> !table[n].present
  {
    if table == [] || !table[0].present then 0
    else
      var n := 1 + Size(table[1..]);
      assert forall i :: 0 < i < |table| ==> table[i] == table[1..][i - 1];
      n
  }

  predicate Prefix(table: seq<Page>) {
    forall i :: Size(table) <= i < |table| ==> !table[i].present
  }

  /** `owner` says of each frame whose page it holds; it is read off the tables, and the
      bitmap sets exactly the owned frames. */
  ghost predicate Agree(bitmap: seq<bool>, tables: Tables, owner: seq<Owner>) {
    && |owner| == |bitmap|
    && (forall pid :: pid in tables ==> |tables[pid]| == |bitmap| && Prefix(tables[pid]))
    && (forall pid, i :: pid in tables && 0 <= i < Size(tables[pid]) ==>
          tables[pid][i].frame < |bitmap| && owner[tables[pid][i].frame] == Holds(pid, i))
    && (forall f :: 0 <= f < |bitmap| ==> (bitmap[f] <==> owner[f] != Nobody))
    && (forall f :: 0 <= f < |bitmap| && owner[f] != Nobody ==> Held(tables, owner[f].pid, owner[f].page, f))
  }

  /** The same while a process is being taken down, its first k frames already free. */
  ghost predicate Releasing(bitmap: seq<bool>, tables: Tables, owner: seq<Owner>, gone: nat, k: nat) {
    && |owner| == |bitmap|
    && (forall pid :: pid in tables ==> |tables[pid]| == |bitmap| && Prefix(tables[pid]))
    && (forall pid, i :: pid in tables && 0 <= i < Size(tables[pid]) && (pid == gone ==> k <= i) ==>
          tables[pid][i].frame < |bitmap| && owner[tables[pid][i].frame] == Holds(pid, i))
    && (forall f :: 0 <= f < |bitmap| ==> (bitmap[f] <==> owner[f] != Nobody))
    && (forall f :: 0 <= f < |bitmap| && owner[f] != Nobody ==>
          Held(tables, owner[f].pid, owner[f].page, f) && (owner[f].pid == gone ==> k <= owner[f].page))
  }

  predicate Held(tables: Tables, pid: nat, page: nat, frame: nat) {
    pid in tables && page < Size(tables[pid]) && tables[pid][page].frame == frame
  }

  /** The size is pinned down by the entries around it. */
  lemma {:induction false} SizeIs(table: seq<Page>, n: nat)
    requires n <= |table| && forall i :: 0 <= i < n ==> table[i].present
    requires forall i :: n <= i < |table| ==> !table[i].present
    ensures Size(table) == n && Prefix(table)
  {
    var k := Size(table);
    assert k < |table| ==> !table[k].present;
    assert n < |table| ==> !table[n].present;
  }

  /** The frames of a process in page order: the frames of its logical memory. */
  function FramesOf(table: seq<Page>): (frames: seq<nat>)
    ensures |frames| == Size(table) && forall i :: 0 <= i < |frames| ==> frames[i] == table[i].frame
  {
    seq(Size(table), i requires 0 <= i < Size(table) => table[i].frame)
  }

  lemma {:induction false} FramesAreSound(bitmap: seq<bool>, tables: Tables, owner: seq<Owner>, pid: nat)
    requires Agree(bitmap, tables, owner) && pid in tables
    ensures Sound(FramesOf(tables[pid]), |bitmap|)
  {
  }

  /** No frame serves two processes. */
  lemma {:induction false} FramesApart(bitmap: seq<bool>, tables: Tables, owner: seq<Owner>, pid: nat, other: nat)
    requires Agree(bitmap, tables, owner) && pid in tables && other in tables && pid != other
    ensures forall f :: f in FramesOf(tables[pid]) ==> f !in FramesOf(tables[other])
  {
  }

  /** A frame's bit is set exactly when a page lies in it, and then it is one page only. */
  lemma {:induction false} OnePageInUse(bitmap: seq<bool>, tables: Tables, owner: seq<Owner>, f: nat)
    requires Agree(bitmap, tables, owner) && f < |bitmap|
    ensures bitmap[f] <==> exists pid, page :: Held(tables, pid, page, f)
    ensures forall p, i, q, j :: Held(tables, p, i, f) && Held(tables, q, j, f) ==> p == q && i == j
  {
    assert forall p, i :: Held(tables, p, i, f) ==> owner[f] == Holds(p, i);
  }

  // ------------------------------------------------------------------ steps

  /** Frame f is handed to the next page of a process. */
  lemma {:induction false} Granting(bitmap: seq<bool>, tables: Tables, owner: seq<Owner>, pid: nat, f: nat)
    requires Agree(bitmap, tables, owner) && pid in tables && f < |bitmap| && !bitmap[f]
    ensures |tables[pid]| == |bitmap| == |owner| && Size(tables[pid]) < |bitmap|
    ensures Count(bitmap[f := true]) == Count(bitmap) + 1
    ensures var n, table := Size(tables[pid]), tables[pid][Size(tables[pid]) := Page(f, true)];
            && Size(table) == n + 1
            && Agree(bitmap[f := true], tables[pid := table], owner[f := Holds(pid, n)])
  {
    RoomInTable(bitmap, tables, owner, pid, f);
    CountFlip(bitmap, f, true);
    var n := Size(tables[pid]);
    var table := tables[pid][n := Page(f, true)];
    SizeIs(table, n + 1);
    var tables', owner' := tables[pid := table], owner[f := Holds(pid, n)];
    GrantKeepsPages(bitmap, tables, owner, pid, f, tables', owner');
    forall g | 0 <= g < |bitmap| && g != f && owner[g] != Nobody
      ensures Held(tables', owner[g].pid, owner[g].page, g)
    {
      assert Held(tables, owner[g].pid, owner[g].page, g);
    }
  }

  lemma {:induction false} GrantKeepsPages(bitmap: seq<bool>, tables: Tables, owner: seq<Owner>, pid: nat, f: nat,
                                           tables': Tables, owner': seq<Owner>)
    requires Agree(bitmap, tables, owner) && pid in tables && f < |bitmap| && !bitmap[f] && Size(tables[pid]) < |bitmap|
    requires tables' == tables[pid := tables[pid][Size(tables[pid]) := Page(f, true)]]
    requires owner' == owner[f := Holds(pid, Size(tables[pid]))] && Size(tables'[pid]) == Size(tables[pid]) + 1
    ensures forall p, i :: p in tables' && 0 <= i < Size(tables'[p]) ==>
      tables'[p][i].frame < |bitmap| && owner'[tables'[p][i].frame] == Holds(p, i)
  {
  }

  /** The last page of a process gives its frame back. */
  lemma {:induction false} TakingBack(bitmap: seq<bool>, tables: Tables, owner: seq<Owner>, pid: nat)
    requires Agree(bitmap, tables, owner) && pid in tables && Size(tables[pid]) > 0
    ensures |tables[pid]| == |bitmap| == |owner|
    ensures var n := Size(tables[pid]) - 1;
            var f, table := tables[pid][n].frame, tables[pid][n := Page(tables[pid][n].frame, false)];
            && f < |bitmap| && bitmap[f] && Count(bitmap[f := false]) == Count(bitmap) - 1
            && Size(table) == n
            && Agree(bitmap[f := false], tables[pid := table], owner[f := Nobody])
  {
    var n := Size(tables[pid]) - 1;
    var f := tables[pid][n].frame;
    var table := tables[pid][n := Page(f, false)];
    CountFlip(bitmap, f, false);
    SizeIs(table, n);
    var tables', owner' := tables[pid := table], owner[f := Nobody];
    forall p, i | p in tables' && 0 <= i < Size(tables'[p])
      ensures tables'[p][i].frame < |bitmap| && owner'[tables'[p][i].frame] == Holds(p, i)
    {
      assert owner[tables[p][i].frame] == Holds(p, i);
    }
    assert owner[f] == Holds(pid, n);
    forall g | 0 <= g < |bitmap| && g != f && owner[g] != Nobody
      ensures Held(tables', owner[g].pid, owner[g].page, g)
    {
      assert Held(tables, owner[g].pid, owner[g].page, g);
    }
  }

  lemma {:induction false} Entering(bitmap: seq<bool>, tables: Tables, owner: seq<Owner>, pid: nat, table: seq<Page>)
    requires Agree(bitmap, tables, owner) && pid !in tables
    requires |table| == |bitmap| && forall i :: 0 <= i < |table| ==> !table[i].present
    ensures Agree(bitmap, tables[pid := table], owner)
  {
  }

  lemma {:induction false} ReleaseNone(bitmap: seq<bool>, tables: Tables, owner: seq<Owner>, pid: nat)
    requires Agree(bitmap, tables, owner) && pid in tables
    ensures |tables[pid]| == |bitmap| && Releasing(bitmap, tables, owner, pid, 0)
  {
  }

  lemma {:induction false} ReleaseOne(bitmap: seq<bool>, tables: Tables, owner: seq<Owner>, pid: nat, k: nat)
    requires Releasing(bitmap, tables, owner, pid, k) && pid in tables && k < Size(tables[pid])
    ensures var f := tables[pid][k].frame;
            && f < |bitmap| == |owner| && bitmap[f] && Count(bitmap[f := false]) == Count(bitmap) - 1
            && Releasing(bitmap[f := false], tables, owner[f := Nobody], pid, k + 1)
  {
    CountFlip(bitmap, tables[pid][k].frame, false);
  }

  lemma {:induction false} CountFlip(bitmap: seq<bool>, f: nat, v: bool)
    requires f < |bitmap| && bitmap[f] != v
    ensures Count(bitmap[f := v]) == if v then Count(bitmap) + 1 else Count(bitmap) - 1
  {
    CountMarkedAll(bitmap, f, 1, v);
    assert Marked(bitmap, f, 1, v) == bitmap[f := v];
  }

  /** A process without frames leaves nothing behind. */
  lemma {:induction false} Released(bitmap: seq<bool>, tables: Tables, owner: seq<Owner>, pid: nat)
    requires pid in tables && Releasing(bitmap, tables, owner, pid, Size(tables[pid]))
    ensures Agree(bitmap, tables - {pid}, owner)
  {
  }

  // ------------------------------------------------------------- pigeonhole

  function Below(n: nat): (all: set<nat>)
    ensures |all| == n && forall i :: i in all <==> 0 <= i < n
  {
    if n == 0 then {} else Below(n - 1) + {n - 1}
  }

  lemma {:induction false} FrameSetSize(table: seq<Page>, n: nat) returns (frames: set<nat>)
    requires n <= |table| && forall i, j :: 0 <= i < j < n ==> table[i].frame != table[j].frame
    ensures |frames| == n && forall f :: f in frames <==> exists i :: 0 <= i < n && table[i].frame == f
    decreases n
  {
    frames := {};
    if n > 0 {
      var rest := FrameSetSize(table, n - 1);
      frames := rest + {table[n - 1].frame};
    }
  }

  /** While a frame is free, no process has filled its page table. */
  lemma {:induction false} RoomInTable(bitmap: seq<bool>, tables: Tables, owner: seq<Owner>, pid: nat, f: nat)
    requires Agree(bitmap, tables, owner) && pid in tables && f < |bitmap| && !bitmap[f]
    ensures Size(tables[pid]) < |bitmap|
  {
    var n := Size(tables[pid]);
    forall i, j | 0 <= i < j < n ensures tables[pid][i].frame != tables[pid][j].frame {
      assert owner[tables[pid][i].frame] == Holds(pid, i) && owner[tables[pid][j].frame] == Holds(pid, j);
    }
    var frames := FrameSetSize(tables[pid], n);
    var all := Below(|bitmap|);
    assert frames <= all && f in all && f !in frames;
    Smaller(frames, all, f);
  }

  lemma {:induction false} Smaller(a: set<nat>, b: set<nat>, x: nat)
    requires a <= b && x in b && x !in a
    ensures |a| < |b|
  {
    Subset(a, b - {x});
  }

  lemma {:induction false} Subset(a: set<nat>, b: set<nat>)
    requires a <= b
    ensures |a| <= |b|
    decreases a
  {
    if a != {} {
      var x :| x in a;
      Subset(a - {x}, b - {x});
    }
  }

  // ------------------------------------------------- writing through a table

  /** The store after bytes have been put at a logical range of one process. */
  ghost predicate PutAt(store: seq<Byte>, store': seq<Byte>, frames: seq<nat>, pageSize: nat, a: nat, data: seq<Byte>)
    requires pageSize > 0 && a + |data| <= ByteOf(|frames|, pageSize)
  {
    var places := Places(frames, pageSize, a, |data|);
    (forall i :: 0 <= i < |places| ==> places[i] < |store|) && store' == Scatter(store, places, data)
  }

  /** It is the range of that process's memory that has changed, and nobody else's memory. */
  lemma {:induction false} PuttingIsPrivate(bitmap: seq<bool>, tables: Tables, owner: seq<Owner>, store: seq<Byte>,
                                            store': seq<Byte>,
                         pageSize: nat, pid: nat, a: nat, data: seq<Byte>)
    requires Agree(bitmap, tables, owner) && pid in tables
    requires pageSize > 0 && |store| == |store'| == ByteOf(|bitmap|, pageSize)
    requires a + |data| <= ByteOf(Size(tables[pid]), pageSize)
    requires PutAt(store, store', FramesOf(tables[pid]), pageSize, a, data)
    ensures forall q :: q in tables ==> Sound(FramesOf(tables[q]), |bitmap|)
    ensures View(store', FramesOf(tables[pid]), pageSize, |bitmap|)
         == Splice(View(store, FramesOf(tables[pid]), pageSize, |bitmap|), a, data)
    ensures forall q :: q in tables && q != pid ==>
      View(store', FramesOf(tables[q]), pageSize, |bitmap|) == View(store, FramesOf(tables[q]), pageSize, |bitmap|)
  {
    forall q | q in tables ensures Sound(FramesOf(tables[q]), |bitmap|) {
      FramesAreSound(bitmap, tables, owner, q);
    }
    ScatterIsSplice(store, FramesOf(tables[pid]), pageSize, |bitmap|, a, data);
    forall q | q in tables && q != pid
      ensures View(store', FramesOf(tables[q]), pageSize, |bitmap|)
              == View(store, FramesOf(tables[q]), pageSize, |bitmap|)
    {
      FramesApart(bitmap, tables, owner, pid, q);
      ScatterElsewhere(store, FramesOf(tables[pid]), FramesOf(tables[q]), pageSize, |bitmap|, a, data);
    }
  }

  /** A page table that keeps its first pages keeps their bytes. */
  lemma {:induction false} KeptPagesKeepBytes(store: seq<Byte>, table: seq<Page>, table': seq<Page>, pageSize: nat,
                                              frameCount: nat, n: nat)
    requires pageSize > 0 && |store| == ByteOf(frameCount, pageSize)
    requires Sound(FramesOf(table), frameCount) && Sound(FramesOf(table'), frameCount)
    requires n <= Size(table) && n <= Size(table') && forall i :: 0 <= i < n ==> table'[i] == table[i]
    ensures ByteOf(n, pageSize) <= ByteOf(Size(table), pageSize) &&
            ByteOf(n, pageSize) <= ByteOf(Size(table'), pageSize)
    ensures View(store, FramesOf(table'), pageSize, frameCount)[..ByteOf(n, pageSize)]
         == View(store, FramesOf(table), pageSize, frameCount)[..ByteOf(n, pageSize)]
  {
    hide View;
    ByteOfMonotone(n, Size(table), pageSize);
    ByteOfMonotone(n, Size(table'), pageSize);
    forall a | 0 <= a < ByteOf(n, pageSize)
      ensures View(store, FramesOf(table'), pageSize, frameCount)[a]
              == View(store, FramesOf(table), pageSize, frameCount)[a]
    {
      CellBelow(a, n, pageSize);
      ViewAt(store, FramesOf(table), pageSize, frameCount, a);
      ViewAt(store, FramesOf(table'), pageSize, frameCount, a);
    }
  }
}
