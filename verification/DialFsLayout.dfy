/** The on-disk layout of DialFS as values: FAT entries, the extents they own,
    and what it means for the bitmap, the FAT and the metadata files to agree. */
module DialFsLayout {
  import opened Arith
  import opened Bits
  import opened Sequences

  /** One element of the FAT list. */
  datatype Entry = Entry(name: string, start: nat, length: nat)

  /** The two keys of a metadata file. */
  datatype Meta = Meta(start: nat, length: nat)

  function Span(e: Entry, blockSize: nat): (n: nat)
    requires blockSize > 0
    ensures n >= 1
  {
    Blocks(e.length, blockSize)
  }

  predicate Covers(e: Entry, blockSize: nat, b: int)
    requires blockSize > 0
  {
    e.start <= b < e.start + Span(e, blockSize)
  }

  predicate Apart(e: Entry, f: Entry, blockSize: nat)
    requires blockSize > 0
  {
    || e.start + Span(e, blockSize) <= f.start
    || f.start + Span(f, blockSize) <= e.start
  }

  /** Block b belongs to one of the first k entries not in `skip`. */
  predicate Owned(fat: seq<Entry>, blockSize: nat, skip: set<int>, k: nat, b: int)
    requires blockSize > 0 && k <= |fat|
  {
    exists i :: 0 <= i < k && i !in skip && Covers(fat[i], blockSize, b)
  }

  /** Extents in range and pairwise disjoint; the bitmap sets exactly their union.
      Entries whose index is in `skip` are lifted off the disk: they own nothing. */
  ghost predicate Agree(bitmap: seq<bool>, fat: seq<Entry>, blockSize: nat, skip: set<int>)
    requires blockSize > 0
  {
    AgreeUpTo(bitmap, fat, blockSize, skip, |fat|)
  }

  ghost predicate AgreeUpTo(bitmap: seq<bool>, fat: seq<Entry>, blockSize: nat, skip: set<int>, k: nat)
    requires blockSize > 0 && k <= |fat|
  {
    && (forall i :: 0 <= i < k && i !in skip ==> fat[i].start + Span(fat[i], blockSize) <= |bitmap|)
    && (forall i, j {:trigger Apart(fat[i], fat[j], blockSize)} ::
          0 <= i < j < k && i !in skip && j !in skip ==> Apart(fat[i], fat[j], blockSize))
    && (forall b :: 0 <= b < |bitmap| ==> (bitmap[b] <==> Owned(fat, blockSize, skip, k, b)))
  }

  predicate DistinctNames(fat: seq<Entry>) {
    forall i, j :: 0 <= i < j < |fat| ==> fat[i].name != fat[j].name
  }

  /** The metadata directory holds one file per entry, with that entry's start and length. */
  ghost predicate Synced(metadata: map<string, Meta>, fat: seq<Entry>) {
    && (forall i :: 0 <= i < |fat| ==>
          fat[i].name in metadata && metadata[fat[i].name] == Meta(fat[i].start, fat[i].length))
    && (forall n :: n in metadata ==> exists i :: 0 <= i < |fat| && fat[i].name == n)
  }

  /** Rewriting one entry together with its metadata file keeps the two in step. */
  lemma {:induction false} SyncedUpdate(metadata: map<string, Meta>, fat: seq<Entry>, i: nat, e: Entry)
    requires i < |fat| && e.name == fat[i].name
    requires DistinctNames(fat) && Synced(metadata, fat)
    ensures DistinctNames(fat[i := e])
    ensures Synced(metadata[e.name := Meta(e.start, e.length)], fat[i := e])
  {
    var fat' := fat[i := e];
    forall n | n in metadata
      ensures exists j :: 0 <= j < |fat'| && fat'[j].name == n
    {
      var j :| 0 <= j < |fat| && fat[j].name == n;
      assert fat'[j].name == n;
    }
    assert fat'[i].name == e.name;
  }

  lemma {:induction false} NamesDrop(fat: seq<Entry>, i: nat)
    requires i < |fat| && DistinctNames(fat)
    ensures DistinctNames(Without(fat, i))
    ensures forall j :: 0 <= j < |fat| && j != i ==> fat[j].name != fat[i].name
  {
  }

  lemma {:induction false} SyncedDrop(metadata: map<string, Meta>, fat: seq<Entry>, i: nat)
    requires i < |fat| && DistinctNames(fat) && Synced(metadata, fat)
    ensures DistinctNames(Without(fat, i))
    ensures Synced(metadata - {fat[i].name}, Without(fat, i))
  {
    hide DistinctNames;
    NamesDrop(fat, i);
    var fat' := Without(fat, i);
    forall n | n in metadata - {fat[i].name}
      ensures exists j :: 0 <= j < |fat'| && fat'[j].name == n
    {
      var j :| 0 <= j < |fat| && fat[j].name == n;
      assert fat'[if j < i then j else j - 1].name == n;
    }
  }

  // ---------------------------------------------------------------- counting

  /** Blocks owned by the first k entries not in `skip`. */
  function Demand(fat: seq<Entry>, blockSize: nat, skip: set<int>, k: nat): nat
    requires blockSize > 0 && k <= |fat|
  {
    if k == 0 then 0
    else Demand(fat, blockSize, skip, k - 1) + (if k - 1 in skip then 0 else Span(fat[k - 1], blockSize))
  }

  /** Taking one file's extent out of the bitmap leaves the bitmap of the others. */
  lemma {:induction false} Peel(bitmap: seq<bool>, fat: seq<Entry>, blockSize: nat, skip: set<int>, k: nat)
    requires blockSize > 0 && 0 < k <= |fat| && k - 1 !in skip
    requires AgreeUpTo(bitmap, fat, blockSize, skip, k)
    ensures AllAre(bitmap, fat[k - 1].start, fat[k - 1].start + Span(fat[k - 1], blockSize), true)
    ensures AgreeUpTo(Marked(bitmap, fat[k - 1].start, Span(fat[k - 1], blockSize), false), fat, blockSize, skip, k - 1)
  {
    var e, n := fat[k - 1], Span(fat[k - 1], blockSize);
    var less := Marked(bitmap, e.start, n, false);
    forall b | 0 <= b < |bitmap|
      ensures e.start <= b < e.start + n ==> bitmap[b]
      ensures less[b] <==> Owned(fat, blockSize, skip, k - 1, b)
    {
      assert Covers(e, blockSize, b) <==> e.start <= b < e.start + n;
      assert bitmap[b] <==> Owned(fat, blockSize, skip, k, b);
      if Owned(fat, blockSize, skip, k - 1, b) {
        var i :| 0 <= i < k - 1 && i !in skip && Covers(fat[i], blockSize, b);
        assert Apart(fat[i], fat[k - 1], blockSize);
      }
    }
  }

  /** The number of set bits is the number of blocks the files own. */
  lemma {:induction false} CountIsDemand(bitmap: seq<bool>, fat: seq<Entry>, blockSize: nat, skip: set<int>, k: nat)
    requires blockSize > 0 && k <= |fat|
    requires AgreeUpTo(bitmap, fat, blockSize, skip, k)
    ensures Count(bitmap) == Demand(fat, blockSize, skip, k)
    decreases k
  {
    if k == 0 {
      CountBound(bitmap);
    } else if k - 1 in skip {
      assert forall b :: Owned(fat, blockSize, skip, k, b) <==> Owned(fat, blockSize, skip, k - 1, b);
      CountIsDemand(bitmap, fat, blockSize, skip, k - 1);
    } else {
      Peel(bitmap, fat, blockSize, skip, k);
      CountIsDemand(Marked(bitmap, fat[k - 1].start, Span(fat[k - 1], blockSize), false), fat, blockSize, skip, k - 1);
      CountMarkedAll(bitmap, fat[k - 1].start, Span(fat[k - 1], blockSize), false);
    }
  }

  lemma {:induction false} CountAgrees(bitmap: seq<bool>, fat: seq<Entry>, blockSize: nat, skip: set<int>)
    requires blockSize > 0 && Agree(bitmap, fat, blockSize, skip)
    ensures Count(bitmap) == Demand(fat, blockSize, skip, |fat|)
  {
    CountIsDemand(bitmap, fat, blockSize, skip, |fat|);
  }

  lemma {:induction false} DemandLifted(fat: seq<Entry>, blockSize: nat, i: nat, k: nat)
    requires blockSize > 0 && i < |fat| && k <= |fat|
    ensures Demand(fat, blockSize, {}, k) == Demand(fat, blockSize, {i}, k)
            + (if i < k then Span(fat[i], blockSize) else 0)
    decreases k
  {
    if k > 0 {
      DemandLifted(fat, blockSize, i, k - 1);
    }
  }

  /** Demand depends on the lengths of the entries that are not skipped, and on nothing else. */
  lemma {:induction false} DemandSame(fat: seq<Entry>, fat': seq<Entry>, blockSize: nat, skip: set<int>, k: nat)
    requires blockSize > 0 && k <= |fat| && k <= |fat'|
    requires forall i :: 0 <= i < k && i !in skip ==> fat[i].length == fat'[i].length
    ensures Demand(fat, blockSize, skip, k) == Demand(fat', blockSize, skip, k)
    decreases k
  {
    if k > 0 {
      DemandSame(fat, fat', blockSize, skip, k - 1);
    }
  }

  // --------------------------------------------- lifting and placing extents

  /** Clearing a file's bits lifts it: the bitmap now agrees with the others alone. */
  lemma {:induction false} Lift(bitmap: seq<bool>, fat: seq<Entry>, blockSize: nat, skip: set<int>, i: nat)
    requires blockSize > 0 && i < |fat| && i !in skip
    requires Agree(bitmap, fat, blockSize, skip)
    ensures fat[i].start + Span(fat[i], blockSize) <= |bitmap|
    ensures AllAre(bitmap, fat[i].start, fat[i].start + Span(fat[i], blockSize), true)
    ensures Agree(Marked(bitmap, fat[i].start, Span(fat[i], blockSize), false), fat, blockSize, skip + {i})
  {
    var e, n := fat[i], Span(fat[i], blockSize);
    var less := Marked(bitmap, e.start, n, false);
    forall b | 0 <= b < |bitmap|
      ensures e.start <= b < e.start + n ==> bitmap[b]
      ensures less[b] <==> Owned(fat, blockSize, skip + {i}, |fat|, b)
    {
      assert Covers(e, blockSize, b) <==> e.start <= b < e.start + n;
      assert bitmap[b] <==> Owned(fat, blockSize, skip, |fat|, b);
      if bitmap[b] && !Covers(e, blockSize, b) {
        var j :| 0 <= j < |fat| && j !in skip && Covers(fat[j], blockSize, b);
        assert j !in skip + {i};
      }
      if Owned(fat, blockSize, skip + {i}, |fat|, b) {
        var j :| 0 <= j < |fat| && j !in skip + {i} && Covers(fat[j], blockSize, b);
        assert if i < j then Apart(fat[i], fat[j], blockSize) else Apart(fat[j], fat[i], blockSize);
      }
    }
  }

  /** Setting a clear stretch and recording it as a lifted file's extent puts that file back. */
  lemma {:induction false} Place(bitmap: seq<bool>, fat: seq<Entry>, blockSize: nat, skip: set<int>, i: nat, e: Entry)
    requires blockSize > 0 && i < |fat| && i in skip
    requires Agree(bitmap, fat, blockSize, skip)
    requires e.start + Span(e, blockSize) <= |bitmap|
    requires AllAre(bitmap, e.start, e.start + Span(e, blockSize), false)
    ensures Agree(Marked(bitmap, e.start, Span(e, blockSize), true), fat[i := e], blockSize, skip - {i})
  {
    var n, fat' := Span(e, blockSize), fat[i := e];
    var more := Marked(bitmap, e.start, n, true);
    forall j | 0 <= j < |fat| && j !in skip - {i} && j != i
      ensures Apart(fat[j], e, blockSize)
    {
      AwayFromClear(bitmap, fat, blockSize, skip, j, e);
    }
    assert forall j, k :: 0 <= j < k < |fat| && j !in skip - {i} && k !in skip - {i} ==>
        Apart(fat'[j], fat'[k], blockSize);
    forall b | 0 <= b < |bitmap|
      ensures more[b] <==> Owned(fat', blockSize, skip - {i}, |fat|, b)
    {
      assert bitmap[b] <==> Owned(fat, blockSize, skip, |fat|, b);
      if e.start <= b < e.start + n {
        assert Covers(fat'[i], blockSize, b);
      } else if bitmap[b] {
        var j :| 0 <= j < |fat| && j !in skip && Covers(fat[j], blockSize, b);
        assert Covers(fat'[j], blockSize, b) && j !in skip - {i};
      }
      if Owned(fat', blockSize, skip - {i}, |fat|, b) {
        var j :| 0 <= j < |fat| && j !in skip - {i} && Covers(fat'[j], blockSize, b);
        assert j == i || (Covers(fat[j], blockSize, b) && j !in skip);
      }
    }
  }

  /** A file on the disk stays clear of every stretch of clear bits. */
  lemma {:induction false} AwayFromClear(bitmap: seq<bool>, fat: seq<Entry>, blockSize: nat, skip: set<int>, j: nat,
                                         e: Entry)
    requires blockSize > 0 && j < |fat| && j !in skip
    requires Agree(bitmap, fat, blockSize, skip)
    requires e.start + Span(e, blockSize) <= |bitmap|
    requires AllAre(bitmap, e.start, e.start + Span(e, blockSize), false)
    ensures Apart(fat[j], e, blockSize)
  {
    forall b | Covers(e, blockSize, b)
      ensures !Covers(fat[j], blockSize, b)
    {
      assert bitmap[b] <==> Owned(fat, blockSize, skip, |fat|, b);
    }
    assert Covers(e, blockSize, e.start) && Covers(fat[j], blockSize, fat[j].start);
  }

  /** An entry appended to the FAT before it owns any block is a lifted one. */
  lemma {:induction false} AppendLifted(bitmap: seq<bool>, fat: seq<Entry>, blockSize: nat, e: Entry)
    requires blockSize > 0 && Agree(bitmap, fat, blockSize, {})
    ensures Agree(bitmap, fat + [e], blockSize, {|fat|})
  {
    var fat' := fat + [e];
    forall b | 0 <= b < |bitmap|
      ensures bitmap[b] <==> Owned(fat', blockSize, {|fat|}, |fat'|, b)
    {
      assert bitmap[b] <==> Owned(fat, blockSize, {}, |fat|, b);
      if bitmap[b] {
        var j :| 0 <= j < |fat| && j !in {} && Covers(fat[j], blockSize, b);
        assert Covers(fat'[j], blockSize, b) && j !in {|fat|};
      }
    }
  }

  /** A lifted entry can be dropped from the FAT. */
  lemma {:induction false} DropLifted(bitmap: seq<bool>, fat: seq<Entry>, blockSize: nat, i: nat)
    requires blockSize > 0 && i < |fat| && Agree(bitmap, fat, blockSize, {i})
    ensures Agree(bitmap, Without(fat, i), blockSize, {})
  {
    var fat' := Without(fat, i);
    assert forall j :: 0 <= j < |fat'| ==> fat'[j] == fat[if j < i then j else j + 1];
    forall b | 0 <= b < |bitmap|
      ensures bitmap[b] <==> Owned(fat', blockSize, {}, |fat'|, b)
    {
      assert bitmap[b] <==> Owned(fat, blockSize, {i}, |fat|, b);
      if bitmap[b] {
        var j :| 0 <= j < |fat| && j !in {i} && Covers(fat[j], blockSize, b);
        var j' := if j < i then j else j - 1;
        assert Covers(fat'[j'], blockSize, b);
      }
    }
  }

  // -------------------------------------------------------------- bytes

  /** The entry's bytes lie inside the block file. */
  predicate Fits(e: Entry, blockSize: nat, size: nat) {
    ByteOf(e.start, blockSize) + e.length <= size
  }

  lemma {:induction false} ExtentFits(e: Entry, blockSize: nat, blockCount: nat)
    requires blockSize > 0 && e.start + Span(e, blockSize) <= blockCount
    ensures Fits(e, blockSize, ByteOf(blockCount, blockSize))
  {
    BytesInBlocks(e.start, e.length, blockSize);
    ByteOfMonotone(e.start + Span(e, blockSize), blockCount, blockSize);
  }

  /** Bytes of one extent end before a later block starts. */
  lemma {:induction false} ExtentEnds(e: Entry, blockSize: nat, b: nat)
    requires blockSize > 0 && e.start + Span(e, blockSize) <= b
    ensures ByteOf(e.start, blockSize) + e.length <= ByteOf(b, blockSize)
  {
    ExtentFits(e, blockSize, b);
  }

  function Content(blocks: seq<Byte>, e: Entry, blockSize: nat): (c: seq<Byte>)
    requires Fits(e, blockSize, |blocks|)
    ensures |c| == e.length
  {
    blocks[ByteOf(e.start, blockSize)..ByteOf(e.start, blockSize) + e.length]
  }

  function Overwrite(blocks: seq<Byte>, at: nat, data: seq<Byte>): (r: seq<Byte>)
    requires at + |data| <= |blocks|
    ensures |r| == |blocks|
  {
    seq(|blocks|, i requires 0 <= i < |blocks| => if at <= i < at + |data| then data[i - at] else blocks[i])
  }

  lemma {:induction false} WritingAll(blocks: seq<Byte>, e: Entry, blockSize: nat, data: seq<Byte>)
    requires Fits(e, blockSize, |blocks|) && |data| == e.length
    ensures Content(Overwrite(blocks, ByteOf(e.start, blockSize), data), e, blockSize) == data
  {
  }

  /** What is written inside one extent is not seen by a file whose extent is apart. */
  lemma {:induction false} OverwriteApart(blocks: seq<Byte>, e: Entry, f: Entry, blockSize: nat, offset: nat,
                                          data: seq<Byte>)
    requires blockSize > 0 && Apart(e, f, blockSize)
    requires Fits(e, blockSize, |blocks|) && Fits(f, blockSize, |blocks|)
    requires offset + |data| <= e.length
    ensures ByteOf(e.start, blockSize) + offset + |data| <= |blocks|
    ensures Content(Overwrite(blocks, ByteOf(e.start, blockSize) + offset, data), f, blockSize)
            == Content(blocks, f, blockSize)
  {
    if e.start + Span(e, blockSize) <= f.start {
      ExtentEnds(e, blockSize, f.start);
    } else {
      ExtentEnds(f, blockSize, e.start);
    }
  }

  /** The administrative structures agree with each other; entries in `skip` own no block. */
  ghost predicate Consistent(bitmap: seq<bool>, size: nat, fat: seq<Entry>, metadata: map<string, Meta>,
                             blockSize: nat, skip: set<int>) {
    && blockSize > 0 && size == ByteOf(|bitmap|, blockSize)
    && Agree(bitmap, fat, blockSize, skip)
    && DistinctNames(fat)
    && Synced(metadata, fat)
    && (forall i :: 0 <= i < |fat| ==> Fits(fat[i], blockSize, size))
  }

  // ------------------------------------- what each operation does to the structures

  /** One entry rewritten, together with the bitmap and its metadata file. */
  lemma {:induction false} ConsistentUpdate(bitmap: seq<bool>, bitmap': seq<bool>, size: nat, fat: seq<Entry>,
                                            metadata: map<string, Meta>,
                         blockSize: nat, skip: set<int>, skip': set<int>, i: nat, e: Entry)
    requires Consistent(bitmap, size, fat, metadata, blockSize, skip)
    requires i < |fat| && e.name == fat[i].name && e.start + Span(e, blockSize) <= |bitmap| == |bitmap'|
    requires Agree(bitmap', fat[i := e], blockSize, skip')
    ensures e.name in metadata && metadata[e.name] == Meta(fat[i].start, fat[i].length)
    ensures Consistent(bitmap', size, fat[i := e], metadata[e.name := Meta(e.start, e.length)], blockSize, skip')
  {
    hide Agree;
    SyncedUpdate(metadata, fat, i, e);
    ExtentFits(e, blockSize, |bitmap|);
  }

  lemma {:induction false} Creating(bitmap: seq<bool>, size: nat, fat: seq<Entry>, metadata: map<string, Meta>,
                                    blockSize: nat,
                 name: string, at: nat)
    requires Consistent(bitmap, size, fat, metadata, blockSize, {})
    requires at < |bitmap| && !bitmap[at]
    ensures var fat', metadata' := fat + [Entry(name, at, 0)], metadata[name := Meta(at, 0)];
            Consistent(bitmap[at := true], size, fat', metadata', blockSize, {})
            <==> forall i :: 0 <= i < |fat| ==> fat[i].name != name
  {
    var e := Entry(name, at, 0);
    var fat' := fat + [e];
    AppendLifted(bitmap, fat, blockSize, e);
    Place(bitmap, fat', blockSize, {|fat|}, |fat|, e);
    assert fat'[|fat| := e] == fat' && {|fat|} - {|fat|} == {};
    assert Marked(bitmap, at, 1, true) == bitmap[at := true];
    ExtentFits(e, blockSize, |bitmap|);
    forall i | 0 <= i < |fat| ensures fat'[i] == fat[i] {
    }
    assert fat'[|fat|].name == name;
  }

  /** Freeing the file's whole extent and dropping its entry. */
  lemma {:induction false} Deleting(bitmap: seq<bool>, size: nat, fat: seq<Entry>, metadata: map<string, Meta>,
                                    blockSize: nat, i: nat)
    requires i < |fat| && Consistent(bitmap, size, fat, metadata, blockSize, {})
    ensures fat[i].start + Span(fat[i], blockSize) <= |bitmap|
    ensures Consistent(Marked(bitmap, fat[i].start, Span(fat[i], blockSize), false), size,
                       Without(fat, i), metadata - {fat[i].name}, blockSize, {})
  {
    hide Agree, Synced, DistinctNames;
    Lift(bitmap, fat, blockSize, {}, i);
    assert {} + {i} == {i};
    DropLifted(Marked(bitmap, fat[i].start, Span(fat[i], blockSize), false), fat, blockSize, i);
    SyncedDrop(metadata, fat, i);
  }

  /** Some of the entries of a FAT, in any order, agree with its bitmap exactly when they are all of them. */
  lemma {:induction false} AgreeOnlyWhole(bitmap: seq<bool>, fat: seq<Entry>, fat': seq<Entry>, blockSize: nat)
    requires blockSize > 0 && Agree(bitmap, fat, blockSize, {})
    requires DistinctNames(fat) && DistinctNames(fat')
    requires forall i :: 0 <= i < |fat'| ==> fat'[i] in fat
    ensures Agree(bitmap, fat', blockSize, {}) <==> forall i :: 0 <= i < |fat| ==> fat[i] in fat'
  {
    forall e, f | e in fat && f in fat && e != f
      ensures Apart(e, f, blockSize)
    {
      var i, j :| 0 <= i < |fat| && 0 <= j < |fat| && fat[i] == e && fat[j] == f;
      assert if i < j then Apart(fat[i], fat[j], blockSize) else Apart(fat[j], fat[i], blockSize);
    }
    if forall i :: 0 <= i < |fat| ==> fat[i] in fat' {
      forall b | 0 <= b < |bitmap|
        ensures bitmap[b] <==> Owned(fat', blockSize, {}, |fat'|, b)
      {
        SameOwners(fat, fat', blockSize, b);
        SameOwners(fat', fat, blockSize, b);
      }
    } else {
      var i :| 0 <= i < |fat| && fat[i] !in fat';
      assert Covers(fat[i], blockSize, fat[i].start) && Owned(fat, blockSize, {}, |fat|, fat[i].start);
      assert forall j :: 0 <= j < |fat'| ==> Apart(fat'[j], fat[i], blockSize);
      assert bitmap[fat[i].start] && !Owned(fat', blockSize, {}, |fat'|, fat[i].start);
    }
  }

  lemma {:induction false} SameOwners(fat: seq<Entry>, fat': seq<Entry>, blockSize: nat, b: int)
    requires blockSize > 0
    requires forall i :: 0 <= i < |fat| ==> fat[i] in fat'
    ensures Owned(fat, blockSize, {}, |fat|, b) ==> Owned(fat', blockSize, {}, |fat'|, b)
  {
  }

  /** Dropping an entry without freeing its block leaves a bit that no file owns. */
  lemma {:induction false} LeakingBlock(bitmap: seq<bool>, fat: seq<Entry>, blockSize: nat, i: nat)
    requires blockSize > 0 && i < |fat| && Agree(bitmap, fat, blockSize, {}) && DistinctNames(fat)
    ensures !Agree(bitmap, Without(fat, i), blockSize, {})
  {
    AgreeOnlyWhole(bitmap, fat, Without(fat, i), blockSize);
    assert fat[i] !in Without(fat, i);
  }

  /** A file whose bits stay cleared owns blocks that the bitmap calls free. */
  lemma {:induction false} ClearedBreaks(bitmap: seq<bool>, fat: seq<Entry>, blockSize: nat, i: nat)
    requires blockSize > 0 && i < |fat|
    requires fat[i].start < |bitmap| && !bitmap[fat[i].start]
    ensures !Agree(bitmap, fat, blockSize, {})
  {
  }

  lemma {:induction false} Lifting(bitmap: seq<bool>, size: nat, fat: seq<Entry>, metadata: map<string, Meta>,
                                   blockSize: nat, i: nat)
    requires i < |fat| && Consistent(bitmap, size, fat, metadata, blockSize, {})
    ensures fat[i].start + Span(fat[i], blockSize) <= |bitmap|
    ensures Consistent(Marked(bitmap, fat[i].start, Span(fat[i], blockSize), false), size, fat, metadata, blockSize,
                       {i})
    ensures AllAre(bitmap, fat[i].start, fat[i].start + Span(fat[i], blockSize), true)
  {
    Lift(bitmap, fat, blockSize, {}, i);
    assert {} + {i} == {i};
  }

  lemma {:induction false} Placing(bitmap: seq<bool>, size: nat, fat: seq<Entry>, metadata: map<string, Meta>,
                                   blockSize: nat, i: nat, e: Entry)
    requires i < |fat| && Consistent(bitmap, size, fat, metadata, blockSize, {i})
    requires e.name == fat[i].name && e.start + Span(e, blockSize) <= |bitmap|
    requires AllAre(bitmap, e.start, e.start + Span(e, blockSize), false)
    ensures Consistent(Marked(bitmap, e.start, Span(e, blockSize), true), size, fat[i := e],
                       metadata[e.name := Meta(e.start, e.length)], blockSize, {})
  {
    hide Agree, Synced, DistinctNames;
    Place(bitmap, fat, blockSize, {i}, i, e);
    assert {i} - {i} == {};
    ConsistentUpdate(bitmap, Marked(bitmap, e.start, Span(e, blockSize), true), size, fat, metadata, blockSize, {i},
                     {}, i, e);
  }

  /** Giving back the last blocks of a file. */
  lemma {:induction false} Shrinking(bitmap: seq<bool>, size: nat, fat: seq<Entry>, metadata: map<string, Meta>,
                                     blockSize: nat,
                  i: nat, length: nat)
    requires i < |fat| && Consistent(bitmap, size, fat, metadata, blockSize, {})
    requires Blocks(length, blockSize) <= Span(fat[i], blockSize)
    ensures var e := fat[i].(length := length);
            var keep, n := Span(e, blockSize), Span(fat[i], blockSize);
            && fat[i].start + n <= |bitmap|
            && Consistent(Marked(bitmap, fat[i].start + keep, n - keep, false), size, fat[i := e],
                          metadata[e.name := Meta(e.start, e.length)], blockSize, {})
  {
    hide Agree, Synced, DistinctNames;
    var e := fat[i].(length := length);
    var keep, n := Span(e, blockSize), Span(fat[i], blockSize);
    Lifting(bitmap, size, fat, metadata, blockSize, i);
    var lifted := Marked(bitmap, e.start, n, false);
    Placing(lifted, size, fat, metadata, blockSize, i, e);
    assert Marked(lifted, e.start, keep, true) == Marked(bitmap, e.start + keep, n - keep, false);
  }
}
