/** What the compaction loop keeps: files below the hole have been slid down, files at or
    above the scan position have not been touched, and between the two every block is free. */
module DialFsCompaction {
  import opened Arith
  import opened Bits
  import opened Builds
  import opened DialFsLayout

  /** The state in which a compaction began. */
  datatype Start = Start(build: Build, bitmap: seq<bool>, fat: seq<Entry>, blocks: seq<Byte>, skip: set<int>,
                         first: nat)

  predicate SameFile(e: Entry, f: Entry) {
    e.name == f.name && e.length == f.length
  }

  predicate SameFiles(fat: seq<Entry>, fat0: seq<Entry>)
    requires |fat| == |fat0|
  {
    forall i :: 0 <= i < |fat| ==> SameFile(fat[i], fat0[i])
  }

  /** Either not reached by the scan yet, or already packed below the hole. */
  predicate Scanned(e: Entry, e0: Entry, blockSize: nat, hole: nat, at: nat)
    requires blockSize > 0
  {
    (e == e0 && at <= e.start) || e.start + Span(e, blockSize) <= hole
  }

  /** The files on the disk lie in the same order as before. */
  predicate SameOrder(fat: seq<Entry>, fat0: seq<Entry>, skip: set<int>)
    requires |fat| == |fat0|
  {
    forall i, j {:trigger Before(fat[i], fat[j])} :: 0 <= i < |fat| && 0 <= j < |fat| && i !in skip && j !in skip ==>
      (Before(fat[i], fat[j]) <==> Before(fat0[i], fat0[j]))
  }

  predicate Before(e: Entry, f: Entry) {
    e.start < f.start
  }

  ghost predicate Sliding(bitmap: seq<bool>, fat: seq<Entry>, fat0: seq<Entry>, blockSize: nat, skip: set<int>,
                          hole: nat, at: nat)
    requires blockSize > 0
  {
    && |fat| == |fat0|
    && hole <= at <= |bitmap|
    && AllAre(bitmap, 0, hole, true)
    && AllAre(bitmap, hole, at, false)
    && Agree(bitmap, fat, blockSize, skip)
    && SameFiles(fat, fat0)
    && (forall i :: 0 <= i < |fat| && i in skip ==> fat[i] == fat0[i])
    && (forall i :: 0 <= i < |fat| && i !in skip ==> Scanned(fat[i], fat0[i], blockSize, hole, at))
    && SameOrder(fat, fat0, skip)
  }

  /** The stale start of a lifted entry is not inside any file on the disk. */
  predicate StaleApart(fat: seq<Entry>, blockSize: nat, skip: set<int>)
    requires blockSize > 0
  {
    forall i, j {:trigger Covers(fat[i], blockSize, fat[j].start)} ::
      0 <= i < |fat| && 0 <= j < |fat| && i !in skip && j in skip ==> !Covers(fat[i], blockSize, fat[j].start)
  }

  /** Every file on the disk reads as it did before. */
  ghost predicate SameContents(blocks: seq<Byte>, fat: seq<Entry>, blocks0: seq<Byte>, fat0: seq<Entry>,
                               blockSize: nat, skip: set<int>)
    requires blockSize > 0
  {
    && |fat| == |fat0| && |blocks| == |blocks0|
    && (forall i :: 0 <= i < |fat| && i !in skip ==>
      Fits(fat[i], blockSize, |blocks|) &&
      Fits(fat0[i], blockSize, |blocks0|))
    && (forall i :: 0 <= i < |fat| && i !in skip ==>
          Content(blocks, fat[i], blockSize) == Content(blocks0, fat0[i], blockSize))
  }

  /** Every empty file that began beyond the first hole is still ahead of the scan. */
  predicate EmptiesAhead(fat: seq<Entry>, fat0: seq<Entry>, skip: set<int>, first: nat, at: nat)
    requires |fat| == |fat0|
  {
    forall i :: 0 <= i < |fat| && i !in skip && fat0[i].length == 0 && first < fat0[i].start ==>
      at <= fat[i].start
  }

  /** A set bit at the scan position is the first block of exactly one file: no other entry
      starts there, neither one that has been moved nor a lifted one with its stale start. */
  lemma {:induction false} ScanMeetsOneFile(bitmap: seq<bool>, fat: seq<Entry>, fat0: seq<Entry>, blockSize: nat,
                                            skip: set<int>,
                         hole: nat, at: nat)
      returns (i: nat)
    requires blockSize > 0 && Sliding(bitmap, fat, fat0, blockSize, skip, hole, at)
    requires StaleApart(fat0, blockSize, skip)
    requires at < |bitmap| && bitmap[at]
    ensures i < |fat| && i !in skip && fat[i] == fat0[i] && fat[i].start == at
    ensures forall j :: 0 <= j < |fat| && fat[j].start == at ==> j == i
  {
    assert Owned(fat, blockSize, skip, |fat|, at);
    i :| 0 <= i < |fat| && i !in skip && Covers(fat[i], blockSize, at);
    assert Scanned(fat[i], fat0[i], blockSize, hole, at);
    assert Covers(fat0[i], blockSize, at);
    forall j | 0 <= j < |fat| && j != i
      ensures fat[j].start != at
    {
      if j !in skip {
        assert if j < i then Apart(fat[j], fat[i], blockSize) else Apart(fat[i], fat[j], blockSize);
      } else {
        assert !Covers(fat0[i], blockSize, fat0[j].start);
      }
    }
  }

  /** Sliding one file down to the hole. Its old and new blocks may overlap: the bits are
      cleared at the old place before they are set at the new one. */
  lemma {:induction false} SlideBits(bitmap: seq<bool>, fat: seq<Entry>, fat0: seq<Entry>, blockSize: nat,
                                     skip: set<int>,
                  first: nat, hole: nat, at: nat, i: nat)
    requires blockSize > 0 && Sliding(bitmap, fat, fat0, blockSize, skip, hole, at)
    requires i < |fat| && i !in skip && fat[i] == fat0[i] && fat[i].start == at
    ensures hole <= at && AllAre(bitmap, hole, at, false)
    ensures EmptiesAhead(fat, fat0, skip, first, at) && fat[i].length > 0 ==>
      EmptiesAhead(fat[i := fat[i].(start := hole)], fat0, skip, first, hole + Span(fat[i], blockSize))
    ensures var n := Span(fat[i], blockSize);
            && at + n <= |bitmap|
            && Agree(Marked(Marked(bitmap, at, n, false), hole, n, true), fat[i := fat[i].(start := hole)], blockSize,
                     skip)
            && Sliding(Marked(Marked(bitmap, at, n, false), hole, n, true), fat[i := fat[i].(start := hole)], fat0,
                       blockSize, skip, hole + n, hole + n)
  {
    var n := Span(fat[i], blockSize);
    var e := fat[i].(start := hole);
    Lift(bitmap, fat, blockSize, skip, i);
    var lifted := Marked(bitmap, at, n, false);
    forall b | hole <= b < hole + n ensures !lifted[b] {
    }
    Place(lifted, fat, blockSize, skip + {i}, i, e);
    assert skip + {i} - {i} == skip;
    var fat' := fat[i := e];
    forall j | 0 <= j < |fat| && j !in skip && j != i
      ensures Scanned(fat'[j], fat0[j], blockSize, hole + n, hole + n)
      ensures fat[j].start + Span(fat[j], blockSize) <= hole || at + n <= fat[j].start
    {
      assert Scanned(fat[j], fat0[j], blockSize, hole, at);
      assert if i < j then Apart(fat[i], fat[j], blockSize) else Apart(fat[j], fat[i], blockSize);
    }
    forall j, k | 0 <= j < |fat| && 0 <= k < |fat| && j !in skip && k !in skip
      ensures Before(fat'[j], fat'[k]) <==> Before(fat0[j], fat0[k])
    {
      assert Before(fat[j], fat[k]) <==> Before(fat0[j], fat0[k]);
      assert Before(fat[k], fat[j]) <==> Before(fat0[k], fat0[j]);
    }
  }

  /** Copying one file's bytes to the hole, by way of a buffer, leaves what every file reads alone. */
  lemma {:induction false} SlideBytes(blocks: seq<Byte>, fat: seq<Entry>, blocks0: seq<Byte>, fat0: seq<Entry>,
                                      bitmap: seq<bool>,
                   blockSize: nat, skip: set<int>, hole: nat, at: nat, i: nat)
    requires blockSize > 0 && |blocks| == ByteOf(|bitmap|, blockSize)
    requires hole <= at && Sliding(bitmap, fat, fat0, blockSize, skip, hole, at)
    requires SameContents(blocks, fat, blocks0, fat0, blockSize, skip)
    requires i < |fat| && i !in skip && fat[i] == fat0[i] && fat[i].start == at &&
        at + Span(fat[i], blockSize) <= |bitmap|
    ensures Fits(fat[i].(start := hole), blockSize, |blocks|)
    ensures SameContents(Overwrite(blocks, ByteOf(hole, blockSize), Content(blocks, fat[i], blockSize)),
                         fat[i := fat[i].(start := hole)], blocks0, fat0, blockSize, skip)
  {
    hide Sliding, Agree;
    var e := fat[i].(start := hole);
    ExtentFits(e, blockSize, |bitmap|);
    var data := Content(blocks, fat[i], blockSize);
    var blocks' := Overwrite(blocks, ByteOf(hole, blockSize), data);
    forall j | 0 <= j < |fat| && j !in skip && j != i
      ensures Content(blocks', fat[j], blockSize) == Content(blocks0, fat0[j], blockSize)
    {
      StaysApart(bitmap, fat, fat0, blockSize, skip, hole, at, i, j);
      OverwriteApart(blocks, e, fat[j], blockSize, 0, data);
    }
    WritingAll(blocks, e, blockSize, data);
  }

  lemma {:induction false} StaysApart(bitmap: seq<bool>, fat: seq<Entry>, fat0: seq<Entry>, blockSize: nat,
                                      skip: set<int>,
                   hole: nat, at: nat, i: nat, j: nat)
    requires blockSize > 0 && Sliding(bitmap, fat, fat0, blockSize, skip, hole, at)
    requires i < |fat| && i !in skip && fat[i].start == at && j < |fat| && j !in skip && j != i
    ensures Apart(fat[i].(start := hole), fat[j], blockSize)
  {
    assert Scanned(fat[j], fat0[j], blockSize, hole, at);
    assert if i < j then Apart(fat[i], fat[j], blockSize) else Apart(fat[j], fat[i], blockSize);
  }

  /** A file slid down from above leaves a free block right behind it. */
  lemma {:induction false} SlideOpensHole(bitmap: seq<bool>, hole: nat, at: nat, n: nat)
    requires hole < at && at + n <= |bitmap| && AllAre(bitmap, hole, at, false)
    ensures hole + n < |bitmap|
    ensures !Marked(Marked(bitmap, at, n, false), hole, n, true)[hole + n]
  {
  }

  /** When the scan is through, the used blocks are a prefix of the disk. */
  lemma {:induction false} SlidingDone(bitmap: seq<bool>, fat: seq<Entry>, fat0: seq<Entry>, blockSize: nat,
                                       skip: set<int>, hole: nat)
    requires blockSize > 0 && Sliding(bitmap, fat, fat0, blockSize, skip, hole, |bitmap|)
    ensures hole == Demand(fat0, blockSize, skip, |fat0|)
  {
    CountPrefix(bitmap, hole);
    CountIsDemand(bitmap, fat, blockSize, skip, |fat|);
    DemandSame(fat, fat0, blockSize, skip, |fat|);
  }

  /** What holds of the scan while no empty file has been mishandled. */
  ghost predicate Kept(bitmap: seq<bool>, fat: seq<Entry>, metadata: map<string, Meta>, blocks: seq<Byte>,
                       was: Start, blockSize: nat, hole: nat, at: nat) {
    && blockSize > 0
    && Consistent(bitmap, |blocks|, fat, metadata, blockSize, was.skip)
    && StaleApart(was.fat, blockSize, was.skip)
    && was.first <= hole && was.first < |was.bitmap| == |bitmap| && !was.bitmap[was.first]
    && AllAre(was.bitmap, 0, was.first, true)
    && Sliding(bitmap, fat, was.fat, blockSize, was.skip, hole, at)
    && SameContents(blocks, fat, was.blocks, was.fat, blockSize, was.skip)
    && (hole < |bitmap| ==> !bitmap[hole])
    && (was.build.AsWritten? ==> EmptiesAhead(fat, was.fat, was.skip, was.first, at))
  }

  /** A file of length 0 lies beyond some free block. */
  predicate EmptyPastHole(bitmap: seq<bool>, fat: seq<Entry>, skip: set<int>) {
    exists i :: 0 <= i < |fat| && i !in skip && fat[i].length == 0 && HoleBelow(bitmap, fat[i].start)
  }

  predicate HoleBelow(bitmap: seq<bool>, block: nat) {
    exists b :: 0 <= b < block && b < |bitmap| && !bitmap[b]
  }

  /** The as-written build has moved an empty file without its bit: the bit stays set at
      `trap`, no entry starts there, and the scan will run into it. */
  ghost predicate Trapped(bitmap: seq<bool>, fat: seq<Entry>, was: Start, hole: nat, at: int, trap: int) {
    && was.build.AsWritten? && EmptyPastHole(was.bitmap, was.fat, was.skip)
    && hole <= at <= trap < |bitmap| && bitmap[trap]
    && AllAre(bitmap, hole, trap, false)
    && forall j :: 0 <= j < |fat| ==> fat[j].start != trap
  }

  lemma {:induction false} KeptAtStart(bitmap: seq<bool>, fat: seq<Entry>, metadata: map<string, Meta>,
                                       blocks: seq<Byte>,
                    was: Start, blockSize: nat)
    requires Consistent(bitmap, |blocks|, fat, metadata, blockSize, was.skip)
    requires StaleApart(fat, blockSize, was.skip)
    requires was.first < |bitmap| && !bitmap[was.first] && AllAre(bitmap, 0, was.first, true)
    requires was.bitmap == bitmap && was.fat == fat && was.blocks == blocks
    ensures Kept(bitmap, fat, metadata, blocks, was, blockSize, was.first, was.first)
  {
  }

  lemma {:induction false} KeptPassing(bitmap: seq<bool>, fat: seq<Entry>, metadata: map<string, Meta>,
                                       blocks: seq<Byte>,
                    was: Start, blockSize: nat, hole: nat, at: nat)
    requires Kept(bitmap, fat, metadata, blocks, was, blockSize, hole, at)
    requires at < |bitmap| && !bitmap[at]
    ensures Kept(bitmap, fat, metadata, blocks, was, blockSize, hole, at + 1)
  {
  }

  lemma {:induction false} KeptSliding(bitmap: seq<bool>, fat: seq<Entry>, metadata: map<string, Meta>,
                                       blocks: seq<Byte>,
                    was: Start, blockSize: nat, hole: nat, at: nat, i: nat)
    requires Kept(bitmap, fat, metadata, blocks, was, blockSize, hole, at)
    requires i < |fat| && i !in was.skip && fat[i] == was.fat[i] && fat[i].start == at && at < |bitmap| && bitmap[at]
    requires was.build.Repaired? || fat[i].length > 0
    ensures blockSize > 0 && Fits(fat[i], blockSize, |blocks|)
    ensures fat[i].name in metadata && metadata[fat[i].name] == Meta(at, fat[i].length)
    ensures var n, e := Span(fat[i], blockSize), fat[i].(start := hole);
            && at + n <= |bitmap| && hole + n <= |bitmap| && Fits(e, blockSize, |blocks|)
            && Kept(Marked(Marked(bitmap, at, n, false), hole, n, true), fat[i := e],
                    metadata[e.name := Meta(hole, e.length)],
                    Overwrite(blocks, ByteOf(hole, blockSize), Content(blocks, fat[i], blockSize)),
                    was, blockSize, hole + n, hole + n)
  {
    hide Agree, Synced, DistinctNames, Sliding, SameContents, StaleApart, EmptiesAhead;
    var e := fat[i].(start := hole);
    var n := Span(e, blockSize);
    SlideBits(bitmap, fat, was.fat, blockSize, was.skip, was.first, hole, at, i);
    ConsistentUpdate(bitmap, Marked(Marked(bitmap, at, n, false), hole, n, true), |blocks|, fat, metadata, blockSize,
                     was.skip, was.skip, i, e);
    SlideBytes(blocks, fat, was.blocks, was.fat, bitmap, blockSize, was.skip, hole, at, i);
    SlideOpensHole(bitmap, hole, at, n);
  }

  /** Moving an empty file the way the source does strands its block. */
  lemma {:induction false} EmptySlideTraps(bitmap: seq<bool>, fat: seq<Entry>, metadata: map<string, Meta>,
                                           blocks: seq<Byte>,
                        was: Start, blockSize: nat, hole: nat, at: nat, i: nat)
    requires Kept(bitmap, fat, metadata, blocks, was, blockSize, hole, at) && was.build.AsWritten?
    requires i < |fat| && i !in was.skip && fat[i] == was.fat[i] && fat[i].start == at && at < |bitmap| && bitmap[at]
    requires forall j :: 0 <= j < |fat| && fat[j].start == at ==> j == i
    requires fat[i].length == 0
    ensures blockSize > 0 && Fits(fat[i], blockSize, |blocks|) && Fits(fat[i].(start := hole), blockSize, |blocks|)
    ensures fat[i].name in metadata
    ensures Trapped(bitmap, fat[i := fat[i].(start := hole)], was, hole, hole, at)
  {
    assert was.fat[i].length == 0 && HoleBelow(was.bitmap, was.fat[i].start);
    ByteOfMonotone(hole, at, blockSize);
  }

  lemma {:induction false} TrappedPassing(bitmap: seq<bool>, fat: seq<Entry>, was: Start, hole: nat, at: nat, trap: nat)
    requires Trapped(bitmap, fat, was, hole, at, trap) && !bitmap[at]
    ensures at < trap && Trapped(bitmap, fat, was, hole, at + 1, trap)
  {
  }

  lemma {:induction false} KeptAtEnd(bitmap: seq<bool>, fat: seq<Entry>, metadata: map<string, Meta>, blocks: seq<Byte>,
                  was: Start, blockSize: nat, hole: nat)
    requires Kept(bitmap, fat, metadata, blocks, was, blockSize, hole, |bitmap|)
    ensures Consistent(bitmap, |blocks|, fat, metadata, blockSize, was.skip)
    ensures Sliding(bitmap, fat, was.fat, blockSize, was.skip, hole, |bitmap|)
    ensures SameContents(blocks, fat, was.blocks, was.fat, blockSize, was.skip)
    ensures hole == Demand(was.fat, blockSize, was.skip, |was.fat|)
    ensures was.build.AsWritten? ==> !EmptyPastHole(was.bitmap, was.fat, was.skip)
  {
    SlidingDone(bitmap, fat, was.fat, blockSize, was.skip, hole);
  }

  lemma {:induction false} StaleIsApart(bitmap: seq<bool>, fat: seq<Entry>, blockSize: nat, i: nat)
    requires blockSize > 0 && i < |fat| && Agree(bitmap, fat, blockSize, {i})
    requires fat[i].start < |bitmap| && !bitmap[fat[i].start]
    ensures StaleApart(fat, blockSize, {i})
  {
  }

  /** After a compaction the free blocks are one hole at the end. */
  lemma {:induction false} HoleAtEnd(bitmap: seq<bool>, fat: seq<Entry>, fat0: seq<Entry>, blockSize: nat,
                                     skip: set<int>, hole: nat, need: nat)
    requires blockSize > 0 && need > 0 && Sliding(bitmap, fat, fat0, blockSize, skip, hole, |bitmap|)
    requires hole + need <= |bitmap|
    ensures |fat| == |fat0| && SameFiles(fat, fat0)
    ensures forall i :: 0 <= i < |fat| && i in skip ==> fat[i] == fat0[i]
    ensures !bitmap[hole] && RunAt(bitmap, hole, need)
    ensures forall clear :: 0 <= clear < |bitmap| && !bitmap[clear] && AllAre(bitmap, 0, clear, true) ==> clear == hole
  {
  }
}
