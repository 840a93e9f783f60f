/** The file system module: bitmap, FAT, block file and metadata files, all updated in place. */
module DialFs {
  import opened Arith
  import opened Bits
  import opened Builds
  import opened DialFsCompaction
  import opened DialFsLayout
  import opened DialFsSpec
  import opened Sequences

  datatype Outcome = Done | NoSuchFile | NoSpace | NullPointer

  /** How a growth to `need` blocks ends, `lifted` being the bitmap without the file's own blocks. */
  ghost predicate GrowthOutcome(build: Build, lifted: seq<bool>, fat: seq<Entry>, i: nat, blockSize: nat, need: nat,
                                o: Outcome)
    requires blockSize > 0 && i < |fat|
  {
    var fits := Demand(fat, blockSize, {i}, |fat|) + need <= |lifted|;
    && (o.NoSpace? <==> !fits)
    && (o.NullPointer? <==> build.AsWritten? && fits && !HasRun(lifted, need) && EmptyPastHole(lifted, fat, {i}))
    && !o.NoSuchFile?
  }

  /** Where a grown file lies: first fit when there is a run, behind all the others when not. */
  ghost predicate GrowthPlace(lifted: seq<bool>, fat: seq<Entry>, i: nat, blockSize: nat, need: nat, start: nat)
    requires blockSize > 0 && i < |fat|
  {
    if HasRun(lifted, need) then
      RunAt(lifted, start, need) && forall s :: 0 <= s < start ==> !RunAt(lifted, s, need)
    else
      start == Demand(fat, blockSize, {i}, |fat|)
  }

  /** The bitmap with one file's own blocks counted as free. */
  function Lifted(bitmap: seq<bool>, e: Entry, blockSize: nat): seq<bool>
    requires blockSize > 0 && e.start + Span(e, blockSize) <= |bitmap|
  {
    Marked(bitmap, e.start, Span(e, blockSize), false)
  }

  ghost predicate HasRun(bitmap: seq<bool>, need: nat) {
    exists s: nat :: RunAt(bitmap, s, need)
  }

  /** When a growth keeps the file's bytes: repaired, always; as written, when the file was moved by
      compaction, or, moved to a run found by the scan, when its bytes survive the copy. */
  ghost predicate GrowthKeeps(build: Build, bitmap: seq<bool>, blocks: seq<Byte>, e: Entry, start: nat,
                              blockSize: nat, need: nat)
    requires blockSize > 0 && e.start + Span(e, blockSize) <= |bitmap|
  {
    || build.Repaired? || !HasRun(Lifted(bitmap, e, blockSize), need)
    || (Fits(e, blockSize, |blocks|) && Fits(e.(start := start), blockSize, |blocks|) &&
        Survives(blocks, e, start, blockSize))
  }

  lemma {:induction false} RunOutcome(build: Build, lifted: seq<bool>, fat: seq<Entry>, i: nat, blockSize: nat,
                                      need: nat, start: nat)
    requires blockSize > 0 && i < |fat| && Agree(lifted, fat, blockSize, {i})
    requires RunAt(lifted, start, need) && forall s :: 0 <= s < start ==> !RunAt(lifted, s, need)
    ensures HasRun(lifted, need) && GrowthPlace(lifted, fat, i, blockSize, need, start)
    ensures GrowthOutcome(build, lifted, fat, i, blockSize, need, Done)
  {
    RunBound(lifted, start, need);
    CountAgrees(lifted, fat, blockSize, {i});
    hide Agree, AllAre;
  }

  lemma {:induction false} NoRunOutcome(build: Build, lifted: seq<bool>, fat: seq<Entry>, i: nat, blockSize: nat,
                                        need: nat, free: int)
    requires blockSize > 0 && i < |fat| && Agree(lifted, fat, blockSize, {i})
    requires (forall s: nat :: !RunAt(lifted, s, need)) && free == |lifted| - Count(lifted)
    ensures !HasRun(lifted, need) && (need <= free <==> Demand(fat, blockSize, {i}, |fat|) + need <= |lifted|)
    ensures need > free ==> GrowthOutcome(build, lifted, fat, i, blockSize, need, NoSpace)
    ensures need <= free ==> GrowthOutcome(build, lifted, fat, i, blockSize, need,
      if build.Repaired? || !EmptyPastHole(lifted, fat, {i}) then Done else NullPointer)
    ensures GrowthPlace(lifted, fat, i, blockSize, need, Demand(fat, blockSize, {i}, |fat|))
  {
    CountAgrees(lifted, fat, blockSize, {i});
    hide Agree, RunAt, EmptyPastHole;
  }

  class FileSystem {
    const build: Build
    const blockSize: nat
    const bitmap: array<bool>
    const blocks: array<Byte>
    var fat: seq<Entry>
    var metadata: map<string, Meta>

    /** A freshly formatted disk. */
    constructor (build: Build, blockSize: nat, blockCount: nat)
      requires blockSize > 0
      ensures Valid() && Files() == []
      ensures this.build == build && this.blockSize == blockSize && bitmap.Length == blockCount
      ensures fresh(bitmap) && fresh(blocks)
    {
      this.build, this.blockSize := build, blockSize;
      bitmap := new bool[blockCount](_ => false);
      blocks := new Byte[ByteOf(blockCount, blockSize)](_ => 0);
      fat, metadata := [], map[];
    }

    ghost predicate Partial(skip: set<int>)
      reads this, bitmap
    {
      Consistent(bitmap[..], blocks.Length, fat, metadata, blockSize, skip)
    }

    ghost predicate Valid()
      reads this, bitmap
    {
      Partial({})
    }

    ghost function Files(): (files: seq<File>)
      reads this, bitmap, blocks
      requires Valid()
    {
      FilesOf(blocks[..], fat, blockSize)
    }

    /** The ceiling the source takes when it frees or moves a file; the repair counts one
        block for an empty file, as creation and truncation do. */
    function BlocksCounted(length: nat): (n: nat)
      requires blockSize > 0
      ensures n == if build.AsWritten? && length == 0 then 0 else Blocks(length, blockSize)
    {
      BlocksIsCeil(length, blockSize);
      if build.AsWritten? then CeilDiv(length, blockSize)
      else if length == 0 then 1 else CeilDiv(length, blockSize)
    }

    /** The ceiling truncation takes, with its own patch for an empty file. */
    function BlocksWanted(length: nat): (n: nat)
      requires blockSize > 0
      ensures n == Blocks(length, blockSize)
    {
      BlocksIsCeil(length, blockSize);
      var n := CeilDiv(length, blockSize);
      if n == 0 then 1 else n
    }

    /** Where block `start` begins in the block file. */
    method Address(start: nat) returns (at: nat)
      ensures at == ByteOf(start, blockSize)
    {
      ByteOfIsProduct(start, blockSize);
      at := start * blockSize;
    }

    method FindName(name: string) returns (i: int)
      ensures -1 <= i < |fat|
      ensures i >= 0 ==> fat[i].name == name
      ensures i < 0 ==> forall j :: 0 <= j < |fat| ==> fat[j].name != name
    {
      i := 0;
      while i < |fat|
        invariant 0 <= i <= |fat|
        invariant forall j :: 0 <= j < i ==> fat[j].name != name
      {
        if fat[i].name == name { return; }
        i := i + 1;
      }
      i := -1;
    }

    method FindStart(start: nat) returns (i: int)
      ensures -1 <= i < |fat|
      ensures i >= 0 ==> fat[i].start == start
      ensures i < 0 ==> forall j :: 0 <= j < |fat| ==> fat[j].start != start
    {
      i := 0;
      while i < |fat|
        invariant 0 <= i <= |fat|
        invariant forall j :: 0 <= j < i ==> fat[j].start != start
      {
        if fat[i].start == start { return; }
        i := i + 1;
      }
      i := -1;
    }

    method Paste(at: nat, data: seq<Byte>)
      requires at + |data| <= blocks.Length
      modifies blocks
      ensures blocks[..] == Overwrite(old(blocks[..]), at, data)
    {
      forall i | 0 <= i < |data| {
        blocks[at + i] := data[i];
      }
    }

    /** Copy by way of a buffer, so the two ranges may overlap. */
    method Copy(source: nat, target: nat, length: nat)
      requires source + length <= blocks.Length && target + length <= blocks.Length
      modifies blocks
      ensures blocks[..] == Overwrite(old(blocks[..]), target, old(blocks[source..source + length]))
    {
      var buffer := blocks[source..source + length];
      Paste(target, buffer);
    }

    /** Moves one file's start, bits and bytes to `hole`; n is the number of blocks moved. */
    method Slide(i: nat, hole: nat) returns (n: nat)
      requires blockSize > 0 && i < |fat| && fat[i].name in metadata
      requires fat[i].start + BlocksCounted(fat[i].length) <= bitmap.Length
      requires hole + BlocksCounted(fat[i].length) <= bitmap.Length
      requires Fits(fat[i], blockSize, blocks.Length) && Fits(fat[i].(start := hole), blockSize, blocks.Length)
      modifies this`fat, this`metadata, bitmap, blocks
      ensures n == BlocksCounted(old(fat[i].length))
      ensures fat == old(fat)[i := old(fat[i]).(start := hole)]
      ensures metadata == old(metadata)[old(fat[i].name) := old(metadata[fat[i].name]).(start := hole)]
      ensures bitmap[..] == Marked(Marked(old(bitmap[..]), old(fat[i].start), n, false), hole, n, true)
      ensures blocks[..] == Overwrite(old(blocks[..]), ByteOf(hole, blockSize),
                                      Content(old(blocks[..]), old(fat[i]), blockSize))
    {
      var e := fat[i];
      fat := fat[i := e.(start := hole)];
      metadata := metadata[e.name := metadata[e.name].(start := hole)];
      n := BlocksCounted(e.length);
      Mark(bitmap, e.start, n, false);
      Mark(bitmap, hole, n, true);
      var source := Address(e.start);
      var target := Address(hole);
      Copy(source, target, e.length);
    }

    /** One turn of the scan that has met a set bit: the entry that starts there is moved to
        the hole. Without such an entry the program would use a null pointer (found is false). */
    method SlideFound(hole: nat, at: nat, ghost was: Start, ghost trap: int) returns (found: bool, n: nat)
      requires was.build == build && at < bitmap.Length && bitmap[at]
      requires if trap < 0 then Kept(bitmap[..], fat, metadata, blocks[..], was, blockSize, hole, at)
               else Trapped(bitmap[..], fat, was, hole, at, trap)
      modifies this`fat, this`metadata, bitmap, blocks
      ensures found <==> trap < 0
      ensures !found ==> build.AsWritten? && EmptyPastHole(was.bitmap, was.fat, was.skip)
      ensures hole + n <= bitmap.Length
      ensures found && n > 0 ==> Kept(bitmap[..], fat, metadata, blocks[..], was, blockSize, hole + n, hole + n)
      ensures found && n == 0 ==> Trapped(bitmap[..], fat, was, hole, hole, at)
    {
      ghost var met: int := -1;
      hide Sliding, SameContents, Consistent, StaleApart;
      if trap < 0 {
        met := ScanMeetsOneFile(bitmap[..], fat, was.fat, blockSize, was.skip, hole, at);
      }
      n := 0;
      var i := FindStart(at);
      if i < 0 {
        return false, n;
      }
      if build.AsWritten? && fat[i].length == 0 {
        EmptySlideTraps(bitmap[..], fat, metadata, blocks[..], was, blockSize, hole, at, i);
      } else {
        KeptSliding(bitmap[..], fat, metadata, blocks[..], was, blockSize, hole, at, i);
      }
      n := Slide(i, hole);
      found := true;
    }

    /** Slides every file down over the free blocks below it. Lifted entries (`skip`) keep
        their stale start and are not touched. The result is false where the program would
        go on to use the entry it failed to find. */
    method Compact(ghost skip: set<int>) returns (ok: bool)
      requires Partial(skip) && StaleApart(fat, blockSize, skip)
      requires exists b :: 0 <= b < bitmap.Length && !bitmap[b]
      modifies this`fat, this`metadata, bitmap, blocks
      ensures ok <==> build.Repaired? || !EmptyPastHole(old(bitmap[..]), old(fat), skip)
      ensures ok ==> Partial(skip)
      ensures ok ==> Sliding(bitmap[..], fat, old(fat), blockSize, skip,
                             Demand(old(fat), blockSize, skip, |old(fat)|), bitmap.Length)
      ensures ok ==> SameContents(blocks[..], fat, old(blocks[..]), old(fat), blockSize, skip)
    {
      hide Kept, Trapped, Sliding, SameContents, Consistent;
      var hole := FirstClear(bitmap);
      ghost var was := Start(build, bitmap[..], fat, blocks[..], skip, hole);
      var at: int := hole;
      ghost var trap := -1;
      KeptAtStart(bitmap[..], fat, metadata, blocks[..], was, blockSize);
      while at < bitmap.Length
        invariant 0 <= hole <= at <= bitmap.Length
        invariant trap < 0 ==> Kept(bitmap[..], fat, metadata, blocks[..], was, blockSize, hole, at)
        invariant trap >= 0 ==> at <= trap < bitmap.Length && Trapped(bitmap[..], fat, was, hole, at, trap)
        decreases bitmap.Length - hole, if trap >= 0 then 0 else 1, bitmap.Length - at
      {
        if bitmap[at] {
          var found, n := SlideFound(hole, at, was, trap);
          if !found {
            return false;
          }
          trap := if n == 0 then at else -1;
          hole := hole + n;
          at := hole - 1;
        } else if trap < 0 {
          KeptPassing(bitmap[..], fat, metadata, blocks[..], was, blockSize, hole, at);
        } else {
          TrappedPassing(bitmap[..], fat, was, hole, at, trap);
        }
        at := at + 1;
      }
      KeptAtEnd(bitmap[..], fat, metadata, blocks[..], was, blockSize, hole);
      ok := true;
    }

    /** Creates an empty file in the lowest free block. The program does not look whether the
        name is taken; the structures stay consistent exactly when it is not. */
    method Create(name: string) returns (ok: bool)
      requires Valid()
      modifies this`fat, this`metadata, bitmap
      ensures ok <==> Used(old(Files()), blockSize, |old(Files())|) < bitmap.Length
      ensures !ok ==> unchanged(this) && bitmap[..] == old(bitmap[..])
      ensures ok ==> |fat| == |old(fat)| + 1
      ensures ok ==>
        var start := fat[|old(fat)|].start;
        && start < bitmap.Length && AllAre(old(bitmap[..]), 0, start, true) && !old(bitmap[..])[start]
        && fat == old(fat) + [Entry(name, start, 0)] && metadata == old(metadata)[name := Meta(start, 0)]
        && bitmap[..] == old(bitmap[..])[start := true]
      ensures ok ==> (Valid() <==> forall i :: 0 <= i < |old(fat)| ==> old(fat)[i].name != name)
      ensures ok && Valid() ==> Files() == old(Files()) + [File(name, [])]
    {
      hide Agree, Synced, DistinctNames;
      CountAgrees(bitmap[..], fat, blockSize, {});
      UsedIsDemand(blocks[..], fat, blockSize, |fat|);
      CountBound(bitmap[..]);
      var i := 0;
      while i < bitmap.Length && bitmap[i]
        invariant i <= bitmap.Length
        invariant AllAre(bitmap[..], 0, i, true)
      {
        i := i + 1;
      }
      if i == bitmap.Length {
        return false;
      }
      Creating(bitmap[..], blocks.Length, fat, metadata, blockSize, name, i);
      bitmap[i] := true;
      metadata := metadata[name := Meta(i, 0)];
      fat := fat + [Entry(name, i, 0)];
      ok := true;
    }

    /** Deletes a file. As written, an empty file's block is never freed. */
    method Delete(name: string)
      requires Valid()
      requires exists i :: 0 <= i < |fat| && fat[i].name == name
      modifies this`fat, this`metadata, bitmap
      ensures forall i :: 0 <= i < |old(fat)| && old(fat)[i].name == name ==>
        && fat == Without(old(fat), i) && metadata == old(metadata) - {name}
        && bitmap[..] == Marked(old(bitmap[..]), old(fat)[i].start, BlocksCounted(old(fat)[i].length), false)
        && (Valid() <==> build.Repaired? || old(fat)[i].length > 0)
        && (Valid() ==> Files() == Without(old(Files()), i))
    {
      hide Agree, Synced;
      var i := FindName(name);
      var e := fat[i];
      var n := BlocksCounted(e.length);
      assert forall j :: 0 <= j < |fat| && fat[j].name == name ==> j == i;
      Deleting(bitmap[..], blocks.Length, fat, metadata, blockSize, i);
      LeakingBlock(bitmap[..], fat, blockSize, i);
      DroppingFile(blocks[..], fat, blockSize, i, Without(fat, i));
      Mark(bitmap, e.start, n, false);
      fat := fat[..i] + fat[i + 1..];
      metadata := metadata - {name};
      assert n == 0 ==> bitmap[..] == old(bitmap[..]);
    }

    /** Writes data at an offset, unless it would run past the end of the file. */
    method Write(name: string, data: seq<Byte>, offset: nat) returns (ok: bool)
      requires Valid()
      requires exists i :: 0 <= i < |fat| && fat[i].name == name
      modifies blocks
      ensures Valid()
      ensures forall i :: 0 <= i < |fat| && fat[i].name == name ==>
        var files := old(Files());
        && (ok <==> offset + |data| <= |files[i].bytes|)
        && Files() == if ok then files[i := File(name, Splice(files[i].bytes, offset, data))] else files
    {
      hide Agree, Synced, Overwrite, Content, Splice, ByteOf;
      var i := FindName(name);
      var e := fat[i];
      if |data| > e.length - offset {
        return false;
      }
      WritingSplices(blocks[..], bitmap[..], fat, metadata, blockSize, i, offset, data);
      var at := Address(e.start);
      Paste(at + offset, data);
      ok := true;
    }

    /** Reads from an offset. As written a read near the end of the file runs past it. */
    method Read(name: string, offset: nat, count: nat) returns (r: ReadResult)
      requires Valid()
      requires exists i :: 0 <= i < |fat| && fat[i].name == name
      ensures forall i :: 0 <= i < |fat| && fat[i].name == name ==>
        var bytes := Files()[i].bytes;
        var n := Min(count, |bytes|);
        && r == ReadAt(build, blocks[..], fat[i], blockSize, offset, count)
        && (r == Bytes(Slice(bytes, offset, count)) <==> build.Repaired? || n == 0 || offset + n <= |bytes|)
    {
      hide Agree, Synced, Slice, Content;
      var i := FindName(name);
      var e := fat[i];
      ReadAtIff(build, blocks[..], e, blockSize, offset, count);
      var n := count;
      if build.Repaired? {
        n := if offset >= e.length then 0 else Min(count, e.length - offset);
      } else if n > e.length {
        n := e.length;
      }
      var at := Address(e.start);
      at := at + offset;
      if n == 0 {
        r := Bytes([]);
      } else if at + n > blocks.Length {
        r := OutsideDisk;
      } else {
        r := Bytes(blocks[at..at + n]);
      }
      assert r == ReadAt(build, blocks[..], e, blockSize, offset, count);
    }

    /** Gives up the file's last blocks, or none: the new length needs no more than it has. */
    method Shrink(i: nat, size: nat)
      requires Valid() && i < |fat| && Blocks(size, blockSize) <= Span(fat[i], blockSize)
      modifies this`fat, this`metadata, bitmap
      ensures Valid() && fat == old(fat)[i := old(fat)[i].(length := size)]
      ensures Truncated(old(Files()), Files(), i, size)
    {
      hide Agree, Synced;
      var e := fat[i].(length := size);
      var keep := Blocks(size, blockSize);
      Shrinking(bitmap[..], blocks.Length, fat, metadata, blockSize, i, size);
      Mark(bitmap, e.start + keep, Span(fat[i], blockSize) - keep, false);
      fat := fat[i := e];
      metadata := metadata[e.name := Meta(e.start, e.length)];
    }

    /** Records a lifted file at a free stretch: bits, FAT entry and metadata file. */
    method PlaceAt(i: nat, start: nat, size: nat)
      requires Partial({i}) && i < |fat|
      requires RunAt(bitmap[..], start, Blocks(size, blockSize))
      modifies this`fat, this`metadata, bitmap
      ensures Valid()
      ensures fat == old(fat)[i := Entry(old(fat)[i].name, start, size)]
    {
      hide Agree, Synced;
      var e := Entry(fat[i].name, start, size);
      Placing(bitmap[..], blocks.Length, fat, metadata, blockSize, i, e);
      Mark(bitmap, start, Blocks(size, blockSize), true);
      fat := fat[i := e];
      metadata := metadata[e.name := Meta(e.start, e.length)];
    }

    /** Moves a lifted file to a free stretch found by the scan. As written, the bytes are
        copied the wrong way round, into the blocks the file had before it was lifted. */
    method MoveTo(i: nat, start: nat, size: nat, ghost bitmap0: seq<bool>)
      requires Partial({i}) && i < |fat| && fat[i].length <= size && Fits(fat[i], blockSize, blocks.Length)
      requires Consistent(bitmap0, blocks.Length, fat, metadata, blockSize, {})
      requires RunAt(bitmap[..], start, Blocks(size, blockSize))
      requires Fits(fat[i].(start := start), blockSize, blocks.Length)
      modifies this`fat, this`metadata, bitmap, blocks
      ensures Valid()
      ensures fat == old(fat)[i := Entry(old(fat)[i].name, start, size)]
      ensures blocks[..] == GrowthCopy(build, old(blocks[..]), old(fat)[i], start, blockSize)
      ensures var files := FilesOf(old(blocks[..]), old(fat), blockSize);
              && Resized(files, Files(), i, size)
              && (Truncated(files, Files(), i, size)
                  <==> build.Repaired? || Survives(old(blocks[..]), old(fat)[i], start, blockSize))
    {
      hide Agree, Synced, DistinctNames, Truncated, Resized, Survives, FilesOf;
      var e := fat[i];
      ghost var fat0, blocks0, metadata0 := fat, blocks[..], metadata;
      var oldPlace := Address(e.start);
      var newPlace := Address(start);
      if build.Repaired? {
        Copy(oldPlace, newPlace, e.length);
      } else {
        Copy(newPlace, oldPlace, e.length);
      }
      PlaceAt(i, start, size);
      GrowingKeepsFiles(blocks0, fat0, blockSize, i, start, size, fat, bitmap[..], metadata);
      SwappedGrowth(blocks0, bitmap0, fat0, metadata0, blockSize, i, start, size, bitmap[..], fat, metadata);
      if build.Repaired? {
        TruncatedIsResized(FilesOf(blocks0, fat0, blockSize), Files(), i, size);
      }
    }

    /** Puts a lifted file after all the others, once they have been slid together. */
    method CompactAndPlace(i: nat, size: nat) returns (ok: bool)
      requires Partial({i}) && i < |fat| && fat[i].length <= size
      requires fat[i].start < bitmap.Length && !bitmap[fat[i].start]
      requires Demand(fat, blockSize, {i}, |fat|) + Blocks(size, blockSize) <= bitmap.Length
      modifies this`fat, this`metadata, bitmap, blocks
      ensures ok <==> build.Repaired? || !EmptyPastHole(old(bitmap[..]), old(fat), {i})
      ensures ok ==> Valid() && |fat| == |old(fat)| && fat[i].start == Demand(old(fat), blockSize, {i}, |old(fat)|)
      ensures ok ==> Truncated(FilesOf(old(blocks[..]), old(fat), blockSize), Files(), i, size)
    {
      hide Agree, Synced, DistinctNames, Sliding, StaleApart, EmptyPastHole, SameContents, SameFiles, Truncated,
          FilesOf, Demand, ByteOf;
      var e := fat[i];
      ghost var fat0, blocks0 := fat, blocks[..];
      var oldPlace := Address(e.start);
      var buffer := blocks[oldPlace..oldPlace + e.length];
      StaleIsApart(bitmap[..], fat, blockSize, i);
      ok := Compact({i});
      if !ok {
        return;
      }
      ghost var fat1, blocks1 := fat, blocks[..];
      ghost var hole := Demand(fat0, blockSize, {i}, |fat0|);
      HoleAtEnd(bitmap[..], fat, fat0, blockSize, {i}, hole, Blocks(size, blockSize));
      var start := FirstClear(bitmap);
      PlaceAt(i, start, size);
      CompactingKeepsFiles(blocks0, fat0, blocks1, fat1, blockSize, i, start, size, fat, bitmap[..], metadata);
      var newPlace := Address(start);
      Paste(newPlace, buffer);
    }

    /** Lengthens a file by whole blocks: into the leftmost run that is long enough once the
        file's own blocks count as free, or else by compacting, or not at all. */
    method Grow(i: nat, size: nat) returns (o: Outcome)
      requires Valid() && i < |fat| && Span(fat[i], blockSize) < Blocks(size, blockSize)
      modifies this`fat, this`metadata, bitmap, blocks
      ensures old(fat)[i].start + Span(old(fat)[i], blockSize) <= bitmap.Length
      ensures GrowthOutcome(build, Lifted(old(bitmap[..]), old(fat)[i], blockSize), old(fat), i, blockSize,
                            Blocks(size, blockSize), o)
      ensures o.Done? ==> Valid() && |fat| == |old(fat)|
      ensures o.Done? ==>
        GrowthPlace(Lifted(old(bitmap[..]), old(fat)[i], blockSize), old(fat), i, blockSize, Blocks(size, blockSize),
                    fat[i].start)
      ensures o.Done? ==> Resized(old(Files()), Files(), i, size)
      ensures o.Done? ==> (Truncated(old(Files()), Files(), i, size) <==>
        GrowthKeeps(build, old(bitmap[..]), old(blocks[..]), old(fat)[i], fat[i].start, blockSize,
                    Blocks(size, blockSize)))
      ensures o.NoSpace? ==> unchanged(this) && blocks[..] == old(blocks[..]) && (Valid() <==> build.Repaired?)
      ensures o.NoSpace? ==>
        bitmap[..] == if build.Repaired? then old(bitmap[..]) else Lifted(old(bitmap[..]), old(fat)[i], blockSize)
    {
      hide Agree, Synced, DistinctNames, Truncated, Resized, GrowthOutcome, GrowthPlace, HasRun, Survives,
          EmptyPastHole;
      hide Demand, Count, FilesOf;
      var e := fat[i];
      var current, final := BlocksWanted(e.length), BlocksWanted(size);
      ghost var bitmap0, blocks0, fat0 := bitmap[..], blocks[..], fat;
      LongerByBlocks(e.length, size, blockSize);
      Lifting(bitmap[..], blocks.Length, fat, metadata, blockSize, i);
      Mark(bitmap, e.start, current, false);
      ghost var lifted := bitmap[..];
      assert lifted == Lifted(bitmap0, e, blockSize);
      var start, free := FirstFit(bitmap, final);
      if start >= 0 {
        RunOutcome(build, lifted, fat, i, blockSize, final, start);
        ExtentFits(e.(start := start), blockSize, bitmap.Length);
        MoveTo(i, start, size, bitmap0);
        return Done;
      }
      NoRunOutcome(build, lifted, fat, i, blockSize, final, free);
      if final > free {
        ClearedBreaks(bitmap[..], fat, blockSize, i);
        if build.Repaired? {
          Mark(bitmap, e.start, current, true);
          assert bitmap[..] == bitmap0;
        }
        return NoSpace;
      }
      Mark(bitmap, e.start, current, false);
      assert bitmap[..] == lifted && !lifted[e.start];
      var ok := CompactAndPlace(i, size);
      o := if ok then Done else NullPointer;
      if ok {
        TruncatedIsResized(FilesOf(blocks0, fat0, blockSize), Files(), i, size);
      }
    }

    /** Sets a file's length. It succeeds exactly when the blocks of all files would fit on
        the disk, however the free blocks are scattered. */
    method Truncate(name: string, size: nat) returns (o: Outcome)
      requires Valid()
      modifies this`fat, this`metadata, bitmap, blocks
      ensures o.NoSuchFile? <==> forall i :: 0 <= i < |old(fat)| ==> old(fat)[i].name != name
      ensures o.NoSuchFile? ==> Valid() && Files() == old(Files())
      ensures o.Done? ==> Valid()
      ensures o.NoSpace? ==> (Valid() <==> build.Repaired?)
      ensures build.Repaired? ==> !o.NullPointer?
      ensures forall i :: 0 <= i < |old(fat)| && old(fat)[i].name == name ==>
        && (o.NoSpace? <==> !FitsGrown(old(Files()), blockSize, bitmap.Length, i, size))
        && (build.Repaired? && o.NoSpace? ==> Files() == old(Files()))
        && (o.Done? ==> Resized(old(Files()), Files(), i, size))
        && (o.Done? ==> (Truncated(old(Files()), Files(), i, size) <==>
              || Blocks(size, blockSize) <= Span(old(fat)[i], blockSize)
              || GrowthKeeps(build, old(bitmap[..]), old(blocks[..]), old(fat)[i], fat[i].start, blockSize,
                             Blocks(size, blockSize))))
    {
      hide Agree, Synced, Truncated, Resized, GrowthPlace, GrowthKeeps, HasRun, EmptyPastHole, ByteOf;
      var i := FindName(name);
      if i < 0 {
        return NoSuchFile;
      }
      assert forall j :: 0 <= j < |fat| && fat[j].name == name ==> j == i;
      CapacityIsDemand(blocks[..], bitmap[..], fat, metadata, blockSize, i);
      ghost var files := Files();
      if BlocksWanted(fat[i].length) >= BlocksWanted(size) {
        Shrink(i, size);
        TruncatedIsResized(files, Files(), i, size);
        return Done;
      }
      o := Grow(i, size);
    }

    /** Rebuilds the FAT from the metadata files, in the order the directory lists them. */
    method Mount(listing: seq<string>)
      requires Valid() && Lists(listing, metadata)
      modifies this`fat
      ensures Valid() <==> forall i :: 0 <= i < |old(fat)| ==> !Skipped(old(fat)[i].name)
      ensures Valid() ==> |fat| == |old(fat)| && forall e :: e in fat <==> e in old(fat)
    {
      hide Agree, Synced, DistinctNames, Rebuilt, Skipped, Lists;
      ghost var fat0 := fat;
      RebuiltNothing(metadata, listing);
      fat := [];
      var k := 0;
      while k < |listing|
        invariant k <= |listing|
        invariant Rebuilt(fat, metadata, listing[..k])
      {
        var name := listing[k];
        RebuiltStep(fat, metadata, listing, k);
        if !Skipped(name) {
          fat := fat + [Entry(name, metadata[name].start, metadata[name].length)];
        }
        k := k + 1;
      }
      assert listing[..k] == listing;
      RebuiltIff(bitmap[..], blocks.Length, fat0, fat, metadata, blockSize, listing);
    }
  }
}
