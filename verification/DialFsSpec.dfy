/** DialFS as its users see it: named byte strings, and a disk of which each
    file takes a whole number of blocks, wherever they lie. */
module DialFsSpec {
  import opened Arith
  import opened Bits
  import opened Builds
  import opened DialFsCompaction
  import opened DialFsLayout
  import opened Sequences

  datatype File = File(name: string, bytes: seq<Byte>)

  /** Blocks taken by the first k files. */
  function Used(files: seq<File>, blockSize: nat, k: nat): nat
    requires blockSize > 0 && k <= |files|
  {
    if k == 0 then 0 else Used(files, blockSize, k - 1) + Blocks(|files[k - 1].bytes|, blockSize)
  }

  function Min(a: nat, b: nat): nat {
    if a < b then a else b
  }

  /** The files a FAT and a block file hold. */
  function FilesOf(blocks: seq<Byte>, fat: seq<Entry>, blockSize: nat): (files: seq<File>)
    requires forall i :: 0 <= i < |fat| ==> Fits(fat[i], blockSize, |blocks|)
    ensures |files| == |fat|
  {
    seq(|fat|, i requires 0 <= i < |fat| => File(fat[i].name, Content(blocks, fat[i], blockSize)))
  }

  lemma {:induction false} UsedIsDemand(blocks: seq<Byte>, fat: seq<Entry>, blockSize: nat, k: nat)
    requires blockSize > 0 && k <= |fat|
    requires forall i :: 0 <= i < |fat| ==> Fits(fat[i], blockSize, |blocks|)
    ensures Used(FilesOf(blocks, fat, blockSize), blockSize, k) == Demand(fat, blockSize, {}, k)
  {
    if k > 0 {
      UsedIsDemand(blocks, fat, blockSize, k - 1);
    }
  }

  /** The bytes a read of `count` from `offset` is meant to return: what is left of the file, at most. */
  function Slice(bytes: seq<Byte>, offset: nat, count: nat): (r: seq<Byte>)
    ensures |r| <= count && (|r| == count || |r| + offset == |bytes| || (r == [] && offset >= |bytes|))
    ensures forall k :: 0 <= k < |r| ==> offset + k < |bytes| && r[k] == bytes[offset + k]
  {
    if offset >= |bytes| then [] else bytes[offset..Min(offset + count, |bytes|)]
  }

  /** File i now has length `size`, and no other file changed. */
  predicate Resized(files: seq<File>, files': seq<File>, i: nat, size: nat)
    requires i < |files|
  {
    && |files'| == |files|
    && (forall j :: 0 <= j < |files| && j != i ==> files'[j] == files[j])
    && files'[i].name == files[i].name
    && |files'[i].bytes| == size
  }

  /** It also keeps the bytes common to both lengths. */
  predicate Truncated(files: seq<File>, files': seq<File>, i: nat, size: nat)
    requires i < |files|
  {
    && Resized(files, files', i, size)
    && forall b :: 0 <= b < size && b < |files[i].bytes| ==> files'[i].bytes[b] == files[i].bytes[b]
  }

  lemma {:induction false} TruncatedIsResized(files: seq<File>, files': seq<File>, i: nat, size: nat)
    requires i < |files| && Truncated(files, files', i, size)
    ensures Resized(files, files', i, size)
  {
  }

  /** With file i at its new size, the blocks of all files still fit on the disk. */
  predicate FitsGrown(files: seq<File>, blockSize: nat, blockCount: nat, i: nat, size: nat)
    requires blockSize > 0 && i < |files|
  {
    Used(files, blockSize, |files|) - Blocks(|files[i].bytes|, blockSize) + Blocks(size, blockSize) <= blockCount
  }

  /** The capacity the users see is the capacity the FAT has. */
  lemma {:induction false} CapacityIsDemand(blocks: seq<Byte>, bitmap: seq<bool>, fat: seq<Entry>,
                                            metadata: map<string, Meta>,
                         blockSize: nat, i: nat)
    requires i < |fat| && Consistent(bitmap, |blocks|, fat, metadata, blockSize, {})
    ensures var files := FilesOf(blocks, fat, blockSize);
            && Used(files, blockSize, |files|) == Demand(fat, blockSize, {}, |fat|) <= |bitmap|
            && Used(files, blockSize, |files|) - Blocks(|files[i].bytes|, blockSize)
                == Demand(fat, blockSize, {i}, |fat|)
  {
    UsedIsDemand(blocks, fat, blockSize, |fat|);
    CountAgrees(bitmap, fat, blockSize, {});
    CountBound(bitmap);
    DemandLifted(fat, blockSize, i, |fat|);
  }

  // ------------------------------------------ what byte copies do to the files

  /** Copying a file's bytes to its new, free place keeps them and disturbs nobody. */
  lemma {:induction false} MovingKeepsFiles(blocks: seq<Byte>, fat: seq<Entry>, blockSize: nat, i: nat,
                                            blocks': seq<Byte>, fat': seq<Entry>)
    requires blockSize > 0 && i < |fat| == |fat'| && |blocks'| == |blocks|
    requires forall j :: 0 <= j < |fat| ==> Fits(fat[j], blockSize, |blocks|) && Fits(fat'[j], blockSize, |blocks|)
    requires forall j :: 0 <= j < |fat| ==> fat'[j].name == fat[j].name
    requires fat[i].length <= fat'[i].length
    requires forall j :: 0 <= j < |fat| && j != i ==>
      Apart(fat'[i], fat'[j], blockSize) && Content(blocks', fat'[j], blockSize) == Content(blocks, fat[j], blockSize)
    ensures ByteOf(fat'[i].start, blockSize) + fat[i].length <= |blocks|
    ensures var moved := Overwrite(blocks', ByteOf(fat'[i].start, blockSize), Content(blocks, fat[i], blockSize));
            Truncated(FilesOf(blocks, fat, blockSize), FilesOf(moved, fat', blockSize), i, fat'[i].length)
  {
    var data := Content(blocks, fat[i], blockSize);
    forall j | 0 <= j < |fat| && j != i {
      OverwriteApart(blocks', fat'[i], fat'[j], blockSize, 0, data);
    }
  }

  /** The same, when the other files have been slid to other places meanwhile. */
  lemma {:induction false} CompactingKeepsFiles(blocks: seq<Byte>, fat: seq<Entry>, blocks1: seq<Byte>,
                                                fat1: seq<Entry>, blockSize: nat,
                             i: nat, start: nat, length: nat, fat': seq<Entry>, bitmap': seq<bool>,
                             metadata': map<string, Meta>)
    requires blockSize > 0 && i < |fat| && SameContents(blocks1, fat1, blocks, fat, blockSize, {i})
    requires |fat1| == |fat| && SameFiles(fat1, fat)
    requires fat' == fat1[i := Entry(fat[i].name, start, length)] && fat[i].length <= length
    requires forall j :: 0 <= j < |fat| ==> Fits(fat[j], blockSize, |blocks|)
    requires Consistent(bitmap', |blocks|, fat', metadata', blockSize, {})
    ensures Fits(fat[i].(start := start), blockSize, |blocks|)
    ensures forall j :: 0 <= j < |fat| ==> Fits(fat'[j], blockSize, |blocks|)
    ensures var moved := Overwrite(blocks1, ByteOf(start, blockSize), Content(blocks, fat[i], blockSize));
            Truncated(FilesOf(blocks, fat, blockSize), FilesOf(moved, fat', blockSize), i, length)
  {
    forall j | 0 <= j < |fat| && j != i
      ensures Apart(fat'[i], fat'[j], blockSize)
    {
      assert if j < i then Apart(fat'[j], fat'[i], blockSize) else Apart(fat'[i], fat'[j], blockSize);
    }
    MovingKeepsFiles(blocks, fat, blockSize, i, blocks1, fat');
  }

  /** The same, for a move among files that stay where they are. */
  lemma {:induction false} GrowingKeepsFiles(blocks: seq<Byte>, fat: seq<Entry>, blockSize: nat, i: nat, start: nat,
                                             length: nat,
                          fat': seq<Entry>, bitmap': seq<bool>, metadata': map<string, Meta>)
    requires i < |fat| && fat' == fat[i := Entry(fat[i].name, start, length)] && fat[i].length <= length
    requires forall j :: 0 <= j < |fat| ==> Fits(fat[j], blockSize, |blocks|)
    requires Consistent(bitmap', |blocks|, fat', metadata', blockSize, {})
    ensures Fits(fat[i].(start := start), blockSize, |blocks|)
    ensures forall j :: 0 <= j < |fat| ==> Fits(fat'[j], blockSize, |blocks|)
    ensures var moved := GrowthCopy(Repaired, blocks, fat[i], start, blockSize);
            Truncated(FilesOf(blocks, fat, blockSize), FilesOf(moved, fat', blockSize), i, length)
  {
    hide Truncated, FilesOf, Agree, Synced, DistinctNames;
    CompactingKeepsFiles(blocks, fat, blocks, fat, blockSize, i, start, length, fat', bitmap', metadata');
    assert GrowthCopy(Repaired, blocks, fat[i], start, blockSize)
        == Overwrite(blocks, ByteOf(start, blockSize), Content(blocks, fat[i], blockSize));
  }

  lemma {:induction false} DroppingFile(blocks: seq<Byte>, fat: seq<Entry>, blockSize: nat, i: nat, fat': seq<Entry>)
    requires i < |fat| && fat' == Without(fat, i)
    requires forall j :: 0 <= j < |fat| ==> Fits(fat[j], blockSize, |blocks|)
    ensures forall j :: 0 <= j < |fat'| ==> Fits(fat'[j], blockSize, |blocks|)
    ensures FilesOf(blocks, fat', blockSize) == Without(FilesOf(blocks, fat, blockSize), i)
  {
  }

  /** Writing inside a file's extent replaces one slice of that file and nothing else. */
  lemma {:induction false} WritingSplices(blocks: seq<Byte>, bitmap: seq<bool>, fat: seq<Entry>,
                                          metadata: map<string, Meta>, blockSize: nat,
                       i: nat, offset: nat, data: seq<Byte>)
    requires i < |fat| && Consistent(bitmap, |blocks|, fat, metadata, blockSize, {})
    requires offset + |data| <= fat[i].length
    ensures ByteOf(fat[i].start, blockSize) + offset + |data| <= |blocks|
    ensures var files := FilesOf(blocks, fat, blockSize);
            FilesOf(Overwrite(blocks, ByteOf(fat[i].start, blockSize) + offset, data), fat, blockSize)
            == files[i := File(fat[i].name, Splice(files[i].bytes, offset, data))]
  {
    hide Synced, DistinctNames;
    var blocks' := Overwrite(blocks, ByteOf(fat[i].start, blockSize) + offset, data);
    forall j | 0 <= j < |fat|
      ensures Content(blocks', fat[j], blockSize)
           == if j == i then Splice(Content(blocks, fat[i], blockSize), offset, data)
              else Content(blocks, fat[j], blockSize)
    {
      if j == i {
        WritingOneSplices(blocks, fat[i], blockSize, offset, data);
      } else {
        assert if j < i then Apart(fat[j], fat[i], blockSize) else Apart(fat[i], fat[j], blockSize);
        OverwriteApart(blocks, fat[i], fat[j], blockSize, offset, data);
      }
    }
    hide Overwrite, Content, Splice, Consistent;
  }

  lemma {:induction false} WritingOneSplices(blocks: seq<Byte>, e: Entry, blockSize: nat, offset: nat, data: seq<Byte>)
    requires Fits(e, blockSize, |blocks|) && offset + |data| <= e.length
    ensures Content(Overwrite(blocks, ByteOf(e.start, blockSize) + offset, data), e, blockSize)
         == Splice(Content(blocks, e, blockSize), offset, data)
  {
  }

  datatype ReadResult = Bytes(bytes: seq<Byte>) | OutsideDisk

  /** What a read finds. As written the count is capped by the length of the file, not by
      what is left of it after the offset. */
  function ReadAt(build: Build, blocks: seq<Byte>, e: Entry, blockSize: nat, offset: nat, count: nat): ReadResult {
    var n := if build.AsWritten? then Min(count, e.length)
             else if offset >= e.length then 0 else Min(count, e.length - offset);
    var at := ByteOf(e.start, blockSize) + offset;
    if n == 0 then Bytes([]) else if at + n > |blocks| then OutsideDisk else Bytes(blocks[at..at + n])
  }

  lemma {:induction false} InContent(blocks: seq<Byte>, e: Entry, blockSize: nat, offset: nat, n: nat)
    requires Fits(e, blockSize, |blocks|) && offset + n <= e.length
    ensures var at := ByteOf(e.start, blockSize) + offset;
            blocks[at..at + n] == Content(blocks, e, blockSize)[offset..offset + n]
  {
    var at := ByteOf(e.start, blockSize) + offset;
    var bytes := Content(blocks, e, blockSize);
    var got, meant := blocks[at..at + n], bytes[offset..offset + n];
    forall k | 0 <= k < n ensures got[k] == meant[k] {
      assert got[k] == blocks[at + k] && meant[k] == bytes[offset + k];
    }
    assert got == meant;
  }

  lemma {:induction false} ReadAtIff(build: Build, blocks: seq<Byte>, e: Entry, blockSize: nat, offset: nat, count: nat)
    requires Fits(e, blockSize, |blocks|)
    ensures var n := Min(count, e.length);
            ReadAt(build, blocks, e, blockSize, offset, count)
                == Bytes(Slice(Content(blocks, e, blockSize), offset, count))
            <==> build.Repaired? || n == 0 || offset + n <= e.length
  {
    var bytes, n := Content(blocks, e, blockSize), Min(count, e.length);
    var meant := Slice(bytes, offset, count);
    assert |meant| == if offset >= e.length then 0 else Min(count, e.length - offset);
    var r, at := ReadAt(build, blocks, e, blockSize, offset, count), ByteOf(e.start, blockSize) + offset;
    if build.Repaired? || n == 0 || offset + n <= e.length {
      if |meant| > 0 {
        InContent(blocks, e, blockSize, offset, |meant|);
        assert meant == bytes[offset..offset + |meant|];
      }
    } else {
      assert r.OutsideDisk? || |r.bytes| == n;
    }
  }

  /** Past the end of the file, as written, it finds what lies there: as many bytes as were asked for
      or the file is long, whoever they belong to, unless they lie outside the disk. */
  lemma {:induction false} ReadsOn(blocks: seq<Byte>, e: Entry, blockSize: nat, offset: nat, count: nat)
    requires count > 0 && e.length > 0
    ensures var r, at, n := ReadAt(AsWritten, blocks, e, blockSize, offset, count), ByteOf(e.start, blockSize) + offset,
                            Min(count, e.length);
            && (r.OutsideDisk? <==> at + n > |blocks|)
            && (!r.OutsideDisk? ==> |r.bytes| == n && forall k :: 0 <= k < n ==> r.bytes[k] == blocks[at + k])
  {
  }

  // ------------------------------------------------ the growth copy as written

  /** The block file after the growth copy; as written it goes from the new place to the old. */
  function GrowthCopy(build: Build, blocks: seq<Byte>, e: Entry, start: nat, blockSize: nat): (r: seq<Byte>)
    requires Fits(e, blockSize, |blocks|) && Fits(e.(start := start), blockSize, |blocks|)
    ensures |r| == |blocks|
  {
    if build.Repaired? then Copied(blocks, ByteOf(e.start, blockSize), ByteOf(start, blockSize), e.length)
    else Copied(blocks, ByteOf(start, blockSize), ByteOf(e.start, blockSize), e.length)
  }

  /** As written the old place receives what the new one holds, and no other byte changes. */
  lemma {:induction false} SwappedCopyGoesBack(blocks: seq<Byte>, e: Entry, start: nat, blockSize: nat, b: nat)
    requires Fits(e, blockSize, |blocks|) && Fits(e.(start := start), blockSize, |blocks|) && b < |blocks|
    ensures var blocks', place := GrowthCopy(AsWritten, blocks, e, start, blockSize), ByteOf(e.start, blockSize);
            && Content(blocks', e, blockSize) == Content(blocks, e.(start := start), blockSize)
            && (b < place || b >= place + e.length ==> blocks'[b] == blocks[b])
  {
    var data := Content(blocks, e.(start := start), blockSize);
    WritingAll(blocks, e, blockSize, data);
  }

  /** A block file after `length` bytes at `target` have been replaced by those at `source`. */
  function Copied(blocks: seq<Byte>, source: nat, target: nat, length: nat): (r: seq<Byte>)
    requires source + length <= |blocks| && target + length <= |blocks|
    ensures |r| == |blocks|
  {
    Overwrite(blocks, target, blocks[source..source + length])
  }

  /** Whatever the disk holds, after the growth copy as written, which copies from the new
      place to the old one, the file reads at its new place as it did at the old one. */
  ghost predicate SwappedCopyKeeps(size: nat, place: nat, place': nat, length: nat)
    requires place + length <= size && place' + length <= size
  {
    forall blocks: seq<Byte> :: |blocks| == size ==> CopyKeeps(blocks, place, place', length)
  }

  predicate CopyKeeps(blocks: seq<Byte>, place: nat, place': nat, length: nat)
    requires place + length <= |blocks| && place' + length <= |blocks|
  {
    Copied(blocks, place', place, length)[place'..place' + length] == blocks[place..place + length]
  }

  /** It does exactly when there is nothing to move: an empty file, or one that stays in place. */
  lemma {:induction false} SwappedCopyKeepsIff(size: nat, place: nat, place': nat, length: nat)
    requires place + length <= size && place' + length <= size
    ensures SwappedCopyKeeps(size, place, place', length) <==> length == 0 || place == place'
  {
    if length > 0 && place != place' {
      SwappedCopyLoses(size, place, place', length);
    } else if length == 0 {
      assert SwappedCopyKeeps(size, place, place', length);
    } else {
      forall blocks: seq<Byte> | |blocks| == size
        ensures CopyKeeps(blocks, place, place', length)
      {
        assert Copied(blocks, place', place, length) == blocks;
      }
    }
  }

  lemma {:induction false} SwappedCopyLoses(size: nat, place: nat, place': nat, length: nat)
    requires place + length <= size && place' + length <= size
    requires length > 0 && place != place'
    ensures !SwappedCopyKeeps(size, place, place', length)
  {
    var blocks: seq<Byte> := seq(size, i => if i == place then 1 else 0);
    var after := Copied(blocks, place', place, length);
    assert after[place'] == 0 && blocks[place] == 1;
    assert after[place'..place' + length][0] == after[place'];
    assert blocks[place..place + length][0] == blocks[place];
    assert !CopyKeeps(blocks, place, place', length);
  }

  /** After the growth copy as written, the file reads at its new place as it did at the old one. */
  predicate Survives(blocks: seq<Byte>, e: Entry, start: nat, blockSize: nat)
    requires Fits(e, blockSize, |blocks|) && Fits(e.(start := start), blockSize, |blocks|)
  {
    Content(GrowthCopy(AsWritten, blocks, e, start, blockSize), e.(start := start), blockSize)
        == Content(blocks, e, blockSize)
  }

  /** What the growth copy as written does to the files: it disturbs nobody else, since it writes
      into the blocks the file had, and the file keeps its bytes exactly when they survive. */
  lemma {:induction false} SwappedGrowth(blocks: seq<Byte>, bitmap: seq<bool>, fat: seq<Entry>,
                                         metadata: map<string, Meta>, blockSize: nat, i: nat, start: nat, length: nat,
                                         bitmap': seq<bool>, fat': seq<Entry>, metadata': map<string, Meta>)
    requires i < |fat| && fat' == fat[i := Entry(fat[i].name, start, length)] && fat[i].length <= length
    requires Consistent(bitmap, |blocks|, fat, metadata, blockSize, {})
    requires Consistent(bitmap', |blocks|, fat', metadata', blockSize, {})
    ensures Fits(fat[i].(start := start), blockSize, |blocks|)
    ensures var after := GrowthCopy(AsWritten, blocks, fat[i], start, blockSize);
            && Resized(FilesOf(blocks, fat, blockSize), FilesOf(after, fat', blockSize), i, length)
            && (Truncated(FilesOf(blocks, fat, blockSize), FilesOf(after, fat', blockSize), i, length)
                <==> Survives(blocks, fat[i], start, blockSize))
  {
    hide Synced, DistinctNames, Survives, GrowthCopy;
    assert Fits(fat'[i], blockSize, |blocks|);
    var after := GrowthCopy(AsWritten, blocks, fat[i], start, blockSize);
    forall j | 0 <= j < |fat| && j != i
      ensures Content(after, fat'[j], blockSize) == Content(blocks, fat[j], blockSize)
    {
      assert if j < i then Apart(fat[j], fat[i], blockSize) else Apart(fat[i], fat[j], blockSize);
      SwappedSpares(blocks, fat[i], fat[j], start, blockSize);
    }
    PrefixIsContent(blocks, fat[i], start, length, blockSize);
    hide Content;
  }

  lemma {:induction false} SwappedSpares(blocks: seq<Byte>, e: Entry, f: Entry, start: nat, blockSize: nat)
    requires blockSize > 0 && Apart(e, f, blockSize)
    requires Fits(e, blockSize, |blocks|) && Fits(e.(start := start), blockSize, |blocks|) &&
        Fits(f, blockSize, |blocks|)
    ensures Content(GrowthCopy(AsWritten, blocks, e, start, blockSize), f, blockSize) == Content(blocks, f, blockSize)
  {
    var from := ByteOf(start, blockSize);
    OverwriteApart(blocks, e, f, blockSize, 0, blocks[from..from + e.length]);
    hide Content, Overwrite;
  }

  lemma {:induction false} ContentPrefix(blocks: seq<Byte>, e: Entry, f: Entry, blockSize: nat)
    requires Fits(e, blockSize, |blocks|) && Fits(f, blockSize, |blocks|) && e.start == f.start && e.length <= f.length
    ensures Content(blocks, f, blockSize)[..e.length] == Content(blocks, e, blockSize)
  {
  }

  /** The first bytes of the longer file are what lies at its place in the length of the shorter. */
  lemma {:induction false} PrefixIsContent(blocks: seq<Byte>, e: Entry, start: nat, length: nat, blockSize: nat)
    requires Fits(e, blockSize, |blocks|) && e.length <= length
    requires Fits(Entry(e.name, start, length), blockSize, |blocks|) && Fits(e.(start := start), blockSize, |blocks|)
    ensures var after := GrowthCopy(AsWritten, blocks, e, start, blockSize);
            var long, was := Content(after, Entry(e.name, start, length), blockSize), Content(blocks, e, blockSize);
            (forall b :: 0 <= b < length && b < |was| ==> long[b] == was[b]) <==> Survives(blocks, e, start, blockSize)
  {
    hide GrowthCopy, Content;
    var after := GrowthCopy(AsWritten, blocks, e, start, blockSize);
    ContentPrefix(after, e.(start := start), Entry(e.name, start, length), blockSize);
  }

  /** Whatever the disk holds, growing a file keeps all files, as written, exactly when there is
      nothing to move: an empty file, or one that stays in place. */
  lemma {:induction false} SwappedGrowthIff(size: nat, bitmap: seq<bool>, fat: seq<Entry>, metadata: map<string, Meta>,
                                            blockSize: nat, i: nat, start: nat, length: nat,
                                            bitmap': seq<bool>, fat': seq<Entry>, metadata': map<string, Meta>)
    requires i < |fat| && fat' == fat[i := Entry(fat[i].name, start, length)] && fat[i].length <= length
    requires Consistent(bitmap, size, fat, metadata, blockSize, {})
    requires Consistent(bitmap', size, fat', metadata', blockSize, {})
    ensures Fits(fat[i].(start := start), blockSize, size)
    ensures (forall blocks: seq<Byte> :: |blocks| == size ==>
               Truncated(FilesOf(blocks, fat, blockSize),
                         FilesOf(GrowthCopy(AsWritten, blocks, fat[i], start, blockSize), fat', blockSize), i, length))
            <==> fat[i].length == 0 || start == fat[i].start
  {
    hide Agree, Synced, DistinctNames, Truncated, Resized, FilesOf, Survives;
    assert Fits(fat'[i], blockSize, size);
    var e := fat[i];
    forall blocks: seq<Byte> | |blocks| == size
      ensures Truncated(FilesOf(blocks, fat, blockSize),
                        FilesOf(GrowthCopy(AsWritten, blocks, e, start, blockSize), fat', blockSize), i, length)
              <==> Survives(blocks, e, start, blockSize)
    {
      SwappedGrowth(blocks, bitmap, fat, metadata, blockSize, i, start, length, bitmap', fat', metadata');
    }
    SurvivesIff(size, e, start, blockSize);
  }

  lemma {:induction false} SurvivesIff(size: nat, e: Entry, start: nat, blockSize: nat)
    requires blockSize > 0 && Fits(e, blockSize, size) && Fits(e.(start := start), blockSize, size)
    ensures (forall blocks: seq<Byte> :: |blocks| == size ==> Survives(blocks, e, start, blockSize))
            <==> e.length == 0 || start == e.start
  {
    hide Survives, Copied, SwappedCopyKeeps;
    var place, place' := ByteOf(e.start, blockSize), ByteOf(start, blockSize);
    SwappedCopyKeepsIff(size, place, place', e.length);
    CellOf(e.start, 0, blockSize);
    CellOf(start, 0, blockSize);
    SurvivesIsCopyKeeps(size, e, start, blockSize);
  }

  lemma {:induction false} SurvivesIsCopyKeeps(size: nat, e: Entry, start: nat, blockSize: nat)
    requires Fits(e, blockSize, size) && Fits(e.(start := start), blockSize, size)
    ensures (forall blocks: seq<Byte> :: |blocks| == size ==> Survives(blocks, e, start, blockSize))
            <==> SwappedCopyKeeps(size, ByteOf(e.start, blockSize), ByteOf(start, blockSize), e.length)
  {
    hide Survives, CopyKeeps;
    var place, place' := ByteOf(e.start, blockSize), ByteOf(start, blockSize);
    forall blocks: seq<Byte> | |blocks| == size
      ensures Survives(blocks, e, start, blockSize) <==> CopyKeeps(blocks, place, place', e.length)
    {
      SurvivesAt(blocks, e, start, blockSize);
    }
  }

  lemma {:induction false} SurvivesAt(blocks: seq<Byte>, e: Entry, start: nat, blockSize: nat)
    requires Fits(e, blockSize, |blocks|) && Fits(e.(start := start), blockSize, |blocks|)
    ensures var place, place' := ByteOf(e.start, blockSize), ByteOf(start, blockSize);
            Survives(blocks, e, start, blockSize) <==> CopyKeeps(blocks, place, place', e.length)
  {
    hide Copied;
  }

  // --------------------------------------------------------------- remounting

  /** Names the directory walk passes over. */
  predicate Skipped(name: string) {
    name == "." || name == ".." || name == "bloques.dat" || name == "bitmap.dat"
  }

  /** A walk of the metadata directory: every metadata file once, and the two dot entries. */
  ghost predicate Lists(listing: seq<string>, metadata: map<string, Meta>) {
    && (forall j, k :: 0 <= j < k < |listing| ==> listing[j] != listing[k])
    && (forall n :: n in metadata ==> n in listing)
    && (forall k :: 0 <= k < |listing| ==> listing[k] in metadata || Skipped(listing[k]))
  }

  function EntryOf(metadata: map<string, Meta>, name: string): Entry
    requires name in metadata
  {
    Entry(name, metadata[name].start, metadata[name].length)
  }

  /** The FAT holds exactly the entries of these names, each once. */
  ghost predicate Rebuilt(fat: seq<Entry>, metadata: map<string, Meta>, names: seq<string>) {
    && DistinctNames(fat)
    && (forall i :: 0 <= i < |fat| ==>
          fat[i].name in names && fat[i].name in metadata && !Skipped(fat[i].name) &&
              fat[i] == EntryOf(metadata, fat[i].name))
    && (forall n :: n in names && !Skipped(n) ==> n in metadata && EntryOf(metadata, n) in fat)
  }

  /** The rebuilt FAT is the old one, up to order, exactly when no file has a skipped name. */
  lemma {:induction false} RebuiltIff(bitmap: seq<bool>, size: nat, fat: seq<Entry>, fat': seq<Entry>,
                                      metadata: map<string, Meta>,
                   blockSize: nat, listing: seq<string>)
    requires Consistent(bitmap, size, fat, metadata, blockSize, {})
    requires Lists(listing, metadata) && Rebuilt(fat', metadata, listing)
    ensures Consistent(bitmap, size, fat', metadata, blockSize, {})
            <==> forall i :: 0 <= i < |fat| ==> !Skipped(fat[i].name)
    ensures Consistent(bitmap, size, fat', metadata, blockSize, {}) ==>
              |fat'| == |fat| && forall e :: e in fat' <==> e in fat
  {
    hide Agree, Skipped;
    RebuiltWhole(fat, fat', metadata, listing);
    AgreeOnlyWhole(bitmap, fat, fat', blockSize);
    if forall i :: 0 <= i < |fat| ==> fat[i] in fat' {
      SameLength(fat, fat');
      SameLength(fat', fat);
      SyncedWhole(fat, fat', metadata);
    }
  }

  lemma {:induction false} RebuiltWhole(fat: seq<Entry>, fat': seq<Entry>, metadata: map<string, Meta>,
                                        listing: seq<string>)
    requires DistinctNames(fat) && Synced(metadata, fat)
    requires Lists(listing, metadata) && Rebuilt(fat', metadata, listing)
    ensures forall i :: 0 <= i < |fat'| ==> fat'[i] in fat
    ensures forall i :: 0 <= i < |fat| ==> (fat[i] in fat' <==> !Skipped(fat[i].name))
  {
  }

  lemma {:induction false} SyncedWhole(fat: seq<Entry>, fat': seq<Entry>, metadata: map<string, Meta>)
    requires DistinctNames(fat) && Synced(metadata, fat)
    requires forall e :: e in fat' <==> e in fat
    ensures Synced(metadata, fat')
  {
    forall n | n in metadata ensures exists j :: 0 <= j < |fat'| && fat'[j].name == n {
      var i :| 0 <= i < |fat| && fat[i].name == n;
      assert fat[i] in fat';
    }
    assert forall i :: 0 <= i < |fat'| ==> fat'[i] in fat;
  }

  lemma {:induction false} RebuiltNothing(metadata: map<string, Meta>, listing: seq<string>)
    ensures Rebuilt([], metadata, listing[..0])
  {
  }

  lemma {:induction false} RebuiltStep(fat: seq<Entry>, metadata: map<string, Meta>, listing: seq<string>, k: nat)
    requires Lists(listing, metadata) && k < |listing| && Rebuilt(fat, metadata, listing[..k])
    ensures Skipped(listing[k]) ==> Rebuilt(fat, metadata, listing[..k + 1])
    ensures !Skipped(listing[k]) ==>
      listing[k] in metadata && Rebuilt(fat + [EntryOf(metadata, listing[k])], metadata, listing[..k + 1])
  {
  }

  lemma {:induction false} SameLength(fat: seq<Entry>, fat': seq<Entry>)
    requires DistinctNames(fat) && DistinctNames(fat')
    requires forall i :: 0 <= i < |fat| ==> fat[i] in fat'
    ensures |fat| <= |fat'|
    decreases |fat|
  {
    if fat != [] {
      var j :| 0 <= j < |fat'| && fat'[j] == fat[0];
      SameLength(fat[1..], Without(fat', j));
    }
  }
}
