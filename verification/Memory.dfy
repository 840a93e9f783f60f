/** The memory module: a frame bitmap, one flat byte store and a page table for each process. */
module Memory {
  import opened Arith
  import opened Bits
  import opened Builds
  import opened FrameTables
  import opened LogicalMemory
  import opened RegisterAccess
  import opened Splitting
  import opened Transfers

  class Ram {
    const build: Build
    const pageSize: nat
    const bitmap: array<bool>
    const bytes: array<Byte>
    var tables: Tables
    ghost var owner: seq<Owner>

    ghost predicate Valid()
      reads this, bitmap
    {
      && pageSize > 0 && bytes.Length == ByteOf(bitmap.Length, pageSize)
      && Agree(bitmap[..], tables, owner)
    }

    /** Frames nobody holds. */
    ghost function Free(): int
      reads this, bitmap
    {
      bitmap.Length - Count(bitmap[..])
    }

    constructor (build: Build, pageSize: nat, frames: nat)
      requires pageSize > 0
      ensures Valid() && tables == map[] && Free() == frames
      ensures this.build == build && this.pageSize == pageSize && bitmap.Length == frames
      ensures fresh(bitmap) && fresh(bytes)
    {
      this.build, this.pageSize := build, pageSize;
      bitmap := new bool[frames](_ => false);
      bytes := new Byte[ByteOf(frames, pageSize)](_ => 0);
      tables := map[];
      owner := seq(frames, _ => Nobody);
      new;
      CountPrefix(bitmap[..], 0);
    }

    /** A process is loaded with an empty page table. */
    method NewProcess(pid: nat)
      requires Valid() && pid !in tables
      modifies this`tables
      ensures Valid() && pid in tables && Size(tables[pid]) == 0
      ensures tables == old(tables)[pid := tables[pid]]
    {
      var table := seq(bitmap.Length, _ => Page(0, false));
      Entering(bitmap[..], tables, owner, pid, table);
      SizeIs(table, 0);
      tables := tables[pid := table];
    }

    /** The lowest free frame, which is taken; -1 when there is none. */
    method FindFrame() returns (f: int)
      modifies bitmap
      ensures -1 <= f < bitmap.Length
      ensures f == -1 <==> AllAre(old(bitmap[..]), 0, bitmap.Length, true)
      ensures f == -1 ==> bitmap[..] == old(bitmap[..])
      ensures f >= 0 ==>
        AllAre(old(bitmap[..]), 0, f, true) && !old(bitmap[..])[f] &&
        bitmap[..] == old(bitmap[..])[f := true]
    {
      f := 0;
      while f < bitmap.Length
        invariant 0 <= f <= bitmap.Length
        invariant AllAre(bitmap[..], 0, f, true)
        invariant bitmap[..] == old(bitmap[..])
      {
        if !bitmap[f] {
          bitmap[f] := true;
          return;
        }
        f := f + 1;
      }
      f := -1;
    }

    /** The process's size in pages. */
    method PageCount(pid: nat) returns (n: nat)
      requires Valid() && pid in tables
      ensures n == Size(tables[pid])
    {
      n := 0;
      while n < bitmap.Length && tables[pid][n].present
        invariant n <= Size(tables[pid])
      {
        n := n + 1;
      }
    }

    /** Adds pages one by one. When the frames run out, those already taken stay with the process. */
    method AddPages(pid: nat, pages: nat) returns (ok: bool)
      requires Valid() && pid in tables
      modifies this`tables, this`owner, bitmap
      ensures Valid() && pid in tables && tables == old(tables)[pid := tables[pid]]
      ensures ok <==> pages <= old(Free())
      ensures var added := if ok then pages else old(Free());
              && Size(tables[pid]) == old(Size(tables[pid])) + added
              && Free() == old(Free()) - added
      ensures forall i :: 0 <= i < old(Size(tables[pid])) ==> tables[pid][i] == old(tables[pid])[i]
    {
      hide Agree, Prefix;
      var left := pages;
      var i := PageCount(pid);
      CountBound(bitmap[..]);
      while left > 0
        invariant Valid() && pid in tables && tables == old(tables)[pid := tables[pid]]
        invariant 0 <= left <= pages && i == Size(tables[pid]) == old(Size(tables[pid])) + pages - left
        invariant 0 <= Free() == old(Free()) - (pages - left)
        invariant forall k :: 0 <= k < old(Size(tables[pid])) ==> tables[pid][k] == old(tables[pid])[k]
      {
        var f := AddPage(pid, i);
        if f == -1 {
          return false;
        }
        i := i + 1;
        left := left - 1;
      }
      ok := true;
    }

    /** One turn of that loop: the lowest free frame becomes page i of the process. */
    method AddPage(pid: nat, i: nat) returns (f: int)
      requires Valid() && pid in tables && i == Size(tables[pid])
      modifies this`tables, this`owner, bitmap
      ensures Valid() && pid in tables && tables == old(tables)[pid := tables[pid]]
      ensures -1 <= f < bitmap.Length && (f == -1 <==> old(Free()) == 0)
      ensures f == -1 ==> tables == old(tables) && Free() == 0
      ensures f != -1 ==>
        i < |tables[pid]| && tables[pid][i] == Page(f, true) && AllAre(old(bitmap[..]), 0, f, true) &&
        !old(bitmap[..])[f]
      ensures f != -1 ==> Size(tables[pid]) == i + 1 && Free() == old(Free()) - 1 >= 0
      ensures forall k :: 0 <= k < i ==> tables[pid][k] == old(tables)[pid][k]
    {
      hide Agree, Prefix;
      ghost var bitmap0 := bitmap[..];
      CountBound(bitmap0);
      f := FindFrame();
      if f != -1 {
        Granting(bitmap0, tables, owner, pid, f);
        CountBound(bitmap[..]);
        tables := tables[pid := tables[pid][i := Page(f, true)]];
        owner := owner[f := Holds(pid, i)];
      }
    }

    /** Takes the last pages away, highest first. */
    method RemovePages(pid: nat, pages: nat)
      requires Valid() && pid in tables && pages <= Size(tables[pid])
      modifies this`tables, this`owner, bitmap
      ensures Valid() && pid in tables && tables == old(tables)[pid := tables[pid]]
      ensures Size(tables[pid]) == old(Size(tables[pid])) - pages
      ensures Free() == old(Free()) + pages
      ensures forall i :: 0 <= i < Size(tables[pid]) ==> tables[pid][i] == old(tables[pid])[i]
    {
      hide Agree, Prefix;
      var left := pages;
      var n := PageCount(pid);
      var i: int := n;
      i := i - 1;
      while left > 0
        invariant Valid() && pid in tables && tables == old(tables)[pid := tables[pid]]
        invariant 0 <= left <= pages && i + 1 == Size(tables[pid]) == old(Size(tables[pid])) - (pages - left)
        invariant Free() == old(Free()) + (pages - left)
        invariant forall k :: 0 <= k <= i ==> tables[pid][k] == old(tables[pid])[k]
      {
        ghost var bitmap0 := bitmap[..];
        TakingBack(bitmap0, tables, owner, pid);
        var f := tables[pid][i].frame;
        bitmap[f] := false;
        tables := tables[pid := tables[pid][i := Page(f, false)]];
        owner := owner[f := Nobody];
        i := i - 1;
        left := left - 1;
      }
    }

    /** The process ends: every frame it had is free again. */
    method FreeProcess(pid: nat)
      requires Valid() && pid in tables
      modifies this`tables, this`owner, bitmap
      ensures Valid() && tables == old(tables) - {pid}
      ensures Free() == old(Free()) + old(Size(tables[pid]))
    {
      ReleaseNone(bitmap[..], tables, owner, pid);
      hide Agree, Releasing;
      var i := 0;
      while i < bitmap.Length && tables[pid][i].present
        invariant tables == old(tables) && i <= Size(tables[pid])
        invariant Releasing(bitmap[..], tables, owner, pid, i)
        invariant Free() == old(Free()) + i
      {
        ghost var bitmap0 := bitmap[..];
        ReleaseOne(bitmap0, tables, owner, pid, i);
        var f := tables[pid][i].frame;
        bitmap[f] := false;
        owner := owner[f := Nobody];
        i := i + 1;
      }
      Released(bitmap[..], tables, owner, pid);
      tables := tables - {pid};
    }

    // ------------------------------------------------------------- contents

    /** The process's memory as a private byte array. */
    ghost function Logical(pid: nat): (view: seq<Byte>)
      reads this, bitmap, bytes
      requires Valid() && pid in tables
      ensures |view| == ByteOf(Size(tables[pid]), pageSize)
    {
      FramesAreSound(bitmap[..], tables, owner, pid);
      View(bytes[..], FramesOf(tables[pid]), pageSize, bitmap.Length)
    }

    method CopyIn(at: nat, data: seq<Byte>)
      requires at + |data| <= bytes.Length
      modifies bytes
      ensures bytes[..] == Scatter(old(bytes[..]), Consecutive(at, |data|), data)
    {
      forall i | 0 <= i < |data| {
        bytes[at + i] := data[i];
      }
      ScatterRun(old(bytes[..]), at, data);
      assert bytes[..] == old(bytes[..])[..at] + data + old(bytes[..])[at + |data|..];
    }

    /** The pieces named by the words, one after the other. */
    method ReadString(words: seq<nat>, ghost pieces: seq<Piece>) returns (s: seq<Byte>)
      requires words == Words(pieces) && InStore(pieces, bytes.Length)
      ensures InStorePlaces(pieces, bytes.Length) && s == Gather(bytes[..], Expand(pieces))
    {
      hide Words, Expand, Gather;
      ExpandNothing(bytes[..]);
      s := [];
      var i := 0;
      assert pieces[..0] == [];
      while i < words[0]
        invariant i <= |pieces|
        invariant InStorePlaces(pieces[..i], bytes.Length) && s == Gather(bytes[..], Expand(pieces[..i]))
      {
        WordsAt(pieces, i);
        var size, at := words[1 + 2 * i], words[2 + 2 * i];
        ExpandStep(pieces, i, bytes.Length);
        GatherRun(bytes[..], at, size);
        GatherConcat(bytes[..], Expand(pieces[..i]), Consecutive(at, size));
        s := s + bytes[at..at + size];
        i := i + 1;
      }
      assert pieces[..i] == pieces;
    }

    /** Spreads a received buffer over the pieces; false where it would read past the buffer. */
    method WriteString(buffer: seq<Byte>, words: seq<nat>, ghost pieces: seq<Piece>) returns (ok: bool)
      requires words == Words(pieces) && InStore(pieces, bytes.Length)
      modifies bytes
      ensures InStorePlaces(pieces, bytes.Length)
      ensures ok <==> |Expand(pieces)| <= |buffer|
      ensures ok ==> bytes[..] == Scatter(old(bytes[..]), Expand(pieces), buffer[..|Expand(pieces)|])
    {
      hide Words, Expand, Scatter;
      ExpandNothing(bytes[..]);
      var i, done := 0, 0;
      assert pieces[..0] == [];
      ghost var store := bytes[..];
      while i < words[0]
        invariant i <= |pieces|
        invariant InStorePlaces(pieces[..i], bytes.Length) && done == |Expand(pieces[..i])| <= |buffer|
        invariant bytes[..] == Scatter(store, Expand(pieces[..i]), buffer[..done])
      {
        WordsAt(pieces, i);
        var size, at := words[1 + 2 * i], words[2 + 2 * i];
        ExpandStep(pieces, i, bytes.Length);
        if done + size > |buffer| {
          ExpandMonotone(pieces, i + 1, bytes.Length);
          return false;
        }
        ScatterConcat(store, Expand(pieces[..i]), Consecutive(at, size), buffer[..done], buffer[done..done + size]);
        CopyIn(at, buffer[done..done + size]);
        assert buffer[..done] + buffer[done..done + size] == buffer[..done + size];
        done := done + size;
        i := i + 1;
      }
      assert pieces[..i] == pieces;
      ok := true;
    }

    /** A request of the CPU or of an interface that reads a range of a process. */
    method LoadRange(words: seq<nat>, ghost pid: nat, ghost a: nat, ghost n: nat) returns (data: seq<Byte>)
      requires Valid() && pid in tables
      requires a < ByteOf(Size(tables[pid]), pageSize) && a + n <= ByteOf(Size(tables[pid]), pageSize)
      requires words == Words(Split(FramesOf(tables[pid]), pageSize, a, n))
      ensures data == Logical(pid)[a..a + n]
    {
      hide Agree, Split, Words, Places, Gather, ByteOf, InStore, Expand;
      ghost var frames := FramesOf(tables[pid]);
      FramesAreSound(bitmap[..], tables, owner, pid);
      SplitInStore(frames, pageSize, a, n, bitmap.Length);
      GatherIsSlice(bytes[..], frames, pageSize, bitmap.Length, a, n);
      data := ReadString(words, Split(frames, pageSize, a, n));
    }

    /** One that writes a range; it goes wrong exactly when the buffer is too short. */
    method StoreRange(buffer: seq<Byte>, words: seq<nat>, ghost pid: nat, ghost a: nat, ghost n: nat) returns (ok: bool)
      requires Valid() && pid in tables
      requires a < ByteOf(Size(tables[pid]), pageSize) && a + n <= ByteOf(Size(tables[pid]), pageSize)
      requires words == Words(Split(FramesOf(tables[pid]), pageSize, a, n))
      modifies bytes
      ensures Valid() && (ok <==> n <= |buffer|)
      ensures ok ==> Logical(pid) == Splice(old(Logical(pid)), a, buffer[..n])
      ensures ok ==> forall q :: q in tables && q != pid ==> Logical(q) == old(Logical(q))
    {
      hide Agree, Split, Words, Places, ByteOf, InStore, Expand;
      ghost var store, frames := bytes[..], FramesOf(tables[pid]);
      FramesAreSound(bitmap[..], tables, owner, pid);
      SplitInStore(frames, pageSize, a, n, bitmap.Length);
      ok := WriteString(buffer, words, Split(frames, pageSize, a, n));
      if ok {
        PuttingIsPrivate(bitmap[..], tables, owner, store, bytes[..], pageSize, pid, a, buffer[..n]);
      }
    }

    /** Loads a register: in one go from one page, byte by byte across pages, where the place
        of each further page is taken from the words that follow. */
    method ReadRegister(at: nat, size: nat, pages: nat, rest: seq<nat>) returns (value: nat, used: nat)
      requires pageSize > 0 && (size == 1 || size == 4) && (pages != 1 ==> size == 4)
      requires |AccessPlaces(pageSize, at, size, pages, rest)| == size
      requires forall i :: 0 <= i < size ==> AccessPlaces(pageSize, at, size, pages, rest)[i] < bytes.Length
      ensures value == Value(Gather(bytes[..], AccessPlaces(pageSize, at, size, pages, rest)))
      ensures used == if pages == 1 then 0 else Taken(pageSize, at, rest, 4)
    {
      if pages == 1 {
        used := 0;
        assert AccessPlaces(pageSize, at, size, pages, rest)[size - 1] == at + size - 1;
        GatherRun(bytes[..], at, size);
        value := Value(bytes[at..at + size]);
      } else {
        value, used := ReadAcross(at, rest);
      }
    }

    method ReadAcross(at: nat, rest: seq<nat>) returns (value: nat, used: nat)
      requires pageSize > 0 && |Walk(pageSize, at, rest, 4)| == 4
      requires forall i :: 0 <= i < 4 ==> Walk(pageSize, at, rest, 4)[i] < bytes.Length
      ensures value == Value(Gather(bytes[..], Walk(pageSize, at, rest, 4)))
      ensures used == Taken(pageSize, at, rest, 4)
    {
      hide Walk, Taken, Visiting, Value, Gather;
      ghost var places, total := Walk(pageSize, at, rest, 4), Taken(pageSize, at, rest, 4);
      VisitFirst(pageSize, at, rest);
      var df := at;
      GatherOne(bytes[..], [], df);
      assert places[..1] == [] + [df];
      var loaded := [bytes[df]];
      used := 0;
      df := df + 1;
      var i := 1;
      while i < 4
        invariant 1 <= i <= 4 && df > 0
        invariant Visiting(pageSize, places, total, df - 1, rest, used, i)
        invariant loaded == Gather(bytes[..], places[..i])
      {
        df, used := NextPlace(df, rest, used, places, total, i);
        assert places[..i + 1] == places[..i] + [df];
        GatherOne(bytes[..], places[..i], df);
        loaded := loaded + [bytes[df]];
        df := df + 1;
        i := i + 1;
      }
      VisitLast(pageSize, places, total, df - 1, rest, used);
      assert places[..4] == places;
      value := Value(loaded);
    }

    /** At the start of a page the next place is the next word. */
    method NextPlace(df: nat, rest: seq<nat>, used: nat, ghost places: seq<nat>, ghost total: nat, ghost i: nat)
        returns (df': nat, used': nat)
      requires pageSize > 0 && df > 0 && i < 4 && Visiting(pageSize, places, total, df - 1, rest, used, i)
      ensures |places| == 4 && places[i] == df' && Visiting(pageSize, places, total, df', rest, used', i + 1)
    {
      VisitNext(pageSize, places, total, df - 1, rest, used, i);
      df', used' := df, used;
      if df % pageSize == 0 {
        df', used' := rest[used], used + 1;
      }
    }

    /** Stores a register, visiting the same places. */
    method WriteRegister(at: nat, size: nat, pages: nat, value: nat, rest: seq<nat>) returns (used: nat)
      requires pageSize > 0 && (size == 1 || size == 4) && (pages != 1 ==> size == 4)
      requires |AccessPlaces(pageSize, at, size, pages, rest)| == size
      requires forall i :: 0 <= i < size ==> AccessPlaces(pageSize, at, size, pages, rest)[i] < bytes.Length
      modifies bytes
      ensures bytes[..] == Scatter(old(bytes[..]), AccessPlaces(pageSize, at, size, pages, rest),
                                   if pages == 1 then Bytes(value, size) else Stored(build, value))
      ensures used == if pages == 1 then 0 else Taken(pageSize, at, rest, 4)
    {
      if pages == 1 {
        used := 0;
        assert AccessPlaces(pageSize, at, size, pages, rest)[size - 1] == at + size - 1;
        CopyIn(at, Bytes(value, size));
      } else {
        used := WriteAcross(at, value, rest);
      }
    }

    method WriteAcross(at: nat, value: nat, rest: seq<nat>) returns (used: nat)
      requires pageSize > 0 && |Walk(pageSize, at, rest, 4)| == 4
      requires forall i :: 0 <= i < 4 ==> Walk(pageSize, at, rest, 4)[i] < bytes.Length
      modifies bytes
      ensures bytes[..] == Scatter(old(bytes[..]), Walk(pageSize, at, rest, 4), Stored(build, value))
      ensures used == Taken(pageSize, at, rest, 4)
    {
      hide Walk, Taken, Visiting;
      ghost var places, total := Walk(pageSize, at, rest, 4), Taken(pageSize, at, rest, 4);
      ghost var store, data := bytes[..], Stored(build, value);
      VisitFirst(pageSize, at, rest);
      assert Scatter(store, places[..0], data[..0]) == store;
      var bs := Bytes(value, 4);
      var df := at;
      PutNext(df, bs[0], store, places, data, 0);
      used := 0;
      df := df + 1;
      var i := 1;
      while i < 4
        invariant 1 <= i <= 4 && df > 0
        invariant Visiting(pageSize, places, total, df - 1, rest, used, i)
        invariant bytes[..] == Scatter(store, places[..i], data[..i])
      {
        df, used := NextPlace(df, rest, used, places, total, i);
        PutNext(df, if build.Repaired? then bs[i] else bs[1], store, places, data, i);
        df := df + 1;
        i := i + 1;
      }
      VisitLast(pageSize, places, total, df - 1, rest, used);
      assert places[..4] == places && data[..4] == data;
    }

    /** One byte more of a store that goes place by place. */
    method PutNext(df: nat, v: Byte, ghost store: seq<Byte>, ghost places: seq<nat>, ghost data: seq<Byte>,
                   ghost i: nat)
      requires |places| == |data| && i < |places| && places[i] == df && data[i] == v
      requires |store| == bytes.Length && forall k :: 0 <= k < |places| ==> places[k] < |store|
      requires bytes[..] == Scatter(store, places[..i], data[..i])
      modifies bytes
      ensures bytes[..] == Scatter(store, places[..i + 1], data[..i + 1])
    {
      assert places[..i + 1] == places[..i] + [df] && data[..i + 1] == data[..i] + [v];
      ScatterOne(store, places[..i], df, data[..i], v);
      bytes[df] := v;
    }
  }
}
