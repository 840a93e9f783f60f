/** What an instruction that reaches memory asks of the memory module, and what that does to
    the running process's logical memory. */
module Transfers {
  import opened Arith
  import opened Builds
  import opened LogicalMemory
  import opened RegisterAccess
  import opened Splitting

  // -------------------------------------------------------------- registers

  /** From the addresses of the pages of its range, a register access visits exactly the
      places of its bytes, and takes every address that was sent. */
  lemma {:induction false} AccessCovers(frames: seq<nat>, pageSize: nat, a: nat, size: nat, frameCount: nat)
    requires pageSize > 0 && (size == 1 || size == 4) && a + size <= ByteOf(|frames|, pageSize) &&
        Sound(frames, frameCount)
    ensures var v := Starts(Split(frames, pageSize, a, size));
            && AccessPlaces(pageSize, v[0], size, |v|, v[1..]) == Places(frames, pageSize, a, size)
            && (|v| == 1 <==> Within(a, pageSize) + size <= pageSize)
            && (|v| != 1 ==> size == 4 && Taken(pageSize, v[0], v[1..], 4) == |v| - 1)
    ensures forall i :: 0 <= i < size ==> Places(frames, pageSize, a, size)[i] < ByteOf(frameCount, pageSize)
  {
    PlacesInStore(frames, pageSize, a, size, frameCount);
    SplitSizes(frames, pageSize, a, size);
    CellBelow(a, |frames|, pageSize);
    hide Walk, Taken, Sound, Phys, Within, Cell, SizesAre, Places;
    if size <= pageSize - Within(a, pageSize) {
      OnePage(frames, pageSize, a, size);
    } else {
      hide Split, Starts;
      WalkCovers(frames, pageSize, a, size, frameCount);
    }
  }

  /** What storing a register puts into the process's memory. */
  function Put(build: Build, pageSize: nat, a: nat, size: nat, value: nat): (bs: seq<Byte>)
    requires pageSize > 0 && (size == 1 || size == 4)
    ensures |bs| == size
  {
    if size == 1 || Within(a, pageSize) + size <= pageSize then Bytes(value, size) else Stored(build, value)
  }

  lemma {:induction false} ValueInjective(bs: seq<Byte>, cs: seq<Byte>)
    requires |bs| == |cs| && Value(bs) == Value(cs)
    ensures bs == cs
  {
    if bs != [] {
      ValueInjective(bs[1..], cs[1..]);
      assert bs == [bs[0]] + bs[1..] && cs == [cs[0]] + cs[1..];
    }
  }

  /** A register that is stored is there to be loaded again; as written, only if it lies in one
      page or its three high bytes are equal. */
  lemma {:induction false} LoadAfterPut(build: Build, pageSize: nat, view: seq<Byte>, a: nat, size: nat, value: nat)
    requires pageSize > 0 && (size == 1 || size == 4) && a + size <= |view| && value < Limit(size)
    ensures Value(Splice(view, a, Put(build, pageSize, a, size, value))[a..a + size]) == value
            <==> Whole(build, pageSize, a, size, value)
  {
    var put := Put(build, pageSize, a, size, value);
    assert Splice(view, a, put)[a..a + size] == put;
    LoadAfterStore(value, size);
    PutIff(build, pageSize, a, size, value);
    if Value(put) == value {
      ValueInjective(put, Bytes(value, size));
    }
  }

  predicate Whole(build: Build, pageSize: nat, a: nat, size: nat, value: nat)
    requires pageSize > 0
  {
    || build.Repaired? || size == 1 || Within(a, pageSize) + size <= pageSize
    || value / 256 % 256 == value / 65536 % 256 == value / 16777216 % 256
  }

  lemma {:induction false} PutIff(build: Build, pageSize: nat, a: nat, size: nat, value: nat)
    requires pageSize > 0 && (size == 1 || size == 4)
    ensures Put(build, pageSize, a, size, value) == Bytes(value, size) <==> Whole(build, pageSize, a, size, value)
  {
    StoredIff(build, value);
    hide Bytes, Stored, Within;
  }

  // ---------------------------------------------------------------- strings

  lemma {:induction false} SplitInStore(frames: seq<nat>, pageSize: nat, a: nat, n: nat, frameCount: nat)
    requires pageSize > 0 && a < ByteOf(|frames|, pageSize) && a + n <= ByteOf(|frames|, pageSize) &&
        Sound(frames, frameCount)
    ensures InStore(Split(frames, pageSize, a, n), ByteOf(frameCount, pageSize))
    ensures Expand(Split(frames, pageSize, a, n)) == Places(frames, pageSize, a, n)
  {
    SplitCovers(frames, pageSize, a, n);
    forall i | 0 <= i < |Split(frames, pageSize, a, n)|
      ensures var p := Split(frames, pageSize, a, n)[i]; p.at + p.size <= ByteOf(frameCount, pageSize)
    {
      PiecesInsidePages(frames, pageSize, a, n, frameCount, i);
    }
  }

  /** A buffer as C takes it for a string: up to its first zero byte. */
  function CString(bs: seq<Byte>): (r: seq<Byte>)
    ensures r <= bs && NoneZero(r) && (|r| < |bs| ==> bs[|r|] == 0)
  {
    if bs == [] || bs[0] == 0 then [] else [bs[0]] + CString(bs[1..])
  }

  /** As the socket layer sends it: with one zero byte at the end. */
  function AsSent(bs: seq<Byte>): seq<Byte> {
    CString(bs) + [0]
  }

  predicate NoneZero(bs: seq<Byte>) {
    forall i :: 0 <= i < |bs| ==> bs[i] != 0
  }

  /** Sending takes the whole of a string exactly when no byte before its last one is zero. */
  lemma {:induction false} SentWhole(bs: seq<Byte>)
    ensures |AsSent(bs)| >= |bs| <==> |bs| == 0 || NoneZero(bs[..|bs| - 1])
    ensures |AsSent(bs)| >= |bs| ==> AsSent(bs)[..|bs|] == bs
  {
    if |bs| > 1 {
      var rest := bs[1..];
      SentWhole(rest);
      assert bs[..|bs| - 1] == [bs[0]] + rest[..|rest| - 1];
      if bs[0] != 0 && |AsSent(bs)| >= |bs| {
        assert AsSent(bs) == [bs[0]] + AsSent(rest);
        assert AsSent(bs)[..|bs|] == [bs[0]] + AsSent(rest)[..|rest|];
      }
    }
  }
}
