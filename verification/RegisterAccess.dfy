/** A register moved to or from memory: its bytes, and the places the memory module visits
    when the register lies over several pages. */
module RegisterAccess {
  import opened Arith
  import opened Builds
  import opened LogicalMemory
  import opened Splitting

  /** The n low bytes of a value, least significant first. */
  function Bytes(value: nat, n: nat): (bs: seq<Byte>)
    ensures |bs| == n
  {
    if n == 0 then [] else [(value % 256) as Byte] + Bytes(value / 256, n - 1)
  }

  function Value(bs: seq<Byte>): nat {
    if bs == [] then 0 else bs[0] as nat + 256 * Value(bs[1..])
  }

  /** The place value of byte i: 256 to the power i. */
  function Weight(i: nat): (w: nat)
    ensures w > 0
  {
    if i == 0 then 1 else 256 * Weight(i - 1)
  }

  lemma {:induction false} DivTwice(v: nat, w: nat)
    requires w > 0
    ensures v / (256 * w) == v / 256 / w
  {
    var q, r := v / 256 / w, v / 256 % w;
    DivModSplit(v, 256);
    DivModSplit(v / 256, w);
    assert v == (q * w + r) * 256 + v % 256;
    assert (q * w + r) * 256 == q * (256 * w) + r * 256;
    assert r * 256 + v % 256 < 256 * w;
    DivModUnique(q, r * 256 + v % 256, 256 * w);
  }

  /** The bytes of a value are its digits to base 256, whatever the width. */
  lemma {:induction false} BytesAreDigits(value: nat, n: nat, i: nat)
    requires i < n
    ensures Bytes(value, n)[i] as nat == value / Weight(i) % 256
  {
    if i > 0 {
      BytesAreDigits(value / 256, n - 1, i - 1);
      assert Bytes(value, n)[i] == Bytes(value / 256, n - 1)[i - 1];
      DivTwice(value, Weight(i - 1));
    }
  }

  lemma {:induction false} ValueOfOne(b: Byte)
    ensures Value([b]) == b as nat
  {
    assert [b][1..] == [];
  }

  /** And the value of bytes is the sum of its bytes, each with its place value. */
  lemma {:induction false} ValueIsSum(bs: seq<Byte>)
    requires bs != []
    ensures Value(bs) == Value(bs[..|bs| - 1]) + bs[|bs| - 1] as nat * Weight(|bs| - 1)
  {
    if |bs| == 1 {
      assert bs == [bs[0]];
      ValueOfOne(bs[0]);
    } else {
      ValueIsSum(bs[1..]);
      var less := bs[..|bs| - 1];
      assert less[1..] == bs[1..][..|bs| - 2];
      var x := bs[|bs| - 1] as nat;
      assert 256 * (x * Weight(|bs| - 2)) == x * (256 * Weight(|bs| - 2));
    }
  }

  function Limit(n: nat): nat {
    if n == 0 then 1 else 256 * Limit(n - 1)
  }

  /** A register that is stored and loaded again has its value, whatever its width. */
  lemma {:induction false} LoadAfterStore(value: nat, n: nat)
    requires value < Limit(n)
    ensures Value(Bytes(value, n)) == value
  {
    if n > 0 {
      LoadAfterStore(value / 256, n - 1);
      assert Bytes(value, n)[1..] == Bytes(value / 256, n - 1);
    }
  }

  /** The bytes a store over several pages puts down. As written, the second byte goes to
      every place after the first. */
  function Stored(build: Build, value: nat): (bs: seq<Byte>)
    ensures |bs| == 4
  {
    var bs := Bytes(value, 4);
    if build.Repaired? then bs else [bs[0], bs[1], bs[1], bs[1]]
  }

  lemma {:induction false} StoredIff(build: Build, value: nat)
    ensures Stored(build, value) == Bytes(value, 4)
            <==> build.Repaired? || (value / 256 % 256 == value / 65536 % 256 == value / 16777216 % 256)
  {
    FourBytes(value);
    assert Stored(build, value)[1] == Bytes(value, 4)[1];
    hide Bytes;
    assert value / 256 / 256 == value / 65536 && value / 65536 / 256 == value / 16777216;
  }

  /** As written every place after the first gets byte 1. */
  lemma {:induction false} StoredAsWritten(value: nat, i: nat)
    requires i < 4
    ensures Stored(AsWritten, value)[i] as nat == if i == 0 then value % 256 else value / 256 % 256
  {
    FourBytes(value);
    hide Bytes;
  }

  lemma {:induction false} FourBytes(value: nat)
    ensures var bs := Bytes(value, 4);
            && bs[0] as nat == value % 256 && bs[1] as nat == value / 256 % 256
            && bs[2] as nat == value / 256 / 256 % 256 && bs[3] as nat == value / 256 / 256 / 256 % 256
  {
    var v1, v2, v3 := value / 256, value / 256 / 256, value / 256 / 256 / 256;
    assert Bytes(v3, 1) == [(v3 % 256) as Byte] + Bytes(v3 / 256, 0);
    assert Bytes(v2, 2) == [(v2 % 256) as Byte] + Bytes(v3, 1);
    assert Bytes(v1, 3) == [(v1 % 256) as Byte] + Bytes(v2, 2);
    assert Bytes(value, 4) == [(value % 256) as Byte] + Bytes(v1, 3);
  }

  /** The places visited from `at` on, going on at the next word of `rest` at every page start. */
  function Walk(pageSize: nat, at: nat, rest: seq<nat>, n: nat): seq<nat>
    requires pageSize > 0
    decreases n
  {
    if n == 0 then []
    else if n == 1 then [at]
    else if Within(at + 1, pageSize) != 0 then [at] + Walk(pageSize, at + 1, rest, n - 1)
    else if rest == [] then [at]
    else [at] + Walk(pageSize, rest[0], rest[1..], n - 1)
  }

  /** How many words of `rest` that takes. */
  function Taken(pageSize: nat, at: nat, rest: seq<nat>, n: nat): nat
    requires pageSize > 0
    decreases n
  {
    if n <= 1 then 0
    else if Within(at + 1, pageSize) != 0 then Taken(pageSize, at + 1, rest, n - 1)
    else if rest == [] then 0
    else 1 + Taken(pageSize, rest[0], rest[1..], n - 1)
  }

  /** Given the places of the pages of a range, the walk visits exactly the places of its
      bytes, in order, and takes every word that was sent. */
  lemma {:induction false} WalkCovers(frames: seq<nat>, pageSize: nat, a: nat, n: nat, frameCount: nat)
    requires pageSize > 0 && n > 0 && a + n <= ByteOf(|frames|, pageSize) && Sound(frames, frameCount)
    ensures var starts := Starts(Split(frames, pageSize, a, n));
            && Walk(pageSize, starts[0], starts[1..], n) == Places(frames, pageSize, a, n)
            && Taken(pageSize, starts[0], starts[1..], n) == |starts| - 1
    decreases n
  {
    hide Split, Phys, Within, Cell, Sound;
    FirstByte(frames, pageSize, a, n, frameCount);
    if n > 1 {
      hide Walk, Taken;
      var starts, next := Starts(Split(frames, pageSize, a, n)), Starts(Split(frames, pageSize, a + 1, n - 1));
      WalkCovers(frames, pageSize, a + 1, n - 1, frameCount);
      NextByte(frames, pageSize, a, n);
      WalkStep(pageSize, starts, next, n);
    }
  }

  lemma {:induction false} FirstByte(frames: seq<nat>, pageSize: nat, a: nat, n: nat, frameCount: nat)
    requires pageSize > 0 && n > 0 && a + n <= ByteOf(|frames|, pageSize) && Sound(frames, frameCount)
    ensures Cell(a, pageSize) < |frames|
    ensures var starts := Starts(Split(frames, pageSize, a, n));
            && starts[0] == Phys(frames, pageSize, a) == Places(frames, pageSize, a, n)[0]
            && (Within(starts[0] + 1, pageSize) == 0 <==> Within(a, pageSize) + 1 == pageSize)
            && (n == 1 ==> |starts| == 1)
  {
    CellBelow(a, |frames|, pageSize);
    PhysInStore(frames, pageSize, a, frameCount);
    hide Sound;
    CellStep(Phys(frames, pageSize, a), 1, pageSize);
  }

  lemma {:induction false} WalkStep(pageSize: nat, starts: seq<nat>, next: seq<nat>, n: nat)
    requires pageSize > 0 && n > 1 && |starts| > 0 && |next| > 0
    requires if Within(starts[0] + 1, pageSize) != 0 then next == [starts[0] + 1] + starts[1..] else next == starts[1..]
    ensures Walk(pageSize, starts[0], starts[1..], n) == [starts[0]] + Walk(pageSize, next[0], next[1..], n - 1)
    ensures Taken(pageSize, starts[0], starts[1..], n) - |starts| == Taken(pageSize, next[0], next[1..], n - 1) - |next|
  {
  }

  /** One byte on, the remaining range has the same page places still to come. */
  lemma {:induction false} NextByte(frames: seq<nat>, pageSize: nat, a: nat, n: nat)
    requires pageSize > 0 && n > 1 && a + n <= ByteOf(|frames|, pageSize)
    ensures Cell(a, pageSize) < |frames|
    ensures var starts, next := Starts(Split(frames, pageSize, a, n)), Starts(Split(frames, pageSize, a + 1, n - 1));
            if Within(a, pageSize) + 1 < pageSize
            then starts[0] == Phys(frames, pageSize, a) && next == [starts[0] + 1] + starts[1..]
            else starts == [Phys(frames, pageSize, a)] + next
  {
    CellBelow(a, |frames|, pageSize);
    CellBelow(a + 1, |frames|, pageSize);
    CellStep(a, 1, pageSize);
    var room := pageSize - Within(a, pageSize);
    var pieces, next := Split(frames, pageSize, a, n), Split(frames, pageSize, a + 1, n - 1);
    if room > 1 && n > room {
      var rest := Split(frames, pageSize, a + room, n - room);
      assert pieces[1..] == rest;
      assert next[1..] == rest by {
        assert a + room == (a + 1) + (room - 1) && n - room == (n - 1) - (room - 1);
      }
    }
    hide Split, Cell, Within;
  }

  /** Going one place further along the walk. */
  lemma {:induction false} WalkTail(pageSize: nat, at: nat, rest: seq<nat>, n: nat)
    requires pageSize > 0 && n > 1 && |Walk(pageSize, at, rest, n)| == n
    ensures Within(at + 1, pageSize) != 0 ==>
      && Walk(pageSize, at, rest, n)[1..] == Walk(pageSize, at + 1, rest, n - 1)
      && Taken(pageSize, at, rest, n) == Taken(pageSize, at + 1, rest, n - 1)
    ensures Within(at + 1, pageSize) == 0 ==>
      && rest != []
      && Walk(pageSize, at, rest, n)[1..] == Walk(pageSize, rest[0], rest[1..], n - 1)
      && Taken(pageSize, at, rest, n) == 1 + Taken(pageSize, rest[0], rest[1..], n - 1)
  {
  }

  /** The state of the memory module's loop: i places visited, the last one `at`, and `used` of
      the words taken. */
  predicate Visiting(pageSize: nat, places: seq<nat>, total: nat, at: nat, rest: seq<nat>, used: nat, i: nat)
    requires pageSize > 0
  {
    && |places| == 4 && 1 <= i <= 4 && used <= |rest|
    && places[i - 1..] == Walk(pageSize, at, rest[used..], 5 - i)
    && used + Taken(pageSize, at, rest[used..], 5 - i) == total
  }

  lemma {:induction false} VisitFirst(pageSize: nat, at: nat, rest: seq<nat>)
    requires pageSize > 0 && |Walk(pageSize, at, rest, 4)| == 4
    ensures Walk(pageSize, at, rest, 4)[0] == at
    ensures Visiting(pageSize, Walk(pageSize, at, rest, 4), Taken(pageSize, at, rest, 4), at, rest, 0, 1)
  {
  }

  lemma {:induction false} VisitNext(pageSize: nat, places: seq<nat>, total: nat, at: nat, rest: seq<nat>, used: nat,
                                     i: nat)
    requires pageSize > 0 && Visiting(pageSize, places, total, at, rest, used, i) && i < 4
    ensures (at + 1) % pageSize != 0 ==>
      places[i] == at + 1 && Visiting(pageSize, places, total, at + 1, rest, used, i + 1)
    ensures (at + 1) % pageSize == 0 ==>
      used < |rest| && places[i] == rest[used] && Visiting(pageSize, places, total, rest[used], rest, used + 1, i + 1)
  {
    CellIsDiv(at + 1, pageSize);
    WalkTail(pageSize, at, rest[used..], 5 - i);
    assert places[i..] == places[i - 1..][1..] && places[i] == places[i..][0];
    if rest[used..] != [] {
      assert rest[used..][1..] == rest[used + 1..] && rest[used..][0] == rest[used];
    }
  }

  lemma {:induction false} VisitLast(pageSize: nat, places: seq<nat>, total: nat, at: nat, rest: seq<nat>, used: nat)
    requires pageSize > 0 && Visiting(pageSize, places, total, at, rest, used, 4)
    ensures used == total
  {
  }

  /** The places of a register access: one block, or a walk when it spans pages. */
  function AccessPlaces(pageSize: nat, at: nat, size: nat, pages: nat, rest: seq<nat>): seq<nat>
    requires pageSize > 0
  {
    if pages == 1 then Consecutive(at, size) else Walk(pageSize, at, rest, 4)
  }
}
