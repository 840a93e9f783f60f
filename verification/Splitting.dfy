/** The cutting of a logical range into one piece a page, as the CPU sends it, as an interface
    recomputes it, and as the memory module puts it together again. */
module Splitting {
  import opened Arith
  import opened LogicalMemory

  /** `size` bytes from place `at` of the store. */
  datatype Piece = Piece(size: nat, at: nat)

  function Consecutive(at: nat, n: nat): (places: seq<nat>)
    ensures |places| == n && forall i :: 0 <= i < n ==> places[i] == at + i
    decreases n
  {
    if n == 0 then [] else [at] + Consecutive(at + 1, n - 1)
  }

  /** Consecutive places are read and written as one block. */
  lemma {:induction false} GatherRun(store: seq<Byte>, at: nat, n: nat)
    requires at + n <= |store|
    ensures Gather(store, Consecutive(at, n)) == store[at..at + n]
    decreases n
  {
    if n > 0 {
      GatherRun(store, at + 1, n - 1);
      assert Consecutive(at, n)[1..] == Consecutive(at + 1, n - 1);
    }
  }

  lemma {:induction false} ScatterRun(store: seq<Byte>, at: nat, data: seq<Byte>)
    requires at + |data| <= |store|
    ensures Scatter(store, Consecutive(at, |data|), data) == store[..at] + data + store[at + |data|..]
    decreases |data|
  {
    if data != [] {
      var store' := store[at := data[0]];
      ScatterRun(store', at + 1, data[1..]);
      assert Consecutive(at, |data|)[1..] == Consecutive(at + 1, |data| - 1);
      assert store'[..at + 1] + data[1..] + store'[at + |data|..] == store[..at] + data + store[at + |data|..];
    }
  }

  /** All places of the pieces, in order. */
  function Expand(pieces: seq<Piece>): seq<nat> {
    if pieces == [] then [] else Consecutive(pieces[0].at, pieces[0].size) + Expand(pieces[1..])
  }

  function Starts(pieces: seq<Piece>): (starts: seq<nat>)
    ensures |starts| == |pieces| && forall i :: 0 <= i < |pieces| ==> starts[i] == pieces[i].at
  {
    if pieces == [] then [] else [pieces[0].at] + Starts(pieces[1..])
  }

  /** The pieces of a range: what is left of its first page, then page after page. */
  function Split(frames: seq<nat>, pageSize: nat, a: nat, n: nat): (pieces: seq<Piece>)
    requires pageSize > 0 && a < ByteOf(|frames|, pageSize) && a + n <= ByteOf(|frames|, pageSize)
    ensures |pieces| > 0
    decreases n
  {
    CellBelow(a, |frames|, pageSize);
    var room := pageSize - Within(a, pageSize);
    if n <= room then [Piece(n, Phys(frames, pageSize, a))]
    else [Piece(room, Phys(frames, pageSize, a))] + Split(frames, pageSize, a + room, n - room)
  }

  // ------------------------------------------------------- the split is exact

  lemma {:induction false} PlacesConcat(frames: seq<nat>, pageSize: nat, a: nat, m: nat, n: nat)
    requires pageSize > 0 && a + m + n <= ByteOf(|frames|, pageSize)
    ensures Places(frames, pageSize, a, m + n) == Places(frames, pageSize, a, m) + Places(frames, pageSize, a + m, n)
    decreases m
  {
    if m > 0 {
      PlacesConcat(frames, pageSize, a + 1, m - 1, n);
      assert (a + 1) + (m - 1) == a + m && (m - 1) + n == m + n - 1;
    }
  }

  /** Inside one page, consecutive logical bytes lie at consecutive places. */
  lemma {:induction false} OnePage(frames: seq<nat>, pageSize: nat, a: nat, n: nat)
    requires pageSize > 0 && a < ByteOf(|frames|, pageSize) && a + n <= ByteOf(|frames|, pageSize)
    requires Within(a, pageSize) + n <= pageSize
    ensures Cell(a, pageSize) < |frames|
    ensures Places(frames, pageSize, a, n) == Consecutive(Phys(frames, pageSize, a), n)
    decreases n
  {
    CellBelow(a, |frames|, pageSize);
    if n > 1 {
      CellStep(a, 1, pageSize);
      OnePage(frames, pageSize, a + 1, n - 1);
    }
  }

  /** The pieces cover the range, in order, byte for byte. */
  lemma {:induction false} SplitCovers(frames: seq<nat>, pageSize: nat, a: nat, n: nat)
    requires pageSize > 0 && a < ByteOf(|frames|, pageSize) && a + n <= ByteOf(|frames|, pageSize)
    ensures Expand(Split(frames, pageSize, a, n)) == Places(frames, pageSize, a, n)
    decreases n
  {
    CellBelow(a, |frames|, pageSize);
    var room := pageSize - Within(a, pageSize);
    if n <= room {
      OnePage(frames, pageSize, a, n);
    } else {
      OnePage(frames, pageSize, a, room);
      SplitCovers(frames, pageSize, a + room, n - room);
      PlacesConcat(frames, pageSize, a, room, n - room);
    }
  }

  /** No piece reaches over the end of its frame. */
  lemma {:induction false} PiecesInsidePages(frames: seq<nat>, pageSize: nat, a: nat, n: nat, frameCount: nat, i: nat)
    requires pageSize > 0 && a < ByteOf(|frames|, pageSize) && a + n <= ByteOf(|frames|, pageSize)
    requires Sound(frames, frameCount) && i < |Split(frames, pageSize, a, n)|
    ensures var p := Split(frames, pageSize, a, n)[i];
            && Within(p.at, pageSize) + p.size <= pageSize
            && p.at + p.size <= ByteOf(frameCount, pageSize)
    decreases n
  {
    CellBelow(a, |frames|, pageSize);
    var room := pageSize - Within(a, pageSize);
    if i > 0 {
      PiecesInsidePages(frames, pageSize, a + room, n - room, frameCount, i - 1);
    } else {
      PhysInStore(frames, pageSize, a, frameCount);
      ByteOfMonotone(frames[Cell(a, pageSize)] + 1, frameCount, pageSize);
    }
  }

  /** From a page boundary on, the pieces are whole pages and a rest; the program's counter
      arithmetic names them by their index. */
  lemma {:induction false} AlignedSplit(frames: seq<nat>, pageSize: nat, a: nat, n: nat, i: nat)
    requires pageSize > 0 && n > 0 && a + n <= ByteOf(|frames|, pageSize) && Within(a, pageSize) == 0
    requires i < Blocks(n, pageSize)
    ensures |Split(frames, pageSize, a, n)| == Blocks(n, pageSize)
    ensures a + ByteOf(i, pageSize) < a + n && Cell(a + ByteOf(i, pageSize), pageSize) < |frames|
    ensures Split(frames, pageSize, a, n)[i]
         == Piece(if i + 1 < Blocks(n, pageSize) then pageSize else n - ByteOf(i, pageSize),
                  Phys(frames, pageSize, a + ByteOf(i, pageSize)))
    decreases n
  {
    CellBelow(a, |frames|, pageSize);
    if n > pageSize {
      CellStep(a, pageSize, pageSize);
      var rest := Split(frames, pageSize, a + pageSize, n - pageSize);
      assert Split(frames, pageSize, a, n) == [Piece(pageSize, Phys(frames, pageSize, a))] + rest;
      if i == 0 {
        AlignedSplit(frames, pageSize, a + pageSize, n - pageSize, 0);
      } else {
        AlignedSplit(frames, pageSize, a + pageSize, n - pageSize, i - 1);
        assert a + ByteOf(i, pageSize) == a + pageSize + ByteOf(i - 1, pageSize);
        hide Split, Phys, Cell;
      }
    }
  }

  /** The page the CPU translates in turn i of its loop is the one of piece i + 1. */
  lemma {:induction false} PieceAt(frames: seq<nat>, pageSize: nat, a: nat, n: nat, i: nat)
    requires pageSize > 0 && a < ByteOf(|frames|, pageSize) && a + n <= ByteOf(|frames|, pageSize)
    requires pageSize - Within(a, pageSize) < n && i < CeilDiv(n - (pageSize - Within(a, pageSize)), pageSize)
    ensures var page, pieces := a + (pageSize - Within(a, pageSize)) + i * pageSize, Split(frames, pageSize, a, n);
            && Cell(page, pageSize) < |frames|
            && i + 1 < |pieces| && pieces[i + 1].at == Phys(frames, pageSize, page)
  {
    hide Split, Phys, Cell, Within, ByteOf, CeilDiv, Blocks;
    var room := pageSize - Within(a, pageSize);
    CellStep(a, room, pageSize);
    BlocksIsCeil(n - room, pageSize);
    AlignedSplit(frames, pageSize, a + room, n - room, i);
    ByteOfIsProduct(i, pageSize);
    SplitTail(frames, pageSize, a, n);
  }

  lemma {:induction false} SplitTail(frames: seq<nat>, pageSize: nat, a: nat, n: nat)
    requires pageSize > 0 && a < ByteOf(|frames|, pageSize) && a + n <= ByteOf(|frames|, pageSize)
    requires pageSize - Within(a, pageSize) < n
    ensures var room := pageSize - Within(a, pageSize);
            Split(frames, pageSize, a, n)[1..] == Split(frames, pageSize, a + room, n - room)
  {
  }

  /** The size of the last piece, as the program takes it from a remainder. */
  lemma {:induction false} LastPiece(n: nat, pageSize: nat)
    requires pageSize > 0 && n > 0
    ensures ByteOf(Blocks(n, pageSize) - 1, pageSize) < n
    ensures n - ByteOf(Blocks(n, pageSize) - 1, pageSize) == Tail(n, pageSize)
  {
    hide Blocks, ByteOf, Cell, Within;
    LastBlock(n, pageSize);
    RestIsTail(Blocks(n, pageSize) - 1, n - ByteOf(Blocks(n, pageSize) - 1, pageSize), pageSize);
  }

  lemma {:induction false} RestIsTail(k: nat, r: nat, pageSize: nat)
    requires 0 < r <= pageSize
    ensures r == Tail(ByteOf(k, pageSize) + r, pageSize)
  {
    var n := ByteOf(k, pageSize) + r;
    CellIsDiv(n, pageSize);
    if r < pageSize {
      CellOf(k, r, pageSize);
    } else {
      CellOf(k + 1, 0, pageSize);
    }
    hide Cell, Within;
  }

  lemma {:induction false} LastBlock(n: nat, pageSize: nat)
    requires pageSize > 0 && n > 0
    ensures 0 < n - ByteOf(Blocks(n, pageSize) - 1, pageSize) <= pageSize
    decreases n
  {
    if n > pageSize {
      LastBlock(n - pageSize, pageSize);
    }
  }

  predicate InStore(pieces: seq<Piece>, size: nat) {
    forall i :: 0 <= i < |pieces| ==> pieces[i].at + pieces[i].size <= size
  }

  predicate InStorePlaces(pieces: seq<Piece>, size: nat) {
    forall i :: 0 <= i < |Expand(pieces)| ==> Expand(pieces)[i] < size
  }

  lemma {:induction false} ExpandNothing(store: seq<Byte>)
    ensures Expand([]) == [] && Scatter(store, [], []) == store
  {
  }

  lemma {:induction false} ExpandStep(pieces: seq<Piece>, i: nat, size: nat)
    requires i < |pieces| && InStore(pieces, size) && InStorePlaces(pieces[..i], size)
    ensures Expand(pieces[..i + 1]) == Expand(pieces[..i]) + Consecutive(pieces[i].at, pieces[i].size)
    ensures InStorePlaces(pieces[..i + 1], size)
  {
    assert pieces[..i + 1] == pieces[..i] + [pieces[i]];
    ExpandConcat(pieces[..i], [pieces[i]]);
    assert Expand([pieces[i]]) == Consecutive(pieces[i].at, pieces[i].size);
  }

  lemma {:induction false} ExpandMonotone(pieces: seq<Piece>, i: nat, size: nat)
    requires i <= |pieces| && InStore(pieces, size) && InStorePlaces(pieces[..i], size)
    ensures |Expand(pieces[..i])| <= |Expand(pieces)| && InStorePlaces(pieces, size)
    decreases |pieces| - i
  {
    if i < |pieces| {
      ExpandStep(pieces, i, size);
      ExpandMonotone(pieces, i + 1, size);
    } else {
      assert pieces[..i] == pieces;
    }
  }

  // ---------------------------------------------------------------- messages

  /** What goes over the socket: the number of pieces, then size and place of each. */
  function Words(pieces: seq<Piece>): (words: seq<nat>)
    ensures |words| == 1 + 2 * |pieces| && words[0] == |pieces|
  {
    [|pieces|] + Pairs(pieces)
  }

  function Pairs(pieces: seq<Piece>): (words: seq<nat>)
    ensures |words| == 2 * |pieces|
    ensures forall i :: 0 <= i < |pieces| ==> words[2 * i] == pieces[i].size && words[2 * i + 1] == pieces[i].at
  {
    if pieces == [] then []
    else
      var rest := Pairs(pieces[1..]);
      assert forall i :: 0 < i < |pieces| ==> pieces[1..][i - 1] == pieces[i] && 2 * (i - 1) + 2 == 2 * i;
      [pieces[0].size, pieces[0].at] + rest
  }

  lemma {:induction false} WordsAt(pieces: seq<Piece>, i: nat)
    requires i < |pieces|
    ensures Words(pieces)[1 + 2 * i] == pieces[i].size && Words(pieces)[2 + 2 * i] == pieces[i].at
  {
  }

  lemma {:induction false} PairsConcat(a: seq<Piece>, b: seq<Piece>)
    ensures Pairs(a + b) == Pairs(a) + Pairs(b)
  {
    if a == [] {
      assert a + b == b;
    } else {
      assert (a + b)[1..] == a[1..] + b;
      PairsConcat(a[1..], b);
    }
  }

  lemma {:induction false} ExpandConcat(a: seq<Piece>, b: seq<Piece>)
    ensures Expand(a + b) == Expand(a) + Expand(b)
  {
    if a == [] {
      assert a + b == b;
    } else {
      assert (a + b)[1..] == a[1..] + b;
      ExpandConcat(a[1..], b);
    }
  }

  /** The sender's loop: from the place of each page of the range, the room on the first page
      and the length, the words for the memory module. */
  method PieceWords(pageSize: nat, room: nat, n: nat, v: seq<nat>, ghost pieces: seq<Piece>) returns (words: seq<nat>)
    requires pageSize > 0 && v == Starts(pieces)
    requires n <= room ==> |pieces| == 1 && pieces[0].size == n
    requires n > room ==> SizesAre(pieces, pageSize, room, n)
    ensures words == Words(pieces)
  {
    hide Words, Pairs, Starts;
    if n <= room {
      words := [1, n, v[0]];
      OnePair(pieces);
    } else {
      words := WholePages(pageSize, room, v, pieces);
      var rest := (n - room) % pageSize;
      words := words + [if rest != 0 then rest else pageSize, v[|v| - 1]];
      AllPairs(pieces);
    }
  }

  lemma {:induction false} OnePair(pieces: seq<Piece>)
    requires |pieces| == 1
    ensures Words(pieces) == [1, pieces[0].size, pieces[0].at]
  {
    assert Pairs(pieces[1..]) == [];
  }

  lemma {:induction false} AllPairs(pieces: seq<Piece>)
    requires pieces != []
    ensures [|pieces|] + Pairs(pieces[..|pieces| - 1]) + [pieces[|pieces| - 1].size, pieces[|pieces| - 1].at]
            == Words(pieces)
  {
    PairsStep(pieces, |pieces| - 1);
    assert pieces[..|pieces|] == pieces;
  }

  /** All but the last piece of a longer range. */
  method WholePages(pageSize: nat, room: nat, v: seq<nat>, ghost pieces: seq<Piece>) returns (words: seq<nat>)
    requires v == Starts(pieces) && |pieces| > 1 && pieces[0].size == room
    requires forall i :: 0 < i < |pieces| - 1 ==> pieces[i].size == pageSize
    ensures words == [|pieces|] + Pairs(pieces[..|pieces| - 1])
  {
    words := [|v|, room, v[0]];
    assert pieces[..1] == [pieces[0]];
    assert Pairs(pieces[..1]) == [room, v[0]];
    hide Pairs;
    var i := 1;
    while i < |v| - 1
      invariant 1 <= i <= |v| - 1
      invariant words == [|v|] + Pairs(pieces[..i])
    {
      words := words + [pageSize, v[i]];
      PairsStep(pieces, i);
      i := i + 1;
    }
  }

  lemma {:induction false} PairsStep(pieces: seq<Piece>, i: nat)
    requires i < |pieces|
    ensures Pairs(pieces[..i + 1]) == Pairs(pieces[..i]) + [pieces[i].size, pieces[i].at]
  {
    assert pieces[..i + 1] == pieces[..i] + [pieces[i]];
    PairsConcat(pieces[..i], [pieces[i]]);
  }

  /** A range longer than the room on its first page: that room, whole pages, and a rest. */
  predicate SizesAre(pieces: seq<Piece>, pageSize: nat, room: nat, n: nat)
    requires pageSize > 0 && n > room
  {
    && |pieces| > 1 && pieces[0].size == room
    && (forall i :: 0 < i < |pieces| - 1 ==> pieces[i].size == pageSize)
    && pieces[|pieces| - 1].size == Tail(n - room, pageSize)
  }

  /** The size of the last of the pieces that start a page. */
  function Tail(n: nat, pageSize: nat): nat
    requires pageSize > 0
  {
    if n % pageSize != 0 then n % pageSize else pageSize
  }

  lemma {:induction false} SplitSizes(frames: seq<nat>, pageSize: nat, a: nat, n: nat)
    requires pageSize > 0 && a < ByteOf(|frames|, pageSize) && a + n <= ByteOf(|frames|, pageSize)
    ensures var room, pieces := pageSize - Within(a, pageSize), Split(frames, pageSize, a, n);
            if n <= room then |pieces| == 1 && pieces[0].size == n
            else SizesAre(pieces, pageSize, room, n) && |pieces| == CeilDiv(n - room, pageSize) + 1
  {
    hide Tail, CeilDiv;
    var room, pieces := pageSize - Within(a, pageSize), Split(frames, pageSize, a, n);
    if n > room {
      CellStep(a, room, pageSize);
      RestSizes(frames, pageSize, a + room, n - room);
      var rest := Split(frames, pageSize, a + room, n - room);
      assert forall i :: 0 < i < |pieces| ==> pieces[i] == rest[i - 1];
    }
  }

  lemma {:induction false} RestSizes(frames: seq<nat>, pageSize: nat, a: nat, n: nat)
    requires pageSize > 0 && n > 0 && a + n <= ByteOf(|frames|, pageSize) && Within(a, pageSize) == 0
    ensures var rest := Split(frames, pageSize, a, n);
            && |rest| == CeilDiv(n, pageSize)
            && (forall i :: 0 <= i < |rest| - 1 ==> rest[i].size == pageSize)
            && rest[|rest| - 1].size == Tail(n, pageSize)
  {
    BlocksIsCeil(n, pageSize);
    LastPiece(n, pageSize);
    hide Tail, CeilDiv, Split, Blocks, ByteOf, Within;
    var rest := Split(frames, pageSize, a, n);
    forall i | 0 <= i < Blocks(n, pageSize)
      ensures |rest| == Blocks(n, pageSize)
      ensures rest[i].size == if i + 1 < |rest| then pageSize else n - ByteOf(i, pageSize)
    {
      AlignedSplit(frames, pageSize, a, n, i);
    }
  }

  lemma {:induction false} FirstPiece(frames: seq<nat>, pageSize: nat, a: nat, n: nat)
    requires pageSize > 0 && a < ByteOf(|frames|, pageSize) && a + n <= ByteOf(|frames|, pageSize)
    ensures Cell(a, pageSize) < |frames| && Split(frames, pageSize, a, n)[0].at == Phys(frames, pageSize, a)
  {
    CellBelow(a, |frames|, pageSize);
  }

  lemma {:induction false} FirstPlace(frames: seq<nat>, pageSize: nat, a: nat, n: nat, frameCount: nat)
    requires pageSize > 0 && a < ByteOf(|frames|, pageSize) && a + n <= ByteOf(|frames|, pageSize)
    requires Sound(frames, frameCount)
    ensures Split(frames, pageSize, a, n)[0].at % pageSize == Within(a, pageSize)
  {
    CellBelow(a, |frames|, pageSize);
    PhysInStore(frames, pageSize, a, frameCount);
    CellIsDiv(Phys(frames, pageSize, a), pageSize);
  }

  /** An interface knows the first place only as a physical address; the room it computes
      from that is the room the CPU computed from the logical one. */
  method Relay(pageSize: nat, n: nat, v: seq<nat>, ghost frames: seq<nat>, ghost frameCount: nat, ghost a: nat)
      returns (words: seq<nat>)
    requires pageSize > 0 && a < ByteOf(|frames|, pageSize) && a + n <= ByteOf(|frames|, pageSize)
    requires Sound(frames, frameCount)
    requires v == Starts(Split(frames, pageSize, a, n))
    ensures words == Words(Split(frames, pageSize, a, n))
  {
    FirstPlace(frames, pageSize, a, n, frameCount);
    SplitSizes(frames, pageSize, a, n);
    hide Split, SizesAre, Sound, Words;
    var offset := v[0] % pageSize;
    var room := pageSize - offset;
    words := PieceWords(pageSize, room, n, v, Split(frames, pageSize, a, n));
  }
}
