/** Bytes and integer arithmetic shared by the block store and the paging unit. */
module Arith {

  newtype Byte = x: int | 0 <= x < 256

  /** A byte string with `data` in the place of what was there. */
  function Splice(bytes: seq<Byte>, at: nat, data: seq<Byte>): (r: seq<Byte>)
    requires at + |data| <= |bytes|
    ensures |r| == |bytes|
  {
    bytes[..at] + data + bytes[at + |data|..]
  }

  /** The value of C's ceil(x / y) on a non-negative x, for sizes a float represents exactly. */
  function CeilDiv(x: nat, y: nat): nat
    requires y > 0
  {
    (x + y - 1) / y
  }

  /** Quotient and remainder are the only way to write a number in base p. */
  lemma {:induction false} DivModUnique(q: nat, r: nat, p: nat)
    requires r < p
    ensures (q * p + r) / p == q && (q * p + r) % p == r
  {
    var x := q * p + r;
    var q', r' := x / p, x % p;
    assert x == q' * p + r';
    assert (q - q') * p == r' - r;
    SmallMultiple(q - q', p);
  }

  lemma {:induction false} SmallMultiple(d: int, p: int)
    requires -p < d * p < p
    ensures d == 0
  {
  }

  lemma {:induction false} DivModSplit(x: nat, p: nat)
    requires p > 0
    ensures x == x / p * p + x % p && 0 <= x / p && x % p < p
  {
  }

  /** The ceiling is the least multiple count that reaches x. */
  lemma {:induction false} CeilDivBounds(x: nat, y: nat)
    requires y > 0
    ensures x <= CeilDiv(x, y) * y < x + y
  {
  }

  lemma {:induction false} CeilDivUnique(x: nat, y: nat, k: nat)
    requires y > 0
    requires x <= k * y < x + y
    ensures CeilDiv(x, y) == k
  {
    DivModUnique(k, x + y - 1 - k * y, y);
  }

  /** The byte at which a block (or a frame, or a page) begins: they lie one behind the other. */
  function ByteOf(block: nat, blockSize: nat): nat {
    if block == 0 then 0 else ByteOf(block - 1, blockSize) + blockSize
  }

  lemma {:induction false} ByteOfIsProduct(block: nat, blockSize: nat)
    ensures ByteOf(block, blockSize) == block * blockSize
  {
    if block > 0 {
      ByteOfIsProduct(block - 1, blockSize);
      assert block * blockSize == (block - 1) * blockSize + blockSize;
    }
  }

  lemma {:induction false} ByteOfMonotone(a: nat, b: nat, blockSize: nat)
    requires a <= b
    ensures ByteOf(a, blockSize) <= ByteOf(b, blockSize)
    decreases b
  {
    if a < b {
      ByteOfMonotone(a, b - 1, blockSize);
    }
  }

  /** How many blocks (or pages) a stretch of this length takes from the start of one: one at
      least, and one more for every further block size begun. */
  function Blocks(length: nat, blockSize: nat): (n: nat)
    requires blockSize > 0
    ensures n >= 1
    decreases length
  {
    if length <= blockSize then 1 else 1 + Blocks(length - blockSize, blockSize)
  }

  /** The source computes the same number as a ceiling, patched to 1 when that is 0. */
  lemma {:induction false} BlocksIsCeil(length: nat, blockSize: nat)
    requires blockSize > 0
    ensures Blocks(length, blockSize) == if length == 0 then 1 else CeilDiv(length, blockSize)
    decreases length
  {
    if length > blockSize {
      BlocksIsCeil(length - blockSize, blockSize);
      var k := Blocks(length - blockSize, blockSize);
      CeilDivBounds(length - blockSize, blockSize);
      assert (k + 1) * blockSize == k * blockSize + blockSize;
      CeilDivUnique(length, blockSize, k + 1);
    } else if length > 0 {
      CeilDivUnique(length, blockSize, 1);
    }
  }

  lemma {:induction false} BlocksMonotone(a: nat, b: nat, blockSize: nat)
    requires blockSize > 0 && a <= b
    ensures Blocks(a, blockSize) <= Blocks(b, blockSize)
    decreases a
  {
    if a > blockSize {
      BlocksMonotone(a - blockSize, b - blockSize, blockSize);
    }
  }

  lemma {:induction false} LongerByBlocks(a: nat, b: nat, blockSize: nat)
    requires blockSize > 0 && Blocks(a, blockSize) < Blocks(b, blockSize)
    ensures a < b
  {
    if b <= a {
      BlocksMonotone(b, a, blockSize);
    }
  }

  /** The bytes end inside its last block. */
  lemma {:induction false} BytesInBlocks(start: nat, length: nat, blockSize: nat)
    requires blockSize > 0
    ensures ByteOf(start, blockSize) + length <= ByteOf(start + Blocks(length, blockSize), blockSize)
    decreases length
  {
    if length > blockSize {
      BytesInBlocks(start + 1, length - blockSize, blockSize);
    }
  }

  /** The page an address lies in. */
  function Cell(a: nat, size: nat): nat
    requires size > 0
  {
    if a < size then 0 else 1 + Cell(a - size, size)
  }

  /** How far into its page an address lies. */
  function Within(a: nat, size: nat): (o: nat)
    requires size > 0
    ensures o < size
  {
    if a < size then a else Within(a - size, size)
  }

  lemma {:induction false} CellSplit(a: nat, size: nat)
    requires size > 0
    ensures a == ByteOf(Cell(a, size), size) + Within(a, size)
  {
    if a >= size {
      CellSplit(a - size, size);
    }
  }

  lemma {:induction false} CellOf(k: nat, o: nat, size: nat)
    requires o < size
    ensures Cell(ByteOf(k, size) + o, size) == k && Within(ByteOf(k, size) + o, size) == o
    decreases k
  {
    if k > 0 {
      CellOf(k - 1, o, size);
    }
  }

  /** The program computes page and offset by division and remainder. */
  lemma {:induction false} CellIsDiv(a: nat, size: nat)
    requires size > 0
    ensures Cell(a, size) == a / size && Within(a, size) == a % size
  {
    CellSplit(a, size);
    ByteOfIsProduct(Cell(a, size), size);
    DivModUnique(Cell(a, size), Within(a, size), size);
  }

  lemma {:induction false} CellBelow(a: nat, k: nat, size: nat)
    requires size > 0
    ensures a < ByteOf(k, size) <==> Cell(a, size) < k
  {
    CellSplit(a, size);
    if Cell(a, size) < k {
      ByteOfMonotone(Cell(a, size) + 1, k, size);
    } else {
      ByteOfMonotone(k, Cell(a, size), size);
    }
  }

  /** Stepping within a page, or over its end. */
  lemma {:induction false} CellStep(a: nat, n: nat, size: nat)
    requires size > 0 && Within(a, size) + n <= size
    ensures Within(a, size) + n < size ==>
      Cell(a + n, size) == Cell(a, size) &&
      Within(a + n, size) == Within(a, size) + n
    ensures Within(a, size) + n == size ==> Cell(a + n, size) == Cell(a, size) + 1 && Within(a + n, size) == 0
  {
    CellSplit(a, size);
    if Within(a, size) + n < size {
      CellOf(Cell(a, size), Within(a, size) + n, size);
    } else {
      CellOf(Cell(a, size) + 1, 0, size);
    }
  }

  /** The ceiling is the quotient, and one more for a remainder. */
  lemma {:induction false} CeilIs(q: nat, r: nat, p: nat)
    requires r < p
    ensures CeilDiv(q * p + r, p) == if r == 0 then q else q + 1
  {
    assert (q + 1) * p == q * p + p;
    CeilDivUnique(q * p + r, p, if r == 0 then q else q + 1);
  }

  /** Bytes taken from n whole pages, rounded up and rounded down to pages. */
  lemma {:induction false} PagesDown(n: nat, size: nat, p: nat)
    requires p > 0 && size < n * p
    ensures size / p <= CeilDiv(size, p) <= n
    ensures CeilDiv(n * p - size, p) == n - size / p
    ensures (n * p - size) / p == n - CeilDiv(size, p)
  {
    var q, r := size / p, size % p;
    DivModSplit(size, p);
    CeilIs(q, r, p);
    hide CeilDiv;
    QuotientBelow(q, r, n, p);
    if r == 0 {
      assert n * p - size == (n - q) * p;
      CeilIs(n - q, 0, p);
      DivModUnique(n - q, 0, p);
    } else {
      assert n * p - size == (n - q - 1) * p + (p - r);
      CeilIs(n - q - 1, p - r, p);
      DivModUnique(n - q - 1, p - r, p);
    }
  }

  lemma {:induction false} QuotientBelow(q: nat, r: nat, n: nat, p: nat)
    requires q * p + r < n * p
    ensures q < n
  {
  }

  /** Bytes added to n whole pages, rounded up to pages. */
  lemma {:induction false} PagesUp(n: nat, size: nat, p: nat)
    requires p > 0 && n * p <= size
    ensures n <= CeilDiv(size, p) && CeilDiv(size - n * p, p) == CeilDiv(size, p) - n
  {
    var q, r := size / p, size % p;
    DivModSplit(size, p);
    CeilIs(q, r, p);
    hide CeilDiv;
    MulStep(q, p);
    QuotientBelow(n, 0, q + 1, p);
    MulDiff(q, n, p);
    CeilIs(q - n, r, p);
  }

  lemma {:induction false} MulStep(q: nat, p: nat)
    ensures (q + 1) * p == q * p + p
  {
  }

  lemma {:induction false} MulDiff(q: nat, n: nat, p: nat)
    requires n <= q
    ensures (q - n) * p == q * p - n * p
  {
  }
}
