/** The processor: address translation through the cache, and the instructions that reach memory. */
module Cpu {
  import opened Arith
  import opened Bits
  import opened Builds
  import opened FrameTables
  import opened LogicalMemory
  import opened Memory
  import opened RegisterAccess
  import opened Splitting
  import opened Transfers
  import Sequences
  import Tlb

  /** A cached entry of a live process says what the page table says. Process numbers are given
      out once, so an entry of a process that has ended is never looked up again. */
  predicate Good(e: Tlb.Entry, tables: Tables, nextPid: nat) {
    && (e.key.pid in tables ==> Held(tables, e.key.pid, e.key.page, e.frame))
    && e.key.pid < nextPid
  }

  ghost predicate Cached(tlb: seq<Tlb.Entry>, spare: nat, capacity: nat, tables: Tables, nextPid: nat) {
    && |tlb| + spare == capacity
    && Tlb.Distinct(Tlb.Keys(tlb))
    && (forall e :: e in tlb ==> Good(e, tables, nextPid))
    && (forall pid :: pid in tables ==> pid < nextPid)
  }

  lemma {:induction false} HitKeeps(policy: Tlb.Policy, tlb: seq<Tlb.Entry>, spare: nat, capacity: nat,
                                    tables: Tables, nextPid: nat, i: nat)
    requires Cached(tlb, spare, capacity, tables, nextPid) && i < |tlb|
    ensures tlb[i].key in Tlb.Keys(tlb)
    ensures var tlb' := if policy.Lru? then tlb[..i] + tlb[i + 1..] + [tlb[i]] else tlb;
            && Cached(tlb', spare, capacity, tables, nextPid)
            && Tlb.Keys(tlb') == Tlb.Touch(policy, capacity, Tlb.Keys(tlb), tlb[i].key)
  {
    hide Tlb.Distinct, Tlb.Keys, Tlb.Remove, Good;
    Tlb.HitMoves(tlb, i);
    Tlb.TouchKeepsSound(policy, capacity, Tlb.Keys(tlb), tlb[i].key);
    assert forall e :: e in tlb[..i] + tlb[i + 1..] + [tlb[i]] ==> e in tlb;
  }

  lemma {:induction false} LoadKeeps(policy: Tlb.Policy, tlb: seq<Tlb.Entry>, spare: nat, capacity: nat,
                                     tables: Tables, nextPid: nat, e: Tlb.Entry)
    requires Cached(tlb, spare, capacity, tables, nextPid) && capacity > 0 && e.key !in Tlb.Keys(tlb)
    requires Good(e, tables, nextPid)
    ensures var tlb' := if spare > 0 then tlb + [e] else tlb[1..] + [e];
            && Cached(tlb', if spare > 0 then spare - 1 else 0, capacity, tables, nextPid)
            && Tlb.Keys(tlb') == Tlb.Touch(policy, capacity, Tlb.Keys(tlb), e.key)
  {
    hide Tlb.Distinct, Tlb.Keys, Sequences.Last, Good;
    Tlb.MissLoads(tlb, e, capacity);
    Tlb.TouchKeepsSound(policy, capacity, Tlb.Keys(tlb), e.key);
  }

  /** Pages added at the end leave every cached entry good; pages taken from the end leave those
      good that are not of the pages taken. */
  lemma {:induction false} ResizingKeeps(tlb: seq<Tlb.Entry>, spare: nat, capacity: nat, tables: Tables,
                                         nextPid: nat, pid: nat, table: seq<Page>)
    requires Cached(tlb, spare, capacity, tables, nextPid) && pid in tables
    requires forall i :: 0 <= i < Size(tables[pid]) && i < Size(table) ==> table[i] == tables[pid][i]
    ensures Cached(tlb, spare, capacity, tables[pid := table], nextPid) <==>
            NoneStale(tlb, pid, Size(table), Size(tables[pid]))
  {
  }

  /** No entry of the process's pages from n up to m is cached. */
  predicate NoneStale(tlb: seq<Tlb.Entry>, pid: nat, n: nat, m: nat) {
    forall e :: e in tlb ==> !(e.key.pid == pid && n <= e.key.page < m)
  }

  lemma {:induction false} PurgingKeeps(tlb: seq<Tlb.Entry>, spare: nat, capacity: nat, tables: Tables, nextPid: nat,
                                        pid: nat, n: nat)
    requires Cached(tlb, spare, capacity, tables, nextPid)
    ensures var purged := Tlb.Purge(tlb, pid, n);
            |purged| <= capacity && Cached(purged, capacity - |purged|, capacity, tables, nextPid)
  {
    hide Tlb.Distinct, Tlb.Keys, Good;
    Tlb.PurgeKeepsDistinct(tlb, pid, n);
  }

  lemma {:induction false} EnteringKeeps(tlb: seq<Tlb.Entry>, spare: nat, capacity: nat, tables: Tables,
                                         nextPid: nat, table: seq<Page>)
    requires Cached(tlb, spare, capacity, tables, nextPid)
    ensures nextPid !in tables && Cached(tlb, spare, capacity, tables[nextPid := table], nextPid + 1)
  {
  }

  lemma {:induction false} LeavingKeeps(tlb: seq<Tlb.Entry>, spare: nat, capacity: nat, tables: Tables, nextPid: nat,
                                        pid: nat)
    requires Cached(tlb, spare, capacity, tables, nextPid)
    ensures Cached(tlb, spare, capacity, tables - {pid}, nextPid)
  {
  }

  /** What translation means, cache or no cache: the page table's frame, or -1. */
  function Translate(table: seq<Page>, pageSize: nat, a: nat): int
    requires pageSize > 0
  {
    if Cell(a, pageSize) < Size(table) then Phys(FramesOf(table), pageSize, a) else -1
  }

  /** What a good entry is good for: used for any address of its page, it gives the page table's
      answer, and an entry that is not good does not. */
  lemma {:induction false} AnswersIff(e: Tlb.Entry, tables: Tables, pageSize: nat)
    requires pageSize > 0 && e.key.pid in tables
    ensures Held(tables, e.key.pid, e.key.page, e.frame) <==>
            forall a: nat :: Cell(a, pageSize) == e.key.page ==>
              ByteOf(e.frame, pageSize) + Within(a, pageSize) == Translate(tables[e.key.pid], pageSize, a)
  {
    var table, first := tables[e.key.pid], ByteOf(e.key.page, pageSize);
    CellOf(e.key.page, 0, pageSize);
    if e.key.page < Size(table) && ByteOf(e.frame, pageSize) == Translate(table, pageSize, first) {
      CellOf(e.frame, 0, pageSize);
      CellOf(table[e.key.page].frame, 0, pageSize);
    }
  }

  /** The pages a size calls for; as written, shrinking rounds them down. */
  function PagesMeant(build: Build, n: nat, size: nat, pageSize: nat): nat
    requires pageSize > 0
  {
    if build.AsWritten? && size < n * pageSize then size / pageSize else CeilDiv(size, pageSize)
  }

  /** The pages taken away for so many bytes too many. */
  function PagesOff(build: Build, bytes: nat, pageSize: nat): nat
    requires pageSize > 0
  {
    if build.AsWritten? then CeilDiv(bytes, pageSize) else bytes / pageSize
  }

  lemma {:induction false} PagesMove(build: Build, n: nat, size: nat, pageSize: nat)
    requires pageSize > 0
    ensures size < n * pageSize ==>
      && PagesOff(build, n * pageSize - size, pageSize) <= n
      && PagesMeant(build, n, size, pageSize) == n - PagesOff(build, n * pageSize - size, pageSize)
      && CeilDiv(size, pageSize) <= n
    ensures size >= n * pageSize ==>
      && CeilDiv(size, pageSize) - n == CeilDiv(size - n * pageSize, pageSize)
      && PagesMeant(build, n, size, pageSize) == CeilDiv(size, pageSize)
    ensures size == n * pageSize ==> CeilDiv(size, pageSize) == n
  {
    hide CeilDiv;
    if size < n * pageSize {
      PagesDown(n, size, pageSize);
    } else {
      PagesUp(n, size, pageSize);
      CeilDivUnique(0, pageSize, 0);
    }
  }

  lemma {:induction false} NoneBetween(tlb: seq<Tlb.Entry>, pid: nat, n: nat, m: nat)
    requires m <= n
    ensures NoneStale(tlb, pid, n, m)
  {
  }

  /** Two memories agree as far as both reach. */
  predicate CommonPrefix(a: seq<Byte>, b: seq<Byte>) {
    a <= b || b <= a
  }

  lemma {:induction false} ResizedBytes(store: seq<Byte>, table: seq<Page>, table': seq<Page>, pageSize: nat,
                                        frameCount: nat)
    requires pageSize > 0 && |store| == ByteOf(frameCount, pageSize)
    requires Sound(FramesOf(table), frameCount) && Sound(FramesOf(table'), frameCount)
    requires forall i :: 0 <= i < Size(table) && i < Size(table') ==> table'[i] == table[i]
    ensures CommonPrefix(View(store, FramesOf(table'), pageSize, frameCount),
                         View(store, FramesOf(table), pageSize, frameCount))
  {
    hide View, Sound;
    var n := if Size(table) < Size(table') then Size(table) else Size(table');
    KeptPagesKeepBytes(store, table, table', pageSize, frameCount, n);
    var view, view' := View(store, FramesOf(table), pageSize, frameCount),
        View(store, FramesOf(table'), pageSize, frameCount);
    assert view[..|view|] == view && view'[..|view'|] == view';
  }

  lemma {:induction false} AllSound(ram: Ram)
    requires ram.Valid()
    ensures forall q :: q in ram.tables ==> Sound(FramesOf(ram.tables[q]), ram.bitmap.Length)
  {
    forall q | q in ram.tables ensures Sound(FramesOf(ram.tables[q]), ram.bitmap.Length) {
      FramesAreSound(ram.bitmap[..], ram.tables, ram.owner, q);
    }
  }

  /** A process's access to one of its addresses. */
  datatype Access = Access(pid: nat, address: nat)

  predicate Present(x: Access, tables: Tables, pageSize: nat)
    requires pageSize > 0
  {
    x.pid in tables && Cell(x.address, pageSize) < Size(tables[x.pid])
  }

  /** The keys that accesses look up, in order. */
  function Trace(accesses: seq<Access>, pageSize: nat): (keys: seq<Tlb.Key>)
    requires pageSize > 0
    ensures |keys| == |accesses|
    ensures forall i :: 0 <= i < |keys| ==> keys[i] == Tlb.Key(accesses[i].pid, Cell(accesses[i].address, pageSize))
  {
    seq(|accesses|, i requires 0 <= i < |accesses| => Tlb.Key(accesses[i].pid, Cell(accesses[i].address, pageSize)))
  }

  lemma {:induction false} TraceStep(accesses: seq<Access>, i: nat, pageSize: nat)
    requires pageSize > 0 && i < |accesses|
    ensures Trace(accesses[..i + 1], pageSize)
         == Trace(accesses[..i], pageSize) + [Tlb.Key(accesses[i].pid, Cell(accesses[i].address, pageSize))]
  {
  }

  lemma {:induction false} PagesFit(ram: Ram, pid: nat)
    requires ram.Valid() && pid in ram.tables
    ensures Size(ram.tables[pid]) <= ram.bitmap.Length
  {
  }

  lemma {:induction false} NothingCached(tlb: seq<Tlb.Entry>, spare: nat, tables: Tables, nextPid: nat)
    requires Cached(tlb, spare, 0, tables, nextPid)
    ensures Tlb.Keys(tlb) == []
  {
  }

  class Processor {
    const build: Build
    const ram: Ram
    const policy: Tlb.Policy
    const capacity: nat
    var tlb: seq<Tlb.Entry>
    var spare: nat
    var pid: nat
    var nextPid: nat

    ghost predicate Valid()
      reads this, ram, ram.bitmap
    {
      && ram.Valid() && ram.build == build
      && Cached(tlb, spare, capacity, ram.tables, nextPid)
    }

    constructor (build: Build, policy: Tlb.Policy, capacity: nat, pageSize: nat, frames: nat)
      requires pageSize > 0
      ensures Valid() && fresh(ram) && fresh(ram.bitmap) && fresh(ram.bytes)
      ensures tlb == [] && ram.tables == map[] && nextPid == 1
    {
      this.build, this.policy, this.capacity := build, policy, capacity;
      ram := new Ram(build, pageSize, frames);
      tlb, spare, pid, nextPid := [], capacity, 0, 1;
    }

    method FindEntry(page: nat) returns (i: int)
      ensures -1 <= i < |tlb|
      ensures i >= 0 ==> tlb[i].key == Tlb.Key(pid, page)
      ensures i < 0 ==> Tlb.Key(pid, page) !in Tlb.Keys(tlb)
    {
      i := 0;
      while i < |tlb|
        invariant 0 <= i <= |tlb|
        invariant forall j :: 0 <= j < i ==> tlb[j].key != Tlb.Key(pid, page)
      {
        if tlb[i].key == Tlb.Key(pid, page) { return; }
        i := i + 1;
      }
      i := -1;
    }

    /** Translates a logical address of the running process. Whatever the cache holds, whatever
        its size and policy, the answer is the page table's. */
    method Mmu(a: nat) returns (df: int)
      requires Valid() && pid in ram.tables && Cell(a, ram.pageSize) < ram.bitmap.Length
      modifies this`tlb, this`spare
      ensures Valid()
      ensures df == Translate(ram.tables[pid], ram.pageSize, a)
      ensures Tlb.Keys(tlb) ==
        if capacity > 0 && df != -1
        then Tlb.Touch(policy, capacity, old(Tlb.Keys(tlb)), Tlb.Key(pid, Cell(a, ram.pageSize)))
        else old(Tlb.Keys(tlb))
    {
      var page := a / ram.pageSize;
      var offset := a - page * ram.pageSize;
      CellIsDiv(a, ram.pageSize);
      CellSplit(a, ram.pageSize);
      ByteOfIsProduct(page, ram.pageSize);
      var frame: int;
      if capacity == 0 {
        frame := Ask(page);
      } else {
        var i := FindEntry(page);
        if i >= 0 {
          frame := Hit(i);
        } else {
          frame := Ask(page);
          if frame != -1 {
            Load(Tlb.Entry(Tlb.Key(pid, page), frame));
          }
        }
      }
      if frame == -1 {
        return -1;
      }
      ByteOfIsProduct(frame, ram.pageSize);
      df := frame * ram.pageSize + offset;
    }

    /** The memory module's answer: the frame of a page that is present, or -1. */
    method Ask(page: nat) returns (frame: int)
      requires Valid() && pid in ram.tables && page < ram.bitmap.Length
      ensures frame == if page < Size(ram.tables[pid]) then ram.tables[pid][page].frame else -1
    {
      frame := if ram.tables[pid][page].present then ram.tables[pid][page].frame else -1;
    }

    method Hit(i: nat) returns (frame: nat)
      requires Valid() && pid in ram.tables && i < |tlb| && tlb[i].key.pid == pid
      modifies this`tlb
      ensures Valid()
      ensures old(tlb[i].key.page) < Size(ram.tables[pid]) && frame == ram.tables[pid][old(tlb[i].key.page)].frame
      ensures old(tlb[i].key) in old(Tlb.Keys(tlb))
      ensures Tlb.Keys(tlb) == Tlb.Touch(policy, capacity, old(Tlb.Keys(tlb)), old(tlb[i].key))
    {
      var e := tlb[i];
      assert Good(e, ram.tables, nextPid);
      HitKeeps(policy, tlb, spare, capacity, ram.tables, nextPid, i);
      hide Agree, Cached, Tlb.Touch;
      if policy.Lru? {
        tlb := tlb[..i] + tlb[i + 1..] + [e];
      }
      frame := e.frame;
    }

    /** A new entry goes to the back, the oldest out when there is no room to spare. */
    method Load(e: Tlb.Entry)
      requires Valid() && capacity > 0 && e.key !in Tlb.Keys(tlb) && e.key.pid == pid
      requires pid in ram.tables && e.key.page < Size(ram.tables[pid]) && e.frame == ram.tables[pid][e.key.page].frame
      modifies this`tlb, this`spare
      ensures Valid()
      ensures Tlb.Keys(tlb) == Tlb.Touch(policy, capacity, old(Tlb.Keys(tlb)), e.key)
    {
      assert Good(e, ram.tables, nextPid);
      hide Agree, Cached, Good, Tlb.Touch, Tlb.Keys;
      LoadKeeps(policy, tlb, spare, capacity, ram.tables, nextPid, e);
      if spare > 0 {
        spare := spare - 1;
        tlb := tlb + [e];
      } else {
        tlb := tlb[1..] + [e];
      }
    }

    /** Any sequence of accesses to memory the processes have, with processes taking turns: the
        answers are the page tables', and the cache holds what the policy keeps of the whole trace. */
    method TranslateAll(accesses: seq<Access>, ghost trace: seq<Tlb.Key>) returns (answers: seq<int>)
      requires Valid() && forall i :: 0 <= i < |accesses| ==> Present(accesses[i], ram.tables, ram.pageSize)
      requires Tlb.Keys(tlb) == Tlb.After(policy, capacity, trace)
      modifies this`tlb, this`spare, this`pid
      ensures Valid() && |answers| == |accesses|
      ensures forall i :: 0 <= i < |accesses| ==>
        Present(accesses[i], ram.tables, ram.pageSize) &&
        answers[i] == Translate(ram.tables[accesses[i].pid], ram.pageSize, accesses[i].address)
      ensures Tlb.Keys(tlb) == Tlb.After(policy, capacity, trace + Trace(accesses, ram.pageSize))
    {
      hide Agree, Cached, Translate, Tlb.After, Cell;
      answers := [];
      var i := 0;
      assert trace + Trace(accesses[..0], ram.pageSize) == trace;
      while i < |accesses|
        invariant Valid() && i == |answers| <= |accesses|
        invariant forall k :: 0 <= k < i ==>
          Present(accesses[k], ram.tables, ram.pageSize) &&
          answers[k] == Translate(ram.tables[accesses[k].pid], ram.pageSize, accesses[k].address)
        invariant Tlb.Keys(tlb) == Tlb.After(policy, capacity, trace + Trace(accesses[..i], ram.pageSize))
      {
        assert Present(accesses[i], ram.tables, ram.pageSize);
        Dispatch(accesses[i].pid);
        var df := OneMore(accesses[i].address, trace + Trace(accesses[..i], ram.pageSize));
        TraceStep(accesses, i, ram.pageSize);
        assert trace + Trace(accesses[..i + 1], ram.pageSize)
            == (trace + Trace(accesses[..i], ram.pageSize)) + [Tlb.Key(pid, Cell(accesses[i].address, ram.pageSize))];
        answers := answers + [df];
        i := i + 1;
      }
      assert accesses[..i] == accesses;
    }

    /** One access more at the end of a trace. */
    method OneMore(a: nat, ghost trace: seq<Tlb.Key>) returns (df: int)
      requires Valid() && pid in ram.tables && Cell(a, ram.pageSize) < Size(ram.tables[pid])
      requires Tlb.Keys(tlb) == Tlb.After(policy, capacity, trace)
      modifies this`tlb, this`spare
      ensures Valid() && df == Translate(ram.tables[pid], ram.pageSize, a)
      ensures Tlb.Keys(tlb) == Tlb.After(policy, capacity, trace + [Tlb.Key(pid, Cell(a, ram.pageSize))])
    {
      hide Agree, Cached;
      ghost var key := Tlb.Key(pid, Cell(a, ram.pageSize));
      PagesFit(ram, pid);
      df := Mmu(a);
      assert (trace + [key])[..|trace|] == trace;
      if capacity == 0 {
        NothingCached(tlb, spare, ram.tables, nextPid);
      }
    }

    // --------------------------------------------- processes come, grow and go

    /** The kernel hands over another process; the cache is kept. */
    method Dispatch(p: nat)
      requires Valid() && p in ram.tables
      modifies this`pid
      ensures Valid() && pid == p
    {
      pid := p;
    }

    method Create() returns (p: nat)
      requires Valid()
      modifies this`nextPid, ram`tables
      ensures Valid() && p == old(nextPid) && nextPid == p + 1 && p !in old(ram.tables) && p in ram.tables
      ensures ram.tables == old(ram.tables)[p := ram.tables[p]] && Size(ram.tables[p]) == 0
    {
      hide Agree, Cached;
      p := nextPid;
      EnteringKeeps(tlb, spare, capacity, ram.tables, nextPid, []);
      ghost var tables0 := ram.tables;
      ram.NewProcess(p);
      EnteringKeeps(tlb, spare, capacity, tables0, nextPid, ram.tables[p]);
      nextPid := nextPid + 1;
    }

    method Finish(p: nat)
      requires Valid() && p in ram.tables
      modifies ram`tables, ram`owner, ram.bitmap
      ensures Valid() && ram.tables == old(ram.tables) - {p}
      ensures ram.Free() == old(ram.Free()) + old(Size(ram.tables[p]))
    {
      hide Agree, Cached;
      LeavingKeeps(tlb, spare, capacity, ram.tables, nextPid, p);
      ram.FreeProcess(p);
    }

    /** Sets the running process's size in bytes. As written, shrinking rounds the pages to
        take away up instead of down, and leaves their entries in the cache. */
    method Resize(size: nat) returns (outOfMemory: bool)
      requires Valid() && pid in ram.tables
      modifies this`tlb, this`spare, ram`tables, ram`owner, ram.bitmap
      ensures ram.Valid() && pid in ram.tables && ram.tables == old(ram.tables)[pid := ram.tables[pid]]
      ensures forall i :: 0 <= i < old(Size(ram.tables[pid])) && i < Size(ram.tables[pid]) ==>
        ram.tables[pid][i] == old(ram.tables[pid])[i]
      ensures var n, n' := old(Size(ram.tables[pid])), Size(ram.tables[pid]);
              && (outOfMemory <==> CeilDiv(size, ram.pageSize) > n + old(ram.Free()))
              && n' == (if outOfMemory then n + old(ram.Free()) else PagesMeant(build, n, size, ram.pageSize))
              && ram.Free() == old(ram.Free()) + n - n'
              && (Valid() <==> build.Repaired? || NoneStale(old(tlb), pid, n', n))
      ensures tlb == if build.Repaired? && size < old(Size(ram.tables[pid])) * ram.pageSize
                     then Tlb.Purge(old(tlb), pid, Size(ram.tables[pid])) else old(tlb)
      ensures forall q :: q in ram.tables && q != pid ==> ram.Logical(q) == old(ram.Logical(q))
      ensures CommonPrefix(ram.Logical(pid), old(ram.Logical(pid)))
    {
      hide Agree, Cached, CeilDiv, PagesMeant, PagesOff, NoneStale, Size, CommonPrefix;
      ghost var tables0 := ram.tables;
      AllSound(ram);
      var n := ram.PageCount(pid);
      var current := n * ram.pageSize;
      outOfMemory := false;
      FreeIsCount(ram);
      PagesMove(build, n, size, ram.pageSize);
      if current > size {
        Shrink(PagesOff(build, current - size, ram.pageSize));
      } else if current < size {
        outOfMemory := Grow(CeilDiv(size - current, ram.pageSize));
      }
      if current <= size {
        NoneBetween(tlb, pid, Size(ram.tables[pid]), n);
      }
      AllSound(ram);
      ResizedBytes(ram.bytes[..], tables0[pid], ram.tables[pid], ram.pageSize, ram.bitmap.Length);
    }

    method Shrink(pages: nat)
      requires Valid() && pid in ram.tables && pages <= Size(ram.tables[pid])
      modifies this`tlb, this`spare, ram`tables, ram`owner, ram.bitmap
      ensures ram.Valid() && pid in ram.tables && ram.tables == old(ram.tables)[pid := ram.tables[pid]]
      ensures Size(ram.tables[pid]) == old(Size(ram.tables[pid])) - pages
      ensures forall i :: 0 <= i < Size(ram.tables[pid]) ==> ram.tables[pid][i] == old(ram.tables[pid])[i]
      ensures ram.Free() == old(ram.Free()) + pages
      ensures tlb == if build.Repaired? then Tlb.Purge(old(tlb), pid, Size(ram.tables[pid])) else old(tlb)
      ensures Valid() <==> build.Repaired? || NoneStale(old(tlb), pid, Size(ram.tables[pid]),
                                                        old(Size(ram.tables[pid])))
    {
      hide Agree, Cached;
      ghost var tables0 := ram.tables;
      ram.RemovePages(pid, pages);
      var n := ram.PageCount(pid);
      if build.Repaired? {
        PurgingKeeps(tlb, spare, capacity, tables0, nextPid, pid, n);
        tlb := Tlb.Purge(tlb, pid, n);
        spare := capacity - |tlb|;
        assert NoneStale(tlb, pid, n, Size(tables0[pid]));
      }
      ResizingKeeps(tlb, spare, capacity, tables0, nextPid, pid, ram.tables[pid]);
    }

    method Grow(pages: nat) returns (outOfMemory: bool)
      requires Valid() && pid in ram.tables
      modifies ram`tables, ram`owner, ram.bitmap
      ensures Valid() && pid in ram.tables && ram.tables == old(ram.tables)[pid := ram.tables[pid]]
      ensures outOfMemory <==> pages > old(ram.Free())
      ensures var added := if outOfMemory then old(ram.Free()) else pages;
              && Size(ram.tables[pid]) == old(Size(ram.tables[pid])) + added
              && ram.Free() == old(ram.Free()) - added
      ensures forall i :: 0 <= i < old(Size(ram.tables[pid])) ==> ram.tables[pid][i] == old(ram.tables[pid])[i]
    {
      hide Agree, Cached;
      ghost var tables0 := ram.tables;
      FreeIsCount(ram);
      var ok := ram.AddPages(pid, pages);
      outOfMemory := !ok;
      ResizingKeeps(tlb, spare, capacity, tables0, nextPid, pid, ram.tables[pid]);
      assert NoneStale(tlb, pid, Size(ram.tables[pid]), Size(tables0[pid]));
    }

    // -------------------------------------------------------- memory accesses

    /** The frames of the running process, in page order. */
    ghost function Frames(): seq<nat>
      reads this, ram
      requires pid in ram.tables
    {
      FramesOf(ram.tables[pid])
    }

    /** The running process has the byte at a and the n bytes from a on. */
    ghost predicate Mapped(a: nat, n: nat)
      reads this, ram
      requires pid in ram.tables
    {
      a < ByteOf(Size(ram.tables[pid]), ram.pageSize) && a + n <= ByteOf(Size(ram.tables[pid]), ram.pageSize)
    }

    /** Translation of an address the process has. */
    method Place(a: nat) returns (df: nat)
      requires Valid() && pid in ram.tables && Mapped(a, 0)
      modifies this`tlb, this`spare
      ensures Valid() && Cell(a, ram.pageSize) < |Frames()| && df == Phys(Frames(), ram.pageSize, a)
    {
      CellBelow(a, Size(ram.tables[pid]), ram.pageSize);
      assert |ram.tables[pid]| == ram.bitmap.Length;
      hide Agree, Cached, Phys, Cell;
      df := Mmu(a);
    }

    /** The physical places at which the pieces of a range begin. */
    method SplitAddresses(a: nat, n: nat) returns (v: seq<nat>)
      requires Valid() && pid in ram.tables && Mapped(a, n)
      modifies this`tlb, this`spare
      ensures Valid() && v == Starts(Split(Frames(), ram.pageSize, a, n))
    {
      hide Agree, Cached, CeilDiv, Cell, Within, ByteOf, Phys, Split, SizesAre, Starts, FramesOf;
      CellIsDiv(a, ram.pageSize);
      SplitSizes(Frames(), ram.pageSize, a, n);
      ghost var pieces := Split(Frames(), ram.pageSize, a, n);
      FirstPiece(Frames(), ram.pageSize, a, n);
      var offset := a % ram.pageSize;
      var room := ram.pageSize - offset;
      var first := Place(a);
      v := [first];
      if n > room {
        var pages := CeilDiv(n - room, ram.pageSize) + 1;
        var i := 0;
        while i < pages - 1
          invariant Valid() && i <= pages - 1
          invariant |v| == i + 1 && forall k :: 0 <= k <= i ==> v[k] == pieces[k].at
        {
          PieceAt(Frames(), ram.pageSize, a, n, i);
          var page := a + room + i * ram.pageSize;
          CellBelow(page, |Frames()|, ram.pageSize);
          var d := Place(page);
          v := v + [d];
          i := i + 1;
        }
      }
    }

    /** Stores a register of one or four bytes. The memory module takes every word it was sent. */
    method MovOut(a: nat, size: nat, value: nat) returns (unread: int)
      requires Valid() && pid in ram.tables && (size == 1 || size == 4) && Mapped(a, size)
      modifies this`tlb, this`spare, ram.bytes
      ensures Valid() && unread == 0
      ensures ram.Logical(pid) == Splice(old(ram.Logical(pid)), a, Put(build, ram.pageSize, a, size, value))
      ensures forall q :: q in ram.tables && q != pid ==> ram.Logical(q) == old(ram.Logical(q))
    {
      hide Agree, Cached, Split, Starts, AccessPlaces, Taken, Places, ByteOf, Within, Stored, Bytes;
      FramesAreSound(ram.bitmap[..], ram.tables, ram.owner, pid);
      AccessCovers(Frames(), ram.pageSize, a, size, ram.bitmap.Length);
      var v := SplitAddresses(a, size);
      ghost var store, frames := ram.bytes[..], Frames();
      var used := ram.WriteRegister(v[0], size, |v|, value, v[1..]);
      unread := |v| - 1 - used;
      PuttingIsPrivate(ram.bitmap[..], ram.tables, ram.owner, store, ram.bytes[..], ram.pageSize, pid, a,
                       Put(build, ram.pageSize, a, size, value));
    }

    /** Loads a register: the value of the bytes the process has there. */
    method MovIn(a: nat, size: nat) returns (value: nat, unread: int)
      requires Valid() && pid in ram.tables && (size == 1 || size == 4) && Mapped(a, size)
      modifies this`tlb, this`spare
      ensures Valid() && unread == 0
      ensures |ram.Logical(pid)| >= a + size && value == Value(ram.Logical(pid)[a..a + size])
    {
      hide Agree, Cached, Split, Starts, AccessPlaces, Taken, Places, ByteOf, Within, Value;
      FramesAreSound(ram.bitmap[..], ram.tables, ram.owner, pid);
      AccessCovers(Frames(), ram.pageSize, a, size, ram.bitmap.Length);
      GatherIsSlice(ram.bytes[..], Frames(), ram.pageSize, ram.bitmap.Length, a, size);
      var v := SplitAddresses(a, size);
      var used: nat;
      value, used := ram.ReadRegister(v[0], size, |v|, v[1..]);
      unread := |v| - 1 - used;
    }

    /** The words that name a range to the memory module. */
    method RangeWords(a: nat, n: nat) returns (words: seq<nat>)
      requires Valid() && pid in ram.tables && Mapped(a, n)
      modifies this`tlb, this`spare
      ensures Valid() && words == Words(Split(Frames(), ram.pageSize, a, n))
    {
      hide Agree, Cached, SizesAre, Cell, Within, ByteOf, Phys, Split, Words;
      CellIsDiv(a, ram.pageSize);
      SplitSizes(Frames(), ram.pageSize, a, n);
      var v := SplitAddresses(a, n);
      var room := ram.pageSize - a % ram.pageSize;
      words := PieceWords(ram.pageSize, room, n, v, Split(Frames(), ram.pageSize, a, n));
    }

    /** Moves n bytes between two ranges of the running process, which may overlap. The bytes
        travel as a string, so it goes wrong exactly when one before the last is zero: the memory
        module then reads past the end of what it received. */
    method CopyString(si: nat, di: nat, n: nat) returns (ok: bool)
      requires Valid() && pid in ram.tables && Mapped(si, n) && Mapped(di, n)
      modifies this`tlb, this`spare, ram.bytes
      ensures Valid()
      ensures var moved := old(ram.Logical(pid))[si..si + n];
              && (ok <==> n == 0 || NoneZero(moved[..n - 1]))
              && (ok ==> ram.Logical(pid) == Splice(old(ram.Logical(pid)), di, moved))
              && (ok ==> forall q :: q in ram.tables && q != pid ==> ram.Logical(q) == old(ram.Logical(q)))
    {
      hide Agree, Cached, Words, Split, ByteOf;
      var words := RangeWords(si, n);
      var data := ram.LoadRange(words, pid, si, n);
      SentWhole(data);
      hide AsSent, NoneZero;
      words := RangeWords(di, n);
      ok := ram.StoreRange(AsSent(data), words, pid, di, n);
    }
  }

  lemma {:induction false} FreeIsCount(ram: Ram)
    ensures 0 <= ram.Free() <= ram.bitmap.Length
  {
    CountBound(ram.bitmap[..]);
  }
}
