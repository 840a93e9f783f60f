/** Interfaces at work for a blocked process. They know its memory only by the physical places
    the CPU translated, and cut the range again from the first of these. */
module Interfaces {
  import opened Arith
  import opened DialFs
  import opened DialFsSpec
  import opened FrameTables
  import opened LogicalMemory
  import opened Memory
  import opened Splitting
  import opened Transfers

  /** v holds the places the CPU sent for n bytes at a of the process. */
  ghost predicate Addressed(ram: Ram, v: seq<nat>, pid: nat, a: nat, n: nat)
    reads ram, ram.bitmap
  {
    && ram.Valid() && pid in ram.tables
    && a < ByteOf(Size(ram.tables[pid]), ram.pageSize) && a + n <= ByteOf(Size(ram.tables[pid]), ram.pageSize)
    && v == Starts(Split(FramesOf(ram.tables[pid]), ram.pageSize, a, n))
  }

  method Request(ram: Ram, n: nat, v: seq<nat>, ghost pid: nat, ghost a: nat) returns (words: seq<nat>)
    requires Addressed(ram, v, pid, a, n)
    ensures words == Words(Split(FramesOf(ram.tables[pid]), ram.pageSize, a, n))
  {
    FramesAreSound(ram.bitmap[..], ram.tables, ram.owner, pid);
    hide Agree, Sound, Split, Words;
    words := Relay(ram.pageSize, n, v, FramesOf(ram.tables[pid]), ram.bitmap.Length, a);
  }

  /** IO_STDIN_READ: the n characters typed reach the process's memory at a, and nothing else
      changes; as a string, they must not be cut short by a zero. */
  method StdinRead(ram: Ram, n: nat, v: seq<nat>, typed: seq<Byte>, ghost pid: nat, ghost a: nat) returns (ok: bool)
    requires Addressed(ram, v, pid, a, n) && |typed| == n
    modifies ram.bytes
    ensures ram.Valid() && (ok <==> n == 0 || NoneZero(typed[..n - 1]))
    ensures ok ==> ram.Logical(pid) == Splice(old(ram.Logical(pid)), a, typed)
    ensures ok ==> forall q :: q in ram.tables && q != pid ==> ram.Logical(q) == old(ram.Logical(q))
  {
    hide Agree, Split, Words, ByteOf;
    var words := Request(ram, n, v, pid, a);
    SentWhole(typed);
    hide AsSent, NoneZero;
    ok := ram.StoreRange(AsSent(typed), words, pid, a, n);
  }

  /** IO_STDOUT_WRITE: what is printed is the string at a of the process, cut at n bytes. */
  method StdoutWrite(ram: Ram, n: nat, v: seq<nat>, ghost pid: nat, ghost a: nat) returns (printed: seq<Byte>)
    requires Addressed(ram, v, pid, a, n)
    ensures printed == CString(ram.Logical(pid)[a..a + n])
    ensures var memory, k := ram.Logical(pid), |printed|;
            && k <= n && printed == memory[a..a + k] && NoneZero(printed) && (k < n ==> memory[a + k] == 0)
  {
    hide Agree, Split, Words, ByteOf;
    var words := Request(ram, n, v, pid, a);
    var data := ram.LoadRange(words, pid, a, n);
    printed := CString(data);
    assert printed == data[..|printed|];
  }

  /** IO_FS_WRITE: the string at a of the process goes into the file at the offset, or, when it
      does not fit there, nowhere. */
  method FsWrite(ram: Ram, fs: FileSystem, name: string, offset: nat, n: nat, v: seq<nat>, ghost pid: nat, ghost a: nat)
      returns (ok: bool)
    requires Addressed(ram, v, pid, a, n) && fs.Valid() && fs.blocks != ram.bytes
    requires exists i :: 0 <= i < |fs.fat| && fs.fat[i].name == name
    modifies fs.blocks
    ensures fs.Valid()
    ensures forall i :: 0 <= i < |fs.fat| && fs.fat[i].name == name ==>
      var files, text := old(fs.Files()), CString(old(ram.Logical(pid))[a..a + n]);
      && (ok <==> offset + |text| <= |files[i].bytes|)
      && fs.Files() == if ok then files[i := File(name, Splice(files[i].bytes, offset, text))] else files
  {
    hide Agree, Split, Words, ByteOf, CString, Splice;
    var text := StdoutWrite(ram, n, v, pid, a);
    ok := fs.Write(name, text, offset);
  }
}
