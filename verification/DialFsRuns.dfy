/** DialFS over whole runs: what a client sees of any sequence of requests is what a plain
    map from names to byte strings would show, as long as the blocks of all files fit. */
module DialFsRuns {
  import opened Arith
  import opened Builds
  import opened DialFs
  import opened DialFsLayout
  import opened DialFsSpec
  import opened Sequences

  datatype Request =
    | CreateFile(name: string)
    | DeleteFile(name: string)
    | TruncateFile(name: string, size: nat)
    | WriteFile(name: string, data: seq<Byte>, offset: nat)
    | ReadFile(name: string, offset: nat, count: nat)

  datatype Reply = Success | Failure | Data(bytes: seq<Byte>)

  predicate Named(files: seq<File>, i: int, name: string) {
    0 <= i < |files| && files[i].name == name
  }

  predicate Has(files: seq<File>, name: string) {
    exists i :: 0 <= i < |files| && Named(files, i, name)
  }

  predicate Distinct(files: seq<File>) {
    forall i, j :: 0 <= i < j < |files| ==> files[i].name != files[j].name
  }

  /** Requests the program is prepared for: it does not look whether a new name is taken, and
      it uses the entry it looks up, found or not, for all but truncation. */
  predicate Admissible(files: seq<File>, q: Request) {
    match q
    case CreateFile(name) => !Has(files, name)
    case TruncateFile(_, _) => true
    case _ => Has(files, q.name)
  }

  function Written(f: File, data: seq<Byte>, offset: nat): File {
    if offset + |data| <= |f.bytes| then File(f.name, Splice(f.bytes, offset, data)) else f
  }

  /** One request on the catalogue of files. A truncation that does not fit is dropped without
      a word, and so is a write past the end of the file. */
  ghost predicate Step(blockCount: nat, blockSize: nat, files: seq<File>, q: Request, files': seq<File>, reply: Reply)
    requires blockSize > 0
  {
    match q
    case CreateFile(name) =>
      if Used(files, blockSize, |files|) < blockCount then files' == files + [File(name, [])] && reply == Success
      else files' == files && reply == Failure
    case DeleteFile(name) =>
      reply == Success && exists i :: Named(files, i, name) && files' == Without(files, i)
    case TruncateFile(name, size) =>
      reply == Success && if !Has(files, name) then files' == files else
        exists i :: Named(files, i, name) &&
          if FitsGrown(files, blockSize, blockCount, i, size) then Truncated(files, files', i, size)
          else files' == files
    case WriteFile(name, data, offset) =>
      reply == Success && exists i :: Named(files, i, name) && files' == files[i := Written(files[i], data, offset)]
    case ReadFile(name, offset, count) =>
      files' == files && exists i :: Named(files, i, name) && reply == Data(Slice(files[i].bytes, offset, count))
  }

  /** The catalogues a run of requests goes through. */
  ghost predicate Run(blockCount: nat, blockSize: nat, trace: seq<seq<File>>, requests: seq<Request>,
                      replies: seq<Reply>)
    requires blockSize > 0
  {
    && |trace| == |requests| + 1 && |replies| == |requests|
    && Distinct(trace[0])
    && forall k :: 0 <= k < |requests| ==>
         && Admissible(trace[k], requests[k])
         && Step(blockCount, blockSize, trace[k], requests[k], trace[k + 1], replies[k])
  }

  lemma {:induction false} StartRun(bitmap: seq<bool>, blocks: seq<Byte>, fat: seq<Entry>,
                                    metadata: map<string, Meta>, blockSize: nat)
    requires Consistent(bitmap, |blocks|, fat, metadata, blockSize, {})
    ensures forall i :: 0 <= i < |fat| ==> Fits(fat[i], blockSize, |blocks|)
    ensures blockSize > 0 && Run(|bitmap|, blockSize, [FilesOf(blocks, fat, blockSize)], [], [])
  {
  }

  lemma {:induction false} ExtendRun(blockCount: nat, blockSize: nat, trace: seq<seq<File>>, requests: seq<Request>,
                                     replies: seq<Reply>,
                  q: Request, files: seq<File>, reply: Reply)
    requires blockSize > 0 && Run(blockCount, blockSize, trace, requests, replies)
    requires Admissible(trace[|requests|], q) && Step(blockCount, blockSize, trace[|requests|], q, files, reply)
    ensures |trace| == |requests| + 1
    ensures Run(blockCount, blockSize, trace + [files], requests + [q], replies + [reply])
  {
  }

  /** The file system module's loop. It stops at the first request the program is not prepared for. */
  method Serve(fs: FileSystem, requests: seq<Request>) returns (served: nat, replies: seq<Reply>,
               ghost trace: seq<seq<File>>)
    requires fs.build.Repaired? && fs.Valid()
    modifies fs`fat, fs`metadata, fs.bitmap, fs.blocks
    ensures fs.Valid() && served <= |requests|
    ensures Run(fs.bitmap.Length, fs.blockSize, trace, requests[..served], replies)
    ensures |trace| == served + 1 && trace[0] == old(fs.Files()) && trace[served] == fs.Files()
    ensures served < |requests| ==> !Admissible(fs.Files(), requests[served])
  {
    hide Step, Admissible, Run, Consistent, FilesOf;
    served, replies, trace := 0, [], [fs.Files()];
    StartRun(fs.bitmap[..], fs.blocks[..], fs.fat, fs.metadata, fs.blockSize);
    assert requests[..0] == [];
    while served < |requests|
      invariant fs.Valid() && served <= |requests|
      invariant Run(fs.bitmap.Length, fs.blockSize, trace, requests[..served], replies)
      invariant |trace| == served + 1
      invariant trace[0] == old(fs.Files()) && trace[served] == fs.Files()
    {
      var ok, reply := ServeOne(fs, requests[served]);
      if !ok {
        return;
      }
      ExtendRun(fs.bitmap.Length, fs.blockSize, trace, requests[..served], replies, requests[served], fs.Files(),
                reply);
      trace, replies := trace + [fs.Files()], replies + [reply];
      assert requests[..served + 1] == requests[..served] + [requests[served]];
      served := served + 1;
    }
  }

  /** Where the looked-up entry decides: whether the request is admissible, and what the request
      does to the catalogue once that entry is known. */
  lemma {:induction false} Looked(files: seq<File>, q: Request, i: int)
    requires if i >= 0 then Named(files, i, q.name) else forall j :: 0 <= j < |files| ==> files[j].name != q.name
    ensures i >= 0 <==> Has(files, q.name)
    ensures Admissible(files, q) <==> if q.CreateFile? then i < 0 else q.TruncateFile? || i >= 0
  {
  }

  lemma {:induction false} Served(blockCount: nat, blockSize: nat, files: seq<File>, q: Request, files': seq<File>,
                                  i: int)
    requires blockSize > 0 && Named(files, i, q.name)
    ensures q.DeleteFile? && files' == Without(files, i) ==> Step(blockCount, blockSize, files, q, files', Success)
    ensures q.TruncateFile? &&
            (if FitsGrown(files, blockSize, blockCount, i, q.size) then Truncated(files, files', i, q.size)
             else files' == files)
            ==> Step(blockCount, blockSize, files, q, files', Success)
    ensures q.WriteFile? && files' == files[i := Written(files[i], q.data, q.offset)]
            ==> Step(blockCount, blockSize, files, q, files', Success)
    ensures q.ReadFile? && files' == files
            ==> Step(blockCount, blockSize, files, q, files', Data(Slice(files[i].bytes, q.offset, q.count)))
  {
    hide Truncated, FitsGrown, Written, Slice;
  }

  /** ok is false, and nothing has changed, for a request the program is not prepared for. */
  method ServeOne(fs: FileSystem, q: Request) returns (ok: bool, reply: Reply)
    requires fs.build.Repaired? && fs.Valid()
    modifies fs`fat, fs`metadata, fs.bitmap, fs.blocks
    ensures fs.Valid()
    ensures ok <==> Admissible(old(fs.Files()), q)
    ensures !ok ==> fs.Files() == old(fs.Files())
    ensures ok ==> Step(fs.bitmap.Length, fs.blockSize, old(fs.Files()), q, fs.Files(), reply)
  {
    ghost var files := fs.Files();
    var i := fs.FindName(q.name);
    Looked(files, q, i);
    ok := if q.CreateFile? then i < 0 else q.TruncateFile? || i >= 0;
    reply := Failure;
    if q.CreateFile? && ok {
      reply := ServeCreate(fs, q.name);
    } else if ok && i >= 0 {
      reply := ServeNamed(fs, q, i);
    } else if ok {
      var o := fs.Truncate(q.name, q.size);
      reply := Success;
    }
  }

  method ServeCreate(fs: FileSystem, name: string) returns (reply: Reply)
    requires fs.Valid() && !Has(fs.Files(), name)
    modifies fs`fat, fs`metadata, fs.bitmap
    ensures fs.Valid()
    ensures Step(fs.bitmap.Length, fs.blockSize, old(fs.Files()), CreateFile(name), fs.Files(), reply)
  {
    hide Used, Consistent;
    assert forall j :: 0 <= j < |fs.fat| ==> Named(fs.Files(), j, fs.fat[j].name);
    var ok := fs.Create(name);
    reply := if ok then Success else Failure;
  }

  method ServeNamed(fs: FileSystem, q: Request, i: nat) returns (reply: Reply)
    requires fs.build.Repaired? && fs.Valid() && i < |fs.fat| && fs.fat[i].name == q.name && !q.CreateFile?
    modifies fs`fat, fs`metadata, fs.bitmap, fs.blocks
    ensures fs.Valid()
    ensures Step(fs.bitmap.Length, fs.blockSize, old(fs.Files()), q, fs.Files(), reply)
  {
    ghost var files := fs.Files();
    assert Named(files, i, q.name);
    hide Step, Consistent, Truncated, FitsGrown, Splice, Slice, FilesOf, Named;
    reply := Success;
    match q
    case DeleteFile(name) =>
      fs.Delete(name);
      Served(fs.bitmap.Length, fs.blockSize, files, q, fs.Files(), i);
    case TruncateFile(name, size) =>
      var o := fs.Truncate(name, size);
      Served(fs.bitmap.Length, fs.blockSize, files, q, fs.Files(), i);
    case WriteFile(name, data, offset) =>
      var fitted := fs.Write(name, data, offset);
      Served(fs.bitmap.Length, fs.blockSize, files, q, fs.Files(), i);
    case ReadFile(name, offset, count) =>
      var r := fs.Read(name, offset, count);
      Served(fs.bitmap.Length, fs.blockSize, files, q, files, i);
      reply := Data(r.bytes);
  }

  // ------------------------------------------------------------ the map view

  function AsMap(files: seq<File>): map<string, seq<Byte>> {
    if files == [] then map[]
    else AsMap(files[..|files| - 1])[files[|files| - 1].name := files[|files| - 1].bytes]
  }

  /** The blocks that the files of a map take, in whatever order they are added up. */
  ghost function BlocksOf(m: map<string, seq<Byte>>, blockSize: nat): nat
    requires blockSize > 0
  {
    if m == map[] then 0
    else var name :| name in m; Blocks(|m[name]|, blockSize) + BlocksOf(m - {name}, blockSize)
  }

  lemma {:induction false} BlocksWithout(m: map<string, seq<Byte>>, blockSize: nat, name: string)
    requires blockSize > 0 && name in m
    ensures BlocksOf(m, blockSize) == Blocks(|m[name]|, blockSize) + BlocksOf(m - {name}, blockSize)
  {
    var first :| first in m && BlocksOf(m, blockSize)
        == Blocks(|m[first]|, blockSize) + BlocksOf(m - {first}, blockSize);
    if first != name {
      BlocksWithout(m - {first}, blockSize, name);
      BlocksWithout(m - {name}, blockSize, first);
      assert m - {first} - {name} == m - {name} - {first};
    }
  }

  lemma {:induction false} UsedBefore(files: seq<File>, blockSize: nat, f: File, k: nat)
    requires blockSize > 0 && k <= |files|
    ensures Used(files + [f], blockSize, k) == Used(files, blockSize, k)
  {
    if k > 0 {
      UsedBefore(files, blockSize, f, k - 1);
    }
  }

  /** The map has the catalogue's need of blocks. */
  lemma {:induction false} UsedIsBlocksOf(files: seq<File>, blockSize: nat)
    requires blockSize > 0 && Distinct(files)
    ensures Used(files, blockSize, |files|) == BlocksOf(AsMap(files), blockSize)
    decreases |files|
  {
    if files != [] {
      var last := |files| - 1;
      var rest, f := files[..last], files[last];
      assert files == rest + [f];
      UsedIsBlocksOf(rest, blockSize);
      UsedBefore(rest, blockSize, f, last);
      LastIsNew(files);
      BlocksWithout(AsMap(files), blockSize, f.name);
      assert AsMap(files) - {f.name} == AsMap(rest);
    }
  }

  /** With this file at its new size the blocks of all files still fit. */
  ghost predicate HasRoom(m: map<string, seq<Byte>>, blockCount: nat, blockSize: nat, name: string, size: nat)
    requires blockSize > 0 && name in m
  {
    BlocksOf(m, blockSize) - Blocks(|m[name]|, blockSize) + Blocks(size, blockSize) <= blockCount
  }

  /** One request on a plain map, and a count of blocks for what fits. */
  ghost predicate MapStep(blockCount: nat, blockSize: nat, m: map<string, seq<Byte>>, q: Request,
                          m': map<string, seq<Byte>>, reply: Reply)
    requires blockSize > 0
  {
    match q
    case CreateFile(name) =>
      name !in m && if BlocksOf(m, blockSize) < blockCount then reply == Success && m' == m[name := []]
                    else reply == Failure && m' == m
    case DeleteFile(name) => name in m && reply == Success && m' == m - {name}
    case TruncateFile(name, size) =>
      reply == Success && if name in m && HasRoom(m, blockCount, blockSize, name, size) then Resized(m, m', name, size)
                          else m' == m
    case WriteFile(name, data, offset) => name in m && reply == Success && m' ==
      if offset + |data| <= |m[name]| then m[name := Splice(m[name], offset, data)] else m
    case ReadFile(name, offset, count) => name in m && m' == m && reply == Data(Slice(m[name], offset, count))
  }

  ghost predicate Resized(m: map<string, seq<Byte>>, m': map<string, seq<Byte>>, name: string, size: nat)
    requires name in m
  {
    && name in m' && m' == m[name := m'[name]]
    && |m'[name]| == size
    && forall b :: 0 <= b < size && b < |m[name]| ==> m'[name][b] == m[name][b]
  }

  lemma {:induction false} MapHas(files: seq<File>, name: string)
    ensures name in AsMap(files) <==> Has(files, name)
    decreases |files|
  {
    if files != [] {
      var rest := files[..|files| - 1];
      MapHas(rest, name);
      assert forall i :: Named(rest, i, name) ==> Named(files, i, name);
      assert forall i :: Named(files, i, name) ==> i == |files| - 1 || Named(rest, i, name);
      assert files[|files| - 1].name == name ==> Named(files, |files| - 1, name);
    }
  }

  lemma {:induction false} MapAt(files: seq<File>, i: nat)
    requires Distinct(files) && i < |files|
    ensures files[i].name in AsMap(files) && AsMap(files)[files[i].name] == files[i].bytes
    decreases |files|
  {
    if i < |files| - 1 {
      MapAt(files[..|files| - 1], i);
    }
  }

  lemma {:induction false} AppendIsAdd(files: seq<File>, f: File)
    ensures AsMap(files + [f]) == AsMap(files)[f.name := f.bytes]
  {
  }

  lemma {:induction false} UpdateIsPut(files: seq<File>, i: nat, f: File)
    requires Distinct(files) && i < |files| && files[i].name == f.name
    ensures AsMap(files[i := f]) == AsMap(files)[f.name := f.bytes]
    decreases |files|
  {
    hide AsMap;
    var last := |files| - 1;
    var rest := files[..last];
    assert files == rest + [files[last]];
    AppendIsAdd(rest, files[last]);
    if i < last {
      UpdateIsPut(rest, i, f);
      assert files[i := f] == rest[i := f] + [files[last]];
      AppendIsAdd(rest[i := f], files[last]);
    } else {
      assert files[i := f] == rest + [f];
      AppendIsAdd(rest, f);
    }
  }

  lemma {:induction false} DropIsRemove(files: seq<File>, i: nat)
    requires Distinct(files) && i < |files|
    ensures AsMap(Without(files, i)) == AsMap(files) - {files[i].name}
    decreases |files|
  {
    hide AsMap;
    var last := |files| - 1;
    var rest := files[..last];
    assert files == rest + [files[last]];
    AppendIsAdd(rest, files[last]);
    if i < last {
      DropIsRemove(rest, i);
      assert Without(files, i) == Without(rest, i) + [files[last]];
      AppendIsAdd(Without(rest, i), files[last]);
    } else {
      assert Without(files, i) == rest;
      LastIsNew(files);
    }
  }

  lemma {:induction false} LastIsNew(files: seq<File>)
    requires files != [] && Distinct(files)
    ensures files[|files| - 1].name !in AsMap(files[..|files| - 1])
  {
    hide AsMap;
    MapHas(files[..|files| - 1], files[|files| - 1].name);
  }

  lemma {:induction false} StepKeepsNames(blockCount: nat, blockSize: nat, files: seq<File>, q: Request,
                                          files': seq<File>, reply: Reply)
    requires blockSize > 0 && Distinct(files) && Admissible(files, q)
    requires Step(blockCount, blockSize, files, q, files', reply)
    ensures Distinct(files')
  {
    if q.CreateFile? {
      assert forall i :: 0 <= i < |files| ==> Named(files, i, files[i].name);
    }
  }

  lemma {:induction false} StepIsMapStep(blockCount: nat, blockSize: nat, files: seq<File>, q: Request,
                                         files': seq<File>, reply: Reply)
    requires blockSize > 0 && Distinct(files) && Admissible(files, q)
    requires Step(blockCount, blockSize, files, q, files', reply)
    ensures MapStep(blockCount, blockSize, AsMap(files), q, AsMap(files'), reply)
  {
    hide AsMap, BlocksOf, Used;
    MapHas(files, q.name);
    UsedIsBlocksOf(files, blockSize);
    match q
    case CreateFile(name) =>
      AppendIsAdd(files, File(name, []));
    case DeleteFile(name) =>
      var i :| Named(files, i, name) && files' == Without(files, i);
      DropIsRemove(files, i);
    case TruncateFile(name, size) =>
      if Has(files, name) {
        var i :| Named(files, i, name) && (if FitsGrown(files, blockSize, blockCount, i, size)
                                           then Truncated(files, files', i, size) else files' == files);
        MapAt(files, i);
        if FitsGrown(files, blockSize, blockCount, i, size) {
          assert files' == files[i := files'[i]];
          UpdateIsPut(files, i, files'[i]);
        }
      }
    case WriteFile(name, data, offset) =>
      var i :| Named(files, i, name) && files' == files[i := Written(files[i], data, offset)];
      MapAt(files, i);
      UpdateIsPut(files, i, files'[i]);
    case ReadFile(name, offset, count) =>
      var i :| Named(files, i, name) && reply == Data(Slice(files[i].bytes, offset, count));
      MapAt(files, i);
  }

  /** Every run of the file system is a run of a plain map. */
  lemma {:induction false} RunsRefineMap(blockCount: nat, blockSize: nat, trace: seq<seq<File>>, requests: seq<Request>,
                                         replies: seq<Reply>, k: nat)
    requires blockSize > 0 && Run(blockCount, blockSize, trace, requests, replies) && k <= |requests|
    ensures Distinct(trace[k])
    ensures k < |requests| ==>
      Distinct(trace[k + 1]) &&
      MapStep(blockCount, blockSize, AsMap(trace[k]), requests[k], AsMap(trace[k + 1]), replies[k])
    decreases k
  {
    hide Step, Admissible, MapStep, AsMap, Distinct;
    if k > 0 {
      RunsRefineMap(blockCount, blockSize, trace, requests, replies, k - 1);
    }
    if k < |requests| {
      StepKeepsNames(blockCount, blockSize, trace[k], requests[k], trace[k + 1], replies[k]);
      StepIsMapStep(blockCount, blockSize, trace[k], requests[k], trace[k + 1], replies[k]);
    }
  }

  /** What the program is prepared for: to create a file that is not there, to truncate any, and
      to do the rest to one that is. */
  lemma {:induction false} AdmissibleIff(files: seq<File>, q: Request)
    ensures Admissible(files, q) <==> q.TruncateFile? || (q.CreateFile? <==> q.name !in AsMap(files))
  {
    hide AsMap;
    MapHas(files, q.name);
  }

  /** A file is created exactly when the blocks of all files there are leave one over. */
  lemma {:induction false} CreatedIff(blockCount: nat, blockSize: nat, trace: seq<seq<File>>, requests: seq<Request>,
                                      replies: seq<Reply>, k: nat, name: string)
    requires blockSize > 0 && Run(blockCount, blockSize, trace, requests, replies)
    requires k < |requests| && requests[k] == CreateFile(name)
    ensures var m, m' := AsMap(trace[k]), AsMap(trace[k + 1]);
            && name !in m
            && (replies[k] == Success <==> BlocksOf(m, blockSize) < blockCount)
            && (replies[k] == Success ==> m' == m[name := []])
            && (replies[k] != Success ==> replies[k] == Failure && m' == m)
  {
    hide Step, Admissible, AsMap, Distinct;
    RunsRefineMap(blockCount, blockSize, trace, requests, replies, k);
  }

  /** A file gets the size asked for exactly when the blocks of all files then fit, however they
      are scattered; it keeps what is common to both sizes, and the others keep everything. Nobody
      is told when it does not, or when there is no such file. */
  lemma {:induction false} TruncatedIff(blockCount: nat, blockSize: nat, trace: seq<seq<File>>, requests: seq<Request>,
                                        replies: seq<Reply>, k: nat, name: string, size: nat)
    requires blockSize > 0 && Run(blockCount, blockSize, trace, requests, replies)
    requires k < |requests| && requests[k] == TruncateFile(name, size)
    ensures replies[k] == Success && (name !in AsMap(trace[k]) ==> AsMap(trace[k + 1]) == AsMap(trace[k]))
    ensures name in AsMap(trace[k]) ==>
            var m, m' := AsMap(trace[k]), AsMap(trace[k + 1]);
            && name in m' && m' == m[name := m'[name]]
            && (|m'[name]| == size <==> |m[name]| == size || HasRoom(m, blockCount, blockSize, name, size))
            && (|m'[name]| != size ==> m' == m)
            && (forall b :: 0 <= b < |m'[name]| && b < |m[name]| ==> m'[name][b] == m[name][b])
  {
    hide Step, Admissible, AsMap, Distinct;
    RunsRefineMap(blockCount, blockSize, trace, requests, replies, k);
    if name in AsMap(trace[k]) {
      assert AsMap(trace[k]) == AsMap(trace[k])[name := AsMap(trace[k])[name]];
    }
  }

  /** A deleted file is gone, and no other. */
  lemma {:induction false} DeletedIsGone(blockCount: nat, blockSize: nat, trace: seq<seq<File>>, requests: seq<Request>,
                                         replies: seq<Reply>, k: nat, name: string)
    requires blockSize > 0 && Run(blockCount, blockSize, trace, requests, replies)
    requires k < |requests| && requests[k] == DeleteFile(name)
    ensures name in AsMap(trace[k]) && AsMap(trace[k + 1]) == AsMap(trace[k]) - {name} && replies[k] == Success
  {
    hide Step, Admissible, AsMap, Distinct;
    RunsRefineMap(blockCount, blockSize, trace, requests, replies, k);
  }

  /** What a write leaves, byte by byte: all of the data when it ends inside the file, and nothing
      of it otherwise. */
  lemma {:induction false} WrittenBytes(blockCount: nat, blockSize: nat, trace: seq<seq<File>>, requests: seq<Request>,
                                        replies: seq<Reply>, k: nat, name: string, data: seq<Byte>, offset: nat)
    requires blockSize > 0 && Run(blockCount, blockSize, trace, requests, replies)
    requires k < |requests| && requests[k] == WriteFile(name, data, offset)
    ensures var m, m' := AsMap(trace[k]), AsMap(trace[k + 1]);
            && replies[k] == Success
            && name in m && name in m' && m' == m[name := m'[name]] && |m'[name]| == |m[name]|
            && forall b :: 0 <= b < |m[name]| ==>
                 m'[name][b] == if offset <= b < offset + |data| <= |m[name]| then data[b - offset] else m[name][b]
  {
    hide Step, Admissible, AsMap, Distinct;
    RunsRefineMap(blockCount, blockSize, trace, requests, replies, k);
    assert AsMap(trace[k]) == AsMap(trace[k])[name := AsMap(trace[k])[name]];
  }

  /** What a read answers, byte by byte, also when it reaches past the end. */
  lemma {:induction false} ReadBytes(blockCount: nat, blockSize: nat, trace: seq<seq<File>>, requests: seq<Request>,
                                     replies: seq<Reply>, k: nat, name: string, offset: nat, count: nat)
    requires blockSize > 0 && Run(blockCount, blockSize, trace, requests, replies)
    requires k < |requests| && requests[k] == ReadFile(name, offset, count)
    ensures var m := AsMap(trace[k]);
            && name in m && AsMap(trace[k + 1]) == m && replies[k].Data?
            && |replies[k].bytes| == (if |m[name]| <= offset then 0
                                      else if |m[name]| - offset <= count then |m[name]| - offset else count)
            && forall b :: 0 <= b < |replies[k].bytes| ==> replies[k].bytes[b] == m[name][offset + b]
  {
    hide Step, Admissible, AsMap, Distinct;
    RunsRefineMap(blockCount, blockSize, trace, requests, replies, k);
  }

  /** The request is none that may change this file's bytes. */
  predicate LeavesAlone(q: Request, name: string) {
    q.ReadFile? || q.CreateFile? || q.name != name
  }

  /** A file keeps its bytes through any stretch of a run that does not address it, whatever
      is created, deleted, truncated and compacted around it. */
  lemma {:induction false} OthersKeepFile(blockCount: nat, blockSize: nat, trace: seq<seq<File>>,
                                          requests: seq<Request>,
                                          replies: seq<Reply>, j: nat, k: nat, name: string)
    requires blockSize > 0 && Run(blockCount, blockSize, trace, requests, replies)
    requires j <= k <= |requests| && name in AsMap(trace[j])
    requires forall l :: j <= l < k ==> LeavesAlone(requests[l], name)
    ensures name in AsMap(trace[k]) && AsMap(trace[k])[name] == AsMap(trace[j])[name]
    decreases k
  {
    hide Step, Admissible, AsMap, Distinct;
    if j < k {
      RunsRefineMap(blockCount, blockSize, trace, requests, replies, k - 1);
      OthersKeepFile(blockCount, blockSize, trace, requests, replies, j, k - 1, name);
    }
  }

  /** What was written is what a later read returns. */
  lemma {:induction false} ReadReturnsWritten(blockCount: nat, blockSize: nat, trace: seq<seq<File>>,
                                              requests: seq<Request>,
                           replies: seq<Reply>, j: nat, k: nat, name: string, data: seq<Byte>, offset: nat)
    requires blockSize > 0 && Run(blockCount, blockSize, trace, requests, replies)
    requires j < k < |requests|
    requires requests[j] == WriteFile(name, data, offset) && requests[k] == ReadFile(name, offset, |data|)
    requires name in AsMap(trace[j]) && offset + |data| <= |AsMap(trace[j])[name]|
    requires forall l :: j < l < k ==> LeavesAlone(requests[l], name)
    ensures replies[k] == Data(data)
  {
    hide Step, Admissible, AsMap, Distinct;
    RunsRefineMap(blockCount, blockSize, trace, requests, replies, j);
    RunsRefineMap(blockCount, blockSize, trace, requests, replies, k);
    OthersKeepFile(blockCount, blockSize, trace, requests, replies, j + 1, k, name);
    var bytes := Splice(AsMap(trace[j])[name], offset, data);
    assert Slice(bytes, offset, |data|) == data;
  }
}
