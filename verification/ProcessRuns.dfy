/** The processor and its memory over whole runs: what any sequence of instructions of any number
    of processes shows is what private byte strings, one for each process, would show. */
module ProcessRuns {
  import opened Arith
  import opened Builds
  import opened Cpu
  import opened FrameTables
  import opened LogicalMemory
  import opened Memory
  import opened RegisterAccess
  import opened Transfers

  /** What the kernel asks for, and what the running process executes. */
  datatype Instruction =
    | Dispatch(pid: nat)
    | Spawn
    | End(pid: nat)
    | Resize(size: nat)
    | Store(a: nat, size: nat, value: nat)
    | Load(a: nat, size: nat)
    | Copy(si: nat, di: nat, n: nat)

  datatype Reply = Done | OutOfMemory | Answer(value: nat)

  /** Each process's bytes, and the bytes of the frames nobody has. */
  datatype Machine = Machine(memory: map<nat, seq<Byte>>, running: nat, next: nat, room: nat)

  predicate Reaches(m: Machine, a: nat, n: nat) {
    m.running in m.memory && a < |m.memory[m.running]| && a + n <= |m.memory[m.running]|
  }

  /** Instructions the program is prepared for: about live processes, on addresses the running one
      has, and without a zero inside a string that is moved. */
  predicate Admissible(m: Machine, q: Instruction) {
    match q
    case Dispatch(pid) => pid in m.memory
    case Spawn => true
    case End(pid) => pid in m.memory
    case Resize(_) => m.running in m.memory
    case Store(a, size, _) => (size == 1 || size == 4) && Reaches(m, a, size)
    case Load(a, size) => (size == 1 || size == 4) && Reaches(m, a, size)
    case Copy(si, di, n) =>
      Reaches(m, si, n) && Reaches(m, di, n) && (n == 0 || NoneZero(m.memory[m.running][si..si + n][..n - 1]))
  }

  /** A size in whole pages. */
  function RoundUp(size: nat, pageSize: nat): nat
    requires pageSize > 0
  {
    ByteOf(CeilDiv(size, pageSize), pageSize)
  }

  /** One instruction on private byte strings. When memory runs out, the process keeps all there was. */
  predicate Step(pageSize: nat, m: Machine, q: Instruction, m': Machine, reply: Reply)
    requires pageSize > 0 && Admissible(m, q)
  {
    match q
    case Dispatch(pid) => reply == Done && m' == m.(running := pid)
    case Spawn => reply == Answer(m.next) && m.next !in m.memory &&
        m' == m.(memory := m.memory[m.next := []], next := m.next + 1)
    case End(pid) => reply == Done && m' == m.(memory := m.memory - {pid}, room := m.room + |m.memory[pid]|)
    case Resize(size) => Resized(pageSize, m, size, m', reply)
    case Store(a, size, value) => reply == Done && m' == Changed(m, a, Bytes(value, size))
    case Load(a, size) => reply == Answer(Value(m.memory[m.running][a..a + size])) && m' == m
    case Copy(si, di, n) => reply == Done && m' == Changed(m, di, m.memory[m.running][si..si + n])
  }

  function Changed(m: Machine, a: nat, data: seq<Byte>): Machine
    requires m.running in m.memory && a + |data| <= |m.memory[m.running]|
  {
    m.(memory := m.memory[m.running := Splice(m.memory[m.running], a, data)])
  }

  predicate Resized(pageSize: nat, m: Machine, size: nat, m': Machine, reply: Reply)
    requires pageSize > 0 && m.running in m.memory
  {
    var had, meant := |m.memory[m.running]|, RoundUp(size, pageSize);
    && m.running in m'.memory && CommonPrefix(m'.memory[m.running], m.memory[m.running])
    && reply == (if meant > had + m.room then OutOfMemory else Done)
    && |m'.memory[m.running]| == (if meant > had + m.room then had + m.room else meant)
    && m' == m.(memory := m.memory[m.running := m'.memory[m.running]], room := had + m.room - |m'.memory[m.running]|)
  }

  // ------------------------------------------------------------------- runs

  /** The machines a run goes through. */
  predicate Run(pageSize: nat, trace: seq<Machine>, code: seq<Instruction>, replies: seq<Reply>)
    requires pageSize > 0
  {
    && |trace| == |code| + 1 && |replies| == |code|
    && (forall p :: p in trace[0].memory ==> p < trace[0].next)
    && forall k :: 0 <= k < |code| ==>
         Admissible(trace[k], code[k]) && Step(pageSize, trace[k], code[k], trace[k + 1], replies[k])
  }

  /** What a processor shows. */
  ghost function Shown(cpu: Processor): Machine
    reads cpu, cpu.ram, cpu.ram.bitmap, cpu.ram.bytes
    requires cpu.Valid()
  {
    Machine(map p | p in cpu.ram.tables :: cpu.ram.Logical(p), cpu.pid, cpu.nextPid,
            ByteOf(FreeFrames(cpu), cpu.ram.pageSize))
  }

  ghost function FreeFrames(cpu: Processor): nat
    reads cpu, cpu.ram, cpu.ram.bitmap
  {
    FreeIsCount(cpu.ram);
    cpu.ram.Free()
  }

  method ServeResize(cpu: Processor, size: nat) returns (reply: Reply)
    requires cpu.build.Repaired? && cpu.Valid() && Admissible(Shown(cpu), Resize(size))
    modifies cpu`tlb, cpu`spare, cpu.ram`tables, cpu.ram`owner, cpu.ram.bitmap
    ensures cpu.Valid() && Step(cpu.ram.pageSize, old(Shown(cpu)), Resize(size), Shown(cpu), reply)
  {
    hide Cached, Agree, CommonPrefix, CeilDiv, ByteOf, Step, Size;
    ghost var m, n, free := Shown(cpu), Size(cpu.ram.tables[cpu.pid]), FreeFrames(cpu);
    var outOfMemory := cpu.Resize(size);
    reply := if outOfMemory then OutOfMemory else Done;
    ghost var m' := Shown(cpu);
    assert m'.memory == m.memory[cpu.pid := m'.memory[cpu.pid]];
    ResizeInBytes(cpu.ram.pageSize, m, size, m', reply, n, free, Size(cpu.ram.tables[cpu.pid]), FreeFrames(cpu));
  }

  lemma {:induction false} ResizeInBytes(pageSize: nat, m: Machine, size: nat, m': Machine, reply: Reply,
                                         n: nat, free: nat, n': nat, free': nat)
    requires pageSize > 0 && Admissible(m, Resize(size)) && m.running in m'.memory
    requires m' == m.(memory := m.memory[m.running := m'.memory[m.running]], room := m'.room)
    requires |m.memory[m.running]| == ByteOf(n, pageSize) && |m'.memory[m.running]| == ByteOf(n', pageSize)
    requires m.room == ByteOf(free, pageSize) && m'.room == ByteOf(free', pageSize)
    requires CommonPrefix(m'.memory[m.running], m.memory[m.running])
    requires var meant := CeilDiv(size, pageSize);
             && reply == (if meant > n + free then OutOfMemory else Done)
             && n' == (if meant > n + free then n + free else meant) && free' == free + n - n'
    ensures Step(pageSize, m, Resize(size), m', reply)
  {
    hide CommonPrefix, CeilDiv, ByteOf;
    InBytes(n, free, CeilDiv(size, pageSize), n', free', pageSize);
  }

  lemma {:induction false} InBytes(n: nat, free: nat, meant: nat, n': nat, free': nat, pageSize: nat)
    requires pageSize > 0
    requires n' == (if meant > n + free then n + free else meant) && free' == free + n - n'
    ensures meant > n + free <==> ByteOf(meant, pageSize) > ByteOf(n, pageSize) + ByteOf(free, pageSize)
    ensures ByteOf(n', pageSize) + ByteOf(free', pageSize) == ByteOf(n, pageSize) + ByteOf(free, pageSize)
    ensures meant > n + free ==> ByteOf(n', pageSize) == ByteOf(n, pageSize) + ByteOf(free, pageSize)
  {
    ByteOfAdds(n, free, pageSize);
    ByteOfAdds(n', free', pageSize);
    if meant > n + free {
      ByteOfMonotone(n + free + 1, meant, pageSize);
    } else {
      ByteOfMonotone(meant, n + free, pageSize);
    }
  }

  lemma {:induction false} ByteOfAdds(a: nat, b: nat, pageSize: nat)
    ensures ByteOf(a + b, pageSize) == ByteOf(a, pageSize) + ByteOf(b, pageSize)
  {
    if b > 0 {
      ByteOfAdds(a, b - 1, pageSize);
    }
  }

  // ---------------------------------------------------------------- the loop

  /** Whether the running process has the n bytes from a on. */
  method Looks(cpu: Processor, a: nat, n: nat) returns (ok: bool)
    requires cpu.Valid()
    ensures ok <==> Reaches(Shown(cpu), a, n)
  {
    hide Cached, Agree, Size;
    if cpu.pid !in cpu.ram.tables {
      return false;
    }
    var pages := cpu.ram.PageCount(cpu.pid);
    ByteOfIsProduct(pages, cpu.ram.pageSize);
    ok := a < pages * cpu.ram.pageSize && a + n <= pages * cpu.ram.pageSize;
  }

  /** ok is false for an instruction the program is not prepared for. */
  method ServeOne(cpu: Processor, q: Instruction) returns (ok: bool, reply: Reply)
    requires cpu.build.Repaired? && cpu.Valid()
    modifies cpu`tlb, cpu`spare, cpu`pid, cpu`nextPid, cpu.ram`tables, cpu.ram`owner, cpu.ram.bitmap, cpu.ram.bytes
    ensures cpu.Valid() && (ok <==> Admissible(old(Shown(cpu)), q))
    ensures ok ==> Step(cpu.ram.pageSize, old(Shown(cpu)), q, Shown(cpu), reply)
  {
    hide Step, Cached, Agree, Shown;
    ok, reply := true, Done;
    match q
    case Dispatch(pid) => ok := ServeDispatch(cpu, pid);
    case Spawn => reply := ServeSpawn(cpu);
    case End(pid) => ok := ServeEnd(cpu, pid);
    case Resize(size) =>
      ok := cpu.pid in cpu.ram.tables;
      InMemory(cpu);
      if ok {
        reply := ServeResize(cpu, size);
      }
    case Store(a, size, value) =>
      ok := Looks(cpu, a, size);
      ok := ok && (size == 1 || size == 4);
      if ok {
        ServeStore(cpu, a, size, value);
      }
    case Load(a, size) =>
      ok := Looks(cpu, a, size);
      ok := ok && (size == 1 || size == 4);
      if ok {
        reply := ServeLoad(cpu, a, size);
      }
    case Copy(si, di, n) =>
      var there := Looks(cpu, si, n);
      ok := Looks(cpu, di, n);
      ok := ok && there;
      if ok {
        ok := ServeCopy(cpu, si, di, n);
      }
  }

  lemma {:induction false} InMemory(cpu: Processor)
    requires cpu.Valid()
    ensures forall p :: p in Shown(cpu).memory <==> p in cpu.ram.tables
    ensures Shown(cpu).running == cpu.pid
  {
  }

  lemma {:induction false} NoneZeroIn(memory: seq<Byte>, a: nat, n: nat)
    requires 0 < n && a + n <= |memory|
    ensures NoneZero(memory[a..a + n][..n - 1]) <==> forall b :: a <= b < a + n - 1 ==> memory[b] != 0
  {
    var bytes := memory[a..a + n][..n - 1];
    assert forall b :: a <= b < a + n - 1 ==> bytes[b - a] == memory[b];
    assert forall i :: 0 <= i < |bytes| ==> bytes[i] == memory[a + i];
  }

  /** What the program is prepared for, by the page tables: a live process to dispatch or to end;
      for the running one any size, and addresses it has. */
  lemma {:induction false} AdmissibleIff(cpu: Processor, q: Instruction)
    requires cpu.Valid()
    ensures q.Spawn? ==> Admissible(Shown(cpu), q)
    ensures q.Dispatch? || q.End? ==> (Admissible(Shown(cpu), q) <==> q.pid in cpu.ram.tables)
    ensures q.Resize? ==> (Admissible(Shown(cpu), q) <==> cpu.pid in cpu.ram.tables)
    ensures q.Store? || q.Load? ==>
      (Admissible(Shown(cpu), q) <==>
         cpu.pid in cpu.ram.tables && q.size in {1, 4} &&
             q.a + q.size <= Size(cpu.ram.tables[cpu.pid]) * cpu.ram.pageSize)
  {
    hide Cached, Agree, Size, ByteOf, NoneZero;
    if cpu.pid in cpu.ram.tables {
      ByteOfIsProduct(Size(cpu.ram.tables[cpu.pid]), cpu.ram.pageSize);
    }
  }

  /** And a string to move, with no zero before its last byte. */
  lemma {:induction false} MovableIff(cpu: Processor, si: nat, di: nat, n: nat)
    requires cpu.Valid() && cpu.pid in cpu.ram.tables
    ensures var memory := cpu.ram.Logical(cpu.pid);
            && |memory| == Size(cpu.ram.tables[cpu.pid]) * cpu.ram.pageSize
            && (Admissible(Shown(cpu), Copy(si, di, n)) <==>
                  && si < |memory| && si + n <= |memory| && di < |memory| && di + n <= |memory|
                  && forall b :: si <= b < si + n - 1 ==> memory[b] != 0)
  {
    hide Cached, Agree, Size, ByteOf, NoneZero;
    ByteOfIsProduct(Size(cpu.ram.tables[cpu.pid]), cpu.ram.pageSize);
    if n > 0 && si + n <= |cpu.ram.Logical(cpu.pid)| {
      NoneZeroIn(cpu.ram.Logical(cpu.pid), si, n);
    }
  }

  method ServeDispatch(cpu: Processor, pid: nat) returns (ok: bool)
    requires cpu.Valid()
    modifies cpu`pid
    ensures cpu.Valid() && (ok <==> Admissible(old(Shown(cpu)), Dispatch(pid)))
    ensures ok ==> Step(cpu.ram.pageSize, old(Shown(cpu)), Dispatch(pid), Shown(cpu), Done)
  {
    hide Cached, Agree, Size, ByteOf;
    ok := pid in cpu.ram.tables;
    if ok {
      cpu.Dispatch(pid);
    }
  }

  method ServeSpawn(cpu: Processor) returns (reply: Reply)
    requires cpu.Valid()
    modifies cpu`nextPid, cpu.ram`tables
    ensures cpu.Valid() && Step(cpu.ram.pageSize, old(Shown(cpu)), Spawn, Shown(cpu), reply)
  {
    hide Cached, Agree, Size;
    ghost var m := Shown(cpu);
    var p := cpu.Create();
    reply := Answer(p);
    assert cpu.ram.Logical(p) == [];
    assert Shown(cpu).memory == m.memory[p := []];
  }

  method ServeEnd(cpu: Processor, pid: nat) returns (ok: bool)
    requires cpu.Valid()
    modifies cpu.ram`tables, cpu.ram`owner, cpu.ram.bitmap
    ensures cpu.Valid() && (ok <==> Admissible(old(Shown(cpu)), End(pid)))
    ensures ok ==> Step(cpu.ram.pageSize, old(Shown(cpu)), End(pid), Shown(cpu), Done)
  {
    hide Cached, Agree, Size, ByteOf;
    ghost var m, free := Shown(cpu), FreeFrames(cpu);
    ok := pid in cpu.ram.tables;
    if ok {
      ByteOfAdds(free, Size(cpu.ram.tables[pid]), cpu.ram.pageSize);
      cpu.Finish(pid);
      assert Shown(cpu).memory == m.memory - {pid};
    }
  }

  method ServeStore(cpu: Processor, a: nat, size: nat, value: nat)
    requires cpu.build.Repaired? && cpu.Valid() && Admissible(Shown(cpu), Store(a, size, value))
    modifies cpu`tlb, cpu`spare, cpu.ram.bytes
    ensures cpu.Valid() && Step(cpu.ram.pageSize, old(Shown(cpu)), Store(a, size, value), Shown(cpu), Done)
  {
    hide Cached, Agree, Size, ByteOf, Bytes, Stored, Splice, Within;
    ghost var m := Shown(cpu);
    PutIff(cpu.build, cpu.ram.pageSize, a, size, value);
    var unread := cpu.MovOut(a, size, value);
    assert Shown(cpu).memory == Changed(m, a, Bytes(value, size)).memory;
  }

  method ServeLoad(cpu: Processor, a: nat, size: nat) returns (reply: Reply)
    requires cpu.build.Repaired? && cpu.Valid() && Admissible(Shown(cpu), Load(a, size))
    modifies cpu`tlb, cpu`spare
    ensures cpu.Valid() && Step(cpu.ram.pageSize, old(Shown(cpu)), Load(a, size), Shown(cpu), reply)
  {
    hide Cached, Agree, Size, ByteOf, Value;
    ghost var m := Shown(cpu);
    var value, unread := cpu.MovIn(a, size);
    reply := Answer(value);
    assert Shown(cpu).memory == m.memory;
  }

  method ServeCopy(cpu: Processor, si: nat, di: nat, n: nat) returns (ok: bool)
    requires cpu.build.Repaired? && cpu.Valid() && Reaches(Shown(cpu), si, n) && Reaches(Shown(cpu), di, n)
    modifies cpu`tlb, cpu`spare, cpu.ram.bytes
    ensures cpu.Valid() && (ok <==> Admissible(old(Shown(cpu)), Copy(si, di, n)))
    ensures ok ==> Step(cpu.ram.pageSize, old(Shown(cpu)), Copy(si, di, n), Shown(cpu), Done)
  {
    hide Cached, Agree, Size, ByteOf, Splice, NoneZero;
    ghost var m := Shown(cpu);
    ok := cpu.CopyString(si, di, n);
    if ok {
      assert Shown(cpu).memory == Changed(m, di, m.memory[m.running][si..si + n]).memory;
    }
  }

  /** Executes instructions up to the first the program is not prepared for. */
  method Serve(cpu: Processor, code: seq<Instruction>) returns (served: nat, replies: seq<Reply>,
                                                                ghost trace: seq<Machine>)
    requires cpu.build.Repaired? && cpu.Valid()
    modifies cpu`tlb, cpu`spare, cpu`pid, cpu`nextPid, cpu.ram`tables, cpu.ram`owner, cpu.ram.bitmap, cpu.ram.bytes
    ensures cpu.Valid() && served <= |code| && |trace| == served + 1 && trace[0] == old(Shown(cpu))
    ensures Run(cpu.ram.pageSize, trace, code[..served], replies)
    ensures if served < |code| then !Admissible(trace[served], code[served]) else trace[served] == Shown(cpu)
  {
    hide Step, Admissible, Run, Shown, Cached, Agree;
    served, replies, trace := 0, [], [Shown(cpu)];
    StartRun(cpu);
    assert code[..0] == [];
    while served < |code|
      invariant cpu.Valid() && served <= |code| && |trace| == served + 1
      invariant Run(cpu.ram.pageSize, trace, code[..served], replies)
      invariant trace[0] == old(Shown(cpu)) && trace[served] == Shown(cpu)
    {
      var ok, reply := ServeOne(cpu, code[served]);
      if !ok {
        return;
      }
      ExtendRun(cpu.ram.pageSize, trace, code[..served], replies, code[served], Shown(cpu), reply);
      trace, replies := trace + [Shown(cpu)], replies + [reply];
      assert code[..served + 1] == code[..served] + [code[served]];
      served := served + 1;
    }
  }

  lemma {:induction false} StartRun(cpu: Processor)
    requires cpu.Valid()
    ensures cpu.ram.pageSize > 0 && Run(cpu.ram.pageSize, [Shown(cpu)], [], [])
  {
    hide Agree;
  }

  lemma {:induction false} ExtendRun(pageSize: nat, trace: seq<Machine>, code: seq<Instruction>, replies: seq<Reply>,
                                     q: Instruction, m: Machine, reply: Reply)
    requires pageSize > 0 && Run(pageSize, trace, code, replies)
    requires |trace| == |code| + 1 && Admissible(trace[|code|], q) && Step(pageSize, trace[|code|], q, m, reply)
    ensures Run(pageSize, trace + [m], code + [q], replies + [reply])
  {
    hide Step, Admissible;
  }

  // -------------------------------------------------------- what runs keep

  /** The bytes of the processes numbered below n. */
  function Total(memory: map<nat, seq<Byte>>, n: nat): nat {
    if n == 0 then 0 else Total(memory, n - 1) + (if n - 1 in memory then |memory[n - 1]| else 0)
  }

  predicate Numbered(m: Machine) {
    forall p :: p in m.memory ==> p < m.next
  }

  lemma {:induction false} TotalPut(memory: map<nat, seq<Byte>>, p: nat, bytes: seq<Byte>, n: nat)
    ensures Total(memory[p := bytes], n)
         == Total(memory, n) + if p < n then |bytes| - (if p in memory then |memory[p]| else 0) else 0
  {
    if n > 0 {
      TotalPut(memory, p, bytes, n - 1);
    }
  }

  lemma {:induction false} TotalDrop(memory: map<nat, seq<Byte>>, p: nat, n: nat)
    requires p in memory
    ensures Total(memory - {p}, n) == Total(memory, n) - if p < n then |memory[p]| else 0
  {
    if n > 0 {
      TotalDrop(memory, p, n - 1);
    }
  }

  lemma {:induction false} StepConservesMemory(pageSize: nat, m: Machine, q: Instruction, m': Machine, reply: Reply)
    requires pageSize > 0 && Numbered(m) && Admissible(m, q) && Step(pageSize, m, q, m', reply)
    ensures Numbered(m') && m'.room + Total(m'.memory, m'.next) == m.room + Total(m.memory, m.next)
  {
    hide CommonPrefix, CeilDiv, ByteOf, NoneZero, Value, Bytes;
    match q
    case Spawn => TotalPut(m.memory, m.next, [], m.next + 1);
    case End(pid) => TotalDrop(m.memory, pid, m.next);
    case Resize(_) => TotalPut(m.memory, m.running, m'.memory[m.running], m.next);
    case Store(_, _, _) => TotalPut(m.memory, m.running, m'.memory[m.running], m.next);
    case Copy(_, _, _) => TotalPut(m.memory, m.running, m'.memory[m.running], m.next);
    case _ =>
  }

  /** No byte of memory is lost or given to two processes over any run: what the processes have
      and what is free make the same sum at every moment. */
  lemma {:induction false} RunsConserveMemory(pageSize: nat, trace: seq<Machine>, code: seq<Instruction>,
                                              replies: seq<Reply>, k: nat)
    requires pageSize > 0 && Run(pageSize, trace, code, replies) && k <= |code|
    ensures Numbered(trace[k])
    ensures trace[k].room + Total(trace[k].memory, trace[k].next)
            == trace[0].room + Total(trace[0].memory, trace[0].next)
  {
    hide Step, Admissible, Total;
    if k > 0 {
      RunsConserveMemory(pageSize, trace, code, replies, k - 1);
      StepConservesMemory(pageSize, trace[k - 1], code[k - 1], trace[k], replies[k - 1]);
    }
  }

  /** The instruction is none by which process p ends or works on its memory. */
  predicate LeavesAlone(m: Machine, q: Instruction, p: nat) {
    q != End(p) && (m.running == p ==> !q.Resize? && !q.Store? && !q.Copy?)
  }

  lemma {:induction false} StepLeavesAlone(pageSize: nat, m: Machine, q: Instruction, m': Machine, reply: Reply, p: nat)
    requires pageSize > 0 && Admissible(m, q) && Step(pageSize, m, q, m', reply) && p in m.memory &&
        LeavesAlone(m, q, p)
    ensures p in m'.memory && m'.memory[p] == m.memory[p]
  {
    hide CommonPrefix, CeilDiv, ByteOf, NoneZero, Value, Bytes, Splice;
  }

  /** Whatever the others store, move, resize or give back, a process finds its memory as it left it. */
  lemma {:induction false} OthersKeepMemory(pageSize: nat, trace: seq<Machine>, code: seq<Instruction>,
                                            replies: seq<Reply>, j: nat, k: nat, p: nat)
    requires pageSize > 0 && Run(pageSize, trace, code, replies) && j <= k <= |code| && p in trace[j].memory
    requires forall l :: j <= l < k ==> LeavesAlone(trace[l], code[l], p)
    ensures p in trace[k].memory && trace[k].memory[p] == trace[j].memory[p]
    decreases k
  {
    hide Step, Admissible, LeavesAlone;
    if j < k {
      OthersKeepMemory(pageSize, trace, code, replies, j, k - 1, p);
      StepLeavesAlone(pageSize, trace[k - 1], code[k - 1], trace[k], replies[k - 1], p);
    }
  }

  predicate Apart(a: nat, n: nat, b: nat, size: nat) {
    b + size <= a || a + n <= b
  }

  /** The instruction does not touch the n bytes of process p from a on. */
  predicate Spares(m: Machine, q: Instruction, p: nat, a: nat, n: nat) {
    && q != End(p)
    && (m.running == p ==> match q
        case Resize(size) => a + n <= size
        case Store(b, size, _) => Apart(a, n, b, size)
        case Copy(_, b, size) => Apart(a, n, b, size)
        case _ => true)
  }

  /** Process p has `bytes` from a on. */
  predicate Stands(m: Machine, p: nat, a: nat, bytes: seq<Byte>) {
    p in m.memory && a + |bytes| <= |m.memory[p]| && m.memory[p][a..a + |bytes|] == bytes
  }

  lemma {:induction false} StepSpares(pageSize: nat, m: Machine, q: Instruction, m': Machine, reply: Reply,
                                      p: nat, a: nat, bytes: seq<Byte>)
    requires pageSize > 0 && Admissible(m, q) && Step(pageSize, m, q, m', reply)
    requires Stands(m, p, a, bytes) && Spares(m, q, p, a, |bytes|)
    ensures Stands(m', p, a, bytes)
  {
    if LeavesAlone(m, q, p) {
      StepLeavesAlone(pageSize, m, q, m', reply, p);
    } else if q.Resize? {
      ResizeSpares(pageSize, m, q.size, m', reply, a, bytes);
    } else {
      var at, data := if q.Store? then q.a else q.di,
                      if q.Store? then Bytes(q.value, q.size) else m.memory[p][q.si..q.si + q.n];
      SpliceApart(m.memory[p], at, data, a, |bytes|);
    }
    hide CommonPrefix, CeilDiv, ByteOf, NoneZero, Value, Bytes, Splice;
  }

  lemma {:induction false} SpliceApart(memory: seq<Byte>, at: nat, data: seq<Byte>, a: nat, n: nat)
    requires at + |data| <= |memory| && a + n <= |memory| && Apart(a, n, at, |data|)
    ensures Splice(memory, at, data)[a..a + n] == memory[a..a + n]
  {
    forall k | a <= k < a + n ensures Splice(memory, at, data)[k] == memory[k] {
    }
  }

  lemma {:induction false} ResizeSpares(pageSize: nat, m: Machine, size: nat, m': Machine, reply: Reply, a: nat,
                                        bytes: seq<Byte>)
    requires pageSize > 0 && m.running in m.memory && Resized(pageSize, m, size, m', reply)
    requires Stands(m, m.running, a, bytes) && a + |bytes| <= size
    ensures Stands(m', m.running, a, bytes)
  {
    CeilDivBounds(size, pageSize);
    ByteOfIsProduct(CeilDiv(size, pageSize), pageSize);
    hide CeilDiv, ByteOf;
  }

  lemma {:induction false} RunSpares(pageSize: nat, trace: seq<Machine>, code: seq<Instruction>,
                                     replies: seq<Reply>, j: nat, k: nat, p: nat, a: nat, bytes: seq<Byte>)
    requires pageSize > 0 && Run(pageSize, trace, code, replies) && j <= k <= |code| && Stands(trace[j], p, a, bytes)
    requires forall l :: j <= l < k ==> Spares(trace[l], code[l], p, a, |bytes|)
    ensures Stands(trace[k], p, a, bytes)
    decreases k
  {
    hide Step, Admissible, Spares, Stands;
    if j < k {
      RunSpares(pageSize, trace, code, replies, j, k - 1, p, a, bytes);
      StepSpares(pageSize, trace[k - 1], code[k - 1], trace[k], replies[k - 1], p, a, bytes);
    }
  }

  /** What a process stores it loads again, whoever runs in between and whatever page splits,
      cache and resizing there are, as long as it leaves those bytes alone itself. */
  lemma {:induction false} LoadReturnsStored(pageSize: nat, trace: seq<Machine>, code: seq<Instruction>,
                                             replies: seq<Reply>, j: nat, k: nat, a: nat, size: nat, value: nat)
    requires pageSize > 0 && Run(pageSize, trace, code, replies) && j < k < |code|
    requires code[j] == Store(a, size, value) && code[k] == Load(a, size) && trace[j].running == trace[k].running
    requires value < Limit(size)
    requires forall l :: j < l < k ==> Spares(trace[l], code[l], trace[j].running, a, size)
    ensures replies[k] == Answer(value)
  {
    hide Spares, CeilDiv, ByteOf, NoneZero, Value, Bytes, Limit;
    assert Admissible(trace[j], code[j]) && Admissible(trace[k], code[k]);
    var p, bytes := trace[j].running, Bytes(value, size);
    assert Stands(trace[j + 1], p, a, bytes);
    RunSpares(pageSize, trace, code, replies, j + 1, k, p, a, bytes);
    LoadAfterStore(value, size);
    assert Step(pageSize, trace[k], code[k], trace[k + 1], replies[k]);
    assert a + |bytes| == a + size;
  }

  // ------------------------------------------------- what single instructions do

  /** A four-byte store puts down the digits of its value to base 256, lowest first, each of which
      a one-byte load finds. */
  lemma {:induction false} DigitIsLoaded(pageSize: nat, trace: seq<Machine>, code: seq<Instruction>,
                                         replies: seq<Reply>, j: nat, k: nat, a: nat, value: nat, i: nat)
    requires pageSize > 0 && Run(pageSize, trace, code, replies) && j < k < |code| && i < 4
    requires code[j] == Store(a, 4, value) && code[k] == Load(a + i, 1) && trace[j].running == trace[k].running
    requires forall l :: j < l < k ==> Spares(trace[l], code[l], trace[j].running, a, 4)
    ensures replies[k] == Answer(value / Weight(i) % 256)
  {
    hide Spares, CeilDiv, ByteOf, NoneZero, Value, Bytes, Weight;
    assert Admissible(trace[j], code[j]) && Admissible(trace[k], code[k]);
    var p, bytes := trace[j].running, Bytes(value, 4);
    assert Stands(trace[j + 1], p, a, bytes);
    RunSpares(pageSize, trace, code, replies, j + 1, k, p, a, bytes);
    assert Step(pageSize, trace[k], code[k], trace[k + 1], replies[k]);
    var memory := trace[k].memory[p];
    assert memory[a..a + 4][i] == bytes[i];
    assert memory[a + i..a + i + 1] == [bytes[i]];
    ValueOfOne(bytes[i]);
    BytesAreDigits(value, 4, i);
  }

  /** What was at the source of a move is found by a later load anywhere in the target, also when
      the two overlap. */
  lemma {:induction false} CopyIsLoaded(pageSize: nat, trace: seq<Machine>, code: seq<Instruction>,
                                        replies: seq<Reply>, j: nat, k: nat,
                                         si: nat, di: nat, n: nat, o: nat, size: nat)
    requires pageSize > 0 && Run(pageSize, trace, code, replies) && j < k < |code| && o + size <= n
    requires code[j] == Copy(si, di, n) && code[k] == Load(di + o, size) && trace[j].running == trace[k].running
    requires forall l :: j < l < k ==> Spares(trace[l], code[l], trace[j].running, di + o, size)
    ensures trace[j].running in trace[j].memory && si + n <= |trace[j].memory[trace[j].running]|
    ensures replies[k] == Answer(Value(trace[j].memory[trace[j].running][si + o..si + o + size]))
  {
    hide Spares, CeilDiv, ByteOf, NoneZero, Value, Bytes;
    assert Admissible(trace[j], code[j]) && Admissible(trace[k], code[k]);
    var p := trace[j].running;
    var memory := trace[j].memory[p];
    var bytes := memory[si + o..si + o + size];
    MovedInto(memory, di, memory[si..si + n], o, size);
    assert memory[si..si + n][o..o + size] == bytes;
    assert Stands(trace[j + 1], p, di + o, bytes);
    RunSpares(pageSize, trace, code, replies, j + 1, k, p, di + o, bytes);
    assert Step(pageSize, trace[k], code[k], trace[k + 1], replies[k]);
  }

  lemma {:induction false} MovedInto(memory: seq<Byte>, at: nat, data: seq<Byte>, o: nat, size: nat)
    requires at + |data| <= |memory| && o + size <= |data|
    ensures Splice(memory, at, data)[at + o..at + o + size] == data[o..o + size]
  {
  }

  /** A move or a store leaves every byte outside its target. */
  lemma {:induction false} OutsideStays(pageSize: nat, trace: seq<Machine>, code: seq<Instruction>, replies: seq<Reply>,
                                        k: nat, b: nat)
    requires pageSize > 0 && Run(pageSize, trace, code, replies) && k < |code| && (code[k].Store? || code[k].Copy?)
    requires var at, n := if code[k].Store? then code[k].a else code[k].di, if code[k].Store? then code[k].size
        else code[k].n;
             b < at || b >= at + n
    ensures var m, m', p := trace[k].memory, trace[k + 1].memory, trace[k].running;
            && p in m && p in m' && |m'[p]| == |m[p]| && (b < |m[p]| ==> m'[p][b] == m[p][b])
  {
    hide CeilDiv, ByteOf, NoneZero, Value, Bytes;
    assert Admissible(trace[k], code[k]) && Step(pageSize, trace[k], code[k], trace[k + 1], replies[k]);
  }

  /** RESIZE gives the least number of whole pages that holds the size, or all there is, and says
      which; what both sizes have in common stays. */
  lemma {:induction false} ResizedTo(pageSize: nat, trace: seq<Machine>, code: seq<Instruction>, replies: seq<Reply>,
                                     k: nat, size: nat)
    requires pageSize > 0 && Run(pageSize, trace, code, replies) && k < |code| && code[k] == Resize(size)
    ensures trace[k].running in trace[k].memory && trace[k].running in trace[k + 1].memory
    ensures var p := trace[k].running;
            var had, has := trace[k].memory[p], trace[k + 1].memory[p];
            && (replies[k] == Done ==> size <= |has| < size + pageSize && |has| % pageSize == 0)
            && (replies[k] != Done ==> replies[k] == OutOfMemory && |has| == |had| + trace[k].room)
            && (replies[k] == Done <==> RoundUp(size, pageSize) <= |had| + trace[k].room)
            && (forall b :: 0 <= b < |had| && b < |has| ==> has[b] == had[b])
  {
    assert Admissible(trace[k], code[k]) && Step(pageSize, trace[k], code[k], trace[k + 1], replies[k]);
    CeilDivBounds(size, pageSize);
    ByteOfIsProduct(CeilDiv(size, pageSize), pageSize);
    DivModUnique(CeilDiv(size, pageSize), 0, pageSize);
    hide CeilDiv, ByteOf, NoneZero, Value, Bytes;
  }

  /** Numbers of processes only go up. */
  lemma {:induction false} NumbersGoUp(pageSize: nat, trace: seq<Machine>, code: seq<Instruction>,
                                       replies: seq<Reply>, j: nat, k: nat)
    requires pageSize > 0 && Run(pageSize, trace, code, replies) && j <= k <= |code|
    ensures trace[j].next <= trace[k].next
    ensures forall p :: p < trace[j].next && p !in trace[j].memory ==> p !in trace[k].memory
    decreases k
  {
    if j < k {
      NumbersGoUp(pageSize, trace, code, replies, j, k - 1);
      assert Admissible(trace[k - 1], code[k - 1]) &&
          Step(pageSize, trace[k - 1], code[k - 1], trace[k], replies[k - 1]);
    }
    hide CeilDiv, ByteOf, NoneZero, Value, Bytes, Splice, CommonPrefix;
  }

  /** A new process has a number that none had before, and no memory. */
  lemma {:induction false} SpawnedIsNew(pageSize: nat, trace: seq<Machine>, code: seq<Instruction>,
                                        replies: seq<Reply>, k: nat)
    requires pageSize > 0 && Run(pageSize, trace, code, replies) && k < |code| && code[k] == Spawn
    ensures replies[k].Answer? && trace[k + 1].memory == trace[k].memory[replies[k].value := []]
    ensures forall j :: 0 <= j <= k ==> replies[k].value !in trace[j].memory
  {
    hide Admissible, Total;
    assert Step(pageSize, trace[k], code[k], trace[k + 1], replies[k]);
    forall j | 0 <= j <= k ensures replies[k].value !in trace[j].memory {
      NumbersGoUp(pageSize, trace, code, replies, j, k);
      RunsConserveMemory(pageSize, trace, code, replies, j);
    }
  }

  /** An ended process never comes back. */
  lemma {:induction false} EndedIsGone(pageSize: nat, trace: seq<Machine>, code: seq<Instruction>,
                                       replies: seq<Reply>, j: nat, k: nat, p: nat)
    requires pageSize > 0 && Run(pageSize, trace, code, replies) && j < k <= |code| && code[j] == End(p)
    ensures p in trace[j].memory && p !in trace[k].memory
  {
    hide Total;
    assert Admissible(trace[j], code[j]) && Step(pageSize, trace[j], code[j], trace[j + 1], replies[j]);
    RunsConserveMemory(pageSize, trace, code, replies, j);
    NumbersGoUp(pageSize, trace, code, replies, j + 1, k);
  }

  /** The process that runs is the one dispatched last. */
  lemma {:induction false} DispatchedRuns(pageSize: nat, trace: seq<Machine>, code: seq<Instruction>,
                                          replies: seq<Reply>, j: nat, k: nat, p: nat)
    requires pageSize > 0 && Run(pageSize, trace, code, replies) && j < k <= |code| && code[j] == Dispatch(p)
    requires forall l :: j < l < k ==> !code[l].Dispatch?
    ensures trace[k].running == p
    decreases k
  {
    assert Step(pageSize, trace[k - 1], code[k - 1], trace[k], replies[k - 1]);
    if j + 1 < k {
      DispatchedRuns(pageSize, trace, code, replies, j, k - 1, p);
    }
    hide Admissible, CeilDiv, ByteOf, NoneZero, Value, Bytes, Splice, CommonPrefix;
  }
}
