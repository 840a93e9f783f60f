# A verified model of the operating-system simulator

The repository simulates an operating system in four programs that talk over sockets: a kernel, a CPU,
a memory module and I/O interfaces, one of which is a file system. This project models the parts with
the most state and proves what they keep.

* **DialFS** (`DialFsLayout`, `DialFsCompaction`, `DialFsSpec`, `DialFs`, `DialFsRuns`): a bitmap, a FAT,
  metadata files and one block file. `FileSystem` has the operations, written over arrays and lists as
  the program has them. Bitmap, FAT and metadata agree after every operation; truncation succeeds
  exactly when all blocks fit; compaction keeps every file; any sequence of requests is what a plain
  map from names to bytes would show.
* **Memory and CPU** (`FrameTables`, `LogicalMemory`, `Splitting`, `RegisterAccess`, `Transfers`, `Memory`,
  `Tlb`, `Cpu`, `ProcessRuns`, `Interfaces`): frames, page tables, the translation cache, and ranges cut
  into pieces by one program and put together by another. Over any run of any number of processes each has
  a private byte array, and the cache is invisible except for speed.
* **Kernel** (`Queues`, `Resources`, `ResourceOwners`, `ResourceRaces`, `ResourceThreads`, `Scheduler`,
  `SchedulerSafety`, `SchedulerRuns`, `SchedulerOrder`, `SchedulerLife`, `SchedulerProgress`,
  `SchedulerAsWritten`, `Dispatch`, `Quantum`): counted resources and who has a claim to them; the threads
  and their semaphores in every interleaving, what the scheduler keeps, the way of each process through
  its states, in what order it is served, that nothing deadlocks, and exactly when it fails as written;
  the order of words on the dispatch socket, and the accounting of quanta.

`Arith`, `Bits` and `Sequences` hold what several of them share. `dafny verify dfyconfig.toml` verifies
the whole project. Every lemma turns automatic induction off, so that a proof rests on what its body says and on no
induction hypothesis that Dafny makes up.

## Where the program departs from its intent

Some lines do not do what the rest of the program relies on. `Builds` names two builds, `AsWritten` and
`Repaired`, and the operations concerned take the build as a parameter; their contracts say what the
repaired one achieves and exactly when the written one does.

| line | what it does | repaired |
|---|---|---|
| `entradasalida.c:600` | copies from the new place of a grown file to the old | the other way round |
| `entradasalida.c:634-637` | refuses a growth and leaves the file's bits cleared | sets them again |
| `entradasalida.c:482`, `:818` | counts 0 blocks for an empty file, which has one | counts 1 |
| `entradasalida.c:732-735` | caps a read by the length, not by what follows the offset | caps by that |
| `entradasalida.c:413-459` | does not look whether a new name is taken | stated: exactly when the structures still agree |
| `entradasalida.c:927` | passes over files called `bloques.dat` or `bitmap.dat` when mounting | stated: exactly when the FAT is whole |
| `memoria.c:343` | stores byte 1 of a register at every place after the first | stores byte i |
| `cpu.c:525` | rounds up the pages to take away | rounds down |
| `cpu.c:524-526` | keeps cached entries of pages taken away | drops them |
| `kernel.c:188-215` | kills a waiting process without undoing its WAIT | undoes it |
| `kernel.c:180-181` | kills a new process and leaves `semPLP` as it is | takes the unit |
| `kernel.c:309-314`, `:337` | loses a slot when a program does not load | gives it back |
| `kernel.c:436-440`, `:551-555`, `:688-692` | queues a process after SIGNAL with its label still RUNNING, so that killing it leaves `semPCP` as it is | labels it |
| `kernel.c:762-768` | pushes a process labelled READY_PLUS to `cREADY`, under the other queue's mutex | pushes it to `cREADY_PLUS` |
| `kernel.c:748-757`, `:786-794` | tests a resource's counter outside its mutex | operations are indivisible in `Resources`; `ResourceRaces` states which interleavings of one operation of each of two threads go wrong, `ResourceThreads` exactly when any number of operations of each do |

A truncation that is refused, or whose file does not exist, and a write that does not fit are answered
with success (`entradasalida.c:259-266`, `:309-311`, `:381`), and the map specification says so. The
message at `entradasalida.c:635` is passed to the logger in the wrong position; logging is not modelled.
`leer_fs` returns its buffer without a zero at the end (`entradasalida.c:738-741`), and the caller takes
it for a string (`:340`, `:349`). A kill that needs a unit of `semPCP` while the dispatcher has just
taken the last one waits for it with all mutexes locked (`kernel.c:179-211`).

## Model

| member | source | states |
|---|---|---|
| `DialFs.FileSystem.constructor` | utils/src/entradasalida/entradasalida.c:849-900 | A freshly formatted disk: no file, no bit set, bitmap, FAT and metadata in agreement |
| `DialFs.FileSystem.Create` | utils/src/entradasalida/entradasalida.c:413-459 | Succeeds exactly when a block is free; then the lowest free block is taken, the catalogue gains one empty file at its end, and the structures agree exactly when the name was new (the program does not look) |
| `DialFs.FileSystem.Delete` | utils/src/entradasalida/entradasalida.c:461-501 | Removes that file, its metadata and the bits counted, and no other; the structures still agree exactly when the ceiling at 482 is not 0, that is, unless the file is empty and the program as written |
| `DialFs.FileSystem.Truncate` | utils/src/entradasalida/entradasalida.c:503-694 | Refused exactly when the blocks of all files would not fit the disk, however scattered; repaired, a refusal changes nothing. Otherwise the file has the new length and every other file is as before, in either build; the common prefix is kept exactly when the file does not grow in blocks, or as `DialFs.FileSystem.Grow` says |
| `DialFs.FileSystem.Grow` | utils/src/entradasalida/entradasalida.c:565-694 | Which of three ends a growth has, exactly: leftmost run that is long enough with the own blocks counted free; else compaction and the place behind all others; else refusal. Other files keep their bytes in either build; the grown file keeps its own exactly when it is repaired, or placed after a compaction, or when its bytes survive the swapped copy. As written, exactly when compaction runs into a null pointer |
| `DialFs.FileSystem.Shrink` | utils/src/entradasalida/entradasalida.c:541-563 | Gives back exactly the last blocks, keeps the prefix, leaves other files alone |
| `DialFs.FileSystem.MoveTo` | utils/src/entradasalida/entradasalida.c:593-623 | The grown file at the run found by the scan: nobody else is disturbed in either build, and its bytes are there exactly when the copy kept them, which repaired it always does |
| `DialFs.FileSystem.CompactAndPlace` | utils/src/entradasalida/entradasalida.c:639-693 | The lifted file ends behind all others with its old bytes, and all other files keep theirs; as written, exactly when that fails |
| `DialFs.FileSystem.Compact` | utils/src/entradasalida/entradasalida.c:774-846 | Ends with the used blocks a prefix of the disk as long as the files need; every file on the disk keeps name, length, bytes and relative order; lifted entries are untouched; terminates although the scan moves back; as written it fails exactly when an empty file lies beyond a free block |
| `DialFs.FileSystem.SlideFound` | utils/src/entradasalida/entradasalida.c:796-838 | A set bit always finds its entry, unless an empty file has been moved as written |
| `DialFs.FileSystem.Slide` | utils/src/entradasalida/entradasalida.c:803-834 | One file to the hole: start, metadata file, bits and bytes, and nothing else |
| `DialFs.FileSystem.Write` | utils/src/entradasalida/entradasalida.c:696-719 | Refused exactly when it would run past the end of the file; otherwise one slice of one file is replaced |
| `DialFs.FileSystem.Read` | utils/src/entradasalida/entradasalida.c:721-742 | Returns what is left of the file from the offset, at most the count; as written, exactly when offset plus the capped count stays inside the file |
| `DialFs.FileSystem.Mount` | utils/src/entradasalida/entradasalida.c:915-946 | The FAT rebuilt from the metadata files is the old one up to order exactly when no file has one of the four names the walk passes over |
| `Bits.FirstFit` | utils/src/entradasalida/entradasalida.c:574-629 | Finds the leftmost run of the wanted length if there is one; if not, there is none and the count of free blocks is the true one |
| `Bits.FirstClear` | utils/src/entradasalida/entradasalida.c:657-659 | The first free block |
| `DialFsLayout.CountIsDemand` | utils/src/entradasalida/entradasalida.c:574-634 | The number of set bits is the number of blocks the files own |
| `DialFsLayout.Creating` | utils/src/entradasalida/entradasalida.c:416-452 | Exactly when creation keeps bitmap, FAT and metadata in agreement |
| `DialFsLayout.Deleting` | utils/src/entradasalida/entradasalida.c:482-495 | Freeing an extent and dropping its entry keeps the agreement |
| `DialFsLayout.LeakingBlock` | utils/src/entradasalida/entradasalida.c:482-487 | Dropping an entry without its block breaks the agreement |
| `DialFsLayout.AgreeOnlyWhole` | utils/src/entradasalida/entradasalida.c:917-946 | A FAT with some of the entries agrees with the bitmap exactly when it has them all |
| `DialFsLayout.Shrinking` | utils/src/entradasalida/entradasalida.c:541-558 | Clearing the last blocks of one extent and recording the new length keeps the agreement |
| `DialFsLayout.Placing` | utils/src/entradasalida/entradasalida.c:593-604 | Setting a free stretch and recording it as a lifted file puts that file back on the disk |
| `DialFsCompaction.ScanMeetsOneFile` | utils/src/entradasalida/entradasalida.c:796-803 | A set bit at the scan position is the start of exactly one entry, despite moved entries and the stale start of the lifted one |
| `DialFsCompaction.SlideBits` | utils/src/entradasalida/entradasalida.c:820-826 | Clearing the old bits and setting the new ones keeps bitmap and FAT in agreement even when they overlap, and keeps the order of the files |
| `DialFsCompaction.SlideBytes` | utils/src/entradasalida/entradasalida.c:828-832 | The buffered copy leaves what every file reads alone, even when old and new place overlap |
| `DialFsCompaction.KeptSliding` | utils/src/entradasalida/entradasalida.c:795-836 | One turn of the loop keeps all of its invariant |
| `DialFsCompaction.EmptySlideTraps` | utils/src/entradasalida/entradasalida.c:818-835 | Moving an empty file with a count of 0 blocks strands its bit, which no entry starts at |
| `DialFsCompaction.HoleAtEnd` | utils/src/entradasalida/entradasalida.c:655-664 | After a compaction the free blocks are one run at the end, long enough for the lifted file |
| `DialFsSpec.SwappedGrowth` | utils/src/entradasalida/entradasalida.c:600 | Growing with the copy swapped, every other file reads as before, and this one keeps its prefix exactly when its bytes read at the new place, after the copy, as they did at the old one before |
| `DialFsSpec.SwappedGrowthIff` | utils/src/entradasalida/entradasalida.c:600 | Growing like that keeps all files, whatever the disk holds, exactly when there is nothing to move: an empty file, or one that stays in place |
| `DialFsSpec.SwappedCopyGoesBack` | utils/src/entradasalida/entradasalida.c:600 | As written the old place receives what the new one holds, and no other byte of the disk changes |
| `DialFsSpec.WritingSplices` | utils/src/entradasalida/entradasalida.c:718 | Writing inside an extent replaces one slice of one file |
| `DialFsSpec.ReadAtIff` | utils/src/entradasalida/entradasalida.c:732-740 | Exactly when the capped read returns what was meant |
| `DialFsSpec.ReadsOn` | utils/src/entradasalida/entradasalida.c:732-740 | Otherwise, as written, it returns as many bytes of the disk from there, whoever they belong to, or fails at the end of the disk |
| `DialFsSpec.CapacityIsDemand` | utils/src/entradasalida/entradasalida.c:528-538 | The blocks the files of the catalogue need are the blocks the FAT owns |
| `DialFsSpec.RebuiltIff` | utils/src/entradasalida/entradasalida.c:917-946 | Exactly when the rebuilt FAT is the old one |
| `DialFsRuns.Serve` | utils/src/entradasalida/entradasalida.c:221-384 | Any sequence of requests, up to the first the program is not prepared for, is a run of the catalogue of files |
| `DialFsRuns.ServeOne` | utils/src/entradasalida/entradasalida.c:237-381 | One request does to the catalogue what its specification says, and gets the reply the program sends; one the program is not prepared for is recognised and changes nothing |
| `DialFsRuns.AdmissibleIff` | utils/src/entradasalida/entradasalida.c:221-384 | What the program is prepared for: to create a file that is not there, to truncate any, to do the rest to one that is |
| `DialFsRuns.StepIsMapStep` | utils/src/entradasalida/entradasalida.c:413-742 | A step of the catalogue is a step of a plain map from names to bytes and a count of blocks for what fits |
| `DialFsRuns.RunsRefineMap` | utils/src/entradasalida/entradasalida.c:413-742 | Every run of the file system is a run of that map |
| `DialFsRuns.CreatedIff` | utils/src/entradasalida/entradasalida.c:237-249 | In every run a file is created, empty, and success answered, exactly when the blocks of all files leave one over; otherwise nothing changes and failure is answered |
| `DialFsRuns.TruncatedIff` | utils/src/entradasalida/entradasalida.c:259-266 | A file has the size asked for exactly when the blocks of all files then fit; the bytes common to both sizes stay, and all other files; success is answered in every case, also when there is no such file |
| `DialFsRuns.DeletedIsGone` | utils/src/entradasalida/entradasalida.c:251-257 | The deleted file is gone and no other |
| `DialFsRuns.WrittenBytes` | utils/src/entradasalida/entradasalida.c:696-719 | Byte by byte: the data when it ends inside the file, nothing of it when it does not; success is answered in either case |
| `DialFsRuns.ReadBytes` | utils/src/entradasalida/entradasalida.c:721-742 | Byte by byte, also for a read that reaches past the end or begins there |
| `DialFsRuns.OthersKeepFile` | utils/src/entradasalida/entradasalida.c:503-694 | Through any stretch of a run that does not address it a file keeps its bytes, whatever is truncated and compacted around it |
| `DialFsRuns.ReadReturnsWritten` | utils/src/entradasalida/entradasalida.c:696-742 | A read returns what was last written there |
| `FrameTables.Granting` | utils/src/memoria/memoria.c:233-241 | A free frame handed to the next page of a process: each used frame still holds exactly one page of one process |
| `FrameTables.TakingBack` | utils/src/memoria/memoria.c:275-280 | The last page gives its frame back: the same |
| `FrameTables.ReleaseOne` | utils/src/memoria/memoria.c:396-397 | The same while a process is taken down |
| `FrameTables.RoomInTable` | utils/src/memoria/memoria.c:238 | While a frame is free no page table is full, so the table is never overrun |
| `FrameTables.FramesApart` | utils/src/memoria/memoria.c:205-255 | No frame serves two processes |
| `FrameTables.OnePageInUse` | utils/src/memoria/memoria.c:205-283 | A frame's bit is set exactly when a page of a live process lies in it, and then it is one page of one process |
| `FrameTables.PuttingIsPrivate` | utils/src/memoria/memoria.c:320-381 | Bytes put at the places of a range of one process change that range of its memory and nobody else's |
| `FrameTables.KeptPagesKeepBytes` | utils/src/memoria/memoria.c:223-283 | Two tables that begin with the same pages show the same bytes there |
| `Memory.Ram.constructor` | utils/src/memoria/memoria.c:138-163 | All frames free, no process |
| `Memory.Ram.NewProcess` | utils/src/memoria/memoria.c:205-211 | A new process has no page |
| `Memory.Ram.FindFrame` | utils/src/memoria/memoria.c:245-255 | The lowest free frame, taken; -1 exactly when there is none |
| `Memory.Ram.PageCount` | utils/src/memoria/memoria.c:262-268 | The number of present pages, which form a prefix of the table |
| `Memory.Ram.AddPages` | utils/src/memoria/memoria.c:223-243 | Succeeds exactly when enough frames are free; if not, all free frames have gone to the process; earlier pages keep their frames |
| `Memory.Ram.RemovePages` | utils/src/memoria/memoria.c:270-283 | Exactly the last pages go, their frames are free again, the others keep theirs |
| `Memory.Ram.FreeProcess` | utils/src/memoria/memoria.c:391-402 | Every frame the process had is free again, also after a growth that ran out of memory |
| `Memory.Ram.ReadRegister` | utils/src/memoria/memoria.c:285-318 | The value at the places of the access, taking exactly the further addresses those need |
| `Memory.Ram.WriteRegister` | utils/src/memoria/memoria.c:320-347 | The bytes put at those places; as written, the second byte at every place after the first |
| `Memory.Ram.ReadString` | utils/src/memoria/memoria.c:349-365 | The concatenation of the pieces named |
| `Memory.Ram.WriteString` | utils/src/memoria/memoria.c:367-381 | The buffer spread over the pieces; goes wrong exactly when it is shorter than they are |
| `Memory.Ram.LoadRange` | utils/src/memoria/memoria.c:349-365 | For the words of a range of a process: that range of its memory |
| `Memory.Ram.StoreRange` | utils/src/memoria/memoria.c:367-381 | For the words of a range: the range is replaced, no other byte of any process changes |
| `LogicalMemory.PhysInjective` | utils/src/cpu/cpu.c:15-82 | Distinct logical addresses lie at distinct places |
| `LogicalMemory.GatherIsSlice` | utils/src/memoria/memoria.c:349-365 | Reading the places of a range reads that range of the logical memory |
| `LogicalMemory.ScatterIsSplice` | utils/src/memoria/memoria.c:367-381 | Writing them replaces that range |
| `LogicalMemory.ScatterElsewhere` | utils/src/memoria/memoria.c:367-381 | and nothing of a process with other frames |
| `Splitting.SplitCovers` | utils/src/cpu/cpu.c:376-400 | The pieces cover the range byte for byte, in order |
| `Splitting.PiecesInsidePages` | utils/src/cpu/cpu.c:376-400 | No piece reaches over the end of its frame |
| `Splitting.SplitSizes` | utils/src/cpu/cpu.c:551-574 | Number and sizes of the pieces are those the program computes: room on the first page, whole pages, and a rest that is a whole page when the remainder is 0 |
| `Splitting.AlignedSplit` | utils/src/cpu/cpu.c:391-396 | From a page start the pieces are whole pages and a rest |
| `Splitting.PieceAt` | utils/src/cpu/cpu.c:395-396 | The page translated in turn i is the one of piece i + 1 |
| `Splitting.PieceWords` | utils/src/cpu/cpu.c:537-574 | The words sent are count, then size and place of each piece |
| `Splitting.Relay` | utils/src/entradasalida/entradasalida.c:159-190 | An interface that recomputes the room from the physical address sends the words the CPU would have sent |
| `RegisterAccess.WalkCovers` | utils/src/memoria/memoria.c:303-314 | Taking the next word at every page start visits exactly the places of the range and takes every word that was sent |
| `RegisterAccess.LoadAfterStore` | utils/src/memoria/memoria.c:285-347 | Bytes of a value give the value back |
| `RegisterAccess.BytesAreDigits` | utils/src/memoria/memoria.c:285-347 | The bytes of a value are its digits to base 256, lowest first, whatever the width |
| `RegisterAccess.ValueIsSum` | utils/src/memoria/memoria.c:285-347 | The value of bytes is their sum, each with its place value |
| `RegisterAccess.StoredIff` | utils/src/memoria/memoria.c:343 | The bytes stored as written are right exactly when the three high bytes are equal |
| `RegisterAccess.StoredAsWritten` | utils/src/memoria/memoria.c:343 | As written every place after the first gets byte 1 |
| `Transfers.AccessCovers` | utils/src/cpu/cpu.c:453-477 | A register access visits the places of its bytes, whatever the page size and offset |
| `Transfers.PutIff` | utils/src/memoria/memoria.c:325-345 | Exactly when a store puts down the bytes of the register |
| `Transfers.LoadAfterPut` | utils/src/memoria/memoria.c:285-347 | A register stored and loaded again has its value; as written exactly when it lies in one page or its high bytes are equal |
| `Transfers.SentWhole` | utils/src/sockets/sockets.c:169-187 | A buffer sent as a string arrives whole exactly when no byte before its last is zero |
| `Transfers.CString` | utils/src/sockets/sockets.c:169-187 | What C takes for a string: the bytes up to the first zero, all of them when there is none |
| `Tlb.RecencyIsByLastUse` | utils/src/cpu/cpu.c:53-62 | The recency list has each used key once, by the time of its last use |
| `Tlb.LruIsMostRecent` | utils/src/cpu/cpu.c:53-95 | Under LRU the queue is the end of that list, as long as the capacity: the most recently used keys in order of last use |
| `Tlb.LruInclusion` | utils/src/cpu/cpu.c:53-95 | What a smaller LRU cache holds a larger one holds |
| `Tlb.LruHitsMonotone` | utils/src/cpu/cpu.c:53-95 | A larger LRU cache never has fewer hits on the same accesses |
| `Tlb.FifoIsLoadOrder` | utils/src/cpu/cpu.c:84-95 | Under FIFO the queue holds the latest loads in load order |
| `Tlb.TouchKeepsSound` | utils/src/cpu/cpu.c:53-95 | No key twice, never more than the capacity |
| `Tlb.HitMoves` | utils/src/cpu/cpu.c:56-59 | Removing the entry and pushing it moves its key to the back |
| `Tlb.MissLoads` | utils/src/cpu/cpu.c:84-95 | With room or without, the new key is at the back and the oldest leaves a full queue |
| `Tlb.PurgeKeepsOrder` | utils/src/cpu/cpu.c:524-526 | Dropping entries of pages taken away leaves the others in their order |
| `Cpu.HitKeeps` | utils/src/cpu/cpu.c:53-62 | A hit keeps every cached entry in agreement with the page tables |
| `Cpu.LoadKeeps` | utils/src/cpu/cpu.c:64-95 | So does a load |
| `Cpu.ResizingKeeps` | utils/src/memoria/memoria.c:270-283 | After pages are taken away the cache agrees exactly when it holds none of them |
| `Cpu.PurgingKeeps` | utils/src/cpu/cpu.c:524-526 | Dropping those entries keeps the agreement |
| `Cpu.PagesMove` | utils/src/cpu/cpu.c:524-529 | The pages taken away or added lead to the pages meant: the ceiling of the size, or as written when shrinking its quotient |
| `Cpu.AnswersIff` | utils/src/cpu/cpu.c:53-62 | A cached entry gives the page table's answer for every address of its page exactly when it agrees with the page table |
| `Cpu.Processor.constructor` | cpu/src/main.c:61-64 | Empty cache with all its room to spare |
| `Cpu.Processor.Mmu` | utils/src/cpu/cpu.c:15-82 | With any capacity and policy the answer is the page table's, or -1 for a page that is absent; and what the access does to the queue |
| `Cpu.Processor.TranslateAll` | utils/src/cpu/cpu.c:15-95 | Any sequence of accesses by any processes: every answer is the page table's, and the queue is what the policy keeps of the whole trace, so that what is stated of such queues under `Tlb` holds of this one |
| `Cpu.Processor.Ask` | utils/src/memoria/memoria.c:213-221 | The frame of a present page, or -1 |
| `Cpu.Processor.Hit` | utils/src/cpu/cpu.c:53-62 | The cached frame is the page table's |
| `Cpu.Processor.Load` | utils/src/cpu/cpu.c:84-95 | The new entry at the back, in agreement |
| `Cpu.Processor.Dispatch` | cpu/src/main.c:69-72 | Another process runs, the cache is kept and stays right |
| `Cpu.Processor.Create` | utils/src/kernel/kernel.c:155-172 | A process number that was never used, and its successor is next |
| `Cpu.Processor.Finish` | utils/src/memoria/memoria.c:391-402 | The process leaves; its frames are free; cached entries of others stay right |
| `Cpu.Processor.Resize` | utils/src/cpu/cpu.c:518-532 | Pages afterwards: the ceiling of the size, or all there are when memory runs out; as written the quotient when shrinking. Surviving pages keep their frames, the memory its common prefix, and other processes theirs whole. The cache stays right exactly when it is repaired or held none of the pages taken |
| `Cpu.Processor.Place` | utils/src/cpu/cpu.c:15-82 | Translation of an address the process has |
| `Cpu.Processor.SplitAddresses` | utils/src/cpu/cpu.c:376-400 | The addresses sent are the places of the pieces, one for each |
| `Cpu.Processor.RangeWords` | utils/src/cpu/cpu.c:534-574 | The words that name a range |
| `Cpu.Processor.MovOut` | utils/src/cpu/cpu.c:483-516 | The register's bytes are in the running process's memory at the address, no other byte of it or of another process changes, and the memory module has read all that was sent |
| `Cpu.Processor.MovIn` | utils/src/cpu/cpu.c:449-481 | The value of the bytes there; all that was sent has been read |
| `Cpu.Processor.CopyString` | utils/src/cpu/cpu.c:534-613 | The former bytes of the source are at the target, all others unchanged, whatever the page splits and overlap; it goes wrong exactly when a byte before the last is zero |
| `ProcessRuns.Serve` | utils/src/cpu/cpu.c:449-613 | Any sequence of instructions and dispatches of any number of processes, up to the first the program is not prepared for, is a run on private byte strings |
| `ProcessRuns.ServeOne` | utils/src/cpu/cpu.c:449-613 | One of them does to the byte strings what its specification says and answers accordingly; exactly those the program is not prepared for are recognised |
| `ProcessRuns.AdmissibleIff` | utils/src/cpu/cpu.c:449-613 | What the program is prepared for, by the page tables: live processes to dispatch and to end, and for the running one any size and the addresses it has |
| `ProcessRuns.MovableIff` | utils/src/cpu/cpu.c:534-613 | And strings without a zero before their last byte to move, between ranges it has |
| `ProcessRuns.ServeResize` | utils/src/cpu/cpu.c:518-532 | RESIZE in bytes: the size in whole pages, or all that was free when that is not enough; the common prefix stays; the free bytes make up the difference |
| `ProcessRuns.RunsConserveMemory` | utils/src/memoria/memoria.c:205-402 | Over any run the bytes of all processes and the free ones make the same sum at every moment |
| `ProcessRuns.OthersKeepMemory` | utils/src/memoria/memoria.c:205-402 | A process finds its memory as it left it, whatever the others store, move, resize or give back |
| `ProcessRuns.LoadReturnsStored` | utils/src/cpu/cpu.c:449-516 | What a process stores at an address it loads again later, whatever runs in between and whatever page splits, cache and resizing there are, as long as it does not touch those bytes itself |
| `ProcessRuns.DigitIsLoaded` | utils/src/cpu/cpu.c:449-516 | A one-byte load finds the digit of a four-byte store that lies there |
| `ProcessRuns.CopyIsLoaded` | utils/src/cpu/cpu.c:534-613 | A load anywhere in the target of a move finds what was at the source, also when the two overlap |
| `ProcessRuns.OutsideStays` | utils/src/cpu/cpu.c:483-613 | A store or a move leaves every byte outside its target |
| `ProcessRuns.ResizedTo` | utils/src/cpu/cpu.c:518-532 | RESIZE gives the least number of whole pages that holds the size, or all there is and OUT OF MEMORY, exactly when that is not enough; what both sizes have in common stays |
| `ProcessRuns.SpawnedIsNew` | utils/src/kernel/kernel.c:155-172 | A new process has a number that none had before in the run, and no memory |
| `ProcessRuns.EndedIsGone` | utils/src/memoria/memoria.c:391-402 | A process that has ended is never there again |
| `ProcessRuns.DispatchedRuns` | cpu/src/main.c:69-72 | The process that runs is the one dispatched last |
| `Interfaces.StdinRead` | utils/src/entradasalida/entradasalida.c:79-119 | What was typed is in the memory of the blocked process |
| `Interfaces.StdoutWrite` | utils/src/entradasalida/entradasalida.c:158-195 | What is printed is the bytes there up to the first zero, or all of them when there is none |
| `Interfaces.FsWrite` | utils/src/entradasalida/entradasalida.c:268-319 | The string there goes into the file at the offset, or nowhere when it does not fit |
| `Resources.ResourceManager.Wait` | utils/src/kernel/kernel.c:742-780 | WAIT: with an instance free the process has it and is sent to a ready queue; otherwise it is last in the queue of that resource, and holds nothing new |
| `Resources.ResourceManager.Free` | utils/src/kernel/kernel.c:783-816 | One release: counter, then the first of the queue |
| `Resources.ResourceManager.Signal` | utils/src/kernel/kernel.c:422-440 | SIGNAL, also by a process that does not hold the resource: the first waiter is sent to a ready queue, and then the signaller |
| `Resources.ResourceManager.Reap` | utils/src/kernel/kernel.c:347-361 | All a process holds goes back, in order |
| `Resources.ResourceManager.KillBlocked` | utils/src/kernel/kernel.c:188-215 | A waiting process leaves its queue; repaired, its wait is undone |
| `Resources.ResourceManager.FindResource` | utils/src/kernel/kernel.c:733-740 | The first resource of that name, or -1 |
| `Resources.ResourceManager.constructor` | utils/src/kernel/kernel.c:28-40 | Every resource has its configured instances |
| `Resources.ResourceManager.Enter` | utils/src/kernel/kernel.c:158-163 | A new process holds nothing |
| `Resources.StepConserves` | utils/src/kernel/kernel.c:742-816 | Free, held and waited-for instances change by a non-holder's SIGNAL and by a kill as written, and by nothing else |
| `Resources.RunsConserve` | utils/src/kernel/kernel.c:742-816 | Over any run of either build they are the initial ones plus the former less the latter |
| `Resources.StepExactIff` | utils/src/kernel/kernel.c:188-215 | The counter says how many wait, after every step but a kill as written, and never after one |
| `Resources.RunsStayOrderly` | utils/src/kernel/kernel.c:742-816 | With indivisible operations nobody ever waits while an instance is free; without kills as written the counter is exact at every moment |
| `Resources.GrantedInTurn` | utils/src/kernel/kernel.c:783-816 | The process k places from the front waits through exactly k releases |
| `Resources.WaitsItsTurn` | utils/src/kernel/kernel.c:742-816 | The same over whole runs: still waiting, k fewer places from the front, or granted and sent to a ready queue |
| `Resources.RunIsActs` | utils/src/kernel/kernel.c:742-816 | What a run does to one resource is a sequence of requests and releases |
| `ResourceOwners.StepKeepsPresent` | utils/src/kernel/kernel.c:422-440 | After a WAIT or a SIGNAL for a resource there is, its process is once more in a ready queue or in the queue of a resource; no event moves anybody else into or out of these, but for a kill |
| `ResourceOwners.NobodyIsLost` | utils/src/kernel/kernel.c:742-816 | So over any run of either build: nobody that came back is missing or there twice |
| `ResourceOwners.StepClaims` | utils/src/kernel/kernel.c:347-361 | What a process holds or waits for changes by its own events only, by one at a time; at its end it holds nothing |
| `ResourceOwners.ClaimsAreOnesOwn` | utils/src/kernel/kernel.c:742-816 | The same over any run, whoever is granted, killed or ends meanwhile |
| `ResourceOwners.ReleasesInOrder` | utils/src/kernel/kernel.c:355-357 | At its end a process gives back in the order of its list |
| `Queues.TakenOutKeepsOrder` | utils/src/kernel/kernel.c:188-215 | Taking a process out of a queue leaves the others in their order |
| `ResourceRaces.WaitAgainstRelease` | utils/src/kernel/kernel.c:748-757 | Of all interleavings of one WAIT with one release exactly one family leaves the counter wrong: none free, tested by the waiter, given back and found no waiter, then queued |
| `ResourceRaces.ReleaseAgainstRelease` | utils/src/kernel/kernel.c:786-794 | Of one release against another: exactly when one process waits and both counters move before both tests |
| `ResourceRaces.StrandedForever` | utils/src/kernel/kernel.c:742-816 | After that somebody waits for ever, if the operations that follow do not overlap |
| `ResourceThreads.RunsConserveIdle` | utils/src/kernel/kernel.c:742-816 | Dispatcher and burier with any number of operations each, in every interleaving of their steps: no instance is lost from the counter or counted twice |
| `ResourceThreads.InOrderThroughoutIff` | utils/src/kernel/kernel.c:786-796 | At every moment of a run no instance is promised twice and nobody is left waiting beside an idle one, exactly when no release decides wrongly: to serve a waiter when the instance it gave back has been granted meanwhile, or not to when one waits for whom there is one. The test of a WAIT is never at fault |
| `ResourceThreads.FaultlessRunsAreExact` | utils/src/kernel/kernel.c:742-816 | Then the counter says, between operations, how many wait |
| `ResourceThreads.InOrderIsSafe` | utils/src/kernel/kernel.c:790-792 | And nobody is popped from an empty queue, nor more granted than there are |
| `ResourceThreads.GrantsTwice` | utils/src/kernel/kernel.c:786-796 | A run as written that ends with one instance granted to two processes: given back, granted and waited for again between the burier's unlock and its test |
| `ResourceThreads.ServesTwice` | utils/src/kernel/kernel.c:790-792 | A run as written in which both threads set out to serve the one waiter, so that the second pops an empty queue |
| `ResourceThreads.OneAtATimeIsAtomic` | utils/src/kernel/kernel.c:742-816 | Operations that do not overlap have no fault and do what the indivisible ones of `Resources` do |
| `SchedulerSafety.StepPlaces` | utils/src/kernel/kernel.c:302-361 | No step of any thread puts a process into two places or loses one, or leaves it with a label that does not fit |
| `SchedulerSafety.StepCounts` | utils/src/kernel/kernel.c:302-322 | Every step keeps: each semaphore, its owed posts and the unit taken before a pop equal its queue and the surplus; slots, processes let in and lost slots add up to the degree |
| `SchedulerSafety.KillCounts` | utils/src/kernel/kernel.c:174-215 | So does a kill |
| `SchedulerSafety.PopCounts` | utils/src/kernel/kernel.c:305-307 | A pop that finds nothing means a surplus |
| `SchedulerSafety.NoSurplus` | utils/src/kernel/kernel.c:174-215 | Repaired, there is none, and no slot is lost |
| `SchedulerSafety.StepKeepsInv` | utils/src/kernel/kernel.c:302-720 | Every step of every thread under each of the three policies keeps the invariant |
| `SchedulerRuns.RunsAreSafe` | utils/src/kernel/kernel.c:302-720 | Repaired, in every interleaving no queue is popped empty, each process is in exactly one place, and it is labelled running exactly while the dispatcher has it; for the program as written see `SchedulerAsWritten` |
| `SchedulerRuns.AtRest` | utils/src/kernel/kernel.c:302-361 | Repaired, with nothing owed the semaphores are the lengths of their queues and the free slots the degree less the processes let in |
| `SchedulerRuns.DegreeFollows` | utils/src/kernel/kernel.c:259-270 | The degree in force is the configured one plus what the console has raised it by |
| `SchedulerOrder.RunsKeepOrder` | utils/src/kernel/kernel.c:302-720 | In every queue, over any run without kills, processes are popped in the order in which they came and nobody is passed over |
| `SchedulerOrder.PlusGoesFirst` | utils/src/kernel/kernel.c:595-611 | Under the virtual round robin nobody is taken from the plain queue before everybody who was in the preferred one |
| `SchedulerOrder.NextIff` | utils/src/kernel/kernel.c:762-768 | Who comes back from I/O, a WAIT or a SIGNAL is dispatched next after those already preferred, in every continuation without kills. As written this fails for a granted WAIT exactly when any other process has been let in, wherever it is: some continuation then dispatches that one first |
| `SchedulerLife.StepFollowsArrow` | utils/src/kernel/kernel.c:302-720 | Each step of a thread moves its process along an arrow of the diagram of process states |
| `SchedulerLife.OthersStay` | utils/src/kernel/kernel.c:302-720 | And nobody else anywhere |
| `SchedulerLife.ArrowsAreOpen` | utils/src/kernel/kernel.c:302-720 | Every arrow out of a place can be taken by the thread that has the process there; only the end of a quantum does not exist under FIFO |
| `SchedulerLife.StepLabels` | utils/src/kernel/kernel.c:302-720 | The label of the process moved, and nobody else's, is that of where it comes to, but as written RUNNING after a SIGNAL |
| `SchedulerLife.LivesFollowDiagram` | utils/src/kernel/kernel.c:302-720 | In every interleaving, build and policy the life of each process is a path through the diagram |
| `SchedulerLife.ServedFirst` | utils/src/kernel/kernel.c:639-661 | A process that has asked for I/O runs again only when it has been served with success, one that waits for a resource only when it has been granted it |
| `SchedulerLife.LoadedFirst` | utils/src/kernel/kernel.c:302-322 | A new process runs only when its program has been loaded |
| `SchedulerLife.EndedForever` | utils/src/kernel/kernel.c:335-361 | A process that has ended never runs again |
| `SchedulerLife.BackOfLine` | utils/src/kernel/kernel.c:694-706 | A process whose quantum is used up, or whose program has just been loaded, is not dispatched before everybody who was in the plain queue then and everybody who was in the preferred one, in any run that kills neither; the same for whoever comes back under FIFO and round robin, and for a granted WAIT as written |
| `SchedulerProgress.NoDeadlock` | utils/src/kernel/kernel.c:302-720 | From wherever a run of the repaired kernel has led, the threads can bring every process to its end, leaving all queues empty and all slots free, as long as the degree of multiprogramming is not 0 |
| `SchedulerAsWritten.TallyFollows` | utils/src/kernel/kernel.c:174-215 | What the invariant's bookkeeping holds is what can be counted in the run: changes of the degree, loads that failed, and the two kinds of harmful kill |
| `SchedulerAsWritten.HarmlessRunsAreSafe` | utils/src/kernel/kernel.c:174-215 | As written no queue is popped empty either, unless a process was killed that was new, or queued after a SIGNAL |
| `SchedulerAsWritten.CrashFollowsIff` | utils/src/kernel/kernel.c:174-215 | After any run from the start, some continuation without kills pops an empty queue, exactly when the run has made such a kill |
| `SchedulerAsWritten.DispatcherCrashes` | utils/src/kernel/kernel.c:595-611 | With a unit too many in its semaphore the dispatcher can always be driven to pop an empty queue |
| `SchedulerAsWritten.PlannerCrashes` | utils/src/kernel/kernel.c:302-309 | So can the planner |
| `SchedulerAsWritten.NewIsKilled` | utils/src/kernel/kernel.c:180-181 | A run that makes the first kind of kill |
| `SchedulerAsWritten.SignallerIsKilled` | utils/src/kernel/kernel.c:436-440 | A run that makes the second |
| `SchedulerAsWritten.AtRestAsWritten` | utils/src/kernel/kernel.c:302-361 | As written, at rest each semaphore is ahead of its queue by the kills that harmed it, and the slots are the degree less the processes let in and less the loads that failed |
| `SchedulerAsWritten.AdmitsIff` | utils/src/kernel/kernel.c:309-314 | Another process can be let in before the degree is raised exactly when fewer loads have failed than the degree allows; after a harmful kill the attempt may pop an empty queue instead |
| `SchedulerAsWritten.AllFail` | utils/src/kernel/kernel.c:309-314 | A run that loses every slot, one program after the other failing to load |
| `SchedulerAsWritten.StepAstrayIff` | utils/src/kernel/kernel.c:436-440 | After a step exactly those are labelled running without being with the dispatcher who have just signalled, or were so before and were neither picked nor killed |
| `SchedulerAsWritten.AstrayIff` | utils/src/kernel/kernel.c:302-720 | At every moment of a run, exactly those who have signalled and have been neither picked nor killed since |
| `Dispatch.DrainInterrupts` | cpu/src/main.c:78-100 | A kill overrides what the instruction asked for; the end of a quantum counts only when it asked for nothing; other processes' interrupts count for nothing |
| `Dispatch.StepKeepsInv` | utils/src/kernel/kernel.c:639-661 | At every moment the words sent and not yet read are those the two readers still expect |
| `Dispatch.RunsAreOrderly` | utils/src/kernel/kernel.c:846-861 | In every interleaving the spawned thread has the whole vector before the dispatcher reads again, no reader ever meets a word meant for another, and nothing is left over |
| `Dispatch.OneThreadForIo` | utils/src/kernel/kernel.c:639-661 | Whenever the dispatcher is ready for the next process, exactly one thread has been spawned for the last one if it asked for I/O, and has taken as many addresses as announced, and none otherwise |
| `Dispatch.NeverStuck` | utils/src/kernel/kernel.c:846-861 | From every state that can arise it gets there: no turn of the mutex locks it out for good |
| `Dispatch.WithoutWaiting` | utils/src/kernel/kernel.c:656-660 | Without the second lock the dispatcher can take an address for an exit reason |
| `Quantum.ElapsedIsClose` | utils/src/kernel/kernel.c:723-724 | Never negative, and within a millisecond of the truth: rounded down when the nanoseconds have grown, up when they have wrapped |
| `Quantum.Process.Charge` | utils/src/kernel/kernel.c:723-729 | The quantum less the elapsed time, not below 0 |
| `Quantum.LeftIsFullLessSpent` | utils/src/kernel/kernel.c:640-698 | Over any run of returns the quantum left is the full one less the time since the last recharge, not below 0 |
| `Quantum.SpentIsClose` | utils/src/kernel/kernel.c:723-729 | Rounding costs or gives at most a millisecond a turn |

## Left out

- Sockets, connections, packet and PCB serialisation: messages are sequences of words, in order.
- Console, scripts, configuration, logging and delays.
- `mmap`, directory walking and `t_config` files: byte arrays, and a map from name to start and length. The bitmap file holds `BLOCK_COUNT / 8` bytes, so a block count that is no multiple of 8 is not modelled.
- Floating-point `ceil`: an integer ceiling, which it equals for sizes below 2^24.
- 32-bit wrap-around of addresses, sizes, counters and of `tiempoTranscurrido`: numbers are unbounded.
- Negative sizes and offsets from instructions, accesses to memory a process does not have beyond the -1 of translation, and pages beyond the end of the page table.
- SET, SUM, SUB, JNZ and the decoding of instructions; SUB as written adds (`cpu.c:339-343`).
- `memcpy` on overlapping ranges at `entradasalida.c:600`: taken as a copy by way of a buffer.
- `leer_fs` into a process's memory (IO_FS_READ): its buffer has no end that could be sent as a string; the file side is `DialFs.FileSystem.Read`, the memory side `Memory.Ram.StoreRange`.
- In-flight I/O of a killed process, timers of an earlier turn, and FINALIZAR_PROCESO while it races with a dispatcher between its look at `cREADY_PLUS` and its pop: a kill is one step.
- DETENER_PLANIFICACION and INICIAR_PLANIFICACION: they lock and unlock and move nothing.
- Which resource wakes which process is in `Resources`; `Scheduler` lets any waiting process be woken at any time, so its runs include the program's.
- Allocation, freeing and leaks.
- Memory.Ram.WriteString: when the buffer is too short, nothing is said about the bytes, since the program reads past its end.
- Memory.Ram.StoreRange: the same.
- Cpu.Processor.CopyString: when the transfer is cut short, nothing is said about the bytes, for the same reason.
- Resources.RunsStayOrderly: takes each operation as one step, which `ResourceThreads.OneAtATimeIsAtomic` shows right when operations do not overlap; `ResourceThreads` has the others.
- ResourceRaces.WaitAgainstRelease: one operation of each of two threads; any number is in `ResourceThreads.InOrderThroughoutIff`.
- ResourceRaces.ReleaseAgainstRelease: the same.
- ResourceThreads.InOrderThroughoutIff: one resource, without kills of processes that wait for it.
- ProcessRuns.Serve: runs of the repaired build; what each instruction does as written is at `Cpu.Processor`.
- SchedulerProgress.NoDeadlock: of the repaired build and a degree above 0; what stops the program as written is in `SchedulerAsWritten`.
