/** The conversation on the dispatch socket: what the CPU sends when a process stops running, and
    the two kernel threads that read it, in turns governed by the mutex of the blocked list. */
module Dispatch {

  datatype Reason =
    | Finished | OutOfMemory | Invalid | Interrupted | QuantumOver
    | AskResource | GiveResource | Io | IoVector

  // ------------------------------------------------- why a process stops running

  datatype Interrupt = Interrupt(pid: nat, kill: bool)

  datatype Option<T> = None | Some(value: T)

  /** The CPU empties its queue of interrupts after every instruction. A kill overrides whatever
      the instruction asked for; the end of a quantum counts only if it asked for nothing. */
  method DrainInterrupts(leaving: Option<Reason>, pid: nat, queue: seq<Interrupt>) returns (r: Option<Reason>)
    ensures Interrupt(pid, true) in queue ==> r == Some(Interrupted)
    ensures Interrupt(pid, true) !in queue && leaving.Some? ==> r == leaving
    ensures Interrupt(pid, true) !in queue && leaving.None? ==>
      r == if Interrupt(pid, false) in queue then Some(QuantumOver) else None
  {
    r := leaving;
    var left := queue;
    ghost var done: seq<Interrupt> := [];
    while left != []
      invariant queue == done + left
      invariant Interrupt(pid, true) in done ==> r == Some(Interrupted)
      invariant Interrupt(pid, true) !in done && leaving.Some? ==> r == leaving
      invariant Interrupt(pid, true) !in done && leaving.None? ==>
        r == if Interrupt(pid, false) in done then Some(QuantumOver) else None
      decreases |left|
    {
      var i := left[0];
      done, left := done + [i], left[1..];
      if i.kill {
        if i.pid == pid {
          r := Some(Interrupted);
        }
      } else if r.None? && i.pid == pid {
        r := Some(QuantumOver);
      }
    }
  }

  // ----------------------------------------------------------------- the words

  /** The text of a request: a resource's name, an operation complete in itself, or one that is
      followed by a vector of addresses. */
  datatype Text = Name | Plain | Vectored(addresses: nat)

  datatype Word = Why(r: Reason) | Pcb | Code(r: Reason) | Request(t: Text) | Address

  function Addresses(n: nat): seq<Word> {
    if n == 0 then [] else [Address] + Addresses(n - 1)
  }

  /** The instructions that stop a process set the text that belongs to their reason. */
  predicate Consistent(r: Reason, t: Text) {
    match r
    case AskResource => t.Name?
    case GiveResource => t.Name?
    case Io => t.Plain?
    case IoVector => t.Vectored?
    case _ => true
  }

  /** What the CPU sends. */
  function Sent(r: Reason, t: Text): seq<Word> {
    [Why(r), Pcb] +
    match r
    case AskResource => [Code(r), Request(t)]
    case GiveResource => [Code(r), Request(t)]
    case Io => [Code(Io), Request(t)]
    case IoVector => [Code(Io), Request(t)] + Addresses(if t.Vectored? then t.addresses else 0)
    case _ => []
  }

  // --------------------------------------------------------------- the threads

  /** The dispatcher, from sending a process to the CPU until it is ready for the next one. */
  datatype Dispatcher =
    | Idle | ReadWhy | ReadPcb(r: Reason) | ReadCode(r: Reason) | ReadRequest(r: Reason)
    | Locking(t: Text) | Spawning(t: Text) | Relocking | Unlocking

  /** The I/O thread spawned last, until it gives the mutex back. */
  datatype Reader = Absent | Reading(left: nat)

  /** The mutex: free, locked by the dispatcher for itself and the thread it spawns, locked by
      the dispatcher a second time, or by somebody else. */
  datatype Mutex = Free | Lent | Again | Elsewhere

  datatype State = State(dispatcher: Dispatcher, reader: Reader, mutex: Mutex, stream: seq<Word>, unsent: seq<Word>,
                         reason: Reason, text: Text, confused: bool)

  datatype Event =
    | Dispatched(r: Reason, t: Text) | Deliver | DispatcherReads | Lock | Spawn | Relock | Unlock
    | ReaderReads | ReaderUnlocks | OtherLocks | OtherUnlocks

  function Start(): State {
    State(Idle, Absent, Free, [], [], Finished, Plain, false)
  }

  /** `waits` says whether the dispatcher locks the mutex again before it goes on, as the program
      does. A read waits for a word; a lock waits until the mutex is free. */
  predicate Enabled(waits: bool, s: State, e: Event) {
    !s.confused &&
    match e
    case Dispatched(r, t) => s.dispatcher.Idle? && Consistent(r, t)
    case Deliver => s.unsent != []
    case DispatcherReads =>
      s.stream != [] && (s.dispatcher.ReadWhy? || s.dispatcher.ReadPcb? || s.dispatcher.ReadCode? ||
          s.dispatcher.ReadRequest?)
    case Lock => s.dispatcher.Locking? && s.mutex.Free?
    case Spawn => s.dispatcher.Spawning?
    case Relock => s.dispatcher.Relocking? && (waits ==> s.mutex.Free?)
    case Unlock => s.dispatcher.Unlocking?
    case ReaderReads => s.reader.Reading? && s.reader.left > 0 && s.stream != []
    case ReaderUnlocks => s.reader.Reading? && s.reader.left == 0
    case OtherLocks => s.mutex.Free?
    case OtherUnlocks => s.mutex.Elsewhere?
  }

  /** Where the dispatcher goes on after a word, or None when it is not the word it can use. */
  function Understood(d: Dispatcher, w: Word): Option<Dispatcher> {
    match d
    case ReadWhy => if w.Why? then Some(ReadPcb(w.r)) else None
    case ReadPcb(r) =>
      if !w.Pcb? then None
      else Some(if r.AskResource? || r.GiveResource? || r.Io? || r.IoVector? then ReadCode(r) else Idle)
    case ReadCode(r) =>
      if w.Code? && w.r == (if r.IoVector? then Io else r) then Some(ReadRequest(r)) else None
    case ReadRequest(r) =>
      if !w.Request? then None else Some(if r.AskResource? || r.GiveResource? then Idle else Locking(w.t))
    case _ => None
  }

  function Step(waits: bool, s: State, e: Event): State
    requires Enabled(waits, s, e)
  {
    match e
    case Dispatched(r, t) => s.(dispatcher := ReadWhy, unsent := s.unsent + Sent(r, t), reason := r, text := t)
    case Deliver => s.(stream := s.stream + [s.unsent[0]], unsent := s.unsent[1..])
    case DispatcherReads =>
      var next := Understood(s.dispatcher, s.stream[0]);
      if next.None? then s.(confused := true) else s.(dispatcher := next.value, stream := s.stream[1..])
    case Lock => s.(dispatcher := Spawning(s.dispatcher.t), mutex := Lent)
    case Spawn =>
      var t := s.dispatcher.t;
      s.(dispatcher := Relocking, reader := Reading(if t.Vectored? then t.addresses else 0))
    case Relock => if waits then s.(dispatcher := Unlocking, mutex := Again) else s.(dispatcher := Idle)
    case Unlock => s.(dispatcher := Idle, mutex := Free)
    case ReaderReads =>
      if s.stream[0].Address? then s.(reader := Reading(s.reader.left - 1), stream := s.stream[1..])
      else s.(confused := true)
    case ReaderUnlocks => s.(reader := Absent, mutex := Free)
    case OtherLocks => s.(mutex := Elsewhere)
    case OtherUnlocks => s.(mutex := Free)
  }

  // ------------------------------------------------------------- the invariant

  /** The words still to be read, by whoever is to read them. */
  function Awaited(s: State): seq<Word> {
    var all := Sent(s.reason, s.text);
    match s.dispatcher
    case Idle => []
    case ReadWhy => all
    case ReadPcb(_) => all[1..]
    case ReadCode(_) => all[2..]
    case ReadRequest(_) => if |all| >= 3 then all[3..] else []
    case Locking(t) => Addresses(if t.Vectored? then t.addresses else 0)
    case Spawning(t) => Addresses(if t.Vectored? then t.addresses else 0)
    case Relocking => if s.reader.Reading? then Addresses(s.reader.left) else []
    case Unlocking => []
  }

  predicate Inv(s: State) {
    && !s.confused && s.stream + s.unsent == Awaited(s)
    && Consistent(s.reason, s.text)
    && (s.dispatcher.ReadPcb? || s.dispatcher.ReadCode? || s.dispatcher.ReadRequest? ==> s.dispatcher.r == s.reason)
    && (s.dispatcher.ReadCode? || s.dispatcher.ReadRequest? ==>
          s.reason.AskResource? || s.reason.GiveResource? || s.reason.Io? || s.reason.IoVector?)
    && (s.reader.Reading? ==> s.dispatcher.Relocking?)
    && (s.mutex.Lent? <==> s.dispatcher.Spawning? || s.reader.Reading?)
    && (s.mutex.Again? <==> s.dispatcher.Unlocking?)
  }

  lemma {:induction false} NextWord(stream: seq<Word>, unsent: seq<Word>)
    requires stream != []
    ensures stream[0] == (stream + unsent)[0] && stream[1..] + unsent == (stream + unsent)[1..]
  {
  }

  /** The words of a message, one after the other. */
  lemma {:induction false} SentInTurn(r: Reason, t: Text)
    requires Consistent(r, t)
    ensures var all, more := Sent(r, t), r.AskResource? || r.GiveResource? || r.Io? || r.IoVector?;
            && |all| >= 2 && all[0] == Why(r) && all[1..][0] == Pcb && all[1..][1..] == all[2..]
            && (if !more then all[2..] == []
                else |all| >= 4 && all[2..][0] == Code(if r.IoVector? then Io else r) && all[2..][1..] == all[3..]
                     && all[3..][0] == Request(t) && all[3..][1..] == Addresses(if t.Vectored? then t.addresses else 0))
  {
  }

  lemma {:induction false} WhyKeepsInv(s: State)
    requires Inv(s) && Enabled(true, s, DispatcherReads) && s.dispatcher.ReadWhy?
    ensures Inv(Step(true, s, DispatcherReads))
  {
    NextWord(s.stream, s.unsent);
    SentInTurn(s.reason, s.text);
    hide Sent, Addresses, Consistent;
    assert Understood(s.dispatcher, s.stream[0]) == Some(ReadPcb(s.reason));
  }

  lemma {:induction false} PcbKeepsInv(s: State)
    requires Inv(s) && Enabled(true, s, DispatcherReads) && s.dispatcher.ReadPcb?
    ensures Inv(Step(true, s, DispatcherReads))
  {
    NextWord(s.stream, s.unsent);
    SentInTurn(s.reason, s.text);
    hide Sent, Addresses, Consistent;
    assert s.stream[0] == Pcb;
  }

  lemma {:induction false} CodeKeepsInv(s: State)
    requires Inv(s) && Enabled(true, s, DispatcherReads) && s.dispatcher.ReadCode?
    ensures Inv(Step(true, s, DispatcherReads))
  {
    NextWord(s.stream, s.unsent);
    SentInTurn(s.reason, s.text);
    hide Sent, Addresses;
    assert Understood(s.dispatcher, s.stream[0]) == Some(ReadRequest(s.reason));
  }

  lemma {:induction false} RequestKeepsInv(s: State)
    requires Inv(s) && Enabled(true, s, DispatcherReads) && s.dispatcher.ReadRequest?
    ensures Inv(Step(true, s, DispatcherReads))
  {
    NextWord(s.stream, s.unsent);
    SentInTurn(s.reason, s.text);
    hide Sent, Addresses;
    assert s.stream[0] == Request(s.text);
  }

  lemma {:induction false} DispatchKeepsInv(s: State, r: Reason, t: Text)
    requires Inv(s) && Enabled(true, s, Dispatched(r, t))
    ensures Inv(Step(true, s, Dispatched(r, t)))
  {
  }

  lemma {:induction false} DeliverKeepsInv(s: State)
    requires Inv(s) && Enabled(true, s, Deliver)
    ensures Inv(Step(true, s, Deliver))
  {
    hide Sent, Addresses, Consistent;
    assert s.unsent == [s.unsent[0]] + s.unsent[1..];
    assert s.stream + s.unsent == (s.stream + [s.unsent[0]]) + s.unsent[1..];
  }

  lemma {:induction false} LockingKeepsInv(s: State, e: Event)
    requires Inv(s) && Enabled(true, s, e)
    requires e.Lock? || e.Spawn? || e.Relock? || e.Unlock? || e.ReaderUnlocks? || e.OtherLocks? || e.OtherUnlocks?
    ensures Inv(Step(true, s, e))
  {
  }

  lemma {:induction false} StepKeepsInv(s: State, e: Event)
    requires Inv(s) && Enabled(true, s, e)
    ensures Inv(Step(true, s, e))
  {
    match e
    case DispatcherReads =>
      match s.dispatcher {
        case ReadWhy => WhyKeepsInv(s);
        case ReadPcb(_) => PcbKeepsInv(s);
        case ReadCode(_) => CodeKeepsInv(s);
        case ReadRequest(_) => RequestKeepsInv(s);
      }
    case Dispatched(r, t) => DispatchKeepsInv(s, r, t);
    case Deliver => DeliverKeepsInv(s);
    case ReaderReads => ReaderKeepsInv(s);
    case _ => LockingKeepsInv(s, e);
    hide Inv, Step;
  }

  lemma {:induction false} ReaderKeepsInv(s: State)
    requires Inv(s) && Enabled(true, s, ReaderReads)
    ensures Inv(Step(true, s, ReaderReads))
  {
    NextWord(s.stream, s.unsent);
    hide Sent, Consistent;
  }

  // -------------------------------------------------------------------- runs

  predicate Possible(waits: bool, s: State, run: seq<Event>)
    decreases |run|
  {
    run == [] || (Enabled(waits, s, run[0]) && Possible(waits, Step(waits, s, run[0]), run[1..]))
  }

  function After(waits: bool, s: State, run: seq<Event>): State
    requires Possible(waits, s, run)
    decreases |run|
  {
    if run == [] then s else After(waits, Step(waits, s, run[0]), run[1..])
  }

  lemma {:induction false} RunsKeepInv(s: State, run: seq<Event>)
    requires Inv(s) && Possible(true, s, run)
    ensures Inv(After(true, s, run))
    decreases |run|
  {
    hide Inv, Enabled, Step;
    if run != [] {
      StepKeepsInv(s, run[0]);
      RunsKeepInv(Step(true, s, run[0]), run[1..]);
    }
  }

  /** In every interleaving each word is read by the thread it is meant for: the spawned thread
      has taken the whole vector before the dispatcher reads again, and when that turns to the
      next process nothing is left over. */
  lemma {:induction false} RunsAreOrderly(run: seq<Event>)
    requires Possible(true, Start(), run)
    ensures var s := After(true, Start(), run);
            && !s.confused
            && (s.dispatcher.Idle? || s.dispatcher.Unlocking? ==> s.stream + s.unsent == [] && s.reader.Absent?)
            && (s.reader.Reading? ==> s.dispatcher.Relocking? && s.stream + s.unsent == Addresses(s.reader.left))
  {
    RunsKeepInv(Start(), run);
    hide After, Possible, Sent;
  }

  // ------------------------------------------------- who gets an I/O thread

  /** What can be told from the events alone: the last dispatch, and since then the threads
      spawned and the words they have taken. */
  datatype Seen = Seen(reason: Reason, text: Text, spawned: nat, taken: nat)

  function Watched(seen: Seen, e: Event): Seen {
    match e
    case Dispatched(r, t) => Seen(r, t, 0, 0)
    case Spawn => seen.(spawned := seen.spawned + 1)
    case ReaderReads => seen.(taken := seen.taken + 1)
    case _ => seen
  }

  function Watch(seen: Seen, run: seq<Event>): Seen
    decreases |run|
  {
    if run == [] then seen else Watch(Watched(seen, run[0]), run[1..])
  }

  predicate ForIo(r: Reason) {
    r.Io? || r.IoVector?
  }

  /** How far the service of the last process has come. */
  predicate Paced(s: State, seen: Seen) {
    var vector := if seen.text.Vectored? then seen.text.addresses else 0;
    && seen.reason == s.reason && seen.text == s.text
    && match s.dispatcher
       case Idle => seen.spawned == (if ForIo(s.reason) then 1 else 0) &&
           seen.taken == (if ForIo(s.reason) then vector else 0)
       case Locking(t) => ForIo(s.reason) && t == s.text && seen.spawned == seen.taken == 0
       case Spawning(t) => ForIo(s.reason) && t == s.text && seen.spawned == seen.taken == 0
       case Relocking =>
         ForIo(s.reason) && seen.spawned == 1 && seen.taken + (if s.reader.Reading? then s.reader.left else 0) == vector
       case Unlocking => ForIo(s.reason) && seen.spawned == 1 && seen.taken == vector
       case _ => seen.spawned == seen.taken == 0
  }

  /** The word the dispatcher reads next. */
  lemma {:induction false} ReadsNext(s: State)
    requires Inv(s) && Enabled(true, s, DispatcherReads)
    ensures s.dispatcher.ReadWhy? ==> s.stream[0] == Why(s.reason)
    ensures s.dispatcher.ReadPcb? ==> s.stream[0] == Pcb && s.dispatcher.r == s.reason
    ensures s.dispatcher.ReadCode? ==> Understood(s.dispatcher, s.stream[0]) == Some(ReadRequest(s.reason))
    ensures s.dispatcher.ReadRequest? ==> s.stream[0] == Request(s.text) && s.dispatcher.r == s.reason
    ensures s.dispatcher.ReadCode? || s.dispatcher.ReadRequest? ==>
      s.reason.AskResource? || s.reason.GiveResource? || ForIo(s.reason)
  {
    NextWord(s.stream, s.unsent);
    SentInTurn(s.reason, s.text);
    hide Sent, Addresses, Consistent;
  }

  lemma {:induction false} ReadKeepsPace(s: State, seen: Seen)
    requires Inv(s) && Paced(s, seen) && Enabled(true, s, DispatcherReads)
    ensures Paced(Step(true, s, DispatcherReads), seen)
  {
    hide Sent, Addresses, Consistent, Awaited, Inv;
    ReadsNext(s);
  }

  lemma {:induction false} ReaderKeepsPace(s: State, seen: Seen)
    requires Inv(s) && Paced(s, seen) && Enabled(true, s, ReaderReads)
    ensures Paced(Step(true, s, ReaderReads), Watched(seen, ReaderReads))
  {
    NextWord(s.stream, s.unsent);
    hide Sent, Consistent;
  }

  lemma {:induction false} StepKeepsPace(s: State, seen: Seen, e: Event)
    requires Inv(s) && Paced(s, seen) && Enabled(true, s, e)
    ensures Paced(Step(true, s, e), Watched(seen, e))
  {
    if e.DispatcherReads? {
      ReadKeepsPace(s, seen);
    } else if e.ReaderReads? {
      ReaderKeepsPace(s, seen);
    }
    hide Sent, Addresses, Consistent, Understood, Awaited;
  }

  lemma {:induction false} RunsKeepPace(s: State, seen: Seen, run: seq<Event>)
    requires Inv(s) && Paced(s, seen) && Possible(true, s, run)
    ensures Paced(After(true, s, run), Watch(seen, run))
    decreases |run|
  {
    hide Inv, Paced, Enabled, Step, Watched;
    if run != [] {
      StepKeepsPace(s, seen, run[0]);
      StepKeepsInv(s, run[0]);
      RunsKeepPace(Step(true, s, run[0]), Watched(seen, run[0]), run[1..]);
    }
  }

  /** Whenever the dispatcher is ready for another process, one thread has been spawned for the
      last one if it asked for I/O, and has taken as many addresses as the request announced; none
      has been if it stopped for any other reason. */
  lemma {:induction false} OneThreadForIo(run: seq<Event>)
    requires Possible(true, Start(), run) && After(true, Start(), run).dispatcher.Idle?
    ensures var seen := Watch(Seen(Finished, Plain, 0, 0), run);
            && seen.spawned == (if seen.reason.Io? || seen.reason.IoVector? then 1 else 0)
            && (seen.reason.IoVector? ==> seen.text.Vectored? && seen.taken == seen.text.addresses)
            && (!seen.reason.IoVector? ==> seen.taken == 0)
  {
    RunsKeepPace(Start(), Seen(Finished, Plain, 0, 0), run);
    RunsKeepInv(Start(), run);
    hide After, Possible, Watch, Sent;
  }

  /** The next step towards that moment. */
  function Onward(s: State): Event {
    if s.mutex.Elsewhere? then OtherUnlocks
    else if s.reader.Reading? then (if s.reader.left == 0 then ReaderUnlocks else if s.stream == [] then Deliver
        else ReaderReads)
    else match s.dispatcher
      case Locking(_) => Lock
      case Spawning(_) => Spawn
      case Relocking => Relock
      case Unlocking => Unlock
      case _ => if s.stream == [] then Deliver else DispatcherReads
  }

  function Distance(s: State): nat {
    2 * |s.unsent| + |s.stream| + (if s.mutex.Elsewhere? then 1 else 0) +
    match s.dispatcher
    case Idle => 0
    case Locking(_) => 8
    case Spawning(_) => 6
    case Relocking => if s.reader.Reading? then 4 else 3
    case Unlocking => 1
    case _ => 9
  }

  /** Where a word is awaited one is on its way, and it is the right one. */
  lemma {:induction false} WordsAreThere(s: State)
    requires Inv(s) && !s.dispatcher.Idle? && !s.dispatcher.Locking? && !s.dispatcher.Spawning? &&
        !s.dispatcher.Unlocking?
    requires s.dispatcher.Relocking? ==> s.reader.Reading? && s.reader.left > 0
    ensures s.stream != [] || s.unsent != []
    ensures s.stream != [] ==> if s.dispatcher.Relocking? then s.stream[0].Address?
                               else Understood(s.dispatcher, s.stream[0]).Some?
  {
    if s.stream != [] {
      NextWord(s.stream, s.unsent);
    }
    SentInTurn(s.reason, s.text);
    hide Sent;
  }

  lemma {:induction false} OnwardIsNearer(s: State)
    requires Inv(s) && !s.dispatcher.Idle?
    ensures !Onward(s).Dispatched? && Enabled(true, s, Onward(s)) && Distance(Step(true, s, Onward(s))) < Distance(s)
  {
    hide Sent, Addresses, Consistent, Awaited;
    if Onward(s).Deliver? || Onward(s).ReaderReads? || Onward(s).DispatcherReads? {
      WordsAreThere(s);
    }
  }

  /** And that moment can come in every state: no turn of the mutex and no word sent locks the
      dispatcher out for good. */
  lemma {:induction false} NeverStuck(s: State) returns (run: seq<Event>)
    requires Inv(s)
    ensures Possible(true, s, run) && After(true, s, run).dispatcher.Idle?
    ensures forall e :: e in run ==> !e.Dispatched?
    decreases Distance(s)
  {
    hide Inv, Enabled, Step, Onward, Distance;
    run := [];
    if !s.dispatcher.Idle? {
      OnwardIsNearer(s);
      StepKeepsInv(s, Onward(s));
      var rest := NeverStuck(Step(true, s, Onward(s)));
      run := [Onward(s)] + rest;
      assert run[1..] == rest;
    }
  }

  /** That is what the second lock is for. Without it, wherever a vector is still being read,
      the dispatcher can go on and take an address for the reason the next process stopped. */
  lemma {:induction false} WithoutWaiting(s: State) returns (run: seq<Event>)
    requires Inv(s) && s.reader.Reading? && s.reader.left > 0
    ensures Possible(false, s, run) && After(false, s, run).confused
  {
    var s1 := Step(false, s, Relock);
    var s2 := Step(false, s1, Dispatched(Finished, Plain));
    var words := Addresses(s.reader.left);
    assert (s.stream + s.unsent)[0] == words[0] == Address;
    hide Inv, Sent;
    if s.stream != [] {
      run := [Relock, Dispatched(Finished, Plain), DispatcherReads];
      assert s2.stream[0] == Address;
      assert run[1..] == [Dispatched(Finished, Plain), DispatcherReads] && run[1..][1..] == [DispatcherReads];
    } else {
      var s3 := Step(false, s2, Deliver);
      assert s3.stream[0] == Address;
      run := [Relock, Dispatched(Finished, Plain), Deliver, DispatcherReads];
      assert run[1..] == [Dispatched(Finished, Plain), Deliver, DispatcherReads];
      assert run[1..][1..] == [Deliver, DispatcherReads] && run[1..][1..][1..] == [DispatcherReads];
    }
  }
}
