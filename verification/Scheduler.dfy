/** The kernel's threads as steps between their locks and semaphores: the long-term planner, one
    of the three dispatchers, the threads that serve I/O, the one that buries finished processes,
    and the console.

    A thread that has pushed a process and not yet posted the queue's semaphore owes a unit. Who
    owes it is not recorded, so a thread may here run ahead of its own post: the runs below are
    all of the program's, and more. */
module Scheduler {
  import opened Builds
  import opened Queues

  datatype Policy = Fifo | RoundRobin | VirtualRoundRobin

  datatype Label = New | Ready | ReadyPlus | Running | Blocked | Finished

  /** What a thread has in hand: nothing; a semaphore unit, for a process still in a queue (the
      virtual round robin has looked which); that process; one that has been let in. */
  datatype Hand = Empty | Called | Looked(plus: bool) | Holds(pid: nat) | Admitted(pid: nat)

  /** The three semaphores that count a queue each, and posts still owed to them. */
  datatype Sem = Sem(units: nat, owed: nat)

  datatype Kernel = Kernel(
    created: seq<nat>, ready: seq<nat>, plus: seq<nat>, blocked: seq<nat>, waiting: seq<nat>,
    served: seq<nat>, woken: seq<nat>, exiting: seq<nat>,
    planner: Hand, dispatcher: Hand, reaper: Hand,
    createdSem: Sem, readySem: Sem, exitSem: Sem, slots: nat,
    labels: map<nat, Label>, next: nat, alive: set<nat>,
    tally: Tally, crashed: bool)

  /** Bookkeeping of the proof: the degree of multiprogramming in force, the slots lost, and the
      semaphore units that no process stands behind. */
  datatype Tally = Tally(degree: int, leaked: nat, createdSurplus: nat, readySurplus: nat)

  function Start(degree: nat): Kernel {
    Kernel([], [], [], [], [], [], [], [], Empty, Empty, Empty, Sem(0, 0), Sem(0, 0), Sem(0, 0), degree,
           map[], 1, {}, Tally(degree, 0, 0, 0), false)
  }

  datatype Event =
    // the console
    | Create | Raise | Lower | Kill(pid: nat)
    // posts that are owed
    | PostCreated | PostReady | PostExit
    // the long-term planner
    | PlannerWait | PlannerPop | Admit | Load(ok: bool)
    // the dispatcher, and why a process comes back from the CPU
    | DispatcherWait | Look | Pick
    | Finish | RequestIo | AwaitResource | GrantResource | Signalled | QuantumEnd
    // releases and I/O threads
    | Wake(pid: nat) | ReadyWoken(pid: nat) | Serve(pid: nat) | ReadyServed(pid: nat) | FailServed(pid: nat)
    // the burier
    | ReaperWait | ReaperPop | Bury

  predicate TakesUnit(s: Kernel, pid: nat) {
    pid in s.labels && (s.labels[pid].Ready? || s.labels[pid].ReadyPlus?)
  }

  predicate Listed(s: Kernel, pid: nat) {
    pid in s.created || pid in s.ready || pid in s.plus || pid in s.blocked || pid in s.waiting
  }

  /** When a step can be taken. Nothing here asks whether a queue that is about to be popped holds
      anything: that is what has to be shown. A kill is one step, not made between the virtual
      round robin's look and its pop; it waits for the semaphore of a ready process. */
  predicate Enabled(build: Build, policy: Policy, s: Kernel, e: Event) {
    !s.crashed &&
    match e
    case Create => true
    case Raise => true
    case Lower => s.slots > 0
    case Kill(pid) =>
      && Listed(s, pid) && !s.dispatcher.Looked?
      && (TakesUnit(s, pid) ==> s.readySem.units > 0)
      && (build.Repaired? && pid in s.created ==> s.createdSem.units > 0)
    case PostCreated => s.createdSem.owed > 0
    case PostReady => s.readySem.owed > 0
    case PostExit => s.exitSem.owed > 0
    case PlannerWait => s.planner.Empty? && s.createdSem.units > 0
    case PlannerPop => s.planner.Called?
    case Admit => s.planner.Holds? && s.slots > 0
    case Load(_) => s.planner.Admitted?
    case DispatcherWait => s.dispatcher.Empty? && s.readySem.units > 0
    case Look => s.dispatcher.Called? && policy.VirtualRoundRobin?
    case Pick => if policy.VirtualRoundRobin? then s.dispatcher.Looked? else s.dispatcher.Called?
    case QuantumEnd => s.dispatcher.Holds? && !policy.Fifo?
    case Finish => s.dispatcher.Holds?
    case RequestIo => s.dispatcher.Holds?
    case AwaitResource => s.dispatcher.Holds?
    case GrantResource => s.dispatcher.Holds?
    case Signalled => s.dispatcher.Holds?
    case Wake(pid) => pid in s.waiting
    case ReadyWoken(pid) => pid in s.woken
    case Serve(pid) => pid in s.blocked
    case ReadyServed(pid) => pid in s.served
    case FailServed(pid) => pid in s.served
    case ReaperWait => s.reaper.Empty? && s.exitSem.units > 0
    case ReaperPop => s.reaper.Called?
    case Bury => s.reaper.Holds?
  }

  // ------------------------------------------------------------------- steps

  function Owing(q: Sem): Sem { q.(owed := q.owed + 1) }

  function Taken(q: Sem): Sem
    requires q.units > 0
  {
    q.(units := q.units - 1)
  }

  function Posted(q: Sem): Sem
    requires q.owed > 0
  {
    Sem(q.units + 1, q.owed - 1)
  }

  function PutReady(s: Kernel, pid: nat, l: Label): Kernel {
    s.(ready := s.ready + [pid], labels := s.labels[pid := l], readySem := Owing(s.readySem))
  }

  function PutPlus(s: Kernel, pid: nat, l: Label): Kernel {
    s.(plus := s.plus + [pid], labels := s.labels[pid := l], readySem := Owing(s.readySem))
  }

  /** A process goes to the ready queue of its policy after I/O, a WAIT or a SIGNAL. */
  function ToReady(policy: Policy, s: Kernel, pid: nat): Kernel {
    if policy.VirtualRoundRobin? then PutPlus(s, pid, ReadyPlus) else PutReady(s, pid, Ready)
  }

  /** `matadero`: a process that had been let in makes room, and goes to be buried. */
  function Slaughtered(s: Kernel, pid: nat): Kernel {
    s.(slots := if pid in s.labels && s.labels[pid].New? then s.slots else s.slots + 1,
       labels := s.labels[pid := Finished], exiting := s.exiting + [pid], exitSem := Owing(s.exitSem))
  }

  /** `finalizar_proceso` on a process that is not running. As written, the planner's semaphore
      is forgotten, and the dispatcher's depends on the label. */
  function Killed(build: Build, s: Kernel, pid: nat): Kernel
    requires TakesUnit(s, pid) ==> s.readySem.units > 0
    requires build.Repaired? && pid in s.created ==> s.createdSem.units > 0
  {
    Slaughtered(Removed(build, if TakesUnit(s, pid) then s.(readySem := Taken(s.readySem)) else s, pid), pid)
  }

  function Removed(build: Build, s: Kernel, pid: nat): Kernel
    requires build.Repaired? && pid in s.created ==> s.createdSem.units > 0
  {
    var tally := if TakesUnit(s, pid) then s.tally else s.tally.(readySurplus := s.tally.readySurplus + 1);
    if pid in s.created then
      if build.Repaired? then s.(created := TakenOut(s.created, pid), createdSem := Taken(s.createdSem))
      else s.(created := TakenOut(s.created, pid), tally := s.tally.(createdSurplus := s.tally.createdSurplus + 1))
    else if pid in s.ready then s.(ready := TakenOut(s.ready, pid), tally := tally)
    else if pid in s.plus then s.(plus := TakenOut(s.plus, pid), tally := tally)
    else if pid in s.blocked then s.(blocked := TakenOut(s.blocked, pid))
    else s.(waiting := TakenOut(s.waiting, pid))
  }

  function Picked(s: Kernel): Kernel {
    if s.dispatcher.Looked? && s.dispatcher.plus then
      if s.plus == [] then s.(crashed := true)
      else s.(plus := s.plus[1..], dispatcher := Holds(s.plus[0]), labels := s.labels[s.plus[0] := Running])
    else
      if s.ready == [] then s.(crashed := true)
      else s.(ready := s.ready[1..], dispatcher := Holds(s.ready[0]), labels := s.labels[s.ready[0] := Running])
  }

  /** The process in the dispatcher's hands comes back from the CPU. As written, a WAIT that is
      granted always goes to the plain ready queue, and a SIGNAL leaves the label Running. */
  function Returned(build: Build, policy: Policy, s: Kernel, e: Event): Kernel
    requires s.dispatcher.Holds?
  {
    var pid, t := s.dispatcher.pid, s.(dispatcher := Empty);
    match e
    case RequestIo => t.(blocked := s.blocked + [pid], labels := s.labels[pid := Blocked])
    case AwaitResource => t.(waiting := s.waiting + [pid], labels := s.labels[pid := Blocked])
    case GrantResource =>
      if build.Repaired? then ToReady(policy, t, pid)
      else PutReady(t, pid, if policy.VirtualRoundRobin? then ReadyPlus else Ready)
    case Signalled =>
      if build.Repaired? then ToReady(policy, t, pid)
      else if policy.VirtualRoundRobin? then PutPlus(t, pid, Running) else PutReady(t, pid, Running)
    case QuantumEnd => PutReady(t, pid, Ready)
    case _ => Slaughtered(t, pid)
  }

  function Step(build: Build, policy: Policy, s: Kernel, e: Event): Kernel
    requires Enabled(build, policy, s, e)
  {
    match e
    case Create =>
      s.(created := s.created + [s.next], labels := s.labels[s.next := New], alive := s.alive + {s.next},
         next := s.next + 1, createdSem := Owing(s.createdSem))
    case Raise => s.(slots := s.slots + 1, tally := s.tally.(degree := s.tally.degree + 1))
    case Lower => s.(slots := s.slots - 1, tally := s.tally.(degree := s.tally.degree - 1))
    case Kill(pid) => Killed(build, s, pid)
    case PostCreated => s.(createdSem := Posted(s.createdSem))
    case PostReady => s.(readySem := Posted(s.readySem))
    case PostExit => s.(exitSem := Posted(s.exitSem))
    case PlannerWait => s.(planner := Called, createdSem := Taken(s.createdSem))
    case PlannerPop =>
      if s.created == [] then s.(crashed := true) else s.(created := s.created[1..], planner := Holds(s.created[0]))
    case Admit => s.(planner := Admitted(s.planner.pid), slots := s.slots - 1)
    case Load(ok) =>
      var pid, t := s.planner.pid, s.(planner := Empty);
      if ok then PutReady(t, pid, Ready)
      else if build.Repaired? then Slaughtered(t.(slots := s.slots + 1), pid)
      else Slaughtered(t.(tally := s.tally.(leaked := s.tally.leaked + 1)), pid)
    case DispatcherWait => s.(dispatcher := Called, readySem := Taken(s.readySem))
    case Look => s.(dispatcher := Looked(s.plus != []))
    case Pick => Picked(s)
    case Wake(pid) => s.(waiting := TakenOut(s.waiting, pid), woken := s.woken + [pid])
    case ReadyWoken(pid) => ToReady(policy, s.(woken := TakenOut(s.woken, pid)), pid)
    case Serve(pid) => s.(blocked := TakenOut(s.blocked, pid), served := s.served + [pid])
    case ReadyServed(pid) => ToReady(policy, s.(served := TakenOut(s.served, pid)), pid)
    case FailServed(pid) => Slaughtered(s.(served := TakenOut(s.served, pid)), pid)
    case ReaperWait => s.(reaper := Called, exitSem := Taken(s.exitSem))
    case ReaperPop =>
      if s.exiting == [] then s.(crashed := true) else s.(exiting := s.exiting[1..], reaper := Holds(s.exiting[0]))
    case Bury => s.(reaper := Empty, alive := s.alive - {s.reaper.pid})
    case _ => Returned(build, policy, s, e)
  }
}
