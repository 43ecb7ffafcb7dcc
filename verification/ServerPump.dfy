/** The server's threads: the flush pump with its ticks, the I/O thread, the session strands'
    counted tasks, and the owner that calls start() and stop(), one call at a time.  One move is
    one atomic operation.  Strands are taken as unordered, which only adds interleavings. */
module ServerPump {
  import opened Agents
  import opened PumpCore

  /** processSessionPacket, test by test; the second line are its six exits, each of which takes the
      counter down by an operation of its own. */
  datatype PacketPc =
    | Waiting | SizeTest | RateTest | KindTest | Parsing | Delivering
    | Oversized | OverRate | PeerLeft | NotABatch | Malformed | Delivered

  datatype ServerPc =
    | Pump(pc: Pc)      // Pump(Ticking) is a tick between two served sessions
    // serving one session in a tick
    | TickCount
    | TickEnqueue
    | TickUncount
    | TickReschedule
    // a flush task on a session's strand
    | FlushQueued
    | FlushRun
    | FlushDecide
    | FlushReschedule
    | FlushCancel
    | FlushUncount
    // the I/O thread
    | IoLoop
    | IoReceive
    | IoSchedule
    | IoCount
    | IoEnqueue
    | IoUncount
    | IoExited
    // a packet task on a session's strand
    | Packet(at: PacketPc)
    | Ended

  /** Where the owner is.  `io` and `agent` index the agents it has started. */
  datatype Owner =
    | Stopped
    | Failed            // not running: the peer's startup failed
    | Starting
    | StartClear
    | StartIo
    | StartPump(io: nat)
    | StartPumping(io: nat, agent: nat)
    | Started(io: nat)
    | JoinIo(io: nat)
    | AwaitWakeups
    | AwaitJobs
    | AwaitTasks
    | StopClear

  /** The last three fields are history: how many Schedule commands were ever produced, whether
      the pool has refused a pump submission since start() was last entered, and whether the flag
      was down then. */
  datatype State = State(
    running: bool, stopRequested: bool, pump: Shared, tasks: int,
    owner: Owner, agents: seq<ServerPc>, scheduled: nat, refused: bool, flagWasDown: bool)

  datatype Move =
    | Own(next: Owner)
    | Advance(i: nat, pc: Pc, pump: Shared, spawned: seq<Pc>)
    | Work(i: nat, to: ServerPc, task: seq<ServerPc>)

  const INITIAL := State(false, false, Shared(false, 0, 0), 0, Stopped, [], 0, false, true)

  function Lift(spawned: seq<Pc>): seq<ServerPc>
  {
    if spawned == [] then [] else [Pump(spawned[0])]
  }

  predicate IoActive(p: ServerPc)
  {
    p.IoLoop? || p.IoReceive? || p.IoSchedule? || p.IoCount? || p.IoEnqueue? || p.IoUncount?
  }

  /** start() and stop(), operation by operation. */
  predicate OwnStep(s: State, to: Owner, s': State)
  {
    match s.owner
    case Stopped =>
      to == Starting && s' == s.(owner := to, running := true, refused := false, flagWasDown := !s.pump.scheduled)
    case Failed =>
      to == Starting && s' == s.(owner := to, running := true, refused := false, flagWasDown := !s.pump.scheduled)
    case Starting =>
      || (to == StartClear && s' == s.(owner := to))
      || (to == Failed && s' == s.(owner := to, running := false))
    case StartClear =>
      to == StartIo && s' == s.(owner := to)
    case StartIo =>
      && to == StartPump(|s.agents|)
      && s' == s.(owner := to, stopRequested := false, agents := s.agents + [IoLoop])
    case StartPump(io) =>
      && to == StartPumping(io, |s.agents|)
      && s' == s.(owner := to, agents := s.agents + [Pump(CheckFirst(External))])
    case StartPumping(io, agent) =>
      && agent < |s.agents| && s.agents[agent] == Pump(Finished)
      && to == Started(io) && s' == s.(owner := to)
    case Started(io) =>
      to == JoinIo(io) && s' == s.(owner := to, running := false)
    case JoinIo(io) =>
      || (to == s.owner && s' == s.(stopRequested := true))
      || (to == AwaitWakeups && io < |s.agents| && s.agents[io] == IoExited && s' == s.(owner := to))
    case AwaitWakeups =>
      to == (if s.pump.wakeups == 0 then AwaitJobs else AwaitWakeups) && s' == s.(owner := to)
    case AwaitJobs =>
      to == (if s.pump.jobs == 0 then AwaitTasks else AwaitJobs) && s' == s.(owner := to)
    case AwaitTasks =>
      to == (if s.tasks == 0 then StopClear else AwaitTasks) && s' == s.(owner := to)
    case StopClear =>
      to == Stopped && s' == s.(owner := to)
  }

  /** A packet task: size, rate, kind and contents are tested in this order. */
  predicate PacketStep(at: PacketPc, tasks: int, p': ServerPc, tasks': int)
  {
    match at
    case Waiting => p' == Packet(SizeTest) && tasks' == tasks
    case SizeTest => (p' == Packet(Oversized) || p' == Packet(RateTest)) && tasks' == tasks
    case RateTest => (p' == Packet(OverRate) || p' == Packet(KindTest)) && tasks' == tasks
    case KindTest => (p' == Packet(PeerLeft) || p' == Packet(NotABatch) || p' == Packet(Parsing)) && tasks' == tasks
    case Parsing => (p' == Packet(Malformed) || p' == Packet(Delivering)) && tasks' == tasks
    case Delivering => p' == Packet(Delivered) && tasks' == tasks
    case Oversized => p' == Ended && tasks' == tasks - 1
    case OverRate => p' == Ended && tasks' == tasks - 1
    case PeerLeft => p' == Ended && tasks' == tasks - 1
    case NotABatch => p' == Ended && tasks' == tasks - 1
    case Malformed => p' == Ended && tasks' == tasks - 1
    case Delivered => p' == Ended && tasks' == tasks - 1
  }

  /** The other agents.  `s'` is the new state except for the agents themselves. */
  predicate WorkStep(s: State, p: ServerPc, p': ServerPc, task: seq<ServerPc>, s': State)
  {
    match p
    // a tick serves a session, or cancels the flush of a guid without one
    case Pump(pc) => pc == Ticking && task == [] && s' == s && (p' == TickCount || p' == p)
    case TickCount => task == [] && p' == TickEnqueue && s' == s.(tasks := s.tasks + 1)
    case TickEnqueue =>
      s' == s && ((p' == Pump(Ticking) && task == [FlushQueued]) || (p' == TickUncount && task == []))
    case TickUncount => task == [] && p' == TickReschedule && s' == s.(tasks := s.tasks - 1)
    case TickReschedule =>
      task == [] && p' == Pump(Ticking) && (s' == s || s' == s.(scheduled := s.scheduled + 1))
    // flushIfDue, then reschedule or cancel, then the counter
    case FlushQueued => task == [] && p' == FlushRun && s' == s
    case FlushRun => task == [] && p' == FlushDecide && s' == s
    case FlushDecide => task == [] && (p' == FlushReschedule || p' == FlushCancel) && s' == s
    case FlushReschedule => task == [] && p' == FlushUncount && s' == s.(scheduled := s.scheduled + 1)
    case FlushCancel => task == [] && p' == FlushUncount && s' == s
    case FlushUncount => task == [] && p' == Ended && s' == s.(tasks := s.tasks - 1)
    // the I/O thread receives until nothing is left, then tests its two flags
    case IoLoop => task == [] && p' == (if s.stopRequested || !s.running then IoExited else IoReceive) && s' == s
    case IoReceive => task == [] && (p' == IoLoop || p' == IoReceive || p' == IoSchedule || p' == IoCount) && s' == s
    case IoSchedule => task == [] && p' == IoReceive && s' == s.(scheduled := s.scheduled + 1)
    case IoCount => task == [] && p' == IoEnqueue && s' == s.(tasks := s.tasks + 1)
    case IoEnqueue =>
      s' == s && ((p' == IoReceive && task == [Packet(Waiting)]) || (p' == IoUncount && task == []))
    case IoUncount => task == [] && p' == IoReceive && s' == s.(tasks := s.tasks - 1)
    case Packet(at) => task == [] && s' == s.(tasks := s'.tasks) && PacketStep(at, s.tasks, p', s'.tasks)
    case _ => false
  }

  predicate Next(s: State, m: Move, s': State)
  {
    match m
    case Own(to) => OwnStep(s, to, s')
    case Advance(i, pc, pump, spawned) =>
      && i < |s.agents| && s.agents[i].Pump?
      && Step(Server, Gates(s.running, true), s.agents[i].pc, s.pump, pc, pump, spawned)
      && s' == s.(pump := pump, refused := s.refused || Refuses(s.agents[i].pc, pc),
                  agents := s.agents[i := Pump(pc)] + Lift(spawned))
    case Work(i, to, task) =>
      && i < |s.agents| && |task| <= 1
      && s'.agents == s.agents[i := to] + task
      && WorkStep(s, s.agents[i], to, task, s'.(agents := s.agents))
  }

  predicate Run(states: seq<State>, moves: seq<Move>)
  {
    && |states| == |moves| + 1
    && states[0] == INITIAL
    && forall k :: 0 <= k < |moves| ==> Next(states[k], moves[k], states[k + 1])
  }

  // ----- Books -----

  predicate InServe(p: ServerPc)
  {
    p.TickCount? || p.TickEnqueue? || p.TickUncount? || p.TickReschedule?
  }

  function Owners(p: ServerPc): nat { if p.Pump? then OwnerWeight(p.pc) else if InServe(p) then 1 else 0 }
  function Jobs(p: ServerPc): nat { if p.Pump? then JobWeight(p.pc) else if InServe(p) then 1 else 0 }
  function Wakeups(p: ServerPc): nat { if p.Pump? then WakeupWeight(p.pc) else 0 }

  predicate InTask(p: ServerPc)
  {
    || p.FlushQueued? || p.FlushRun? || p.FlushDecide? || p.FlushReschedule? || p.FlushCancel? || p.FlushUncount?
    || p.Packet?
  }

  /** A strand task is counted from before it is queued until its last operation. */
  function Tasks(p: ServerPc): nat
  {
    if InTask(p) || p.TickEnqueue? || p.TickUncount? || p.IoEnqueue? || p.IoUncount? then 1 else 0
  }

  ghost predicate Books(s: State)
  {
    && Total(Owners, s.agents) == Flag(s.pump.scheduled)
    && Total(Jobs, s.agents) == s.pump.jobs
    && Total(Wakeups, s.agents) == s.pump.wakeups
    && Total(Tasks, s.agents) == s.tasks
  }

  lemma LiftedTotals(spawned: seq<Pc>)
    requires |spawned| <= 1
    ensures Total(Owners, Lift(spawned)) == Total(OwnerWeight, spawned)
    ensures Total(Jobs, Lift(spawned)) == Total(JobWeight, spawned)
    ensures Total(Wakeups, Lift(spawned)) == Total(WakeupWeight, spawned)
    ensures Total(Tasks, Lift(spawned)) == 0
  {
    TotalOfAtMostOne(OwnerWeight, spawned);
    TotalOfAtMostOne(JobWeight, spawned);
    TotalOfAtMostOne(WakeupWeight, spawned);
    TotalOfAtMostOne(Owners, Lift(spawned));
    TotalOfAtMostOne(Jobs, Lift(spawned));
    TotalOfAtMostOne(Wakeups, Lift(spawned));
    TotalOfAtMostOne(Tasks, Lift(spawned));
  }

  lemma MovedTotals(agents: seq<ServerPc>, i: nat, p: ServerPc, spawned: seq<ServerPc>)
    requires i < |agents|
    ensures var agents' := agents[i := p] + spawned;
            && Total(Owners, agents') - Total(Owners, agents) == Owners(p) - Owners(agents[i]) + Total(Owners, spawned)
            && Total(Jobs, agents') - Total(Jobs, agents) == Jobs(p) - Jobs(agents[i]) + Total(Jobs, spawned)
            && Total(Wakeups, agents') - Total(Wakeups, agents)
               == Wakeups(p) - Wakeups(agents[i]) + Total(Wakeups, spawned)
            && Total(Tasks, agents') - Total(Tasks, agents) == Tasks(p) - Tasks(agents[i]) + Total(Tasks, spawned)
  {
    TotalAfterMove(Owners, agents, i, p, spawned);
    TotalAfterMove(Jobs, agents, i, p, spawned);
    TotalAfterMove(Wakeups, agents, i, p, spawned);
    TotalAfterMove(Tasks, agents, i, p, spawned);
  }

  lemma NewAgentTotals(agents: seq<ServerPc>, p: ServerPc)
    ensures Total(Owners, agents + [p]) == Total(Owners, agents) + Owners(p)
    ensures Total(Jobs, agents + [p]) == Total(Jobs, agents) + Jobs(p)
    ensures Total(Wakeups, agents + [p]) == Total(Wakeups, agents) + Wakeups(p)
    ensures Total(Tasks, agents + [p]) == Total(Tasks, agents) + Tasks(p)
  {
    TotalOfConcat(Owners, agents, [p]);
    TotalOfConcat(Jobs, agents, [p]);
    TotalOfConcat(Wakeups, agents, [p]);
    TotalOfConcat(Tasks, agents, [p]);
  }

  /** Each of the six exits of a packet task takes the counter down, and nothing else in it does. */
  lemma PacketTaskBooks(at: PacketPc, tasks: int, p': ServerPc, tasks': int)
    requires PacketStep(at, tasks, p', tasks')
    ensures Tasks(p') - Tasks(Packet(at)) == tasks' - tasks && (p'.Packet? || p'.Ended?)
  {
  }

  /** What one operation outside the pump does to the four totals. */
  lemma WorkPumpBooks(s: State, p: ServerPc, p': ServerPc, task: seq<ServerPc>, s': State)
    requires WorkStep(s, p, p', task, s') && |task| <= 1
    ensures Owners(p') + (if task == [] then 0 else Owners(task[0])) == Owners(p) && s'.pump == s.pump
    ensures Jobs(p') + (if task == [] then 0 else Jobs(task[0])) == Jobs(p)
    ensures Wakeups(p') + (if task == [] then 0 else Wakeups(task[0])) == Wakeups(p)
  {
    if p.Packet? {
      PacketTaskBooks(p.at, s.tasks, p', s'.tasks);
    }
  }

  lemma WorkTaskBooks(s: State, p: ServerPc, p': ServerPc, task: seq<ServerPc>, s': State)
    requires WorkStep(s, p, p', task, s') && |task| <= 1
    ensures Tasks(p') + (if task == [] then 0 else Tasks(task[0])) - Tasks(p) == s'.tasks - s.tasks
  {
    if p.Packet? {
      PacketTaskBooks(p.at, s.tasks, p', s'.tasks);
    }
  }

  lemma WorkKeepsBooks(s: State, i: nat, to: ServerPc, task: seq<ServerPc>, s': State)
    requires Books(s) && Next(s, Work(i, to, task), s')
    ensures Books(s')
  {
    WorkPumpBooks(s, s.agents[i], to, task, s'.(agents := s.agents));
    WorkTaskBooks(s, s.agents[i], to, task, s'.(agents := s.agents));
    MovedTotals(s.agents, i, to, task);
    TotalOfAtMostOne(Owners, task);
    TotalOfAtMostOne(Jobs, task);
    TotalOfAtMostOne(Wakeups, task);
    TotalOfAtMostOne(Tasks, task);
  }

  lemma AdvanceKeepsBooks(s: State, i: nat, pc: Pc, pump: Shared, spawned: seq<Pc>, s': State)
    requires Books(s) && Next(s, Advance(i, pc, pump, spawned), s')
    ensures Books(s')
  {
    var gates, p := Gates(s.running, true), s.agents[i].pc;
    TotalCoversOne(Owners, s.agents, i);
    SpawnedTask(Server, gates, p, s.pump, pc, pump, spawned);
    StepKeepsBooks(Server, gates, p, s.pump, pc, pump, spawned);
    LiftedTotals(spawned);
    MovedTotals(s.agents, i, Pump(pc), Lift(spawned));
  }

  lemma OwnKeepsBooks(s: State, next: Owner, s': State)
    requires Books(s) && OwnStep(s, next, s')
    ensures Books(s')
  {
    NewAgentTotals(s.agents, IoLoop);
    NewAgentTotals(s.agents, Pump(CheckFirst(External)));
  }

  lemma NextKeepsBooks(s: State, m: Move, s': State)
    requires Books(s) && Next(s, m, s')
    ensures Books(s')
  {
    match m {
      case Own(next) => OwnKeepsBooks(s, next, s');
      case Work(i, to, task) => WorkKeepsBooks(s, i, to, task, s');
      case Advance(i, pc, pump, spawned) => AdvanceKeepsBooks(s, i, pc, pump, spawned, s');
    }
  }

  lemma {:induction false} RunKeepsBooks(states: seq<State>, moves: seq<Move>, k: nat)
    requires Run(states, moves) && k < |states|
    ensures Books(states[k]) && states[k].tasks >= 0
  {
    if k > 0 {
      RunKeepsBooks(states, moves, k - 1);
      NextKeepsBooks(states[k - 1], moves[k - 1], states[k]);
    }
  }

  predicate InTick(p: ServerPc) { p == Pump(Ticking) || InServe(p) }

  /** Two flush ticks never overlap. */
  lemma TicksNeverOverlap(states: seq<State>, moves: seq<Move>, k: nat, i: nat, j: nat)
    requires Run(states, moves) && k < |states|
    requires i < |states[k].agents| && j < |states[k].agents|
    requires InTick(states[k].agents[i]) && InTick(states[k].agents[j])
    ensures i == j && states[k].pump.scheduled
  {
    RunKeepsBooks(states, moves, k);
    TotalCoversOne(Owners, states[k].agents, i);
    if i < j {
      TotalCoversTwo(Owners, states[k].agents, i, j);
    } else if j < i {
      TotalCoversTwo(Owners, states[k].agents, j, i);
    }
  }
}
