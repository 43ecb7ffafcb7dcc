/** What start() and stop() of the server can rely on: a stopped server is quiescent, and a
    started one never loses its pump, in every run. */
module ServerShutdown {
  import opened Agents
  import opened PumpCore
  import opened ServerPump

  // ----- What may still exist at each location of the owner -----

  predicate IsRunning(o: Owner)
  {
    o.Starting? || o.StartClear? || o.StartIo? || o.StartPump? || o.StartPumping? || o.Started?
  }

  /** The I/O thread exists and is agent `i`. */
  predicate IoIs(o: Owner, i: int)
  {
    (o.StartPump? || o.StartPumping? || o.Started? || o.JoinIo?) && o.io == i
  }

  predicate WakeupsDrained(o: Owner) { o.AwaitJobs? || JobsDrained(o) }

  predicate JobsDrained(o: Owner) { o.AwaitTasks? || TasksDrained(o) }

  predicate TasksDrained(o: Owner) { o.StopClear? || o.Stopped? }

  /** The second test of the pump's guards exists only in the client. */
  predicate SecondTest(p: ServerPc)
  {
    p.Pump? && (p.pc.CheckSecond? || p.pc.JobCheckSecond? || p.pc.RecheckSecond?)
  }

  /** Agent number `i` may be at `p` while the owner is at `o`. */
  predicate Allowed(o: Owner, i: int, p: ServerPc)
  {
    && !SecondTest(p)
    && (IoActive(p) ==> IoIs(o, i))
    && (p.Pump? && Scheduling(p.pc, External) ==> o.StartPumping? && o.agent == i)
    && (WakeupsDrained(o) ==> !(p.Pump? && PastChecks(p.pc, Wakeup)))
    && (JobsDrained(o) ==> !(p.Pump? && InJob(p.pc)) && !InServe(p))
    && (TasksDrained(o) ==> !InTask(p))
  }

  ghost predicate Located(s: State)
  {
    && (s.running <==> IsRunning(s.owner))
    && (s.owner.StartPumping? ==> s.owner.agent < |s.agents|)
    && (forall i :: 0 <= i < |s.agents| ==> Allowed(s.owner, i, s.agents[i]))
  }

  lemma AdvanceIsAllowed(o: Owner, i: int, p: Pc, shared: Shared, p': Pc, shared': Shared, spawned: seq<Pc>)
    requires Allowed(o, i, Pump(p))
    requires Step(Server, Gates(IsRunning(o), true), p, shared, p', shared', spawned)
    ensures Allowed(o, i, Pump(p'))
  {
    AdvanceStaysChecked(o, i, p, shared, p', shared', spawned);
    AdvanceStaysDrained(o, i, p, shared, p', shared', spawned);
  }

  lemma AdvanceStaysChecked(o: Owner, i: int, p: Pc, shared: Shared, p': Pc, shared': Shared, spawned: seq<Pc>)
    requires !SecondTest(Pump(p)) && (Scheduling(p, External) ==> o.StartPumping? && o.agent == i)
    requires Step(Server, Gates(IsRunning(o), true), p, shared, p', shared', spawned)
    ensures !SecondTest(Pump(p')) && (Scheduling(p', External) ==> o.StartPumping? && o.agent == i)
  {
  }

  lemma AdvanceStaysDrained(o: Owner, i: int, p: Pc, shared: Shared, p': Pc, shared': Shared, spawned: seq<Pc>)
    requires !SecondTest(Pump(p))
    requires (WakeupsDrained(o) ==> !PastChecks(p, Wakeup)) && (JobsDrained(o) ==> !InJob(p))
    requires Step(Server, Gates(IsRunning(o), true), p, shared, p', shared', spawned)
    ensures WakeupsDrained(o) ==> !PastChecks(p', Wakeup)
    ensures JobsDrained(o) ==> !InJob(p')
  {
  }

  lemma SpawnedIsAllowed(o: Owner, i: int, p: Pc, j: int)
    requires Allowed(o, i, Pump(p))
    ensures p.SubmitJob? ==> Allowed(o, j, Pump(JobQueued))
    ensures p.SubmitWakeup? ==> Allowed(o, j, Pump(WakeupDelayed))
  {
  }

  lemma WorkIsAllowed(s: State, i: int, p: ServerPc, to: ServerPc, task: seq<ServerPc>, s': State)
    requires Allowed(s.owner, i, p)
    requires WorkStep(s, p, to, task, s')
    ensures Allowed(s.owner, i, to)
    ensures task != [] ==> forall j :: Allowed(s.owner, j, task[0])
  {
    WorkStaysAllowed(s, i, p, to, task, s');
    NewTaskIsAllowed(s, i, p, to, task, s');
  }

  lemma WorkStaysAllowed(s: State, i: int, p: ServerPc, to: ServerPc, task: seq<ServerPc>, s': State)
    requires Allowed(s.owner, i, p) && WorkStep(s, p, to, task, s')
    ensures Allowed(s.owner, i, to)
  {
  }

  /** A strand task is started by a tick or by the I/O thread only. */
  lemma NewTaskIsAllowed(s: State, i: int, p: ServerPc, to: ServerPc, task: seq<ServerPc>, s': State)
    requires Allowed(s.owner, i, p) && WorkStep(s, p, to, task, s')
    ensures task != [] ==> task == [FlushQueued] || task == [Packet(Waiting)]
    ensures task != [] ==> forall j :: Allowed(s.owner, j, task[0])
  {
  }

  lemma ZeroCounters(s: State, i: nat)
    requires Books(s) && i < |s.agents|
    ensures s.pump.wakeups == 0 ==> Wakeups(s.agents[i]) == 0
    ensures s.pump.jobs == 0 ==> Jobs(s.agents[i]) == 0
    ensures s.tasks == 0 ==> Tasks(s.agents[i]) == 0
  {
    TotalCoversOne(Wakeups, s.agents, i);
    TotalCoversOne(Jobs, s.agents, i);
    TotalCoversOne(Tasks, s.agents, i);
  }

  lemma OwnKeepsAllowed(s: State, next: Owner, s': State, i: nat)
    requires Books(s) && Located(s) && OwnStep(s, next, s') && i < |s.agents|
    ensures Allowed(s'.owner, i, s'.agents[i])
  {
    ZeroCounters(s, i);
    assert Allowed(s.owner, i, s.agents[i]);
  }

  lemma MovedAgentsAllowed(s: State, s': State, i: nat, p: ServerPc, task: seq<ServerPc>)
    requires Located(s) && i < |s.agents| && s'.agents == s.agents[i := p] + task
    requires s'.owner == s.owner && s'.running == s.running
    requires Allowed(s.owner, i, p) && |task| <= 1
    requires task != [] ==> forall j :: Allowed(s.owner, j, task[0])
    ensures Located(s')
  {
  }

  lemma OwnKeepsLocated(s: State, next: Owner, s': State)
    requires Books(s) && Located(s) && OwnStep(s, next, s')
    ensures Located(s')
  {
    forall i | 0 <= i < |s.agents| ensures Allowed(s'.owner, i, s'.agents[i]) {
      OwnKeepsAllowed(s, next, s', i);
    }
    assert forall i :: |s.agents| <= i < |s'.agents| ==> Allowed(s'.owner, i, s'.agents[i]);
  }

  lemma NextKeepsLocated(s: State, m: Move, s': State)
    requires Books(s) && Located(s) && Next(s, m, s')
    ensures Located(s')
  {
    match m {
      case Own(next) =>
        OwnKeepsLocated(s, next, s');
      case Advance(i, pc, pump, spawned) =>
        SpawnedTask(Server, Gates(s.running, true), s.agents[i].pc, s.pump, pc, pump, spawned);
        AdvanceIsAllowed(s.owner, i, s.agents[i].pc, s.pump, pc, pump, spawned);
        forall j ensures Lift(spawned) != [] ==> Allowed(s.owner, j, Lift(spawned)[0]) {
          SpawnedIsAllowed(s.owner, i, s.agents[i].pc, j);
        }
        MovedAgentsAllowed(s, s', i, Pump(pc), Lift(spawned));
      case Work(i, to, task) =>
        WorkIsAllowed(s, i, s.agents[i], to, task, s'.(agents := s.agents));
        WorkLeavesOwner(s, s.agents[i], to, task, s'.(agents := s.agents));
        MovedAgentsAllowed(s, s', i, to, task);
    }
  }

  lemma WorkLeavesOwner(s: State, p: ServerPc, to: ServerPc, task: seq<ServerPc>, s': State)
    requires WorkStep(s, p, to, task, s')
    ensures s'.owner == s.owner && s'.running == s.running && s'.flagWasDown == s.flagWasDown
    ensures s'.refused == s.refused && s'.pump == s.pump
  {
  }

  lemma NextKeepsBoth(s: State, m: Move, s': State)
    requires Books(s) && Located(s) && Next(s, m, s')
    ensures Books(s') && Located(s')
  {
    NextKeepsBooks(s, m, s');
    NextKeepsLocated(s, m, s');
  }

  lemma {:induction false} RunKeepsLocated(states: seq<State>, moves: seq<Move>, k: nat)
    requires Run(states, moves) && k < |states|
    ensures Books(states[k]) && Located(states[k])
  {
    if k > 0 {
      RunKeepsLocated(states, moves, k - 1);
      NextKeepsBoth(states[k - 1], moves[k - 1], states[k]);
    }
  }

  // ----- Quiescence -----

  /** No I/O thread, no pump job, no tick, no counted strand task; the flag is down, so that
      start() can claim the pump; and no wakeup is past its test of the running flag. */
  ghost predicate Quiescent(s: State)
  {
    && !s.running && !s.pump.scheduled && s.pump.jobs == 0 && s.tasks == 0
    && (forall p :: p in s.agents ==> !IoActive(p) && !InTask(p) && !InTick(p))
    && (forall p :: p in s.agents ==> !(p.Pump? && (InJob(p.pc) || PastChecks(p.pc, Wakeup))))
  }

  lemma AllowedWhenDrained(o: Owner, i: int, p: ServerPc)
    requires TasksDrained(o) && Allowed(o, i, p)
    ensures Owners(p) == 0 && Jobs(p) == 0 && Tasks(p) == 0 && !IoActive(p) && !InTask(p) && !InTick(p)
    ensures p.Pump? ==> !InJob(p.pc) && !PastChecks(p.pc, Wakeup)
  {
  }

  /** When stop() has joined the I/O thread and seen no wakeup, then no job, then no task, the
      server is quiescent; it stays so in every state until start() is entered again. */
  lemma StopQuiesces(states: seq<State>, moves: seq<Move>, k: nat)
    requires Run(states, moves) && k < |states|
    requires TasksDrained(states[k].owner)
    ensures Quiescent(states[k])
  {
    RunKeepsLocated(states, moves, k);
    var s := states[k];
    forall i | 0 <= i < |s.agents|
      ensures Owners(s.agents[i]) == 0 && Jobs(s.agents[i]) == 0 && Tasks(s.agents[i]) == 0
    {
      AllowedWhenDrained(s.owner, i, s.agents[i]);
    }
    TotalZero(Owners, s.agents);
    TotalZero(Jobs, s.agents);
    TotalZero(Tasks, s.agents);
    forall p | p in s.agents
      ensures !IoActive(p) && !InTask(p) && !InTick(p) && !(p.Pump? && (InJob(p.pc) || PastChecks(p.pc, Wakeup)))
    {
      var i :| 0 <= i < |s.agents| && s.agents[i] == p;
      AllowedWhenDrained(s.owner, i, p);
    }
  }

  /** Between the end of stop()'s waits and the next start() no Schedule command is produced. */
  lemma {:induction false} NoScheduleAfterStop(states: seq<State>, moves: seq<Move>, a: nat, b: nat)
    requires Run(states, moves) && a <= b < |states|
    requires forall k :: a <= k <= b ==> TasksDrained(states[k].owner)
    ensures states[b].scheduled == states[a].scheduled
    decreases b
  {
    if a < b {
      NoScheduleAfterStop(states, moves, a, b - 1);
      StopQuiesces(states, moves, b - 1);
      var s, m := states[b - 1], moves[b - 1];
      assert Next(s, m, states[b]);
      if m.Work? {
        assert s.agents[m.i] in s.agents;
      }
    }
  }

  // ----- The pump is never lost -----

  predicate GivesUp(p: ServerPc)
  {
    p.Pump? && Abandons(p.pc)
  }

  function Carries(p: ServerPc): nat
  {
    if InServe(p) then 1 else if p.Pump? then Carrying(p.pc) else 0
  }

  /** start() found the flag down, and nothing was refused since. */
  predicate Sound(s: State) { s.running && s.flagWasDown && !s.refused }

  ghost predicate NobodyGivesUp(s: State)
  {
    forall i :: 0 <= i < |s.agents| ==> !GivesUp(s.agents[i])
  }

  ghost predicate PumpAlive(s: State)
  {
    Sound(s) ==>
      && NobodyGivesUp(s)
      && (s.owner.Started? ==> Total(Carries, s.agents) >= 1)
      && (s.owner.StartPumping? && s.owner.agent < |s.agents| ==>
            || s.agents[s.owner.agent] == Pump(CheckFirst(External))
            || s.agents[s.owner.agent] == Pump(Claim(External))
            || Total(Carries, s.agents) >= 1)
  }

  lemma OwnersCarry(s: State)
    requires NobodyGivesUp(s) && Located(s) && Books(s)
    ensures Total(Carries, s.agents) >= Flag(s.pump.scheduled)
  {
    forall i | 0 <= i < |s.agents| ensures Owners(s.agents[i]) <= Carries(s.agents[i]) {
      assert Allowed(s.owner, i, s.agents[i]) && !GivesUp(s.agents[i]);
    }
    TotalMonotone(Owners, Carries, s.agents);
  }

  lemma AdvanceKeepsPumpAlive(s: State, i: nat, pc: Pc, pump: Shared, spawned: seq<Pc>, s': State)
    requires Books(s) && Located(s) && PumpAlive(s) && Next(s, Advance(i, pc, pump, spawned), s')
    requires Books(s') && Located(s')
    ensures PumpAlive(s')
  {
    if Sound(s') {
      var p := s.agents[i].pc;
      assert Allowed(s.owner, i, s.agents[i]) && !GivesUp(s.agents[i]);
      StepKeepsCarrying(Server, p, s.pump, pc, pump, spawned);
      SpawnedTask(Server, Gates(true, true), p, s.pump, pc, pump, spawned);
      TotalAfterMove(Carries, s.agents, i, Pump(pc), Lift(spawned));
      TotalOfAtMostOne(Carries, Lift(spawned));
      assert NobodyGivesUp(s');
      OwnersCarry(s');
      TotalCoversOne(Carries, s'.agents, i);
    }
  }

  lemma WorkKeepsCarrying(s: State, p: ServerPc, to: ServerPc, task: seq<ServerPc>, s': State)
    requires WorkStep(s, p, to, task, s') && !GivesUp(p)
    ensures Carries(to) == Carries(p) && !GivesUp(to)
    ensures task != [] ==> Carries(task[0]) == 0 && !GivesUp(task[0])
    ensures p.Pump? ==> p == Pump(Ticking)
  {
  }

  lemma WorkKeepsPumpAlive(s: State, i: nat, to: ServerPc, task: seq<ServerPc>, s': State)
    requires Located(s) && PumpAlive(s) && Next(s, Work(i, to, task), s')
    ensures PumpAlive(s')
  {
    WorkLeavesOwner(s, s.agents[i], to, task, s'.(agents := s.agents));
    if Sound(s') {
      assert !GivesUp(s.agents[i]);
      WorkKeepsCarrying(s, s.agents[i], to, task, s'.(agents := s.agents));
      TotalAfterMove(Carries, s.agents, i, to, task);
    }
  }

  /** With the flag down nobody is about to give it up; and start() returns only after its own
      attempt to claim the pump. */
  lemma OwnKeepsPumpAlive(s: State, next: Owner, s': State)
    requires Books(s) && Located(s) && PumpAlive(s) && OwnStep(s, next, s')
    ensures PumpAlive(s')
  {
    if Sound(s') {
      if s.owner.Stopped? || s.owner.Failed? {
        TotalZero(Owners, s.agents);
        assert forall i :: 0 <= i < |s.agents| ==> Owners(s.agents[i]) == 0;
      }
      TotalOfConcat(Carries, s.agents, [IoLoop]);
    }
  }

  ghost predicate Invariant(s: State)
  {
    Books(s) && Located(s) && PumpAlive(s)
  }

  lemma NextKeepsInvariant(s: State, m: Move, s': State)
    requires Invariant(s) && Next(s, m, s')
    ensures Invariant(s')
  {
    NextKeepsBooks(s, m, s');
    NextKeepsLocated(s, m, s');
    match m {
      case Own(next) => OwnKeepsPumpAlive(s, next, s');
      case Advance(i, pc, pump, spawned) => AdvanceKeepsPumpAlive(s, i, pc, pump, spawned, s');
      case Work(i, to, task) =>
        WorkLeavesOwner(s, s.agents[i], to, task, s'.(agents := s.agents));
        WorkKeepsPumpAlive(s, i, to, task, s');
    }
  }

  lemma {:induction false} RunKeepsInvariant(states: seq<State>, moves: seq<Move>, k: nat)
    requires Run(states, moves) && k < |states|
    ensures Invariant(states[k])
  {
    if k > 0 {
      RunKeepsInvariant(states, moves, k - 1);
      NextKeepsInvariant(states[k - 1], moves[k - 1], states[k]);
    }
  }

  /** In every run, while a started server runs, a pump job or a pump wakeup is pending, as long as
      start() found the flag down and the pool has refused no pump submission since. */
  lemma PumpIsNeverLost(states: seq<State>, moves: seq<Move>, k: nat)
    requires Run(states, moves) && k < |states|
    requires states[k].owner.Started? && states[k].flagWasDown && !states[k].refused
    ensures states[k].pump.jobs + states[k].pump.wakeups > 0
  {
    RunKeepsInvariant(states, moves, k);
    var s := states[k];
    TotalZero(Carries, s.agents);
    var i :| 0 <= i < |s.agents| && Carries(s.agents[i]) > 0;
    assert Allowed(s.owner, i, s.agents[i]);
    TotalCoversOne(Jobs, s.agents, i);
    TotalCoversOne(Wakeups, s.agents, i);
  }

  /** After a completed stop() the flag is down, so that only a start() that failed in between can
      have left it up. */
  lemma StopLeavesTheFlagDown(states: seq<State>, moves: seq<Move>, k: nat)
    requires Run(states, moves) && k + 1 < |states|
    requires states[k].owner.Stopped? && states[k + 1].owner.Starting?
    ensures states[k + 1].flagWasDown
  {
    StopQuiesces(states, moves, k);
    assert Next(states[k], moves[k], states[k + 1]);
  }

  // ----- The I/O thread -----

  /** From its start until stop() asks it to end the I/O thread is there. */
  predicate IoAlive(s: State)
  {
    s.owner.StartPump? || s.owner.StartPumping? || s.owner.Started? ==>
      !s.stopRequested && s.owner.io < |s.agents| && IoActive(s.agents[s.owner.io])
  }

  lemma WorkKeepsIo(s: State, p: ServerPc, to: ServerPc, task: seq<ServerPc>, s': State)
    requires WorkStep(s, p, to, task, s')
    ensures s'.stopRequested == s.stopRequested
    ensures IoActive(p) && s.running && !s.stopRequested ==> IoActive(to)
  {
  }

  lemma NextKeepsIo(s: State, m: Move, s': State)
    requires Located(s) && IoAlive(s) && Next(s, m, s')
    ensures IoAlive(s')
  {
    if m.Work? {
      WorkKeepsIo(s, s.agents[m.i], m.to, m.task, s'.(agents := s.agents));
      WorkLeavesOwner(s, s.agents[m.i], m.to, m.task, s'.(agents := s.agents));
    }
  }

  lemma {:induction false} RunKeepsIo(states: seq<State>, moves: seq<Move>, k: nat)
    requires Run(states, moves) && k < |states|
    ensures IoAlive(states[k])
  {
    if k > 0 {
      RunKeepsIo(states, moves, k - 1);
      RunKeepsLocated(states, moves, k - 1);
      NextKeepsIo(states[k - 1], moves[k - 1], states[k]);
    }
  }

  /** In every run the I/O thread of a started server goes on receiving until stop() is entered. */
  lemma IoThreadStays(states: seq<State>, moves: seq<Move>, k: nat)
    requires Run(states, moves) && k < |states| && states[k].owner.Started?
    ensures var s := states[k];
            s.running && s.owner.io < |s.agents| && IoActive(s.agents[s.owner.io]) && IoExited != s.agents[s.owner.io]
  {
    RunKeepsIo(states, moves, k);
    RunKeepsLocated(states, moves, k);
  }
}
