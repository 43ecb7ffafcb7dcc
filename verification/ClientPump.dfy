/** The client's I/O pump together with `start`, `connect`, `disconnect` and `stop`, called by
    any number of threads.  One move is one atomic operation of one agent; memory is
    sequentially consistent.  A submission that the pool accepts runs its task once. */
module ClientPump {
  import opened Agents
  import opened PumpCore

  datatype ClientPc =
    | Pump(pc: Pc)
    | StartCall
    | Starting
    | ConnectCall
    | ConnectReady
    | StopCall
    | ClearActive       // where disconnect() begins
    | AwaitWakeups
    | AwaitJobs
    | Teardown(waited: bool)
    | Left

  datatype State = State(running: bool, active: bool, pump: Shared, agents: seq<ClientPc>)

  /** `Enter` is a new call from outside; the other moves let agent `i` do its next operation. */
  datatype Move =
    | Enter(call: ClientPc)
    | Control(i: nat, to: ClientPc)
    | Advance(i: nat, pc: Pc, pump: Shared, spawned: seq<Pc>)

  const INITIAL := State(false, false, Shared(false, 0, 0), [])

  function Lift(spawned: seq<Pc>): seq<ClientPc>
  {
    if spawned == [] then [] else [Pump(spawned[0])]
  }

  predicate ControlStep(s: State, p: ClientPc, p': ClientPc, s': State)
  {
    match p
    case StartCall =>
      p' == (if s.running then Left else Starting) && s' == s.(running := true)
    case Starting =>
      p' == Left && (s' == s || s' == s.(running := false))
    case ConnectCall =>
      p' == (if s.running then ConnectReady else Left) && s' == s
    case ConnectReady =>
      (p' == Left && s' == s) || (p' == Pump(CheckFirst(External)) && s' == s.(active := true))
    case StopCall =>
      p' == (if s.running then ClearActive else Teardown(false)) && s' == s.(running := false)
    case ClearActive =>
      p' == AwaitWakeups && s' == s.(active := false)
    case AwaitWakeups =>
      p' == (if s.pump.wakeups == 0 then AwaitJobs else AwaitWakeups) && s' == s
    case AwaitJobs =>
      p' == (if s.pump.jobs == 0 then Teardown(true) else AwaitJobs) && s' == s
    case Teardown(_) =>
      p' == Left && s' == s
    case _ => false
  }

  predicate Next(s: State, m: Move, s': State)
  {
    match m
    case Enter(call) =>
      && (call.StartCall? || call.ConnectCall? || call.StopCall? || call.ClearActive?)
      && s' == s.(agents := s.agents + [call])
    case Control(i, to) =>
      && i < |s.agents|
      && s'.agents == s.agents[i := to]
      && ControlStep(s, s.agents[i], to, s'.(agents := s.agents))
    case Advance(i, pc, pump, spawned) =>
      && i < |s.agents| && s.agents[i].Pump?
      && Step(Client, Gates(s.running, s.active), s.agents[i].pc, s.pump, pc, pump, spawned)
      && s' == s.(pump := pump, agents := s.agents[i := Pump(pc)] + Lift(spawned))
  }

  /** A run: every state follows from the one before by the move between them. */
  predicate Run(states: seq<State>, moves: seq<Move>)
  {
    && |states| == |moves| + 1
    && states[0] == INITIAL
    && forall k :: 0 <= k < |moves| ==> Next(states[k], moves[k], states[k + 1])
  }

  // ----- Books -----

  function Owners(p: ClientPc): nat { if p.Pump? then OwnerWeight(p.pc) else 0 }
  function Jobs(p: ClientPc): nat { if p.Pump? then JobWeight(p.pc) else 0 }
  function Wakeups(p: ClientPc): nat { if p.Pump? then WakeupWeight(p.pc) else 0 }

  /** The flag is up exactly when there is an owner, and there is at most one; the counters
      count jobs and wakeups. */
  ghost predicate Books(s: State)
  {
    && Total(Owners, s.agents) == Flag(s.pump.scheduled)
    && Total(Jobs, s.agents) == s.pump.jobs
    && Total(Wakeups, s.agents) == s.pump.wakeups
  }

  lemma LiftedTotals(spawned: seq<Pc>)
    requires |spawned| <= 1
    ensures Total(Owners, Lift(spawned)) == Total(OwnerWeight, spawned)
    ensures Total(Jobs, Lift(spawned)) == Total(JobWeight, spawned)
    ensures Total(Wakeups, Lift(spawned)) == Total(WakeupWeight, spawned)
  {
    TotalOfAtMostOne(OwnerWeight, spawned);
    TotalOfAtMostOne(JobWeight, spawned);
    TotalOfAtMostOne(WakeupWeight, spawned);
    TotalOfAtMostOne(Owners, Lift(spawned));
    TotalOfAtMostOne(Jobs, Lift(spawned));
    TotalOfAtMostOne(Wakeups, Lift(spawned));
  }

  lemma MovedTotals(agents: seq<ClientPc>, i: nat, p: ClientPc, spawned: seq<ClientPc>)
    requires i < |agents|
    ensures var agents' := agents[i := p] + spawned;
            && Total(Owners, agents') - Total(Owners, agents) == Owners(p) - Owners(agents[i]) + Total(Owners, spawned)
            && Total(Jobs, agents') - Total(Jobs, agents) == Jobs(p) - Jobs(agents[i]) + Total(Jobs, spawned)
            && Total(Wakeups, agents') - Total(Wakeups, agents)
               == Wakeups(p) - Wakeups(agents[i]) + Total(Wakeups, spawned)
  {
    TotalAfterMove(Owners, agents, i, p, spawned);
    TotalAfterMove(Jobs, agents, i, p, spawned);
    TotalAfterMove(Wakeups, agents, i, p, spawned);
  }

  lemma AdvanceKeepsBooks(s: State, i: nat, p: Pc, pc: Pc, pump: Shared, spawned: seq<Pc>)
    requires Books(s) && i < |s.agents| && s.agents[i] == Pump(p)
    requires Step(Client, Gates(s.running, s.active), p, s.pump, pc, pump, spawned)
    ensures Books(s.(pump := pump, agents := s.agents[i := Pump(pc)] + Lift(spawned)))
  {
    TotalCoversOne(Owners, s.agents, i);
    SpawnedTask(Client, Gates(s.running, s.active), p, s.pump, pc, pump, spawned);
    StepKeepsBooks(Client, Gates(s.running, s.active), p, s.pump, pc, pump, spawned);
    LiftedTotals(spawned);
    MovedTotals(s.agents, i, Pump(pc), Lift(spawned));
  }

  lemma ControlIsWeightless(s: State, p: ClientPc, p': ClientPc, s': State)
    requires ControlStep(s, p, p', s')
    ensures s'.pump == s.pump
    ensures Owners(p) == Owners(p') == Jobs(p) == Jobs(p') == Wakeups(p) == Wakeups(p') == 0
  {
  }

  lemma NextKeepsBooks(s: State, m: Move, s': State)
    requires Books(s) && Next(s, m, s')
    ensures Books(s')
  {
    match m {
      case Enter(call) =>
        TotalOfConcat(Owners, s.agents, [call]);
        TotalOfConcat(Jobs, s.agents, [call]);
        TotalOfConcat(Wakeups, s.agents, [call]);
      case Control(i, to) =>
        ControlIsWeightless(s, s.agents[i], to, s'.(agents := s.agents));
        MovedTotals(s.agents, i, to, []);
        assert s.agents[i := to] + [] == s'.agents;
      case Advance(i, pc, pump, spawned) =>
        AdvanceKeepsBooks(s, i, s.agents[i].pc, pc, pump, spawned);
    }
  }

  lemma {:induction false} RunKeepsBooks(states: seq<State>, moves: seq<Move>, k: nat)
    requires Run(states, moves) && k < |states|
    ensures Books(states[k])
  {
    if k > 0 {
      RunKeepsBooks(states, moves, k - 1);
      NextKeepsBooks(states[k - 1], moves[k - 1], states[k]);
    }
  }

  /** Two executions of the I/O tick never overlap, whatever races to schedule the pump, and
      the flag is up while one runs. */
  lemma TicksNeverOverlap(states: seq<State>, moves: seq<Move>, k: nat, i: nat, j: nat)
    requires Run(states, moves) && k < |states|
    requires i < |states[k].agents| && j < |states[k].agents|
    requires states[k].agents[i] == Pump(Ticking) && states[k].agents[j] == Pump(Ticking)
    ensures i == j && states[k].pump.scheduled
  {
    RunKeepsBooks(states, moves, k);
    TotalCoversOne(Owners, states[k].agents, i);
    if i < j {
      TotalCoversTwo(Owners, states[k].agents, i, j);
    } else if j < i {
      TotalCoversTwo(Owners, states[k].agents, j, i);
    }
  }

  // ----- Quiescence -----

  /** No connect() is between its store to the active flag and its return. */
  predicate NoConnect(s: State)
  {
    forall i :: 0 <= i < |s.agents| ==> s.agents[i].Pump? ==> !Scheduling(s.agents[i].pc, External)
  }

  predicate NoLateWakeup(s: State)
  {
    forall i :: 0 <= i < |s.agents| ==> s.agents[i].Pump? ==> !PastChecks(s.agents[i].pc, Wakeup)
  }

  predicate NoJob(s: State)
  {
    forall i :: 0 <= i < |s.agents| ==> s.agents[i].Pump? ==> !InJob(s.agents[i].pc)
  }

  predicate Cleared(s: State) { NoConnect(s) && !s.active }

  predicate ClearedOfWakeups(s: State) { Cleared(s) && NoLateWakeup(s) }

  /** Nothing of the pump is left but wakeups that have not passed the tests. */
  predicate Quiescent(s: State) { ClearedOfWakeups(s) && NoJob(s) }

  lemma NextKeepsCleared(s: State, m: Move, s': State)
    requires Cleared(s) && Next(s, m, s') && NoConnect(s')
    ensures Cleared(s')
  {
    if m.Control? {
      assert s'.agents[m.i] == m.to;
    }
  }

  /** With the active flag down no wakeup passes the tests. */
  lemma NextKeepsClearedOfWakeups(s: State, m: Move, s': State)
    requires ClearedOfWakeups(s) && Next(s, m, s') && NoConnect(s')
    ensures ClearedOfWakeups(s')
  {
    NextKeepsCleared(s, m, s');
  }

  lemma NextKeepsQuiescent(s: State, m: Move, s': State)
    requires Quiescent(s) && Next(s, m, s') && NoConnect(s')
    ensures Quiescent(s')
  {
    NextKeepsClearedOfWakeups(s, m, s');
  }

  /** A zero reading of the wakeup counter means that no wakeup exists; a zero reading of the
      job counter that no job does. */
  lemma ZeroCounters(s: State)
    requires Books(s)
    ensures s.pump.wakeups == 0 ==> NoLateWakeup(s)
    ensures s.pump.jobs == 0 ==> NoJob(s)
  {
    TotalZero(Wakeups, s.agents);
    TotalZero(Jobs, s.agents);
  }

  ghost predicate NoConnectBetween(states: seq<State>, from: nat, to: nat)
    requires from <= to < |states|
  {
    forall k :: from <= k <= to ==> NoConnect(states[k])
  }

  lemma {:induction false} StaysCleared(states: seq<State>, moves: seq<Move>, a: nat, b: nat)
    requires Run(states, moves) && a <= b < |states|
    requires NoConnectBetween(states, a, b) && Cleared(states[a])
    ensures Cleared(states[b])
    ensures ClearedOfWakeups(states[a]) ==> ClearedOfWakeups(states[b])
    ensures Quiescent(states[a]) ==> Quiescent(states[b])
    decreases b
  {
    if a < b {
      StaysCleared(states, moves, a, b - 1);
      NextKeepsCleared(states[b - 1], moves[b - 1], states[b]);
      if ClearedOfWakeups(states[a]) {
        NextKeepsClearedOfWakeups(states[b - 1], moves[b - 1], states[b]);
      }
      if Quiescent(states[a]) {
        NextKeepsQuiescent(states[b - 1], moves[b - 1], states[b]);
      }
    }
  }

  /** A quiescent pump runs no tick and counts no job, and its flag is down, so that the next
      connect() can claim it. */
  lemma QuiescentMeansIdle(s: State)
    requires Books(s) && Quiescent(s)
    ensures s.pump.jobs == 0 && !s.pump.scheduled
    ensures Pump(Ticking) !in s.agents && Pump(JobQueued) !in s.agents
  {
    TotalZero(Jobs, s.agents);
    TotalZero(Owners, s.agents);
    forall i | 0 <= i < |s.agents| ensures Jobs(s.agents[i]) == 0 && Owners(s.agents[i]) == 0 {
      if s.agents[i].Pump? {
        var p := s.agents[i].pc;
        assert !Scheduling(p, External) && !PastChecks(p, Wakeup) && !InJob(p);
        NoneOfTheseIsIdle(p);
      }
    }
  }

  lemma NoneOfTheseIsIdle(p: Pc)
    requires !Scheduling(p, External) && !PastChecks(p, Wakeup) && !InJob(p)
    ensures OwnerWeight(p) == 0 && JobWeight(p) == 0
  {
  }

  /** In every run: once agent `i` - a disconnect() or a stop() - has cleared the active flag
      (move a), then seen no wakeup (move b) and then no job (move c), no tick is running and
      none can start, up to any state d before which no connect() has stored the flag again. */
  lemma DisconnectQuiesces(states: seq<State>, moves: seq<Move>, i: nat, a: nat, b: nat, c: nat, d: nat)
    requires Run(states, moves) && a < b < c < d < |states|
    requires i < |states[a].agents| && states[a].agents[i] == ClearActive && moves[a] == Control(i, AwaitWakeups)
    requires i < |states[b].agents| && states[b].agents[i] == AwaitWakeups && moves[b] == Control(i, AwaitJobs)
    requires i < |states[c].agents| && states[c].agents[i] == AwaitJobs && moves[c] == Control(i, Teardown(true))
    requires NoConnectBetween(states, a, d)
    ensures Quiescent(states[d])
    ensures states[d].pump.jobs == 0 && !states[d].pump.scheduled
    ensures Pump(Ticking) !in states[d].agents && Pump(JobQueued) !in states[d].agents
  {
    assert Next(states[a], moves[a], states[a + 1]);
    StaysCleared(states, moves, a + 1, b);
    assert Next(states[b], moves[b], states[b + 1]);
    RunKeepsBooks(states, moves, b);
    ZeroCounters(states[b]);
    StaysCleared(states, moves, b, c);
    assert Next(states[c], moves[c], states[c + 1]);
    RunKeepsBooks(states, moves, c);
    ZeroCounters(states[c]);
    StaysCleared(states, moves, c, d);
    RunKeepsBooks(states, moves, d);
    QuiescentMeansIdle(states[d]);
  }
}
