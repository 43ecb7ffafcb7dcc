/** The client never loses its pump: after a connect() that found the scheduled flag down, a job or a
    wakeup is pending as long as the client runs, is active and no submission is refused. */
module ClientPumpAlive {
  import opened Agents
  import opened PumpCore
  import opened ClientPump

  function Carries(p: ClientPc): nat { if p.Pump? then Carrying(p.pc) else 0 }

  ghost predicate NobodyAbandons(s: State)
  {
    forall i :: 0 <= i < |s.agents| ==> !(s.agents[i].Pump? && Abandons(s.agents[i].pc))
  }

  /** The call `i` has yet to make its attempt, or somebody carries the pump. */
  ghost predicate Alive(s: State, i: nat)
  {
    && i < |s.agents| && NobodyAbandons(s)
    && ((s.agents[i].Pump? && Attempts(s.agents[i].pc)) || Total(Carries, s.agents) >= 1)
  }

  /** The move is a submission that the pool refuses. */
  predicate Refused(s: State, m: Move)
  {
    m.Advance? && m.i < |s.agents| && s.agents[m.i].Pump? && Refuses(s.agents[m.i].pc, m.pc)
  }

  /** connect() number `i` stores the active flag. */
  predicate Connects(s: State, m: Move, i: nat)
  {
    i < |s.agents| && s.agents[i] == ConnectReady && m == Control(i, Pump(CheckFirst(External)))
  }

  lemma OwnersCarry(s: State)
    requires NobodyAbandons(s) && Books(s)
    ensures Total(Carries, s.agents) >= Flag(s.pump.scheduled)
  {
    forall i | 0 <= i < |s.agents| ensures Owners(s.agents[i]) <= Carries(s.agents[i]) {
      if s.agents[i].Pump? {
        OwnerCarries(s.agents[i].pc);
      }
    }
    TotalMonotone(Owners, Carries, s.agents);
  }

  lemma ConnectMakesAlive(s: State, m: Move, s': State, i: nat)
    requires Books(s) && Next(s, m, s') && Connects(s, m, i) && !s.pump.scheduled
    ensures Alive(s', i)
  {
    TotalZero(Owners, s.agents);
    forall j | 0 <= j < |s'.agents| ensures !(s'.agents[j].Pump? && Abandons(s'.agents[j].pc)) {
      assert j != i ==> s'.agents[j] == s.agents[j] && Owners(s.agents[j]) == 0;
    }
  }

  lemma AdvanceKeepsAlive(s: State, j: nat, pc: Pc, pump: Shared, spawned: seq<Pc>, s': State, i: nat)
    requires Books(s) && Books(s') && Alive(s, i) && s.running && s.active
    requires Next(s, Advance(j, pc, pump, spawned), s') && !Refused(s, Advance(j, pc, pump, spawned))
    ensures Alive(s', i)
  {
    var p := s.agents[j].pc;
    StepKeepsCarrying(Client, p, s.pump, pc, pump, spawned);
    SpawnedTask(Client, Gates(true, true), p, s.pump, pc, pump, spawned);
    TotalAfterMove(Carries, s.agents, j, Pump(pc), Lift(spawned));
    TotalOfAtMostOne(Carries, Lift(spawned));
    assert NobodyAbandons(s');
    OwnersCarry(s');
    TotalCoversOne(Carries, s'.agents, j);
  }

  lemma NextKeepsAlive(s: State, m: Move, s': State, i: nat)
    requires Books(s) && Alive(s, i) && s.running && s.active && Next(s, m, s') && !Refused(s, m)
    ensures Alive(s', i)
  {
    NextKeepsBooks(s, m, s');
    match m {
      case Enter(call) =>
        TotalOfConcat(Carries, s.agents, [call]);
      case Control(j, to) =>
        ControlIsWeightless(s, s.agents[j], to, s'.(agents := s.agents));
        ControlCarriesNothing(s, s.agents[j], to, s'.(agents := s.agents));
        TotalAfterMove(Carries, s.agents, j, to, []);
        assert s.agents[j := to] + [] == s'.agents;
      case Advance(j, pc, pump, spawned) =>
        AdvanceKeepsAlive(s, j, pc, pump, spawned, s', i);
    }
  }

  lemma ControlCarriesNothing(s: State, p: ClientPc, p': ClientPc, s': State)
    requires ControlStep(s, p, p', s')
    ensures !p.Pump? && Carries(p) == Carries(p') == 0 && !(p'.Pump? && Abandons(p'.pc))
  {
  }

  /** The client ran and was active in all these states, and no submission was refused between them. */
  ghost predicate Unbroken(states: seq<State>, moves: seq<Move>, from: nat, to: nat)
    requires |states| == |moves| + 1 && from <= to < |states|
  {
    && (forall k :: from <= k <= to ==> states[k].running && states[k].active)
    && (forall k :: from <= k < to ==> !Refused(states[k], moves[k]))
  }

  lemma {:induction false} StaysAlive(states: seq<State>, moves: seq<Move>, i: nat, a: nat, b: nat)
    requires Run(states, moves) && a < b < |states|
    requires Connects(states[a], moves[a], i) && !states[a].pump.scheduled
    requires Unbroken(states, moves, a + 1, b)
    ensures Books(states[b]) && Alive(states[b], i)
    decreases b
  {
    RunKeepsBooks(states, moves, b);
    assert Next(states[b - 1], moves[b - 1], states[b]);
    if a + 1 < b {
      StaysAlive(states, moves, i, a, b - 1);
      NextKeepsAlive(states[b - 1], moves[b - 1], states[b], i);
    } else {
      RunKeepsBooks(states, moves, a);
      ConnectMakesAlive(states[a], moves[a], states[b], i);
    }
  }

  /** In every run: when connect() number `i` has stored the active flag (move a) and found the
      scheduled flag down, then in every later state b up to which the client ran and was active and
      the pool refused nothing, once no connect() is under way a pump job or wakeup is pending. */
  lemma PumpIsNeverLost(states: seq<State>, moves: seq<Move>, i: nat, a: nat, b: nat)
    requires Run(states, moves) && a < b < |states|
    requires Connects(states[a], moves[a], i) && !states[a].pump.scheduled
    requires Unbroken(states, moves, a + 1, b) && NoConnect(states[b])
    ensures states[b].pump.jobs + states[b].pump.wakeups > 0
  {
    StaysAlive(states, moves, i, a, b);
    var s := states[b];
    TotalZero(Carries, s.agents);
    var j :| 0 <= j < |s.agents| && Carries(s.agents[j]) > 0;
    OwnerCarries(s.agents[j].pc);
    TotalCoversOne(Jobs, s.agents, j);
    TotalCoversOne(Wakeups, s.agents, j);
  }

  /** A connect() that follows a quiet disconnect() or stop() finds the flag down. */
  lemma DisconnectLeavesTheFlagDown(s: State)
    requires Books(s) && Quiescent(s)
    ensures !s.pump.scheduled
  {
    QuiescentMeansIdle(s);
  }
}
