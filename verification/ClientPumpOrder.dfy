/** Why disconnect() waits for wakeups before jobs: seen in the other order, both counters can
    read zero while a job is pending and holds the flag. */
module ClientPumpOrder {
  import opened PumpCore
  import opened ClientPump

  /** The run passes through `from` and then, with no connect() under way, comes to `to`. */
  ghost predicate Path(states: seq<State>, moves: seq<Move>, k: nat, from: State, to: State)
  {
    && Run(states, moves) && k < |states| && states[k] == from && states[|moves|] == to
    && NoConnectBetween(states, k, |moves|)
  }

  ghost predicate Leads(from: State, to: State)
  {
    exists states, moves, k: nat :: Path(states, moves, k, from, to)
  }

  ghost predicate Reachable(s: State)
  {
    exists states, moves :: Run(states, moves) && states[|moves|] == s
  }

  lemma Take(s: State, m: Move, s': State) returns (r: State)
    requires Reachable(s) && Next(s, m, s')
    ensures r == s' && Reachable(r)
  {
    r := s';
    var states, moves :| Run(states, moves) && states[|moves|] == s;
    assert Run(states + [s'], moves + [m]);
  }

  lemma LeadsToItself(s: State)
    requires Reachable(s) && NoConnect(s)
    ensures Leads(s, s)
  {
    var states, moves :| Run(states, moves) && states[|moves|] == s;
    assert NoConnectBetween(states, |moves|, |moves|);
    assert Path(states, moves, |moves|, s, s);
  }

  lemma LeadsOn(from: State, s: State, m: Move, s': State) returns (r: State)
    requires Leads(from, s) && Next(s, m, s') && NoConnect(s')
    ensures r == s' && Leads(from, r)
  {
    r := s';
    var states, moves, k: nat :| Path(states, moves, k, from, s);
    var longer := states + [s'];
    assert Run(longer, moves + [m]) && longer[k] == from && longer[|moves| + 1] == s';
    assert NoConnectBetween(longer, k, |moves| + 1);
    assert Path(longer, moves + [m], k, from, s');
  }

  /** One operation of pump agent `i`, which is at `p`. */
  lemma Go(s: State, i: nat, p: Pc, pc: Pc, pump: Shared) returns (r: State)
    requires Reachable(s) && i < |s.agents| && s.agents[i] == Pump(p)
    requires Step(Client, Gates(s.running, s.active), p, s.pump, pc, pump, [])
    ensures Reachable(r) && r == s.(pump := pump, agents := s.agents[i := Pump(pc)])
  {
    var agents := s.agents[i := Pump(pc)];
    assert agents + Lift([]) == agents;
    r := Take(s, Advance(i, pc, pump, []), s.(pump := pump, agents := agents));
  }

  lemma Spawn(s: State, i: nat, p: Pc, pc: Pc, task: Pc) returns (r: State)
    requires Reachable(s) && i < |s.agents| && s.agents[i] == Pump(p)
    requires Step(Client, Gates(s.running, s.active), p, s.pump, pc, s.pump, [task])
    ensures Reachable(r) && r == s.(agents := s.agents[i := Pump(pc)] + [Pump(task)])
  {
    r := Take(s, Advance(i, pc, s.pump, [task]), s.(agents := s.agents[i := Pump(pc)] + [Pump(task)]));
  }

  /** start() and connect() up to where the latter schedules the pump. */
  lemma Connecting() returns (r: State)
    ensures Reachable(r)
    ensures r == State(true, true, Shared(false, 0, 0), [Left, Pump(CheckFirst(External))])
  {
    var moves: seq<Move> := [];
    assert Run([INITIAL], moves);
    r := Take(INITIAL, Enter(StartCall), INITIAL.(agents := [StartCall]));
    r := Take(r, Control(0, Starting), r.(running := true, agents := [Starting]));
    r := Take(r, Control(0, Left), r.(agents := [Left]));
    r := Take(r, Enter(ConnectCall), r.(agents := [Left, ConnectCall]));
    r := Take(r, Control(1, ConnectReady), r.(agents := [Left, ConnectReady]));
    r := Take(r, Control(1, Pump(CheckFirst(External))),
              r.(active := true, agents := [Left, Pump(CheckFirst(External))]));
  }

  /** connect() returns with its job queued. */
  lemma Connected() returns (r: State)
    ensures Reachable(r)
    ensures r == State(true, true, Shared(true, 1, 0), [Left, Pump(Finished), Pump(JobQueued)])
  {
    r := Connecting();
    r := Go(r, 1, CheckFirst(External), CheckSecond(External), r.pump);
    r := Go(r, 1, CheckSecond(External), Claim(External), r.pump);
    r := Go(r, 1, Claim(External), CountJob(External), Shared(true, 0, 0));
    r := Go(r, 1, CountJob(External), SubmitJob(External), Shared(true, 1, 0));
    r := Spawn(r, 1, SubmitJob(External), Finished, JobQueued);
    assert r.agents == [Left, Pump(Finished), Pump(JobQueued)];
  }

  /** The job ticks without progress. */
  lemma Ticked() returns (r: State)
    ensures Reachable(r)
    ensures r == State(true, true, Shared(true, 1, 0), [Left, Pump(Finished), Pump(JobRelease(false))])
  {
    r := Connected();
    r := Go(r, 2, JobQueued, JobCheckFirst, r.pump);
    r := Go(r, 2, JobCheckFirst, JobCheckSecond, r.pump);
    r := Go(r, 2, JobCheckSecond, Ticking, r.pump);
    r := Go(r, 2, Ticking, JobRelease(false), r.pump);
    assert r.agents == [Left, Pump(Finished), Pump(JobRelease(false))];
  }

  lemma Rechecked() returns (r: State)
    ensures Reachable(r)
    ensures r == State(true, true, Shared(false, 1, 0), [Left, Pump(Finished), Pump(CountWakeup)])
  {
    r := Ticked();
    r := Go(r, 2, JobRelease(false), RecheckFirst(false), Shared(false, 1, 0));
    r := Go(r, 2, RecheckFirst(false), RecheckSecond(false), r.pump);
    r := Go(r, 2, RecheckSecond(false), CountWakeup, r.pump);
    assert r.agents == [Left, Pump(Finished), Pump(CountWakeup)];
  }

  /** It leaves a delayed wakeup and is done. */
  lemma WakeupLeft() returns (r: State)
    ensures Reachable(r)
    ensures r == State(true, true, Shared(false, 0, 1), [Left, Pump(Finished), Pump(Finished), Pump(WakeupDelayed)])
  {
    r := Rechecked();
    r := Go(r, 2, CountWakeup, SubmitWakeup, Shared(false, 1, 1));
    r := Spawn(r, 2, SubmitWakeup, JobDone, WakeupDelayed);
    r := Go(r, 2, JobDone, Finished, Shared(false, 0, 1));
    assert r.agents == [Left, Pump(Finished), Pump(Finished), Pump(WakeupDelayed)];
  }

  /** The wakeup passes both tests; only then disconnect() clears the active flag. */
  lemma ClearedTooLate() returns (r: State)
    ensures Reachable(r)
    ensures r == State(true, false, Shared(false, 0, 1),
                       [Left, Pump(Finished), Pump(Finished), Pump(Claim(Wakeup)), AwaitWakeups])
  {
    r := WakeupLeft();
    r := Go(r, 3, WakeupDelayed, CheckFirst(Wakeup), r.pump);
    r := Go(r, 3, CheckFirst(Wakeup), CheckSecond(Wakeup), r.pump);
    r := Go(r, 3, CheckSecond(Wakeup), Claim(Wakeup), r.pump);
    r := Take(r, Enter(ClearActive), r.(agents := r.agents + [ClearActive]));
    r := Take(r, Control(4, AwaitWakeups), r.(active := false, agents := r.agents[4 := AwaitWakeups]));
    assert r.agents == [Left, Pump(Finished), Pump(Finished), Pump(Claim(Wakeup)), AwaitWakeups];
  }

  /** One operation of a pump agent after the first reading. */
  lemma GoOn(from: State, s: State, i: nat, p: Pc, pc: Pc, pump: Shared, spawned: seq<Pc>) returns (r: State)
    requires Leads(from, s) && NoConnect(s) && i < |s.agents| && s.agents[i] == Pump(p) && |spawned| <= 1
    requires Step(Client, Gates(s.running, s.active), p, s.pump, pc, pump, spawned)
    requires !Scheduling(pc, External) && (spawned == [] || spawned == [JobQueued])
    ensures Leads(from, r) && NoConnect(r)
    ensures r == s.(pump := pump, agents := s.agents[i := Pump(pc)] + Lift(spawned))
  {
    r := LeadsOn(from, s, Advance(i, pc, pump, spawned),
                 s.(pump := pump, agents := s.agents[i := Pump(pc)] + Lift(spawned)));
  }

  /** Between the two readings the wakeup claims the flag and counts a job. */
  lemma WakeupClaims() returns (first: State, second: State)
    ensures Leads(first, second) && NoConnect(second) && !first.active && first.pump.jobs == 0
    ensures second == State(true, false, Shared(true, 1, 1),
                            [Left, Pump(Finished), Pump(Finished), Pump(SubmitJob(Wakeup)), AwaitWakeups])
  {
    first := ClearedTooLate();
    LeadsToItself(first);
    second := GoOn(first, first, 3, Claim(Wakeup), CountJob(Wakeup), Shared(true, 0, 1), []);
    second := GoOn(first, second, 3, CountJob(Wakeup), SubmitJob(Wakeup), Shared(true, 1, 1), []);
    assert second.agents == [Left, Pump(Finished), Pump(Finished), Pump(SubmitJob(Wakeup)), AwaitWakeups];
  }

  /** With the active flag down, no job first and then, without a connect(), no wakeup - and yet a
      job is pending and the flag is up, so that a later connect() could not claim the pump. */
  lemma JobsThenWakeupsIsNotEnough() returns (first: State, second: State)
    ensures Leads(first, second)
    ensures !first.active && first.pump.jobs == 0
    ensures !second.active && second.pump.wakeups == 0
    ensures second.pump.jobs == 1 && second.pump.scheduled && Pump(JobQueued) in second.agents
  {
    first, second := WakeupClaims();
    second := GoOn(first, second, 3, SubmitJob(Wakeup), WakeupDone, Shared(true, 1, 1), [JobQueued]);
    second := GoOn(first, second, 3, WakeupDone, Finished, Shared(true, 1, 0), []);
    assert second.agents[5] == Pump(JobQueued);
  }
}
