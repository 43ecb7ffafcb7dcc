/** The two ways in which a started server can end up without a pump: the pool refuses a
    submission, or a start() that fails lets a wakeup of the previous epoch claim the flag. */
module ServerPumpLoss {
  import opened PumpCore
  import opened ServerPump

  ghost predicate Reachable(s: State)
  {
    exists states: seq<State>, moves: seq<Move> :: Run(states, moves) && states[|moves|] == s
  }

  lemma InitialIsReachable()
    ensures Reachable(INITIAL)
  {
    var moves: seq<Move> := [];
    assert Run([INITIAL], moves);
  }

  lemma Take(s: State, m: Move, s': State) returns (r: State)
    requires Reachable(s) && Next(s, m, s')
    ensures r == s' && Reachable(r)
  {
    r := s';
    var states, moves :| Run(states, moves) && states[|moves|] == s;
    assert Run(states + [s'], moves + [m]);
  }

  /** One operation of the owner. */
  lemma Do(s: State, next: Owner, s': State) returns (r: State)
    requires Reachable(s) && OwnStep(s, next, s')
    ensures r == s' && Reachable(r)
  {
    r := Take(s, Own(next), s');
  }

  /** One operation of pump agent `i`, which is at `p`. */
  lemma Go(s: State, i: nat, p: Pc, pc: Pc, pump: Shared) returns (r: State)
    requires Reachable(s) && i < |s.agents| && s.agents[i] == Pump(p)
    requires Step(Server, Gates(s.running, true), p, s.pump, pc, pump, [])
    ensures Reachable(r)
    ensures r == s.(pump := pump, refused := s.refused || Refuses(p, pc), agents := s.agents[i := Pump(pc)])
  {
    var agents := s.agents[i := Pump(pc)];
    assert agents + Lift([]) == agents;
    r := Take(s, Advance(i, pc, pump, []), s.(pump := pump, refused := s.refused || Refuses(p, pc), agents := agents));
  }

  /** The same for a submission that the pool accepts. */
  lemma Spawn(s: State, i: nat, p: Pc, pc: Pc, task: Pc) returns (r: State)
    requires Reachable(s) && i < |s.agents| && s.agents[i] == Pump(p)
    requires Step(Server, Gates(s.running, true), p, s.pump, pc, s.pump, [task]) && !Refuses(p, pc)
    ensures Reachable(r)
    ensures r == s.(agents := s.agents[i := Pump(pc)] + [Pump(task)])
  {
    r := Take(s, Advance(i, pc, s.pump, [task]), s.(agents := s.agents[i := Pump(pc)] + [Pump(task)]));
  }

  /** Job `i` counts and submits a delayed wakeup and returns. */
  lemma LeaveWakeup(s: State, i: nat) returns (r: State)
    requires Reachable(s) && i < |s.agents| && s.agents[i] == Pump(CountWakeup)
    ensures Reachable(r)
    ensures r == s.(pump := Shared(s.pump.scheduled, s.pump.jobs - 1, s.pump.wakeups + 1),
                    agents := s.agents[i := Pump(Finished)] + [Pump(WakeupDelayed)])
  {
    var counted := s.pump.(wakeups := s.pump.wakeups + 1);
    r := Go(s, i, CountWakeup, SubmitWakeup, counted);
    r := Spawn(r, i, SubmitWakeup, JobDone, WakeupDelayed);
    r := Go(r, i, JobDone, Finished, counted.(jobs := s.pump.jobs - 1));
    assert r.agents == s.agents[i := Pump(Finished)] + [Pump(WakeupDelayed)];
  }

  /** Agent `i` tests the running flag, claims the pump and submits its job. */
  lemma ClaimPump(s: State, i: nat, caller: Caller) returns (r: State)
    requires Reachable(s) && i < |s.agents| && s.agents[i] == Pump(CheckFirst(caller))
    requires s.running && !s.pump.scheduled
    ensures Reachable(r)
    ensures r == s.(pump := Shared(true, s.pump.jobs + 1, s.pump.wakeups),
                    agents := s.agents[i := Pump(Return(caller))] + [Pump(JobQueued)])
  {
    r := Go(s, i, CheckFirst(caller), Claim(caller), s.pump);
    r := Go(r, i, Claim(caller), CountJob(caller), s.pump.(scheduled := true));
    var counted := Shared(true, s.pump.jobs + 1, s.pump.wakeups);
    r := Go(r, i, CountJob(caller), SubmitJob(caller), counted);
    r := Spawn(r, i, SubmitJob(caller), Return(caller), JobQueued);
    assert r.agents == s.agents[i := Pump(Return(caller))] + [Pump(JobQueued)];
  }

  lemma StartTick(s: State, i: nat) returns (r: State)
    requires Reachable(s) && i < |s.agents| && s.agents[i] == Pump(JobQueued) && s.running
    ensures Reachable(r) && r == s.(agents := s.agents[i := Pump(Ticking)])
  {
    r := Go(s, i, JobQueued, JobCheckFirst, s.pump);
    r := Go(r, i, JobCheckFirst, Ticking, s.pump);
    assert r.agents == s.agents[i := Pump(Ticking)];
  }

  /** Job `i` runs a tick without progress and passes its last test of the running flag. */
  lemma TickIdly(s: State, i: nat) returns (r: State)
    requires Reachable(s) && i < |s.agents| && s.agents[i] == Pump(JobQueued)
    requires s.running && s.pump.scheduled
    ensures Reachable(r)
    ensures r == s.(pump := s.pump.(scheduled := false), agents := s.agents[i := Pump(CountWakeup)])
  {
    r := StartTick(s, i);
    r := Go(r, i, Ticking, JobRelease(false), s.pump);
    r := Go(r, i, JobRelease(false), RecheckFirst(false), s.pump.(scheduled := false));
    r := Go(r, i, RecheckFirst(false), CountWakeup, s.pump.(scheduled := false));
    assert r.agents == s.agents[i := Pump(CountWakeup)];
  }

  /** start() up to its call of the code that schedules the pump. */
  lemma Begin(s: State) returns (r: State)
    requires Reachable(s) && (s.owner.Stopped? || s.owner.Failed?)
    ensures Reachable(r)
    ensures r == s.(owner := StartPumping(|s.agents|, |s.agents| + 1), running := true, refused := false,
                    flagWasDown := !s.pump.scheduled, stopRequested := false,
                    agents := s.agents + [IoLoop, Pump(CheckFirst(External))])
  {
    var n := |s.agents|;
    r := Do(s, Starting, s.(owner := Starting, running := true, refused := false, flagWasDown := !s.pump.scheduled));
    r := Do(r, StartClear, r.(owner := StartClear));
    r := Do(r, StartIo, r.(owner := StartIo));
    r := Do(r, StartPump(n), r.(owner := StartPump(n), stopRequested := false, agents := s.agents + [IoLoop]));
    r := Do(r, StartPumping(n, n + 1),
            r.(owner := StartPumping(n, n + 1), agents := r.agents + [Pump(CheckFirst(External))]));
    assert r.agents == s.agents + [IoLoop, Pump(CheckFirst(External))];
  }

  /** A refused submission in start() leaves a running server without a pump. */
  lemma RefusalLosesThePump() returns (r: State)
    ensures Reachable(r) && r.owner.Started? && r.running && r.flagWasDown && r.refused
    ensures r.pump.jobs + r.pump.wakeups == 0
  {
    InitialIsReachable();
    r := Begin(INITIAL);
    r := Go(r, 1, CheckFirst(External), Claim(External), Shared(false, 0, 0));
    r := Go(r, 1, Claim(External), CountJob(External), Shared(true, 0, 0));
    r := Go(r, 1, CountJob(External), SubmitJob(External), Shared(true, 1, 0));
    r := Go(r, 1, SubmitJob(External), UncountJob(External), Shared(true, 1, 0));
    r := Go(r, 1, UncountJob(External), Release(External), Shared(true, 0, 0));
    r := Go(r, 1, Release(External), Finished, Shared(false, 0, 0));
    r := Do(r, Started(0), r.(owner := Started(0)));
  }

  /** An epoch whose first tick finds nothing to do, up to where its job counts a wakeup. */
  lemma EpochWithIdleTick() returns (r: State)
    ensures Reachable(r)
    ensures r == State(true, false, Shared(false, 1, 0), 0, Started(0), [IoLoop, Pump(Finished), Pump(CountWakeup)],
                       0, false, true)
  {
    InitialIsReachable();
    r := Begin(INITIAL);
    r := ClaimPump(r, 1, External);
    r := Do(r, Started(0), r.(owner := Started(0)));
    r := TickIdly(r, 2);
    assert r.agents == [IoLoop, Pump(Finished), Pump(CountWakeup)];
  }

  /** stop() sees no wakeup before the job counts one, and then waits for the job alone: the
      delayed wakeup outlives stop(). */
  lemma StopLeavesAWakeup() returns (r: State)
    ensures Reachable(r)
    ensures r == State(false, false, Shared(false, 0, 1), 0, Stopped,
                       [IoExited, Pump(Finished), Pump(Finished), Pump(WakeupDelayed)], 0, false, true)
  {
    r := EpochWithIdleTick();
    r := Do(r, JoinIo(0), r.(owner := JoinIo(0), running := false));
    r := Take(r, Work(0, IoExited, []), r.(agents := [IoExited, Pump(Finished), Pump(CountWakeup)]));
    r := Do(r, AwaitWakeups, r.(owner := AwaitWakeups));
    r := Do(r, AwaitJobs, r.(owner := AwaitJobs));
    r := LeaveWakeup(r, 2);
    r := Do(r, AwaitTasks, r.(owner := AwaitTasks));
    r := Do(r, StopClear, r.(owner := StopClear));
    r := Do(r, Stopped, r.(owner := Stopped));
    assert r.agents == [IoExited, Pump(Finished), Pump(Finished), Pump(WakeupDelayed)];
  }

  /** That wakeup claims the flag while another start() waits for the peer to start up. */
  lemma WakeupClaimsDuringStart() returns (r: State)
    ensures Reachable(r)
    ensures r == State(true, false, Shared(true, 1, 0), 0, Starting,
                       [IoExited, Pump(Finished), Pump(Finished), Pump(Finished), Pump(JobQueued)], 0, false, true)
  {
    r := StopLeavesAWakeup();
    r := Do(r, Starting, r.(owner := Starting, running := true, refused := false, flagWasDown := !r.pump.scheduled));
    r := Go(r, 3, WakeupDelayed, CheckFirst(Wakeup), Shared(false, 0, 1));
    r := ClaimPump(r, 3, Wakeup);
    r := Go(r, 3, WakeupDone, Finished, Shared(true, 1, 0));
    assert r.agents == [IoExited, Pump(Finished), Pump(Finished), Pump(Finished), Pump(JobQueued)];
  }

  /** The start() fails, and the job finds the server not running. */
  lemma FailedStartLeavesTheFlagUp() returns (r: State)
    ensures Reachable(r)
    ensures r == State(false, false, Shared(true, 1, 0), 0, Failed,
                       [IoExited, Pump(Finished), Pump(Finished), Pump(Finished), Pump(JobAbandon)], 0, false, true)
  {
    r := WakeupClaimsDuringStart();
    r := Do(r, Failed, r.(owner := Failed, running := false));
    r := Go(r, 4, JobQueued, JobCheckFirst, Shared(true, 1, 0));
    r := Go(r, 4, JobCheckFirst, JobAbandon, Shared(true, 1, 0));
    assert r.agents == [IoExited, Pump(Finished), Pump(Finished), Pump(Finished), Pump(JobAbandon)];
  }

  /** The next start() finds the flag taken by a job that only gives it up: no submission was
      refused, and yet the running server has no pump. */
  lemma FailedStartLosesThePump() returns (r: State)
    ensures Reachable(r) && r.owner.Started? && r.running && !r.flagWasDown && !r.refused
    ensures r.pump.jobs + r.pump.wakeups == 0
  {
    r := FailedStartLeavesTheFlagUp();
    r := Begin(r);
    r := Go(r, 6, CheckFirst(External), Claim(External), Shared(true, 1, 0));
    r := Go(r, 6, Claim(External), Finished, Shared(true, 1, 0));
    r := Do(r, Started(5), r.(owner := Started(5)));
    r := Go(r, 4, JobAbandon, JobDone, Shared(false, 1, 0));
    r := Go(r, 4, JobDone, Finished, Shared(false, 0, 0));
  }
}
