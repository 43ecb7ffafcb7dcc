/** The ways in which a running, active client can end up without a pump: the pool refuses a
    submission, a connect() races a disconnect(), or a start() races a stop(). */
module ClientPumpLoss {
  import opened PumpCore
  import opened ClientPump
  import opened ClientPumpOrder

  /** A refused submission in connect() leaves a running, active client without a pump. */
  lemma RefusalLosesThePump() returns (r: State)
    ensures Reachable(r) && r.running && r.active && NoConnect(r)
    ensures !r.pump.scheduled && r.pump.jobs + r.pump.wakeups == 0
  {
    r := Connecting();
    r := Go(r, 1, CheckFirst(External), CheckSecond(External), r.pump);
    r := Go(r, 1, CheckSecond(External), Claim(External), r.pump);
    r := Go(r, 1, Claim(External), CountJob(External), Shared(true, 0, 0));
    r := Go(r, 1, CountJob(External), SubmitJob(External), Shared(true, 1, 0));
    r := Go(r, 1, SubmitJob(External), UncountJob(External), Shared(true, 1, 0));
    r := Go(r, 1, UncountJob(External), Release(External), Shared(true, 0, 0));
    r := Go(r, 1, Release(External), Finished, Shared(false, 0, 0));
    assert r.agents == [Left, Pump(Finished)];
  }

  /** A disconnect() clears the active flag, and the queued job sees it. */
  lemma JobGivesUp() returns (r: State)
    ensures Reachable(r)
    ensures r == State(true, false, Shared(true, 1, 0), [Left, Pump(Finished), Pump(JobAbandon), AwaitWakeups])
  {
    r := Connected();
    r := Take(r, Enter(ClearActive), r.(agents := r.agents + [ClearActive]));
    r := Take(r, Control(3, AwaitWakeups), r.(active := false, agents := r.agents[3 := AwaitWakeups]));
    r := Go(r, 2, JobQueued, JobCheckFirst, r.pump);
    r := Go(r, 2, JobCheckFirst, JobCheckSecond, r.pump);
    r := Go(r, 2, JobCheckSecond, JobAbandon, r.pump);
    assert r.agents == [Left, Pump(Finished), Pump(JobAbandon), AwaitWakeups];
  }

  /** A connect() meanwhile makes the client active again ... */
  lemma ConnectsMeanwhile() returns (r: State)
    ensures Reachable(r)
    ensures r == State(true, true, Shared(true, 1, 0),
                       [Left, Pump(Finished), Pump(JobAbandon), AwaitWakeups, Pump(CheckFirst(External))])
  {
    r := JobGivesUp();
    r := Take(r, Enter(ConnectCall), r.(agents := r.agents + [ConnectCall]));
    r := Take(r, Control(4, ConnectReady), r.(agents := r.agents[4 := ConnectReady]));
    r := Take(r, Control(4, Pump(CheckFirst(External))),
              r.(active := true, agents := r.agents[4 := Pump(CheckFirst(External))]));
    assert r.agents == [Left, Pump(Finished), Pump(JobAbandon), AwaitWakeups, Pump(CheckFirst(External))];
  }

  /** ... but finds the flag taken by the job that only gives it up: no submission was refused, and
      the running, active client has no pump. */
  lemma ConnectDuringDisconnectLosesThePump() returns (r: State)
    ensures Reachable(r) && r.running && r.active && NoConnect(r)
    ensures !r.pump.scheduled && r.pump.jobs + r.pump.wakeups == 0
  {
    r := ConnectsMeanwhile();
    r := Go(r, 4, CheckFirst(External), CheckSecond(External), r.pump);
    r := Go(r, 4, CheckSecond(External), Claim(External), r.pump);
    r := Go(r, 4, Claim(External), Finished, r.pump);
    r := Go(r, 2, JobAbandon, JobDone, Shared(false, 1, 0));
    r := Go(r, 2, JobDone, Finished, Shared(false, 0, 0));
    assert r.agents == [Left, Pump(Finished), Pump(Finished), AwaitWakeups, Pump(Finished)];
  }

  /** A stop() whose running flag a start() raises again before the active flag is cleared: the job
      has given up in between. */
  lemma RestartLosesThePump() returns (r: State)
    ensures Reachable(r) && r.running && r.active && NoConnect(r)
    ensures !r.pump.scheduled && r.pump.jobs + r.pump.wakeups == 0
  {
    r := Connected();
    r := Take(r, Enter(StopCall), r.(agents := r.agents + [StopCall]));
    r := Take(r, Control(3, ClearActive), r.(running := false, agents := r.agents[3 := ClearActive]));
    r := Go(r, 2, JobQueued, JobCheckFirst, r.pump);
    r := Go(r, 2, JobCheckFirst, JobAbandon, r.pump);
    r := Go(r, 2, JobAbandon, JobDone, Shared(false, 1, 0));
    r := Go(r, 2, JobDone, Finished, Shared(false, 0, 0));
    assert r.agents == [Left, Pump(Finished), Pump(Finished), ClearActive];
    r := RestartBeforeClear(r);
  }

  lemma RestartBeforeClear(s: State) returns (r: State)
    requires Reachable(s)
    requires s == State(false, true, Shared(false, 0, 0), [Left, Pump(Finished), Pump(Finished), ClearActive])
    ensures Reachable(r) && r.running && r.active && NoConnect(r) && r.pump == Shared(false, 0, 0)
  {
    r := Take(s, Enter(StartCall), s.(agents := s.agents + [StartCall]));
    r := Take(r, Control(4, Starting), r.(running := true, agents := r.agents[4 := Starting]));
    r := Take(r, Control(4, Left), r.(agents := r.agents[4 := Left]));
    assert r.agents == [Left, Pump(Finished), Pump(Finished), ClearActive, Left];
  }
}
