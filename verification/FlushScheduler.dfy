/** The flush scheduler of the server: a command queue in front of a priority queue with a
    token map, updated in place. */
module FlushScheduler {
  import opened FlushClock
  import opened FlushSchedule
  import opened FlushTick

  class Scheduler {
    var commands: seq<Command>
    var heap: seq<Entry>
    var tokens: map<Guid, nat>
    var nextToken: nat
    var flushReadyPerTick: nat

    function Value(): Table
      reads this
    {
      Table(heap, tokens, nextToken)
    }

    /** The plain map that this scheduler stands for, queued commands included. */
    ghost predicate StandsFor(m: map<Guid, Time>)
      reads this
    {
      Valid(Value()) && Represents(ApplyAll(Value(), commands), m)
    }

    constructor (readyPerTick: nat)
      ensures Value() == EMPTY && commands == [] && flushReadyPerTick == readyPerTick
      ensures StandsFor(map[])
    {
      commands, heap, tokens, nextToken := [], [], map[], 1;
      flushReadyPerTick := readyPerTick;
      new;
      ClearedIsValid();
    }

    method ApplyFlushScheduleCommandUnlocked(c: Command)
      modifies `heap, `tokens, `nextToken
      ensures Value() == Apply(old(Value()), c)
    {
      if c.Schedule? {
        var token := nextToken;
        nextToken := nextToken + 1;
        tokens := tokens[c.guid := token];
        heap := Push(heap, Entry(c.due, c.guid, token));
        return;
      }
      tokens := tokens - {c.guid};
    }

    method DrainFlushScheduleCommandsUnlocked()
      modifies `commands, `heap, `tokens, `nextToken
      ensures commands == []
      ensures Value() == ApplyAll(old(Value()), old(commands))
    {
      while commands != []
        invariant ApplyAll(Value(), commands) == ApplyAll(old(Value()), old(commands))
        decreases |commands|
      {
        var command := commands[0];
        commands := commands[1..];
        ApplyFlushScheduleCommandUnlocked(command);
      }
    }

    /** Queue the command, or apply it behind everything queued when the queue refuses it:
        either way it acts after what was there. */
    method Submit(c: Command, accepted: bool)
      modifies `commands, `heap, `tokens, `nextToken
      ensures ApplyAll(Value(), commands) == ApplyAll(old(Value()), old(commands) + [c])
      ensures accepted ==> commands == old(commands) + [c] && Value() == old(Value())
      ensures !accepted ==> commands == []
    {
      ApplyAllConcat(Value(), commands, [c]);
      if accepted {
        commands := commands + [c];
        return;
      }
      DrainFlushScheduleCommandsUnlocked();
      ApplyFlushScheduleCommandUnlocked(c);
    }

    method ScheduleSessionFlushAt(guid: Guid, due: Time, accepted: bool, ghost m: map<Guid, Time>)
      requires StandsFor(m)
      modifies `commands, `heap, `tokens, `nextToken
      ensures StandsFor(m[guid := due])
    {
      SubmitRefines(Value(), commands, Schedule(guid, due), m, accepted);
      Submit(Schedule(guid, due), accepted);
    }

    method CancelSessionFlush(guid: Guid, accepted: bool, ghost m: map<Guid, Time>)
      requires StandsFor(m)
      modifies `commands, `heap, `tokens, `nextToken
      ensures StandsFor(m - {guid})
    {
      SubmitRefines(Value(), commands, Cancel(guid), m, accepted);
      Submit(Cancel(guid), accepted);
    }

    method ClearFlushSchedule()
      modifies `commands, `heap, `tokens, `nextToken
      ensures commands == [] && Value() == EMPTY
      ensures StandsFor(map[])
    {
      DrainFlushScheduleCommandsUnlocked();
      while heap != []
        invariant commands == []
        decreases |heap|
      {
        heap := heap[1..];
      }
      tokens := map[];
      nextToken := 1;
      ClearedIsValid();
    }

    /** What becomes of a popped entry: only a strand that took the task counts as progress. */
    method Dispatch(entry: Entry, now: Time, outcome: Outcome) returns (progressed: bool)
      modifies `commands, `heap, `tokens, `nextToken
      ensures commands == old(commands) + Reaction(entry, now, outcome) && Value() == old(Value())
      ensures progressed <==> outcome.Enqueued?
    {
      progressed := false;
      match outcome {
        case NoContext => Submit(Cancel(entry.guid), true);
        case NotConnected => Submit(Cancel(entry.guid), true);
        case Enqueued => progressed := true;
        case Refused(connected) =>
          if connected {
            Submit(Schedule(entry.guid, NextScheduledFlushDue(entry.due, now)), true);
          } else {
            Submit(Cancel(entry.guid), true);
          }
      }
    }

    /** One tick.  `arrivals` are the commands that other threads queue before each drain, and
        `outcomes[i]` is the fate of the i-th guid served. */
    method FlushTickOnce(now: Time, arrivals: seq<seq<Command>>, outcomes: seq<Outcome>)
        returns (served: seq<Entry>, progressed: bool)
      requires |outcomes| == flushReadyPerTick
      modifies `commands, `heap, `tokens, `nextToken
      ensures TickResult(Value(), commands, served, progressed)
           == Tick(old(Value()), old(commands), now, arrivals, outcomes)
    {
      served, progressed := [], false;
      var processedReady := 0;
      var pending := arrivals;
      while processedReady < flushReadyPerTick
        invariant 0 <= processedReady <= flushReadyPerTick
        invariant Tick(old(Value()), old(commands), now, arrivals, outcomes)
               == Prepend(served, progressed, Tick(Value(), commands, now, pending, outcomes[processedReady..]))
        decreases CountDue(heap, now) + CountDueCommands(commands, now) + CountDueArrivals(pending, now)
      {
        TickRound(Value(), commands, now, pending, outcomes[processedReady..], served, progressed);
        commands := commands + FirstBatch(pending);
        pending := LaterBatches(pending);
        DrainFlushScheduleCommandsUnlocked();
        if heap == [] || heap[0].due > now {
          commands := Flatten(pending);
          return;
        }
        var entry := heap[0];
        heap := heap[1..];
        if entry.guid !in tokens || tokens[entry.guid] != entry.token {
          continue;
        }
        var outcome := outcomes[processedReady];
        processedReady := processedReady + 1;
        served := served + [entry];
        var enqueued := Dispatch(entry, now, outcome);
        progressed := progressed || enqueued;
        assert commands == Reaction(entry, now, outcome);
      }
      commands := commands + Flatten(pending);
    }
  }

  function Prepend(served: seq<Entry>, progressed: bool, r: TickResult): TickResult
  {
    r.(served := served + r.served, progressed := progressed || r.progressed)
  }

  /** One round of the tick's loop, seen from what was served before it. */
  lemma TickRound(t: Table, queue: seq<Command>, now: Time, arrivals: seq<seq<Command>>, outcomes: seq<Outcome>,
                  served: seq<Entry>, progressed: bool)
    requires outcomes != []
    ensures var drained, later := ApplyAll(t, queue + FirstBatch(arrivals)), LaterBatches(arrivals);
            var all := Prepend(served, progressed, Tick(t, queue, now, arrivals, outcomes));
            if drained.heap == [] || drained.heap[0].due > now then
              all == TickResult(drained, Flatten(later), served, progressed)
            else
              var e, next := drained.heap[0], Pop(drained);
              && CountDue(next.heap, now) + CountDueArrivals(later, now)
                 < CountDue(t.heap, now) + CountDueCommands(queue, now) + CountDueArrivals(arrivals, now)
              && (forall o :: CountDueCommands(Reaction(e, now, o), now) == 0)
              && if !IsLive(drained, e) then
                   all == Prepend(served, progressed, Tick(next, [], now, later, outcomes))
                 else
                   all == Prepend(served + [e], progressed || outcomes[0].Enqueued?,
                                  Tick(next, Reaction(e, now, outcomes[0]), now, later, outcomes[1..]))
  {
    DrainMeasure(t, queue, now, arrivals);
    var drained, later := ApplyAll(t, queue + FirstBatch(arrivals)), LaterBatches(arrivals);
    if drained.heap != [] && drained.heap[0].due <= now {
      var e := drained.heap[0];
      forall o ensures CountDueCommands(Reaction(e, now, o), now) == 0 {
        ReactionIsNotDue(e, now, o);
      }
      var rest := Tick(Pop(drained), Reaction(e, now, outcomes[0]), now, later, outcomes[1..]).served;
      assert served + ([e] + rest) == (served + [e]) + rest;
    }
  }

  lemma SubmitRefines(t: Table, commands: seq<Command>, c: Command, m: map<Guid, Time>, accepted: bool)
    requires Valid(t) && Represents(ApplyAll(t, commands), m)
    ensures Valid(ApplyAll(t, commands + [c]))
    ensures Represents(ApplyAll(t, commands + [c]), PlainApply(m, c))
  {
    ApplyAllConcat(t, commands, [c]);
    ApplyAllKeepsValid(t, commands);
    ApplyRefinesPlainMap(ApplyAll(t, commands), m, c);
  }
}
