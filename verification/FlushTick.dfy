/** One flush tick: drain the command queue, pop what is due, hand it to the session's strand,
    until nothing is due or the budget is used up.  What other threads do meanwhile is a
    parameter: the commands they put in the queue before each drain, and what becomes of each
    served session. */
module FlushTick {
  import opened FlushClock
  import opened FlushSchedule

  /** The fate of a served guid: no session for it, a session that is already disconnected,
      its strand took the flush task, or the strand refused the task. */
  datatype Outcome = NoContext | NotConnected | Enqueued | Refused(connected: bool)

  datatype TickResult = TickResult(table: Table, queue: seq<Command>, served: seq<Entry>, progressed: bool)

  /** The command that the tick itself puts in the queue after serving `e`. */
  function Reaction(e: Entry, now: Time, outcome: Outcome): seq<Command>
  {
    match outcome
    case NoContext => [Cancel(e.guid)]
    case NotConnected => [Cancel(e.guid)]
    case Enqueued => []
    case Refused(connected) =>
      if connected then [Schedule(e.guid, NextScheduledFlushDue(e.due, now))] else [Cancel(e.guid)]
  }

  predicate DueCommand(c: Command, now: Time) { c.Schedule? && c.due <= now }

  function CountDue(heap: seq<Entry>, now: Time): nat
  {
    if heap == [] then 0 else (if heap[0].due <= now then 1 else 0) + CountDue(heap[1..], now)
  }

  function CountDueCommands(cs: seq<Command>, now: Time): nat
  {
    if cs == [] then 0 else (if DueCommand(cs[0], now) then 1 else 0) + CountDueCommands(cs[1..], now)
  }

  function CountDueArrivals(arrivals: seq<seq<Command>>, now: Time): nat
  {
    if arrivals == [] then 0 else CountDueCommands(arrivals[0], now) + CountDueArrivals(arrivals[1..], now)
  }

  function FirstBatch(arrivals: seq<seq<Command>>): seq<Command>
  {
    if arrivals == [] then [] else arrivals[0]
  }

  function LaterBatches(arrivals: seq<seq<Command>>): seq<seq<Command>>
  {
    if arrivals == [] then [] else arrivals[1..]
  }

  /** The tick with a budget of |outcomes| served guids.  It terminates whatever the finitely
      many arrivals are: every round pops one due entry, and no reaction is due. */
  function Tick(t: Table, queue: seq<Command>, now: Time, arrivals: seq<seq<Command>>,
                outcomes: seq<Outcome>): TickResult
    decreases CountDue(t.heap, now) + CountDueCommands(queue, now) + CountDueArrivals(arrivals, now)
  {
    if outcomes == [] then TickResult(t, queue + Flatten(arrivals), [], false)
    else
      var drained := ApplyAll(t, queue + FirstBatch(arrivals));
      var later := LaterBatches(arrivals);
      if drained.heap == [] || drained.heap[0].due > now then TickResult(drained, Flatten(later), [], false)
      else
        DrainMeasure(t, queue, now, arrivals);
        var e := drained.heap[0];
        if !IsLive(drained, e) then Tick(Pop(drained), [], now, later, outcomes)
        else
          ReactionIsNotDue(e, now, outcomes[0]);
          var rest := Tick(Pop(drained), Reaction(e, now, outcomes[0]), now, later, outcomes[1..]);
          rest.(served := [e] + rest.served, progressed := outcomes[0].Enqueued? || rest.progressed)
  }

  /** Batches that arrive after the tick's last drain stay in the queue. */
  function Flatten(arrivals: seq<seq<Command>>): seq<Command>
  {
    if arrivals == [] then [] else arrivals[0] + Flatten(arrivals[1..])
  }

  // ----- Termination -----

  lemma {:induction false} PushCount(heap: seq<Entry>, e: Entry, now: Time)
    ensures CountDue(Push(heap, e), now) == CountDue(heap, now) + if e.due <= now then 1 else 0
  {
    if heap == [] || Before(e, heap[0]) {
      assert ([e] + heap)[1..] == heap;
    } else {
      PushCount(heap[1..], e, now);
      assert ([heap[0]] + Push(heap[1..], e))[1..] == Push(heap[1..], e);
    }
  }

  lemma {:induction false} ApplyAllCount(t: Table, cs: seq<Command>, now: Time)
    ensures CountDue(ApplyAll(t, cs).heap, now) == CountDue(t.heap, now) + CountDueCommands(cs, now)
    decreases |cs|
  {
    if cs != [] {
      if cs[0].Schedule? {
        PushCount(t.heap, Entry(cs[0].due, cs[0].guid, t.nextToken), now);
      }
      ApplyAllCount(Apply(t, cs[0]), cs[1..], now);
    }
  }

  lemma {:induction false} CountDueCommandsConcat(a: seq<Command>, b: seq<Command>, now: Time)
    ensures CountDueCommands(a + b, now) == CountDueCommands(a, now) + CountDueCommands(b, now)
  {
    if a == [] {
      assert a + b == b;
    } else {
      assert (a + b)[1..] == a[1..] + b;
      CountDueCommandsConcat(a[1..], b, now);
    }
  }

  /** Due entries in the heap and due commands, counted together, stay the same when the queue is
      drained, and shrink when a due entry is popped then. */
  lemma DrainMeasure(t: Table, queue: seq<Command>, now: Time, arrivals: seq<seq<Command>>)
    ensures var drained := ApplyAll(t, queue + FirstBatch(arrivals));
            var later := CountDueArrivals(LaterBatches(arrivals), now);
            var before := CountDue(t.heap, now) + CountDueCommands(queue, now) + CountDueArrivals(arrivals, now);
            && CountDue(drained.heap, now) + later == before
            && (drained.heap != [] && drained.heap[0].due <= now ==> CountDue(Pop(drained).heap, now) + later < before)
  {
    ApplyAllCount(t, queue + FirstBatch(arrivals), now);
    CountDueCommandsConcat(queue, FirstBatch(arrivals), now);
  }

  lemma ReactionIsNotDue(e: Entry, now: Time, outcome: Outcome)
    ensures CountDueCommands(Reaction(e, now, outcome), now) == 0
    ensures forall c :: c in Reaction(e, now, outcome) ==> c.guid == e.guid && (c.Schedule? ==> c.due > now)
  {
    NextDueIsLeastGridPoint(e.due, now);
  }

  // ----- What a tick serves -----

  /** No other thread schedules anything at or before the tick's instant after its first drain: no
      flush task of an earlier tick finishes late, and no session connects at the same instant. */
  ghost predicate NothingDue(cs: seq<Command>, now: Time)
  {
    forall c :: c in cs ==> !DueCommand(c, now)
  }

  ghost predicate NoDueArrivals(arrivals: seq<seq<Command>>, now: Time)
  {
    forall k :: 0 <= k < |arrivals| ==> NothingDue(arrivals[k], now)
  }

  ghost predicate IsDue(t: Table, g: Guid, now: Time)
  {
    exists e :: e in LiveEntries(t) && e.guid == g && e.due <= now
  }

  ghost predicate DistinctGuids(es: seq<Entry>)
  {
    forall i, j :: 0 <= i < j < |es| ==> es[i].guid != es[j].guid
  }

  /** Everything in `served` was live and due in `drained`, in (due, token) order, and no guid
      comes twice. */
  ghost predicate ServedFrom(served: seq<Entry>, drained: Table, now: Time)
  {
    && Sorted(served)
    && DistinctGuids(served)
    && forall e :: e in served ==> e in LiveEntries(drained) && e.due <= now
  }

  lemma ServeFirst(drained: Table, cs: seq<Command>, now: Time, rest: seq<Entry>)
    requires Valid(drained) && drained.heap != [] && IsLive(drained, drained.heap[0]) && drained.heap[0].due <= now
    requires NothingDue(cs, now) && Valid(Pop(drained))
    requires ServedFrom(rest, ApplyAll(Pop(drained), cs), now)
    ensures ServedFrom([drained.heap[0]] + rest, drained, now)
  {
    var top := drained.heap[0];
    LiveEntriesAfterPop(drained);
    UndueDrainKeepsOrigin(Pop(drained), cs, now);
    LiveEntriesAreUnique(drained, map[], map[]);
    assert top in LiveEntries(drained);
    forall i | 0 <= i < |rest| ensures Before(top, rest[i]) && top.guid != rest[i].guid {
      assert rest[i] in rest;
    }
  }

  /** If nothing that is due arrives after the first drain, a tick serves only guids that were live
      and due then, each once, in (due, token) order. */
  lemma {:induction false} TickServesInOrder(t: Table, queue: seq<Command>, now: Time, arrivals: seq<seq<Command>>,
                                             outcomes: seq<Outcome>)
    requires Valid(t) && NoDueArrivals(LaterBatches(arrivals), now)
    ensures var r := Tick(t, queue, now, arrivals, outcomes);
            && Valid(r.table)
            && |r.served| <= |outcomes|
            && ServedFrom(r.served, ApplyAll(t, queue + FirstBatch(arrivals)), now)
    decreases CountDue(t.heap, now) + CountDueCommands(queue, now) + CountDueArrivals(arrivals, now)
  {
    if outcomes != [] {
      var drained := ApplyAll(t, queue + FirstBatch(arrivals));
      ApplyAllKeepsValid(t, queue + FirstBatch(arrivals));
      if drained.heap != [] && drained.heap[0].due <= now {
        DrainMeasure(t, queue, now, arrivals);
        var e, later, next := drained.heap[0], LaterBatches(arrivals), Pop(drained);
        LiveEntriesAfterPop(drained);
        if IsLive(drained, e) {
          ReactionIsNotDue(e, now, outcomes[0]);
          TickServesInOrder(next, Reaction(e, now, outcomes[0]), now, later, outcomes[1..]);
          ServeFirst(drained, Reaction(e, now, outcomes[0]) + FirstBatch(later), now,
                     Tick(next, Reaction(e, now, outcomes[0]), now, later, outcomes[1..]).served);
        } else {
          TickServesInOrder(next, [], now, later, outcomes);
          UndueDrainKeepsOrigin(next, [] + FirstBatch(later), now);
        }
      }
    }
  }

  /** A task of an earlier tick that finishes during this one can make the order fail: its guid was
      in flight when the tick began, and is served behind a later deadline. */
  lemma LateTaskComesOutOfOrder() returns (r: TickResult)
    ensures r == Tick(Table([Entry(50, 8, 2)], map[7 := 1, 8 := 2], 3), [], 100, [[], [Schedule(7, 40)]],
                      [Enqueued, Enqueued])
    ensures r.served == [Entry(50, 8, 2), Entry(40, 7, 3)] && !Sorted(r.served)
  {
    var t := Table([Entry(50, 8, 2)], map[7 := 1, 8 := 2], 3);
    LastServed(Pop(t));
    r := Tick(t, [], 100, [[], [Schedule(7, 40)]], [Enqueued, Enqueued]);
    assert Before(r.served[1], r.served[0]);
  }

  lemma LastServed(t: Table)
    requires t == Table([], map[7 := 1, 8 := 2], 3)
    ensures Tick(t, [], 100, [[Schedule(7, 40)]], [Enqueued]).served == [Entry(40, 7, 3)]
  {
    var late := Table([Entry(40, 7, 3)], map[7 := 3, 8 := 2], 4);
    assert [] + [Schedule(7, 40)] == [Schedule(7, 40)];
    assert Apply(t, Schedule(7, 40)) == late;
    assert ApplyAll(t, [Schedule(7, 40)]) == ApplyAll(late, []);
    assert Tick(Pop(late), [], 100, [], []).served == [];
  }

  /** Entries that are due after draining undue commands were live before. */
  lemma {:induction false} UndueDrainKeepsOrigin(t: Table, cs: seq<Command>, now: Time)
    requires Valid(t) && NothingDue(cs, now)
    ensures Valid(ApplyAll(t, cs))
    ensures forall e :: e in LiveEntries(ApplyAll(t, cs)) && e.due <= now ==> e in LiveEntries(t)
    decreases |cs|
  {
    if cs != [] {
      LiveEntriesAfterApply(t, cs[0]);
      assert !DueCommand(cs[0], now) by { assert cs[0] in cs; }
      UndueDrainKeepsOrigin(Apply(t, cs[0]), cs[1..], now);
    }
  }

  /** A tick reports progress exactly when some strand took a flush task. */
  lemma {:induction false} ProgressMeansEnqueued(t: Table, queue: seq<Command>, now: Time,
                                                 arrivals: seq<seq<Command>>, outcomes: seq<Outcome>)
    ensures var r := Tick(t, queue, now, arrivals, outcomes);
            && |r.served| <= |outcomes|
            && (r.progressed <==> exists i :: 0 <= i < |r.served| && outcomes[i].Enqueued?)
    decreases CountDue(t.heap, now) + CountDueCommands(queue, now) + CountDueArrivals(arrivals, now)
  {
    if outcomes != [] {
      var drained, later := ApplyAll(t, queue + FirstBatch(arrivals)), LaterBatches(arrivals);
      if drained.heap != [] && drained.heap[0].due <= now {
        DrainMeasure(t, queue, now, arrivals);
        var e := drained.heap[0];
        if IsLive(drained, e) {
          ReactionIsNotDue(e, now, outcomes[0]);
          ProgressMeansEnqueued(Pop(drained), Reaction(e, now, outcomes[0]), now, later, outcomes[1..]);
          var rest := Tick(Pop(drained), Reaction(e, now, outcomes[0]), now, later, outcomes[1..]);
          OneMoreOutcome(|rest.served|, outcomes);
        } else {
          ProgressMeansEnqueued(Pop(drained), [], now, later, outcomes);
        }
      }
    }
  }

  lemma OneMoreOutcome(n: nat, outcomes: seq<Outcome>)
    requires n < |outcomes|
    ensures (exists i :: 0 <= i < n + 1 && outcomes[i].Enqueued?)
       <==> outcomes[0].Enqueued? || exists i :: 0 <= i < n && outcomes[1..][i].Enqueued?
  {
    if i :| 1 <= i < n + 1 && outcomes[i].Enqueued? {
      assert outcomes[1..][i - 1].Enqueued?;
    }
  }

  /** A tick that stops before its budget is used up leaves nothing due. */
  lemma {:induction false} UnderBudgetLeavesNothingDue(t: Table, queue: seq<Command>, now: Time,
                                                       arrivals: seq<seq<Command>>, outcomes: seq<Outcome>)
    requires Valid(t)
    ensures var r := Tick(t, queue, now, arrivals, outcomes);
            |r.served| < |outcomes| ==> forall g :: !IsDue(r.table, g, now)
    decreases CountDue(t.heap, now) + CountDueCommands(queue, now) + CountDueArrivals(arrivals, now)
  {
    if outcomes != [] {
      var drained := ApplyAll(t, queue + FirstBatch(arrivals));
      ApplyAllKeepsValid(t, queue + FirstBatch(arrivals));
      if drained.heap != [] {
        LiveEntriesAfterPop(drained);
        if drained.heap[0].due <= now {
          DrainMeasure(t, queue, now, arrivals);
          var e := drained.heap[0];
          if IsLive(drained, e) {
            ReactionIsNotDue(e, now, outcomes[0]);
            UnderBudgetLeavesNothingDue(Pop(drained), Reaction(e, now, outcomes[0]), now, LaterBatches(arrivals),
                                        outcomes[1..]);
          } else {
            UnderBudgetLeavesNothingDue(Pop(drained), [], now, LaterBatches(arrivals), outcomes);
            assert Tick(t, queue, now, arrivals, outcomes)
                 == Tick(Pop(drained), [], now, LaterBatches(arrivals), outcomes);
          }
        } else {
          assert forall e :: e in LiveEntries(drained) ==> e.due > now;
        }
      }
    }
  }
}
