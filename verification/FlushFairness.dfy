/** No starvation: a due entry that is neither cancelled nor rescheduled is served within a
    number of ticks that depends only on how many guids are scheduled or in flight and on the
    budget.  A guid that is served meanwhile comes back strictly behind the entry. */
module FlushFairness {
  import opened Agents
  import opened FlushClock
  import opened FlushSchedule
  import opened FlushTick
  import opened FlushTasks

  /** The guids whose live entries leave the queue before `x`. */
  ghost function Ahead(t: Table, x: Entry): set<Guid>
  {
    set e | e in LiveEntries(t) && Before(e, x) :: e.guid
  }

  /** Counts what is scheduled for a time before the deadline of `x`. */
  function EarlierThan(x: Entry): Weight
  {
    (guid: Guid, due: Time) => if due < x.due then 1 else 0
  }

  /** How many guids can still come before `x`: those that are ahead of it, and the flush tasks of
      earlier ticks and connecting sessions that will schedule a time before its deadline. */
  ghost function Rivals(t: Table, pending: seq<Pending>, x: Entry): nat
  {
    |Ahead(t, x)| + PendingWeight(EarlierThan(x), pending)
  }

  ghost predicate Waiting(t: Table, x: Entry)
  {
    Valid(t) && x in LiveEntries(t)
  }

  /** Nothing under way concerns the guid. */
  predicate NoneOf(pending: seq<Pending>, g: Guid)
  {
    forall i :: 0 <= i < |pending| ==> pending[i].guid != g
  }

  /** Nobody cancels the guid or connects under its name. */
  predicate Spares(evs: seq<Event>, g: Guid)
    decreases |evs|
  {
    evs == [] || ((evs[0].Begins? ==> evs[0].work.guid != g) && (evs[0].Drops? ==> evs[0].guid != g)
                  && Spares(evs[1..], g))
  }

  lemma {:induction false} CardinalityOfSubset<T>(a: set<T>, b: set<T>)
    requires a <= b
    ensures |a| <= |b|
  {
    assert b == a + (b - a);
  }

  // ----- What arrives -----

  lemma ApplyKeepsWaiting(t: Table, c: Command, x: Entry)
    requires Waiting(t, x) && c.guid != x.guid
    ensures Waiting(Apply(t, c), x)
    ensures |Ahead(Apply(t, c), x)| <= |Ahead(t, x)| + CommandWeight(EarlierThan(x), [c])
  {
    LiveEntriesAfterApply(t, c);
    var t' := Apply(t, c);
    var added := if c.Schedule? && c.due < x.due then {c.guid} else {};
    forall g | g in Ahead(t', x) ensures g in Ahead(t, x) + added {
      var e :| e in LiveEntries(t') && Before(e, x) && e.guid == g;
    }
    CardinalityOfSubset(Ahead(t', x), Ahead(t, x) + added);
  }

  predicate AllOther(cs: seq<Command>, g: Guid)
  {
    forall i :: 0 <= i < |cs| ==> cs[i].guid != g
  }

  lemma {:induction false} ApplyAllKeepsWaiting(t: Table, cs: seq<Command>, x: Entry)
    requires Waiting(t, x) && AllOther(cs, x.guid)
    ensures Waiting(ApplyAll(t, cs), x)
    ensures |Ahead(ApplyAll(t, cs), x)| <= |Ahead(t, x)| + CommandWeight(EarlierThan(x), cs)
    decreases |cs|
  {
    if cs != [] {
      ApplyKeepsWaiting(t, cs[0], x);
      ApplyAllKeepsWaiting(Apply(t, cs[0]), cs[1..], x);
    }
  }

  lemma {:induction false} SparedByEvents(pending: seq<Pending>, since: Time, evs: seq<Event>, g: Guid)
    requires AllPossible(pending, since, evs) && NoneOf(pending, g) && Spares(evs, g)
    ensures AllOther(CommandsOf(evs), g) && NoneOf(AfterEvents(pending, evs), g)
    decreases |evs|
  {
    if evs != [] {
      SparedByEvents(AfterEvent(pending, evs[0]), since, evs[1..], g);
    }
  }

  /** Sessions that connect from the deadline of `x` on come behind it. */
  lemma {:induction false} NewcomersAreBehind(pending: seq<Pending>, since: Time, evs: seq<Event>, x: Entry)
    requires AllPossible(pending, since, evs) && x.due <= since
    ensures NewWeight(EarlierThan(x), evs) == 0
    decreases |evs|
  {
    if evs != [] {
      NewcomersAreBehind(AfterEvent(pending, evs[0]), since, evs[1..], x);
    }
  }

  /** Whatever arrives in a batch, no rival is added. */
  lemma BatchKeepsWaiting(t: Table, pending: seq<Pending>, since: Time, evs: seq<Event>, x: Entry)
    requires Waiting(t, x) && AllPossible(pending, since, evs) && x.due <= since
    requires NoneOf(pending, x.guid) && Spares(evs, x.guid)
    ensures Waiting(ApplyAll(t, CommandsOf(evs)), x) && NoneOf(AfterEvents(pending, evs), x.guid)
    ensures Rivals(ApplyAll(t, CommandsOf(evs)), AfterEvents(pending, evs), x) <= Rivals(t, pending, x)
  {
    SparedByEvents(pending, since, evs, x.guid);
    ApplyAllKeepsWaiting(t, CommandsOf(evs), x);
    NewcomersAreBehind(pending, since, evs, x);
    EventsConserve(EarlierThan(x), pending, since, evs);
  }

  // ----- What is served -----

  /** Popping an entry other than `x` uses up one of the guids in front of `x` if it is live. */
  lemma PopKeepsWaiting(t: Table, x: Entry)
    requires Waiting(t, x) && t.heap != [] && t.heap[0] != x
    ensures Waiting(Pop(t), x)
    ensures !IsLive(t, t.heap[0]) ==> Ahead(Pop(t), x) == Ahead(t, x)
    ensures IsLive(t, t.heap[0]) ==>
      t.heap[0].guid in Ahead(t, x) && Ahead(Pop(t), x) == Ahead(t, x) - {t.heap[0].guid}
  {
    LiveEntriesAfterPop(t);
    LiveEntriesAreUnique(t, map[], map[]);
    var top, t' := t.heap[0], Pop(t);
    if IsLive(t, top) {
      assert top in LiveEntries(t) && Before(top, x);
      forall g | g in Ahead(t, x) && g != top.guid ensures g in Ahead(t', x) {
        var e :| e in LiveEntries(t) && Before(e, x) && e.guid == g;
        assert e in LiveEntries(t');
      }
      forall g | g in Ahead(t', x) ensures g in Ahead(t, x) && g != top.guid {
        var e :| e in LiveEntries(t') && Before(e, x) && e.guid == g;
        assert e in LiveEntries(t);
      }
    } else {
      assert LiveEntries(t') == LiveEntries(t);
    }
  }

  /** A guid served at or after the deadline of `x` is rescheduled strictly behind `x`, whether by
      the tick itself or by the task that its strand took: one rival less. */
  lemma ServeAdvances(t: Table, pending: seq<Pending>, now: Time, outcome: Outcome, x: Entry)
    requires Waiting(t, x) && NoneOf(pending, x.guid) && x.due <= now
    requires t.heap != [] && t.heap[0] != x && IsLive(t, t.heap[0])
    ensures var e := t.heap[0];
            var t', pending' := ApplyAll(Pop(t), Reaction(e, now, outcome)), pending + Started(e, now, outcome);
            && Valid(Pop(t)) && Waiting(t', x) && NoneOf(pending', x.guid)
            && Rivals(t', pending', x) + 1 <= Rivals(t, pending, x)
  {
    var e := t.heap[0];
    PopKeepsWaiting(t, x);
    LiveEntriesAreUnique(t, map[], map[]);
    assert e in LiveEntries(t);
    ReactionIsNotDue(e, now, outcome);
    ApplyAllKeepsWaiting(Pop(t), Reaction(e, now, outcome), x);
    assert CommandWeight(EarlierThan(x), Reaction(e, now, outcome)) == 0;
    StartedIsLater(EarlierThan(x), pending, e, now, outcome);
  }

  lemma WaitingMeansNotEmpty(t: Table, x: Entry)
    requires Waiting(t, x)
    ensures t.heap != [] && t.heap[0].due <= x.due
  {
    LiveEntriesAfterPop(t);
  }

  /** `x` was served, or it still waits and a whole budget of its rivals is used up. */
  ghost predicate Advances(r: TickResult, pending: seq<Pending>, x: Entry, left: int)
  {
    || x in r.served
    || (&& Valid(r.table) && Waiting(ApplyAll(r.table, r.queue), x) && NoneOf(pending, x.guid)
        && Rivals(ApplyAll(r.table, r.queue), pending, x) <= left)
  }

  /** A tick at or after the deadline of `x` serves `x`, or uses up a whole budget of its rivals. */
  lemma {:induction false} TickAdvances(t: Table, queue: seq<Command>, pending: seq<Pending>, since: Time,
                                        now: Time, batches: seq<seq<Event>>, outcomes: seq<Outcome>, x: Entry)
    requires Valid(t) && Waiting(ApplyAll(t, queue), x) && NoneOf(pending, x.guid)
    requires x.due <= since && x.due <= now && Spares(AllEvents(batches), x.guid)
    requires Play(t, queue, pending, since, now, batches, outcomes).lawful
    ensures Advances(Tick(t, queue, now, Arrivals(batches), outcomes),
                     Play(t, queue, pending, since, now, batches, outcomes).pending, x,
                     Rivals(ApplyAll(t, queue), pending, x) - |outcomes|)
    decreases CountDue(t.heap, now) + CountDueCommands(queue, now) + CountDueArrivals(Arrivals(batches), now)
  {
    var first, later := FirstEvents(batches), LaterEvents(batches);
    ArrivalsStep(batches);
    if outcomes == [] {
      ArrivalsInAll(batches);
      ApplyAllConcat(t, queue, CommandsOf(AllEvents(batches)));
      BatchKeepsWaiting(ApplyAll(t, queue), pending, since, AllEvents(batches), x);
    } else {
      SparesParts(batches, x.guid);
      DrainKeepsWaiting(t, queue, pending, since, first, x);
      var drained, pending' := ApplyAll(t, queue + CommandsOf(first)), AfterEvents(pending, first);
      DrainMeasure(t, queue, now, Arrivals(batches));
      var e := drained.heap[0];
      if e == x {
        assert IsLive(drained, x);
      } else if IsLive(drained, e) {
        ReactionIsNotDue(e, now, outcomes[0]);
        ServeAdvances(drained, pending', now, outcomes[0], x);
        TickAdvances(Pop(drained), Reaction(e, now, outcomes[0]), pending' + Started(e, now, outcomes[0]),
                     since, now, later, outcomes[1..], x);
      } else {
        PopKeepsWaiting(drained, x);
        TickAdvances(Pop(drained), [], pending', since, now, later, outcomes, x);
      }
    }
  }

  lemma DrainKeepsWaiting(t: Table, queue: seq<Command>, pending: seq<Pending>, since: Time, evs: seq<Event>, x: Entry)
    requires Waiting(ApplyAll(t, queue), x) && AllPossible(pending, since, evs) && x.due <= since
    requires NoneOf(pending, x.guid) && Spares(evs, x.guid)
    ensures var drained, pending' := ApplyAll(t, queue + CommandsOf(evs)), AfterEvents(pending, evs);
            && Waiting(drained, x) && NoneOf(pending', x.guid) && drained.heap != [] && drained.heap[0].due <= x.due
            && Rivals(drained, pending', x) <= Rivals(ApplyAll(t, queue), pending, x)
  {
    ApplyAllConcat(t, queue, CommandsOf(evs));
    BatchKeepsWaiting(ApplyAll(t, queue), pending, since, evs, x);
    WaitingMeansNotEmpty(ApplyAll(t, queue + CommandsOf(evs)), x);
  }

  lemma SparesParts(batches: seq<seq<Event>>, g: Guid)
    requires Spares(AllEvents(batches), g)
    ensures Spares(FirstEvents(batches), g) && Spares(AllEvents(LaterEvents(batches)), g)
  {
    if batches != [] {
      SparesConcat(batches[0], AllEvents(batches[1..]), g);
    }
  }

  lemma {:induction false} SparesConcat(a: seq<Event>, b: seq<Event>, g: Guid)
    requires Spares(a + b, g)
    ensures Spares(a, g) && Spares(b, g)
    decreases |a|
  {
    if a == [] {
      assert a + b == b;
    } else {
      assert (a + b)[1..] == a[1..] + b;
      SparesConcat(a[1..], b, g);
    }
  }

  // ----- Several ticks -----

  ghost predicate ServedIn(results: seq<TickResult>, x: Entry)
  {
    exists k :: 0 <= k < |results| && x in results[k].served
  }

  lemma ServedInTail(r: TickResult, results: seq<TickResult>, x: Entry)
    requires x in r.served || ServedIn(results, x)
    ensures ServedIn([r] + results, x)
  {
    if x in r.served {
      assert ([r] + results)[0] == r;
    } else {
      var k :| 0 <= k < |results| && x in results[k].served;
      assert ([r] + results)[k + 1] == results[k];
    }
  }

  /** How many guids a run of ticks can serve in all. */
  function TotalBudget(inputs: seq<TickInput>): nat
  {
    if inputs == [] then 0 else |inputs[0].outcomes| + TotalBudget(inputs[1..])
  }

  /** Up to the tick that serves `x`, what happens is possible and nobody cancels or reconnects
      its guid. */
  predicate UndisturbedUntilServed(s: World, inputs: seq<TickInput>, x: Entry)
    decreases |inputs|
  {
    inputs == [] ||
    (&& LawfulTick(s, inputs[0]) && Spares(AllEvents(inputs[0].batches), x.guid)
     && (x in TickOf(s, inputs[0]).served || UndisturbedUntilServed(NextWorld(s, inputs[0]), inputs[1..], x)))
  }

  /** The entry is live once the queued commands are applied, its time has come, and no task of an
      old session of its guid is under way. */
  ghost predicate WaitsIn(s: World, x: Entry)
  {
    Valid(s.table) && Waiting(ApplyAll(s.table, s.queue), x) && NoneOf(s.pending, x.guid) && x.due <= s.clock
  }

  /** Budgets may differ from tick to tick: `x` is served once they exceed the number of its rivals. */
  lemma {:induction false} ServedWithinTicks(s: World, inputs: seq<TickInput>, x: Entry)
    requires WaitsIn(s, x) && UndisturbedUntilServed(s, inputs, x)
    requires Rivals(ApplyAll(s.table, s.queue), s.pending, x) < TotalBudget(inputs)
    ensures ServedIn(RunTicks(s, inputs), x)
    decreases |inputs|
  {
    var input, rest := inputs[0], inputs[1..];
    TickAdvances(s.table, s.queue, s.pending, s.clock, input.now, input.batches, input.outcomes, x);
    if x !in TickOf(s, input).served {
      ServedWithinTicks(NextWorld(s, input), rest, x);
    }
    ServedInTail(TickOf(s, input), RunTicks(NextWorld(s, input), rest), x);
  }

  lemma {:induction false} EqualBudgets(inputs: seq<TickInput>, budget: nat)
    requires forall k :: 0 <= k < |inputs| ==> |inputs[k].outcomes| == budget
    ensures TotalBudget(inputs) == |inputs| * budget
  {
    if inputs != [] {
      EqualBudgets(inputs[1..], budget);
      assert |inputs| * budget == (|inputs| - 1) * budget + budget;
    }
  }

  /** The guids scheduled, queued commands included, and the work in flight. */
  ghost function ScheduledOrInFlight(s: World): nat
  {
    |LiveGuids(ApplyAll(s.table, s.queue))| + |s.pending|
  }

  lemma RivalsAreOthers(s: World, x: Entry)
    requires WaitsIn(s, x)
    ensures Rivals(ApplyAll(s.table, s.queue), s.pending, x) < ScheduledOrInFlight(s)
  {
    var drained := ApplyAll(s.table, s.queue);
    LiveEntriesAreUnique(drained, map[], map[]);
    assert x.guid in LiveGuids(drained) && x.guid !in Ahead(drained, x);
    CardinalityOfSubset(Ahead(drained, x), LiveGuids(drained) - {x.guid});
    TotalAtMostCount(EarlierThan(x), s.pending);
  }

  lemma {:induction false} TotalAtMostCount(w: Weight, pending: seq<Pending>)
    requires forall g, due :: w(g, due) <= 1
    ensures PendingWeight(w, pending) <= |pending|
  {
    if pending != [] {
      assert w(pending[0].guid, DueOf(pending[0])) <= 1;
      TotalAtMostCount(w, pending[1..]);
    }
  }

  /** With n guids scheduled or in flight and a budget of B, a live entry `x` whose time has come is
      served within floor((n - 1) / B) + 1 ticks. */
  lemma NoStarvation(s: World, inputs: seq<TickInput>, budget: nat, x: Entry)
    requires WaitsIn(s, x) && UndisturbedUntilServed(s, inputs, x)
    requires forall k :: 0 <= k < |inputs| ==> |inputs[k].outcomes| == budget
    requires budget > 0 && |inputs| == (ScheduledOrInFlight(s) - 1) / budget + 1
    ensures ServedIn(RunTicks(s, inputs), x) && |RunTicks(s, inputs)| == |inputs|
  {
    RivalsAreOthers(s, x);
    BudgetCoversRivals(ScheduledOrInFlight(s), budget);
    EqualBudgets(inputs, budget);
    ServedWithinTicks(s, inputs, x);
    RunTicksLength(s, inputs);
  }

  lemma BudgetCoversRivals(n: int, budget: nat)
    requires budget > 0 && n >= 1
    ensures n - 1 < ((n - 1) / budget + 1) * budget
  {
    assert n - 1 == (n - 1) / budget * budget + (n - 1) % budget;
  }

  lemma {:induction false} RunTicksLength(s: World, inputs: seq<TickInput>)
    ensures |RunTicks(s, inputs)| == |inputs|
    decreases |inputs|
  {
    if inputs != [] {
      RunTicksLength(NextWorld(s, inputs[0]), inputs[1..]);
    }
  }
}
