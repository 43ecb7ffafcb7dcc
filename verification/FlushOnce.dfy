/** At most once: how often one tick can serve a guid, with flush tasks of earlier ticks and
    sessions that connect meanwhile taken into account. */
module FlushOnce {
  import opened Agents
  import opened FlushClock
  import opened FlushSchedule
  import opened FlushTick
  import opened FlushTasks

  function Times(served: seq<Entry>, g: Guid): nat
  {
    if served == [] then 0 else (if served[0].guid == g then 1 else 0) + Times(served[1..], g)
  }

  /** Counts the deadlines of `g`, and those of them that are due. */
  function AnyOf(g: Guid): Weight
  {
    (guid: Guid, due: Time) => if guid == g then 1 else 0
  }

  function DueOfGuid(g: Guid, now: Time): Weight
  {
    (guid: Guid, due: Time) => if guid == g && due <= now then 1 else 0
  }

  ghost function LiveDue(t: Table, g: Guid, now: Time): nat
  {
    if IsDue(t, g, now) then 1 else 0
  }

  ghost function Live(t: Table, g: Guid): nat
  {
    if g in LiveGuids(t) then 1 else 0
  }

  // ----- One tick, whatever arrives -----

  lemma ApplyAddsDue(t: Table, c: Command, g: Guid, now: Time)
    requires Valid(t)
    ensures Valid(Apply(t, c))
    ensures LiveDue(Apply(t, c), g, now) <= LiveDue(t, g, now) + CommandWeight(DueOfGuid(g, now), [c])
  {
    LiveEntriesAfterApply(t, c);
  }

  lemma {:induction false} ApplyAllAddsDue(t: Table, cs: seq<Command>, g: Guid, now: Time)
    requires Valid(t)
    ensures Valid(ApplyAll(t, cs))
    ensures LiveDue(ApplyAll(t, cs), g, now) <= LiveDue(t, g, now) + CommandWeight(DueOfGuid(g, now), cs)
    decreases |cs|
  {
    if cs != [] {
      ApplyAddsDue(t, cs[0], g, now);
      ApplyAllAddsDue(Apply(t, cs[0]), cs[1..], g, now);
    }
  }

  /** Serving the first entry uses up its guid: what the tick answers is not due. */
  lemma ServeUsesUp(t: Table, now: Time, outcome: Outcome, g: Guid)
    requires Valid(t) && t.heap != [] && IsLive(t, t.heap[0]) && t.heap[0].due <= now
    ensures Valid(Pop(t))
    ensures LiveDue(ApplyAll(Pop(t), Reaction(t.heap[0], now, outcome)), g, now) + Times([t.heap[0]], g)
         <= LiveDue(t, g, now)
  {
    var e := t.heap[0];
    var reaction := Reaction(e, now, outcome);
    LiveEntriesAfterPop(t);
    LiveEntriesAreUnique(t, map[], map[]);
    ReactionIsNotDue(e, now, outcome);
    ApplyAllAddsDue(Pop(t), reaction, g, now);
    assert CommandWeight(DueOfGuid(g, now), reaction) == 0;
    assert e in LiveEntries(t);
  }

  lemma SkipKeepsDue(t: Table, g: Guid, now: Time)
    requires Valid(t) && t.heap != []
    ensures Valid(Pop(t)) && LiveDue(Pop(t), g, now) <= LiveDue(t, g, now)
  {
    LiveEntriesAfterPop(t);
  }

  /** Whatever other threads queue meanwhile, a tick serves a guid at most as often as it was due
      before plus the number of its due Schedules that arrive; and it serves only what is due. */
  lemma {:induction false} TickServesAtMost(t: Table, queue: seq<Command>, now: Time, arrivals: seq<seq<Command>>,
                                            outcomes: seq<Outcome>, g: Guid)
    requires Valid(t)
    ensures var r := Tick(t, queue, now, arrivals, outcomes);
            && Valid(r.table) && |r.served| <= |outcomes|
            && (forall e :: e in r.served ==> e.due <= now)
            && Times(r.served, g)
               <= LiveDue(ApplyAll(t, queue), g, now) + CommandWeight(DueOfGuid(g, now), Flatten(arrivals))
    decreases CountDue(t.heap, now) + CountDueCommands(queue, now) + CountDueArrivals(arrivals, now)
  {
    if outcomes != [] {
      var first, later := FirstBatch(arrivals), LaterBatches(arrivals);
      var drained := ApplyAll(t, queue + first);
      ApplyAllConcat(t, queue, first);
      ApplyAllKeepsValid(t, queue);
      ApplyAllAddsDue(ApplyAll(t, queue), first, g, now);
      if arrivals != [] {
        CommandWeightConcat(DueOfGuid(g, now), first, Flatten(later));
      }
      if drained.heap != [] && drained.heap[0].due <= now {
        DrainMeasure(t, queue, now, arrivals);
        var e := drained.heap[0];
        if IsLive(drained, e) {
          ReactionIsNotDue(e, now, outcomes[0]);
          ServeUsesUp(drained, now, outcomes[0], g);
          TickServesAtMost(Pop(drained), Reaction(e, now, outcomes[0]), now, later, outcomes[1..], g);
          FirstServed(e, Tick(Pop(drained), Reaction(e, now, outcomes[0]), now, later, outcomes[1..]).served, g);
        } else {
          SkipKeepsDue(drained, g, now);
          TickServesAtMost(Pop(drained), [], now, later, outcomes, g);
        }
      }
    }
  }

  lemma FirstServed(e: Entry, rest: seq<Entry>, g: Guid)
    ensures Times([e] + rest, g) == Times([e], g) + Times(rest, g)
    ensures forall f :: f in [e] + rest ==> f == e || f in rest
  {
    assert ([e] + rest)[1..] == rest;
  }

  // ----- Without reconnects -----

  /** Where `g` may come from: its live deadline, queued commands applied, and the work that will
      schedule it. */
  ghost function Occurrences(t: Table, queue: seq<Command>, pending: seq<Pending>, g: Guid): nat
  {
    Live(ApplyAll(t, queue), g) + PendingWeight(AnyOf(g), pending)
  }

  function Unknown(known: set<Guid>, g: Guid): nat { if g in known then 0 else 1 }

  /** Every guid is scheduled or in flight at most once, and not at all before it connects. */
  ghost predicate OneEach(s: World, known: set<Guid>)
  {
    Valid(s.table) && forall g :: Occurrences(s.table, s.queue, s.pending, g) + Unknown(known, g) <= 1
  }

  function KnownWith(known: set<Guid>, ev: Event): set<Guid>
  {
    if ev.Begins? then known + {ev.work.guid} else known
  }

  function KnownAfter(known: set<Guid>, evs: seq<Event>): set<Guid>
    decreases |evs|
  {
    if evs == [] then known else KnownAfter(KnownWith(known, evs[0]), evs[1..])
  }

  /** No guid that is known already connects again. */
  predicate NoReconnect(known: set<Guid>, evs: seq<Event>)
    decreases |evs|
  {
    evs == [] ||
    ((evs[0].Begins? ==> evs[0].work.guid !in known) && NoReconnect(KnownWith(known, evs[0]), evs[1..]))
  }

  lemma {:induction false} ConnectsOnce(known: set<Guid>, evs: seq<Event>, g: Guid)
    requires NoReconnect(known, evs)
    ensures NewWeight(AnyOf(g), evs) + Unknown(KnownAfter(known, evs), g) == Unknown(known, g)
    decreases |evs|
  {
    if evs != [] {
      ConnectsOnce(KnownWith(known, evs[0]), evs[1..], g);
    }
  }

  lemma {:induction false} DueIsAny(evs: seq<Event>, pending: seq<Pending>, g: Guid, now: Time)
    ensures NewWeight(DueOfGuid(g, now), evs) <= NewWeight(AnyOf(g), evs)
    ensures PendingWeight(DueOfGuid(g, now), pending) <= PendingWeight(AnyOf(g), pending)
    decreases |evs|
  {
    TotalMonotone(Worth(DueOfGuid(g, now)), Worth(AnyOf(g)), pending);
    if evs != [] {
      DueIsAny(evs[1..], pending, g, now);
    }
  }

  lemma ApplyAddsLive(t: Table, c: Command, g: Guid)
    requires Valid(t)
    ensures Valid(Apply(t, c))
    ensures Live(Apply(t, c), g) <= Live(t, g) + CommandWeight(AnyOf(g), [c])
  {
    LiveEntriesAfterApply(t, c);
  }

  lemma {:induction false} ApplyAllAddsLive(t: Table, cs: seq<Command>, g: Guid)
    requires Valid(t)
    ensures Valid(ApplyAll(t, cs))
    ensures Live(ApplyAll(t, cs), g) <= Live(t, g) + CommandWeight(AnyOf(g), cs)
    decreases |cs|
  {
    if cs != [] {
      ApplyAddsLive(t, cs[0], g);
      ApplyAllAddsLive(Apply(t, cs[0]), cs[1..], g);
    }
  }

  /** A served guid is afterwards in flight, or scheduled again by the tick itself, or gone. */
  lemma ServeKeepsOccurrences(t: Table, pending: seq<Pending>, now: Time, outcome: Outcome, g: Guid)
    requires Valid(t) && t.heap != [] && IsLive(t, t.heap[0])
    ensures Occurrences(Pop(t), Reaction(t.heap[0], now, outcome), pending + Started(t.heap[0], now, outcome), g)
         <= Live(t, g) + PendingWeight(AnyOf(g), pending)
  {
    var e := t.heap[0];
    var reaction, started := Reaction(e, now, outcome), Started(e, now, outcome);
    LiveEntriesAfterPop(t);
    LiveEntriesAreUnique(t, map[], map[]);
    ApplyAllAddsLive(Pop(t), reaction, g);
    TotalOfConcat(Worth(AnyOf(g)), pending, started);
    assert e in LiveEntries(t);
    assert Live(Pop(t), g) + (if e.guid == g then 1 else 0) <= Live(t, g);
    assert CommandWeight(AnyOf(g), reaction) + Total(Worth(AnyOf(g)), started) <= if e.guid == g then 1 else 0;
  }

  lemma BatchKeepsOccurrences(t: Table, pending: seq<Pending>, since: Time, evs: seq<Event>, g: Guid)
    requires Valid(t) && AllPossible(pending, since, evs)
    ensures Valid(ApplyAll(t, CommandsOf(evs)))
    ensures Live(ApplyAll(t, CommandsOf(evs)), g) + PendingWeight(AnyOf(g), AfterEvents(pending, evs))
         <= Live(t, g) + PendingWeight(AnyOf(g), pending) + NewWeight(AnyOf(g), evs)
  {
    ApplyAllAddsLive(t, CommandsOf(evs), g);
    EventsConserve(AnyOf(g), pending, since, evs);
  }

  ghost predicate KeepsOccurrences(r: TickResult, played: Played, bound: nat, g: Guid)
  {
    Valid(r.table) && Occurrences(r.table, r.queue, played.pending, g) <= bound
  }

  /** A tick makes no occurrence of a guid out of nothing. */
  lemma {:induction false} TickKeepsOccurrences(t: Table, queue: seq<Command>, pending: seq<Pending>, since: Time,
                                                now: Time, batches: seq<seq<Event>>, outcomes: seq<Outcome>, g: Guid)
    requires Valid(t) && Play(t, queue, pending, since, now, batches, outcomes).lawful
    ensures KeepsOccurrences(Tick(t, queue, now, Arrivals(batches), outcomes),
                             Play(t, queue, pending, since, now, batches, outcomes),
                             Occurrences(t, queue, pending, g) + NewWeight(AnyOf(g), AllEvents(batches)), g)
    decreases CountDue(t.heap, now) + CountDueCommands(queue, now) + CountDueArrivals(Arrivals(batches), now)
  {
    var first, later := FirstEvents(batches), LaterEvents(batches);
    ArrivalsStep(batches);
    ApplyAllKeepsValid(t, queue);
    if outcomes == [] {
      ArrivalsInAll(batches);
      ApplyAllConcat(t, queue, CommandsOf(AllEvents(batches)));
      BatchKeepsOccurrences(ApplyAll(t, queue), pending, since, AllEvents(batches), g);
    } else {
      FirstThenLater(AnyOf(g), batches);
      ApplyAllConcat(t, queue, CommandsOf(first));
      BatchKeepsOccurrences(ApplyAll(t, queue), pending, since, first, g);
      var drained, pending' := ApplyAll(t, queue + CommandsOf(first)), AfterEvents(pending, first);
      if drained.heap == [] || drained.heap[0].due > now {
        ArrivalsInAll(later);
        BatchKeepsOccurrences(drained, pending', since, AllEvents(later), g);
      } else {
        DrainMeasure(t, queue, now, Arrivals(batches));
        LiveEntriesAfterPop(drained);
        var e := drained.heap[0];
        if IsLive(drained, e) {
          ReactionIsNotDue(e, now, outcomes[0]);
          ServeKeepsOccurrences(drained, pending', now, outcomes[0], g);
          TickKeepsOccurrences(Pop(drained), Reaction(e, now, outcomes[0]), pending' + Started(e, now, outcomes[0]),
                               since, now, later, outcomes[1..], g);
        } else {
          assert Live(Pop(drained), g) <= Live(drained, g);
          TickKeepsOccurrences(Pop(drained), [], pending', since, now, later, outcomes, g);
        }
      }
    }
  }

  /** Without hasty reconnects a scheduled guid has no flush task under way that could cancel it. */
  lemma ScheduledHasNoTask(s: World, known: set<Guid>, g: Guid)
    requires OneEach(s, known) && g in LiveGuids(ApplyAll(s.table, s.queue))
    ensures forall i :: 0 <= i < |s.pending| ==> s.pending[i].guid != g
  {
    forall i | 0 <= i < |s.pending| ensures s.pending[i].guid != g {
      TotalCoversOne(Worth(AnyOf(g)), s.pending, i);
      assert Occurrences(s.table, s.queue, s.pending, g) <= 1;
    }
  }

  // ----- At most once -----

  lemma {:induction false} TimesOfTwo(served: seq<Entry>, i: nat, j: nat)
    requires i < j < |served| && served[i].guid == served[j].guid
    ensures Times(served, served[i].guid) >= 2
  {
    if i > 0 {
      TimesOfTwo(served[1..], i - 1, j - 1);
    } else {
      TimesOfOne(served[1..], j - 1);
    }
  }

  lemma {:induction false} TimesOfOne(served: seq<Entry>, i: nat)
    requires i < |served|
    ensures Times(served, served[i].guid) >= 1
  {
    if i > 0 {
      TimesOfOne(served[1..], i - 1);
    }
  }

  /** A guid was live and due when the tick began, or some flush task or connecting session that
      was under way then or began meanwhile schedules it for a time that is due. */
  ghost predicate WasToCome(s: World, input: TickInput, g: Guid)
  {
    || IsDue(ApplyAll(s.table, s.queue), g, input.now)
    || (exists p :: p in s.pending && p.guid == g && DueOf(p) <= input.now)
    || (exists ev :: ev in AllEvents(input.batches) && ev.Begins? && ev.work.guid == g && DueOf(ev.work) <= input.now)
  }

  lemma {:induction false} NewWeightMeansBegun(evs: seq<Event>, g: Guid, now: Time)
    requires NewWeight(DueOfGuid(g, now), evs) > 0
    ensures exists ev :: ev in evs && ev.Begins? && ev.work.guid == g && DueOf(ev.work) <= now
  {
    if !(evs[0].Begins? && evs[0].work.guid == g && DueOf(evs[0].work) <= now) {
      NewWeightMeansBegun(evs[1..], g, now);
    }
  }

  lemma ServedWasToCome(s: World, input: TickInput, g: Guid)
    requires Valid(s.table) && PlayOf(s, input).lawful && Times(TickOf(s, input).served, g) > 0
    ensures WasToCome(s, input, g)
  {
    var w := DueOfGuid(g, input.now);
    TickServesAtMost(s.table, s.queue, input.now, Arrivals(input.batches), input.outcomes, g);
    PlayConserves(w, s.table, s.queue, s.pending, s.clock, input.now, input.batches, input.outcomes);
    if NewWeight(w, AllEvents(input.batches)) > 0 {
      NewWeightMeansBegun(AllEvents(input.batches), g, input.now);
    } else if PendingWeight(w, s.pending) > 0 {
      TotalZero(Worth(w), s.pending);
      var i :| 0 <= i < |s.pending| && Worth(w)(s.pending[i]) != 0;
      assert s.pending[i] in s.pending;
    }
  }

  /** Absent reconnects a tick serves at most its budget, each guid at most once, and only guids that
      were due or on the way to being due - also when flush tasks of earlier ticks finish late and
      schedule their guids for times that have passed.  Afterwards each guid still occurs once. */
  lemma TickServesOnce(s: World, input: TickInput, known: set<Guid>)
    requires OneEach(s, known) && NoReconnect(known, AllEvents(input.batches)) && PlayOf(s, input).lawful
    ensures var r := TickOf(s, input);
            && |r.served| <= |input.outcomes| && DistinctGuids(r.served)
            && (forall e :: e in r.served ==> e.due <= input.now && WasToCome(s, input, e.guid))
    ensures OneEach(NextWorld(s, input), KnownAfter(known, AllEvents(input.batches)))
  {
    var served := TickOf(s, input).served;
    TickServesAtMost(s.table, s.queue, input.now, Arrivals(input.batches), input.outcomes, 0);
    forall i, j | 0 <= i < j < |served| ensures served[i].guid != served[j].guid {
      if served[i].guid == served[j].guid {
        TimesOfTwo(served, i, j);
        AtMostOnce(s, input, known, served[i].guid);
      }
    }
    forall e | e in served ensures WasToCome(s, input, e.guid) {
      var i :| 0 <= i < |served| && served[i] == e;
      TimesOfOne(served, i);
      ServedWasToCome(s, input, e.guid);
    }
    var s', known' := NextWorld(s, input), KnownAfter(known, AllEvents(input.batches));
    forall g ensures Valid(s'.table) && Occurrences(s'.table, s'.queue, s'.pending, g) + Unknown(known', g) <= 1 {
      TickKeepsOccurrences(s.table, s.queue, s.pending, s.clock, input.now, input.batches, input.outcomes, g);
      ConnectsOnce(known, AllEvents(input.batches), g);
    }
  }

  lemma AtMostOnce(s: World, input: TickInput, known: set<Guid>, g: Guid)
    requires OneEach(s, known) && NoReconnect(known, AllEvents(input.batches)) && PlayOf(s, input).lawful
    ensures Times(TickOf(s, input).served, g) <= 1
  {
    var w := DueOfGuid(g, input.now);
    TickServesAtMost(s.table, s.queue, input.now, Arrivals(input.batches), input.outcomes, g);
    PlayConserves(w, s.table, s.queue, s.pending, s.clock, input.now, input.batches, input.outcomes);
    DueIsAny(AllEvents(input.batches), s.pending, g, input.now);
    ConnectsOnce(known, AllEvents(input.batches), g);
    assert LiveDue(ApplyAll(s.table, s.queue), g, input.now) <= Live(ApplyAll(s.table, s.queue), g);
  }

  // ----- Every tick of every run -----

  /** The guids that still occur: one whose old session has left nothing behind may connect again. */
  ghost function Remembered(s: World, known: set<Guid>): set<Guid>
  {
    set g | g in known && Occurrences(s.table, s.queue, s.pending, g) > 0
  }

  /** No guid connects again in the tick in which it was known, or while anything of its old
      session - a live deadline, a queued command, a flush task - is still there. */
  ghost predicate NoHastyReconnect(s: World, known: set<Guid>, inputs: seq<TickInput>)
    decreases |inputs|
  {
    inputs == [] ||
    (NoReconnect(known, AllEvents(inputs[0].batches)) &&
     NoHastyReconnect(NextWorld(s, inputs[0]), KnownNext(s, known, inputs[0]), inputs[1..]))
  }

  ghost function KnownNext(s: World, known: set<Guid>, input: TickInput): set<Guid>
  {
    Remembered(NextWorld(s, input), KnownAfter(known, AllEvents(input.batches)))
  }

  lemma {:induction false} TicksServeOnce(s: World, inputs: seq<TickInput>, known: set<Guid>, k: nat)
    requires OneEach(s, known) && Lawful(s, inputs) && NoHastyReconnect(s, known, inputs) && k < |RunTicks(s, inputs)|
    ensures DistinctGuids(RunTicks(s, inputs)[k].served)
    decreases |inputs|
  {
    TickServesOnce(s, inputs[0], known);
    if k > 0 {
      TicksServeOnce(NextWorld(s, inputs[0]), inputs[1..], KnownNext(s, known, inputs[0]), k - 1);
    }
  }

  /** From the empty schedule on, in every run without hasty reconnects, every tick serves each guid
      at most once. */
  lemma EveryTickServesOnce(clock: Time, inputs: seq<TickInput>, k: nat)
    requires var start := World(EMPTY, [], [], clock);
             Lawful(start, inputs) && NoHastyReconnect(start, {}, inputs) && k < |RunTicks(start, inputs)|
    ensures DistinctGuids(RunTicks(World(EMPTY, [], [], clock), inputs)[k].served)
  {
    assert OneEach(World(EMPTY, [], [], clock), {});
    TicksServeOnce(World(EMPTY, [], [], clock), inputs, {}, k);
  }
}
