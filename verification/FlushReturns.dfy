/** What a served guid comes back with: a connected session is never forgotten, each of its deadlines
    is the least later point of its 20 ms grid, and one that is given up leaves nothing behind. */
module FlushReturns {
  import opened Agents
  import opened FlushClock
  import opened FlushSchedule
  import opened FlushTick
  import opened FlushTasks
  import opened FlushOnce

  /** The outcomes for a session that is still connected. */
  predicate Keeps(outcome: Outcome) { outcome.Enqueued? || outcome == Refused(true) }

  /** Nobody drops the guid, and no flush task of it finds its session gone. */
  predicate EventsKeep(evs: seq<Event>, g: Guid)
    decreases |evs|
  {
    evs == [] ||
    (&& (evs[0].Drops? ==> evs[0].guid != g)
     && (evs[0].Finishes? && evs[0].work.guid == g ==> evs[0].connected)
     && EventsKeep(evs[1..], g))
  }

  lemma {:induction false} EventsKeepConcat(a: seq<Event>, b: seq<Event>, g: Guid)
    requires EventsKeep(a + b, g)
    ensures EventsKeep(a, g) && EventsKeep(b, g)
    decreases |a|
  {
    if a == [] {
      assert a + b == b;
    } else {
      assert (a + b)[1..] == a[1..] + b;
      EventsKeepConcat(a[1..], b, g);
    }
  }

  lemma KeepParts(batches: seq<seq<Event>>, g: Guid)
    requires EventsKeep(AllEvents(batches), g)
    ensures EventsKeep(FirstEvents(batches), g) && EventsKeep(AllEvents(LaterEvents(batches)), g)
  {
    if batches != [] {
      EventsKeepConcat(batches[0], AllEvents(batches[1..]), g);
    }
  }

  // ----- Nobody is forgotten -----

  ghost function Found(t: Table, pending: seq<Pending>, g: Guid): nat
  {
    Live(t, g) + PendingWeight(AnyOf(g), pending)
  }

  lemma EventKeepsFound(t: Table, pending: seq<Pending>, since: Time, ev: Event, g: Guid)
    requires Valid(t) && Possible(pending, since, ev) && EventsKeep([ev], g)
    requires Found(t, pending, g) + NewWeight(AnyOf(g), [ev]) >= 1
    ensures Valid(ApplyAll(t, CommandOf(ev))) && Found(ApplyAll(t, CommandOf(ev)), AfterEvent(pending, ev), g) >= 1
  {
    match ev
    case Begins(p) =>
      TotalOfConcat(Worth(AnyOf(g)), pending, [p]);
      assert Total(Worth(AnyOf(g)), [p]) == Worth(AnyOf(g))(p) + Total(Worth(AnyOf(g)), [p][1..]);
    case Finishes(i, p, connected) =>
      TotalOfSplit(Worth(AnyOf(g)), pending, i);
      TotalOfConcat(Worth(AnyOf(g)), pending[..i], pending[i + 1..]);
      CommandKeepsLive(t, CommandOf(ev)[0], g);
    case Drops(_) =>
      CommandKeepsLive(t, CommandOf(ev)[0], g);
  }

  /** A Schedule makes its guid live, and a command leaves other guids as they are. */
  lemma CommandKeepsLive(t: Table, c: Command, g: Guid)
    requires Valid(t)
    ensures Valid(ApplyAll(t, [c])) && ApplyAll(t, [c]) == Apply(t, c)
    ensures c.guid != g ==> Live(Apply(t, c), g) == Live(t, g)
    ensures c.guid == g && c.Schedule? ==> Live(Apply(t, c), g) == 1
  {
    assert ApplyAll(t, [c]) == ApplyAll(Apply(t, c), [c][1..]);
    LiveEntriesAfterApply(t, c);
    if c.guid == g && c.Schedule? {
      assert Entry(c.due, c.guid, t.nextToken) in LiveEntries(Apply(t, c));
    }
    if c.guid != g {
      forall e: Entry | e.guid == g ensures e in LiveEntries(Apply(t, c)) <==> e in LiveEntries(t) {
      }
    }
  }

  lemma {:induction false} BatchKeepsFound(t: Table, pending: seq<Pending>, since: Time, evs: seq<Event>, g: Guid)
    requires Valid(t) && AllPossible(pending, since, evs) && EventsKeep(evs, g)
    requires Found(t, pending, g) + NewWeight(AnyOf(g), evs) >= 1
    ensures Valid(ApplyAll(t, CommandsOf(evs)))
    ensures Found(ApplyAll(t, CommandsOf(evs)), AfterEvents(pending, evs), g) >= 1
    decreases |evs|
  {
    if evs != [] {
      var t', pending' := ApplyAll(t, CommandOf(evs[0])), AfterEvent(pending, evs[0]);
      ApplyAllKeepsValid(t, CommandOf(evs[0]));
      assert NewWeight(AnyOf(g), evs) == NewWeight(AnyOf(g), [evs[0]]) + NewWeight(AnyOf(g), evs[1..]);
      if Found(t, pending, g) + NewWeight(AnyOf(g), [evs[0]]) >= 1 {
        EventKeepsFound(t, pending, since, evs[0], g);
      }
      BatchKeepsFound(t', pending', since, evs[1..], g);
      ApplyAllConcat(t, CommandOf(evs[0]), CommandsOf(evs[1..]));
    }
  }

  /** A served guid is in flight, or scheduled again, if its session is still connected; the others
      are where they were. */
  lemma ServeKeepsFound(t: Table, pending: seq<Pending>, now: Time, outcome: Outcome, g: Guid)
    requires Valid(t) && t.heap != [] && IsLive(t, t.heap[0])
    requires Found(t, pending, g) >= 1 && (t.heap[0].guid == g ==> Keeps(outcome))
    ensures var e := t.heap[0];
            Found(ApplyAll(Pop(t), Reaction(e, now, outcome)), pending + Started(e, now, outcome), g) >= 1
  {
    var e := t.heap[0];
    var reaction, started := Reaction(e, now, outcome), Started(e, now, outcome);
    LiveEntriesAfterPop(t);
    LiveEntriesAreUnique(t, map[], map[]);
    TotalOfConcat(Worth(AnyOf(g)), pending, started);
    if reaction != [] {
      CommandKeepsLive(Pop(t), reaction[0], g);
    }
    if e.guid == g {
      if outcome.Enqueued? {
        assert Total(Worth(AnyOf(g)), started) == Worth(AnyOf(g))(started[0]) + Total(Worth(AnyOf(g)), started[1..]);
      }
    } else {
      SkipKeepsLive(t, g);
    }
  }

  lemma SkipKeepsLive(t: Table, g: Guid)
    requires Valid(t) && t.heap != [] && (IsLive(t, t.heap[0]) ==> t.heap[0].guid != g)
    ensures Valid(Pop(t)) && Live(Pop(t), g) == Live(t, g)
  {
    LiveEntriesAfterPop(t);
    forall e | e in LiveEntries(t) && e.guid == g ensures e in LiveEntries(Pop(t)) {
    }
    assert LiveEntries(Pop(t)) <= LiveEntries(t);
  }

  /** Whenever the guid was served its session was still connected. */
  predicate ServedKept(served: seq<Entry>, outcomes: seq<Outcome>, g: Guid)
  {
    |served| <= |outcomes| && forall i :: 0 <= i < |served| && served[i].guid == g ==> Keeps(outcomes[i])
  }

  lemma FirstKept(e: Entry, rest: seq<Entry>, outcomes: seq<Outcome>, g: Guid)
    requires outcomes != [] && ServedKept([e] + rest, outcomes, g)
    ensures ServedKept(rest, outcomes[1..], g) && (e.guid == g ==> Keeps(outcomes[0]))
  {
    var served := [e] + rest;
    assert served[0] == e;
    forall i | 0 <= i < |rest| && rest[i].guid == g ensures Keeps(outcomes[1..][i]) {
      assert served[i + 1] == rest[i];
    }
  }

  /** A tick forgets no connected session: a guid that was scheduled, in flight or begins to connect
      is scheduled or in flight afterwards. */
  lemma {:induction false} TickForgetsNobody(t: Table, queue: seq<Command>, pending: seq<Pending>, since: Time,
                                             now: Time, batches: seq<seq<Event>>, outcomes: seq<Outcome>, g: Guid)
    requires Valid(t) && Play(t, queue, pending, since, now, batches, outcomes).lawful
    requires EventsKeep(AllEvents(batches), g)
    requires ServedKept(Tick(t, queue, now, Arrivals(batches), outcomes).served, outcomes, g)
    requires Occurrences(t, queue, pending, g) + NewWeight(AnyOf(g), AllEvents(batches)) >= 1
    ensures var r := Tick(t, queue, now, Arrivals(batches), outcomes);
            Occurrences(r.table, r.queue, Play(t, queue, pending, since, now, batches, outcomes).pending, g) >= 1
    decreases CountDue(t.heap, now) + CountDueCommands(queue, now) + CountDueArrivals(Arrivals(batches), now)
  {
    var first, later := FirstEvents(batches), LaterEvents(batches);
    ArrivalsStep(batches);
    ApplyAllKeepsValid(t, queue);
    if outcomes == [] {
      ArrivalsInAll(batches);
      ApplyAllConcat(t, queue, CommandsOf(AllEvents(batches)));
      BatchKeepsFound(ApplyAll(t, queue), pending, since, AllEvents(batches), g);
    } else {
      FirstThenLater(AnyOf(g), batches);
      KeepParts(batches, g);
      ApplyAllConcat(t, queue, CommandsOf(first));
      var drained, pending' := ApplyAll(t, queue + CommandsOf(first)), AfterEvents(pending, first);
      ApplyAllKeepsValid(ApplyAll(t, queue), CommandsOf(first));
      if Occurrences(t, queue, pending, g) + NewWeight(AnyOf(g), first) >= 1 {
        BatchKeepsFound(ApplyAll(t, queue), pending, since, first, g);
      }
      if drained.heap == [] || drained.heap[0].due > now {
        ArrivalsInAll(later);
        BatchKeepsFound(drained, pending', since, AllEvents(later), g);
      } else {
        DrainMeasure(t, queue, now, Arrivals(batches));
        LiveEntriesAfterPop(drained);
        var e := drained.heap[0];
        if IsLive(drained, e) {
          ReactionIsNotDue(e, now, outcomes[0]);
          var rest := Tick(Pop(drained), Reaction(e, now, outcomes[0]), now, Arrivals(later), outcomes[1..]);
          FirstKept(e, rest.served, outcomes, g);
          if Found(drained, pending', g) >= 1 {
            ServeKeepsFound(drained, pending', now, outcomes[0], g);
          }
          TickForgetsNobody(Pop(drained), Reaction(e, now, outcomes[0]), pending' + Started(e, now, outcomes[0]),
                            since, now, later, outcomes[1..], g);
        } else {
          SkipKeepsLive(drained, g);
          TickForgetsNobody(Pop(drained), [], pending', since, now, later, outcomes, g);
        }
      }
    }
  }

  // ----- Over whole runs -----

  function EndOf(s: World, inputs: seq<TickInput>): World
    decreases |inputs|
  {
    if inputs == [] then s else EndOf(NextWorld(s, inputs[0]), inputs[1..])
  }

  /** In no tick of the run is the guid dropped, found unconnected by its task, or served without a
      connected session. */
  predicate KeptThroughout(s: World, inputs: seq<TickInput>, g: Guid)
    decreases |inputs|
  {
    inputs == [] ||
    (&& EventsKeep(AllEvents(inputs[0].batches), g)
     && ServedKept(TickOf(s, inputs[0]).served, inputs[0].outcomes, g)
     && KeptThroughout(NextWorld(s, inputs[0]), inputs[1..], g))
  }

  /** No connected session is ever forgotten: once it is scheduled or in flight it stays so through
      every run in which it is not given up. */
  lemma {:induction false} NobodyIsForgotten(s: World, inputs: seq<TickInput>, g: Guid)
    requires Valid(s.table) && Lawful(s, inputs) && KeptThroughout(s, inputs, g)
    requires Occurrences(s.table, s.queue, s.pending, g) >= 1
    ensures var end := EndOf(s, inputs);
            Valid(end.table) && Occurrences(end.table, end.queue, end.pending, g) >= 1
    decreases |inputs|
  {
    if inputs != [] {
      var input := inputs[0];
      TickForgetsNobody(s.table, s.queue, s.pending, s.clock, input.now, input.batches, input.outcomes, g);
      TickKeepsOccurrences(s.table, s.queue, s.pending, s.clock, input.now, input.batches, input.outcomes, g);
      NobodyIsForgotten(NextWorld(s, input), inputs[1..], g);
    }
  }
}
