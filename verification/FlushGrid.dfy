/** A session stays on its own 20 ms grid: in every run the deadlines for which it is served are, one
    after the other, those that the clock arithmetic gives, so that the run drives the session's gate
    as FlushClock assumes. */
module FlushGrid {
  import opened Agents
  import opened FlushClock
  import opened FlushSchedule
  import opened FlushTick
  import opened FlushTasks
  import opened FlushOnce
  import opened FlushReturns

  /** A guid served for the deadline `due` by the tick at `now`; its strand took the task or not. */
  datatype Serve = Serve(due: Time, now: Time, accepted: bool)

  function ServesOf(served: seq<Entry>, outcomes: seq<Outcome>, g: Guid, now: Time): seq<Serve>
    decreases |served|
  {
    if served == [] || outcomes == [] then []
    else
      var first := if served[0].guid == g then [Serve(served[0].due, now, outcomes[0].Enqueued?)] else [];
      first + ServesOf(served[1..], outcomes[1..], g, now)
  }

  /** Wherever the guid is scheduled, or will be by work under way, it is for the time `due`. */
  ghost predicate OnlyAt(t: Table, pending: seq<Pending>, g: Guid, due: Time)
  {
    && (forall e :: e in LiveEntries(t) && e.guid == g ==> e.due == due)
    && (forall i :: 0 <= i < |pending| && pending[i].guid == g ==> DueOf(pending[i]) == due)
  }

  predicate BeginsNot(evs: seq<Event>, g: Guid)
    decreases |evs|
  {
    evs == [] || ((evs[0].Begins? ==> evs[0].work.guid != g) && BeginsNot(evs[1..], g))
  }

  lemma {:induction false} BeginsNotConcat(a: seq<Event>, b: seq<Event>, g: Guid)
    requires BeginsNot(a + b, g)
    ensures BeginsNot(a, g) && BeginsNot(b, g)
    decreases |a|
  {
    if a == [] {
      assert a + b == b;
    } else {
      assert (a + b)[1..] == a[1..] + b;
      BeginsNotConcat(a[1..], b, g);
    }
  }

  lemma BeginsNotParts(batches: seq<seq<Event>>, g: Guid)
    requires BeginsNot(AllEvents(batches), g)
    ensures BeginsNot(FirstEvents(batches), g) && BeginsNot(AllEvents(LaterEvents(batches)), g)
  {
    if batches != [] {
      BeginsNotConcat(batches[0], AllEvents(batches[1..]), g);
    }
  }

  lemma {:induction false} BeginsNotWeighsNothing(evs: seq<Event>, g: Guid)
    requires BeginsNot(evs, g)
    ensures NewWeight(AnyOf(g), evs) == 0
    decreases |evs|
  {
    if evs != [] {
      BeginsNotWeighsNothing(evs[1..], g);
    }
  }

  lemma EventKeepsOnlyAt(t: Table, pending: seq<Pending>, since: Time, ev: Event, g: Guid, due: Time)
    requires Valid(t) && Possible(pending, since, ev) && (ev.Begins? ==> ev.work.guid != g)
         && OnlyAt(t, pending, g, due)
    ensures Valid(ApplyAll(t, CommandOf(ev))) && OnlyAt(ApplyAll(t, CommandOf(ev)), AfterEvent(pending, ev), g, due)
  {
    if CommandOf(ev) != [] {
      var c := CommandOf(ev)[0];
      assert ApplyAll(t, [c]) == ApplyAll(Apply(t, c), [c][1..]);
      LiveEntriesAfterApply(t, c);
    }
  }

  lemma {:induction false} BatchKeepsOnlyAt(t: Table, pending: seq<Pending>, since: Time, evs: seq<Event>, g: Guid,
                                            due: Time)
    requires Valid(t) && AllPossible(pending, since, evs) && BeginsNot(evs, g) && OnlyAt(t, pending, g, due)
    ensures Valid(ApplyAll(t, CommandsOf(evs)))
    ensures OnlyAt(ApplyAll(t, CommandsOf(evs)), AfterEvents(pending, evs), g, due)
    decreases |evs|
  {
    if evs != [] {
      EventKeepsOnlyAt(t, pending, since, evs[0], g, due);
      BatchKeepsOnlyAt(ApplyAll(t, CommandOf(evs[0])), AfterEvent(pending, evs[0]), since, evs[1..], g, due);
      ApplyAllConcat(t, CommandOf(evs[0]), CommandsOf(evs[1..]));
    }
  }

  /** The served guid moves to the next point of its grid, the others stay. */
  lemma ServeMovesOn(t: Table, pending: seq<Pending>, now: Time, outcome: Outcome, g: Guid, due: Time)
    requires Valid(t) && t.heap != [] && IsLive(t, t.heap[0]) && OnlyAt(t, pending, g, due)
    requires Found(t, pending, g) <= 1
    ensures var e := t.heap[0];
            && Valid(Pop(t)) && (e.guid == g ==> e.due == due)
            && OnlyAt(ApplyAll(Pop(t), Reaction(e, now, outcome)), pending + Started(e, now, outcome), g,
                      if e.guid == g then NextScheduledFlushDue(due, now) else due)
  {
    var e := t.heap[0];
    var reaction := Reaction(e, now, outcome);
    LiveEntriesAfterPop(t);
    LiveEntriesAreUnique(t, map[], map[]);
    assert e in LiveEntries(t);
    if e.guid == g {
      assert g in LiveGuids(t);
      forall i | 0 <= i < |pending| ensures pending[i].guid != g {
        TotalCoversOne(Worth(AnyOf(g)), pending, i);
      }
    }
    if reaction != [] {
      assert ApplyAll(Pop(t), reaction) == ApplyAll(Apply(Pop(t), reaction[0]), reaction[1..]);
      LiveEntriesAfterApply(Pop(t), reaction[0]);
    }
  }

  /** Within one tick the guid is served for its deadline, once, and moves on, or it is not served. */
  ghost predicate Follows(r: TickResult, pending: seq<Pending>, outcomes: seq<Outcome>, now: Time, g: Guid, due: Time)
  {
    var serves, t := ServesOf(r.served, outcomes, g, now), ApplyAll(r.table, r.queue);
    || (serves == [] && OnlyAt(t, pending, g, due))
    || (|serves| == 1 && serves[0].due == due <= now && serves[0].now == now
        && OnlyAt(t, pending, g, NextScheduledFlushDue(due, now)))
  }

  lemma FirstServe(e: Entry, rest: TickResult, r: TickResult, pending: seq<Pending>, outcomes: seq<Outcome>, now: Time,
                   g: Guid, due: Time)
    requires outcomes != [] && e.due <= now && (e.guid == g ==> e.due == due)
    requires r.served == [e] + rest.served && r.table == rest.table && r.queue == rest.queue
    requires Follows(rest, pending, outcomes[1..], now, g, if e.guid == g then NextScheduledFlushDue(due, now) else due)
    ensures Follows(r, pending, outcomes, now, g, due)
  {
    NextDueIsLeastGridPoint(due, now);
    assert r.served[1..] == rest.served;
    var later := ServesOf(rest.served, outcomes[1..], g, now);
    assert [] + later == later;
    if e.guid == g {
      assert later == [];
    }
  }

  lemma SkipKeepsOnlyAt(t: Table, pending: seq<Pending>, g: Guid, due: Time)
    requires Valid(t) && t.heap != [] && !IsLive(t, t.heap[0]) && OnlyAt(t, pending, g, due)
    ensures Valid(Pop(t)) && OnlyAt(Pop(t), pending, g, due)
  {
    LiveEntriesAfterPop(t);
  }

  lemma DrainKeepsOnlyAt(t: Table, queue: seq<Command>, pending: seq<Pending>, since: Time, evs: seq<Event>, g: Guid,
                         due: Time)
    requires Valid(t) && AllPossible(pending, since, evs) && BeginsNot(evs, g)
    requires Occurrences(t, queue, pending, g) <= 1 && OnlyAt(ApplyAll(t, queue), pending, g, due)
    ensures var drained, pending' := ApplyAll(t, queue + CommandsOf(evs)), AfterEvents(pending, evs);
            Valid(drained) && OnlyAt(drained, pending', g, due) && Found(drained, pending', g) <= 1
  {
    ApplyAllKeepsValid(t, queue);
    BeginsNotWeighsNothing(evs, g);
    ApplyAllConcat(t, queue, CommandsOf(evs));
    BatchKeepsOnlyAt(ApplyAll(t, queue), pending, since, evs, g, due);
    BatchKeepsOccurrences(ApplyAll(t, queue), pending, since, evs, g);
  }

  lemma {:induction false} TickFollowsGrid(t: Table, queue: seq<Command>, pending: seq<Pending>, since: Time,
                                           now: Time, batches: seq<seq<Event>>, outcomes: seq<Outcome>,
                                           g: Guid, due: Time)
    requires Valid(t) && Play(t, queue, pending, since, now, batches, outcomes).lawful
    requires BeginsNot(AllEvents(batches), g)
    requires Occurrences(t, queue, pending, g) <= 1 && OnlyAt(ApplyAll(t, queue), pending, g, due)
    ensures Follows(Tick(t, queue, now, Arrivals(batches), outcomes),
                    Play(t, queue, pending, since, now, batches, outcomes).pending, outcomes, now, g, due)
    decreases CountDue(t.heap, now) + CountDueCommands(queue, now) + CountDueArrivals(Arrivals(batches), now)
  {
    var first, later := FirstEvents(batches), LaterEvents(batches);
    ArrivalsStep(batches);
    ApplyAllKeepsValid(t, queue);
    if outcomes == [] {
      ArrivalsInAll(batches);
      ApplyAllConcat(t, queue, CommandsOf(AllEvents(batches)));
      BatchKeepsOnlyAt(ApplyAll(t, queue), pending, since, AllEvents(batches), g, due);
    } else {
      BeginsNotParts(batches, g);
      DrainKeepsOnlyAt(t, queue, pending, since, first, g, due);
      var drained, pending' := ApplyAll(t, queue + CommandsOf(first)), AfterEvents(pending, first);
      if drained.heap == [] || drained.heap[0].due > now {
        ArrivalsInAll(later);
        BatchKeepsOnlyAt(drained, pending', since, AllEvents(later), g, due);
      } else {
        DrainMeasure(t, queue, now, Arrivals(batches));
        var e := drained.heap[0];
        if IsLive(drained, e) {
          ReactionIsNotDue(e, now, outcomes[0]);
          ServeMovesOn(drained, pending', now, outcomes[0], g, due);
          ServeKeepsOne(drained, pending', now, outcomes[0], g);
          var reaction, started := Reaction(e, now, outcomes[0]), pending' + Started(e, now, outcomes[0]);
          TickFollowsGrid(Pop(drained), reaction, started, since, now, later, outcomes[1..], g,
                          if e.guid == g then NextScheduledFlushDue(due, now) else due);
          FirstServe(e, Tick(Pop(drained), reaction, now, Arrivals(later), outcomes[1..]),
                     Tick(t, queue, now, Arrivals(batches), outcomes),
                     Play(Pop(drained), reaction, started, since, now, later, outcomes[1..]).pending,
                     outcomes, now, g, due);
        } else {
          SkipKeepsOne(drained, pending', g);
          SkipKeepsOnlyAt(drained, pending', g, due);
          TickFollowsGrid(Pop(drained), [], pending', since, now, later, outcomes, g, due);
        }
      }
    }
  }

  // ----- Over whole runs -----

  /** How the guid is served in a run. */
  function RunServes(s: World, inputs: seq<TickInput>, g: Guid): seq<Serve>
    decreases |inputs|
  {
    if inputs == [] then []
    else
      var first := ServesOf(TickOf(s, inputs[0]).served, inputs[0].outcomes, g, inputs[0].now);
      first + RunServes(NextWorld(s, inputs[0]), inputs[1..], g)
  }

  predicate NeverBegins(inputs: seq<TickInput>, g: Guid)
    decreases |inputs|
  {
    inputs == [] || (BeginsNot(AllEvents(inputs[0].batches), g) && NeverBegins(inputs[1..], g))
  }

  /** Each serve is for the deadline that the one before it gave, and none is early. */
  predicate FollowsGrid(first: Time, serves: seq<Serve>)
    decreases |serves|
  {
    serves == [] ||
    (&& serves[0].due == first <= serves[0].now
     && FollowsGrid(NextScheduledFlushDue(first, serves[0].now), serves[1..]))
  }

  /** In every run: a guid that is scheduled or in flight once, for the time `due`, and does not
      connect again is served for `due`, and then each time for the deadline that follows. */
  lemma {:induction false} RunFollowsGrid(s: World, inputs: seq<TickInput>, g: Guid, due: Time)
    requires Valid(s.table) && Lawful(s, inputs) && NeverBegins(inputs, g)
    requires Occurrences(s.table, s.queue, s.pending, g) <= 1 && OnlyAt(ApplyAll(s.table, s.queue), s.pending, g, due)
    ensures FollowsGrid(due, RunServes(s, inputs, g))
    decreases |inputs|
  {
    if inputs != [] {
      var input, s' := inputs[0], NextWorld(s, inputs[0]);
      TickFollowsGrid(s.table, s.queue, s.pending, s.clock, input.now, input.batches, input.outcomes, g, due);
      TickKeepsOccurrences(s.table, s.queue, s.pending, s.clock, input.now, input.batches, input.outcomes, g);
      BeginsNotWeighsNothing(AllEvents(input.batches), g);
      var serves, later := ServesOf(TickOf(s, input).served, input.outcomes, g, input.now),
          RunServes(s', inputs[1..], g);
      if serves == [] {
        assert serves + later == later;
        RunFollowsGrid(s', inputs[1..], g, due);
      } else {
        assert (serves + later)[1..] == later;
        RunFollowsGrid(s', inputs[1..], g, NextScheduledFlushDue(due, input.now));
      }
    }
  }

  // ----- The run drives the session's gate -----

  /** The serves whose task the strand took: these reach the session. */
  function Accepted(serves: seq<Serve>): seq<Fire>
    decreases |serves|
  {
    if serves == [] then []
    else (if serves[0].accepted then [Fire(serves[0].due, serves[0].now)] else []) + Accepted(serves[1..])
  }

  ghost predicate DrivenFrom(first: Time, fires: seq<Fire>)
    decreases |fires|
  {
    fires == [] ||
    (&& OnGridFrom(first, fires[0].due) && fires[0].due <= fires[0].now
     && DrivenFrom(NextScheduledFlushDue(fires[0].due, fires[0].now), fires[1..]))
  }

  lemma GridIsTransitive(a: Time, b: Time, c: Time)
    requires OnGridFrom(a, b) && OnGridFrom(b, c)
    ensures OnGridFrom(a, c)
  {
    var m: nat :| b == GridPoint(a, m);
    var n: nat :| c == GridPoint(b, n);
    assert c == GridPoint(a, m + n);
  }

  lemma {:induction false} AcceptedAreDriven(first: Time, serves: seq<Serve>)
    requires FollowsGrid(first, serves)
    ensures DrivenFrom(first, Accepted(serves))
    decreases |serves|
  {
    if serves != [] {
      var next, rest := NextScheduledFlushDue(first, serves[0].now), Accepted(serves[1..]);
      assert first == GridPoint(first, 0);
      AcceptedAreDriven(next, serves[1..]);
      if serves[0].accepted {
        assert ([Fire(first, serves[0].now)] + rest)[1..] == rest;
      } else {
        assert [] + rest == rest;
        RefusedStaysOnGrid(first, first, serves[0].now);
        if rest != [] {
          GridIsTransitive(first, next, rest[0].due);
        }
      }
    }
  }

  lemma {:induction false} DrivenAt(first: Time, fires: seq<Fire>, k: nat)
    requires DrivenFrom(first, fires) && k < |fires|
    ensures fires[k].due <= fires[k].now
    ensures OnGridFrom(if k == 0 then first else NextScheduledFlushDue(fires[k - 1].due, fires[k - 1].now),
                       fires[k].due)
    decreases k
  {
    if k > 0 {
      DrivenAt(NextScheduledFlushDue(fires[0].due, fires[0].now), fires[1..], k - 1);
    }
  }

  lemma DrivenIsSchedulerDriven(created: Time, readAt: Time, offset: int, fires: seq<Fire>)
    requires DrivenFrom(readAt + offset, fires) && created <= readAt && 0 <= offset < FLUSH_INTERVAL
    ensures SchedulerDriven(created, readAt, offset, fires)
  {
    forall k | 0 <= k < |fires|
      ensures fires[k].due <= fires[k].now
      ensures k == 0 ==> OnGridFrom(readAt + offset, fires[k].due)
      ensures k > 0 ==> OnGridFrom(NextScheduledFlushDue(fires[k - 1].due, fires[k - 1].now), fires[k].due)
    {
      DrivenAt(readAt + offset, fires, k);
    }
  }

  /** A session whose connecting is all that is known of its guid is, from then on and in every run in
      which it does not connect again, driven by the scheduler as the gate's theorems assume. */
  lemma RunDrivesTheGate(s: World, inputs: seq<TickInput>, g: Guid, readAt: Time, offset: int, created: Time)
    requires Valid(s.table) && Lawful(s, inputs) && NeverBegins(inputs, g)
    requires s.pending != [] && s.pending[|s.pending| - 1] == Connecting(g, readAt, offset)
    requires 0 <= offset < FLUSH_INTERVAL && created <= readAt
    requires Occurrences(s.table, s.queue, s.pending, g) <= 1
    ensures SchedulerDriven(created, readAt, offset, Accepted(RunServes(s, inputs, g)))
  {
    OnlyConnecting(s, g, |s.pending| - 1);
    RunFollowsGrid(s, inputs, g, readAt + offset);
    AcceptedAreDriven(readAt + offset, RunServes(s, inputs, g));
    DrivenIsSchedulerDriven(created, readAt, offset, Accepted(RunServes(s, inputs, g)));
  }

  lemma OnlyConnecting(s: World, g: Guid, i: nat)
    requires i < |s.pending| && s.pending[i].guid == g && Occurrences(s.table, s.queue, s.pending, g) <= 1
    ensures OnlyAt(ApplyAll(s.table, s.queue), s.pending, g, DueOf(s.pending[i]))
  {
    var w := Worth(AnyOf(g));
    TotalCoversOne(w, s.pending, i);
    assert w(s.pending[i]) == 1;
    forall j | 0 <= j < |s.pending| && s.pending[j].guid == g ensures j == i {
      if j < i {
        TotalCoversTwo(w, s.pending, j, i);
      } else if i < j {
        TotalCoversTwo(w, s.pending, i, j);
      }
    }
    forall e | e in LiveEntries(ApplyAll(s.table, s.queue)) ensures e.guid != g {
      assert e.guid in LiveGuids(ApplyAll(s.table, s.queue));
    }
  }

  // ----- What is given up leaves nothing behind -----

  /** No token, no live entry and no work under way is left of the guid. */
  ghost predicate Gone(t: Table, pending: seq<Pending>, g: Guid)
  {
    g !in t.tokens && forall i :: 0 <= i < |pending| ==> pending[i].guid != g
  }

  /** A guid that is dropped, or whose flush task finds its session gone, has no token afterwards, so
      that none of its entries is live. */
  lemma CancelledIsUnscheduled(t: Table, ev: Event, g: Guid)
    requires ev == Drops(g) || (ev.Finishes? && ev.work.guid == g && !ev.connected)
    ensures var t' := ApplyAll(t, CommandOf(ev));
            g !in t'.tokens && g !in LiveGuids(t')
  {
    assert ApplyAll(t, [Cancel(g)]) == ApplyAll(Apply(t, Cancel(g)), [Cancel(g)][1..]);
  }

  lemma {:induction false} BatchKeepsGone(t: Table, pending: seq<Pending>, since: Time, evs: seq<Event>, g: Guid)
    requires AllPossible(pending, since, evs) && BeginsNot(evs, g) && Gone(t, pending, g)
    ensures Gone(ApplyAll(t, CommandsOf(evs)), AfterEvents(pending, evs), g)
    decreases |evs|
  {
    if evs != [] {
      var t' := ApplyAll(t, CommandOf(evs[0]));
      if CommandOf(evs[0]) != [] {
        var c := CommandOf(evs[0])[0];
        assert t' == ApplyAll(Apply(t, c), CommandOf(evs[0])[1..]);
      }
      BatchKeepsGone(t', AfterEvent(pending, evs[0]), since, evs[1..], g);
      ApplyAllConcat(t, CommandOf(evs[0]), CommandsOf(evs[1..]));
    }
  }

  lemma ServeKeepsGone(t: Table, pending: seq<Pending>, now: Time, outcome: Outcome, g: Guid)
    requires t.heap != [] && IsLive(t, t.heap[0]) && Gone(t, pending, g)
    ensures Gone(ApplyAll(Pop(t), Reaction(t.heap[0], now, outcome)), pending + Started(t.heap[0], now, outcome), g)
  {
    var reaction := Reaction(t.heap[0], now, outcome);
    if reaction != [] {
      assert ApplyAll(Pop(t), reaction) == ApplyAll(Apply(Pop(t), reaction[0]), reaction[1..]);
    }
  }

  lemma ServeGivesUp(t: Table, pending: seq<Pending>, now: Time, outcome: Outcome)
    requires Valid(t) && t.heap != [] && IsLive(t, t.heap[0]) && !Keeps(outcome)
    requires Found(t, pending, t.heap[0].guid) <= 1
    ensures var e := t.heap[0];
            Gone(ApplyAll(Pop(t), Reaction(e, now, outcome)), pending + Started(e, now, outcome), e.guid)
  {
    var e := t.heap[0];
    var reaction := Reaction(e, now, outcome);
    assert e in LiveEntries(t) && e.guid in LiveGuids(t);
    assert ApplyAll(Pop(t), reaction) == ApplyAll(Apply(Pop(t), reaction[0]), reaction[1..]);
    forall i | 0 <= i < |pending| ensures pending[i].guid != e.guid {
      TotalCoversOne(Worth(AnyOf(e.guid)), pending, i);
    }
  }

  /** A guid of which nothing is left stays away until it connects. */
  lemma {:induction false} TickKeepsGone(t: Table, queue: seq<Command>, pending: seq<Pending>, since: Time,
                                         now: Time, batches: seq<seq<Event>>, outcomes: seq<Outcome>, g: Guid)
    requires Play(t, queue, pending, since, now, batches, outcomes).lawful
    requires BeginsNot(AllEvents(batches), g) && Gone(ApplyAll(t, queue), pending, g)
    ensures var r := Tick(t, queue, now, Arrivals(batches), outcomes);
            && Gone(ApplyAll(r.table, r.queue), Play(t, queue, pending, since, now, batches, outcomes).pending, g)
            && forall e :: e in r.served ==> e.guid != g
    decreases CountDue(t.heap, now) + CountDueCommands(queue, now) + CountDueArrivals(Arrivals(batches), now)
  {
    var first, later := FirstEvents(batches), LaterEvents(batches);
    ArrivalsStep(batches);
    if outcomes == [] {
      ArrivalsInAll(batches);
      ApplyAllConcat(t, queue, CommandsOf(AllEvents(batches)));
      BatchKeepsGone(ApplyAll(t, queue), pending, since, AllEvents(batches), g);
    } else {
      BeginsNotParts(batches, g);
      ApplyAllConcat(t, queue, CommandsOf(first));
      BatchKeepsGone(ApplyAll(t, queue), pending, since, first, g);
      var drained, pending' := ApplyAll(t, queue + CommandsOf(first)), AfterEvents(pending, first);
      if drained.heap == [] || drained.heap[0].due > now {
        ArrivalsInAll(later);
        BatchKeepsGone(drained, pending', since, AllEvents(later), g);
      } else {
        DrainMeasure(t, queue, now, Arrivals(batches));
        var e := drained.heap[0];
        if IsLive(drained, e) {
          ReactionIsNotDue(e, now, outcomes[0]);
          ServeKeepsGone(drained, pending', now, outcomes[0], g);
          TickKeepsGone(Pop(drained), Reaction(e, now, outcomes[0]), pending' + Started(e, now, outcomes[0]),
                        since, now, later, outcomes[1..], g);
        } else {
          TickKeepsGone(Pop(drained), [], pending', since, now, later, outcomes, g);
        }
      }
    }
  }

  /** Some serve of the guid found no connected session. */
  predicate GaveUp(served: seq<Entry>, outcomes: seq<Outcome>, g: Guid)
    decreases |served|
  {
    served != [] && outcomes != [] &&
    ((served[0].guid == g && !Keeps(outcomes[0])) || GaveUp(served[1..], outcomes[1..], g))
  }

  lemma {:induction false} GaveUpAt(served: seq<Entry>, outcomes: seq<Outcome>, g: Guid, i: nat)
    requires i < |served| && i < |outcomes| && served[i].guid == g && !Keeps(outcomes[i])
    ensures GaveUp(served, outcomes, g)
    decreases i
  {
    if i > 0 {
      GaveUpAt(served[1..], outcomes[1..], g, i - 1);
    }
  }

  /** A guid that is served without a connected session leaves nothing behind. */
  lemma {:induction false} GivenUpIsGone(t: Table, queue: seq<Command>, pending: seq<Pending>, since: Time,
                                         now: Time, batches: seq<seq<Event>>, outcomes: seq<Outcome>, g: Guid)
    requires Valid(t) && Play(t, queue, pending, since, now, batches, outcomes).lawful
    requires BeginsNot(AllEvents(batches), g) && Occurrences(t, queue, pending, g) <= 1
    ensures var r := Tick(t, queue, now, Arrivals(batches), outcomes);
            GaveUp(r.served, outcomes, g) ==>
              Gone(ApplyAll(r.table, r.queue), Play(t, queue, pending, since, now, batches, outcomes).pending, g)
    decreases CountDue(t.heap, now) + CountDueCommands(queue, now) + CountDueArrivals(Arrivals(batches), now)
  {
    if outcomes != [] {
      var first, later := FirstEvents(batches), LaterEvents(batches);
      ArrivalsStep(batches);
      BeginsNotParts(batches, g);
      DrainKeepsOne(t, queue, pending, since, first, g);
      var drained, pending' := ApplyAll(t, queue + CommandsOf(first)), AfterEvents(pending, first);
      if drained.heap != [] && drained.heap[0].due <= now {
        DrainMeasure(t, queue, now, Arrivals(batches));
        var e := drained.heap[0];
        if IsLive(drained, e) {
          ReactionIsNotDue(e, now, outcomes[0]);
          var reaction, started := Reaction(e, now, outcomes[0]), pending' + Started(e, now, outcomes[0]);
          var rest := Tick(Pop(drained), reaction, now, Arrivals(later), outcomes[1..]);
          assert ([e] + rest.served)[1..] == rest.served;
          ServeKeepsOne(drained, pending', now, outcomes[0], g);
          GivenUpIsGone(Pop(drained), reaction, started, since, now, later, outcomes[1..], g);
          if e.guid == g && !Keeps(outcomes[0]) {
            ServeGivesUp(drained, pending', now, outcomes[0]);
            TickKeepsGone(Pop(drained), reaction, started, since, now, later, outcomes[1..], g);
          }
        } else {
          SkipKeepsOne(drained, pending', g);
          GivenUpIsGone(Pop(drained), [], pending', since, now, later, outcomes, g);
        }
      }
    }
  }

  lemma SkipKeepsOne(t: Table, pending: seq<Pending>, g: Guid)
    requires Valid(t) && t.heap != [] && !IsLive(t, t.heap[0]) && Found(t, pending, g) <= 1
    ensures Valid(Pop(t)) && Occurrences(Pop(t), [], pending, g) <= 1
  {
    SkipKeepsLive(t, g);
  }

  lemma ServeKeepsOne(t: Table, pending: seq<Pending>, now: Time, outcome: Outcome, g: Guid)
    requires Valid(t) && t.heap != [] && IsLive(t, t.heap[0]) && Found(t, pending, g) <= 1
    ensures Valid(Pop(t))
    ensures Occurrences(Pop(t), Reaction(t.heap[0], now, outcome), pending + Started(t.heap[0], now, outcome), g) <= 1
  {
    LiveEntriesAfterPop(t);
    ServeKeepsOccurrences(t, pending, now, outcome, g);
  }

  lemma DrainKeepsOne(t: Table, queue: seq<Command>, pending: seq<Pending>, since: Time, evs: seq<Event>, g: Guid)
    requires Valid(t) && AllPossible(pending, since, evs) && BeginsNot(evs, g)
    requires Occurrences(t, queue, pending, g) <= 1
    ensures var drained, pending' := ApplyAll(t, queue + CommandsOf(evs)), AfterEvents(pending, evs);
            Valid(drained) && Found(drained, pending', g) <= 1
  {
    ApplyAllKeepsValid(t, queue);
    BeginsNotWeighsNothing(evs, g);
    ApplyAllConcat(t, queue, CommandsOf(evs));
    BatchKeepsOccurrences(ApplyAll(t, queue), pending, since, evs, g);
  }
}
