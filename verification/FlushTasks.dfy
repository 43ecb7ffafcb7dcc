/** Where the commands come from that other threads put in the queue: flush tasks that finish on
    their strands - of this tick or of earlier ones - sessions that connect, and cancellations. */
module FlushTasks {
  import opened Agents
  import opened FlushClock
  import opened FlushSchedule
  import opened FlushTick

  /** Work under way that will schedule a guid: the flush task of a guid that was served at
      `servedAt` for the deadline `previousDue`, or a connecting session after its clock reading. */
  datatype Pending =
    | Flushing(guid: Guid, previousDue: Time, servedAt: Time)
    | Connecting(guid: Guid, readAt: Time, offset: int)

  /** The deadline with which it will schedule its guid. */
  function DueOf(p: Pending): Time
  {
    match p
    case Flushing(_, previousDue, servedAt) => NextScheduledFlushDue(previousDue, servedAt)
    case Connecting(_, readAt, offset) => readAt + offset
  }

  /** What happens in other threads.  `Finishes` names its work by its place; a flush task whose
      session is no longer connected cancels instead of scheduling. */
  datatype Event =
    | Begins(work: Pending)
    | Finishes(i: nat, work: Pending, connected: bool)
    | Drops(guid: Guid)

  function CommandOf(ev: Event): seq<Command>
  {
    match ev
    case Begins(_) => []
    case Finishes(_, p, connected) => if connected then [Schedule(p.guid, DueOf(p))] else [Cancel(p.guid)]
    case Drops(guid) => [Cancel(guid)]
  }

  /** Only what is under way can finish, and a session that begins to connect reads the clock
      not before `since`. */
  predicate Possible(pending: seq<Pending>, since: Time, ev: Event)
  {
    match ev
    case Begins(p) => p.Connecting? && p.readAt >= since && 0 <= p.offset < FLUSH_INTERVAL
    case Finishes(i, p, connected) => i < |pending| && pending[i] == p && (p.Connecting? ==> connected)
    case Drops(_) => true
  }

  function AfterEvent(pending: seq<Pending>, ev: Event): seq<Pending>
  {
    match ev
    case Begins(p) => pending + [p]
    case Finishes(i, _, _) => if i < |pending| then pending[..i] + pending[i + 1..] else pending
    case Drops(_) => pending
  }

  function CommandsOf(evs: seq<Event>): seq<Command>
  {
    if evs == [] then [] else CommandOf(evs[0]) + CommandsOf(evs[1..])
  }

  function AfterEvents(pending: seq<Pending>, evs: seq<Event>): seq<Pending>
    decreases |evs|
  {
    if evs == [] then pending else AfterEvents(AfterEvent(pending, evs[0]), evs[1..])
  }

  predicate AllPossible(pending: seq<Pending>, since: Time, evs: seq<Event>)
    decreases |evs|
  {
    evs == [] || (Possible(pending, since, evs[0]) && AllPossible(AfterEvent(pending, evs[0]), since, evs[1..]))
  }

  // ----- A tick with its environment -----

  /** The commands that arrive before each drain. */
  function Arrivals(batches: seq<seq<Event>>): seq<seq<Command>>
  {
    if batches == [] then [] else [CommandsOf(batches[0])] + Arrivals(batches[1..])
  }

  function FirstEvents(batches: seq<seq<Event>>): seq<Event>
  {
    if batches == [] then [] else batches[0]
  }

  function LaterEvents(batches: seq<seq<Event>>): seq<seq<Event>>
  {
    if batches == [] then [] else batches[1..]
  }

  lemma ArrivalsStep(batches: seq<seq<Event>>)
    ensures FirstBatch(Arrivals(batches)) == CommandsOf(FirstEvents(batches))
    ensures LaterBatches(Arrivals(batches)) == Arrivals(LaterEvents(batches))
  {
  }

  function AllEvents(batches: seq<seq<Event>>): seq<Event>
  {
    if batches == [] then [] else batches[0] + AllEvents(batches[1..])
  }

  /** The flush task that a served guid leaves on its strand. */
  function Started(e: Entry, now: Time, outcome: Outcome): seq<Pending>
  {
    if outcome.Enqueued? then [Flushing(e.guid, e.due, now)] else []
  }

  /** Whether the events were possible, and what is under way afterwards. */
  datatype Played = Played(lawful: bool, pending: seq<Pending>)

  function Absorb(pending: seq<Pending>, since: Time, evs: seq<Event>): Played
  {
    Played(AllPossible(pending, since, evs), AfterEvents(pending, evs))
  }

  /** The environment's side of a tick: before each drain a batch of events, and after each served
      guid that its strand took, a new task that may finish in any later batch. */
  function Play(t: Table, queue: seq<Command>, pending: seq<Pending>, since: Time,
                now: Time, batches: seq<seq<Event>>, outcomes: seq<Outcome>): Played
    decreases CountDue(t.heap, now) + CountDueCommands(queue, now) + CountDueArrivals(Arrivals(batches), now)
  {
    if outcomes == [] then Absorb(pending, since, AllEvents(batches))
    else
      ArrivalsStep(batches);
      var drained := ApplyAll(t, queue + CommandsOf(FirstEvents(batches)));
      var first, later := Absorb(pending, since, FirstEvents(batches)), LaterEvents(batches);
      if drained.heap == [] || drained.heap[0].due > now then
        var rest := Absorb(first.pending, since, AllEvents(later));
        Played(first.lawful && rest.lawful, rest.pending)
      else
        DrainMeasure(t, queue, now, Arrivals(batches));
        var e := drained.heap[0];
        if !IsLive(drained, e) then
          var rest := Play(Pop(drained), [], first.pending, since, now, later, outcomes);
          Played(first.lawful && rest.lawful, rest.pending)
        else
          ReactionIsNotDue(e, now, outcomes[0]);
          var rest := Play(Pop(drained), Reaction(e, now, outcomes[0]), first.pending + Started(e, now, outcomes[0]),
                           since, now, later, outcomes[1..]);
          Played(first.lawful && rest.lawful, rest.pending)
  }

  // ----- Weights -----

  /** A weight on deadlines: what a Schedule of this guid for this time is worth. */
  type Weight = (Guid, Time) -> nat

  function CommandWeight(w: Weight, cs: seq<Command>): nat
    decreases |cs|
  {
    if cs == [] then 0 else (if cs[0].Schedule? then w(cs[0].guid, cs[0].due) else 0) + CommandWeight(w, cs[1..])
  }

  function Worth(w: Weight): Pending -> nat
  {
    (p: Pending) => w(p.guid, DueOf(p))
  }

  function PendingWeight(w: Weight, pending: seq<Pending>): nat
  {
    Total(Worth(w), pending)
  }

  /** The weight of the sessions that begin to connect. */
  function NewWeight(w: Weight, evs: seq<Event>): nat
    decreases |evs|
  {
    if evs == [] then 0
    else (if evs[0].Begins? then w(evs[0].work.guid, DueOf(evs[0].work)) else 0) + NewWeight(w, evs[1..])
  }

  lemma {:induction false} CommandWeightConcat(w: Weight, a: seq<Command>, b: seq<Command>)
    ensures CommandWeight(w, a + b) == CommandWeight(w, a) + CommandWeight(w, b)
    decreases |a|
  {
    if a == [] {
      assert a + b == b;
    } else {
      assert (a + b)[1..] == a[1..] + b;
      CommandWeightConcat(w, a[1..], b);
    }
  }

  lemma {:induction false} NewWeightConcat(w: Weight, a: seq<Event>, b: seq<Event>)
    ensures NewWeight(w, a + b) == NewWeight(w, a) + NewWeight(w, b)
    decreases |a|
  {
    if a == [] {
      assert a + b == b;
    } else {
      assert (a + b)[1..] == a[1..] + b;
      NewWeightConcat(w, a[1..], b);
    }
  }

  lemma EventConserves(w: Weight, pending: seq<Pending>, since: Time, ev: Event)
    requires Possible(pending, since, ev)
    ensures CommandWeight(w, CommandOf(ev)) + PendingWeight(w, AfterEvent(pending, ev))
         <= PendingWeight(w, pending) + NewWeight(w, [ev])
  {
    match ev
    case Begins(p) =>
      TotalOfConcat(Worth(w), pending, [p]);
      assert Total(Worth(w), [p]) == Worth(w)(p);
    case Finishes(i, p, _) =>
      TotalOfSplit(Worth(w), pending, i);
      TotalOfConcat(Worth(w), pending[..i], pending[i + 1..]);
    case Drops(_) =>
  }

  /** Events produce no more weight than was pending or begins: every piece of work schedules once. */
  lemma {:induction false} EventsConserve(w: Weight, pending: seq<Pending>, since: Time, evs: seq<Event>)
    requires AllPossible(pending, since, evs)
    ensures CommandWeight(w, CommandsOf(evs)) + PendingWeight(w, AfterEvents(pending, evs))
         <= PendingWeight(w, pending) + NewWeight(w, evs)
    decreases |evs|
  {
    if evs != [] {
      EventConserves(w, pending, since, evs[0]);
      EventsConserve(w, AfterEvent(pending, evs[0]), since, evs[1..]);
      CommandWeightConcat(w, CommandOf(evs[0]), CommandsOf(evs[1..]));
    }
  }

  /** A task that this tick starts reschedules strictly after the tick's instant. */
  lemma StartedIsLater(w: Weight, pending: seq<Pending>, e: Entry, now: Time, outcome: Outcome)
    requires forall g, due :: due > now ==> w(g, due) == 0
    ensures PendingWeight(w, pending + Started(e, now, outcome)) == PendingWeight(w, pending)
  {
    NextDueIsLeastGridPoint(e.due, now);
    TotalOfConcat(Worth(w), pending, Started(e, now, outcome));
    if outcome.Enqueued? {
      var p := Flushing(e.guid, e.due, now);
      assert DueOf(p) > now && w(p.guid, DueOf(p)) == 0;
      assert Started(e, now, outcome) == [p];
      assert Total(Worth(w), [p]) == Worth(w)(p) + Total(Worth(w), [p][1..]);
    }
  }

  lemma {:induction false} CommandsOfConcat(a: seq<Event>, b: seq<Event>)
    ensures CommandsOf(a + b) == CommandsOf(a) + CommandsOf(b)
    decreases |a|
  {
    if a == [] {
      assert a + b == b;
    } else {
      assert (a + b)[1..] == a[1..] + b;
      CommandsOfConcat(a[1..], b);
    }
  }

  lemma {:induction false} ArrivalsInAll(batches: seq<seq<Event>>)
    ensures Flatten(Arrivals(batches)) == CommandsOf(AllEvents(batches))
  {
    if batches != [] {
      ArrivalsInAll(batches[1..]);
      assert Arrivals(batches)[1..] == Arrivals(batches[1..]);
      CommandsOfConcat(batches[0], AllEvents(batches[1..]));
    }
  }

  /** Over a whole tick: what arrives and what is still under way afterwards weighs no more than
      what was under way or began, for any weight on deadlines up to the tick's instant. */
  lemma {:induction false} PlayConserves(w: Weight, t: Table, queue: seq<Command>, pending: seq<Pending>, since: Time,
                                         now: Time, batches: seq<seq<Event>>, outcomes: seq<Outcome>)
    requires forall g, due :: due > now ==> w(g, due) == 0
    requires Play(t, queue, pending, since, now, batches, outcomes).lawful
    ensures CommandWeight(w, Flatten(Arrivals(batches)))
            + PendingWeight(w, Play(t, queue, pending, since, now, batches, outcomes).pending)
         <= PendingWeight(w, pending) + NewWeight(w, AllEvents(batches))
    decreases CountDue(t.heap, now) + CountDueCommands(queue, now) + CountDueArrivals(Arrivals(batches), now)
  {
    ArrivalsStep(batches);
    ArrivalsInAll(batches);
    if outcomes == [] {
      EventsConserve(w, pending, since, AllEvents(batches));
    } else {
      var first, later := FirstEvents(batches), LaterEvents(batches);
      var drained, pending' := ApplyAll(t, queue + CommandsOf(first)), AfterEvents(pending, first);
      FirstThenLater(w, batches);
      EventsConserve(w, pending, since, first);
      if drained.heap == [] || drained.heap[0].due > now {
        ArrivalsInAll(later);
        EventsConserve(w, pending', since, AllEvents(later));
      } else {
        DrainMeasure(t, queue, now, Arrivals(batches));
        var e := drained.heap[0];
        if !IsLive(drained, e) {
          PlayConserves(w, Pop(drained), [], pending', since, now, later, outcomes);
        } else {
          ReactionIsNotDue(e, now, outcomes[0]);
          StartedIsLater(w, pending', e, now, outcomes[0]);
          PlayConserves(w, Pop(drained), Reaction(e, now, outcomes[0]), pending' + Started(e, now, outcomes[0]),
                        since, now, later, outcomes[1..]);
        }
      }
    }
  }

  lemma FirstThenLater(w: Weight, batches: seq<seq<Event>>)
    ensures AllEvents(batches) == FirstEvents(batches) + AllEvents(LaterEvents(batches))
    ensures NewWeight(w, AllEvents(batches))
         == NewWeight(w, FirstEvents(batches)) + NewWeight(w, AllEvents(LaterEvents(batches)))
    ensures CommandWeight(w, Flatten(Arrivals(batches)))
         == CommandWeight(w, CommandsOf(FirstEvents(batches)))
            + CommandWeight(w, Flatten(Arrivals(LaterEvents(batches))))
  {
    if batches != [] {
      NewWeightConcat(w, batches[0], AllEvents(batches[1..]));
      assert Arrivals(batches)[1..] == Arrivals(batches[1..]);
      CommandWeightConcat(w, CommandsOf(batches[0]), Flatten(Arrivals(batches[1..])));
    }
  }

  // ----- Runs of ticks -----

  /** One tick as its environment sees it: the clock reading, what happens in other threads before
      each drain, and the fate of each served guid. */
  datatype TickInput = TickInput(now: Time, batches: seq<seq<Event>>, outcomes: seq<Outcome>)

  /** Between two ticks: the schedule, the command queue, the work under way, and the instant of
      the last tick. */
  datatype World = World(table: Table, queue: seq<Command>, pending: seq<Pending>, clock: Time)

  function TickOf(s: World, input: TickInput): TickResult
  {
    Tick(s.table, s.queue, input.now, Arrivals(input.batches), input.outcomes)
  }

  function PlayOf(s: World, input: TickInput): Played
  {
    Play(s.table, s.queue, s.pending, s.clock, input.now, input.batches, input.outcomes)
  }

  predicate LawfulTick(s: World, input: TickInput)
  {
    input.now >= s.clock && PlayOf(s, input).lawful
  }

  function NextWorld(s: World, input: TickInput): World
  {
    World(TickOf(s, input).table, TickOf(s, input).queue, PlayOf(s, input).pending, input.now)
  }

  /** The results of consecutive ticks: each starts from what the previous one left. */
  function RunTicks(s: World, inputs: seq<TickInput>): seq<TickResult>
    decreases |inputs|
  {
    if inputs == [] then [] else [TickOf(s, inputs[0])] + RunTicks(NextWorld(s, inputs[0]), inputs[1..])
  }

  predicate Lawful(s: World, inputs: seq<TickInput>)
    decreases |inputs|
  {
    inputs == [] || (LawfulTick(s, inputs[0]) && Lawful(NextWorld(s, inputs[0]), inputs[1..]))
  }
}
