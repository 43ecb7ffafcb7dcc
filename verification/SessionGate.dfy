/** The 20 ms gate of a session over its histories: when `flushIfDue` drains the queue and when it
    leaves everything as it is. */
module SessionGate {
  import opened Bytes
  import opened FlushClock
  import opened BatchFraming
  import opened SessionCodec
  import opened SessionHistory

  /** The call does nothing: it returns false and the session is as before. */
  predicate Refuses(lib: Toolkit, st: State, op: Op)
  {
    Apply(lib, st, op) == (false, st)
  }

  /** The call takes out the queue: what the session can send, it sends now. */
  predicate TakesQueue(lib: Toolkit, st: State, op: Op)
  {
    && (HasWork(st) ==> Apply(lib, st, op).1.outbound == [])
    && (HasWork(st) && Encodable(lib, st.codec, Batch(st.outbound)) && op.FlushIfDue? && op.delivered ==>
          Apply(lib, st, op).0 && st.wire < Apply(lib, st, op).1.wire)
    && (!HasWork(st) ==> Apply(lib, st, op).1.outbound == st.outbound && Apply(lib, st, op).1.wire == st.wire)
  }

  /** No explicit flush, and no `flushIfDue` from `until` on. */
  predicate NoFlushFrom(ops: seq<Op>, until: Time)
  {
    forall i :: 0 <= i < |ops| ==> !ops[i].Flush? && (ops[i].FlushIfDue? ==> ops[i].now < until)
  }

  /** While the gate is closed only time opens it: no other operation moves it. */
  lemma {:induction false} GateStaysClosed(lib: Toolkit, st: State, ops: seq<Op>)
    requires NoFlushFrom(ops, st.nextFlushAt)
    ensures Run(lib, st, ops).nextFlushAt == st.nextFlushAt
    decreases |ops|
  {
    if ops != [] {
      assert Apply(lib, st, ops[0]).1.nextFlushAt == st.nextFlushAt;
      GateStaysClosed(lib, Apply(lib, st, ops[0]).1, ops[1..]);
    }
  }

  /** An operation that closes the gate at its instant: an explicit flush, or a `flushIfDue` that is
      not refused. */
  predicate ClosesGate(lib: Toolkit, st: State, op: Op)
  {
    op.Flush? || (op.FlushIfDue? && !Refuses(lib, st, op))
  }

  lemma RefusedExactly(lib: Toolkit, st: State, op: Op)
    requires op.FlushIfDue?
    ensures Refuses(lib, st, op) <==> op.now < st.nextFlushAt
    ensures !Refuses(lib, st, op) ==> TakesQueue(lib, st, op)
    ensures !Refuses(lib, st, op) ==> Apply(lib, st, op).1.nextFlushAt == op.now + FLUSH_INTERVAL
  {
    FailedMeansRefused(lib, st, op);
    if op.now >= st.nextFlushAt && HasWork(st) {
      DrainPutsOnWire(lib, st.(nextFlushAt := op.now + FLUSH_INTERVAL), op.delivered);
    }
  }

  /** After a flush at some instant, explicit or by a call that was not refused, and until the next such
      flush: for 20 ms every `flushIfDue` returns false and leaves queue, codec and wire as they were;
      from then on it takes out the queue. */
  lemma ClosedForTwentyMilliseconds(lib: Toolkit, st: State, op: Op, between: seq<Op>, now: Time, delivered: bool)
    requires ClosesGate(lib, st, op) && NoFlushFrom(between, op.now + FLUSH_INTERVAL)
    ensures var later, call := Run(lib, Apply(lib, st, op).1, between), Op.FlushIfDue(now, delivered);
            if now < op.now + FLUSH_INTERVAL then Refuses(lib, later, call)
            else !Refuses(lib, later, call) && TakesQueue(lib, later, call)
  {
    if op.FlushIfDue? {
      RefusedExactly(lib, st, op);
    }
    var after := Apply(lib, st, op).1;
    assert after.nextFlushAt == op.now + FLUSH_INTERVAL;
    GateStaysClosed(lib, after, between);
    RefusedExactly(lib, Run(lib, after, between), Op.FlushIfDue(now, delivered));
  }

  /** The same for a new session, from its creation on. */
  lemma ClosedAfterCreation(lib: Toolkit, peer: bool, created: Time, between: seq<Op>, now: Time, delivered: bool)
    requires NoFlushFrom(between, created + FLUSH_INTERVAL)
    ensures var later, call := Run(lib, Created(peer, created), between), Op.FlushIfDue(now, delivered);
            if now < created + FLUSH_INTERVAL then Refuses(lib, later, call)
            else !Refuses(lib, later, call) && TakesQueue(lib, later, call)
  {
    GateStaysClosed(lib, Created(peer, created), between);
    RefusedExactly(lib, Run(lib, Created(peer, created), between), Op.FlushIfDue(now, delivered));
  }

  // ----- Driven by the scheduler alone -----

  /** How many times the history calls `flushIfDue`. */
  function Calls(ops: seq<Op>): nat
  {
    if ops == [] then 0 else Calls(ops[..|ops| - 1]) + if ops[|ops| - 1].FlushIfDue? then 1 else 0
  }

  /** No explicit flush, and the calls of `flushIfDue` are made at the instants of these fires. */
  predicate CalledAt(ops: seq<Op>, fires: seq<Fire>)
  {
    && Calls(ops) <= |fires|
    && (ops == [] ||
        var last := ops[|ops| - 1];
        && CalledAt(ops[..|ops| - 1], fires) && !last.Flush?
        && (last.FlushIfDue? ==> last.now == fires[Calls(ops) - 1].now))
  }

  lemma OneMoreOp(lib: Toolkit, st: State, ops: seq<Op>, op: Op)
    ensures Run(lib, st, ops + [op]) == Apply(lib, Run(lib, st, ops), op).1
    ensures Calls(ops + [op]) == Calls(ops) + if op.FlushIfDue? then 1 else 0
  {
    RunConcat(lib, st, ops, [op]);
    assert Run(lib, Run(lib, st, ops), [op]) == Run(lib, Apply(lib, Run(lib, st, ops), op).1, [op][1..]);
    assert (ops + [op])[..|ops|] == ops;
  }

  /** The gate of a session in such a history is the gate that the clock arithmetic speaks of. */
  lemma {:induction false} GateOfHistory(lib: Toolkit, peer: bool, created: Time, ops: seq<Op>, fires: seq<Fire>)
    requires CalledAt(ops, fires)
    ensures Run(lib, Created(peer, created), ops).nextFlushAt == GateBefore(created, fires, Calls(ops))
    decreases |ops|
  {
    if ops != [] {
      var init, last := ops[..|ops| - 1], ops[|ops| - 1];
      GateOfHistory(lib, peer, created, init, fires);
      OneMoreOp(lib, Created(peer, created), init, last);
      assert ops == init + [last];
      if last.FlushIfDue? {
        RefusedExactly(lib, Run(lib, Created(peer, created), init), last);
      }
    }
  }

  /** The session refuses exactly the calls that do not pass the gate of the clock arithmetic, and takes
      out its queue at the others. */
  lemma CallPassesExactly(lib: Toolkit, peer: bool, created: Time, ops: seq<Op>, call: Op, fires: seq<Fire>)
    requires call.FlushIfDue? && CalledAt(ops + [call], fires)
    ensures var st := Run(lib, Created(peer, created), ops);
            && Calls(ops) < |fires|
            && (Refuses(lib, st, call) <==> !Passes(created, fires, Calls(ops)))
            && (!Refuses(lib, st, call) ==> TakesQueue(lib, st, call))
  {
    assert (ops + [call])[..|ops|] == ops;
    OneMoreOp(lib, Created(peer, created), ops, call);
    GateOfHistory(lib, peer, created, ops, fires);
    RefusedExactly(lib, Run(lib, Created(peer, created), ops), call);
  }

  /** Driven by the scheduler alone, a session never refuses two consecutive calls of `flushIfDue`: one
      of the two takes out its queue. */
  lemma NeverRefusesTwice(lib: Toolkit, peer: bool, created: Time, scheduledAt: Time, offset: int, fires: seq<Fire>,
                          before: seq<Op>, first: Op, between: seq<Op>, second: Op)
    requires SchedulerDriven(created, scheduledAt, offset, fires)
    requires first.FlushIfDue? && second.FlushIfDue? && Calls(before + [first] + between) == Calls(before) + 1
    requires CalledAt(before + [first], fires) && CalledAt(before + [first] + between + [second], fires)
    ensures var start := Created(peer, created);
            || TakesQueue(lib, Run(lib, start, before), first)
            || TakesQueue(lib, Run(lib, start, before + [first] + between), second)
  {
    CallPassesExactly(lib, peer, created, before, first, fires);
    CallPassesExactly(lib, peer, created, before + [first] + between, second, fires);
    NeverTwoRefusals(created, scheduledAt, offset, fires, Calls(before));
  }
}
