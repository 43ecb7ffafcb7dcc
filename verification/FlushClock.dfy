/** The 20 ms grid on which a session's flushes are scheduled, and the independent 20 ms
    gate that the session itself keeps.  Times are nanosecond readings of the steady clock. */
module FlushClock {

  type Time = int

  const FLUSH_INTERVAL: int := 20_000_000

  /** Where a session goes next after it was served at `now` for the deadline `previousDue`. */
  function NextScheduledFlushDue(previousDue: Time, now: Time): (due: Time)
  {
    var nextDue := previousDue + FLUSH_INTERVAL;
    if nextDue > now then nextDue
    else
      var lag := now - nextDue;
      var skipped := lag / FLUSH_INTERVAL + 1;
      nextDue + FLUSH_INTERVAL * skipped
  }

  /** The k-th point after `previousDue` of the grid that runs through it. */
  function GridPoint(previousDue: Time, k: int): Time
  {
    previousDue + k * FLUSH_INTERVAL
  }

  /** The next deadline is the least later grid point that lies strictly after `now`. */
  lemma NextDueIsLeastGridPoint(previousDue: Time, now: Time)
    ensures NextScheduledFlushDue(previousDue, now) > now
    ensures exists k :: k >= 1 && NextScheduledFlushDue(previousDue, now) == GridPoint(previousDue, k)
    ensures forall k :: k >= 1 && GridPoint(previousDue, k) > now ==>
              NextScheduledFlushDue(previousDue, now) <= GridPoint(previousDue, k)
  {
    var skipped := (now - previousDue - FLUSH_INTERVAL) / FLUSH_INTERVAL + 1;
    if previousDue + FLUSH_INTERVAL > now {
      assert NextScheduledFlushDue(previousDue, now) == GridPoint(previousDue, 1);
    } else {
      assert NextScheduledFlushDue(previousDue, now) == GridPoint(previousDue, 1 + skipped);
    }
  }

  // ----- The gate inside the session -----

  /** A scheduler-driven fire of `flushIfDue`: the deadline it was popped for and the clock reading
      of the tick that popped it.  A tick whose strand refuses the task is no fire. */
  datatype Fire = Fire(due: Time, now: Time)

  /** The session's own test and what a passing fire leaves as the next gate. */
  predicate GatePasses(gate: Time, now: Time) { now >= gate }

  function GateAfter(gate: Time, now: Time): Time
  {
    if GatePasses(gate, now) then now + FLUSH_INTERVAL else gate
  }

  /** The gate seen by fire number k of a session created at time `created`. */
  function GateBefore(created: Time, fires: seq<Fire>, k: nat): Time
    requires k <= |fires|
  {
    if k == 0 then created + FLUSH_INTERVAL
    else GateAfter(GateBefore(created, fires, k - 1), fires[k - 1].now)
  }

  predicate Passes(created: Time, fires: seq<Fire>, k: nat)
    requires k < |fires|
  {
    GatePasses(GateBefore(created, fires, k), fires[k].now)
  }

  /** `due` is a point of the grid through `first`, at or after it. */
  ghost predicate OnGridFrom(first: Time, due: Time)
  {
    exists m: nat :: due == GridPoint(first, m)
  }

  /** A run of one session driven by the scheduler alone: it is scheduled at some instant not
      before its creation, plus a phase offset below the interval; no fire is early; and the session
      goes from its own deadline and tick time to the next deadline.  Ticks whose strand refuses the
      task move the deadline further along the grid without a fire. */
  ghost predicate SchedulerDriven(created: Time, scheduledAt: Time, offset: int, fires: seq<Fire>)
  {
    && created <= scheduledAt
    && 0 <= offset < FLUSH_INTERVAL
    && (|fires| > 0 ==> OnGridFrom(scheduledAt + offset, fires[0].due))
    && (forall k :: 0 <= k < |fires| ==> fires[k].due <= fires[k].now)
    && (forall k {:trigger fires[k]} :: 0 < k < |fires| ==>
          OnGridFrom(NextScheduledFlushDue(fires[k - 1].due, fires[k - 1].now), fires[k].due))
  }

  /** The next fire's deadline is within one interval of this fire: no tick between them was refused. */
  predicate Unrefused(fires: seq<Fire>, k: nat)
    requires k + 1 < |fires|
  {
    fires[k + 1].due <= fires[k].now + FLUSH_INTERVAL
  }

  /** A refused tick leaves the session on the grid of its earlier deadlines, further along. */
  lemma RefusedStaysOnGrid(first: Time, due: Time, now: Time)
    requires OnGridFrom(first, due)
    ensures OnGridFrom(first, NextScheduledFlushDue(due, now))
  {
    NextDueIsLeastGridPoint(due, now);
    var k :| k >= 1 && NextScheduledFlushDue(due, now) == GridPoint(due, k);
    var m: nat :| due == GridPoint(first, m);
    assert NextScheduledFlushDue(due, now) == GridPoint(first, m + k);
  }

  /** Before every fire the gate is within reach: it is at most one interval past the
      current deadline, and not past it at all when the previous fire was refused. */
  lemma {:induction false} GateStaysClose(created: Time, scheduledAt: Time, offset: int, fires: seq<Fire>, k: nat)
    requires SchedulerDriven(created, scheduledAt, offset, fires)
    requires k < |fires|
    ensures GateBefore(created, fires, k) <= fires[k].due + FLUSH_INTERVAL
    ensures k > 0 && !Passes(created, fires, k - 1) ==> GateBefore(created, fires, k) <= fires[k].due
  {
    if k > 0 {
      GateStaysClose(created, scheduledAt, offset, fires, k - 1);
      NextDueIsLeastGridPoint(fires[k - 1].due, fires[k - 1].now);
      assert fires[k].due >= fires[k - 1].due + FLUSH_INTERVAL;
    }
  }

  /** The gate never refuses two fires in a row, from the session's creation onward. */
  lemma NeverTwoRefusals(created: Time, scheduledAt: Time, offset: int, fires: seq<Fire>, k: nat)
    requires SchedulerDriven(created, scheduledAt, offset, fires)
    requires k + 1 < |fires|
    ensures Passes(created, fires, k) || Passes(created, fires, k + 1)
  {
    GateStaysClose(created, scheduledAt, offset, fires, k + 1);
  }

  /** The next deadline lies after a fire, and at most one interval after it exactly when it is the
      one that the fire itself schedules. */
  lemma DueAfterFire(created: Time, scheduledAt: Time, offset: int, fires: seq<Fire>, k: nat)
    requires SchedulerDriven(created, scheduledAt, offset, fires)
    requires k + 1 < |fires|
    ensures fires[k].now < fires[k + 1].due
    ensures Unrefused(fires, k) <==> fires[k + 1].due == NextScheduledFlushDue(fires[k].due, fires[k].now)
  {
    var prev, now := fires[k].due, fires[k].now;
    NextDueIsLeastGridPoint(prev, now);
    var m :| m >= 1 && NextScheduledFlushDue(prev, now) == GridPoint(prev, m);
    assert m > 1 ==> GridPoint(prev, m - 1) <= now;
  }

  /** A fire that the gate refuses after a passing one comes within an interval of it. */
  lemma RefusedComesSoon(created: Time, fires: seq<Fire>, k: nat)
    requires k + 1 < |fires| && Passes(created, fires, k) && !Passes(created, fires, k + 1)
    ensures fires[k + 1].now < fires[k].now + FLUSH_INTERVAL
  {
    assert GateBefore(created, fires, k + 1) == fires[k].now + FLUSH_INTERVAL;
  }

  /** If every fire comes at most `late` after its deadline and no tick is refused, the next passing
      fire after a passing one comes less than two intervals plus `late` later. */
  lemma PassingFiresAreClose(created: Time, scheduledAt: Time, offset: int, fires: seq<Fire>, k: nat, late: int)
      returns (next: nat)
    requires SchedulerDriven(created, scheduledAt, offset, fires)
    requires forall i :: 0 <= i < |fires| ==> fires[i].now <= fires[i].due + late
    requires k + 2 < |fires| && Passes(created, fires, k) && Unrefused(fires, k) && Unrefused(fires, k + 1)
    ensures k < next <= k + 2 && Passes(created, fires, next)
    ensures forall i :: k < i < next ==> !Passes(created, fires, i)
    ensures fires[next].now < fires[k].now + 2 * FLUSH_INTERVAL + late
  {
    NeverTwoRefusals(created, scheduledAt, offset, fires, k + 1);
    assert fires[k + 1].now <= fires[k + 1].due + late && fires[k + 2].now <= fires[k + 2].due + late;
    if Passes(created, fires, k + 1) {
      next := k + 1;
    } else {
      RefusedComesSoon(created, fires, k);
      next := k + 2;
    }
  }
}
