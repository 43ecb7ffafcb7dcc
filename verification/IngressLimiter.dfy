/** The raw-ingress limiter of a server session: a packet size limit and a fixed window of one
    second, kept per session.  Times are nanosecond readings of the steady clock; 0 stands for
    the default time point, which marks a window that has not been opened. */
module IngressLimiter {

  type Time = int

  const RAW_INGRESS_WINDOW: int := 1_000_000_000

  datatype Limits = Limits(maxPacketBytes: nat, maxPacketsPerSecond: nat)

  datatype Packet = Packet(bytes: nat, now: Time)

  datatype Window = Window(start: Time, packets: nat)

  datatype Verdict = TooLarge | TooMany | Admitted

  const UNOPENED := Window(0, 0)

  function Opened(w: Window, now: Time): Window
  {
    if w.start == 0 || now - w.start >= RAW_INGRESS_WINDOW then Window(now, 0) else w
  }

  /** What the limiter does with one packet. */
  function Step(w: Window, p: Packet, limits: Limits): (Window, Verdict)
  {
    if p.bytes > limits.maxPacketBytes then (w, TooLarge)
    else
      var o := Opened(w, p.now);
      if o.packets >= limits.maxPacketsPerSecond then (o, TooMany)
      else (o.(packets := o.packets + 1), Admitted)
  }

  class SessionIngress {
    var windowStart: Time
    var windowPackets: nat
    const limits: Limits

    function Value(): Window
      reads this
    {
      Window(windowStart, windowPackets)
    }

    constructor (limits: Limits)
      ensures Value() == UNOPENED && this.limits == limits
    {
      windowStart, windowPackets := 0, 0;
      this.limits := limits;
    }

    method Admit(p: Packet) returns (verdict: Verdict)
      modifies this
      ensures (Value(), verdict) == Step(old(Value()), p, limits)
      ensures verdict == TooLarge <==> p.bytes > limits.maxPacketBytes
      ensures verdict == TooLarge ==> Value() == old(Value())
      ensures verdict != TooLarge ==>
        windowStart == if old(windowStart) == 0 || p.now - old(windowStart) >= RAW_INGRESS_WINDOW then p.now
                       else old(windowStart)
      ensures var reopened := old(windowStart) == 0 || p.now - old(windowStart) >= RAW_INGRESS_WINDOW;
              var before := if reopened then 0 else old(windowPackets);
              verdict == TooMany <==> p.bytes <= limits.maxPacketBytes && before >= limits.maxPacketsPerSecond
      ensures verdict == Admitted ==>
        && 1 <= windowPackets <= limits.maxPacketsPerSecond
        && (windowPackets == 1 || (windowPackets == old(windowPackets) + 1 && windowStart == old(windowStart)))
    {
      if p.bytes > limits.maxPacketBytes {
        return TooLarge;
      }
      if windowStart == 0 || p.now - windowStart >= RAW_INGRESS_WINDOW {
        windowStart := p.now;
        windowPackets := 0;
      }
      if windowPackets >= limits.maxPacketsPerSecond {
        return TooMany;
      }
      windowPackets := windowPackets + 1;
      return Admitted;
    }
  }

  // ----- Runs -----

  predicate InSecondFrom(p: Packet, t: Time)
  {
    t <= p.now < t + RAW_INGRESS_WINDOW
  }

  /** How many packets of the run are admitted in the half-open second that starts at t. */
  function AdmittedIn(w: Window, run: seq<Packet>, limits: Limits, t: Time): nat
    decreases |run|
  {
    if run == [] then 0
    else
      var (w', verdict) := Step(w, run[0], limits);
      (if verdict.Admitted? && InSecondFrom(run[0], t) then 1 else 0) + AdmittedIn(w', run[1..], limits, t)
  }

  /** Positive clock readings that never go back. */
  predicate ClockedFrom(run: seq<Packet>, start: Time)
  {
    && (forall i :: 0 <= i < |run| ==> run[i].now >= start && run[i].now > 0)
    && (forall i, j :: 0 <= i < j < |run| ==> run[i].now <= run[j].now)
  }

  /** What the window still lets through in the second from t. */
  function Allowance(w: Window, limits: Limits, t: Time): int
  {
    var max := limits.maxPacketsPerSecond;
    if w.start >= t + RAW_INGRESS_WINDOW then 0
    else if w.start == 0 || w.start + RAW_INGRESS_WINDOW < t then 2 * max - 1
    else if w.start >= t then max - w.packets
    else 2 * max - w.packets
  }

  predicate WellKept(w: Window, limits: Limits)
  {
    && 0 <= w.start && w.packets <= limits.maxPacketsPerSecond
    && (w.start == 0 <==> w.packets == 0)
  }

  lemma {:induction false} NeverOverAllowance(w: Window, run: seq<Packet>, limits: Limits, t: Time)
    requires limits.maxPacketsPerSecond >= 1
    requires WellKept(w, limits) && ClockedFrom(run, w.start)
    ensures AdmittedIn(w, run, limits, t) <= Allowance(w, limits, t)
    decreases |run|
  {
    if run != [] {
      var (w', verdict) := Step(w, run[0], limits);
      NeverOverAllowance(w', run[1..], limits, t);
    }
  }

  /** Over every run, any half-open second contains at most 2 * max - 1 packets that got past
      the limiter. */
  lemma SlidingWindowBound(run: seq<Packet>, limits: Limits, t: Time)
    requires limits.maxPacketsPerSecond >= 1
    requires ClockedFrom(run, 0)
    ensures AdmittedIn(UNOPENED, run, limits, t) <= 2 * limits.maxPacketsPerSecond - 1
  {
    NeverOverAllowance(UNOPENED, run, limits, t);
  }

  // ----- The bound is attained -----

  function Burst(now: Time, count: nat): seq<Packet>
  {
    seq(count, _ => Packet(0, now))
  }

  /** A burst inside an open window is admitted up to the limit. */
  lemma {:induction false} BurstInWindow(w: Window, now: Time, count: nat, rest: seq<Packet>, limits: Limits, t: Time)
    requires 0 < w.start && 0 <= now - w.start < RAW_INGRESS_WINDOW
    requires w.packets + count <= limits.maxPacketsPerSecond
    ensures AdmittedIn(w, Burst(now, count) + rest, limits, t)
         == (if InSecondFrom(Packet(0, now), t) then count else 0)
            + AdmittedIn(w.(packets := w.packets + count), rest, limits, t)
    decreases count
  {
    if count == 0 {
      assert Burst(now, count) + rest == rest;
    } else {
      var run := Burst(now, count) + rest;
      assert run[0] == Packet(0, now);
      assert run[1..] == Burst(now, count - 1) + rest;
      BurstInWindow(w.(packets := w.packets + 1), now, count - 1, rest, limits, t);
    }
  }

  /** For every limit some run lets 2 * max - 1 packets through within one second. */
  lemma SlidingWindowBoundIsAttained(limits: Limits) returns (run: seq<Packet>, t: Time)
    requires limits.maxPacketsPerSecond >= 1
    ensures ClockedFrom(run, 0)
    ensures AdmittedIn(UNOPENED, run, limits, t) == 2 * limits.maxPacketsPerSecond - 1
  {
    var max, later := limits.maxPacketsPerSecond, RAW_INGRESS_WINDOW + 1;
    t := RAW_INGRESS_WINDOW;
    var tail := [Packet(0, later)] + Burst(later, max - 1);
    run := [Packet(0, 1)] + (Burst(t, max - 1) + tail);
    assert run[1..] == Burst(t, max - 1) + tail;
    BurstInWindow(Window(1, 1), t, max - 1, tail, limits, t);
    NextWindowFull(Window(1, max), limits, later, t);
  }

  /** A burst up to the limit that begins with the first packet of a new window. */
  lemma NextWindowFull(w: Window, limits: Limits, later: Time, t: Time)
    requires limits.maxPacketsPerSecond >= 1 && w.start > 0 && later == w.start + RAW_INGRESS_WINDOW
    requires InSecondFrom(Packet(0, later), t)
    ensures AdmittedIn(w, [Packet(0, later)] + Burst(later, limits.maxPacketsPerSecond - 1), limits, t)
         == limits.maxPacketsPerSecond
  {
    var max := limits.maxPacketsPerSecond;
    var tail := [Packet(0, later)] + Burst(later, max - 1);
    assert tail[1..] == Burst(later, max - 1) + [];
    BurstInWindow(Window(later, 1), later, max - 1, [], limits, t);
    assert AdmittedIn(w, tail, limits, t) == 1 + AdmittedIn(Window(later, 1), tail[1..], limits, t);
  }
}
