/** The self-rescheduling pump that the client uses for I/O and the server for flushing: a
    claimed flag, a counter of submitted jobs and a counter of delayed wakeups.  One step is one
    atomic operation.  The client tests two flags before it goes on, the server one. */
module PumpCore {
  import opened Agents

  datatype Kind = Client | Server

  /** Who runs the code that schedules the pump: `connect` or `start`, a pump job that
      reschedules itself, or a delayed wakeup. */
  datatype Caller = External | Job | Wakeup

  datatype Pc =
    // scheduling the pump
    | CheckFirst(caller: Caller)
    | CheckSecond(caller: Caller)
    | Claim(caller: Caller)
    | CountJob(caller: Caller)
    | SubmitJob(caller: Caller)
    | UncountJob(caller: Caller)
    | Release(caller: Caller)
    // the pump job
    | JobQueued
    | JobCheckFirst
    | JobCheckSecond
    | JobAbandon
    | Ticking
    | JobRelease(progressed: bool)
    | RecheckFirst(progressed: bool)
    | RecheckSecond(progressed: bool)
    | CountWakeup
    | SubmitWakeup
    | UncountWakeup
    | JobDone
    // the delayed wakeup
    | WakeupDelayed
    | WakeupDone
    | Finished

  datatype Shared = Shared(scheduled: bool, jobs: int, wakeups: int)

  /** The flags that the pump tests. */
  datatype Gates = Gates(running: bool, active: bool)

  function Return(caller: Caller): Pc
  {
    match caller
    case External => Finished
    case Job => JobDone
    case Wakeup => WakeupDone
  }

  function AfterRecheck(progressed: bool): Pc
  {
    if progressed then CheckFirst(Job) else CountWakeup
  }

  /** One atomic operation of an agent at `p`; `spawned` are the tasks that the thread pool
      has accepted by it. */
  predicate Step(kind: Kind, gates: Gates, p: Pc, s: Shared, p': Pc, s': Shared, spawned: seq<Pc>)
  {
    match p
    case CheckFirst(caller) =>
      && s' == s && spawned == []
      && p' == if !gates.running then Return(caller) else if kind.Client? then CheckSecond(caller) else Claim(caller)
    case CheckSecond(caller) =>
      && s' == s && spawned == []
      && p' == if gates.active then Claim(caller) else Return(caller)
    case Claim(caller) =>
      && spawned == [] && s' == s.(scheduled := true)
      && p' == if s.scheduled then Return(caller) else CountJob(caller)
    case CountJob(caller) =>
      spawned == [] && s' == s.(jobs := s.jobs + 1) && p' == SubmitJob(caller)
    case SubmitJob(caller) =>
      && s' == s
      && ((spawned == [JobQueued] && p' == Return(caller)) || (spawned == [] && p' == UncountJob(caller)))
    case UncountJob(caller) =>
      spawned == [] && s' == s.(jobs := s.jobs - 1) && p' == Release(caller)
    case Release(caller) =>
      spawned == [] && s' == s.(scheduled := false) && p' == Return(caller)
    case JobQueued =>
      spawned == [] && s' == s && p' == JobCheckFirst
    case JobCheckFirst =>
      && s' == s && spawned == []
      && p' == if !gates.running then JobAbandon else if kind.Client? then JobCheckSecond else Ticking
    case JobCheckSecond =>
      s' == s && spawned == [] && p' == if gates.active then Ticking else JobAbandon
    case JobAbandon =>
      spawned == [] && s' == s.(scheduled := false) && p' == JobDone
    case Ticking =>
      s' == s && spawned == [] && p'.JobRelease?
    case JobRelease(progressed) =>
      spawned == [] && s' == s.(scheduled := false) && p' == RecheckFirst(progressed)
    case RecheckFirst(progressed) =>
      && s' == s && spawned == []
      && p' == if !gates.running then JobDone
               else if kind.Client? then RecheckSecond(progressed) else AfterRecheck(progressed)
    case RecheckSecond(progressed) =>
      s' == s && spawned == [] && p' == if gates.active then AfterRecheck(progressed) else JobDone
    case CountWakeup =>
      spawned == [] && s' == s.(wakeups := s.wakeups + 1) && p' == SubmitWakeup
    case SubmitWakeup =>
      && s' == s
      && ((spawned == [WakeupDelayed] && p' == JobDone) || (spawned == [] && p' == UncountWakeup))
    case UncountWakeup =>
      spawned == [] && s' == s.(wakeups := s.wakeups - 1) && p' == JobDone
    case JobDone =>
      spawned == [] && s' == s.(jobs := s.jobs - 1) && p' == Finished
    case WakeupDelayed =>
      spawned == [] && s' == s && p' == CheckFirst(Wakeup)
    case WakeupDone =>
      spawned == [] && s' == s.(wakeups := s.wakeups - 1) && p' == Finished
    case Finished => false
  }

  /** The pool refused the submission that this step made. */
  predicate Refuses(p: Pc, p': Pc)
  {
    (p.SubmitJob? && p'.UncountJob?) || (p.SubmitWakeup? && p'.UncountWakeup?)
  }

  // ----- Who owns the flag and what the counters count -----

  /** From the successful compare-and-swap to the store of false. */
  function OwnerWeight(p: Pc): nat
  {
    match p
    case CountJob(_) => 1
    case SubmitJob(_) => 1
    case UncountJob(_) => 1
    case Release(_) => 1
    case JobQueued => 1
    case JobCheckFirst => 1
    case JobCheckSecond => 1
    case JobAbandon => 1
    case Ticking => 1
    case JobRelease(_) => 1
    case _ => 0
  }

  /** In the code that schedules the pump, on behalf of `caller`. */
  predicate Scheduling(p: Pc, caller: Caller)
  {
    match p
    case CheckFirst(c) => c == caller
    case CheckSecond(c) => c == caller
    case Claim(c) => c == caller
    case CountJob(c) => c == caller
    case SubmitJob(c) => c == caller
    case UncountJob(c) => c == caller
    case Release(c) => c == caller
    case _ => false
  }

  /** Past the tests, in the code that schedules the pump. */
  predicate PastChecks(p: Pc, caller: Caller)
  {
    Scheduling(p, caller) && !p.CheckFirst? && !p.CheckSecond?
  }

  predicate InJob(p: Pc)
  {
    Scheduling(p, Job) ||
    match p
    case JobQueued => true
    case JobCheckFirst => true
    case JobCheckSecond => true
    case JobAbandon => true
    case Ticking => true
    case JobRelease(_) => true
    case RecheckFirst(_) => true
    case RecheckSecond(_) => true
    case CountWakeup => true
    case SubmitWakeup => true
    case UncountWakeup => true
    case JobDone => true
    case _ => false
  }

  predicate InWakeup(p: Pc)
  {
    Scheduling(p, Wakeup) || p.WakeupDelayed? || p.WakeupDone?
  }

  /** A job is counted from before its submission until it has returned. */
  function JobWeight(p: Pc): nat
  {
    (if InJob(p) then 1 else 0) + (if p.SubmitJob? || p.UncountJob? then 1 else 0)
  }

  function WakeupWeight(p: Pc): nat
  {
    (if InWakeup(p) then 1 else 0) + (if p.SubmitWakeup? || p.UncountWakeup? then 1 else 0)
  }

  function Flag(b: bool): nat
  {
    if b then 1 else 0
  }

  lemma TotalOfAtMostOne<P>(weight: P -> nat, spawned: seq<P>)
    requires |spawned| <= 1
    ensures Total(weight, spawned) == if spawned == [] then 0 else weight(spawned[0])
  {
    if spawned != [] {
      assert spawned[1..] == [];
    }
  }

  lemma SpawnedTask(kind: Kind, gates: Gates, p: Pc, s: Shared, p': Pc, s': Shared, spawned: seq<Pc>)
    requires Step(kind, gates, p, s, p', s', spawned)
    ensures spawned == [] || (spawned == [JobQueued] && p.SubmitJob?) || (spawned == [WakeupDelayed] && p.SubmitWakeup?)
  {
  }

  lemma FlagBooks(kind: Kind, gates: Gates, p: Pc, s: Shared, p': Pc, s': Shared, spawned: seq<Pc>)
    requires Step(kind, gates, p, s, p', s', spawned) && |spawned| <= 1
    requires OwnerWeight(p) == 1 ==> s.scheduled
    ensures OwnerWeight(p') + (if spawned == [] then 0 else OwnerWeight(spawned[0])) - OwnerWeight(p)
         == Flag(s'.scheduled) - Flag(s.scheduled)
  {
  }

  lemma JobBooks(kind: Kind, gates: Gates, p: Pc, s: Shared, p': Pc, s': Shared, spawned: seq<Pc>)
    requires Step(kind, gates, p, s, p', s', spawned) && |spawned| <= 1
    ensures JobWeight(p') + (if spawned == [] then 0 else JobWeight(spawned[0])) - JobWeight(p) == s'.jobs - s.jobs
  {
  }

  lemma WakeupBooks(kind: Kind, gates: Gates, p: Pc, s: Shared, p': Pc, s': Shared, spawned: seq<Pc>)
    requires Step(kind, gates, p, s, p', s', spawned) && |spawned| <= 1
    ensures WakeupWeight(p') + (if spawned == [] then 0 else WakeupWeight(spawned[0])) - WakeupWeight(p)
         == s'.wakeups - s.wakeups
  {
  }

  /** Every atomic operation keeps the books: the change of the flag is the change of the
      number of owners, and the change of each counter that of what it counts. */
  lemma StepKeepsBooks(kind: Kind, gates: Gates, p: Pc, s: Shared, p': Pc, s': Shared, spawned: seq<Pc>)
    requires Step(kind, gates, p, s, p', s', spawned)
    requires OwnerWeight(p) == 1 ==> s.scheduled
    ensures OwnerWeight(p') + Total(OwnerWeight, spawned) - OwnerWeight(p) == Flag(s'.scheduled) - Flag(s.scheduled)
    ensures JobWeight(p') + Total(JobWeight, spawned) - JobWeight(p) == s'.jobs - s.jobs
    ensures WakeupWeight(p') + Total(WakeupWeight, spawned) - WakeupWeight(p) == s'.wakeups - s.wakeups
  {
    SpawnedTask(kind, gates, p, s, p', s', spawned);
    FlagBooks(kind, gates, p, s, p', s', spawned);
    JobBooks(kind, gates, p, s, p', s', spawned);
    WakeupBooks(kind, gates, p, s, p', s', spawned);
    TotalOfAtMostOne(OwnerWeight, spawned);
    TotalOfAtMostOne(JobWeight, spawned);
    TotalOfAtMostOne(WakeupWeight, spawned);
  }

  // ----- Who keeps the pump going -----

  /** Owners of the flag that will give it up without a pump to follow. */
  predicate Abandons(p: Pc)
  {
    p.JobAbandon? || p.UncountJob? || p.Release?
  }

  /** Agents whose remaining operations keep the pump going while both flags stay up.  A call from
      outside counts only once it has claimed the pump. */
  function Carrying(p: Pc): nat
  {
    match p
    case CheckFirst(caller) => if caller.External? then 0 else 1
    case CheckSecond(caller) => if caller.External? then 0 else 1
    case Claim(caller) => if caller.External? then 0 else 1
    case CountJob(_) => 1
    case SubmitJob(_) => 1
    case JobQueued => 1
    case JobCheckFirst => 1
    case JobCheckSecond => 1
    case Ticking => 1
    case JobRelease(_) => 1
    case RecheckFirst(_) => 1
    case RecheckSecond(_) => 1
    case CountWakeup => 1
    case SubmitWakeup => 1
    case WakeupDelayed => 1
    case _ => 0
  }

  /** The tests and the attempt to claim the pump, in a call from outside. */
  predicate Attempts(p: Pc)
  {
    p == CheckFirst(External) || p == CheckSecond(External) || p == Claim(External)
  }

  /** While both flags are up and submissions are accepted, an agent that carries the pump keeps
      carrying it or hands it on, unless it finds the flag already up. */
  lemma StepKeepsCarrying(kind: Kind, p: Pc, s: Shared, p': Pc, s': Shared, spawned: seq<Pc>)
    requires Step(kind, Gates(true, true), p, s, p', s', spawned) && !Refuses(p, p') && !Abandons(p)
    ensures !Abandons(p')
    ensures Carrying(p') + (if spawned == [] then 0 else Carrying(spawned[0]))
         >= Carrying(p) || (p.Claim? && s.scheduled)
    ensures p.Claim? && s.scheduled ==> s'.scheduled
    ensures Attempts(p) ==> Attempts(p') || (p == Claim(External) && (s.scheduled || p' == CountJob(External)))
  {
  }

  /** Without an abandoning owner the flag is up only for an agent that carries the pump. */
  lemma OwnerCarries(p: Pc)
    requires !Abandons(p)
    ensures OwnerWeight(p) <= Carrying(p) <= 1
    ensures Carrying(p) <= JobWeight(p) + WakeupWeight(p) || p.CountJob?
  {
  }

  /** A tick, and the attempt to claim the pump, come only after every flag was read up - for the
      client the running flag and then the active one. */
  lemma TestsGuardTheTick(kind: Kind, gates: Gates, p: Pc, s: Shared, p': Pc, s': Shared, spawned: seq<Pc>)
    requires Step(kind, gates, p, s, p', s', spawned)
    ensures p' == Ticking ==>
      if kind.Server? then (p == JobCheckFirst && gates.running) || (p == JobCheckSecond && gates.active)
      else p == JobCheckSecond && gates.active
    ensures p' == JobCheckSecond ==> p == JobCheckFirst && gates.running
    ensures p'.Claim? ==>
      if kind.Server? then (p == CheckFirst(p'.caller) && gates.running)
           || (p == CheckSecond(p'.caller) && gates.active)
      else p == CheckSecond(p'.caller) && gates.active
    ensures p'.CheckSecond? ==> p == CheckFirst(p'.caller) && gates.running
  {
  }

  /** The pump goes on at once after a tick with progress, and waits for a delayed wakeup only after
      a tick without. */
  lemma WakeupsFollowIdleTicks(kind: Kind, gates: Gates, p: Pc, s: Shared, p': Pc, s': Shared, spawned: seq<Pc>)
    requires Step(kind, gates, p, s, p', s', spawned)
    ensures p' == CountWakeup ==> p == RecheckFirst(false) || p == RecheckSecond(false)
    ensures (p == RecheckFirst(true) || p == RecheckSecond(true)) && gates == Gates(true, true) ==>
      p' == CheckFirst(Job) || (kind.Client? && p == RecheckFirst(true) && p' == RecheckSecond(true))
    ensures p.JobRelease? ==> p' == RecheckFirst(p.progressed)
  {
  }
}
