/** `disconnect` against any number of threads that send, flush, enqueue, receive, disconnect and
    detach the peer.  One move is one atomic operation or one critical step of one thread; the
    connected flag is atomic and not guarded by the queues' locks. */
module SessionTeardown {
  import opened Bytes
  import opened Agents

  datatype Pc =
    | SendEnter(packet: Buffer) | SendLocked(packet: Buffer) | SendPush(packet: Buffer)
    | FlushEnter | FlushLocked | FlushSwap
    | EnqueueEnter(packet: Buffer) | EnqueueLocked(packet: Buffer) | EnqueuePush(packet: Buffer)
    | ReceiveEnter | ReceiveLocked
    | UnlockOut | UnlockIn
    | DisconnectCall
    | Locking(was: bool, hasIn: bool, hasOut: bool)   // taking both locks, in either order, with back-off
    | DrainOut(was: bool) | DrainIn(was: bool) | UnlockBoth(was: bool)
    | Close(was: bool)
    | Disconnected
    | DetachCall
    | Finished

  datatype Shared = Shared(connected: bool, peer: bool, inbound: seq<Buffer>, outbound: seq<Buffer>,
                           inHeld: bool, outHeld: bool, closes: nat)

  datatype State = State(shared: Shared, agents: seq<Pc>)

  predicate Entry(p: Pc)
  {
    p.SendEnter? || p.FlushEnter? || p.EnqueueEnter? || p.ReceiveEnter? || p.DisconnectCall? || p.DetachCall?
  }

  predicate Step(p: Pc, s: Shared, p': Pc, s': Shared)
  {
    match p
    case SendEnter(packet) => !s.outHeld && s' == s.(outHeld := true) && p' == SendLocked(packet)
    case SendLocked(packet) => s' == s && p' == if s.connected then SendPush(packet) else UnlockOut
    case SendPush(packet) => s' == s.(outbound := s.outbound + [packet]) && p' == UnlockOut
    case FlushEnter => !s.outHeld && s' == s.(outHeld := true) && p' == FlushLocked
    case FlushLocked => s' == s && p' == if s.connected && s.peer && s.outbound != [] then FlushSwap else UnlockOut
    case FlushSwap => s' == s.(outbound := []) && p' == UnlockOut
    case EnqueueEnter(packet) => !s.inHeld && s' == s.(inHeld := true) && p' == EnqueueLocked(packet)
    case EnqueueLocked(packet) => s' == s && p' == if s.connected then EnqueuePush(packet) else UnlockIn
    case EnqueuePush(packet) => s' == s.(inbound := s.inbound + [packet]) && p' == UnlockIn
    case ReceiveEnter => !s.inHeld && s' == s.(inHeld := true) && p' == ReceiveLocked
    case ReceiveLocked => s' == s.(inbound := if s.inbound == [] then [] else s.inbound[1..]) && p' == UnlockIn
    case UnlockOut => s' == s.(outHeld := false) && p' == Finished
    case UnlockIn => s' == s.(inHeld := false) && p' == Finished
    case DisconnectCall => s' == s.(connected := false) && p' == Locking(s.connected, false, false)
    case Locking(was, hasIn, hasOut) =>
      if hasIn && hasOut then s' == s && p' == DrainOut(was)
      else if hasIn then
        || (!s.outHeld && s' == s.(outHeld := true) && p' == Locking(was, true, true))
        || (s' == s.(inHeld := false) && p' == Locking(was, false, false))
      else if hasOut then
        || (!s.inHeld && s' == s.(inHeld := true) && p' == Locking(was, true, true))
        || (s' == s.(outHeld := false) && p' == Locking(was, false, false))
      else
        || (!s.inHeld && s' == s.(inHeld := true) && p' == Locking(was, true, false))
        || (!s.outHeld && s' == s.(outHeld := true) && p' == Locking(was, false, true))
    case DrainOut(was) =>
      if s.outbound == [] then s' == s && p' == DrainIn(was) else s' == s.(outbound := s.outbound[1..]) && p' == p
    case DrainIn(was) =>
      if s.inbound == [] then s' == s && p' == UnlockBoth(was) else s' == s.(inbound := s.inbound[1..]) && p' == p
    case UnlockBoth(was) => s' == s.(inHeld := false, outHeld := false) && p' == Close(was)
    case Close(was) => s' == (if was && s.peer then s.(closes := s.closes + 1) else s) && p' == Disconnected
    case DetachCall => s' == s.(peer := false) && p' == Finished
    case _ => false
  }

  datatype Move = Enter(call: Pc) | Advance(i: nat, pc: Pc)

  predicate Next(s: State, m: Move, s': State)
  {
    match m
    case Enter(call) => Entry(call) && s' == s.(agents := s.agents + [call])
    case Advance(i, pc) =>
      i < |s.agents| && s'.agents == s.agents[i := pc] && Step(s.agents[i], s.shared, pc, s'.shared)
  }

  /** A session is connected when it is created with a peer. */
  function Initial(peer: bool): State
  {
    State(Shared(peer, peer, [], [], false, false, 0), [])
  }

  predicate Run(peer: bool, states: seq<State>, moves: seq<Move>)
  {
    && |states| == |moves| + 1
    && states[0] == Initial(peer)
    && forall k :: 0 <= k < |moves| ==> Next(states[k], moves[k], states[k + 1])
  }

  // ----- The invariant -----

  function HoldsOut(p: Pc): nat
  {
    match p
    case SendLocked(_) | SendPush(_) | FlushLocked | FlushSwap | UnlockOut => 1
    case DrainOut(_) | DrainIn(_) | UnlockBoth(_) => 1
    case Locking(_, _, hasOut) => if hasOut then 1 else 0
    case _ => 0
  }

  function HoldsIn(p: Pc): nat
  {
    match p
    case EnqueueLocked(_) | EnqueuePush(_) | ReceiveLocked | UnlockIn | DrainOut(_) | DrainIn(_) | UnlockBoth(_) => 1
    case Locking(_, hasIn, _) => if hasIn then 1 else 0
    case _ => 0
  }

  /** A disconnect that saw the flag up and has not asked for the close yet. */
  function WillClose(p: Pc): nat
  {
    match p
    case Locking(was, _, _) => if was then 1 else 0
    case DrainOut(was) => if was then 1 else 0
    case DrainIn(was) => if was then 1 else 0
    case UnlockBoth(was) => if was then 1 else 0
    case Close(was) => if was then 1 else 0
    case _ => 0
  }

  function Flag(b: bool): nat { if b then 1 else 0 }

  predicate Pushing(p: Pc) { p.SendPush? || p.EnqueuePush? }

  predicate Drained(p: Pc) { p.Close? || p.Disconnected? }

  /** What the shared state looks like to a thread at `p`. */
  predicate Local(s: Shared, p: Pc)
  {
    && (p.Locking? || p.DrainOut? || p.DrainIn? || p.UnlockBoth? || Drained(p) ==> !s.connected)
    && (p.DrainIn? || p.UnlockBoth? || Drained(p) ==> s.outbound == [])
    && (p.UnlockBoth? || Drained(p) ==> s.inbound == [])
  }

  /** Close requests made, about to be made, or still to come from the first disconnect. */
  function Closing(s: State): nat
  {
    s.shared.closes + Total(WillClose, s.agents) + Flag(s.shared.connected)
  }

  ghost predicate Invariant(s: State)
  {
    && Total(HoldsOut, s.agents) == Flag(s.shared.outHeld)
    && Total(HoldsIn, s.agents) == Flag(s.shared.inHeld)
    && Closing(s) <= 1 && (s.shared.peer ==> Closing(s) == 1)
    && (forall i :: 0 <= i < |s.agents| ==> Local(s.shared, s.agents[i]))
    && (forall i, j :: 0 <= i < |s.agents| && 0 <= j < |s.agents| && Drained(s.agents[i]) ==> !Pushing(s.agents[j]))
  }

  lemma OnlyOne(weight: Pc -> nat, agents: seq<Pc>, i: nat, j: nat)
    requires i < |agents| && j < |agents| && i != j && Total(weight, agents) <= 1
    ensures weight(agents[i]) + weight(agents[j]) <= 1
  {
    if i < j {
      TotalCoversTwo(weight, agents, i, j);
    } else {
      TotalCoversTwo(weight, agents, j, i);
    }
  }

  /** The flag never comes back up, and only the two pushes put anything into a queue. */
  predicate Settles(p: Pc, s: Shared, s': Shared)
  {
    && (!s.connected ==> !s'.connected)
    && (s.outbound == [] && !p.SendPush? ==> s'.outbound == [])
    && (s.inbound == [] && !p.EnqueuePush? ==> s'.inbound == [])
  }

  lemma StepSettles(p: Pc, s: Shared, p': Pc, s': Shared)
    requires Step(p, s, p', s')
    ensures Settles(p, s, s')
  {
  }

  /** What a step does to another thread that does not hold the same lock. */
  lemma StepSparesOther(p: Pc, s: Shared, s': Shared, q: Pc)
    requires Settles(p, s, s') && Local(s, q)
    requires HoldsOut(p) + HoldsOut(q) <= 1 && HoldsIn(p) + HoldsIn(q) <= 1
    requires Drained(q) ==> !Pushing(p)
    ensures Local(s', q)
  {
  }

  lemma StepKeepsOwn(p: Pc, s: Shared, p': Pc, s': Shared)
    requires Step(p, s, p', s') && Local(s, p)
    ensures Local(s', p')
  {
  }

  /** A disconnect is through with its queues only while nobody else can push. */
  lemma StepKeepsPushersOut(p: Pc, s: Shared, p': Pc, s': Shared, q: Pc)
    requires Step(p, s, p', s') && Local(s, q)
    requires HoldsOut(p) + HoldsOut(q) <= 1 && HoldsIn(p) + HoldsIn(q) <= 1
    ensures Drained(p') && !Drained(p) ==> !Pushing(q)
    ensures Pushing(p') ==> !Drained(q)
  {
  }

  lemma StepMovesOutLock(p: Pc, s: Shared, p': Pc, s': Shared)
    requires Step(p, s, p', s') && (HoldsOut(p) == 1 ==> s.outHeld)
    ensures Flag(s'.outHeld) - Flag(s.outHeld) == HoldsOut(p') - HoldsOut(p)
  {
  }

  lemma StepMovesInLock(p: Pc, s: Shared, p': Pc, s': Shared)
    requires Step(p, s, p', s') && (HoldsIn(p) == 1 ==> s.inHeld)
    ensures Flag(s'.inHeld) - Flag(s.inHeld) == HoldsIn(p') - HoldsIn(p)
  {
  }

  function ClosingOf(p: Pc, s: Shared): nat
  {
    s.closes + WillClose(p) + Flag(s.connected)
  }

  lemma StepClosesNoMore(p: Pc, s: Shared, p': Pc, s': Shared)
    requires Step(p, s, p', s')
    ensures ClosingOf(p', s') <= ClosingOf(p, s)
  {
  }

  /** Only a missing peer makes a disconnect skip its request. */
  lemma StepClosesNoLess(p: Pc, s: Shared, p': Pc, s': Shared)
    requires Step(p, s, p', s') && s'.peer
    ensures s.peer && ClosingOf(p', s') == ClosingOf(p, s)
  {
  }

  lemma AdvanceKeepsLocks(s: State, i: nat, p': Pc, s': State)
    requires Invariant(s) && Next(s, Advance(i, p'), s')
    ensures Total(HoldsOut, s'.agents) == Flag(s'.shared.outHeld)
    ensures Total(HoldsIn, s'.agents) == Flag(s'.shared.inHeld)
  {
    var p := s.agents[i];
    TotalCoversOne(HoldsOut, s.agents, i);
    TotalCoversOne(HoldsIn, s.agents, i);
    StepMovesOutLock(p, s.shared, p', s'.shared);
    StepMovesInLock(p, s.shared, p', s'.shared);
    MovedTotal(HoldsOut, s, i, p', s');
    MovedTotal(HoldsIn, s, i, p', s');
  }

  lemma MovedTotal(weight: Pc -> nat, s: State, i: nat, p': Pc, s': State)
    requires i < |s.agents| && s'.agents == s.agents[i := p']
    ensures Total(weight, s'.agents) + weight(s.agents[i]) == Total(weight, s.agents) + weight(p')
  {
    assert s.agents[i := p'] + [] == s.agents[i := p'];
    TotalAfterMove(weight, s.agents, i, p', []);
  }

  lemma AdvanceKeepsClosing(s: State, i: nat, p': Pc, s': State)
    requires Next(s, Advance(i, p'), s')
    ensures Closing(s') <= Closing(s) && (s'.shared.peer ==> s.shared.peer && Closing(s') == Closing(s))
  {
    var p := s.agents[i];
    StepClosesNoMore(p, s.shared, p', s'.shared);
    if s'.shared.peer {
      StepClosesNoLess(p, s.shared, p', s'.shared);
    }
    MovedTotal(WillClose, s, i, p', s');
  }

  lemma AdvanceKeepsInvariant(s: State, i: nat, p': Pc, s': State)
    requires Invariant(s) && Next(s, Advance(i, p'), s')
    ensures Invariant(s')
  {
    AdvanceKeepsLocks(s, i, p', s');
    AdvanceKeepsClosing(s, i, p', s');
    OthersKeep(s, i, p', s');
  }

  lemma OthersKeep(s: State, i: nat, p': Pc, s': State)
    requires Invariant(s) && Next(s, Advance(i, p'), s')
    ensures forall j :: 0 <= j < |s'.agents| ==> Local(s'.shared, s'.agents[j])
    ensures forall j, k :: 0 <= j < |s'.agents| && 0 <= k < |s'.agents| && Drained(s'.agents[j]) ==>
              !Pushing(s'.agents[k])
  {
    var p := s.agents[i];
    StepKeepsOwn(p, s.shared, p', s'.shared);
    StepSettles(p, s.shared, p', s'.shared);
    forall j | 0 <= j < |s.agents| && j != i
      ensures Local(s'.shared, s.agents[j])
      ensures Drained(p') ==> !Pushing(s.agents[j])
      ensures Pushing(p') ==> !Drained(s.agents[j])
    {
      OnlyOne(HoldsOut, s.agents, i, j);
      OnlyOne(HoldsIn, s.agents, i, j);
      StepSparesOther(p, s.shared, s'.shared, s.agents[j]);
      StepKeepsPushersOut(p, s.shared, p', s'.shared, s.agents[j]);
    }
  }

  lemma EnterKeepsInvariant(s: State, call: Pc, s': State)
    requires Invariant(s) && Next(s, Enter(call), s')
    ensures Invariant(s')
  {
    TotalOfConcat(HoldsOut, s.agents, [call]);
    TotalOfConcat(HoldsIn, s.agents, [call]);
    TotalOfConcat(WillClose, s.agents, [call]);
  }

  /** Disconnects that are through stay where they are or end. */
  predicate StaysDrained(s: State, s': State)
  {
    (exists i :: 0 <= i < |s.agents| && Drained(s.agents[i]))
         ==> exists i :: 0 <= i < |s'.agents| && Drained(s'.agents[i])
  }

  lemma NextKeepsInvariant(s: State, m: Move, s': State)
    requires Invariant(s) && Next(s, m, s')
    ensures Invariant(s') && StaysDrained(s, s')
  {
    match m
    case Enter(call) =>
      EnterKeepsInvariant(s, call, s');
      assert forall i :: 0 <= i < |s.agents| ==> s'.agents[i] == s.agents[i];
    case Advance(i, pc) =>
      AdvanceKeepsInvariant(s, i, pc, s');
      assert forall j :: 0 <= j < |s.agents| && j != i ==> s'.agents[j] == s.agents[j];
      assert Drained(s.agents[i]) ==> Drained(s'.agents[i]);
  }

  lemma {:induction false} RunKeepsInvariant(peer: bool, states: seq<State>, moves: seq<Move>, k: nat)
    requires Run(peer, states, moves) && k < |states|
    ensures Invariant(states[k])
  {
    if k > 0 {
      RunKeepsInvariant(peer, states, moves, k - 1);
      NextKeepsInvariant(states[k - 1], moves[k - 1], states[k]);
    }
  }

  lemma {:induction false} RunStaysDrained(peer: bool, states: seq<State>, moves: seq<Move>, k: nat, n: nat)
    requires Run(peer, states, moves) && k <= n < |states|
    requires exists i :: 0 <= i < |states[k].agents| && Drained(states[k].agents[i])
    ensures exists i :: 0 <= i < |states[n].agents| && Drained(states[n].agents[i])
  {
    if k < n {
      RunStaysDrained(peer, states, moves, k, n - 1);
      RunKeepsInvariant(peer, states, moves, n - 1);
      NextKeepsInvariant(states[n - 1], moves[n - 1], states[n]);
    }
  }

  // ----- Disconnect is final -----

  /** Once a disconnect has returned both queues are empty, whatever the other threads were
      doing then and do later. */
  lemma DisconnectIsFinal(peer: bool, states: seq<State>, moves: seq<Move>, k: nat, i: nat, n: nat)
    requires Run(peer, states, moves) && k <= n < |states|
    requires i < |states[k].agents| && states[k].agents[i].Disconnected?
    ensures var s := states[n].shared;
            s.inbound == [] && s.outbound == [] && !s.connected
  {
    assert Drained(states[k].agents[i]);
    RunStaysDrained(peer, states, moves, k, n);
    RunKeepsInvariant(peer, states, moves, n);
  }

  /** The close is requested at most once over any run; if the peer is still attached when no
      disconnect is under way, it was requested exactly if the flag went down. */
  lemma ClosesOnce(peer: bool, states: seq<State>, moves: seq<Move>, k: nat)
    requires Run(peer, states, moves) && k < |states|
    ensures var s := states[k];
            && s.shared.closes <= 1
            && (s.shared.closes == 1 ==> !s.shared.connected)
            && (s.shared.peer && Total(WillClose, s.agents) == 0 ==> (s.shared.closes == 1 <==> !s.shared.connected))
  {
    RunKeepsInvariant(peer, states, moves, k);
  }
}
