/** The sender's side of a session over whole histories of operations, and the receiver of what
    it put on the wire. */
module SessionHistory {
  import opened Bytes
  import opened WireFormat
  import opened BatchFraming
  import opened SessionCodec
  import FlushClock

  const BATCH_ID: byte := 0xFE

  /** What is handed to the peer, and where the receiver must switch its codec.  `queued` tells
      a batch of the outbound queue from a packet that was sent past it. */
  datatype Event =
    | Frame(bytes: Buffer, queued: bool)
    | SwitchCompression
    | SwitchEncryption(start: CipherState)

  datatype State = State(connected: bool, peer: bool, inbound: seq<Buffer>, outbound: seq<Buffer>,
                         codec: Codec, nextFlushAt: FlushClock.Time, wire: seq<Event>)

  function Created(peer: bool, now: FlushClock.Time): State
  {
    State(peer, peer, [], [], Codec(None, 0, None), now + FlushClock.FLUSH_INTERVAL, [])
  }

  /** Sends a batch; `delivered` is what the peer's Send returns. */
  function SendBatch(lib: Toolkit, st: State, batch: Buffer, queued: bool, delivered: bool): (bool, State)
  {
    if !st.connected || !st.peer then (false, st)
    else
      var (final, codec) := Encode(lib, st.codec, batch);
      if final.None? || final.value == [] || !delivered then (false, st.(codec := codec))
      else (true, st.(codec := codec, wire := st.wire + [Frame([BATCH_ID] + final.value, queued)]))
  }

  predicate HasWork(st: State) { st.connected && st.peer && st.outbound != [] }

  /** Drains the outbound queue into one batch. */
  function Drain(lib: Toolkit, st: State, delivered: bool): (bool, State)
  {
    if HasWork(st) then SendBatch(lib, st.(outbound := []), Batch(st.outbound), true, delivered) else (false, st)
  }

  datatype Op =
    | Send(packet: Buffer)
    | SendImmediately(packet: Buffer, delivered: bool)
    | Flush(now: FlushClock.Time, delivered: bool)
    | FlushIfDue(now: FlushClock.Time, delivered: bool)
    | SetCompressed(algorithm: Algorithm, threshold: int, delivered: bool)
    | SetEncrypted(start: CipherState, delivered: bool)

  /** One operation: what it returns (a switch returns nothing; here, what its flush did). */
  function Apply(lib: Toolkit, st: State, op: Op): (bool, State)
  {
    match op
    case Send(packet) =>
      if st.connected then (true, st.(outbound := st.outbound + [packet])) else (false, st)
    case SendImmediately(packet, delivered) =>
      SendBatch(lib, st, Batch([packet]), false, delivered)
    case Flush(now, delivered) =>
      Drain(lib, st.(nextFlushAt := now + FlushClock.FLUSH_INTERVAL), delivered)
    case FlushIfDue(now, delivered) =>
      if FlushClock.GatePasses(st.nextFlushAt, now)
      then Drain(lib, st.(nextFlushAt := FlushClock.GateAfter(st.nextFlushAt, now)), delivered)
      else (false, st)
    case SetCompressed(algorithm, threshold, delivered) =>
      var (ok, st') := Drain(lib, st, delivered);
      (ok, st'.(codec := st'.codec.(compression := Some(algorithm), threshold := threshold),
                wire := st'.wire + [SwitchCompression]))
    case SetEncrypted(start, delivered) =>
      var (ok, st') := Drain(lib, st, delivered);
      (ok, st'.(codec := st'.codec.(cipher := Some(start)), wire := st'.wire + [SwitchEncryption(start)]))
  }

  function Run(lib: Toolkit, st: State, ops: seq<Op>): State
    decreases |ops|
  {
    if ops == [] then st else Run(lib, Apply(lib, st, ops[0]).1, ops[1..])
  }

  /** What the operation adds to the accepted packets. */
  function Kept(lib: Toolkit, st: State, op: Op): seq<Buffer>
  {
    if op.Send? && Apply(lib, st, op).0 then [op.packet] else []
  }

  /** What the operation adds to the packets that go past the queue. */
  function Past(lib: Toolkit, st: State, op: Op): seq<Buffer>
  {
    if op.SendImmediately? && Apply(lib, st, op).0 then [op.packet] else []
  }

  /** The packets that sendPacket accepted. */
  function Accepted(lib: Toolkit, st: State, ops: seq<Op>): seq<Buffer>
    decreases |ops|
  {
    if ops == [] then []
    else Kept(lib, st, ops[0]) + Accepted(lib, Apply(lib, st, ops[0]).1, ops[1..])
  }

  /** The packets that went past the queue. */
  function Overtaking(lib: Toolkit, st: State, ops: seq<Op>): seq<Buffer>
    decreases |ops|
  {
    if ops == [] then []
    else Past(lib, st, ops[0]) + Overtaking(lib, Apply(lib, st, ops[0]).1, ops[1..])
  }

  /** The operation is one that sends now. */
  predicate Sends(st: State, op: Op)
  {
    match op
    case Send(_) => false
    case SendImmediately(_, _) => st.connected && st.peer
    case FlushIfDue(now, _) => FlushClock.GatePasses(st.nextFlushAt, now) && HasWork(st)
    case _ => HasWork(st)
  }

  /** What the operation hands to the codec when it sends. */
  function BatchOf(st: State, op: Op): Buffer
  {
    if op.SendImmediately? then Batch([op.packet]) else Batch(st.outbound)
  }

  /** The encryption answers, and with something. */
  predicate Encodable(lib: Toolkit, codec: Codec, batch: Buffer)
  {
    var final := Encode(lib, codec, batch).0;
    final.Some? && final.value != []
  }

  /** A send that cannot succeed: no answer from the encryption, an empty one, or the peer refuses. */
  predicate Failed(lib: Toolkit, st: State, op: Op)
  {
    Sends(st, op) && !(Encodable(lib, st.codec, BatchOf(st, op)) && op.delivered)
  }

  /** Those are the sends that report failure. */
  lemma FailedMeansRefused(lib: Toolkit, st: State, op: Op)
    ensures Failed(lib, st, op) <==> Sends(st, op) && !Apply(lib, st, op).0
    ensures Apply(lib, st, op).0 <==> (op.Send? && st.connected) || (Sends(st, op) && !Failed(lib, st, op))
  {
  }

  /** Without a cipher every batch encodes to something, so that the peer alone decides. */
  lemma PeerAloneDecides(lib: Toolkit, st: State, op: Op)
    requires st.codec.cipher.None?
    ensures Failed(lib, st, op) <==> Sends(st, op) && !op.delivered
  {
    if Sends(st, op) {
      assert BatchOf(st, op) != [];
    }
  }

  /** A failed send that matters to later packets: it lost a batch of the queue, or it left the
      cipher ahead of the receiver's. */
  predicate Spoils(lib: Toolkit, st: State, op: Op)
  {
    Failed(lib, st, op) && (!op.SendImmediately? || st.codec.cipher.Some?)
  }

  predicate NoneSpoils(lib: Toolkit, st: State, ops: seq<Op>)
    decreases |ops|
  {
    ops == [] || (!Spoils(lib, st, ops[0]) && NoneSpoils(lib, Apply(lib, st, ops[0]).1, ops[1..]))
  }

  /** Packets that the length prefix can carry, and algorithms that receivers know. */
  predicate Carried(op: Op)
  {
    match op
    case Send(packet) => |packet| < LIMIT32
    case SendImmediately(packet, _) => |packet| < LIMIT32
    case SetCompressed(algorithm, _, _) => Known(algorithm)
    case _ => true
  }

  predicate AllCarried(ops: seq<Op>)
  {
    forall i :: 0 <= i < |ops| ==> Carried(ops[i])
  }

  // ----- The receiver -----

  datatype Receiver = Receiver(codec: Codec, queued: seq<Buffer>, overtaking: seq<Buffer>)

  function NewReceiver(): Receiver { Receiver(Codec(None, 0, None), [], []) }

  /** What the receiver makes of one event. */
  function Receive(lib: Toolkit, rx: Receiver, e: Event): Option<Receiver>
  {
    match e
    case SwitchCompression => Some(rx.(codec := rx.codec.(compression := Some(NONE))))
    case SwitchEncryption(start) => Some(rx.(codec := rx.codec.(cipher := Some(start))))
    case Frame(bytes, queued) =>
      if bytes == [] || bytes[0] != BATCH_ID then None
      else
        var (packets, codec) := Decode(lib, rx.codec, bytes[1..]);
        if packets.None? then None
        else if queued then Some(Receiver(codec, rx.queued + packets.value, rx.overtaking))
        else Some(Receiver(codec, rx.queued, rx.overtaking + packets.value))
  }

  function ReceiveAll(lib: Toolkit, rx: Receiver, wire: seq<Event>): Option<Receiver>
  {
    if wire == [] then Some(rx)
    else
      var last := |wire| - 1;
      match ReceiveAll(lib, rx, wire[..last])
      case None => None
      case Some(rx') => Receive(lib, rx', wire[last])
  }

  // ----- Conservation -----

  /** The receiver of the wire so far agrees with the sender about the codec; every packet still
      queued can be carried and the algorithm is known. */
  ghost predicate InStep(lib: Toolkit, st: State, rx: Receiver)
  {
    && ReceiveAll(lib, NewReceiver(), st.wire) == Some(rx)
    && Agree(lib, st.codec, rx.codec)
    && AllFit(st.outbound)
    && (st.codec.compression.Some? ==> Known(st.codec.compression.value))
  }

  lemma ReceiveOneMore(lib: Toolkit, wire: seq<Event>, e: Event, rx: Receiver)
    requires ReceiveAll(lib, NewReceiver(), wire) == Some(rx)
    ensures ReceiveAll(lib, NewReceiver(), wire + [e]) == Receive(lib, rx, e)
  {
    assert (wire + [e])[..|wire|] == wire;
  }

  /** A batch that was sent is received, and the codecs stay in agreement. */
  lemma SentIsReceived(lib: Toolkit, st: State, rx: Receiver, packets: seq<Buffer>, queued: bool, delivered: bool)
    requires Honest(lib) && InStep(lib, st, rx) && AllFit(packets)
    requires SendBatch(lib, st, Batch(packets), queued, delivered).0
    ensures InStep(lib, SendBatch(lib, st, Batch(packets), queued, delivered).1,
                   Receiver(Decode(lib, rx.codec, Encode(lib, st.codec, Batch(packets)).0.value).1,
                            rx.queued + (if queued then packets else []),
                            rx.overtaking + (if queued then [] else packets)))
  {
    var final := Encode(lib, st.codec, Batch(packets)).0.value;
    var e := Frame([BATCH_ID] + final, queued);
    assert e.bytes[1..] == final;
    SerializeRoundTrip(lib, st.codec, rx.codec, packets);
    ReceiveOneMore(lib, st.wire, e, rx);
    assert rx.queued + [] == rx.queued && rx.overtaking + [] == rx.overtaking;
  }

  /** What one operation without a failed send adds to what was received or is queued. */
  ghost predicate Conserved(lib: Toolkit, st: State, rx: Receiver, accepted: seq<Buffer>, overtaking: seq<Buffer>)
  {
    InStep(lib, st, rx) && rx.queued + st.outbound == accepted && rx.overtaking == overtaking
  }

  lemma DrainConserves(lib: Toolkit, st: State, delivered: bool, rx: Receiver, accepted: seq<Buffer>,
                       overtaking: seq<Buffer>)
    returns (rx': Receiver)
    requires Honest(lib) && Conserved(lib, st, rx, accepted, overtaking)
    requires HasWork(st) ==> Drain(lib, st, delivered).0
    ensures Conserved(lib, Drain(lib, st, delivered).1, rx', accepted, overtaking)
  {
    rx' := rx;
    if HasWork(st) {
      var drained := st.(outbound := []);
      SentIsReceived(lib, drained, rx, st.outbound, true, delivered);
      rx' := Receiver(Decode(lib, rx.codec, Encode(lib, st.codec, Batch(st.outbound)).0.value).1,
                      rx.queued + st.outbound, rx.overtaking + []);
      assert rx.overtaking + [] == rx.overtaking && accepted + [] == accepted;
    }
  }

  lemma SwitchConserves(lib: Toolkit, st: State, codec: Codec, e: Event, rx: Receiver, accepted: seq<Buffer>,
                        overtaking: seq<Buffer>)
    returns (rx': Receiver)
    requires Honest(lib) && Conserved(lib, st, rx, accepted, overtaking)
    requires (&& e == SwitchCompression && codec.compression.Some? && Known(codec.compression.value)
              && codec.cipher == st.codec.cipher)
          || (e.SwitchEncryption? && codec == st.codec.(cipher := Some(e.start)))
    ensures Conserved(lib, st.(codec := codec, wire := st.wire + [e]), rx', accepted, overtaking)
  {
    ReceiveOneMore(lib, st.wire, e, rx);
    rx' := Receive(lib, rx, e).value;
  }

  lemma ApplyConserves(lib: Toolkit, st: State, op: Op, rx: Receiver, accepted: seq<Buffer>, overtaking: seq<Buffer>)
    returns (rx': Receiver)
    requires Honest(lib) && Conserved(lib, st, rx, accepted, overtaking)
    requires Carried(op) && !Spoils(lib, st, op)
    ensures Conserved(lib, Apply(lib, st, op).1, rx', accepted + Kept(lib, st, op), overtaking + Past(lib, st, op))
  {
    rx' := rx;
    FailedMeansRefused(lib, st, op);
    assert accepted + [] == accepted && overtaking + [] == overtaking;
    match op
    case Send(packet) => Reassociate(rx.queued, st.outbound, [packet]);
    case SendImmediately(packet, delivered) =>
      if Sends(st, op) && !Failed(lib, st, op) {
        SentIsReceived(lib, st, rx, [packet], false, delivered);
        rx' := Receiver(Decode(lib, rx.codec, Encode(lib, st.codec, Batch([packet])).0.value).1,
                        rx.queued + [], rx.overtaking + [packet]);
        assert rx.queued + [] == rx.queued;
      }
    case Flush(now, delivered) =>
      rx' := DrainConserves(lib, st.(nextFlushAt := now + FlushClock.FLUSH_INTERVAL), delivered, rx, accepted,
                            overtaking);
    case FlushIfDue(now, delivered) =>
      if FlushClock.GatePasses(st.nextFlushAt, now) {
        rx' := DrainConserves(lib, st.(nextFlushAt := FlushClock.GateAfter(st.nextFlushAt, now)), delivered, rx,
                              accepted, overtaking);
      }
    case SetCompressed(algorithm, threshold, delivered) =>
      rx' := DrainConserves(lib, st, delivered, rx, accepted, overtaking);
      var drained := Drain(lib, st, delivered).1;
      rx' := SwitchConserves(lib, drained, drained.codec.(compression := Some(algorithm), threshold := threshold),
                             SwitchCompression, rx', accepted, overtaking);
    case SetEncrypted(start, delivered) =>
      rx' := DrainConserves(lib, st, delivered, rx, accepted, overtaking);
      var drained := Drain(lib, st, delivered).1;
      rx' := SwitchConserves(lib, drained, drained.codec.(cipher := Some(start)), SwitchEncryption(start), rx',
                             accepted, overtaking);
  }

  lemma {:induction false} RunConserves(lib: Toolkit, st: State, ops: seq<Op>, rx: Receiver, accepted: seq<Buffer>,
                                        overtaking: seq<Buffer>)
    returns (rx': Receiver)
    requires Honest(lib) && Conserved(lib, st, rx, accepted, overtaking)
    requires AllCarried(ops) && NoneSpoils(lib, st, ops)
    ensures Conserved(lib, Run(lib, st, ops), rx', accepted + Accepted(lib, st, ops),
                      overtaking + Overtaking(lib, st, ops))
    decreases |ops|
  {
    rx' := rx;
    if ops == [] {
      assert accepted + [] == accepted && overtaking + [] == overtaking;
    } else {
      var kept, past := Kept(lib, st, ops[0]), Past(lib, st, ops[0]);
      var next := Apply(lib, st, ops[0]).1;
      rx' := ApplyConserves(lib, st, ops[0], rx, accepted, overtaking);
      rx' := RunConserves(lib, next, ops[1..], rx', accepted + kept, overtaking + past);
      Reassociate(accepted, kept, Accepted(lib, next, ops[1..]));
      Reassociate(overtaking, past, Overtaking(lib, next, ops[1..]));
    }
  }

  /** Over every history in which no send fails that matters the receiver decodes the whole wire; what it decoded
      followed by the outbound queue is what was accepted, in order. */
  lemma Conservation(lib: Toolkit, peer: bool, now: FlushClock.Time, ops: seq<Op>)
    requires Honest(lib) && AllCarried(ops) && NoneSpoils(lib, Created(peer, now), ops)
    ensures var end := Run(lib, Created(peer, now), ops);
            var rx := ReceiveAll(lib, NewReceiver(), end.wire);
            && rx.Some?
            && rx.value.queued + end.outbound == Accepted(lib, Created(peer, now), ops)
            && rx.value.overtaking == Overtaking(lib, Created(peer, now), ops)
  {
    var rx := RunConserves(lib, Created(peer, now), ops, NewReceiver(), [], []);
    var accepted, overtaking := Accepted(lib, Created(peer, now), ops), Overtaking(lib, Created(peer, now), ops);
    assert [] + accepted == accepted && [] + overtaking == overtaking;
  }

  // ----- Codec switches -----

  lemma {:induction false} RunConcat(lib: Toolkit, st: State, a: seq<Op>, b: seq<Op>)
    ensures Run(lib, st, a + b) == Run(lib, Run(lib, st, a), b)
    ensures Accepted(lib, st, a + b) == Accepted(lib, st, a) + Accepted(lib, Run(lib, st, a), b)
    ensures NoneSpoils(lib, st, a + b) <==> NoneSpoils(lib, st, a) && NoneSpoils(lib, Run(lib, st, a), b)
    decreases |a|
  {
    if a == [] {
      assert a + b == b;
    } else {
      var next := Apply(lib, st, a[0]).1;
      assert (a + b)[1..] == a[1..] + b;
      RunConcat(lib, next, a[1..], b);
      Reassociate(Kept(lib, st, a[0]), Accepted(lib, next, a[1..]), Accepted(lib, Run(lib, st, a), b));
    }
  }

  lemma ApplyKeeps(lib: Toolkit, st: State, op: Op)
    ensures Apply(lib, st, op).1.connected == st.connected && Apply(lib, st, op).1.peer == st.peer
    ensures (st.outbound == [] || st.connected) ==> (Apply(lib, st, op).1.outbound == [] || st.connected)
    ensures st.wire <= Apply(lib, st, op).1.wire
  {
  }

  /** Nothing is queued without a connection and a peer, and the wire only grows. */
  lemma {:induction false} RunKeeps(lib: Toolkit, st: State, ops: seq<Op>)
    ensures Run(lib, st, ops).connected == st.connected && Run(lib, st, ops).peer == st.peer
    ensures (st.outbound == [] || st.connected) ==> (Run(lib, st, ops).outbound == [] || st.connected)
    ensures st.wire <= Run(lib, st, ops).wire
    decreases |ops|
  {
    if ops != [] {
      ApplyKeeps(lib, st, ops[0]);
      RunKeeps(lib, Apply(lib, st, ops[0]).1, ops[1..]);
    }
  }

  predicate IsSwitch(op: Op) { op.SetCompressed? || op.SetEncrypted? }

  function Marker(op: Op): Event
    requires IsSwitch(op)
  {
    if op.SetCompressed? then SwitchCompression else SwitchEncryption(op.start)
  }

  /** The switch itself: when the marker goes on the wire, everything accepted is there already. */
  lemma SwitchDrains(lib: Toolkit, st: State, switch: Op, rx: Receiver, accepted: seq<Buffer>, overtaking: seq<Buffer>)
    returns (wireBefore: seq<Event>)
    requires Honest(lib) && Conserved(lib, st, rx, accepted, overtaking)
    requires IsSwitch(switch) && !Spoils(lib, st, switch) && (st.outbound == [] || HasWork(st))
    ensures Apply(lib, st, switch).1.wire == wireBefore + [Marker(switch)] && Apply(lib, st, switch).1.outbound == []
    ensures ReceiveAll(lib, NewReceiver(), wireBefore).Some?
    ensures ReceiveAll(lib, NewReceiver(), wireBefore).value.queued == accepted
  {
    FailedMeansRefused(lib, st, switch);
    var rx' := DrainConserves(lib, st, switch.delivered, rx, accepted, overtaking);
    wireBefore := Drain(lib, st, switch.delivered).1.wire;
    assert rx'.queued + [] == rx'.queued;
  }

  /** At a codec switch the wire is cut in two: what was accepted before the switch is exactly what
      the queue put on the wire before the marker, hence under the old codec, and what the queue
      puts on the wire after the marker was accepted after the switch. */
  lemma EpochSeparation(lib: Toolkit, peer: bool, now: FlushClock.Time, before: seq<Op>, switch: Op, later: seq<Op>)
    returns (wireBefore: seq<Event>, wireAfter: seq<Event>, rx: Receiver)
    requires Honest(lib) && IsSwitch(switch)
    requires AllCarried(before) && Carried(switch) && AllCarried(later)
    requires NoneSpoils(lib, Created(peer, now), before + ([switch] + later))
    ensures var accepted := Accepted(lib, Created(peer, now), before);
            var end := Run(lib, Created(peer, now), before + ([switch] + later));
            && end.wire == wireBefore + [Marker(switch)] + wireAfter
            && ReceiveAll(lib, NewReceiver(), wireBefore).Some?
            && ReceiveAll(lib, NewReceiver(), wireBefore).value.queued == accepted
            && ReceiveAll(lib, NewReceiver(), end.wire) == Some(rx)
            && accepted <= rx.queued
            && accepted + Accepted(lib, Run(lib, Created(peer, now), before + [switch]), later)
               == Accepted(lib, Created(peer, now), before + ([switch] + later))
            && rx.queued[|accepted|..] + end.outbound
               == Accepted(lib, Run(lib, Created(peer, now), before + [switch]), later)
  {
    var start := Created(peer, now);
    var st, accepted, past := Run(lib, start, before), Accepted(lib, start, before), Overtaking(lib, start, before);
    RunConcat(lib, start, before, [switch] + later);
    RunConcat(lib, start, before, [switch]);
    SwitchFirst(lib, st, switch, later);
    assert [] + accepted == accepted && [] + past == past && accepted + [] == accepted;
    RunKeeps(lib, start, before);
    var rx0 := RunConserves(lib, start, before, NewReceiver(), [], []);
    wireBefore := SwitchDrains(lib, st, switch, rx0, accepted, past);
    var rx2 := ApplyConserves(lib, st, switch, rx0, accepted, past);
    wireAfter, rx := AfterSwitch(lib, Apply(lib, st, switch).1, later, rx2, accepted, past + Past(lib, st, switch));
  }

  lemma SwitchFirst(lib: Toolkit, st: State, switch: Op, later: seq<Op>)
    requires IsSwitch(switch)
    ensures Run(lib, st, [switch]) == Apply(lib, st, switch).1
    ensures Run(lib, st, [switch] + later) == Run(lib, Apply(lib, st, switch).1, later)
    ensures Accepted(lib, st, [switch] + later) == Accepted(lib, Apply(lib, st, switch).1, later)
    ensures NoneSpoils(lib, st, [switch] + later)
         <==> !Spoils(lib, st, switch) && NoneSpoils(lib, Apply(lib, st, switch).1, later)
  {
    assert ([switch] + later)[1..] == later;
    assert Run(lib, Apply(lib, st, switch).1, []) == Apply(lib, st, switch).1;
  }

  lemma AfterSwitch(lib: Toolkit, mid: State, later: seq<Op>, rx0: Receiver, accepted: seq<Buffer>, past: seq<Buffer>)
    returns (wireAfter: seq<Event>, rx: Receiver)
    requires Honest(lib) && Conserved(lib, mid, rx0, accepted, past) && mid.outbound == []
    requires AllCarried(later) && NoneSpoils(lib, mid, later)
    ensures var end := Run(lib, mid, later);
            && end.wire == mid.wire + wireAfter && ReceiveAll(lib, NewReceiver(), end.wire) == Some(rx)
            && accepted <= rx.queued && rx.queued[|accepted|..] + end.outbound == Accepted(lib, mid, later)
  {
    var end := Run(lib, mid, later);
    RunKeeps(lib, mid, later);
    SplitAt(end.wire, |mid.wire|);
    wireAfter := end.wire[|mid.wire|..];
    rx := RunConserves(lib, mid, later, rx0, accepted, past);
    assert rx0.queued + [] == rx0.queued;
    ReceiveGrows(lib, mid.wire, end.wire, rx0, rx);
    DropFront(accepted, rx.queued, end.outbound, Accepted(lib, mid, later));
  }

  lemma {:induction false} ReceiveGrows(lib: Toolkit, wire: seq<Event>, longer: seq<Event>, rx: Receiver, rx': Receiver)
    requires wire <= longer
    requires ReceiveAll(lib, NewReceiver(), wire) == Some(rx) && ReceiveAll(lib, NewReceiver(), longer) == Some(rx')
    ensures rx.queued <= rx'.queued
    decreases |longer|
  {
    if |wire| < |longer| {
      var last := |longer| - 1;
      ReceiveGrows(lib, wire, longer[..last], rx, ReceiveAll(lib, NewReceiver(), longer[..last]).value);
    } else {
      assert wire == longer;
    }
  }

  lemma DropFront<T>(front: seq<T>, a: seq<T>, b: seq<T>, rest: seq<T>)
    requires front <= a && a + b == front + rest
    ensures a[|front|..] + b == rest
  {
    assert rest == (front + rest)[|front|..];
    assert a[|front|..] + b == (a + b)[|front|..];
  }

  predicate NoCompressionSwitch(ops: seq<Op>)
  {
    forall i :: 0 <= i < |ops| ==> !ops[i].SetCompressed?
  }

  lemma {:induction false} CompressionStays(lib: Toolkit, st: State, ops: seq<Op>)
    requires NoCompressionSwitch(ops)
    ensures Run(lib, st, ops).codec.compression == st.codec.compression
    ensures Run(lib, st, ops).codec.threshold == st.codec.threshold
    decreases |ops|
  {
    if ops != [] {
      CompressionStays(lib, Apply(lib, st, ops[0]).1, ops[1..]);
    }
  }

  /** The last SetCompressed decides, whatever comes after it: a batch goes out under its algorithm
      exactly if it is as long as its threshold, and a negative threshold turns compression off. */
  lemma LastSwitchDecides(lib: Toolkit, st: State, switch: Op, later: seq<Op>, batch: Buffer)
    requires switch.SetCompressed? && NoCompressionSwitch(later) && switch.algorithm != NONE
    requires -0x8000_0000 <= switch.threshold < 0x8000_0000 && |batch| < 0x8000_0000_0000_0000
    ensures var codec := Run(lib, Apply(lib, st, switch).1, later).codec;
            WithHeader(lib, codec, batch)
            == if 0 <= switch.threshold <= |batch|
               then [AsByte(switch.algorithm)] + Compressed(lib, switch.algorithm, batch) else [AsByte(NONE)] + batch
  {
    CompressionStays(lib, Apply(lib, st, switch).1, later);
    ThresholdDecides(Run(lib, Apply(lib, st, switch).1, later).codec, |batch|);
  }

  // ----- Failed sends -----

  /** A failed send of the queue takes the whole batch with it: it is neither on the wire nor queued. */
  lemma FailedSendLosesTheBatch(lib: Toolkit, st: State, op: Op)
    requires Failed(lib, st, op) && !op.SendImmediately? && !IsSwitch(op)
    ensures Apply(lib, st, op).1.outbound == [] && Apply(lib, st, op).1.wire == st.wire && st.outbound != []
  {
    FailedMeansRefused(lib, st, op);
  }

  /** The operation finds packets queued and takes them out to send them. */
  predicate Drains(st: State, op: Op) { Sends(st, op) && !op.SendImmediately? }

  function Lost(lib: Toolkit, st: State, op: Op): nat
  {
    if Drains(st, op) && Failed(lib, st, op) then |st.outbound| else 0
  }

  function AllLost(lib: Toolkit, st: State, ops: seq<Op>): nat
    decreases |ops|
  {
    if ops == [] then 0 else Lost(lib, st, ops[0]) + AllLost(lib, Apply(lib, st, ops[0]).1, ops[1..])
  }

  // ----- What the queue puts on the wire, with any codec -----

  /** How many batches of the queue are on the wire. */
  function QueueFrames(wire: seq<Event>): nat
  {
    if wire == [] then 0
    else QueueFrames(wire[..|wire| - 1]) + if wire[|wire| - 1].Frame? && wire[|wire| - 1].queued then 1 else 0
  }

  /** The packets of the batch that the operation puts on the wire. */
  function PutOnWire(lib: Toolkit, st: State, op: Op): seq<Buffer>
  {
    if QueueFrames(Apply(lib, st, op).1.wire) > QueueFrames(st.wire) then st.outbound else []
  }

  function AllPutOnWire(lib: Toolkit, st: State, ops: seq<Op>): seq<Buffer>
    decreases |ops|
  {
    if ops == [] then [] else PutOnWire(lib, st, ops[0]) + AllPutOnWire(lib, Apply(lib, st, ops[0]).1, ops[1..])
  }

  /** Whenever packets are taken out of the queue, the cipher answers and the peer takes the batch. */
  predicate EveryDrainSucceeds(lib: Toolkit, st: State, ops: seq<Op>)
    decreases |ops|
  {
    ops == [] ||
    (&& (Drains(st, ops[0]) ==> Encodable(lib, st.codec, Batch(st.outbound)) && ops[0].delivered)
     && EveryDrainSucceeds(lib, Apply(lib, st, ops[0]).1, ops[1..]))
  }

  lemma OneFrameMore(wire: seq<Event>, e: Event)
    ensures QueueFrames(wire + [e]) == QueueFrames(wire) + if e.Frame? && e.queued then 1 else 0
  {
    assert (wire + [e])[..|wire|] == wire;
  }

  lemma DrainPutsOnWire(lib: Toolkit, st: State, delivered: bool)
    ensures var (ok, st') := Drain(lib, st, delivered);
            && QueueFrames(st'.wire) == QueueFrames(st.wire) + (if ok then 1 else 0)
            && (ok ==> HasWork(st)) && st'.outbound == if HasWork(st) then [] else st.outbound
  {
    var (ok, st') := Drain(lib, st, delivered);
    if ok {
      OneFrameMore(st.wire, st'.wire[|st.wire|]);
    }
  }

  /** The operation puts the whole queue on the wire, or loses it, or leaves it and may add to it. */
  predicate Accounts(lib: Toolkit, st: State, op: Op)
  {
    var st', put := Apply(lib, st, op).1, PutOnWire(lib, st, op);
    && |put| + |st'.outbound| + Lost(lib, st, op) == |st.outbound| + |Kept(lib, st, op)|
    && (Lost(lib, st, op) == 0 ==> put + st'.outbound == st.outbound + Kept(lib, st, op))
  }

  lemma ImmediateAccounts(lib: Toolkit, st: State, op: Op)
    requires op.SendImmediately?
    ensures Accounts(lib, st, op)
  {
    var (ok, st') := SendBatch(lib, st, Batch([op.packet]), false, op.delivered);
    if ok {
      OneFrameMore(st.wire, st'.wire[|st.wire|]);
    }
  }

  lemma FlushAccounts(lib: Toolkit, st: State, op: Op)
    requires op.Flush? || op.FlushIfDue?
    ensures Accounts(lib, st, op)
  {
    FailedMeansRefused(lib, st, op);
    DrainPutsOnWire(lib, st.(nextFlushAt := op.now + FlushClock.FLUSH_INTERVAL), op.delivered);
  }

  lemma SwitchAccounts(lib: Toolkit, st: State, op: Op)
    requires IsSwitch(op)
    ensures Accounts(lib, st, op)
  {
    LostBySwitch(lib, st, op);
    PutBySwitch(lib, st, op);
    assert Kept(lib, st, op) == [];
  }

  lemma LostBySwitch(lib: Toolkit, st: State, op: Op)
    requires IsSwitch(op)
    ensures Lost(lib, st, op) == if HasWork(st) && !Drain(lib, st, op.delivered).0 then |st.outbound| else 0
  {
    FailedMeansRefused(lib, st, op);
  }

  lemma PutBySwitch(lib: Toolkit, st: State, op: Op)
    requires IsSwitch(op)
    ensures var (ok, drained) := Drain(lib, st, op.delivered);
            && PutOnWire(lib, st, op) == (if ok then st.outbound else [])
            && Apply(lib, st, op).1.outbound == drained.outbound == (if HasWork(st) then [] else st.outbound)
            && (ok ==> HasWork(st))
  {
    DrainPutsOnWire(lib, st, op.delivered);
    OneFrameMore(Drain(lib, st, op.delivered).1.wire, Marker(op));
  }

  lemma ApplyAccounts(lib: Toolkit, st: State, op: Op)
    ensures Accounts(lib, st, op)
  {
    if op.SendImmediately? {
      ImmediateAccounts(lib, st, op);
    } else if op.Flush? || op.FlushIfDue? {
      FlushAccounts(lib, st, op);
    } else if IsSwitch(op) {
      SwitchAccounts(lib, st, op);
    }
  }

  lemma {:induction false} SizesAddUp(lib: Toolkit, st: State, ops: seq<Op>)
    ensures |AllPutOnWire(lib, st, ops)| + |Run(lib, st, ops).outbound| + AllLost(lib, st, ops)
         == |st.outbound| + |Accepted(lib, st, ops)|
    decreases |ops|
  {
    if ops != [] {
      ApplyAccounts(lib, st, ops[0]);
      SizesAddUp(lib, Apply(lib, st, ops[0]).1, ops[1..]);
    }
  }

  lemma {:induction false} SuccessMeansNoLoss(lib: Toolkit, st: State, ops: seq<Op>)
    ensures EveryDrainSucceeds(lib, st, ops) <==> AllLost(lib, st, ops) == 0
    decreases |ops|
  {
    if ops != [] {
      SuccessMeansNoLoss(lib, Apply(lib, st, ops[0]).1, ops[1..]);
    }
  }

  lemma {:induction false} NothingLost(lib: Toolkit, st: State, ops: seq<Op>)
    requires AllLost(lib, st, ops) == 0
    ensures AllPutOnWire(lib, st, ops) + Run(lib, st, ops).outbound == st.outbound + Accepted(lib, st, ops)
    decreases |ops|
  {
    if ops != [] {
      var next := Apply(lib, st, ops[0]).1;
      ApplyAccounts(lib, st, ops[0]);
      NothingLost(lib, next, ops[1..]);
      FourParts(PutOnWire(lib, st, ops[0]), AllPutOnWire(lib, next, ops[1..]), Run(lib, next, ops[1..]).outbound,
                next.outbound, Accepted(lib, next, ops[1..]), st.outbound, Kept(lib, st, ops[0]));
    }
  }

  lemma FourParts<T>(put: seq<T>, later: seq<T>, end: seq<T>, mid: seq<T>, accepted: seq<T>, start: seq<T>,
                     kept: seq<T>)
    ensures later + end == mid + accepted && put + mid == start + kept
         ==> (put + later) + end == start + (kept + accepted)
  {
    Reassociate(put, later, end);
    Reassociate(put, mid, accepted);
    Reassociate(start, kept, accepted);
  }

  /** Over every history, encrypted or not: the queue's packets on the wire followed by the queue are
      what was accepted, in order, exactly when every batch taken out of the queue could be encoded
      and was taken by the peer. */
  lemma NothingLostExactly(lib: Toolkit, peer: bool, now: FlushClock.Time, ops: seq<Op>)
    ensures var start := Created(peer, now);
            AllPutOnWire(lib, start, ops) + Run(lib, start, ops).outbound == Accepted(lib, start, ops)
            <==> EveryDrainSucceeds(lib, start, ops)
  {
    SizesAddUp(lib, Created(peer, now), ops);
    SuccessMeansNoLoss(lib, Created(peer, now), ops);
    if AllLost(lib, Created(peer, now), ops) == 0 {
      NothingLost(lib, Created(peer, now), ops);
    }
    assert [] + Accepted(lib, Created(peer, now), ops) == Accepted(lib, Created(peer, now), ops);
  }

  /** Once the peer is detached nothing is sent any more; what is still accepted stays queued. */
  lemma {:induction false} DetachedSendsNothing(lib: Toolkit, st: State, ops: seq<Op>)
    requires !st.peer
    ensures var end := Run(lib, st, ops);
            && end.outbound == st.outbound + Accepted(lib, st, ops)
            && st.wire <= end.wire && forall k :: |st.wire| <= k < |end.wire| ==> !end.wire[k].Frame?
    decreases |ops|
  {
    if ops != [] {
      var next := Apply(lib, st, ops[0]).1;
      DetachedSendsNothing(lib, next, ops[1..]);
      Reassociate(st.outbound, Kept(lib, st, ops[0]), Accepted(lib, next, ops[1..]));
    }
  }

  // ----- What the receiver decodes, without a cipher -----

  predicate NoCipher(ops: seq<Op>)
  {
    forall i :: 0 <= i < |ops| ==> !ops[i].SetEncrypted?
  }

  /** The peer takes every batch that is taken out of the queue. */
  predicate EveryDrainDelivered(lib: Toolkit, st: State, ops: seq<Op>)
    decreases |ops|
  {
    ops == [] ||
    ((Drains(st, ops[0]) ==> ops[0].delivered) && EveryDrainDelivered(lib, Apply(lib, st, ops[0]).1, ops[1..]))
  }

  lemma {:induction false} DeliveryDecides(lib: Toolkit, st: State, ops: seq<Op>)
    requires st.codec.cipher.None? && NoCipher(ops)
    ensures EveryDrainDelivered(lib, st, ops) <==> NoneSpoils(lib, st, ops)
    decreases |ops|
  {
    if ops != [] {
      PeerAloneDecides(lib, st, ops[0]);
      DeliveryDecides(lib, Apply(lib, st, ops[0]).1, ops[1..]);
    }
  }

  /** Sizes only: what was decoded, what is queued and what was lost make up what was accepted. */
  ghost predicate Counted(lib: Toolkit, st: State, rx: Receiver, accepted: nat, lost: nat)
  {
    InStep(lib, st, rx) && st.codec.cipher.None? && |rx.queued| + |st.outbound| + lost == accepted
  }

  lemma ApplyCounts(lib: Toolkit, st: State, op: Op, rx: Receiver, accepted: nat, lost: nat) returns (rx': Receiver)
    requires Honest(lib) && Counted(lib, st, rx, accepted, lost) && Carried(op) && !op.SetEncrypted?
    ensures Counted(lib, Apply(lib, st, op).1, rx', accepted + |Kept(lib, st, op)|, lost + Lost(lib, st, op))
  {
    FailedMeansRefused(lib, st, op);
    if !Spoils(lib, st, op) {
      rx' := ApplyConserves(lib, st, op, rx, rx.queued + st.outbound, rx.overtaking);
    } else if op.SetCompressed? {
      rx' := Receive(lib, rx, SwitchCompression).value;
      ReceiveOneMore(lib, st.wire, SwitchCompression, rx);
    } else {
      rx' := rx;
    }
  }

  lemma {:induction false} RunCounts(lib: Toolkit, st: State, ops: seq<Op>, rx: Receiver, accepted: nat, lost: nat)
    returns (rx': Receiver)
    requires Honest(lib) && Counted(lib, st, rx, accepted, lost) && AllCarried(ops) && NoCipher(ops)
    ensures Counted(lib, Run(lib, st, ops), rx', accepted + |Accepted(lib, st, ops)|, lost + AllLost(lib, st, ops))
    ensures AllLost(lib, st, ops) == 0 <==> NoneSpoils(lib, st, ops)
    decreases |ops|
  {
    rx' := rx;
    if ops != [] {
      var next := Apply(lib, st, ops[0]).1;
      rx' := ApplyCounts(lib, st, ops[0], rx, accepted, lost);
      rx' := RunCounts(lib, next, ops[1..], rx', accepted + |Kept(lib, st, ops[0])|, lost + Lost(lib, st, ops[0]));
    }
  }

  /** Without encryption the wire is always decoded, and decoded packets followed by the queue are
      what was accepted exactly when the peer took every batch that was taken out of the queue. */
  lemma ConservationExactly(lib: Toolkit, peer: bool, now: FlushClock.Time, ops: seq<Op>)
    requires Honest(lib) && AllCarried(ops) && NoCipher(ops)
    ensures var start := Created(peer, now);
            var end := Run(lib, start, ops);
            var rx := ReceiveAll(lib, NewReceiver(), end.wire);
            && rx.Some?
            && (rx.value.queued + end.outbound == Accepted(lib, start, ops) <==> EveryDrainDelivered(lib, start, ops))
  {
    var start := Created(peer, now);
    var rx := RunCounts(lib, start, ops, NewReceiver(), 0, 0);
    DeliveryDecides(lib, start, ops);
    if NoneSpoils(lib, start, ops) {
      Conservation(lib, peer, now, ops);
    }
  }
}
