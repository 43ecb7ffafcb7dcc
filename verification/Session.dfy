/** One session: its queues, its codec and what it hands to the peer. */
module Sessions {
  import opened Bytes
  import opened Leb128
  import opened WireFormat
  import opened BinaryStreams
  import opened ReadOnlyBinaryStreams
  import opened BatchFraming
  import opened SessionCodec
  import opened SessionHistory
  import FlushClock

  class Session {
    const lib: Toolkit
    var peer: bool
    var inboundPackets: seq<Buffer>
    var outboundPackets: seq<Buffer>
    var connected: bool
    var compressionType: Option<Algorithm>
    var compressionThreshold: int
    var encryption: Option<CipherState>
    var nextFlushAt: FlushClock.Time
    var closeRequests: nat
    ghost var wire: seq<Event>

    ghost function Snapshot(): State
      reads this
    {
      State(connected, peer, inboundPackets, outboundPackets,
            Codec(compressionType, compressionThreshold, encryption), nextFlushAt, wire)
    }

    constructor (lib: Toolkit, peer: bool, now: FlushClock.Time)
      ensures this.lib == lib && Snapshot() == Created(peer, now) && closeRequests == 0
    {
      this.lib, this.peer := lib, peer;
      inboundPackets, outboundPackets, connected := [], [], peer;
      compressionType, compressionThreshold, encryption := None, 0, None;
      nextFlushAt, closeRequests, wire := now + FlushClock.FLUSH_INTERVAL, 0, [];
    }

    method SendPacket(packet: Buffer) returns (ok: bool)
      modifies this`outboundPackets
      ensures (ok, Snapshot()) == old(Apply(lib, Snapshot(), Op.Send(packet)))
    {
      if !connected {
        return false;
      }
      outboundPackets := outboundPackets + [packet];
      return true;
    }

    /** Goes past the queue. */
    method SendPacketImmediately(packet: Buffer, delivered: bool) returns (ok: bool)
      modifies this`encryption, this`wire
      ensures (ok, Snapshot()) == old(Apply(lib, Snapshot(), Op.SendImmediately(packet, delivered)))
    {
      var batch := WriteBatch([packet]);
      ok := SendBatchedBufferImmediately(batch, false, delivered);
    }

    method Flush(now: FlushClock.Time, delivered: bool) returns (ok: bool)
      modifies this`nextFlushAt, this`outboundPackets, this`encryption, this`wire
      ensures (ok, Snapshot()) == old(Apply(lib, Snapshot(), Op.Flush(now, delivered)))
    {
      nextFlushAt := now + FlushClock.FLUSH_INTERVAL;
      if !connected || !peer || outboundPackets == [] {
        return false;
      }
      var drainedPackets := outboundPackets;
      outboundPackets := [];
      var batch := WriteBatch(drainedPackets);
      ok := SendBatchedBufferImmediately(batch, true, delivered);
    }

    method FlushIfDue(now: FlushClock.Time, delivered: bool) returns (ok: bool)
      modifies this`nextFlushAt, this`outboundPackets, this`encryption, this`wire
      ensures (ok, Snapshot()) == old(Apply(lib, Snapshot(), Op.FlushIfDue(now, delivered)))
    {
      if now < nextFlushAt {
        return false;
      }
      nextFlushAt := now + FlushClock.FLUSH_INTERVAL;
      if !connected || !peer || outboundPackets == [] {
        return false;
      }
      var drainedPackets := outboundPackets;
      outboundPackets := [];
      var batch := WriteBatch(drainedPackets);
      ok := SendBatchedBufferImmediately(batch, true, delivered);
    }

    method DequeueOutboundPackets() returns (ok: bool, outPackets: seq<Buffer>)
      modifies this`outboundPackets
      ensures ok == old(HasWork(Snapshot()))
      ensures if ok then outPackets == old(outboundPackets) && outboundPackets == []
              else outboundPackets == old(outboundPackets)
    {
      outPackets := [];
      if !connected || !peer || outboundPackets == [] {
        return false, outPackets;
      }
      while outboundPackets != []
        invariant outPackets + outboundPackets == old(outboundPackets)
        decreases |outboundPackets|
      {
        outPackets := outPackets + [outboundPackets[0]];
        outboundPackets := outboundPackets[1..];
      }
      ok := outPackets != [];
    }

    method FlushPendingBeforeStateChangeUnlocked(delivered: bool) returns (ok: bool)
      modifies this`outboundPackets, this`encryption, this`wire
      ensures (ok, Snapshot()) == old(Drain(lib, Snapshot(), delivered))
    {
      var some, outPackets := DequeueOutboundPackets();
      if !some {
        return false;
      }
      var batch := WriteBatch(outPackets);
      ok := SendBatchedBufferImmediately(batch, true, delivered);
    }

    method SetCompressed(algorithm: Algorithm, threshold: int, delivered: bool)
      modifies this`outboundPackets, this`encryption, this`wire, this`compressionType, this`compressionThreshold
      ensures Snapshot() == old(Apply(lib, Snapshot(), Op.SetCompressed(algorithm, threshold, delivered))).1
    {
      var _ := FlushPendingBeforeStateChangeUnlocked(delivered);
      compressionType := Some(algorithm);
      compressionThreshold := threshold;
      wire := wire + [SwitchCompression];
    }

    method SetEncrypted(start: CipherState, delivered: bool)
      modifies this`outboundPackets, this`encryption, this`wire
      ensures Snapshot() == old(Apply(lib, Snapshot(), Op.SetEncrypted(start, delivered))).1
    {
      var _ := FlushPendingBeforeStateChangeUnlocked(delivered);
      encryption := Some(start);
      wire := wire + [SwitchEncryption(start)];
    }

    /** `delivered` is what the peer's Send returns. */
    method SendBatchedBufferImmediately(batch: Buffer, ghost queued: bool, delivered: bool) returns (ok: bool)
      modifies this`encryption, this`wire
      ensures (ok, Snapshot()) == old(SendBatch(lib, Snapshot(), batch, queued, delivered))
    {
      if !connected || !peer {
        return false;
      }
      var finalBuffer := EncodeBatch(batch);
      if finalBuffer.None? {
        return false;
      }
      if finalBuffer.value == [] {
        return false;
      }
      if delivered {
        wire := wire + [Frame([BATCH_ID] + finalBuffer.value, queued)];
      }
      return delivered;
    }

    method EncodeBatch(batch: Buffer) returns (r: Option<Buffer>)
      modifies this`encryption
      ensures (r, Snapshot().codec) == old(Encode(lib, Snapshot().codec, batch))
    {
      var packetsBuffer := batch;
      var compressedStream := new BinaryStream();
      if compressionType.Some? {
        var headerType := NONE;
        if |packetsBuffer| >= ThresholdAsSize(compressionThreshold) {
          headerType := compressionType.value;
          if headerType == ZLIB {
            packetsBuffer := lib.deflate(packetsBuffer);
          } else if headerType == SNAPPY {
            packetsBuffer := lib.snap(packetsBuffer);
          }
        }
        compressedStream.WriteByte(AsByte(headerType));
      }
      compressedStream.WriteBytes(packetsBuffer);
      var finalBuffer := compressedStream.buffer;
      assert finalBuffer == WithHeader(lib, Snapshot().codec, batch);
      if encryption.Some? {
        var (encrypted, next) := lib.encrypt(encryption.value, finalBuffer);
        encryption := Some(next);
        return encrypted;
      }
      return Some(finalBuffer);
    }

    method ReceivePacket() returns (r: Option<Buffer>)
      modifies this`inboundPackets
      ensures r.None? <==> old(inboundPackets) == []
      ensures old(inboundPackets) == (if r.Some? then [r.value] else []) + inboundPackets
    {
      if inboundPackets == [] {
        return None;
      }
      r := Some(inboundPackets[0]);
      inboundPackets := inboundPackets[1..];
    }

    method EnqueueInboundPacket(packet: Buffer) returns (ok: bool)
      modifies this`inboundPackets
      ensures ok == connected && inboundPackets == old(inboundPackets) + if ok then [packet] else []
    {
      if !connected {
        return false;
      }
      inboundPackets := inboundPackets + [packet];
      return true;
    }

    method Disconnect()
      modifies this`connected, this`inboundPackets, this`outboundPackets, this`closeRequests
      ensures !connected && inboundPackets == [] && outboundPackets == []
      ensures closeRequests == old(closeRequests) + if old(connected) && peer then 1 else 0
    {
      var wasConnected := connected;
      connected := false;
      while outboundPackets != []
        invariant !connected && closeRequests == old(closeRequests)
        decreases |outboundPackets|
      {
        outboundPackets := outboundPackets[1..];
      }
      while inboundPackets != []
        invariant !connected && outboundPackets == [] && closeRequests == old(closeRequests)
        decreases |inboundPackets|
      {
        inboundPackets := inboundPackets[1..];
      }
      if !wasConnected {
        return;
      }
      if peer {
        closeRequests := closeRequests + 1;
      }
    }

    method DetachPeer()
      modifies this`peer
      ensures Snapshot() == old(Snapshot()).(peer := false)
    {
      peer := false;
    }

    method SerializeBatchedPackets(packets: seq<Buffer>) returns (r: Option<Buffer>)
      modifies this`encryption
      ensures (r, Snapshot().codec) == old(Encode(lib, Snapshot().codec, Batch(packets)))
    {
      var batch := WriteBatch(packets);
      r := EncodeBatch(batch);
    }

    method DeserializeBatchPackets(batched: Buffer) returns (r: Option<seq<Buffer>>)
      modifies this`encryption
      ensures (r, Snapshot().codec) == old(Decode(lib, Snapshot().codec, batched))
    {
      var decrypted := batched;
      if encryption.Some? {
        var (x, next) := lib.decrypt(encryption.value, batched);
        encryption := Some(next);
        if x.None? {
          return None;
        }
        decrypted := x.value;
      }
      var decompressed := decrypted;
      if compressionType.Some? {
        var stream := new ReadOnlyBinaryStream(decrypted);
        var header := stream.ReadFixedWidth(1);
        if header.None? {
          return None;
        }
        OneByte(decrypted);
        var payload := stream.Left();
        var res := Decompressed(lib, AsAlgorithm(header.value), payload);
        if res.None? {
          return None;
        }
        decompressed := res.value;
      }
      r := ReadPackets(decompressed);
    }
  }

  /** The loop that writes a batch. */
  method WriteBatch(packets: seq<Buffer>) returns (batch: Buffer)
    ensures batch == Batch(packets)
  {
    var stream := new BinaryStream();
    for i := 0 to |packets|
      invariant fresh(stream) && stream.buffer == Batch(packets[..i])
    {
      stream.WriteUnsignedVarInt(|packets[i]| % LIMIT32);
      stream.WriteBytes(packets[i]);
      BatchAppend(packets[..i], packets[i]);
      assert packets[..i + 1] == packets[..i] + [packets[i]];
      Reassociate(Batch(packets[..i]), Leb(|packets[i]| % LIMIT32), packets[i]);
    }
    assert packets[..|packets|] == packets;
    return stream.buffer;
  }

  /** What the parser gives after `done` has been read. */
  function AfterPackets(done: seq<Buffer>, r: Option<seq<Buffer>>): Option<seq<Buffer>>
  {
    match r
    case None => None
    case Some(packets) => Some(done + packets)
  }

  lemma OneMorePacket(done: seq<Buffer>, packet: Buffer, r: Option<seq<Buffer>>)
    ensures AfterPackets(done, Put(packet, r)) == AfterPackets(done + [packet], r)
  {
    if r.Some? {
      Reassociate(done, [packet], r.value);
    }
  }

  /** One packet at the front of a batch. */
  method ReadPacket(stream: ReadOnlyBinaryStream) returns (r: Option<Buffer>)
    requires stream.Valid() && !stream.overflowed && stream.Left() != []
    modifies stream
    ensures stream.Valid()
    ensures r.None? ==> old(Unbatch(stream.Left())) == None
    ensures r.Some? ==> old(Unbatch(stream.Left())) == Put(r.value, Unbatch(stream.Left()))
    ensures r.Some? ==> !stream.overflowed && |stream.Left()| < |old(stream.Left())|
  {
    VarUses(stream.Left());
    var packetSize := stream.ReadUnsignedVarInt();
    if packetSize.None? {
      return None;
    }
    var remaining := |stream.view| - stream.position;
    if packetSize.value > remaining {
      return None;
    }
    r := stream.ReadBytes(packetSize.value);
  }

  /** The loop that reads a batch. */
  method ReadPackets(batch: Buffer) returns (r: Option<seq<Buffer>>)
    ensures r == Unbatch(batch)
  {
    var stream := new ReadOnlyBinaryStream(batch);
    var packets: seq<Buffer> := [];
    ghost var all := Unbatch(batch);
    ghost var left := all;
    NothingRead(all);
    while stream.position < |stream.view|
      invariant fresh(stream) && stream.Valid() && !stream.overflowed
      invariant all == AfterPackets(packets, left) && left == Unbatch(stream.Left())
      decreases |stream.Left()|
    {
      var packetData := ReadPacket(stream);
      if packetData.None? {
        return None;
      }
      left := Unbatch(stream.Left());
      OneMorePacket(packets, packetData.value, left);
      packets := packets + [packetData.value];
    }
    AllPacketsRead(packets);
    return Some(packets);
  }

  lemma AllPacketsRead(packets: seq<Buffer>)
    ensures AfterPackets(packets, Unbatch([])) == Some(packets)
  {
    assert packets + [] == packets;
  }

  lemma NothingRead(r: Option<seq<Buffer>>)
    ensures AfterPackets([], r) == r
  {
    assert r.Some? ==> [] + r.value == r.value;
  }
}
