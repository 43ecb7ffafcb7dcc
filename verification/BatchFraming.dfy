/** Batches: packets one after the other, each behind its length as a varint. */
module BatchFraming {
  import opened Bytes
  import opened Leb128
  import opened WireFormat

  /** The length is cast to 32 bits before it is written. */
  function Batch(packets: seq<Buffer>): Buffer
  {
    if packets == [] then []
    else Leb(|packets[0]| % LIMIT32) + packets[0] + Batch(packets[1..])
  }

  predicate AllFit(packets: seq<Buffer>)
  {
    forall i :: 0 <= i < |packets| ==> |packets[i]| < LIMIT32
  }

  lemma VarUses(s: Buffer)
    ensures ReadVarUInt(s).Some? ==> |ReadVarUInt(s).value.1| < |s| && ReadVarUInt(s).value.0 < LIMIT32
  {
  }

  /** Reads packets until no data is left. */
  function Unbatch(s: Buffer): Option<seq<Buffer>>
    decreases |s|
  {
    if s == [] then Some([])
    else
      VarUses(s);
      match ReadVarUInt(s)
      case None => None
      case Some((size, rest)) =>
        if size > |rest| then None else Put(rest[..size], Unbatch(rest[size..]))
  }

  function Put(packet: Buffer, r: Option<seq<Buffer>>): Option<seq<Buffer>>
  {
    match r
    case None => None
    case Some(packets) => Some([packet] + packets)
  }

  lemma PutFirst(packets: seq<Buffer>)
    requires packets != []
    ensures Put(packets[0], Some(packets[1..])) == Some(packets)
  {
    assert [packets[0]] + packets[1..] == packets;
  }

  // ----- Every byte is accounted for -----

  /** Headers and packets in turn. */
  function Interleave(headers: seq<Buffer>, packets: seq<Buffer>): Buffer
    requires |headers| == |packets|
  {
    if packets == [] then [] else headers[0] + packets[0] + Interleave(headers[1..], packets[1..])
  }

  /** `header` is some LEB128 string of at most five bytes for the length of `packet`. */
  predicate Announces(header: Buffer, packet: Buffer)
  {
    IsLeb(header) && |header| <= 5 && LebValue(header) == |packet| && |packet| < LIMIT32
  }

  ghost predicate Accounts(s: Buffer, packets: seq<Buffer>, headers: seq<Buffer>)
  {
    && |headers| == |packets| && s == Interleave(headers, packets)
    && forall i :: 0 <= i < |packets| ==> Announces(headers[i], packets[i])
  }

  /** A header in front of a packet is read as that packet. */
  lemma UnbatchFirst(header: Buffer, packet: Buffer, rest: Buffer)
    requires Announces(header, packet)
    ensures Unbatch(header + packet + rest) == Put(packet, Unbatch(rest))
  {
    Reassociate(header, packet, rest);
    var s := header + (packet + rest);
    assert s[..|header|] == header && s[|header|..] == packet + rest;
    ReadLebAccepts(s, 5, LIMIT32, |packet|, |header|);
    RawRoundTrip(packet, rest);
    assert (packet + rest)[..|packet|] == packet && (packet + rest)[|packet|..] == rest;
  }

  lemma {:induction false} UnbatchInterleaved(headers: seq<Buffer>, packets: seq<Buffer>)
    requires |headers| == |packets| && forall i :: 0 <= i < |packets| ==> Announces(headers[i], packets[i])
    ensures Unbatch(Interleave(headers, packets)) == Some(packets)
  {
    if packets != [] {
      UnbatchFirst(headers[0], packets[0], Interleave(headers[1..], packets[1..]));
      UnbatchInterleaved(headers[1..], packets[1..]);
      PutFirst(packets);
    }
  }

  /** The header of the first packet that a successful parse found. */
  lemma FirstHeader(s: Buffer, packets: seq<Buffer>) returns (header: Buffer, rest: Buffer)
    requires s != [] && Unbatch(s) == Some(packets)
    ensures packets != [] && Announces(header, packets[0]) && s == header + packets[0] + rest
    ensures |rest| < |s| && Unbatch(rest) == Some(packets[1..])
  {
    VarUses(s);
    var k := LebPrefix(s, 5);
    header := s[..k];
    var size := LebValue(header);
    rest := s[k..][size..];
    LebPrefixIsLeb(s, 5, k);
    SplitAt(s, k);
    SplitAt(s[k..], size);
    Reassociate(header, packets[0], rest);
  }

  lemma {:induction false} UnbatchAccounts(s: Buffer, packets: seq<Buffer>) returns (headers: seq<Buffer>)
    requires Unbatch(s) == Some(packets)
    ensures Accounts(s, packets, headers)
    decreases |s|
  {
    if s == [] {
      headers := [];
    } else {
      var header, rest := FirstHeader(s, packets);
      var others := UnbatchAccounts(rest, packets[1..]);
      headers := [header] + others;
      assert headers[1..] == others;
    }
  }

  /** The parser accepts a buffer as these packets exactly when the buffer consists of them, each
      behind some header for its length, and of nothing else. */
  lemma UnbatchAcceptsExactly(s: Buffer, packets: seq<Buffer>)
    ensures Unbatch(s) == Some(packets) <==> exists headers :: Accounts(s, packets, headers)
  {
    if Unbatch(s) == Some(packets) {
      var headers := UnbatchAccounts(s, packets);
    }
    forall headers | Accounts(s, packets, headers) ensures Unbatch(s) == Some(packets) {
      UnbatchInterleaved(headers, packets);
    }
  }

  // ----- Round trip -----

  lemma {:induction false} FittingBatchRoundTrip(packets: seq<Buffer>)
    requires AllFit(packets)
    ensures Unbatch(Batch(packets)) == Some(packets)
  {
    if packets != [] {
      var n := |packets[0]|;
      assert n % LIMIT32 == n;
      LebFits(n);
      UnbatchFirst(Leb(n), packets[0], Batch(packets[1..]));
      FittingBatchRoundTrip(packets[1..]);
      PutFirst(packets);
    }
  }

  /** A batch is read back exactly when every packet is shorter than 2^32 bytes. */
  lemma BatchRoundTrip(packets: seq<Buffer>)
    ensures Unbatch(Batch(packets)) == Some(packets) <==> AllFit(packets)
  {
    if AllFit(packets) {
      FittingBatchRoundTrip(packets);
    }
    if Unbatch(Batch(packets)) == Some(packets) {
      var headers := UnbatchAccounts(Batch(packets), packets);
      forall i | 0 <= i < |packets| ensures |packets[i]| < LIMIT32 {
        assert Announces(headers[i], packets[i]);
      }
    }
  }

  lemma {:induction false} BatchAppend(packets: seq<Buffer>, packet: Buffer)
    ensures Batch(packets + [packet]) == Batch(packets) + (Leb(|packet| % LIMIT32) + packet)
  {
    if packets == [] {
      assert Batch([packet]) == Leb(|packet| % LIMIT32) + packet + Batch([]);
    } else {
      assert (packets + [packet])[1..] == packets[1..] + [packet];
      BatchAppend(packets[1..], packet);
      Reassociate(Leb(|packets[0]| % LIMIT32) + packets[0], Batch(packets[1..]), Leb(|packet| % LIMIT32) + packet);
    }
  }
}
