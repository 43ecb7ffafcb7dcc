/** What a session does to a batch before it goes on the wire, and its inverse. */
module SessionCodec {
  import opened Bytes
  import opened WireFormat
  import opened BatchFraming

  /** The algorithm byte of the compression header, as a signed byte. */
  type Algorithm = x: int | -128 <= x < 128

  const NONE: Algorithm := -1
  const ZLIB: Algorithm := 0
  const SNAPPY: Algorithm := 1

  /** Whatever a cipher keeps between two calls. */
  type CipherState = Buffer

  /** The library functions that the session calls. */
  datatype Toolkit = Toolkit(
    deflate: Buffer -> Buffer, inflate: Buffer -> Option<Buffer>,
    snap: Buffer -> Buffer, unsnap: Buffer -> Option<Buffer>,
    encrypt: (CipherState, Buffer) -> (Option<Buffer>, CipherState),
    decrypt: (CipherState, Buffer) -> (Option<Buffer>, CipherState),
    paired: (CipherState, CipherState) -> bool)

  /** What is assumed of them: decompression undoes compression, and a cipher that is paired
      with the sender's undoes the encryption and stays paired with it. */
  ghost predicate Honest(lib: Toolkit)
  {
    && (forall x :: lib.inflate(lib.deflate(x)) == Some(x))
    && (forall x :: lib.unsnap(lib.snap(x)) == Some(x))
    && (forall start :: lib.paired(start, start))
    && (forall s, r, x {:trigger lib.paired(s, r), lib.encrypt(s, x)} ::
          lib.paired(s, r) && lib.encrypt(s, x).0.Some? ==>
          Undone(lib, s, r, x))
  }

  ghost predicate Undone(lib: Toolkit, s: CipherState, r: CipherState, x: Buffer)
  {
    lib.encrypt(s, x).0.Some? ==>
      var (c, s') := lib.encrypt(s, x);
      var (y, r') := lib.decrypt(r, c.value);
      y == Some(x) && lib.paired(s', r')
  }

  /** The codec state of a session. */
  datatype Codec = Codec(compression: Option<Algorithm>, threshold: int, cipher: Option<CipherState>)

  /** The threshold is a signed 32-bit number that is cast to an unsigned 64-bit size. */
  function ThresholdAsSize(threshold: int): int
  {
    if threshold < 0 then threshold + LIMIT64 else threshold
  }

  /** The header byte that goes in front of a batch. */
  function HeaderType(codec: Codec, size: nat): Algorithm
    requires codec.compression.Some?
  {
    if size >= ThresholdAsSize(codec.threshold) then codec.compression.value else NONE
  }

  /** Compression applies exactly from a non-negative threshold on; a negative one, cast to a size,
      is beyond every batch, so that batches go out uncompressed behind the header for that. */
  lemma ThresholdDecides(codec: Codec, size: nat)
    requires codec.compression.Some? && codec.compression.value != NONE
    requires -0x8000_0000 <= codec.threshold < 0x8000_0000 && size < 0x8000_0000_0000_0000
    ensures HeaderType(codec, size) != NONE <==> 0 <= codec.threshold <= size
  {
  }

  function AsByte(x: Algorithm): byte
  {
    if x < 0 then x + 256 else x
  }

  function AsAlgorithm(b: byte): Algorithm
  {
    if b >= 128 then b - 256 else b
  }

  function Compressed(lib: Toolkit, header: Algorithm, batch: Buffer): Buffer
  {
    if header == ZLIB then lib.deflate(batch) else if header == SNAPPY then lib.snap(batch) else batch
  }

  /** An algorithm that the receiver does not know is an error. */
  function Decompressed(lib: Toolkit, header: Algorithm, payload: Buffer): Option<Buffer>
  {
    if header == ZLIB then lib.inflate(payload)
    else if header == SNAPPY then lib.unsnap(payload)
    else if header == NONE then Some(payload)
    else None
  }

  /** The batch behind its compression header, if there is to be one. */
  function WithHeader(lib: Toolkit, codec: Codec, batch: Buffer): Buffer
  {
    if codec.compression.None? then batch
    else
      var header := HeaderType(codec, |batch|);
      [AsByte(header)] + Compressed(lib, header, batch)
  }

  function WithoutHeader(lib: Toolkit, codec: Codec, s: Buffer): Option<Buffer>
  {
    if codec.compression.None? then Some(s)
    else if s == [] then None
    else Decompressed(lib, AsAlgorithm(s[0]), s[1..])
  }

  /** The last step of sending: the bytes and the codec afterwards. */
  function Encrypted(lib: Toolkit, codec: Codec, s: Buffer): (Option<Buffer>, Codec)
  {
    if codec.cipher.None? then (Some(s), codec)
    else
      var (c, next) := lib.encrypt(codec.cipher.value, s);
      (c, codec.(cipher := Some(next)))
  }

  function Decrypted(lib: Toolkit, codec: Codec, s: Buffer): (Option<Buffer>, Codec)
  {
    if codec.cipher.None? then (Some(s), codec)
    else
      var (x, next) := lib.decrypt(codec.cipher.value, s);
      (x, codec.(cipher := Some(next)))
  }

  function Encode(lib: Toolkit, codec: Codec, batch: Buffer): (Option<Buffer>, Codec)
  {
    Encrypted(lib, codec, WithHeader(lib, codec, batch))
  }

  function Packets(lib: Toolkit, codec: Codec, s: Buffer): Option<seq<Buffer>>
  {
    match WithoutHeader(lib, codec, s)
    case None => None
    case Some(batch) => Unbatch(batch)
  }

  function Decode(lib: Toolkit, codec: Codec, s: Buffer): (Option<seq<Buffer>>, Codec)
  {
    var (x, after) := Decrypted(lib, codec, s);
    (if x.None? then None else Packets(lib, codec, x.value), after)
  }

  // ----- Round trip -----

  /** Compression on or off alike - algorithm and threshold may differ - and paired ciphers. */
  predicate Agree(lib: Toolkit, sender: Codec, receiver: Codec)
  {
    && sender.compression.Some? == receiver.compression.Some?
    && match (sender.cipher, receiver.cipher)
       case (None, None) => true
       case (Some(s), Some(r)) => lib.paired(s, r)
       case _ => false
  }

  predicate Known(x: Algorithm) { x == NONE || x == ZLIB || x == SNAPPY }

  /** The header that this batch gets is one that receivers know. */
  predicate KnownHeader(codec: Codec, batch: Buffer)
  {
    codec.compression.Some? ==> Known(HeaderType(codec, |batch|))
  }

  lemma HeaderRoundTrip(lib: Toolkit, sender: Codec, receiver: Codec, batch: Buffer)
    requires Honest(lib) && sender.compression.Some? == receiver.compression.Some?
    ensures WithoutHeader(lib, receiver, WithHeader(lib, sender, batch))
         == if KnownHeader(sender, batch) then Some(batch) else None
  {
    if sender.compression.Some? {
      var header := HeaderType(sender, |batch|);
      assert AsAlgorithm(AsByte(header)) == header;
      assert WithHeader(lib, sender, batch)[1..] == Compressed(lib, header, batch);
    }
  }

  /** Encryption and decryption cancel and leave the codecs in agreement. */
  lemma CipherRoundTrip(lib: Toolkit, sender: Codec, receiver: Codec, s: Buffer)
    requires Honest(lib) && Agree(lib, sender, receiver) && Encrypted(lib, sender, s).0.Some?
    ensures var (c, sender') := Encrypted(lib, sender, s);
            var (x, receiver') := Decrypted(lib, receiver, c.value);
            x == Some(s) && Agree(lib, sender', receiver')
  {
    if sender.cipher.Some? {
      assert lib.paired(sender.cipher.value, receiver.cipher.value);
      assert Undone(lib, sender.cipher.value, receiver.cipher.value, s);
    }
  }

  /** Serializing and deserializing a batch gives its packets back exactly when all of them are
      shorter than 2^32 bytes and the header in use is known.  Either way the codecs agree afterwards. */
  lemma SerializeRoundTrip(lib: Toolkit, sender: Codec, receiver: Codec, packets: seq<Buffer>)
    requires Honest(lib) && Agree(lib, sender, receiver) && Encode(lib, sender, Batch(packets)).0.Some?
    ensures var (final, sender') := Encode(lib, sender, Batch(packets));
            var (result, receiver') := Decode(lib, receiver, final.value);
            Agree(lib, sender', receiver') &&
            (result == Some(packets) <==> AllFit(packets) && KnownHeader(sender, Batch(packets)))
  {
    CipherRoundTrip(lib, sender, receiver, WithHeader(lib, sender, Batch(packets)));
    HeaderRoundTrip(lib, sender, receiver, Batch(packets));
    BatchRoundTrip(packets);
  }
}
