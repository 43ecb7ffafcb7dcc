/** What the stream classes read and write, as functions on buffers: primitives, strings, leaves with
    codecs of their own, and arrays, maps, optionals and variants of these, composed by a schema. */
module WireFormat {
  import opened Bytes
  import opened Leb128
  import opened Bitset

  const LIMIT32: nat := 0x1_0000_0000
  const LIMIT64: nat := 0x1_0000_0000_0000_0000

  /** A writer and a reader callback for the values that fit; the reader says how many bytes it took.
      Its second argument is the stream's overflow flag. */
  datatype LeafCodec = LeafCodec(fits: Value -> bool, write: Value -> Buffer,
                                 read: (Buffer, bool) -> Option<(Value, nat)>)

  /** Callbacks for counts and indexes below `limit`, the number of values of the prefix type. */
  datatype Prefix = Prefix(limit: nat, write: nat -> Buffer, read: (Buffer, bool) -> Option<(nat, nat)>)

  /** The prefix of the overloads that take none. */
  const VARINT: Prefix := Prefix(LIMIT32, (n: nat) => Leb(n), (s: Buffer, overflowed: bool) => ReadLeb(s, 5, LIMIT32))

  datatype Schema =
    | Unsigned(width: nat)                     // little-endian, `width` bytes
    | SignedInt(width: nat)                    // two's complement
    | Boolean
    | VarUInt | VarUInt64 | VarInt | VarInt64
    | Bits(size: nat)
    | Text                                     // varint length
    | LongText                                 // 32-bit signed length
    | Leaf(codec: LeafCodec)                       // any other callbacks
    | Array(prefix: Prefix, elem: Schema)
    | Map(prefix: Prefix, key: Schema, mapped: Schema)
    | Optional(elem: Schema)
    | Variant(prefix: Prefix, alternatives: seq<Schema>)
    | Record(fields: seq<Schema>)              // what a visitor reads one after the other

  datatype Value =
    | Number(n: int)
    | Truth(b: bool)
    | BitSet(bits: seq<bool>)
    | String(s: Buffer)
    | List(items: seq<Value>)
    | Entries(entries: seq<(Value, Value)>)    // in the container's own order
    | Absent
    | Present(item: Value)
    | Case(index: nat, item: Value)
    | Fields(items: seq<Value>)

  ghost predicate DistinctKeys(entries: seq<(Value, Value)>)
  {
    forall i, j :: 0 <= i < j < |entries| ==> entries[i].0 != entries[j].0
  }

  ghost predicate HasType(v: Value, sc: Schema)
    decreases sc
  {
    match sc
    case Unsigned(width) => v.Number? && 0 <= v.n < Pow2(8 * width)
    case SignedInt(width) => width > 0 && v.Number? && Signed(v.n, 8 * width)
    case Boolean => v.Truth?
    case VarUInt => v.Number? && 0 <= v.n < LIMIT32
    case VarUInt64 => v.Number? && 0 <= v.n < LIMIT64
    case VarInt => v.Number? && Signed(v.n, 32)
    case VarInt64 => v.Number? && Signed(v.n, 64)
    case Bits(size) => v.BitSet? && |v.bits| == size && size > 0
    case Text => v.String? && |v.s| < LIMIT32
    case LongText => v.String? && |v.s| < 0x8000_0000
    case Leaf(codec) => codec.fits(v)
    case Array(prefix, elem) =>
      v.List? && |v.items| < prefix.limit && forall i :: 0 <= i < |v.items| ==> HasType(v.items[i], elem)
    case Map(prefix, key, mapped) =>
      && v.Entries? && |v.entries| < prefix.limit && DistinctKeys(v.entries)
      && forall i :: 0 <= i < |v.entries| ==> HasType(v.entries[i].0, key) && HasType(v.entries[i].1, mapped)
    case Optional(elem) => v.Absent? || (v.Present? && HasType(v.item, elem))
    case Variant(prefix, alternatives) =>
      v.Case? && v.index < |alternatives| && |alternatives| <= prefix.limit && HasType(v.item, alternatives[v.index])
    case Record(fields) =>
      v.Fields? && |v.items| == |fields| && forall i :: 0 <= i < |fields| ==> HasType(v.items[i], fields[i])
  }

  ghost predicate FaithfulLeaf(c: LeafCodec)
  {
    forall v, rest :: c.fits(v) ==> c.read(c.write(v) + rest, false) == Some((v, |c.write(v)|))
  }

  ghost predicate FaithfulPrefix(p: Prefix)
  {
    forall n: nat, rest :: n < p.limit ==> p.read(p.write(n) + rest, false) == Some((n, |p.write(n)|))
  }

  /** What is assumed of callbacks: reading what was written gives the value and takes just its bytes. */
  ghost predicate Faithful(sc: Schema)
    decreases sc
  {
    match sc
    case Leaf(codec) => FaithfulLeaf(codec)
    case Array(prefix, elem) => FaithfulPrefix(prefix) && Faithful(elem)
    case Map(prefix, key, mapped) => FaithfulPrefix(prefix) && Faithful(key) && Faithful(mapped)
    case Optional(elem) => Faithful(elem)
    case Variant(prefix, alternatives) =>
      FaithfulPrefix(prefix) && forall i :: 0 <= i < |alternatives| ==> Faithful(alternatives[i])
    case Record(fields) => forall i :: 0 <= i < |fields| ==> Faithful(fields[i])
    case _ => true
  }

  // ----- Primitives -----

  function LittleEndian(n: nat, width: nat): (s: Buffer)
    ensures |s| == width
  {
    if width == 0 then [] else [n % 256] + LittleEndian(n / 256, width - 1)
  }

  function FromLittleEndian(s: Buffer): nat
  {
    if s == [] then 0 else s[0] + 256 * FromLittleEndian(s[1..])
  }

  /** The unsigned number with the same `bits` bits. */
  function ToUnsigned(n: int, bits: nat): (u: nat)
    requires bits > 0 && Signed(n, bits)
    ensures u < Pow2(bits)
  {
    if n < 0 then n + Pow2(bits) else n
  }

  function ToSigned(u: nat, bits: nat): int
    requires bits > 0
  {
    if u >= Pow2(bits - 1) then u - Pow2(bits) else u
  }

  /** A fixed-width read: it fails once the stream has overflowed. */
  function ReadFixed(s: Buffer, width: nat, overflowed: bool): Option<(nat, Buffer)>
  {
    if overflowed || width > |s| then None else Some((FromLittleEndian(s[..width]), s[width..]))
  }

  /** The varint readers do not look at the overflow flag. */
  function ReadVar(s: Buffer, max: nat, limit: nat): Option<(nat, Buffer)>
  {
    match ReadLeb(s, max, limit)
    case None => None
    case Some((v, k)) => Some((v, s[k..]))
  }

  function ReadVarUInt(s: Buffer): Option<(nat, Buffer)> { ReadVar(s, 5, LIMIT32) }

  function ReadVarUInt64(s: Buffer): Option<(nat, Buffer)> { ReadVar(s, 10, LIMIT64) }

  /** Neither does the raw read. */
  function ReadRaw(s: Buffer, length: nat): Option<(Buffer, Buffer)>
  {
    if length > |s| then None else Some((s[..length], s[length..]))
  }

  function ReadString(s: Buffer): Option<(Buffer, Buffer)>
  {
    match ReadVarUInt(s)
    case None => None
    case Some((length, rest)) => ReadRaw(rest, length)
  }

  /** A negative length is refused. */
  function ReadLongString(s: Buffer, overflowed: bool): Option<(Buffer, Buffer)>
  {
    match ReadFixed(s, 4, overflowed)
    case None => None
    case Some((u, rest)) => if ToSigned(u, 32) < 0 then None else ReadRaw(rest, ToSigned(u, 32))
  }

  function ReadBitset(s: Buffer, size: nat, overflowed: bool): Option<(seq<bool>, Buffer)>
  {
    if overflowed then None
    else
      match ReadBits(s, size, true, false)
      case None => None
      case Some((bits, k)) => ReadBitsUsed(s, size, bits, k); Some((bits, s[k..]))
  }

  lemma ReadBitsUsed(s: Buffer, size: nat, bits: seq<bool>, k: nat)
    requires ReadBits(s, size, true, false) == Some((bits, k))
    ensures k <= |s|
  {
    AcceptsOnlyWhatIsWritten(s, size, true, false, bits, k);
  }

  function ReadPrefix(p: Prefix, s: Buffer, overflowed: bool): Option<(nat, Buffer)>
  {
    match p.read(s, overflowed)
    case None => None
    case Some((n, k)) => if k > |s| then None else Some((n, s[k..]))
  }

  function ReadLeaf(c: LeafCodec, s: Buffer, overflowed: bool): Option<(Value, Buffer)>
  {
    match c.read(s, overflowed)
    case None => None
    case Some((v, k)) => if k > |s| then None else Some((v, s[k..]))
  }

  // ----- Writing -----

  function Write(sc: Schema, v: Value): Buffer
    requires HasType(v, sc)
    decreases sc, 1, 0
  {
    match sc
    case Unsigned(width) => LittleEndian(v.n, width)
    case SignedInt(width) => LittleEndian(ToUnsigned(v.n, 8 * width), width)
    case Boolean => [if v.b then 1 else 0]
    case VarUInt => Leb(v.n)
    case VarUInt64 => Leb(v.n)
    case VarInt => Leb(ZigZag(v.n))
    case VarInt64 => Leb(ZigZag(v.n))
    case Bits(size) => WriteBits(v.bits)
    case Text => Leb(|v.s|) + v.s
    case LongText => LittleEndian(|v.s|, 4) + v.s
    case Leaf(codec) => codec.write(v)
    case Array(prefix, elem) => prefix.write(|v.items|) + WriteItems(sc, v.items)
    case Map(prefix, key, mapped) => prefix.write(|v.entries|) + WriteEntries(sc, v.entries)
    case Optional(elem) => if v.Absent? then [0] else [1] + Write(elem, v.item)
    case Variant(prefix, alternatives) => prefix.write(v.index) + Write(alternatives[v.index], v.item)
    case Record(fields) => WriteFields(sc, v.items, 0)
  }

  function WriteItems(sc: Schema, items: seq<Value>): Buffer
    requires sc.Array? && forall i :: 0 <= i < |items| ==> HasType(items[i], sc.elem)
    decreases sc, 0, |items|
  {
    if items == [] then [] else Write(sc.elem, items[0]) + WriteItems(sc, items[1..])
  }

  function WriteEntries(sc: Schema, entries: seq<(Value, Value)>): Buffer
    requires sc.Map?
    requires forall i :: 0 <= i < |entries| ==> HasType(entries[i].0, sc.key) && HasType(entries[i].1, sc.mapped)
    decreases sc, 0, |entries|
  {
    if entries == [] then []
    else Write(sc.key, entries[0].0) + Write(sc.mapped, entries[0].1) + WriteEntries(sc, entries[1..])
  }

  /** The fields of a record from number `from` on. */
  function WriteFields(sc: Schema, items: seq<Value>, from: nat): Buffer
    requires sc.Record? && from <= |items| == |sc.fields|
    requires forall i :: 0 <= i < |items| ==> HasType(items[i], sc.fields[i])
    decreases sc, 0, |items| - from
  {
    if from == |items| then [] else Write(sc.fields[from], items[from]) + WriteFields(sc, items, from + 1)
  }

  // ----- Reading -----

  /** Containers refuse a key that they hold already. */
  function Emplace(entries: seq<(Value, Value)>, key: Value, mapped: Value): seq<(Value, Value)>
  {
    if exists i :: 0 <= i < |entries| && entries[i].0 == key then entries else entries + [(key, mapped)]
  }

  function Read(sc: Schema, s: Buffer, overflowed: bool): Option<(Value, Buffer)>
    decreases sc, 1, 0
  {
    match sc
    case Unsigned(width) =>
      (match ReadFixed(s, width, overflowed)
       case None => None
       case Some((u, rest)) => Some((Number(u), rest)))
    case SignedInt(width) =>
      if width == 0 then None else
      (match ReadFixed(s, width, overflowed)
       case None => None
       case Some((u, rest)) => Some((Number(ToSigned(u, 8 * width)), rest)))
    case Boolean =>
      (match ReadFixed(s, 1, overflowed)
       case None => None
       case Some((u, rest)) => Some((Truth(u != 0), rest)))
    case VarUInt =>
      (match ReadVarUInt(s)
       case None => None
       case Some((u, rest)) => Some((Number(u), rest)))
    case VarUInt64 =>
      (match ReadVarUInt64(s)
       case None => None
       case Some((u, rest)) => Some((Number(u), rest)))
    case VarInt =>
      (match ReadVarUInt(s)
       case None => None
       case Some((u, rest)) => Some((Number(UnZigZag(u)), rest)))
    case VarInt64 =>
      (match ReadVarUInt64(s)
       case None => None
       case Some((u, rest)) => Some((Number(UnZigZag(u)), rest)))
    case Bits(size) =>
      (match ReadBitset(s, size, overflowed)
       case None => None
       case Some((bits, rest)) => Some((BitSet(bits), rest)))
    case Text => AsString(ReadString(s))
    case LongText => AsString(ReadLongString(s, overflowed))
    case Leaf(codec) => ReadLeaf(codec, s, overflowed)
    case Array(prefix, elem) =>
      (match ReadPrefix(prefix, s, overflowed)
       case None => None
       case Some((count, rest)) =>
         match ReadItems(sc, count, rest, overflowed)
         case None => None
         case Some((items, rest')) => Some((List(items), rest')))
    case Map(prefix, key, mapped) =>
      (match ReadPrefix(prefix, s, overflowed)
       case None => None
       case Some((count, rest)) =>
         match ReadEntries(sc, count, [], rest, overflowed)
         case None => None
         case Some((entries, rest')) => Some((Entries(entries), rest')))
    case Optional(elem) =>
      (match ReadFixed(s, 1, overflowed)
       case None => None
       case Some((u, rest)) =>
         if u == 0 then Some((Absent, rest))
         else
           match Read(elem, rest, overflowed)
           case None => None
           case Some((item, rest')) => Some((Present(item), rest')))
    case Variant(prefix, alternatives) =>
      (match ReadPrefix(prefix, s, overflowed)
       case None => None
       case Some((index, rest)) =>
         if index >= |alternatives| then None
         else
           match Read(alternatives[index], rest, overflowed)
           case None => None
           case Some((item, rest')) => Some((Case(index, item), rest')))
    case Record(fields) =>
      (match ReadFields(sc, 0, s, overflowed)
       case None => None
       case Some((items, rest)) => Some((Fields(items), rest)))
  }

  function AsString(r: Option<(Buffer, Buffer)>): Option<(Value, Buffer)>
  {
    match r
    case None => None
    case Some((s, rest)) => Some((String(s), rest))
  }

  function ReadItems(sc: Schema, count: nat, s: Buffer, overflowed: bool): Option<(seq<Value>, Buffer)>
    requires sc.Array?
    decreases sc, 0, count
  {
    if count == 0 then Some(([], s))
    else
      match Read(sc.elem, s, overflowed)
      case None => None
      case Some((item, rest)) =>
        match ReadItems(sc, count - 1, rest, overflowed)
        case None => None
        case Some((items, rest')) => Some(([item] + items, rest'))
  }

  function ReadEntries(sc: Schema, count: nat, entries: seq<(Value, Value)>, s: Buffer,
                       overflowed: bool): Option<(seq<(Value, Value)>, Buffer)>
    requires sc.Map?
    decreases sc, 0, count
  {
    if count == 0 then Some((entries, s))
    else
      match Read(sc.key, s, overflowed)
      case None => None
      case Some((key, rest)) =>
        match Read(sc.mapped, rest, overflowed)
        case None => None
        case Some((mapped, rest')) => ReadEntries(sc, count - 1, Emplace(entries, key, mapped), rest', overflowed)
  }

  /** The fields of a record from number `from` on. */
  function ReadFields(sc: Schema, from: nat, s: Buffer, overflowed: bool): Option<(seq<Value>, Buffer)>
    requires sc.Record? && from <= |sc.fields|
    decreases sc, 0, |sc.fields| - from
  {
    if from == |sc.fields| then Some(([], s))
    else
      match Read(sc.fields[from], s, overflowed)
      case None => None
      case Some((item, rest)) =>
        match ReadFields(sc, from + 1, rest, overflowed)
        case None => None
        case Some((items, rest')) => Some(([item] + items, rest'))
  }

  // ----- Round trip of the primitives -----

  lemma Pow2Plus8(n: nat)
    ensures Pow2(n + 8) == 256 * Pow2(n)
  {
    Pow2Plus7(n + 1);
  }

  lemma {:induction false} LittleEndianRoundTrip(n: nat, width: nat)
    requires n < Pow2(8 * width)
    ensures FromLittleEndian(LittleEndian(n, width)) == n
  {
    if width > 0 {
      Pow2Plus8(8 * (width - 1));
      LittleEndianRoundTrip(n / 256, width - 1);
      assert LittleEndian(n, width)[1..] == LittleEndian(n / 256, width - 1);
    }
  }

  lemma FixedRoundTrip(n: nat, width: nat, rest: Buffer)
    requires n < Pow2(8 * width)
    ensures ReadFixed(LittleEndian(n, width) + rest, width, false) == Some((n, rest))
  {
    var s := LittleEndian(n, width) + rest;
    LittleEndianRoundTrip(n, width);
    assert s[..width] == LittleEndian(n, width) && s[width..] == rest;
  }

  lemma VarRoundTrip(v: nat, rest: Buffer)
    ensures v < LIMIT32 ==> ReadVarUInt(Leb(v) + rest) == Some((v, rest))
    ensures v < LIMIT64 ==> ReadVarUInt64(Leb(v) + rest) == Some((v, rest))
  {
    LebFits(v);
    assert (Leb(v) + rest)[|Leb(v)|..] == rest;
    if v < LIMIT32 {
      LebRoundTrip(v, 5, LIMIT32, rest);
    }
    if v < LIMIT64 {
      LebRoundTrip(v, 10, LIMIT64, rest);
    }
  }

  /** The default prefix is what WriteUnsignedVarInt and ReadUnsignedVarInt do, and it is faithful. */
  lemma VarIntIsFaithful(n: nat, s: Buffer, overflowed: bool)
    ensures VARINT.write(n) == Leb(n) && ReadPrefix(VARINT, s, overflowed) == ReadVarUInt(s)
    ensures FaithfulPrefix(VARINT)
  {
    forall n: nat, rest | n < LIMIT32 ensures ReadLeb(Leb(n) + rest, 5, LIMIT32) == Some((n, |Leb(n)|)) {
      LebFits(n);
      LebRoundTrip(n, 5, LIMIT32, rest);
    }
  }

  lemma PrefixRoundTrip(p: Prefix, n: nat, rest: Buffer)
    requires FaithfulPrefix(p) && n < p.limit
    ensures ReadPrefix(p, p.write(n) + rest, false) == Some((n, rest))
  {
    assert (p.write(n) + rest)[|p.write(n)|..] == rest;
  }

  lemma LeafRoundTrip(c: LeafCodec, v: Value, rest: Buffer)
    requires FaithfulLeaf(c) && c.fits(v)
    ensures ReadLeaf(c, c.write(v) + rest, false) == Some((v, rest))
  {
    assert (c.write(v) + rest)[|c.write(v)|..] == rest;
  }

  lemma RawRoundTrip(s: Buffer, rest: Buffer)
    ensures ReadRaw(s + rest, |s|) == Some((s, rest))
  {
    assert (s + rest)[..|s|] == s && (s + rest)[|s|..] == rest;
  }

  lemma BitsRoundTripInStream(bits: seq<bool>, rest: Buffer)
    requires |bits| > 0
    ensures ReadBitset(WriteBits(bits) + rest, |bits|, false) == Some((bits, rest))
  {
    BitsetRoundTrip(bits, rest);
    assert (WriteBits(bits) + rest)[|WriteBits(bits)|..] == rest;
  }

  lemma Limits()
    ensures Pow2(32) == LIMIT32 && Pow2(64) == LIMIT64 && Pow2(31) == 0x8000_0000
  {
    PowersOfTwo();
    assert Pow2(28) * 8 == Pow2(31) by {
      assert Pow2(29) == 2 * Pow2(28) && Pow2(30) == 2 * Pow2(29);
    }
  }

  lemma SignedRange(x: int)
    ensures Signed(x, 32) <==> -0x8000_0000 <= x < 0x8000_0000
    ensures Signed(x, 64) <==> -0x8000_0000_0000_0000 <= x < 0x8000_0000_0000_0000
  {
    Limits();
    PowersOfTwo();
  }
}
