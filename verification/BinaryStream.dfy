/** The writing stream: it appends to a buffer. */
module BinaryStreams {
  import opened Bytes
  import opened Leb128
  import opened Bitset
  import opened WireFormat

  class BinaryStream {
    var buffer: Buffer

    constructor ()
      ensures buffer == []
    {
      buffer := [];
    }

    method WriteByte(b: byte)
      modifies this
      ensures buffer == old(buffer) + [b]
    {
      buffer := buffer + [b];
    }

    method WriteBytes(s: Buffer)
      modifies this
      ensures buffer == old(buffer) + s
    {
      if s == [] {
        return;
      }
      buffer := buffer + s;
    }

    /** `value & 0x7F` is `% 128`, `>>= 7` is `/ 128`, and `|= 0x80` on a byte below 128 adds 128. */
    method WriteUnsignedVarInt(value: nat)
      requires value < LIMIT32
      modifies this
      ensures buffer == old(buffer) + Leb(value)
    {
      var uvalue, more := value, true;
      ghost var goal := buffer + Leb(value);
      while more
        invariant goal == if more then buffer + Leb(uvalue) else buffer
        decreases more, uvalue
      {
        NextLebByte(buffer, uvalue);
        var next: byte := uvalue % 128;
        uvalue := uvalue / 128;
        if uvalue != 0 {
          next := next + 128;
        }
        WriteByte(next);
        more := uvalue != 0;
      }
    }

    method WriteUnsignedVarInt64(value: nat)
      requires value < LIMIT64
      modifies this
      ensures buffer == old(buffer) + Leb(value)
    {
      var uvalue, more := value, true;
      ghost var goal := buffer + Leb(value);
      while more
        invariant goal == if more then buffer + Leb(uvalue) else buffer
        decreases more, uvalue
      {
        NextLebByte(buffer, uvalue);
        var next: byte := uvalue % 128;
        uvalue := uvalue / 128;
        if uvalue != 0 {
          next := next + 128;
        }
        WriteByte(next);
        more := uvalue != 0;
      }
    }

    /** `~value` is `-value - 1`, and the shift loses no bit of it. */
    method WriteVarInt(value: int)
      requires Signed(value, 32)
      modifies this
      ensures buffer == old(buffer) + Leb(ZigZag(value))
    {
      SignedRange(value);
      if value >= 0 {
        WriteUnsignedVarInt(2 * value);
      } else {
        WriteUnsignedVarInt(2 * (-value - 1) + 1);
      }
    }

    method WriteVarInt64(value: int)
      requires Signed(value, 64)
      modifies this
      ensures buffer == old(buffer) + Leb(ZigZag(value))
    {
      SignedRange(value);
      if value >= 0 {
        WriteUnsignedVarInt64(2 * value);
      } else {
        WriteUnsignedVarInt64(2 * (-value - 1) + 1);
      }
    }

    /** The length is cast to 32 bits; the bytes are written whole. */
    method WriteString(s: Buffer)
      modifies this
      ensures buffer == old(buffer) + Leb(|s| % LIMIT32) + s
    {
      WriteUnsignedVarInt(|s| % LIMIT32);
      if s != [] {
        buffer := buffer + s;
      }
    }

    method WriteLongString(s: Buffer)
      modifies this
      ensures buffer == old(buffer) + LittleEndian(|s| % LIMIT32, 4) + s
    {
      WriteBytes(LittleEndian(|s| % LIMIT32, 4));
      if s != [] {
        buffer := buffer + s;
      }
    }

    method WriteBitset(bits: seq<bool>)
      modifies this
      ensures buffer == old(buffer) + WriteBits(bits)
    {
      var any := HasSetBit(bits, 0);
      assert bits[0..] == bits;
      if !any {
        NothingSet(bits);
        WriteByte(0);
        return;
      }
      var bitIndex, more := 0, true;
      ghost var written: Buffer := [];
      while more
        invariant 0 <= bitIndex <= |bits|
        invariant buffer == old(buffer) + written
        invariant WriteBits(bits) == if more then written + WriteBits(bits[bitIndex..]) else written
        decreases more, |bits| - bitIndex
      {
        ghost var b: byte;
        b, more := WriteChunk(bits, bitIndex);
        Reassociate(old(buffer), written, [b]);
        if more {
          Reassociate(written, [b], WriteBits(bits[bitIndex + 7..]));
          bitIndex := bitIndex + 7;
        }
        written := written + [b];
      }
    }

    /** One round of the loop: the byte for seven bits, and whether a higher bit is set. */
    method WriteChunk(bits: seq<bool>, bitIndex: nat) returns (ghost written: byte, more: bool)
      requires bitIndex <= |bits|
      modifies this
      ensures buffer == old(buffer) + [written]
      ensures more ==> bitIndex + 7 <= |bits|
      ensures WriteBits(bits[bitIndex..]) == if more then [written] + WriteBits(bits[bitIndex + 7..]) else [written]
    {
      var b := ChunkByte(bits, bitIndex);
      more := HasSetBit(bits, bitIndex + 7);
      HigherBits(bits, bitIndex);
      if more {
        b := b + 128;
      }
      WriteByte(b);
      written := b;
    }

    // ----- Composition -----

    /** Writes a value: what the schema's writer callbacks do, one inside the other. */
    method WriteValue(sc: Schema, v: Value)
      requires HasType(v, sc)
      modifies this
      ensures buffer == old(buffer) + Write(sc, v)
      decreases sc, 1
    {
      if sc.Array? {
        WriteArray(sc, v.items);
      } else if sc.Map? {
        WriteMap(sc, v.entries);
      } else if sc.Optional? {
        WriteOptional(sc, v);
      } else if sc.Variant? {
        WriteCount(sc.prefix, v.index);
        WriteValue(sc.alternatives[v.index], v.item);
        Reassociate(old(buffer), sc.prefix.write(v.index), Write(sc.alternatives[v.index], v.item));
      } else if sc.Record? {
        WriteRecord(sc, v.items);
      } else if sc.Leaf? {
        buffer := buffer + sc.codec.write(v);
      } else if sc.Unsigned? {
        WriteBytes(LittleEndian(v.n, sc.width));
      } else if sc.SignedInt? {
        WriteBytes(LittleEndian(ToUnsigned(v.n, 8 * sc.width), sc.width));
      } else if sc.Boolean? {
        WriteByte(if v.b then 1 else 0);
      } else if sc.VarUInt? {
        WriteUnsignedVarInt(v.n);
      } else if sc.VarUInt64? {
        WriteUnsignedVarInt64(v.n);
      } else if sc.VarInt? {
        WriteVarInt(v.n);
      } else if sc.VarInt64? {
        WriteVarInt64(v.n);
      } else if sc.Bits? {
        WriteBitset(v.bits);
      } else {
        WriteShortOrLongText(sc, v);
      }
    }

    method WriteShortOrLongText(sc: Schema, v: Value)
      requires HasType(v, sc) && (sc.Text? || sc.LongText?)
      modifies this
      ensures buffer == old(buffer) + Write(sc, v)
    {
      NotTruncated(|v.s|);
      if sc.Text? {
        WriteString(v.s);
        Reassociate(old(buffer), Leb(|v.s|), v.s);
      } else {
        WriteLongString(v.s);
        Reassociate(old(buffer), LittleEndian(|v.s|, 4), v.s);
      }
    }

    /** A count or an index, cast to the prefix type. */
    method WriteCount(prefix: Prefix, n: nat)
      requires n < prefix.limit
      modifies this
      ensures buffer == old(buffer) + prefix.write(n)
    {
      buffer := buffer + prefix.write(n % prefix.limit);
    }

    method WriteOptional(sc: Schema, v: Value)
      requires sc.Optional? && HasType(v, sc)
      modifies this
      ensures buffer == old(buffer) + Write(sc, v)
      decreases sc, 0
    {
      WriteByte(if v.Present? then 1 else 0);
      if v.Present? {
        WriteValue(sc.elem, v.item);
        Reassociate(old(buffer), [1], Write(sc.elem, v.item));
      }
    }

    method WriteArray(sc: Schema, items: seq<Value>)
      requires sc.Array? && HasType(List(items), sc)
      modifies this
      ensures buffer == old(buffer) + (sc.prefix.write(|items|) + WriteItems(sc, items))
      decreases sc, 0
    {
      WriteCount(sc.prefix, |items|);
      Reassociate(old(buffer), sc.prefix.write(|items|), WriteItems(sc, items));
      assert items[0..] == items;
      for i := 0 to |items|
        invariant buffer + WriteItems(sc, items[i..])
             == old(buffer) + (sc.prefix.write(|items|) + WriteItems(sc, items))
      {
        ghost var before := buffer;
        WriteValue(sc.elem, items[i]);
        assert items[i..][1..] == items[i + 1..];
        Reassociate(before, Write(sc.elem, items[i]), WriteItems(sc, items[i + 1..]));
      }
    }

    method WriteMap(sc: Schema, entries: seq<(Value, Value)>)
      requires sc.Map? && HasType(Entries(entries), sc)
      modifies this
      ensures buffer == old(buffer) + (sc.prefix.write(|entries|) + WriteEntries(sc, entries))
      decreases sc, 0
    {
      WriteCount(sc.prefix, |entries|);
      Reassociate(old(buffer), sc.prefix.write(|entries|), WriteEntries(sc, entries));
      assert entries[0..] == entries;
      for i := 0 to |entries|
        invariant buffer + WriteEntries(sc, entries[i..])
             == old(buffer) + (sc.prefix.write(|entries|) + WriteEntries(sc, entries))
      {
        ghost var before, key, mapped := buffer, Write(sc.key, entries[i].0), Write(sc.mapped, entries[i].1);
        WriteValue(sc.key, entries[i].0);
        WriteValue(sc.mapped, entries[i].1);
        assert entries[i..][1..] == entries[i + 1..];
        Reassociate(before, key, mapped);
        Reassociate(before, key + mapped, WriteEntries(sc, entries[i + 1..]));
      }
    }

    method WriteRecord(sc: Schema, items: seq<Value>)
      requires sc.Record? && HasType(Fields(items), sc)
      modifies this
      ensures buffer == old(buffer) + WriteFields(sc, items, 0)
      decreases sc, 0
    {
      for i := 0 to |items|
        invariant buffer + WriteFields(sc, items, i) == old(buffer) + WriteFields(sc, items, 0)
      {
        ghost var before := buffer;
        WriteValue(sc.fields[i], items[i]);
        Reassociate(before, Write(sc.fields[i], items[i]), WriteFields(sc, items, i + 1));
      }
    }
  }

  lemma NotTruncated(n: nat)
    requires n < LIMIT32
    ensures n % LIMIT32 == n
  {
  }

  lemma NextLebByte(written: Buffer, v: nat)
    ensures v < 128 ==> written + Leb(v) == written + [v]
    ensures v >= 128 ==> written + Leb(v) == (written + [v % 128 + 128]) + Leb(v / 128)
  {
    if v >= 128 {
      Reassociate(written, [v % 128 + 128], Leb(v / 128));
    }
  }

  /** The seven bits from `bitIndex` on as a byte; bits past the end count as clear. */
  method ChunkByte(bits: seq<bool>, bitIndex: nat) returns (b: byte)
    requires bitIndex <= |bits|
    ensures b == BitsValue(bits[bitIndex..][..ChunkSize(|bits| - bitIndex)]) && b < 128
  {
    ghost var left, c := bits[bitIndex..], ChunkSize(|bits| - bitIndex);
    PowersUpTo8(7);
    var v := 0;
    for i := 0 to 7
      invariant v == BitsValue(left[..if i < c then i else c]) && v < Pow2(i)
    {
      var currentBit := bitIndex + i;
      if currentBit < |bits| && bits[currentBit] {
        v := v + Pow2(i);
      }
      assert i < c ==> left[..i + 1][..i] == left[..i] && left[i] == bits[currentBit];
      assert Pow2(i + 1) == 2 * Pow2(i);
    }
    b := v;
  }

  /** The scan for a set bit from `from` on. */
  method HasSetBit(bits: seq<bool>, from: nat) returns (found: bool)
    ensures found <==> from <= |bits| && Any(bits[from..])
  {
    var i := from;
    found := false;
    if from <= |bits| {
      AnyMeansSome(bits[from..]);
    }
    while i < |bits|
      invariant from <= i && (from <= |bits| ==> i <= |bits|)
      invariant forall j :: from <= j < i && j < |bits| ==> !bits[j]
    {
      if bits[i] {
        assert bits[from..][i - from];
        return true;
      }
      i := i + 1;
    }
    assert from <= |bits| ==> forall j :: 0 <= j < |bits[from..]| ==> bits[from..][j] == bits[from + j];
  }

  lemma NothingSet(bits: seq<bool>)
    requires !Any(bits)
    ensures WriteBits(bits) == [0]
  {
    var chunk, tail := bits[..ChunkSize(|bits|)], bits[ChunkSize(|bits|)..];
    SplitAt(bits, ChunkSize(|bits|));
    AnyOfConcat(chunk, tail);
    NoBitsNoValue(chunk);
  }

  /** What the writer makes of the bits from `bitIndex` on. */
  lemma HigherBits(bits: seq<bool>, bitIndex: nat)
    requires bitIndex <= |bits|
    ensures var v := BitsValue(bits[bitIndex..][..ChunkSize(|bits| - bitIndex)]);
            WriteBits(bits[bitIndex..]) == if bitIndex + 7 <= |bits| && Any(bits[bitIndex + 7..])
                                           then [v + 128] + WriteBits(bits[bitIndex + 7..]) else [v]
  {
    var left := bits[bitIndex..];
    var c := ChunkSize(|left|);
    SplitAt(left, c);
    WrittenChunk(left[..c], left[c..]);
    if c == 7 {
      assert left[7..] == bits[bitIndex + 7..];
    }
  }
}
