/** The reading stream: a view, a position and a sticky overflow flag that some readers consult
    and the others only set. */
module ReadOnlyBinaryStreams {
  import opened Bytes
  import opened Leb128
  import opened Bitset
  import opened WireFormat

  /** A read that starts with `before` as the overflow flag did what `expected` says: it
      returned that value and left that rest and the flag as it was, or it failed. */
  predicate Did<T(==)>(r: Option<T>, left: Buffer, overflowed: bool, expected: Option<(T, Buffer)>, before: bool)
  {
    match expected
    case None => r.None? && (before ==> overflowed)
    case Some((v, rest)) => r == Some(v) && left == rest && overflowed == before
  }

  class ReadOnlyBinaryStream {
    const view: Buffer
    var position: nat
    var overflowed: bool

    ghost predicate Valid()
      reads this
    {
      position <= |view|
    }

    function Left(): Buffer
      requires Valid()
      reads this
    {
      view[position..]
    }

    constructor (view: Buffer)
      ensures this.view == view && Valid() && Left() == view && !overflowed
    {
      this.view := view;
      position, overflowed := 0, false;
      new;
      assert view[0..] == view;
    }

    /** `read<T>` for a trivially copyable T of `width` bytes. */
    method ReadFixedWidth(width: nat) returns (r: Option<nat>)
      requires Valid()
      modifies this
      ensures Valid() && Did(r, Left(), overflowed, old(ReadFixed(Left(), width, overflowed)), old(overflowed))
      ensures r.None? ==> overflowed && position == old(position)
    {
      if overflowed {
        return None;
      }
      var newPosition := position + width;
      if newPosition > |view| {
        overflowed := true;
        return None;
      }
      assert view[position..newPosition] == Left()[..width] && view[newPosition..] == Left()[width..];
      var target := FromLittleEndian(view[position..newPosition]);
      position := newPosition;
      return Some(target);
    }

    /** `byte & 0x7F` is `% 128`, and `|=` of a payload shifted past the bits read so far is `+`. */
    method ReadUnsignedVarInt() returns (r: Option<nat>)
      requires Valid()
      modifies this
      ensures Valid() && Did(r, Left(), overflowed, old(ReadVarUInt(Left())), old(overflowed))
      ensures r.None? ==> overflowed
    {
      ghost var s, k := Left(), 0;
      var value, shift, more := 0, 0, true;
      while more
        invariant Valid() && position == old(position) + k && k <= |s| && shift == 7 * k
        invariant overflowed == old(overflowed)
        invariant more ==> Continues(s, k) && k <= 5 && (k < 5 ==> value == LebValue(s[..k]))
        invariant !more ==> ReadVarUInt(s) == Some((value, s[k..]))
        decreases more, |view| - position
      {
        if shift >= 35 {
          NoVar(s, k);
          overflowed := true;
          return None;
        }
        if position >= |view| {
          NoVar(s, k);
          overflowed := true;
          return None;
        }
        var b := view[position];
        position := position + 1;
        VarUIntByte(s, k);
        if shift == 28 && b < 128 && b / 16 % 8 != 0 {
          overflowed := true;
          return None;
        }
        value := (value + ShiftLeft(b % 128, shift)) % LIMIT32;
        shift := shift + 7;
        more := b >= 128;
        k := k + 1;
      }
      return Some(value);
    }

    method ReadUnsignedVarInt64() returns (r: Option<nat>)
      requires Valid()
      modifies this
      ensures Valid() && Did(r, Left(), overflowed, old(ReadVarUInt64(Left())), old(overflowed))
      ensures r.None? ==> overflowed
    {
      ghost var s, k := Left(), 0;
      var value, shift, more := 0, 0, true;
      while more
        invariant Valid() && position == old(position) + k && k <= |s| && shift == 7 * k
        invariant overflowed == old(overflowed)
        invariant more ==> Continues(s, k) && k <= 10 && (k < 10 ==> value == LebValue(s[..k]))
        invariant !more ==> ReadVarUInt64(s) == Some((value, s[k..]))
        decreases more, |view| - position
      {
        if shift >= 70 {
          NoVar(s, k);
          overflowed := true;
          return None;
        }
        if position >= |view| {
          NoVar(s, k);
          overflowed := true;
          return None;
        }
        var b := view[position];
        position := position + 1;
        VarUInt64Byte(s, k);
        if shift == 63 && b < 128 && b / 2 % 64 != 0 {
          overflowed := true;
          return None;
        }
        value := (value + ShiftLeft(b % 128, shift)) % LIMIT64;
        shift := shift + 7;
        more := b >= 128;
        k := k + 1;
      }
      return Some(value);
    }

    /** `~x` on an unsigned word is 2^n - 1 - x, and the result is reinterpreted as signed. */
    method ReadVarInt() returns (r: Option<int>)
      requires Valid()
      modifies this
      ensures Valid() && Did(r, Left(), overflowed, Decoded(old(ReadVarUInt(Left()))), old(overflowed))
      ensures r.None? ==> overflowed
    {
      var temp := ReadUnsignedVarInt();
      if temp.None? {
        return None;
      }
      Limits();
      Complement(temp.value, 32);
      return Some(ToSigned(if temp.value % 2 == 1 then LIMIT32 - 1 - temp.value / 2 else temp.value / 2, 32));
    }

    method ReadVarInt64() returns (r: Option<int>)
      requires Valid()
      modifies this
      ensures Valid() && Did(r, Left(), overflowed, Decoded(old(ReadVarUInt64(Left()))), old(overflowed))
      ensures r.None? ==> overflowed
    {
      var temp := ReadUnsignedVarInt64();
      if temp.None? {
        return None;
      }
      Limits();
      Complement(temp.value, 64);
      return Some(ToSigned(if temp.value % 2 == 1 then LIMIT64 - 1 - temp.value / 2 else temp.value / 2, 64));
    }

    method ReadRawBytes(length: nat) returns (r: Option<Buffer>)
      requires Valid()
      modifies this
      ensures Valid() && Did(r, Left(), overflowed, old(ReadRaw(Left(), length)), old(overflowed))
      ensures r.None? ==> overflowed && position == old(position)
    {
      if length == 0 {
        return Some([]);
      }
      var remaining := |view| - position;
      if length > remaining {
        overflowed := true;
        return None;
      }
      r := Some(view[position..position + length]);
      assert view[position..position + length] == Left()[..length] && view[position + length..] == Left()[length..];
      position := position + length;
    }

    /** Unlike the raw read this one fails on an overflowed stream, even for no bytes. */
    method ReadBytes(num: nat) returns (r: Option<Buffer>)
      requires Valid()
      modifies this
      ensures Valid() && Did(r, Left(), overflowed, if old(overflowed) then None else old(ReadRaw(Left(), num)),
                             old(overflowed))
      ensures r.None? ==> overflowed && position == old(position)
    {
      if overflowed {
        return None;
      }
      if num == 0 {
        return Some([]);
      }
      var newPointer := position + num;
      if newPointer > |view| {
        overflowed := true;
        return None;
      }
      r := Some(view[position..newPointer]);
      assert view[position..newPointer] == Left()[..num] && view[newPointer..] == Left()[num..];
      position := newPointer;
    }

    method ReadText() returns (r: Option<Buffer>)
      requires Valid()
      modifies this
      ensures Valid() && Did(r, Left(), overflowed, old(ReadString(Left())), old(overflowed))
      ensures r.None? ==> overflowed
    {
      var length := ReadUnsignedVarInt();
      if length.None? {
        return None;
      }
      r := ReadRawBytes(length.value);
    }

    method ReadLongText() returns (r: Option<Buffer>)
      requires Valid()
      modifies this
      ensures Valid() && Did(r, Left(), overflowed, old(ReadLongString(Left(), overflowed)), old(overflowed))
    {
      var length := ReadFixedWidth(4);
      if length.None? {
        return None;
      }
      if ToSigned(length.value, 32) < 0 {
        return None;
      }
      r := ReadRawBytes(ToSigned(length.value, 32));
    }

    /** Seven bits a byte; the loop's only other way out is a set of no bits. */
    method ReadBits(size: nat) returns (r: Option<seq<bool>>)
      requires Valid()
      modifies this
      ensures Valid() && Did(r, Left(), overflowed, old(ReadBitset(Left(), size, overflowed)), old(overflowed))
      ensures r.None? ==> overflowed
    {
      ghost var used;
      r, used := ReadChunks(size);
    }

    method ReadChunks(size: nat) returns (r: Option<seq<bool>>, ghost used: nat)
      requires Valid()
      modifies this
      ensures Valid()
      ensures r.None? ==> overflowed && (old(overflowed) || old(Bitset.ReadBits(Left(), size, true, false)) == None)
      ensures r.Some? ==> !old(overflowed) && !overflowed
      ensures r.Some? ==> used <= |old(Left())| && Left() == old(Left())[used..]
      ensures r.Some? ==> old(Bitset.ReadBits(Left(), size, true, false)) == Some((r.value, used))
    {
      var bits, chunkCount, seenSetBit, bitIndex := Zeros(size), 0, false, 0;
      ghost var s := Left();
      ghost var all := Bitset.ReadBits(s, size, true, false);
      NothingDone(all);
      assert bits[..0] == [];
      while bitIndex < size
        invariant Valid() && overflowed == old(overflowed) && chunkCount <= |s| && Left() == s[chunkCount..]
        invariant |bits| == size && (size == 0 ==> bitIndex == 0) && (size > 0 ==> bitIndex < size)
        invariant overflowed ==> chunkCount == 0
        invariant ClearFrom(bits, bitIndex)
        invariant Pending(all, bits, bitIndex, chunkCount, seenSetBit, Left())
        decreases size - bitIndex
      {
        var ok, more;
        ok, more, bits, chunkCount, seenSetBit := NextChunk(all, bits, bitIndex, chunkCount, seenSetBit);
        if !ok {
          return None, 0;
        }
        assert s[chunkCount - 1..][1..] == s[chunkCount..];
        if !more {
          return Some(bits), chunkCount;
        }
        bitIndex := bitIndex + 7;
      }
      overflowed := true;
      return None, 0;
    }

    /** One round of the loop, with what it means for the whole read. */
    method NextChunk(ghost all: Option<(seq<bool>, nat)>, bits0: seq<bool>, bitIndex: nat, chunkCount0: nat,
                     seenSetBit0: bool)
      returns (ok: bool, more: bool, bits: seq<bool>, chunkCount: nat, seenSetBit: bool)
      requires Valid() && bitIndex < |bits0| && ClearFrom(bits0, bitIndex)
      requires Pending(all, bits0, bitIndex, chunkCount0, seenSetBit0, Left())
      modifies this
      ensures Valid()
      ensures !ok ==> overflowed && (old(overflowed) || all == None)
      ensures ok ==> overflowed == old(overflowed) == false && chunkCount == chunkCount0 + 1 && |bits| == |bits0|
      ensures ok ==> old(Left()) != [] && Left() == old(Left())[1..]
      ensures ok && !more ==> all == Some((bits, chunkCount))
      ensures ok && more ==> bitIndex + 7 < |bits| && ClearFrom(bits, bitIndex + 7)
      ensures ok && more ==> Pending(all, bits, bitIndex + 7, chunkCount, seenSetBit, Left())
    {
      ok, more, bits, chunkCount, seenSetBit := ReadChunk(bits0, bitIndex, chunkCount0, seenSetBit0);
      if ok && more {
        OneMoreRead(all, bits, bitIndex, chunkCount, Bitset.ReadBits(Left(), |bits| - bitIndex - 7, false, seenSetBit));
      } else if ok {
        AllRead(all, bits, bitIndex, chunkCount);
      }
    }

    /** One round of the loop: `more` says that the byte was not the last one. */
    method ReadChunk(bits0: seq<bool>, bitIndex: nat, chunkCount0: nat, seenSetBit0: bool)
      returns (ok: bool, more: bool, bits: seq<bool>, chunkCount: nat, seenSetBit: bool)
      requires Valid() && bitIndex < |bits0| && ClearFrom(bits0, bitIndex)
      modifies this
      ensures Valid()
      ensures !ok ==> overflowed
      ensures !ok ==>
        (old(overflowed) || old(Bitset.ReadBits(Left(), |bits0| - bitIndex, chunkCount0 == 0, seenSetBit0)) == None)
      ensures ok ==> overflowed == old(overflowed) == false && chunkCount == chunkCount0 + 1
      ensures ok ==> old(Left()) != [] && Left() == old(Left())[1..]
      ensures ok ==> |bits| == |bits0| && bits[..bitIndex] == bits0[..bitIndex]
      ensures ok && !more ==>
        old(Bitset.ReadBits(Left(), |bits0| - bitIndex, chunkCount0 == 0, seenSetBit0)) == Some((bits[bitIndex..], 1))
      ensures ok && more ==> bitIndex + 7 < |bits| && ClearFrom(bits, bitIndex + 7)
      ensures ok && more ==>
        old(Bitset.ReadBits(Left(), |bits0| - bitIndex, chunkCount0 == 0, seenSetBit0))
        == Continued(bits[bitIndex..bitIndex + 7], 1, Bitset.ReadBits(Left(), |bits| - bitIndex - 7, false, seenSetBit))
    {
      ok, more, bits, chunkCount, seenSetBit := false, false, bits0, chunkCount0, seenSetBit0;
      ghost var s, n := Left(), |bits0| - bitIndex;
      var read := ReadFixedWidth(1);
      if read.None? {
        assert s != [] ==> old(overflowed);
        overflowed := true;
        return;
      }
      OneByte(s);
      var b: byte := read.value;
      chunkCount := chunkCount + 1;
      var length := BitLength8(b);
      if bitIndex + length > |bits| {
        TooManyBits(s, n, chunkCount0 == 0, seenSetBit0);
        overflowed := true;
        return;
      }
      var payload := Payload(b);
      if payload != 0 {
        seenSetBit := true;
      }
      bits := SetChunk(bits, bitIndex, b);
      ChunkSet(bits0, bits, bitIndex, BitsOf(payload, ChunkSize(n)));
      if b < 128 {
        LastChunk(s, n, chunkCount0 == 0, seenSetBit0);
        if !seenSetBit && chunkCount != 1 {
          overflowed := true;
          return;
        }
        if seenSetBit && payload == 0 {
          overflowed := true;
          return;
        }
        ok := true;
        return;
      }
      ChunkBeforeOthers(s, n, chunkCount0 == 0, seenSetBit0);
      ok, more := true, true;
    }

    // ----- Composition -----

    /** Reads a value: what the schema's reader callbacks do, one inside the other. */
    method ReadValue(sc: Schema) returns (r: Option<Value>)
      requires Valid()
      modifies this
      ensures Valid() && Did(r, Left(), overflowed, old(Read(sc, Left(), overflowed)), old(overflowed))
      decreases sc, 1
    {
      if sc.Array? {
        r := ReadArray(sc);
      } else if sc.Map? {
        r := ReadMap(sc);
      } else if sc.Optional? {
        r := ReadOptional(sc);
      } else if sc.Variant? {
        r := ReadVariant(sc);
      } else if sc.Record? {
        r := ReadRecord(sc);
      } else if sc.Leaf? {
        r := ReadByCodec(sc.codec);
      } else if sc.VarUInt? || sc.VarUInt64? || sc.VarInt? || sc.VarInt64? {
        r := ReadVarNumber(sc);
      } else {
        r := ReadPlain(sc);
      }
    }

    /** What a prefix callback does to the stream. */
    method ReadCount(prefix: Prefix) returns (r: Option<nat>)
      requires Valid()
      modifies this
      ensures Valid() && Did(r, Left(), overflowed, old(ReadPrefix(prefix, Left(), overflowed)), old(overflowed))
    {
      var read := prefix.read(Left(), overflowed);
      if read.None? || read.value.1 > |view| - position {
        return None;
      }
      assert view[position + read.value.1..] == Left()[read.value.1..];
      position := position + read.value.1;
      r := Some(read.value.0);
    }

    method ReadByCodec(codec: LeafCodec) returns (r: Option<Value>)
      requires Valid()
      modifies this
      ensures Valid() && Did(r, Left(), overflowed, old(ReadLeaf(codec, Left(), overflowed)), old(overflowed))
    {
      var read := codec.read(Left(), overflowed);
      if read.None? || read.value.1 > |view| - position {
        return None;
      }
      assert view[position + read.value.1..] == Left()[read.value.1..];
      position := position + read.value.1;
      r := Some(read.value.0);
    }

    method ReadPlain(sc: Schema) returns (r: Option<Value>)
      requires Valid()
      requires sc.Unsigned? || sc.SignedInt? || sc.Boolean? || sc.Bits? || sc.Text? || sc.LongText?
      modifies this
      ensures Valid() && Did(r, Left(), overflowed, old(Read(sc, Left(), overflowed)), old(overflowed))
    {
      match sc
      case Unsigned(width) => r := ReadNumber(width, false);
      case SignedInt(width) => if width == 0 { r := None; } else { r := ReadNumber(width, true); }
      case Boolean =>
        var u := ReadFixedWidth(1);
        r := if u.None? then None else Some(Truth(u.value != 0));
      case Bits(size) =>
        var bits := ReadBits(size);
        r := if bits.None? then None else Some(BitSet(bits.value));
      case Text =>
        var s := ReadText();
        r := if s.None? then None else Some(String(s.value));
      case LongText =>
        var s := ReadLongText();
        r := if s.None? then None else Some(String(s.value));
    }

    method ReadVarNumber(sc: Schema) returns (r: Option<Value>)
      requires Valid() && (sc.VarUInt? || sc.VarUInt64? || sc.VarInt? || sc.VarInt64?)
      modifies this
      ensures Valid() && Did(r, Left(), overflowed, old(Read(sc, Left(), overflowed)), old(overflowed))
    {
      if sc.VarUInt? || sc.VarUInt64? {
        var u;
        if sc.VarUInt? {
          u := ReadUnsignedVarInt();
        } else {
          u := ReadUnsignedVarInt64();
        }
        return if u.None? then None else Some(Number(u.value));
      }
      var n;
      if sc.VarInt? {
        n := ReadVarInt();
      } else {
        n := ReadVarInt64();
      }
      r := if n.None? then None else Some(Number(n.value));
    }

    method ReadNumber(width: nat, signed: bool) returns (r: Option<Value>)
      requires Valid() && (signed ==> width > 0)
      modifies this
      ensures Valid()
      ensures Did(r, Left(), overflowed,
                  old(Read(if signed then SignedInt(width) else Unsigned(width), Left(), overflowed)), old(overflowed))
    {
      var u := ReadFixedWidth(width);
      r := if u.None? then None else Some(Number(if signed then ToSigned(u.value, 8 * width) else u.value));
    }

    method ReadArray(sc: Schema) returns (r: Option<Value>)
      requires Valid() && sc.Array?
      modifies this
      ensures Valid() && Did(r, Left(), overflowed, old(Read(sc, Left(), overflowed)), old(overflowed))
      decreases sc, 0
    {
      var length := ReadCount(sc.prefix);
      if length.None? {
        return None;
      }
      ghost var all := ReadItems(sc, length.value, Left(), overflowed);
      var items: seq<Value> := [];
      NoItems(all);
      for i := 0 to length.value
        invariant Valid() && overflowed == old(overflowed)
        invariant all == ItemsContinued(items, ReadItems(sc, length.value - i, Left(), overflowed))
      {
        var item := ReadValue(sc.elem);
        if item.None? {
          return None;
        }
        OneMoreItem(items, item.value, ReadItems(sc, length.value - i - 1, Left(), overflowed));
        items := items + [item.value];
      }
      assert items + [] == items;
      r := Some(List(items));
    }

    method ReadMap(sc: Schema) returns (r: Option<Value>)
      requires Valid() && sc.Map?
      modifies this
      ensures Valid() && Did(r, Left(), overflowed, old(Read(sc, Left(), overflowed)), old(overflowed))
      decreases sc, 0, 2
    {
      var length := ReadCount(sc.prefix);
      if length.None? {
        return None;
      }
      var ok, entries := ReadAllEntries(sc, length.value);
      r := if ok then Some(Entries(entries)) else None;
    }

    method ReadAllEntries(sc: Schema, length: nat) returns (ok: bool, entries: seq<(Value, Value)>)
      requires Valid() && sc.Map?
      modifies this
      ensures Valid() && (if ok then overflowed == old(overflowed) else old(overflowed) ==> overflowed)
      ensures old(ReadEntries(sc, length, [], Left(), overflowed)) == if ok then Some((entries, Left())) else None
      decreases sc, 0, 1
    {
      ghost var all := ReadEntries(sc, length, [], Left(), overflowed);
      ok, entries := true, [];
      for i := 0 to length
        invariant Valid() && overflowed == old(overflowed) && ok
        invariant all == ReadEntries(sc, length - i, entries, Left(), overflowed)
      {
        entries, ok := ReadEntry(sc, length - i, entries);
        if !ok {
          return;
        }
      }
    }

    /** One entry, when `count` of them are still to be read. */
    method ReadEntry(sc: Schema, ghost count: nat, entries0: seq<(Value, Value)>)
      returns (entries: seq<(Value, Value)>, ok: bool)
      requires Valid() && sc.Map? && count > 0
      modifies this
      ensures Valid()
      ensures !ok ==> old(ReadEntries(sc, count, entries0, Left(), overflowed)) == None
      ensures !ok && old(overflowed) ==> overflowed
      ensures ok ==> overflowed == old(overflowed)
      ensures ok ==> old(ReadEntries(sc, count, entries0, Left(), overflowed))
                     == ReadEntries(sc, count - 1, entries, Left(), overflowed)
      decreases sc, 0, 0
    {
      var key := ReadValue(sc.key);
      if key.None? {
        return entries0, false;
      }
      var mapped := ReadValue(sc.mapped);
      if mapped.None? {
        return entries0, false;
      }
      return Emplace(entries0, key.value, mapped.value), true;
    }

    method ReadOptional(sc: Schema) returns (r: Option<Value>)
      requires Valid() && sc.Optional?
      modifies this
      ensures Valid() && Did(r, Left(), overflowed, old(Read(sc, Left(), overflowed)), old(overflowed))
      decreases sc, 0
    {
      var hasValue := ReadFixedWidth(1);
      if hasValue.None? {
        return None;
      }
      if hasValue.value == 0 {
        return Some(Absent);
      }
      var item := ReadValue(sc.elem);
      r := if item.None? then None else Some(Present(item.value));
    }

    /** An index outside the alternatives is refused before anything is read for it. */
    method ReadVariant(sc: Schema) returns (r: Option<Value>)
      requires Valid() && sc.Variant?
      modifies this
      ensures Valid() && Did(r, Left(), overflowed, old(Read(sc, Left(), overflowed)), old(overflowed))
      decreases sc, 0
    {
      var index := ReadCount(sc.prefix);
      if index.None? {
        return None;
      }
      if index.value >= |sc.alternatives| {
        return None;
      }
      var item := ReadValue(sc.alternatives[index.value]);
      r := if item.None? then None else Some(Case(index.value, item.value));
    }

    method ReadRecord(sc: Schema) returns (r: Option<Value>)
      requires Valid() && sc.Record?
      modifies this
      ensures Valid() && Did(r, Left(), overflowed, old(Read(sc, Left(), overflowed)), old(overflowed))
      decreases sc, 0
    {
      ghost var all := ReadFields(sc, 0, Left(), overflowed);
      var items: seq<Value> := [];
      NoItems(all);
      for i := 0 to |sc.fields|
        invariant Valid() && overflowed == old(overflowed)
        invariant all == ItemsContinued(items, ReadFields(sc, i, Left(), overflowed))
      {
        var item := ReadValue(sc.fields[i]);
        if item.None? {
          return None;
        }
        OneMoreItem(items, item.value, ReadFields(sc, i + 1, Left(), overflowed));
        items := items + [item.value];
      }
      assert items + [] == items;
      r := Some(Fields(items));
    }
  }

  // ----- The loops of the bitset reader -----

  lemma OneByte(s: Buffer)
    ensures s != [] ==> FromLittleEndian(s[..1]) == s[0]
  {
    if s != [] {
      assert s[..1][1..] == [];
    }
  }

  /** `all` is what is read already, followed by what a read of `left` gives. */
  ghost predicate Pending(all: Option<(seq<bool>, nat)>, bits: seq<bool>, bitIndex: nat, chunkCount: nat, seen: bool,
                          left: Buffer)
  {
    bitIndex <= |bits| &&
    all == Continued(bits[..bitIndex], chunkCount, Bitset.ReadBits(left, |bits| - bitIndex, chunkCount == 0, seen))
  }

  predicate ClearFrom(bits: seq<bool>, from: nat)
  {
    forall i :: from <= i < |bits| ==> !bits[i]
  }

  /** What a read gives after `done` has been read from `used` bytes. */
  function Continued(done: seq<bool>, used: nat, r: Option<(seq<bool>, nat)>): Option<(seq<bool>, nat)>
  {
    match r
    case None => None
    case Some((more, k)) => Some((done + more, used + k))
  }

  lemma NothingDone(r: Option<(seq<bool>, nat)>)
    ensures Continued([], 0, r) == r
  {
    if r.Some? {
      assert [] + r.value.0 == r.value.0;
    }
  }

  lemma OneMoreRead(all: Option<(seq<bool>, nat)>, bits: seq<bool>, bitIndex: nat, count: nat,
                    r: Option<(seq<bool>, nat)>)
    requires bitIndex + 7 <= |bits| && count > 0
    requires all == Continued(bits[..bitIndex], count - 1, Continued(bits[bitIndex..bitIndex + 7], 1, r))
    ensures all == Continued(bits[..bitIndex + 7], count, r)
  {
    if r.Some? {
      Reassociate(bits[..bitIndex], bits[bitIndex..bitIndex + 7], r.value.0);
      assert bits[..bitIndex + 7] == bits[..bitIndex] + bits[bitIndex..bitIndex + 7];
    }
  }

  lemma AllRead(all: Option<(seq<bool>, nat)>, bits: seq<bool>, bitIndex: nat, count: nat)
    requires bitIndex <= |bits| && count > 0
    requires all == Continued(bits[..bitIndex], count - 1, Some((bits[bitIndex..], 1)))
    ensures all == Some((bits, count))
  {
    SplitAt(bits, bitIndex);
  }

  lemma TooManyBits(s: Buffer, n: nat, first: bool, seen: bool)
    requires n > 0 && s != [] && BitLength(s[0]) > n
    ensures Bitset.ReadBits(s, n, first, seen) == None
  {
    BitLengthBounds(s[0], n);
  }

  lemma LastChunk(s: Buffer, n: nat, first: bool, seen: bool)
    requires n > 0 && s != [] && BitLength(s[0]) <= n && s[0] < 128
    ensures Bitset.ReadBits(s, n, first, seen)
         == if (seen || !first) && s[0] == 0 then None
            else Some((BitsOf(s[0], ChunkSize(n)) + Zeros(n - ChunkSize(n)), 1))
  {
    BitLengthBounds(s[0], n);
  }

  /** A byte that says more follows leaves more to read, so the loop never runs out of bits. */
  lemma ChunkBeforeOthers(s: Buffer, n: nat, first: bool, seen: bool)
    requires n > 0 && s != [] && BitLength(s[0]) <= n && s[0] >= 128
    ensures n >= 8
    ensures Bitset.ReadBits(s, n, first, seen)
         == Continued(BitsOf(s[0] - 128, 7), 1, Bitset.ReadBits(s[1..], n - 7, false, seen || s[0] != 128))
  {
    BitLengthBounds(s[0], n);
    PowersUpTo8(n);
  }

  /** Where the chunk is in the bits after it was set. */
  lemma ChunkSet(before: seq<bool>, after: seq<bool>, bitIndex: nat, chunk: seq<bool>)
    requires bitIndex + |chunk| <= |before|
    requires ClearFrom(before, bitIndex)
    requires after == before[..bitIndex] + chunk + before[bitIndex + |chunk|..]
    ensures |after| == |before| && after[..bitIndex] == before[..bitIndex]
    ensures after[bitIndex..bitIndex + |chunk|] == chunk
    ensures ClearFrom(after, bitIndex + |chunk|)
    ensures after[bitIndex..] == chunk + Zeros(|before| - bitIndex - |chunk|)
  {
  }

  /** `byte & 0x7F`. */
  function Payload(b: byte): byte
  {
    if b < 128 then b else b - 128
  }

  method BitLength8(b: byte) returns (length: nat)
    ensures length == BitLength(b)
  {
    var value := b;
    length := 0;
    while value != 0
      invariant length + BitLength(value) == BitLength(b)
    {
      value := value / 2;
      length := length + 1;
    }
  }

  /** Sets the bits from `bitIndex` on to the byte's payload; the others stay as they were. */
  method SetChunk(bits: seq<bool>, bitIndex: nat, b: byte) returns (r: seq<bool>)
    requires bitIndex < |bits| && BitLength(b) <= |bits| - bitIndex
    ensures var c := ChunkSize(|bits| - bitIndex);
            r == bits[..bitIndex] + BitsOf(Payload(b), c) + bits[bitIndex + c..]
  {
    ghost var c := ChunkSize(|bits| - bitIndex);
    ghost var payload := BitsOf(Payload(b), c);
    r := bits;
    for i := 0 to 7
      invariant |r| == |bits|
      invariant forall j :: 0 <= j < |bits| ==>
        r[j] == if bitIndex <= j < bitIndex + i && j < bitIndex + c then payload[j - bitIndex] else bits[j]
    {
      var currentBit := bitIndex + i;
      if currentBit < |r| {
        PayloadBit(b, |bits| - bitIndex, i);
        r := r[currentBit := b / Pow2(i) % 2 != 0];
      }
    }
  }

  /** The mask takes the same bit from the byte as from its payload. */
  lemma PayloadBit(b: byte, n: nat, i: nat)
    requires i < 7 && i < n && BitLength(b) <= n
    ensures BitsOf(Payload(b), ChunkSize(n))[i] == (b / Pow2(i) % 2 != 0)
  {
    BitLengthBounds(b, n);
    PowersUpTo8(n);
    PowersUpTo8(ChunkSize(n));
    BitOfAt(Payload(b), ChunkSize(n), i);
    if b >= 128 {
      TopBitIsFar(b - 128, i, 8);
    }
  }

  lemma TopBitIsFar(low: nat, i: nat, n: nat)
    requires i + 1 < n
    ensures (low + Pow2(n - 1)) / Pow2(i) % 2 == low / Pow2(i) % 2
  {
    TopIsEvenMultiple(n, i);
    EvenShift(low, Pow2(i), Pow2(n - 2 - i));
  }

  /** What a read of items gives after `done` has been read. */
  function ItemsContinued(done: seq<Value>, r: Option<(seq<Value>, Buffer)>): Option<(seq<Value>, Buffer)>
  {
    match r
    case None => None
    case Some((items, rest)) => Some((done + items, rest))
  }

  lemma NoItems(r: Option<(seq<Value>, Buffer)>)
    ensures ItemsContinued([], r) == r
  {
    if r.Some? {
      assert [] + r.value.0 == r.value.0;
    }
  }

  lemma OneMoreItem(done: seq<Value>, item: Value, r: Option<(seq<Value>, Buffer)>)
    ensures ItemsContinued(done, ItemsContinued([item], r)) == ItemsContinued(done + [item], r)
  {
    if r.Some? {
      Reassociate(done, [item], r.value.0);
    }
  }

  function Decoded(r: Option<(nat, Buffer)>): Option<(int, Buffer)>
  {
    match r
    case None => None
    case Some((u, rest)) => Some((UnZigZag(u), rest))
  }

  lemma Complement(u: nat, bits: nat)
    requires bits > 0 && u < Pow2(bits)
    ensures UnZigZag(u) == ToSigned(if u % 2 == 1 then Pow2(bits) - 1 - u / 2 else u / 2, bits)
  {
    assert Pow2(bits) == 2 * Pow2(bits - 1);
  }

  /** The bits of a byte's payload above the lowest `r`. */
  lemma HighBits(b: byte)
    requires b < 128
    ensures b / 16 % 8 == 0 <==> b % 128 < Pow2(4)
    ensures b / 2 % 64 == 0 <==> b % 128 < Pow2(1)
  {
    assert Pow2(4) == 16;
  }

  /** A byte before the last one always fits. */
  lemma FullByteFits(low: nat, b: byte, k: nat, bits: nat)
    requires low < Pow2(7 * k) && 7 * k + 7 <= bits
    ensures low + ShiftLeft(b % 128, 7 * k) < Pow2(bits)
  {
    PowersUpTo8(7);
    ShiftFits(low, b % 128, 7 * k, 7);
    Pow2Monotone(7 * k + 7, bits);
  }

  /** The first four bytes always fit in 32 bits; the fifth fits if only its low four bits are set. */
  lemma TopBits32(low: nat, b: byte, k: nat, bits: nat)
    requires low < Pow2(7 * k) && k <= 4 && bits == 32
    ensures k < 4 ==> low + ShiftLeft(b % 128, 7 * k) < Pow2(bits)
    ensures k == 4 && b < 128 ==> (b / 16 % 8 == 0 <==> low + ShiftLeft(b % 128, 7 * k) < Pow2(bits))
  {
    if k < 4 {
      FullByteFits(low, b, k, bits);
    } else if b < 128 {
      HighBits(b);
      ShiftFits(low, b % 128, 7 * k, 4);
    }
  }

  /** The first nine bytes always fit in 64 bits; the tenth fits if it is 0 or 1. */
  lemma TopBits64(low: nat, b: byte, k: nat, bits: nat)
    requires low < Pow2(7 * k) && k <= 9 && bits == 64
    ensures k < 9 ==> low + ShiftLeft(b % 128, 7 * k) < Pow2(bits)
    ensures k == 9 && b < 128 ==> (b / 2 % 64 == 0 <==> low + ShiftLeft(b % 128, 7 * k) < Pow2(bits))
  {
    if k < 9 {
      FullByteFits(low, b, k, bits);
    } else if b < 128 {
      HighBits(b);
      ShiftFits(low, b % 128, 7 * k, 1);
    }
  }

  lemma NoVar(s: Buffer, k: nat)
    requires Continues(s, k)
    ensures k == 5 || (k == |s| && k <= 5) ==> ReadVarUInt(s) == None
    ensures k == 10 || (k == |s| && k <= 10) ==> ReadVarUInt64(s) == None
  {
    if k == 5 || (k == |s| && k <= 5) {
      NoEndWithin(s, k, 5);
    }
    if k == 10 || (k == |s| && k <= 10) {
      NoEndWithin(s, k, 10);
    }
  }

  /** The value after one more byte, and when it still fits. */
  lemma ReadVarUIntValue(s: Buffer, k: nat)
    requires Continues(s, k) && k < |s| && k <= 4
    ensures (LebValue(s[..k]) + ShiftLeft(s[k] % 128, 7 * k)) % LIMIT32 == LebValue(s[..k + 1]) % LIMIT32
    ensures k < 4 ==> LebValue(s[..k + 1]) < LIMIT32
    ensures k == 4 && s[k] < 128 ==> (s[k] / 16 % 8 == 0 <==> LebValue(s[..k + 1]) < LIMIT32)
  {
    NextByte(s, k);
    Limits();
    TopBits32(LebValue(s[..k]), s[k], k, 32);
  }

  /** One byte of the reader's loop, after `k` bytes that all continue. */
  lemma ReadVarUIntStep(s: Buffer, k: nat)
    requires Continues(s, k) && k < |s| && k <= 4
    ensures s[k] >= 128 ==> Continues(s, k + 1)
    ensures s[k] < 128 ==>
      ReadVarUInt(s) == if LebValue(s[..k + 1]) < LIMIT32 then Some((LebValue(s[..k + 1]), s[k + 1..])) else None
  {
    if s[k] < 128 {
      LastByteEnds(s, k);
      LebPrefixIsLeb(s, 5, k + 1);
    }
  }

  /** The value after one more byte, and when it still fits. */
  lemma ReadVarUInt64Value(s: Buffer, k: nat)
    requires Continues(s, k) && k < |s| && k <= 9
    ensures (LebValue(s[..k]) + ShiftLeft(s[k] % 128, 7 * k)) % LIMIT64 == LebValue(s[..k + 1]) % LIMIT64
    ensures k < 9 ==> LebValue(s[..k + 1]) < LIMIT64
    ensures k == 9 && s[k] < 128 ==> (s[k] / 2 % 64 == 0 <==> LebValue(s[..k + 1]) < LIMIT64)
  {
    NextByte(s, k);
    Limits();
    TopBits64(LebValue(s[..k]), s[k], k, 64);
  }

  /** One byte of the reader's loop, after `k` bytes that all continue. */
  lemma ReadVarUInt64Step(s: Buffer, k: nat)
    requires Continues(s, k) && k < |s| && k <= 9
    ensures s[k] >= 128 ==> Continues(s, k + 1)
    ensures s[k] < 128 ==>
      ReadVarUInt64(s) == if LebValue(s[..k + 1]) < LIMIT64 then Some((LebValue(s[..k + 1]), s[k + 1..])) else None
  {
    if s[k] < 128 {
      LastByteEnds(s, k);
      LebPrefixIsLeb(s, 10, k + 1);
    }
  }

  /** What one round of the reader's loop does, after `k` bytes that all continue. */
  lemma VarUIntByte(s: Buffer, k: nat)
    requires Continues(s, k) && k < |s| && k <= 4
    ensures k < 4 || (s[k] < 128 && s[k] / 16 % 8 == 0) ==>
      (LebValue(s[..k]) + ShiftLeft(s[k] % 128, 7 * k)) % LIMIT32 == LebValue(s[..k + 1])
    ensures s[k] >= 128 ==> Continues(s, k + 1)
    ensures s[k] < 128 ==>
      ReadVarUInt(s) == if k == 4 && s[k] / 16 % 8 != 0 then None else Some((LebValue(s[..k + 1]), s[k + 1..]))
  {
    ReadVarUIntValue(s, k);
    ReadVarUIntStep(s, k);
  }

  /** What one round of the reader's loop does, after `k` bytes that all continue. */
  lemma VarUInt64Byte(s: Buffer, k: nat)
    requires Continues(s, k) && k < |s| && k <= 9
    ensures k < 9 || (s[k] < 128 && s[k] / 2 % 64 == 0) ==>
      (LebValue(s[..k]) + ShiftLeft(s[k] % 128, 7 * k)) % LIMIT64 == LebValue(s[..k + 1])
    ensures s[k] >= 128 ==> Continues(s, k + 1)
    ensures s[k] < 128 ==>
      ReadVarUInt64(s) == if k == 9 && s[k] / 2 % 64 != 0 then None else Some((LebValue(s[..k + 1]), s[k + 1..]))
  {
    ReadVarUInt64Value(s, k);
    ReadVarUInt64Step(s, k);
  }
}
