/** What the readers accept, said without the readers: the bytes of each kind of value, and what is
    refused. */
module WireAccepts {
  import opened Bytes
  import opened Leb128
  import opened Bitset
  import opened WireFormat

  // ----- Numbers -----

  /** Byte number k of a fixed-width number is its k-th byte from the least significant end. */
  lemma {:induction false} LittleEndianDigit(n: nat, width: nat, k: nat)
    requires k < width
    ensures LittleEndian(n, width)[k] == Shifted(n, k) % 256
    decreases k
  {
    if k > 0 {
      LittleEndianDigit(n / 256, width - 1, k - 1);
    }
  }

  /** `n` shifted right by k bytes. */
  function Shifted(n: nat, k: nat): nat
  {
    if k == 0 then n else Shifted(n / 256, k - 1)
  }

  lemma {:induction false} LittleEndianInverse(s: Buffer)
    ensures FromLittleEndian(s) < Pow2(8 * |s|) && LittleEndian(FromLittleEndian(s), |s|) == s
  {
    if s != [] {
      LittleEndianInverse(s[1..]);
      Pow2Plus8(8 * |s[1..]|);
      assert s == [s[0]] + s[1..];
      assert FromLittleEndian(s) % 256 == s[0] && FromLittleEndian(s) / 256 == FromLittleEndian(s[1..]);
    }
  }

  /** A fixed-width read succeeds exactly on the little-endian bytes of its result, and never on a
      stream that has overflowed. */
  lemma FixedAccepts(s: Buffer, width: nat, overflowed: bool, n: nat, rest: Buffer)
    ensures ReadFixed(s, width, overflowed) == Some((n, rest)) <==>
            !overflowed && n < Pow2(8 * width) && s == LittleEndian(n, width) + rest
  {
    if !overflowed && n < Pow2(8 * width) && s == LittleEndian(n, width) + rest {
      FixedRoundTrip(n, width, rest);
    }
    if ReadFixed(s, width, overflowed) == Some((n, rest)) {
      LittleEndianInverse(s[..width]);
      SplitAt(s, width);
    }
  }

  /** `h` is a LEB128 string of at most `max` bytes for `v`, which is below `limit`. */
  predicate LebFor(h: Buffer, v: nat, max: nat, limit: nat)
  {
    IsLeb(h) && |h| <= max && LebValue(h) == v && v < limit
  }

  /** A varint read succeeds exactly on some LEB128 string for its result, shortest or not. */
  lemma VarAccepts(s: Buffer, max: nat, limit: nat, v: nat, rest: Buffer)
    ensures ReadVar(s, max, limit) == Some((v, rest)) <==> exists h :: LebFor(h, v, max, limit) && s == h + rest
  {
    if ReadVar(s, max, limit) == Some((v, rest)) {
      var k := LebPrefix(s, max);
      ReadLebAccepts(s, max, limit, v, k);
      SplitAt(s, k);
      assert LebFor(s[..k], v, max, limit);
    }
    forall h | LebFor(h, v, max, limit) && s == h + rest ensures ReadVar(s, max, limit) == Some((v, rest)) {
      assert s[..|h|] == h && s[|h|..] == rest;
      ReadLebAccepts(s, max, limit, v, |h|);
    }
  }

  /** 32-bit varints take at most five bytes, 64-bit ones at most ten. */
  lemma VarUIntsAccept(s: Buffer, v: nat, rest: Buffer)
    ensures ReadVarUInt(s) == Some((v, rest)) <==> exists h :: LebFor(h, v, 5, 0x1_0000_0000) && s == h + rest
    ensures ReadVarUInt64(s) == Some((v, rest)) <==>
            exists h :: LebFor(h, v, 10, 0x1_0000_0000_0000_0000) && s == h + rest
  {
    VarAccepts(s, 5, LIMIT32, v, rest);
    VarAccepts(s, 10, LIMIT64, v, rest);
  }

  // ----- Bytes and strings -----

  /** A raw read of `length` bytes succeeds exactly if that many are left, and gives those. */
  lemma RawAccepts(s: Buffer, length: nat, v: Buffer, rest: Buffer)
    ensures ReadRaw(s, length) == Some((v, rest)) <==> |v| == length && s == v + rest
    ensures ReadRaw(s, length) == None <==> |s| < length
  {
    if |v| == length && s == v + rest {
      RawRoundTrip(v, rest);
    }
    if ReadRaw(s, length) == Some((v, rest)) {
      SplitAt(s, length);
    }
  }

  /** A string is read exactly if the buffer is a varint for its length, all of its bytes, and the rest. */
  lemma StringAccepts(s: Buffer, v: Buffer, rest: Buffer)
    ensures ReadString(s) == Some((v, rest)) <==> exists h :: LebFor(h, |v|, 5, LIMIT32) && s == h + (v + rest)
  {
    if ReadString(s) == Some((v, rest)) {
      var length, tail := ReadVarUInt(s).value.0, ReadVarUInt(s).value.1;
      VarAccepts(s, 5, LIMIT32, length, tail);
      RawAccepts(tail, length, v, rest);
      var h :| LebFor(h, length, 5, LIMIT32) && s == h + tail;
      assert LebFor(h, |v|, 5, LIMIT32) && s == h + (v + rest);
    }
    forall h | LebFor(h, |v|, 5, LIMIT32) && s == h + (v + rest) ensures ReadString(s) == Some((v, rest)) {
      VarAccepts(s, 5, LIMIT32, |v|, v + rest);
      RawAccepts(v + rest, |v|, v, rest);
    }
  }

  /** A string whose bytes are not all there is refused. */
  lemma TruncatedStringIsRefused(h: Buffer, length: nat, tail: Buffer)
    requires LebFor(h, length, 5, LIMIT32) && |tail| < length
    ensures ReadString(h + tail) == None
  {
    VarAccepts(h + tail, 5, LIMIT32, length, tail);
  }

  /** The same for a string behind a 32-bit signed length, which is refused from 2^31 on. */
  lemma LongStringAccepts(s: Buffer, overflowed: bool, v: Buffer, rest: Buffer)
    ensures ReadLongString(s, overflowed) == Some((v, rest)) <==>
            !overflowed && |v| < 0x8000_0000 && s == LittleEndian(|v|, 4) + (v + rest)
  {
    Limits();
    if ReadLongString(s, overflowed) == Some((v, rest)) {
      var length, tail := ReadFixed(s, 4, overflowed).value.0, ReadFixed(s, 4, overflowed).value.1;
      FixedAccepts(s, 4, overflowed, length, tail);
      assert length < Pow2(32);
      RawAccepts(tail, length, v, rest);
    }
    if !overflowed && |v| < 0x8000_0000 && s == LittleEndian(|v|, 4) + (v + rest) {
      FixedAccepts(s, 4, overflowed, |v|, v + rest);
      RawAccepts(v + rest, |v|, v, rest);
    }
  }

  /** A negative length - the top bit of the fourth byte is set - is refused whatever follows. */
  lemma NegativeLengthIsRefused(s: Buffer, overflowed: bool)
    requires |s| >= 4 && s[3] >= 128
    ensures ReadLongString(s, overflowed) == None
  {
    forall v, rest | s == LittleEndian(|v|, 4) + (v + rest) ensures |v| >= 0x8000_0000 {
      TopByte(|v|, s[3]);
    }
    if ReadLongString(s, overflowed).Some? {
      LongStringAccepts(s, overflowed, ReadLongString(s, overflowed).value.0, ReadLongString(s, overflowed).value.1);
    }
  }

  lemma TopByte(n: nat, b: byte)
    requires LittleEndian(n, 4)[3] == b && b >= 128
    ensures n >= 0x8000_0000
  {
    LittleEndianDigit(n, 4, 3);
    var n1, n2 := n / 256, n / 256 / 256;
    assert Shifted(n, 3) == Shifted(n1, 2) == Shifted(n2, 1) == n2 / 256;
  }

  // ----- What an overflowed stream still reads -----

  /** Fixed-width numbers, long strings and bitsets are refused on an overflowed stream; varints, and
      with them strings and counts, are not. */
  lemma OverflowRefuses(s: Buffer, width: nat, size: nat)
    ensures ReadFixed(s, width, true) == None && ReadLongString(s, true) == None && ReadBitset(s, size, true) == None
    ensures Read(VarUInt, s, true) == Read(VarUInt, s, false) && Read(Text, s, true) == Read(Text, s, false)
  {
  }

  // ----- Tags and containers -----

  /** What is written for a value, if it is of the schema's type. */
  ghost function Written(sc: Schema, v: Value): Buffer
  {
    if HasType(v, sc) then Write(sc, v) else []
  }

  /** The byte in front of an optional, and a boolean, are 1 or 0. */
  lemma TagsOnTheWire(sc: Schema, v: Value)
    requires HasType(v, sc)
    ensures Written(Boolean, Truth(true)) == [1] && Written(Boolean, Truth(false)) == [0]
    ensures Written(Optional(sc), Absent) == [0] && Written(Optional(sc), Present(v)) == [1] + Written(sc, v)
  {
  }

  /** The readers take any byte but 0 for 1. */
  lemma TagsAccepted(sc: Schema, b: byte, s: Buffer)
    ensures Read(Boolean, [b] + s, false) == Some((Truth(b != 0), s))
    ensures Read(Optional(sc), [b] + s, false) == if b == 0 then Some((Absent, s)) else AsPresent(Read(sc, s, false))
  {
    OneByteAtFront(b, s);
  }

  function AsPresent(r: Option<(Value, Buffer)>): Option<(Value, Buffer)>
  {
    match r
    case None => None
    case Some((v, rest)) => Some((Present(v), rest))
  }

  lemma OneByteAtFront(b: byte, s: Buffer)
    ensures ReadFixed([b] + s, 1, false) == Some((b, s))
  {
    assert ([b] + s)[..1] == [b] && ([b] + s)[1..] == s;
    assert FromLittleEndian([b]) == b + 256 * FromLittleEndian([b][1..]);
  }

  /** An index that names no alternative is refused, and what is read is of the alternative named. */
  lemma VariantAccepts(sc: Schema, s: Buffer, overflowed: bool)
    requires sc.Variant?
    ensures match ReadPrefix(sc.prefix, s, overflowed)
            case None => Read(sc, s, overflowed) == None
            case Some((index, tail)) =>
              && (index >= |sc.alternatives| ==> Read(sc, s, overflowed) == None)
              && (index < |sc.alternatives| && Read(sc, s, overflowed).Some? ==>
                    Read(sc, s, overflowed).value.0.Case? && Read(sc, s, overflowed).value.0.index == index)
  {
  }

  /** Entries read before keep their place and their value: the first of equal keys wins. */
  lemma {:induction false} FirstKeyWins(sc: Schema, count: nat, entries: seq<(Value, Value)>, s: Buffer,
                                        overflowed: bool)
    requires sc.Map? && DistinctKeys(entries)
    ensures ReadEntries(sc, count, entries, s, overflowed).Some? ==>
            var all := ReadEntries(sc, count, entries, s, overflowed).value.0;
            DistinctKeys(all) && entries <= all && |all| <= |entries| + count
    decreases count
  {
    if count > 0 {
      var key := Read(sc.key, s, overflowed);
      if key.Some? {
        var mapped := Read(sc.mapped, key.value.1, overflowed);
        if mapped.Some? {
          FirstKeyWins(sc, count - 1, Emplace(entries, key.value.0, mapped.value.0), mapped.value.1, overflowed);
        }
      }
    }
  }

  /** A key is emplaced exactly if it is new. */
  lemma EmplacesNewKeys(entries: seq<(Value, Value)>, key: Value, mapped: Value)
    ensures Emplace(entries, key, mapped)
         == if forall i :: 0 <= i < |entries| ==> entries[i].0 != key then entries + [(key, mapped)] else entries
  {
  }

  /** Items come one after the other in the order of the array. */
  lemma {:induction false} ItemsInOrder(sc: Schema, items: seq<Value>, item: Value)
    requires sc.Array? && HasType(item, sc.elem) && forall i :: 0 <= i < |items| ==> HasType(items[i], sc.elem)
    ensures WriteItems(sc, items + [item]) == WriteItems(sc, items) + Written(sc.elem, item)
    decreases |items|
  {
    if items == [] {
      assert WriteItems(sc, [item]) == Write(sc.elem, item) + WriteItems(sc, [item][1..]);
      assert [] + [item] == [item];
    } else {
      assert (items + [item])[1..] == items[1..] + [item];
      ItemsInOrder(sc, items[1..], item);
      Reassociate(Write(sc.elem, items[0]), WriteItems(sc, items[1..]), Write(sc.elem, item));
    }
  }

  ghost predicate EntriesFit(sc: Schema, entries: seq<(Value, Value)>)
    requires sc.Map?
  {
    forall i :: 0 <= i < |entries| ==> HasType(entries[i].0, sc.key) && HasType(entries[i].1, sc.mapped)
  }

  /** Entries come one after the other in the order of the container, each key in front of its value. */
  lemma {:induction false} EntriesInOrder(sc: Schema, entries: seq<(Value, Value)>, key: Value, mapped: Value)
    requires sc.Map? && HasType(key, sc.key) && HasType(mapped, sc.mapped) && EntriesFit(sc, entries)
    ensures EntriesFit(sc, entries + [(key, mapped)])
    ensures WriteEntries(sc, entries + [(key, mapped)])
         == WriteEntries(sc, entries) + (Written(sc.key, key) + Written(sc.mapped, mapped))
    decreases |entries|
  {
    var last := Write(sc.key, key) + Write(sc.mapped, mapped);
    if entries == [] {
      assert WriteEntries(sc, [(key, mapped)]) == last + WriteEntries(sc, [(key, mapped)][1..]);
      assert [] + [(key, mapped)] == [(key, mapped)];
    } else {
      assert (entries + [(key, mapped)])[1..] == entries[1..] + [(key, mapped)];
      EntriesInOrder(sc, entries[1..], key, mapped);
      Reassociate(Write(sc.key, entries[0].0) + Write(sc.mapped, entries[0].1), WriteEntries(sc, entries[1..]), last);
    }
  }
}
