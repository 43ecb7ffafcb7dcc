/** Reading what was written gives the value back and leaves what follows, for every schema. */
module WireRoundTrip {
  import opened Bytes
  import opened Leb128
  import opened WireFormat

  lemma {:induction false} RoundTrip(sc: Schema, v: Value, rest: Buffer)
    requires HasType(v, sc) && Faithful(sc)
    ensures Read(sc, Write(sc, v) + rest, false) == Some((v, rest))
    decreases sc, 1, 0
  {
    match sc
    case Unsigned(width) => FixedRoundTrip(v.n, width, rest);
    case SignedInt(width) => SignedRoundTrip(v.n, width, rest);
    case Boolean =>
      assert Write(sc, v) == LittleEndian(if v.b then 1 else 0, 1);
      FixedRoundTrip(if v.b then 1 else 0, 1, rest);
    case VarUInt => VarRoundTrip(v.n, rest);
    case VarUInt64 => VarRoundTrip(v.n, rest);
    case VarInt => Limits(); ZigZagIsABijection(v.n, 0, 32); VarRoundTrip(ZigZag(v.n), rest);
    case VarInt64 => Limits(); ZigZagIsABijection(v.n, 0, 64); VarRoundTrip(ZigZag(v.n), rest);
    case Bits(size) => BitsRoundTripInStream(v.bits, rest);
    case Text =>
      Reassociate(Leb(|v.s|), v.s, rest);
      VarRoundTrip(|v.s|, v.s + rest);
      RawRoundTrip(v.s, rest);
    case LongText => LongTextRoundTrip(v.s, rest);
    case Leaf(codec) => LeafRoundTrip(codec, v, rest);
    case Array(prefix, elem) => ArrayRoundTrip(sc, v, rest);
    case Map(prefix, key, mapped) => MapRoundTrip(sc, v, rest);
    case Optional(elem) => OptionalRoundTrip(sc, v, rest);
    case Variant(prefix, alternatives) => VariantRoundTrip(sc, v, rest);
    case Record(fields) => assert v.items[0..] == v.items; FieldsRoundTrip(sc, v.items, 0, rest);
  }

  lemma {:induction false} ArrayRoundTrip(sc: Schema, v: Value, rest: Buffer)
    requires sc.Array? && HasType(v, sc) && Faithful(sc)
    ensures Read(sc, Write(sc, v) + rest, false) == Some((v, rest))
    decreases sc, 0, |v.items| + 1
  {
    var items := WriteItems(sc, v.items);
    Reassociate(sc.prefix.write(|v.items|), items, rest);
    PrefixRoundTrip(sc.prefix, |v.items|, items + rest);
    ItemsRoundTrip(sc, v.items, rest);
  }

  lemma {:induction false} MapRoundTrip(sc: Schema, v: Value, rest: Buffer)
    requires sc.Map? && HasType(v, sc) && Faithful(sc)
    ensures Read(sc, Write(sc, v) + rest, false) == Some((v, rest))
    decreases sc, 0, |v.entries| + 1
  {
    var entries := WriteEntries(sc, v.entries);
    Reassociate(sc.prefix.write(|v.entries|), entries, rest);
    PrefixRoundTrip(sc.prefix, |v.entries|, entries + rest);
    assert [] + v.entries == v.entries;
    EntriesRoundTrip(sc, [], v.entries, rest);
  }

  lemma {:induction false} VariantRoundTrip(sc: Schema, v: Value, rest: Buffer)
    requires sc.Variant? && HasType(v, sc) && Faithful(sc)
    ensures Read(sc, Write(sc, v) + rest, false) == Some((v, rest))
    decreases sc, 0, 0
  {
    var item := Write(sc.alternatives[v.index], v.item);
    Reassociate(sc.prefix.write(v.index), item, rest);
    PrefixRoundTrip(sc.prefix, v.index, item + rest);
    RoundTrip(sc.alternatives[v.index], v.item, rest);
  }

  lemma SignedRoundTrip(n: int, width: nat, rest: Buffer)
    requires width > 0 && Signed(n, 8 * width)
    ensures Read(SignedInt(width), LittleEndian(ToUnsigned(n, 8 * width), width) + rest, false)
         == Some((Number(n), rest))
  {
    FixedRoundTrip(ToUnsigned(n, 8 * width), width, rest);
    assert Pow2(8 * width) == 2 * Pow2(8 * width - 1);
  }

  lemma LongTextRoundTrip(s: Buffer, rest: Buffer)
    requires |s| < 0x8000_0000
    ensures Read(LongText, LittleEndian(|s|, 4) + s + rest, false) == Some((String(s), rest))
  {
    Limits();
    Reassociate(LittleEndian(|s|, 4), s, rest);
    FixedRoundTrip(|s|, 4, s + rest);
    RawRoundTrip(s, rest);
  }

  lemma {:induction false} OptionalRoundTrip(sc: Schema, v: Value, rest: Buffer)
    requires sc.Optional? && HasType(v, sc) && Faithful(sc)
    ensures Read(sc, Write(sc, v) + rest, false) == Some((v, rest))
    decreases sc, 0, 0
  {
    if v.Absent? {
      assert [0] == LittleEndian(0, 1);
      FixedRoundTrip(0, 1, rest);
    } else {
      var item := Write(sc.elem, v.item);
      assert [1] == LittleEndian(1, 1);
      Reassociate([1], item, rest);
      FixedRoundTrip(1, 1, item + rest);
      RoundTrip(sc.elem, v.item, rest);
    }
  }

  lemma {:induction false} ItemsRoundTrip(sc: Schema, items: seq<Value>, rest: Buffer)
    requires Faithful(sc) && sc.Array? && forall i :: 0 <= i < |items| ==> HasType(items[i], sc.elem)
    ensures ReadItems(sc, |items|, WriteItems(sc, items) + rest, false) == Some((items, rest))
    decreases sc, 0, |items|
  {
    if items == [] {
      assert WriteItems(sc, items) + rest == rest;
    } else {
      var first, others := Write(sc.elem, items[0]), WriteItems(sc, items[1..]);
      Reassociate(first, others, rest);
      RoundTrip(sc.elem, items[0], others + rest);
      ItemsRoundTrip(sc, items[1..], rest);
      SplitAt(items, 1);
      assert items[..1] == [items[0]];
    }
  }

  /** One entry read in front of the others. */
  lemma ReadEntry(sc: Schema, count: nat, done: seq<(Value, Value)>, entry: (Value, Value), s: Buffer, t: Buffer,
                  u: Buffer, result: Option<(seq<(Value, Value)>, Buffer)>)
    requires sc.Map? && count > 0
    requires Read(sc.key, s, false) == Some((entry.0, t)) && Read(sc.mapped, t, false) == Some((entry.1, u))
    requires Emplace(done, entry.0, entry.1) == done + [entry]
    requires ReadEntries(sc, count - 1, done + [entry], u, false) == result
    ensures ReadEntries(sc, count, done, s, false) == result
  {
  }

  /** Keys that are all different are all emplaced, in the order in which they were written. */
  lemma {:induction false} EntriesRoundTrip(sc: Schema, done: seq<(Value, Value)>, entries: seq<(Value, Value)>,
                                            rest: Buffer)
    requires Faithful(sc) && sc.Map? && DistinctKeys(done + entries)
    requires forall i :: 0 <= i < |entries| ==> HasType(entries[i].0, sc.key) && HasType(entries[i].1, sc.mapped)
    ensures ReadEntries(sc, |entries|, done, WriteEntries(sc, entries) + rest, false) == Some((done + entries, rest))
    decreases sc, 0, |entries|
  {
    if entries == [] {
      assert WriteEntries(sc, entries) + rest == rest && done + entries == done;
    } else {
      var e := entries[0];
      var first, second, others := Write(sc.key, e.0), Write(sc.mapped, e.1), WriteEntries(sc, entries[1..]);
      Reassociate(first + second, others, rest);
      Reassociate(first, second, others + rest);
      RoundTrip(sc.key, e.0, second + (others + rest));
      RoundTrip(sc.mapped, e.1, others + rest);
      EmplaceNew(done, entries);
      OneAtATime(done, entries);
      EntriesRoundTrip(sc, done + [e], entries[1..], rest);
      ReadEntry(sc, |entries|, done, e, first + (second + (others + rest)), second + (others + rest), others + rest,
                Some((done + entries, rest)));
    }
  }

  lemma OneAtATime<T>(a: seq<T>, b: seq<T>)
    requires b != []
    ensures (a + [b[0]]) + b[1..] == a + b
  {
  }

  lemma EmplaceNew(done: seq<(Value, Value)>, entries: seq<(Value, Value)>)
    requires entries != [] && DistinctKeys(done + entries)
    ensures Emplace(done, entries[0].0, entries[0].1) == done + [entries[0]]
  {
    var all := done + entries;
    assert all[|done|] == entries[0];
    forall i | 0 <= i < |done| ensures done[i].0 != entries[0].0 {
      assert all[i] == done[i];
    }
  }

  lemma {:induction false} FieldsRoundTrip(sc: Schema, items: seq<Value>, from: nat, rest: Buffer)
    requires Faithful(sc) && sc.Record? && from <= |items| == |sc.fields|
    requires forall i :: 0 <= i < |items| ==> HasType(items[i], sc.fields[i])
    ensures ReadFields(sc, from, WriteFields(sc, items, from) + rest, false) == Some((items[from..], rest))
    decreases sc, 0, |items| - from
  {
    if from == |items| {
      assert WriteFields(sc, items, from) + rest == rest;
    } else {
      var first, others := Write(sc.fields[from], items[from]), WriteFields(sc, items, from + 1);
      Reassociate(first, others, rest);
      RoundTrip(sc.fields[from], items[from], others + rest);
      FieldsRoundTrip(sc, items, from + 1, rest);
      assert [items[from]] + items[from + 1..] == items[from..];
    }
  }
}
