/** Every reader takes exactly the bytes it needs: what follows them does not matter, and no proper
    prefix of them is accepted. */
module WirePrefix {
  import opened Bytes
  import opened Leb128
  import opened Bitset
  import opened WireFormat
  import opened WireAccepts

  predicate Suffix(rest: Buffer, s: Buffer)
  {
    |rest| <= |s| && rest == s[|s| - |rest|..]
  }

  /** If `r` is what was read from `s`, then `other`, read from `t`, is the same value with the rest of
      `t` if `t` begins with the bytes taken from `s`, and nothing if `t` is cut off within them. */
  ghost predicate SameOn<T>(r: Option<(T, Buffer)>, other: Option<(T, Buffer)>, s: Buffer, t: Buffer)
  {
    r.Some? ==>
      && Suffix(r.value.1, s)
      && var taken := s[..|s| - |r.value.1|];
         && (taken <= t ==> other == Some((r.value.0, t[|taken|..])))
         && (t < taken ==> other == None)
  }

  // ----- Callbacks -----

  ghost predicate ExactLeaf(c: LeafCodec)
  {
    forall s, t, overflowed :: ExactAt(c.read(s, overflowed), c.read(t, overflowed), s, t)
  }

  ghost predicate ExactPrefix(p: Prefix)
  {
    forall s, t, overflowed :: ExactAt(p.read(s, overflowed), p.read(t, overflowed), s, t)
  }

  /** The same for a callback, which says how many bytes it took. */
  ghost predicate ExactAt<T>(r: Option<(T, nat)>, other: Option<(T, nat)>, s: Buffer, t: Buffer)
  {
    r.Some? ==>
      && r.value.1 <= |s|
      && (s[..r.value.1] <= t ==> other == r)
      && (t < s[..r.value.1] ==> other == None)
  }

  /** All callbacks of the schema take exactly the bytes they need. */
  ghost predicate Exact(sc: Schema)
    decreases sc
  {
    match sc
    case Leaf(codec) => ExactLeaf(codec)
    case Array(prefix, elem) => ExactPrefix(prefix) && Exact(elem)
    case Map(prefix, key, mapped) => ExactPrefix(prefix) && Exact(key) && Exact(mapped)
    case Optional(elem) => Exact(elem)
    case Variant(prefix, alternatives) =>
      ExactPrefix(prefix) && forall i :: 0 <= i < |alternatives| ==> Exact(alternatives[i])
    case Record(fields) => forall i :: 0 <= i < |fields| ==> Exact(fields[i])
    case _ => true
  }

  // ----- Primitives -----

  /** Comparing with the first bytes of `s`, byte by byte. */
  lemma PastFirstByte(s: Buffer, t: Buffer, k: nat)
    requires 1 <= k <= |s| && t != []
    ensures s[..k] <= t ==> t[0] == s[0] && s[1..][..k - 1] <= t[1..]
    ensures t < s[..k] ==> t[0] == s[0] && t[1..] < s[1..][..k - 1]
  {
    FrontOfTail(s, k);
  }

  lemma {:induction false} LebPrefixIsExact(s: Buffer, t: Buffer, max: nat)
    ensures var k := LebPrefix(s, max);
            k > 0 ==> (s[..k] <= t ==> LebPrefix(t, max) == k) && (t < s[..k] ==> LebPrefix(t, max) == 0)
    decreases max
  {
    var k := LebPrefix(s, max);
    if k > 0 && t != [] {
      PastFirstByte(s, t, k);
      if k > 1 {
        LebPrefixIsExact(s[1..], t[1..], max - 1);
      }
    }
  }

  lemma ReadLebIsExact(s: Buffer, t: Buffer, max: nat, limit: nat)
    ensures ExactAt(ReadLeb(s, max, limit), ReadLeb(t, max, limit), s, t)
  {
    LebPrefixIsExact(s, t, max);
    var k := LebPrefix(s, max);
    if k > 0 && s[..k] <= t {
      assert t[..k] == s[..k];
    }
  }

  /** From a callback's result to what is left of the stream. */
  lemma CountedIsSame<T>(r: Option<(T, nat)>, other: Option<(T, nat)>, s: Buffer, t: Buffer)
    requires ExactAt(r, other, s, t)
    ensures SameOn(if r.None? || r.value.1 > |s| then None else Some((r.value.0, s[r.value.1..])),
                   if other.None? || other.value.1 > |t| then None else Some((other.value.0, t[other.value.1..])), s, t)
  {
  }

  lemma VarIsExact(s: Buffer, t: Buffer, max: nat, limit: nat)
    ensures SameOn(ReadVar(s, max, limit), ReadVar(t, max, limit), s, t)
  {
    ReadLebIsExact(s, t, max, limit);
    CountedIsSame(ReadLeb(s, max, limit), ReadLeb(t, max, limit), s, t);
  }

  lemma FixedIsExact(s: Buffer, t: Buffer, width: nat, overflowed: bool)
    ensures SameOn(ReadFixed(s, width, overflowed), ReadFixed(t, width, overflowed), s, t)
  {
    if width <= |s| && s[..width] <= t {
      assert t[..width] == s[..width];
    }
  }

  lemma RawIsExact(s: Buffer, t: Buffer, length: nat)
    ensures SameOn(ReadRaw(s, length), ReadRaw(t, length), s, t)
  {
    if length <= |s| && s[..length] <= t {
      assert t[..length] == s[..length];
    }
  }

  lemma {:induction false} BitsAreExact(s: Buffer, t: Buffer, n: nat, first: bool, seen: bool)
    ensures ExactAt(ReadBits(s, n, first, seen), ReadBits(t, n, first, seen), s, t)
    decreases n
  {
    var r := ReadBits(s, n, first, seen);
    if r.Some? {
      AcceptsOnlyWhatIsWritten(s, n, first, seen, r.value.0, r.value.1);
      if t != [] {
        PastFirstByte(s, t, r.value.1);
        if s[0] >= 128 {
          BitsAreExact(s[1..], t[1..], n - 7, false, seen || s[0] != 128);
        }
      }
    }
  }

  lemma BitsetIsExact(s: Buffer, t: Buffer, size: nat, overflowed: bool)
    ensures SameOn(ReadBitset(s, size, overflowed), ReadBitset(t, size, overflowed), s, t)
  {
    BitsAreExact(s, t, size, true, false);
    CountedIsSame(ReadBits(s, size, true, false), ReadBits(t, size, true, false), s, t);
  }

  // ----- One after the other -----

  /** A reader that takes the first `k` bytes of `s` and then goes on with the rest. */
  lemma Chain<T>(s: Buffer, t: Buffer, k: nat, r: Option<(T, Buffer)>, other: Option<(T, Buffer)>)
    requires k <= |s| && (r.Some? ==> Suffix(r.value.1, s[k..]))
    requires s[..k] <= t ==> SameOn(r, other, s[k..], t[k..])
    requires t < s[..k] ==> other == None
    ensures SameOn(r, other, s, t)
  {
    if r.Some? {
      var n := |s| - |r.value.1|;
      assert s[..n][..k] == s[..k] && s[k..][..n - k] == s[..n][k..];
      if s[..n] <= t {
        assert s[..k] <= t && s[k..][..n - k] <= t[k..] && t[k..][n - k..] == t[n..];
      }
      if t < s[..n] {
        if |t| < k {
          assert t < s[..k];
        } else {
          assert s[..k] <= t && t[k..] < s[k..][..n - k];
        }
      }
    }
  }

  /** How many bytes a read took. */
  function Taken<T>(r: Option<(T, Buffer)>, s: Buffer): (k: nat)
    requires r.Some? && Suffix(r.value.1, s)
    ensures k <= |s| && r.value.1 == s[k..]
  {
    |s| - |r.value.1|
  }

  /** What `t` has beyond the first k bytes of `s`, if it begins with them. */
  function Beyond(s: Buffer, t: Buffer, k: nat): Buffer
    requires k <= |s|
  {
    if s[..k] <= t then t[k..] else []
  }

  lemma StringIsExact(s: Buffer, t: Buffer)
    ensures SameOn(ReadString(s), ReadString(t), s, t)
  {
    VarIsExact(s, t, 5, LIMIT32);
    var first := ReadVarUInt(s);
    if first.Some? {
      var k := Taken(first, s);
      if s[..k] <= t {
        RawIsExact(s[k..], t[k..], first.value.0);
      }
      RawAccepts(s[k..], first.value.0, [], []);
      Chain(s, t, k, ReadString(s), ReadString(t));
    }
  }

  lemma LongStringIsExact(s: Buffer, t: Buffer, overflowed: bool)
    ensures SameOn(ReadLongString(s, overflowed), ReadLongString(t, overflowed), s, t)
  {
    FixedIsExact(s, t, 4, overflowed);
    var first := ReadFixed(s, 4, overflowed);
    if first.Some? && ToSigned(first.value.0, 32) >= 0 {
      var k := Taken(first, s);
      if s[..k] <= t {
        RawIsExact(s[k..], t[k..], ToSigned(first.value.0, 32));
      }
      Chain(s, t, k, ReadLongString(s, overflowed), ReadLongString(t, overflowed));
    }
  }

  // ----- Every schema -----

  lemma PrefixIsExact(p: Prefix, s: Buffer, t: Buffer, overflowed: bool)
    requires ExactPrefix(p)
    ensures SameOn(ReadPrefix(p, s, overflowed), ReadPrefix(p, t, overflowed), s, t)
  {
    assert ExactAt(p.read(s, overflowed), p.read(t, overflowed), s, t);
    CountedIsSame(p.read(s, overflowed), p.read(t, overflowed), s, t);
  }

  lemma LeafIsExact(c: LeafCodec, s: Buffer, t: Buffer, overflowed: bool)
    requires ExactLeaf(c)
    ensures SameOn(ReadLeaf(c, s, overflowed), ReadLeaf(c, t, overflowed), s, t)
  {
    assert ExactAt(c.read(s, overflowed), c.read(t, overflowed), s, t);
    CountedIsSame(c.read(s, overflowed), c.read(t, overflowed), s, t);
  }

  /** For every schema whose callbacks take exactly the bytes they need: what is read depends on the
      bytes taken alone, and no proper prefix of them is accepted. */
  lemma {:induction false} ReadIsExact(sc: Schema, s: Buffer, t: Buffer, overflowed: bool)
    requires Exact(sc)
    ensures SameOn(Read(sc, s, overflowed), Read(sc, t, overflowed), s, t)
    decreases sc, 2, 0
  {
    if sc.Array? {
      ArrayIsExact(sc, s, t, overflowed);
    } else if sc.Map? {
      MapIsExact(sc, s, t, overflowed);
    } else if sc.Optional? {
      OptionalIsExact(sc, s, t, overflowed);
    } else if sc.Variant? {
      VariantIsExact(sc, s, t, overflowed);
    } else if sc.Record? {
      FieldsAreExact(sc, 0, s, t, overflowed);
    } else {
      PlainIsExact(sc, s, t, overflowed);
    }
  }

  lemma PlainIsExact(sc: Schema, s: Buffer, t: Buffer, overflowed: bool)
    requires Exact(sc) && !(sc.Array? || sc.Map? || sc.Optional? || sc.Variant? || sc.Record?)
    ensures SameOn(Read(sc, s, overflowed), Read(sc, t, overflowed), s, t)
  {
    if sc.VarUInt? || sc.VarUInt64? || sc.VarInt? || sc.VarInt64? {
      VarNumberIsExact(sc, s, t, overflowed);
    } else if sc.Unsigned? || sc.SignedInt? || sc.Boolean? {
      FixedNumberIsExact(sc, s, t, overflowed);
    } else if sc.Bits? {
      BitsetIsExact(s, t, sc.size, overflowed);
    } else if sc.Text? {
      StringIsExact(s, t);
    } else if sc.LongText? {
      LongStringIsExact(s, t, overflowed);
    } else {
      LeafIsExact(sc.codec, s, t, overflowed);
    }
  }

  lemma FixedNumberIsExact(sc: Schema, s: Buffer, t: Buffer, overflowed: bool)
    requires sc.Unsigned? || sc.SignedInt? || sc.Boolean?
    ensures SameOn(Read(sc, s, overflowed), Read(sc, t, overflowed), s, t)
  {
    FixedIsExact(s, t, if sc.Boolean? then 1 else sc.width, overflowed);
  }

  lemma VarNumberIsExact(sc: Schema, s: Buffer, t: Buffer, overflowed: bool)
    requires sc.VarUInt? || sc.VarUInt64? || sc.VarInt? || sc.VarInt64?
    ensures SameOn(Read(sc, s, overflowed), Read(sc, t, overflowed), s, t)
  {
    if sc.VarUInt? || sc.VarInt? {
      VarIsExact(s, t, 5, LIMIT32);
    } else {
      VarIsExact(s, t, 10, LIMIT64);
    }
  }

  lemma {:induction false} ItemsAreExact(sc: Schema, count: nat, s: Buffer, t: Buffer, overflowed: bool)
    requires sc.Array? && Exact(sc)
    ensures SameOn(ReadItems(sc, count, s, overflowed), ReadItems(sc, count, t, overflowed), s, t)
    decreases sc, 0, count
  {
    if count > 0 {
      ReadIsExact(sc.elem, s, t, overflowed);
      var first := Read(sc.elem, s, overflowed);
      if first.Some? {
        var k := Taken(first, s);
        ItemsAreExact(sc, count - 1, s[k..], Beyond(s, t, k), overflowed);
        Chain(s, t, k, ReadItems(sc, count, s, overflowed), ReadItems(sc, count, t, overflowed));
      }
    }
  }

  lemma {:induction false} ArrayIsExact(sc: Schema, s: Buffer, t: Buffer, overflowed: bool)
    requires sc.Array? && Exact(sc)
    ensures SameOn(Read(sc, s, overflowed), Read(sc, t, overflowed), s, t)
    decreases sc, 1, 0
  {
    PrefixIsExact(sc.prefix, s, t, overflowed);
    var first := ReadPrefix(sc.prefix, s, overflowed);
    if first.Some? {
      var k := Taken(first, s);
      ItemsAreExact(sc, first.value.0, s[k..], Beyond(s, t, k), overflowed);
      Chain(s, t, k, Read(sc, s, overflowed), Read(sc, t, overflowed));
    }
  }

  lemma {:induction false} EntriesAreExact(sc: Schema, count: nat, entries: seq<(Value, Value)>, s: Buffer, t: Buffer,
                                           overflowed: bool)
    requires sc.Map? && Exact(sc)
    ensures SameOn(ReadEntries(sc, count, entries, s, overflowed), ReadEntries(sc, count, entries, t, overflowed), s, t)
    decreases sc, 0, 2 * count
  {
    if count > 0 {
      ReadIsExact(sc.key, s, t, overflowed);
      var key := Read(sc.key, s, overflowed);
      if key.Some? {
        var k := Taken(key, s);
        var s', t' := s[k..], Beyond(s, t, k);
        AfterKeyIsExact(sc, count, entries, key.value.0, s', t', overflowed);
        Chain(s, t, k, ReadEntries(sc, count, entries, s, overflowed), ReadEntries(sc, count, entries, t, overflowed));
      }
    }
  }

  /** The rest of the entries once a key has been read. */
  function AfterKey(sc: Schema, count: nat, entries: seq<(Value, Value)>, key: Value, s: Buffer, overflowed: bool):
    Option<(seq<(Value, Value)>, Buffer)>
    requires sc.Map? && count > 0
  {
    match Read(sc.mapped, s, overflowed)
    case None => None
    case Some((mapped, rest)) => ReadEntries(sc, count - 1, Emplace(entries, key, mapped), rest, overflowed)
  }

  lemma {:induction false} AfterKeyIsExact(sc: Schema, count: nat, entries: seq<(Value, Value)>, key: Value,
                                           s: Buffer, t: Buffer, overflowed: bool)
    requires sc.Map? && Exact(sc) && count > 0
    ensures SameOn(AfterKey(sc, count, entries, key, s, overflowed), AfterKey(sc, count, entries, key, t, overflowed),
                   s, t)
    decreases sc, 0, 2 * count - 1
  {
    ReadIsExact(sc.mapped, s, t, overflowed);
    var mapped := Read(sc.mapped, s, overflowed);
    if mapped.Some? {
      var k := Taken(mapped, s);
      EntriesAreExact(sc, count - 1, Emplace(entries, key, mapped.value.0), s[k..],
                      Beyond(s, t, k), overflowed);
      Chain(s, t, k, AfterKey(sc, count, entries, key, s, overflowed),
            AfterKey(sc, count, entries, key, t, overflowed));
    }
  }

  lemma {:induction false} MapIsExact(sc: Schema, s: Buffer, t: Buffer, overflowed: bool)
    requires sc.Map? && Exact(sc)
    ensures SameOn(Read(sc, s, overflowed), Read(sc, t, overflowed), s, t)
    decreases sc, 1, 0
  {
    PrefixIsExact(sc.prefix, s, t, overflowed);
    var first := ReadPrefix(sc.prefix, s, overflowed);
    if first.Some? {
      var k := Taken(first, s);
      EntriesAreExact(sc, first.value.0, [], s[k..], Beyond(s, t, k), overflowed);
      Chain(s, t, k, Read(sc, s, overflowed), Read(sc, t, overflowed));
    }
  }

  lemma {:induction false} OptionalIsExact(sc: Schema, s: Buffer, t: Buffer, overflowed: bool)
    requires sc.Optional? && Exact(sc)
    ensures SameOn(Read(sc, s, overflowed), Read(sc, t, overflowed), s, t)
    decreases sc, 1, 0
  {
    FixedIsExact(s, t, 1, overflowed);
    var first := ReadFixed(s, 1, overflowed);
    if first.Some? && first.value.0 != 0 {
      var k := Taken(first, s);
      ReadIsExact(sc.elem, s[k..], Beyond(s, t, k), overflowed);
      Chain(s, t, k, Read(sc, s, overflowed), Read(sc, t, overflowed));
    }
  }

  lemma {:induction false} VariantIsExact(sc: Schema, s: Buffer, t: Buffer, overflowed: bool)
    requires sc.Variant? && Exact(sc)
    ensures SameOn(Read(sc, s, overflowed), Read(sc, t, overflowed), s, t)
    decreases sc, 1, 0
  {
    PrefixIsExact(sc.prefix, s, t, overflowed);
    var first := ReadPrefix(sc.prefix, s, overflowed);
    if first.Some? && first.value.0 < |sc.alternatives| {
      var k := Taken(first, s);
      ReadIsExact(sc.alternatives[first.value.0], s[k..], Beyond(s, t, k), overflowed);
      Chain(s, t, k, Read(sc, s, overflowed), Read(sc, t, overflowed));
    }
  }

  lemma {:induction false} FieldsAreExact(sc: Schema, from: nat, s: Buffer, t: Buffer, overflowed: bool)
    requires sc.Record? && Exact(sc) && from <= |sc.fields|
    ensures SameOn(ReadFields(sc, from, s, overflowed), ReadFields(sc, from, t, overflowed), s, t)
    decreases sc, 0, |sc.fields| - from
  {
    if from < |sc.fields| {
      ReadIsExact(sc.fields[from], s, t, overflowed);
      var first := Read(sc.fields[from], s, overflowed);
      if first.Some? {
        var k := Taken(first, s);
        FieldsAreExact(sc, from + 1, s[k..], Beyond(s, t, k), overflowed);
        Chain(s, t, k, ReadFields(sc, from, s, overflowed), ReadFields(sc, from, t, overflowed));
      }
    }
  }

  /** Nothing that is cut short is accepted: after a successful read, no proper prefix of the bytes it
      took reads as anything, and they alone read as the same value. */
  lemma NothingCutShort(sc: Schema, s: Buffer, overflowed: bool, v: Value, rest: Buffer, cut: Buffer)
    requires Exact(sc) && Read(sc, s, overflowed) == Some((v, rest))
    ensures Suffix(rest, s)
    ensures var taken := s[..|s| - |rest|];
            && Read(sc, taken, overflowed) == Some((v, []))
            && Read(sc, taken + cut, overflowed) == Some((v, cut))
            && (cut < taken ==> Read(sc, cut, overflowed) == None)
  {
    ReadIsExact(sc, s, s, overflowed);
    var taken := s[..|s| - |rest|];
    ReadIsExact(sc, s, taken, overflowed);
    ReadIsExact(sc, s, taken + cut, overflowed);
    ReadIsExact(sc, s, cut, overflowed);
    assert taken[|taken|..] == [] && (taken + cut)[|taken|..] == cut;
  }

  /** The default prefix is among the callbacks assumed. */
  lemma VarIntIsExact()
    ensures ExactPrefix(VARINT)
  {
    forall s, t, overflowed: bool ensures ExactAt(VARINT.read(s, overflowed), VARINT.read(t, overflowed), s, t) {
      ReadLebIsExact(s, t, 5, LIMIT32);
    }
  }
}
