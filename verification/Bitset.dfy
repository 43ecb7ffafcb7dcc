/** The bitset encoding: seven bits a byte, low bits first, the high bit set while a higher
    bit of the set follows. */
module Bitset {
  import opened Bytes

  /** The number whose binary digits, lowest first, are `bits`. */
  function BitsValue(bits: seq<bool>): (v: nat)
    ensures v < Pow2(|bits|)
  {
    if bits == [] then 0
    else
      var top := |bits| - 1;
      BitsValue(bits[..top]) + if bits[top] then Pow2(top) else 0
  }

  function BitsOf(v: nat, n: nat): (bits: seq<bool>)
    ensures |bits| == n
  {
    if n == 0 then []
    else if v >= Pow2(n - 1) then BitsOf(v - Pow2(n - 1), n - 1) + [true]
    else BitsOf(v, n - 1) + [false]
  }

  /** How many binary digits `v` has. */
  function BitLength(v: nat): nat
  {
    if v == 0 then 0 else 1 + BitLength(v / 2)
  }

  predicate Any(bits: seq<bool>)
  {
    bits != [] && (bits[0] || Any(bits[1..]))
  }

  function ChunkSize(n: nat): nat
  {
    if n < 7 then n else 7
  }

  function Zeros(n: nat): seq<bool>
  {
    seq(n, _ => false)
  }

  /** The bytes of a set of bits. */
  function WriteBits(bits: seq<bool>): (s: Buffer)
    ensures |s| >= 1
  {
    var c := ChunkSize(|bits|);
    PowersUpTo8(c);
    if Any(bits[c..]) then [BitsValue(bits[..c]) + 128] + WriteBits(bits[c..]) else [BitsValue(bits[..c])]
  }

  /** Reads a set of `n` bits from the front of `s`: the bits and the number of bytes used.
      `first` says that no byte was read before, `seen` that a bit was set before. */
  function ReadBits(s: Buffer, n: nat, first: bool, seen: bool): Option<(seq<bool>, nat)>
  {
    if n == 0 || s == [] || s[0] >= Pow2(n) then None
    else if s[0] < 128 then
      if (seen || !first) && s[0] == 0 then None
      else Some((BitsOf(s[0], ChunkSize(n)) + Zeros(n - ChunkSize(n)), 1))
    else if n < 8 then None
    else
      match ReadBits(s[1..], n - 7, false, seen || s[0] != 128)
      case None => None
      case Some((more, k)) => Some((BitsOf(s[0] - 128, 7) + more, k + 1))
  }

  // ----- Bits and numbers -----

  lemma PowersUpTo8(n: nat)
    ensures Pow2(7) == 128 && Pow2(8) == 256
    ensures n <= 7 ==> Pow2(n) <= 128
    ensures n >= 8 ==> Pow2(n) >= 256
  {
    Pow2Plus7(0);
    if n <= 7 {
      Pow2Monotone(n, 7);
    } else {
      Pow2Monotone(8, n);
    }
  }

  lemma {:induction false} BitsRoundTrip(bits: seq<bool>)
    ensures BitsOf(BitsValue(bits), |bits|) == bits
  {
    if bits != [] {
      BitsRoundTrip(bits[..|bits| - 1]);
    }
  }

  lemma {:induction false} ValueRoundTrip(v: nat, n: nat)
    requires v < Pow2(n)
    ensures BitsValue(BitsOf(v, n)) == v
  {
    if n > 0 {
      var low := if v >= Pow2(n - 1) then v - Pow2(n - 1) else v;
      ValueRoundTrip(low, n - 1);
      assert BitsOf(v, n)[..n - 1] == BitsOf(low, n - 1);
    }
  }

  lemma {:induction false} BitLengthBounds(v: nat, n: nat)
    ensures BitLength(v) <= n <==> v < Pow2(n)
  {
    if v > 0 && n > 0 {
      BitLengthBounds(v / 2, n - 1);
    }
  }

  /** No value means no bit, and the other way round. */
  lemma {:induction false} NoBitsNoValue(bits: seq<bool>)
    ensures BitsValue(bits) == 0 <==> !Any(bits)
  {
    if bits != [] {
      var top := |bits| - 1;
      NoBitsNoValue(bits[..top]);
      SplitAt(bits, top);
      AnyOfConcat(bits[..top], bits[top..]);
    }
  }

  lemma {:induction false} NoneMeansZeros(bits: seq<bool>)
    requires !Any(bits)
    ensures bits == Zeros(|bits|)
  {
    if bits != [] {
      NoneMeansZeros(bits[1..]);
    }
  }

  lemma {:induction false} NoneInZeros(n: nat)
    ensures !Any(Zeros(n))
  {
    if n > 0 {
      NoneInZeros(n - 1);
      assert Zeros(n)[1..] == Zeros(n - 1);
    }
  }

  lemma {:induction false} AnyOfConcat(a: seq<bool>, b: seq<bool>)
    ensures Any(a + b) <==> Any(a) || Any(b)
  {
    if a == [] {
      assert a + b == b;
    } else {
      assert (a + b)[1..] == a[1..] + b;
      AnyOfConcat(a[1..], b);
    }
  }

  lemma {:induction false} AnyMeansSome(bits: seq<bool>)
    ensures Any(bits) <==> exists i :: 0 <= i < |bits| && bits[i]
  {
    if bits != [] {
      AnyMeansSome(bits[1..]);
      if Any(bits[1..]) {
        var i :| 0 <= i < |bits[1..]| && bits[1..][i];
        assert bits[i + 1];
      }
      forall i | 0 < i < |bits| && bits[i] ensures Any(bits[1..]) {
        assert bits[1..][i - 1];
      }
    }
  }

  // ----- The codec is a bijection -----

  /** A set is split after its first chunk. */
  predicate Split(chunk: seq<bool>, tail: seq<bool>)
  {
    |chunk| == ChunkSize(|chunk| + |tail|)
  }

  /** What the writer makes of a set. */
  lemma WrittenChunk(chunk: seq<bool>, tail: seq<bool>)
    requires Split(chunk, tail)
    ensures BitsValue(chunk) < 128
    ensures WriteBits(chunk + tail)
         == if Any(tail) then [BitsValue(chunk) + 128] + WriteBits(tail) else [BitsValue(chunk)]
  {
    PowersUpTo8(|chunk|);
    assert (chunk + tail)[..|chunk|] == chunk && (chunk + tail)[|chunk|..] == tail;
  }

  lemma ReadsLastChunk(chunk: seq<bool>, tail: seq<bool>, rest: Buffer, first: bool, seen: bool)
    requires Split(chunk, tail) && !Any(tail) && chunk != []
    requires if first then !seen else Any(chunk)
    ensures BitsValue(chunk) < 128
    ensures ReadBits([BitsValue(chunk)] + rest, |chunk| + |tail|, first, seen) == Some((chunk + tail, 1))
  {
    PowersUpTo8(|chunk|);
    Pow2Monotone(|chunk|, |chunk| + |tail|);
    BitsRoundTrip(chunk);
    NoBitsNoValue(chunk);
    NoneMeansZeros(tail);
  }

  lemma ReadsFirstChunk(chunk: seq<bool>, tail: seq<bool>, w: Buffer, rest: Buffer, first: bool, seen: bool)
    requires Split(chunk, tail) && Any(tail)
    requires ReadBits(w + rest, |tail|, false, seen || BitsValue(chunk) != 0) == Some((tail, |w|))
    ensures BitsValue(chunk) < 128
    ensures ReadBits([BitsValue(chunk) + 128] + (w + rest), |chunk| + |tail|, first, seen)
         == Some((chunk + tail, |w| + 1))
  {
    PowersUpTo8(|chunk|);
    PowersUpTo8(|chunk| + |tail|);
    BitsRoundTrip(chunk);
    assert ([BitsValue(chunk) + 128] + (w + rest))[1..] == w + rest;
  }

  /** Reading what was written gives the bits back and leaves what follows. */
  lemma {:induction false} ReadsWhatWasWritten(bits: seq<bool>, rest: Buffer, first: bool, seen: bool)
    requires |bits| > 0
    requires if first then !seen else Any(bits)
    ensures ReadBits(WriteBits(bits) + rest, |bits|, first, seen) == Some((bits, |WriteBits(bits)|))
  {
    var chunk, tail := bits[..ChunkSize(|bits|)], bits[ChunkSize(|bits|)..];
    SplitAt(bits, ChunkSize(|bits|));
    AnyOfConcat(chunk, tail);
    WrittenChunk(chunk, tail);
    if Any(tail) {
      ReadsWhatWasWritten(tail, rest, false, seen || BitsValue(chunk) != 0);
      ReadsFirstChunk(chunk, tail, WriteBits(tail), rest, first, seen);
      Reassociate([BitsValue(chunk) + 128], WriteBits(tail), rest);
    } else {
      ReadsLastChunk(chunk, tail, rest, first, seen);
    }
  }

  lemma AcceptedLast(b: byte, n: nat)
    requires n > 0 && b < 128 && b < Pow2(n)
    ensures var bits := BitsOf(b, ChunkSize(n)) + Zeros(n - ChunkSize(n));
            WriteBits(bits) == [b] && (b != 0 ==> Any(bits))
  {
    var chunk, tail := BitsOf(b, ChunkSize(n)), Zeros(n - ChunkSize(n));
    PowersUpTo8(n);
    ValueRoundTrip(b, ChunkSize(n));
    NoBitsNoValue(chunk);
    AnyOfConcat(chunk, tail);
    NoneInZeros(n - ChunkSize(n));
    WrittenChunk(chunk, tail);
  }

  lemma AcceptedMore(v: nat, more: seq<bool>)
    requires v < 128 && Any(more)
    ensures WriteBits(BitsOf(v, 7) + more) == [v + 128] + WriteBits(more) && Any(BitsOf(v, 7) + more)
  {
    PowersUpTo8(7);
    ValueRoundTrip(v, 7);
    AnyOfConcat(BitsOf(v, 7), more);
    WrittenChunk(BitsOf(v, 7), more);
  }

  /** Whatever the reader accepts is exactly what the writer produces for its result. */
  lemma {:induction false} AcceptsOnlyWhatIsWritten(s: Buffer, n: nat, first: bool, seen: bool, bits: seq<bool>, k: nat)
    requires ReadBits(s, n, first, seen) == Some((bits, k))
    ensures |bits| == n && 1 <= k <= |s| && s[..k] == WriteBits(bits)
    ensures !first ==> Any(bits)
  {
    if s[0] < 128 {
      AcceptedLast(s[0], n);
      assert s[..1] == [s[0]];
    } else {
      var more := bits[7..];
      assert bits == BitsOf(s[0] - 128, 7) + more;
      AcceptsOnlyWhatIsWritten(s[1..], n - 7, false, seen || s[0] != 128, more, k - 1);
      AcceptedMore(s[0] - 128, more);
      FrontOfTail(s, k);
    }
  }

  /** For sets of n bits the round trip holds exactly when n is positive: a reader of no bits
      accepts nothing. */
  lemma BitsetRoundTrip(bits: seq<bool>, rest: Buffer)
    ensures ReadBits(WriteBits(bits) + rest, |bits|, true, false) == Some((bits, |WriteBits(bits)|)) <==> |bits| > 0
  {
    if |bits| > 0 {
      ReadsWhatWasWritten(bits, rest, true, false);
    }
  }

  // ----- Single bits, as the loops handle them -----

  lemma {:induction false} BitOfAt(v: nat, n: nat, i: nat)
    requires i < n && v < Pow2(n)
    ensures BitsOf(v, n)[i] == (v / Pow2(i) % 2 == 1)
  {
    var top := Pow2(n - 1);
    if i == n - 1 {
      QuotientOfTop(v, top);
    } else if v >= top {
      BitOfAt(v - top, n - 1, i);
      TopIsEvenMultiple(n, i);
      EvenShift(v - top, Pow2(i), Pow2(n - 2 - i));
    } else {
      BitOfAt(v, n - 1, i);
    }
  }

  lemma TopIsEvenMultiple(n: nat, i: nat)
    requires i + 1 < n
    ensures Pow2(n - 1) == Pow2(i) * (2 * Pow2(n - 2 - i))
  {
    Pow2Splits(i, n - 1 - i);
    assert Pow2(n - 1 - i) == 2 * Pow2(n - 2 - i);
  }

  lemma QuotientOfTop(v: nat, top: nat)
    requires top >= 1 && v < 2 * top
    ensures v / top == if v >= top then 1 else 0
  {
    if v >= top {
      QuotientIs(v, top, 1, v - top);
    } else {
      QuotientIs(v, top, 0, v);
    }
  }

  lemma {:induction false} Pow2Splits(i: nat, j: nat)
    ensures Pow2(i + j) == Pow2(i) * Pow2(j)
  {
    if j > 0 {
      Pow2Splits(i, j - 1);
    }
  }

  /** Adding an even multiple of `p` does not change the lowest bit of the quotient. */
  lemma EvenShift(low: nat, p: nat, half: nat)
    requires p >= 1
    ensures (low + p * (2 * half)) / p % 2 == low / p % 2
  {
    assert low == p * (low / p) + low % p;
    QuotientIs(low + p * (2 * half), p, low / p + 2 * half, low % p);
  }
}
