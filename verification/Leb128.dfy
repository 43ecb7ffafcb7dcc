/** Unsigned LEB128 as section 7.6 of DWARF 5 defines it: seven bits a byte, low bits first,
    the high bit set on every byte but the last. */
module Leb128 {
  import opened Bytes

  predicate IsLeb(s: Buffer)
  {
    s != [] && if s[0] < 128 then |s| == 1 else IsLeb(s[1..])
  }

  function LebValue(s: Buffer): nat
  {
    if s == [] then 0 else s[0] % 128 + 128 * LebValue(s[1..])
  }

  /** What the writers' loop appends for `v`. */
  function Leb(v: nat): (s: Buffer)
    ensures IsLeb(s) && LebValue(s) == v
  {
    if v < 128 then [v]
    else
      var s := [v % 128 + 128] + Leb(v / 128);
      assert s[1..] == Leb(v / 128);
      s
  }

  // ----- Shortest and prefix-free -----

  lemma {:induction false} LebValueIsBelow(s: Buffer)
    ensures LebValue(s) < Pow2(7 * |s|)
  {
    if s != [] {
      LebValueIsBelow(s[1..]);
      Pow2Plus7(7 * |s[1..]|);
    }
  }

  lemma {:induction false} LebLength(v: nat, k: nat)
    requires k >= 1
    ensures |Leb(v)| <= k <==> v < Pow2(7 * k)
    decreases v
  {
    Pow2Plus7(7 * (k - 1));
    if v >= 128 {
      if k >= 2 {
        LebLength(v / 128, k - 1);
      } else {
        assert Pow2(7) == 128 * Pow2(0);
      }
    } else {
      assert Pow2(7 * (k - 1)) >= 1;
    }
  }

  /** The writers emit at most 5 bytes for 32 bits and at most 10 for 64. */
  lemma LebFits(v: nat)
    ensures v < 0x1_0000_0000 ==> |Leb(v)| <= 5
    ensures v < 0x1_0000_0000_0000_0000 ==> |Leb(v)| <= 10
  {
    LebLength(v, 5);
    LebLength(v, 10);
    PowersOfTwo();
  }

  lemma PowersOfTwo()
    ensures Pow2(28) == 0x1000_0000 && Pow2(35) == 0x8_0000_0000
    ensures Pow2(63) == 0x8000_0000_0000_0000 && Pow2(70) == 0x40_0000_0000_0000_0000
  {
    PowersUpTo28();
    Pow2Plus7(28);
    Pow2Plus7(35);
    Pow2Plus7(42);
    Pow2Plus7(49);
    Pow2Plus7(56);
    Pow2Plus7(63);
  }

  lemma PowersUpTo28()
    ensures Pow2(28) == 0x1000_0000
  {
    Pow2Plus7(0);
    Pow2Plus7(7);
    Pow2Plus7(14);
    Pow2Plus7(21);
  }

  /** No LEB128 string for `v` is shorter than the written one, and no other is as short. */
  lemma {:induction false} LebIsShortest(s: Buffer)
    requires IsLeb(s)
    ensures |Leb(LebValue(s))| <= |s|
    ensures |s| == |Leb(LebValue(s))| ==> s == Leb(LebValue(s))
  {
    var v := LebValue(s);
    if s[0] < 128 {
      assert s == [s[0]];
    } else {
      LebIsShortest(s[1..]);
      assert v == s[0] % 128 + 128 * LebValue(s[1..]);
      assert v / 128 == LebValue(s[1..]) && v % 128 == s[0] % 128 == s[0] - 128;
      if v >= 128 && |s| == |Leb(v)| {
        assert s == [s[0]] + s[1..];
      }
    }
  }

  lemma {:induction false} LebIsPrefixFree(a: Buffer, b: Buffer)
    requires IsLeb(a) && IsLeb(b) && a <= b
    ensures a == b
  {
    if a[0] >= 128 {
      assert a[1..] <= b[1..];
      LebIsPrefixFree(a[1..], b[1..]);
    }
  }

  // ----- Reading -----

  /** The length of the LEB128 string at the front of `s` if it has at most `max` bytes; else 0. */
  function LebPrefix(s: Buffer, max: nat): (k: nat)
    ensures k <= |s| && k <= max
  {
    if s == [] || max == 0 then 0
    else if s[0] < 128 then 1
    else
      var k := LebPrefix(s[1..], max - 1);
      if k == 0 then 0 else k + 1
  }

  /** The value and the length of the LEB128 string at the front of `s`, if it has at most
      `max` bytes and its value is below `limit`. */
  function ReadLeb(s: Buffer, max: nat, limit: nat): Option<(nat, nat)>
  {
    var k := LebPrefix(s, max);
    if k == 0 || LebValue(s[..k]) >= limit then None else Some((LebValue(s[..k]), k))
  }

  lemma {:induction false} LebPrefixIsLeb(s: Buffer, max: nat, k: nat)
    requires k <= |s|
    ensures k > 0 && LebPrefix(s, max) == k <==> k <= max && IsLeb(s[..k])
  {
    if s != [] && max > 0 && s[0] >= 128 && k > 0 {
      LebPrefixIsLeb(s[1..], max - 1, k - 1);
      assert s[..k][1..] == s[1..][..k - 1];
    }
  }

  /** The readers succeed exactly on the LEB128 strings of at most `max` bytes whose value is
      below `limit` - also those that are not the shortest - and return that value. */
  lemma ReadLebAccepts(s: Buffer, max: nat, limit: nat, v: nat, k: nat)
    ensures ReadLeb(s, max, limit) == Some((v, k)) <==>
            k <= |s| && k <= max && IsLeb(s[..k]) && LebValue(s[..k]) == v && v < limit
  {
    if k <= |s| {
      LebPrefixIsLeb(s, max, k);
    }
  }

  /** What was written is read back, whatever follows. */
  lemma LebRoundTrip(v: nat, max: nat, limit: nat, rest: Buffer)
    requires v < limit && |Leb(v)| <= max
    ensures ReadLeb(Leb(v) + rest, max, limit) == Some((v, |Leb(v)|))
  {
    assert (Leb(v) + rest)[..|Leb(v)|] == Leb(v);
    ReadLebAccepts(Leb(v) + rest, max, limit, v, |Leb(v)|);
  }

  /** Adding the payload of one more byte, shifted past those before it. */
  lemma {:induction false} LebValueOfAppend(s: Buffer, b: byte)
    ensures LebValue(s + [b]) == LebValue(s) + ShiftLeft(b % 128, 7 * |s|)
  {
    if s == [] {
      assert LebValue([b]) == b % 128 + 128 * LebValue([]);
    } else {
      assert (s + [b])[1..] == s[1..] + [b];
      LebValueOfAppend(s[1..], b);
      ShiftPlus7(b % 128, 7 * |s[1..]|);
    }
  }

  // ----- Byte by byte, as the readers' loops go -----

  /** The first `k` bytes all say that more follows. */
  predicate Continues(s: Buffer, k: nat)
  {
    k <= |s| && forall j :: 0 <= j < k ==> s[j] >= 128
  }

  lemma {:induction false} LastByteEnds(s: Buffer, k: nat)
    requires Continues(s, k) && k < |s| && s[k] < 128
    ensures IsLeb(s[..k + 1])
  {
    if k > 0 {
      LastByteEnds(s[1..], k - 1);
      assert s[..k + 1][1..] == s[1..][..k];
    }
  }

  lemma {:induction false} NoEndWithin(s: Buffer, k: nat, max: nat)
    requires Continues(s, k) && (k == |s| || k == max) && k <= max
    ensures LebPrefix(s, max) == 0
  {
    if k > 0 {
      NoEndWithin(s[1..], k - 1, max - 1);
    }
  }

  /** The value read so far, with one more byte. */
  lemma NextByte(s: Buffer, k: nat)
    requires k < |s|
    ensures LebValue(s[..k + 1]) == LebValue(s[..k]) + ShiftLeft(s[k] % 128, 7 * k)
    ensures LebValue(s[..k]) < Pow2(7 * k)
  {
    assert s[..k + 1] == s[..k] + [s[k]];
    LebValueOfAppend(s[..k], s[k]);
    LebValueIsBelow(s[..k]);
  }

  // ----- Zigzag -----

  predicate Signed(x: int, bits: nat)
    requires bits > 0
  {
    0 - Pow2(bits - 1) <= x < Pow2(bits - 1)
  }

  /** Non-negative values go to the even numbers, negative ones to the odd numbers. */
  function ZigZag(x: int): (u: nat)
  {
    if x >= 0 then 2 * x else 2 * (-x - 1) + 1
  }

  function UnZigZag(u: nat): int
  {
    if u % 2 == 1 then -(u / 2) - 1 else u / 2
  }

  /** Zigzag counts 0, -1, 1, -2, 2 and so on, and maps the signed range of `bits` bits one to one
      onto the unsigned range. */
  lemma ZigZagIsABijection(x: int, u: nat, bits: nat)
    requires bits > 0
    ensures UnZigZag(ZigZag(x)) == x && ZigZag(UnZigZag(u)) == u
    ensures ZigZag(x) % 2 == 0 <==> x >= 0
    ensures x >= 0 ==> ZigZag(x) < ZigZag(-x - 1) < ZigZag(x + 1)
    ensures Signed(x, bits) <==> ZigZag(x) < Pow2(bits)
    ensures Signed(UnZigZag(u), bits) <==> u < Pow2(bits)
  {
    assert Pow2(bits) == 2 * Pow2(bits - 1);
  }
}
