/** Bytes, buffers and the powers of two that shifts stand for. */
module Bytes {

  type byte = x: int | 0 <= x < 256

  type Buffer = seq<byte>

  datatype Option<+T> = None | Some(value: T)

  function Pow2(n: nat): (p: nat)
    ensures p >= 1
  {
    if n == 0 then 1 else 2 * Pow2(n - 1)
  }

  lemma Pow2Plus7(n: nat)
    ensures Pow2(n + 7) == 128 * Pow2(n)
  {
    assert Pow2(n + 3) == 8 * Pow2(n) by {
      assert Pow2(n + 2) == 2 * Pow2(n + 1);
    }
    assert Pow2(n + 6) == 8 * Pow2(n + 3) by {
      assert Pow2(n + 5) == 2 * Pow2(n + 4);
    }
  }

  lemma Pow2Monotone(m: nat, n: nat)
    requires m <= n
    ensures Pow2(m) <= Pow2(n)
    decreases n
  {
    if m < n {
      Pow2Monotone(m, n - 1);
    }
  }

  /** `x << n` without truncation. */
  function ShiftLeft(x: nat, n: nat): nat
  {
    if n == 0 then x else 2 * ShiftLeft(x, n - 1)
  }

  lemma ShiftPlus7(x: nat, n: nat)
    ensures ShiftLeft(x, n + 7) == 128 * ShiftLeft(x, n)
  {
    assert ShiftLeft(x, n + 3) == 8 * ShiftLeft(x, n) by {
      assert ShiftLeft(x, n + 2) == 2 * ShiftLeft(x, n + 1);
    }
    assert ShiftLeft(x, n + 6) == 8 * ShiftLeft(x, n + 3) by {
      assert ShiftLeft(x, n + 5) == 2 * ShiftLeft(x, n + 4);
    }
  }

  lemma {:induction false} ShiftAdds(x: nat, y: nat, n: nat)
    ensures ShiftLeft(x + y, n) == ShiftLeft(x, n) + ShiftLeft(y, n)
  {
    if n > 0 {
      ShiftAdds(x, y, n - 1);
    }
  }

  lemma {:induction false} ShiftOfPower(r: nat, n: nat)
    ensures ShiftLeft(Pow2(r), n) == Pow2(n + r)
  {
    if n > 0 {
      ShiftOfPower(r, n - 1);
    }
  }

  /** A payload shifted past `low` fits in n + r bits exactly when the payload fits in r bits. */
  lemma ShiftFits(low: nat, payload: nat, n: nat, r: nat)
    requires low < Pow2(n)
    ensures low + ShiftLeft(payload, n) < Pow2(n + r) <==> payload < Pow2(r)
  {
    ShiftOfPower(r, n);
    ShiftOfPower(0, n);
    if payload < Pow2(r) {
      ShiftAdds(payload, 1, n);
      ShiftAdds(payload + 1, Pow2(r) - payload - 1, n);
    } else {
      ShiftAdds(Pow2(r), payload - Pow2(r), n);
    }
  }

  lemma Reassociate<T>(a: seq<T>, b: seq<T>, c: seq<T>)
    ensures (a + b) + c == a + (b + c)
  {
  }

  lemma SplitAt<T>(s: seq<T>, k: nat)
    requires k <= |s|
    ensures s == s[..k] + s[k..]
  {
  }

  lemma FrontOfTail<T>(s: seq<T>, k: nat)
    requires 1 <= k <= |s|
    ensures s[..k] == [s[0]] + s[1..][..k - 1]
  {
  }

  lemma QuotientIs(v: nat, p: nat, q: nat, r: nat)
    requires p >= 1 && v == p * q + r && r < p
    ensures v / p == q
  {
    Scaled(p, v / p + 1, q);
    Scaled(p, q + 1, v / p);
    assert v == p * (v / p) + v % p;
  }

  lemma Scaled(p: nat, a: int, b: int)
    ensures a <= b ==> p * a <= p * b
    ensures p * (a + 1) == p * a + p
  {
  }
}
