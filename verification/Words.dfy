/** Byte strings, big-endian naturals and the one assumption made about hash functions. */
module Words {

  type Byte = n: nat | n < 256
  type Bytes = seq<Byte>

  function Pow256(n: nat): (p: nat)
    ensures p >= 1
  {
    if n == 0 then 1 else 256 * Pow256(n - 1)
  }

  /** `v >> 8k`. */
  function Shift(v: nat, k: nat): nat
    decreases k
  {
    if k == 0 then v else Shift(v / 256, k - 1)
  }

  /** The last `n` base-256 digits of `v`, most significant first. */
  function Big(v: nat, n: nat): (b: Bytes)
    ensures |b| == n
  {
    seq(n, i requires 0 <= i < n => Shift(v, n - 1 - i) % 256)
  }

  lemma {:induction false} BigStep(v: nat, n: nat)
    requires n > 0
    ensures Big(v, n) == Big(v / 256, n - 1) + [v % 256]
  {
    forall i | 0 <= i < n - 1 ensures Big(v, n)[i] == Big(v / 256, n - 1)[i] {
      assert Shift(v, n - 1 - i) == Shift(v / 256, n - 2 - i);
    }
    assert Shift(v, 0) == v;
    assert Big(v, n)[n - 1] == Shift(v, 0) % 256;
  }

  /** Python's `int.from_bytes(b, "big")`. */
  function Nat(b: Bytes): nat {
    if b == [] then 0 else Nat(b[..|b| - 1]) * 256 + b[|b| - 1]
  }

  function Zeros(n: nat): (b: Bytes)
    ensures |b| == n
  {
    seq(n, _ => 0)
  }

  lemma {:induction false} NatBound(b: Bytes)
    ensures Nat(b) < Pow256(|b|)
  {
    if b != [] {
      NatBound(b[..|b| - 1]);
    }
  }

  /** Reading back a number written in enough bytes gives the number. */
  lemma {:induction false} NatOfBig(v: nat, n: nat)
    requires v < Pow256(n)
    ensures Nat(Big(v, n)) == v
  {
    if n > 0 {
      BigStep(v, n);
      NatOfBig(v / 256, n - 1);
      assert Big(v, n)[..n - 1] == Big(v / 256, n - 1);
    }
  }

  /** Writing back a byte string read as a number gives the byte string. */
  lemma {:induction false} BigOfNat(b: Bytes)
    ensures Big(Nat(b), |b|) == b
  {
    if b != [] {
      var hi := b[..|b| - 1];
      BigOfNat(hi);
      BigStep(Nat(b), |b|);
      assert b == hi + [b[|b| - 1]];
    }
  }

  lemma {:induction false} BigInjective(v: nat, w: nat, n: nat)
    requires v < Pow256(n) && w < Pow256(n)
    requires Big(v, n) == Big(w, n)
    ensures v == w
  {
    NatOfBig(v, n);
    NatOfBig(w, n);
  }

  lemma {:induction false} PowAdd(m: nat, n: nat)
    ensures Pow256(m + n) == Pow256(m) * Pow256(n)
  {
    if n > 0 {
      PowAdd(m, n - 1);
      calc {
        Pow256(m + n);
        256 * Pow256(m + n - 1);
        256 * (Pow256(m) * Pow256(n - 1));
        Pow256(m) * (256 * Pow256(n - 1));
      }
    }
  }

  lemma {:induction false} NatConcat(a: Bytes, b: Bytes)
    ensures Nat(a + b) == Nat(a) * Pow256(|b|) + Nat(b)
  {
    if b == [] {
      assert a + b == a;
    } else {
      var lo := b[..|b| - 1];
      NatConcat(a, lo);
      assert (a + b)[..|a + b| - 1] == a + lo;
      calc {
        Nat(a + b);
        (Nat(a) * Pow256(|lo|) + Nat(lo)) * 256 + b[|b| - 1];
        Nat(a) * Pow256(|lo|) * 256 + (Nat(lo) * 256 + b[|b| - 1]);
        { assert Nat(a) * Pow256(|lo|) * 256 == Nat(a) * (256 * Pow256(|lo|)); }
        Nat(a) * Pow256(|b|) + Nat(b);
      }
    }
  }

  /** A word made of two halves: the halves are the two numbers, neither leaks into the other. */
  lemma {:induction false} BigHalves(hi: nat, lo: nat, m: nat, n: nat)
    requires hi < Pow256(m) && lo < Pow256(n)
    ensures hi * Pow256(n) + lo < Pow256(m + n)
    ensures Big(hi * Pow256(n) + lo, m + n) == Big(hi, m) + Big(lo, n)
  {
    var b := Big(hi, m) + Big(lo, n);
    NatOfBig(hi, m);
    NatOfBig(lo, n);
    NatConcat(Big(hi, m), Big(lo, n));
    NatBound(b);
    BigOfNat(b);
  }

  /** 2^64, 2^128 and 2^256 as powers of 256. */
  lemma {:induction false} WordSizes()
    ensures Pow256(4) == 0x1_0000_0000
    ensures Pow256(8) == 0x1_0000_0000_0000_0000
    ensures Pow256(16) == 0x1_0000_0000_0000_0000_0000_0000_0000_0000
    ensures Pow256(32) == Pow256(16) * Pow256(16)
  {
    assert Pow256(2) == 0x1_0000;
    PowAdd(2, 2);
    PowAdd(4, 4);
    PowAdd(8, 8);
    PowAdd(16, 16);
  }

  /**
   The only thing ever assumed of a hash: on the strings of `d` it returns 32 bytes and does not
   collide. `d` is always a finite set that the statement spells out, never all byte strings.
   */
  ghost predicate GoodHash(h: Bytes -> Bytes, d: set<Bytes>) {
    && (forall x :: x in d ==> |h(x)| == 32)
    && (forall x, y :: x in d && y in d && h(x) == h(y) ==> x == y)
  }
}
