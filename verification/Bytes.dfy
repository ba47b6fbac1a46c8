/** Big-endian byte strings: what `big.Int.Bytes`, `big.Int.SetBytes` and the
    hand-written integer encoders produce and read. */
module Bytes {
  type byte = b: int | 0 <= b < 256

  function Pow256(n: nat): nat {
    if n == 0 then 1 else 256 * Pow256(n - 1)
  }

  /** The shortest big-endian form; zero is the empty string. */
  function NatBytes(n: nat): seq<byte> {
    if n == 0 then [] else NatBytes(n / 256) + [n % 256]
  }

  function FromBytes(b: seq<byte>): nat {
    if b == [] then 0 else 256 * FromBytes(b[..|b| - 1]) + b[|b| - 1]
  }

  /** Exactly k big-endian bytes of n modulo 256^k. */
  function FixedBytes(n: nat, k: nat): (b: seq<byte>)
    ensures |b| == k
  {
    if k == 0 then [] else FixedBytes(n / 256, k - 1) + [n % 256]
  }

  predicate Minimal(b: seq<byte>) {
    b == [] || b[0] != 0
  }

  function Zeros(k: nat): (z: seq<byte>)
    ensures |z| == k
  {
    seq(k, i => 0)
  }

  lemma {:induction false} Pow256Positive(n: nat)
    ensures Pow256(n) >= 1
  {
    if n > 0 { Pow256Positive(n - 1); }
  }

  /** NatBytes is minimal and FromBytes undoes it. */
  lemma {:induction false} NatBytesValue(n: nat)
    ensures Minimal(NatBytes(n)) && FromBytes(NatBytes(n)) == n
    ensures n > 0 ==> NatBytes(n) != []
  {
    if n > 0 {
      NatBytesValue(n / 256);
      assert NatBytes(n)[..|NatBytes(n)| - 1] == NatBytes(n / 256);
    }
  }

  /** A minimal string is the only one with its value. */
  lemma {:induction false} MinimalIsNatBytes(b: seq<byte>)
    requires Minimal(b)
    ensures NatBytes(FromBytes(b)) == b
    ensures b != [] ==> FromBytes(b) > 0
  {
    if b != [] {
      var front, last := b[..|b| - 1], b[|b| - 1];
      MinimalIsNatBytes(front);
      assert b == front + [last];
      var n := FromBytes(b);
      assert n == 256 * FromBytes(front) + last;
      assert n / 256 == FromBytes(front) && n % 256 == last;
    }
  }

  lemma {:induction false} NatBytesInjective(m: nat, n: nat)
    ensures NatBytes(m) == NatBytes(n) <==> m == n
  {
    NatBytesValue(m);
    NatBytesValue(n);
  }

  /** k bytes hold exactly the numbers below 256^k. */
  lemma {:induction false} NatBytesLength(n: nat, k: nat)
    ensures |NatBytes(n)| <= k <==> n < Pow256(k)
  {
    Pow256Positive(k);
    if n > 0 && k > 0 {
      NatBytesLength(n / 256, k - 1);
      assert n / 256 < Pow256(k - 1) <==> n < 256 * Pow256(k - 1);
    }
  }

  lemma {:induction false} FromBytesBound(b: seq<byte>)
    ensures FromBytes(b) < Pow256(|b|)
  {
    if b != [] { FromBytesBound(b[..|b| - 1]); }
  }

  lemma {:induction false} FixedBytesValue(n: nat, k: nat)
    requires n < Pow256(k)
    ensures FromBytes(FixedBytes(n, k)) == n
  {
    if k > 0 {
      assert n / 256 < Pow256(k - 1);
      FixedBytesValue(n / 256, k - 1);
      assert FixedBytes(n, k)[..k - 1] == FixedBytes(n / 256, k - 1);
    }
  }

  /** The minimal form left-padded with zeros is the fixed-width form. */
  lemma {:induction false} PaddedIsFixed(n: nat, k: nat)
    requires n < Pow256(k)
    ensures |NatBytes(n)| <= k
    ensures Zeros(k - |NatBytes(n)|) + NatBytes(n) == FixedBytes(n, k)
  {
    NatBytesLength(n, k);
    if k > 0 {
      assert n / 256 < Pow256(k - 1);
      PaddedIsFixed(n / 256, k - 1);
      if n == 0 {
        assert Zeros(k) == Zeros(k - 1) + [0];
      } else {
        assert Zeros(k - |NatBytes(n)|) + NatBytes(n)
            == (Zeros(k - 1 - |NatBytes(n / 256)|) + NatBytes(n / 256)) + [n % 256];
      }
    }
  }

  lemma {:induction false} FixedBytesBack(b: seq<byte>)
    ensures FixedBytes(FromBytes(b), |b|) == b
  {
    if b != [] {
      var front, last := b[..|b| - 1], b[|b| - 1];
      FixedBytesBack(front);
      assert FromBytes(b) / 256 == FromBytes(front) && FromBytes(b) % 256 == last;
    }
  }
}
