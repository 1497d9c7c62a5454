// The `isPowerOf2` test the three WebGL hosts (game of life, flood fill,
// maze generator) apply to their canvas size before creating textures:
// `v > 0 && !(v & (v - 1))`, with JavaScript's `&` working on the operands
// reduced to 32 bits.

module PowerOfTwo {

  /** 2^32: JavaScript's bitwise operators see their operands modulo this. */
  const Two32: int := 0x1_0000_0000

  /** Bitwise and of two naturals, one bit at a time from the lowest. */
  function BitAnd(a: nat, b: nat): nat
  {
    if a == 0 || b == 0 then 0
    else 2 * BitAnd(a / 2, b / 2) + (if a % 2 == 1 && b % 2 == 1 then 1 else 0)
  }

  /** `isPowerOf2(v)`: positive, and `v & (v - 1)` is zero once both
      operands are reduced to 32 bits (whether the signed result is zero does
      not depend on the sign, so the unsigned reduction is enough). */
  predicate IsPowerOf2(v: int)
  {
    v > 0 && BitAnd(v % Two32, (v - 1) % Two32) == 0
  }

  /** The reference: 2^k. */
  function Pow2(k: nat): nat
  {
    if k == 0 then 1 else 2 * Pow2(k - 1)
  }

  /** The floor of the base-2 logarithm (0 for 0 and 1). */
  function Log2(v: nat): nat
  {
    if v <= 1 then 0 else 1 + Log2(v / 2)
  }

  lemma {:induction false} BitAndSelf(m: nat)
    ensures BitAnd(m, m) == m
  {
    if m != 0 {
      BitAndSelf(m / 2);
    }
  }

  lemma {:induction false} Log2Pow2(k: nat)
    ensures Log2(Pow2(k)) == k
  {
    if k > 0 {
      Log2Pow2(k - 1);
      assert Pow2(k) / 2 == Pow2(k - 1);
    }
  }

  /** A positive v shares no bit with its predecessor exactly when it is
      the power of two its logarithm names. */
  lemma {:induction false} BitAndPredecessor(v: nat)
    requires v > 0
    ensures BitAnd(v, v - 1) == 0 <==> Pow2(Log2(v)) == v
  {
    if v == 1 {
    } else if v % 2 == 0 {
      BitAndPredecessor(v / 2);
      assert (v - 1) / 2 == v / 2 - 1;
      assert BitAnd(v, v - 1) == 2 * BitAnd(v / 2, v / 2 - 1);
      assert Pow2(Log2(v)) == 2 * Pow2(Log2(v / 2));
    } else {
      BitAndSelf(v / 2);
      assert BitAnd(v, v - 1) == 2 * BitAnd(v / 2, v / 2);
      assert Pow2(Log2(v)) == 2 * Pow2(Log2(v / 2));
    }
  }

  /** Below 2^32 the test accepts exactly the powers of two. */
  lemma IsPowerOf2Iff(v: int)
    requires v < Two32
    ensures IsPowerOf2(v) <==> v > 0 && exists k: nat :: Pow2(k) == v
  {
    if v > 0 {
      assert v % Two32 == v && (v - 1) % Two32 == v - 1;
      BitAndPredecessor(v);
      if IsPowerOf2(v) {
        assert Pow2(Log2(v)) == v;
      }
      if exists k: nat :: Pow2(k) == v {
        var k: nat :| Pow2(k) == v;
        Log2Pow2(k);
        assert Pow2(Log2(v)) == v;
      }
    }
  }

  /** Above 32 bits the reduction lets a non-power through: 2^32 + 1 is seen
      as 1, whose predecessor is 0. */
  lemma AcceptsAbove32Bits()
    ensures IsPowerOf2(Two32 + 1)
    ensures forall k: nat :: Pow2(k) != Two32 + 1
  {
    forall k: nat
      ensures Pow2(k) != Two32 + 1
    {
      if k > 0 {
        assert Pow2(k) == 2 * Pow2(k - 1);
      }
    }
  }
}
