/** Python's `<<` and `|` on non-negative integers, written out arithmetically
    (Python integers are unbounded, so nothing wraps). */
module Bits {

  function Pow2(k: nat): (p: nat)
    ensures p >= 1
  {
    if k == 0 then 1 else 2 * Pow2(k - 1)
  }

  /** `x << k`: the low `k` bits of the result are zero and dropping them
      gives back `x`. */
  function ShiftLeft(x: nat, k: nat): (r: nat)
    ensures r % Pow2(k) == 0 && r / Pow2(k) == x
  {
    MultipleDivMod(x, Pow2(k));
    x * Pow2(k)
  }

  /** Dividing `x * p` by `p` leaves no remainder and gives back `x`. */
  lemma MultipleDivMod(x: nat, p: nat)
    requires p >= 1
    ensures (x * p) % p == 0 && (x * p) / p == x
  {
    var q, m := (x * p) / p, (x * p) % p;
    assert x * p == p * q + m && 0 <= m < p;
    if q < x {
      MulAtLeast(p, x - q);
    } else if q > x {
      MulAtLeast(p, q - x);
    }
  }

  /** A positive multiple of `p` is at least `p`. */
  lemma MulAtLeast(p: int, d: int)
    requires p >= 1 && d >= 1
    ensures p * d >= p
  {
    assert p * d == p * (d - 1) + p;
  }

  /** `a | b`, bit by bit from the least significant end. The result has
      every bit of either operand, so it is at least each of them and at
      most their sum, and its lowest bit is set when either lowest bit is. */
  function BitOr(a: nat, b: nat): (r: nat)
    ensures a <= r && b <= r && r <= a + b
    ensures r % 2 == 1 <==> (a % 2 == 1 || b % 2 == 1)
    decreases a + b
  {
    if a == 0 then b
    else if b == 0 then a
    else
      var rest := BitOr(a / 2, b / 2);
      var bit := if a % 2 == 1 || b % 2 == 1 then 1 else 0;
      assert a == 2 * (a / 2) + a % 2 && b == 2 * (b / 2) + b % 2;
      assert (2 * rest + bit) % 2 == bit;
      2 * rest + bit
  }

  /** Bit `i` of `n`, counting from the least significant bit 0. */
  predicate Bit(n: nat, i: nat)
  {
    if i == 0 then n % 2 == 1 else Bit(n / 2, i - 1)
  }

  /** Zero has no bit set. */
  lemma {:induction false} NoBitOfZero(i: nat)
    ensures !Bit(0, i)
  {
    if i > 0 {
      NoBitOfZero(i - 1);
    }
  }

  /** Each bit of `a | b` is set exactly when that bit of `a` or of `b` is. */
  lemma {:induction false} BitOrBits(a: nat, b: nat, i: nat)
    ensures Bit(BitOr(a, b), i) <==> Bit(a, i) || Bit(b, i)
    decreases a + b
  {
    if a == 0 {
      NoBitOfZero(i);
    } else if b == 0 {
      NoBitOfZero(i);
    } else if i > 0 {
      var r := BitOr(a, b);
      assert r / 2 == BitOr(a / 2, b / 2);
      BitOrBits(a / 2, b / 2, i - 1);
    }
  }

  /** When `b` fits below bit `k`, the bits of `a << k` and `b` do not meet,
      so or-ing them is the same as adding them. */
  lemma {:induction false} BitOrDisjoint(a: nat, b: nat, k: nat)
    requires b < Pow2(k)
    ensures BitOr(ShiftLeft(a, k), b) == ShiftLeft(a, k) + b
    decreases k
  {
    var s := ShiftLeft(a, k);
    if s == 0 || b == 0 {
    } else {
      assert k > 0;
      var s' := ShiftLeft(a, k - 1);
      assert s == 2 * s';
      assert s / 2 == s' && s % 2 == 0;
      BitOrDisjoint(a, b / 2, k - 1);
    }
  }
}
