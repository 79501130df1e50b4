/**
  Bitwise operations on natural numbers, defined digit by digit.
 */
module Bits {
  function Pow2(k: nat): (p: nat)
    ensures p > 0
  {
    if k == 0 then 1 else 2 * Pow2(k - 1)
  }

  function Or(a: nat, b: nat): nat {
    if a == 0 && b == 0 then 0
    else 2 * Or(a / 2, b / 2) + (if a % 2 == 1 || b % 2 == 1 then 1 else 0)
  }

  function And(a: nat, b: nat): nat {
    if a == 0 || b == 0 then 0
    else 2 * And(a / 2, b / 2) + (if a % 2 == 1 && b % 2 == 1 then 1 else 0)
  }

  /** The `k` lowest bits of `a`. */
  function Low(a: nat, k: nat): nat {
    if k == 0 then 0 else 2 * Low(a / 2, k - 1) + a % 2
  }

  lemma {:induction false} LowOfZero(k: nat)
    ensures Low(0, k) == 0
  {
    if k > 0 { LowOfZero(k - 1); }
  }

  lemma {:induction false} AndKeepsLow(a: nat, k: nat)
    ensures And(a, Pow2(k) - 1) == Low(a, k)
  {
    if a == 0 {
      LowOfZero(k);
    } else if k > 0 {
      AndKeepsLow(a / 2, k - 1);
      assert (Pow2(k) - 1) / 2 == Pow2(k - 1) - 1 && (Pow2(k) - 1) % 2 == 1;
    }
  }

  lemma {:induction false} LowIsRemainder(a: nat, k: nat)
    ensures Low(a, k) == a % Pow2(k)
  {
    if k > 0 {
      LowIsRemainder(a / 2, k - 1);
      ModDouble(a, Pow2(k - 1));
    }
  }

  /** Masking with one less than a power of two is the remainder by it. */
  lemma AndMask(a: nat, k: nat)
    ensures And(a, Pow2(k) - 1) == a % Pow2(k)
  {
    AndKeepsLow(a, k);
    LowIsRemainder(a, k);
  }

  lemma ModDouble(a: nat, p: nat)
    requires p > 0
    ensures a % (2 * p) == 2 * ((a / 2) % p) + a % 2
  {
    var q, r := (a / 2) / p, (a / 2) % p;
    assert a / 2 == q * p + r;
    assert a == 2 * (q * p + r) + a % 2 == q * (2 * p) + (2 * r + a % 2);
    RemainderUnique(a, q, 2 * r + a % 2, 2 * p);
  }

  lemma {:induction false} MulStep(x: nat, y: nat, m: nat)
    ensures x < y ==> x * m + m <= y * m
    decreases y
  {
    if x + 1 < y {
      MulStep(x, y - 1, m);
      MulNext(y - 1, m);
    } else if x + 1 == y {
      MulNext(x, m);
    }
  }

  lemma MulNext(x: nat, m: nat)
    ensures (x + 1) * m == x * m + m
  {}

  lemma RemainderUnique(a: nat, q: nat, r: nat, m: nat)
    requires m > 0 && r < m && a == q * m + r
    ensures a % m == r && a / m == q
  {
    var q' := a / m;
    assert a == q' * m + a % m;
    MulStep(q', q, m);
    MulStep(q, q', m);
  }

  /** Joining a low part below 2^k with a multiple of 2^k adds them. */
  lemma {:induction false} OrDisjoint(x: nat, y: nat, k: nat)
    requires y < Pow2(k)
    ensures Or(x * Pow2(k), y) == x * Pow2(k) + y
  {
    if k == 0 {
      OrZero(x);
    } else if !(x == 0 && y == 0) {
      var p := Pow2(k - 1);
      assert x * Pow2(k) == 2 * (x * p);
      OrDisjoint(x, y / 2, k - 1);
    }
  }

  lemma {:induction false} OrZero(x: nat)
    ensures Or(x, 0) == x
  {
    if x > 0 { OrZero(x / 2); }
  }

  lemma {:induction false} OrBounds(a: nat, b: nat)
    ensures a <= Or(a, b) && b <= Or(a, b) <= a + b
  {
    if a > 0 || b > 0 { OrBounds(a / 2, b / 2); }
  }
}
