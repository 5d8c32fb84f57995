/** Or, and, and left shift on unsigned words, bit by bit, and when they are arithmetic. */
module Words {
  import opened Arithmetic
  import opened Orders

  function Or(a: nat, b: nat): nat {
    if a == 0 && b == 0 then 0 else (if a % 2 == 1 || b % 2 == 1 then 1 else 0) + 2 * Or(a / 2, b / 2)
  }

  function And(a: nat, b: nat): nat {
    if a == 0 || b == 0 then 0 else (if a % 2 == 1 && b % 2 == 1 then 1 else 0) + 2 * And(a / 2, b / 2)
  }

  /** Each step to the left drops the highest of 64 bits. */
  function ShiftLeft(a: nat, k: nat): nat
    decreases k
  {
    if k == 0 then a % TWO64 else ShiftLeft(2 * a % TWO64, k - 1)
  }

  lemma {:induction false} OrZero(a: nat)
    ensures Or(a, 0) == a && Or(0, a) == a
  {
    if a > 0 { OrZero(a / 2); }
  }

  /** Fields that do not overlap are joined by adding them. */
  lemma {:induction false} OrDisjoint(high: nat, low: nat, k: nat)
    requires low < Pow2(k)
    ensures Or(high * Pow2(k), low) == high * Pow2(k) + low
    decreases k
  {
    if k == 0 {
      OrZero(high);
    } else {
      var shifted := high * Pow2(k - 1);
      assert high * Pow2(k) == 2 * shifted;
      OrDisjoint(high, low / 2, k - 1);
      OrOfEven(shifted, low);
    }
  }

  lemma OrOfEven(a: nat, b: nat)
    requires Or(a, b / 2) == a + b / 2
    ensures Or(2 * a, b) == 2 * a + b
  {
  }

  /** The lowest bits of a number. */
  lemma {:induction false} AndMask(a: nat, k: nat)
    ensures And(a, Pow2(k) - 1) == a % Pow2(k)
    decreases k
  {
    if a == 0 {
      Remainder(0, 0, Pow2(k), 0);
    } else if k > 0 {
      AndMask(a / 2, k - 1);
      RemainderBits(a, Pow2(k - 1));
    }
  }

  /** One bit more of a remainder. */
  lemma RemainderBits(a: nat, p: nat)
    requires p > 0
    ensures a % (2 * p) == a / 2 % p * 2 + a % 2
  {
    var h := a / 2;
    var q, r := h / p, h % p;
    assert h == q * p + r;
    assert a == q * (2 * p) + (2 * r + a % 2);
    Remainder(a, q, 2 * p, 2 * r + a % 2);
  }

  lemma {:induction false} ShiftIsProduct(a: nat, k: nat)
    ensures ShiftLeft(a, k) == a * Pow2(k) % TWO64
    decreases k
  {
    if k > 0 {
      ShiftIsProduct(2 * a % TWO64, k - 1);
      DropsTurns(2 * a, Pow2(k - 1));
      assert a * Pow2(k) == 2 * a * Pow2(k - 1);
    }
  }

  lemma DropsTurns(x: nat, p: nat)
    ensures x % TWO64 * p % TWO64 == x * p % TWO64
  {
    var turns := x / TWO64;
    assert x == turns * TWO64 + x % TWO64;
    assert x * p - x % TWO64 * p == turns * p * TWO64;
    Remainder(x * p - x % TWO64 * p, turns * p, TWO64, 0);
    SameRemainder(x * p, x % TWO64 * p, TWO64);
  }
}
