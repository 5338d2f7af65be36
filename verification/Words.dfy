/**
 Bytes and 32-bit words as numbers.  Addition wraps modulo 2^32; the bitwise operators are
 defined one binary digit at a time, so that identities between them are proved by induction.
 */
module Words {

  type Byte = x: nat | x < 0x100
  type Word = x: nat | x < 0x1_0000_0000

  function Pow2(n: nat): (p: nat)
    ensures p > 0
  {
    if n == 0 then 1 else 2 * Pow2(n - 1)
  }

  lemma Pow2Of32()
    ensures Pow2(32) == 0x1_0000_0000
  {
    assert Pow2(8) == 0x100;
    assert Pow2(16) == 0x1_0000;
    assert Pow2(24) == 0x100_0000;
  }

  // ----- bitwise operators on numbers of any width

  function And(x: nat, y: nat): nat
    decreases x + y
  {
    if x == 0 || y == 0 then 0
    else 2 * And(x / 2, y / 2) + (if x % 2 == 1 && y % 2 == 1 then 1 else 0)
  }

  function Or(x: nat, y: nat): nat
    decreases x + y
  {
    if x == 0 && y == 0 then 0
    else 2 * Or(x / 2, y / 2) + (if x % 2 == 1 || y % 2 == 1 then 1 else 0)
  }

  function Xor(x: nat, y: nat): nat
    decreases x + y
  {
    if x == 0 && y == 0 then 0
    else 2 * Xor(x / 2, y / 2) + (if x % 2 != y % 2 then 1 else 0)
  }

  /** The complement of x among the numbers below 2^n. */
  function Not(n: nat, x: nat): nat
    requires x < Pow2(n)
  {
    Pow2(n) - 1 - x
  }

  lemma {:induction false} Bounded(n: nat, x: nat, y: nat)
    requires x < Pow2(n) && y < Pow2(n)
    ensures And(x, y) < Pow2(n) && Or(x, y) < Pow2(n) && Xor(x, y) < Pow2(n)
  {
    if n > 0 {
      Bounded(n - 1, x / 2, y / 2);
    }
  }

  // ----- the operators of a 32-bit machine

  function Add(x: Word, y: Word): Word {
    (x + y) % 0x1_0000_0000
  }

  function Sub(x: Word, y: Word): Word {
    (x - y) % 0x1_0000_0000
  }

  lemma BoundedWord(x: Word, y: Word)
    ensures And(x, y) < 0x1_0000_0000 && Or(x, y) < 0x1_0000_0000 && Xor(x, y) < 0x1_0000_0000
  {
    Pow2Of32();
    Bounded(32, x, y);
  }

  function BitAnd(x: Word, y: Word): Word {
    BoundedWord(x, y);
    And(x, y)
  }

  function BitOr(x: Word, y: Word): Word {
    BoundedWord(x, y);
    Or(x, y)
  }

  function BitXor(x: Word, y: Word): Word {
    BoundedWord(x, y);
    Xor(x, y)
  }

  function BitNot(x: Word): Word {
    0xFFFF_FFFF - x
  }

  function ShiftLeft(x: Word, n: nat): Word {
    x * Pow2(n) % 0x1_0000_0000
  }

  function ShiftRight(x: Word, n: nat): Word {
    QuotientBound(x, Pow2(n));
    x / Pow2(n)
  }

  lemma QuotientBound(x: nat, p: nat)
    requires p > 0
    ensures 0 <= x / p <= x
  {
    var q := x / p;
    assert x == p * q + x % p;
    if q < 0 {
      ProductNonNegative(p, -q - 1);
    } else {
      ProductNonNegative(p - 1, q);
    }
  }

  /** Quotient and remainder are determined by what they must satisfy. */
  lemma DivisionUnique(x: int, k: int, q: int, r: int)
    requires x == q * k + r && 0 <= r < k
    ensures x / k == q && x % k == r
  {
    var q', r' := x / k, x % k;
    assert x == k * q' + r';
    if q' < q {
      ProductNonNegative(q - q' - 1, k);
    } else if q < q' {
      ProductNonNegative(q' - q - 1, k);
    }
  }

  lemma ProductNonNegative(a: int, b: int)
    requires a >= 0 && b >= 0
    ensures a * b >= 0
  {
  }

  // ----- each operator, one digit at a time

  lemma AndDigit(x: nat, y: nat)
    ensures And(x, y) / 2 == And(x / 2, y / 2)
    ensures And(x, y) % 2 == 1 <==> x % 2 == 1 && y % 2 == 1
  {
  }

  lemma OrDigit(x: nat, y: nat)
    ensures Or(x, y) / 2 == Or(x / 2, y / 2)
    ensures Or(x, y) % 2 == 1 <==> x % 2 == 1 || y % 2 == 1
  {
  }

  lemma XorDigit(x: nat, y: nat)
    ensures Xor(x, y) / 2 == Xor(x / 2, y / 2)
    ensures Xor(x, y) % 2 == 1 <==> x % 2 != y % 2
  {
  }

  /** The two ways of writing the choice function agree: no bit is selected from both arguments. */
  lemma {:induction false} ChoiceForms(n: nat, x: nat, y: nat, z: nat)
    requires x < Pow2(n)
    ensures Or(And(x, y), And(Not(n, x), z)) == Xor(And(x, y), And(Not(n, x), z))
    decreases n
  {
    hide And, Or, Xor;
    var xy, xz := And(x, y), And(Not(n, x), z);
    if n == 0 {
      AndZero(y);
      AndZero(z);
      OrZero(0);
      XorZero(0);
    } else {
      ChoiceForms(n - 1, x / 2, y / 2, z / 2);
      AndDigit(x, y);
      AndDigit(Not(n, x), z);
      assert Not(n, x) / 2 == Not(n - 1, x / 2);
      OrDigit(xy, xz);
      XorDigit(xy, xz);
    }
  }

  lemma AndZero(x: nat)
    ensures And(0, x) == 0
  {
  }

  lemma {:induction false} OrZero(x: nat)
    ensures Or(x, 0) == x
  {
    if x > 0 {
      OrZero(x / 2);
    }
  }

  lemma {:induction false} XorZero(x: nat)
    ensures Xor(x, 0) == x && Xor(0, x) == x
  {
    if x > 0 {
      XorZero(x / 2);
    }
  }

  /** The two ways of writing the majority function agree: one or all three products hold. */
  lemma {:induction false} MajorityForms(x: nat, y: nat, z: nat)
    ensures Or(Or(And(x, y), And(x, z)), And(y, z)) == Xor(Xor(And(x, y), And(x, z)), And(y, z))
    decreases x + y + z
  {
    hide And, Or, Xor;
    var xy, xz, yz := And(x, y), And(x, z), And(y, z);
    if x + y + z == 0 {
      AndZero(0);
      OrZero(0);
      XorZero(0);
    } else {
      MajorityForms(x / 2, y / 2, z / 2);
      AndDigit(x, y);
      AndDigit(x, z);
      AndDigit(y, z);
      OrDigit(xy, xz);
      OrDigit(Or(xy, xz), yz);
      XorDigit(xy, xz);
      XorDigit(Xor(xy, xz), yz);
    }
  }

  lemma {:induction false} XorCancels(x: nat, y: nat)
    ensures Xor(Xor(x, y), x) == y
    ensures Xor(x, y) == Xor(y, x)
    decreases x + y
  {
    hide Xor;
    if x + y == 0 {
      XorZero(0);
    } else {
      XorCancels(x / 2, y / 2);
      XorDigit(x, y);
      XorDigit(y, x);
      XorDigit(Xor(x, y), x);
    }
  }

  /** Or of parts that share no bit position is their sum. */
  lemma {:induction false} OrOfParts(high: nat, k: nat, low: nat)
    requires low < Pow2(k)
    ensures Or(high * Pow2(k), low) == high * Pow2(k) + low
    decreases k
  {
    hide Or;
    if k == 0 {
      OrZero(high);
    } else {
      var half := high * Pow2(k - 1);
      Doubled(high, k);
      OrOfParts(high, k - 1, low / 2);
      OrDigit(2 * half, low);
    }
  }

  lemma Doubled(high: nat, k: nat)
    requires k > 0
    ensures high * Pow2(k) == 2 * (high * Pow2(k - 1))
  {
  }

  // ----- shifting bytes into place

  lemma Powers()
    ensures Pow2(1) == 2 && Pow2(2) == 4 && Pow2(5) == 32 && Pow2(8) == 0x100 && Pow2(16) == 0x1_0000
    ensures Pow2(24) == 0x100_0000 && Pow2(27) == 0x800_0000 && Pow2(30) == 0x4000_0000 && Pow2(31) == 0x8000_0000
  {
    assert Pow2(8) == 0x100;
    assert Pow2(16) == 0x1_0000;
    assert Pow2(24) == 0x100_0000;
  }

  lemma ShiftsOfByte(b: Byte)
    ensures ShiftLeft(b, 24) == b * 0x100_0000 && ShiftLeft(b, 16) == b * 0x1_0000 && ShiftLeft(b, 8) == b * 0x100
  {
    Powers();
    hide Pow2;
    var n: int := b;
    assert n * 0x100_0000 < 0x1_0000_0000;
  }

  lemma ShiftRightBytes(x: Word)
    ensures ShiftRight(x, 24) == x / 0x100_0000 && ShiftRight(x, 16) == x / 0x1_0000 && ShiftRight(x, 8) == x / 0x100
  {
    Powers();
    hide Pow2;
  }

  /** Four bytes shifted into place and or-ed together are the big-endian number they spell. */
  lemma BytesToWord(b0: Byte, b1: Byte, b2: Byte, b3: Byte)
    ensures BitOr(BitOr(BitOr(ShiftLeft(b0, 24), ShiftLeft(b1, 16)), ShiftLeft(b2, 8)), b3)
         == b0 * 0x100_0000 + b1 * 0x1_0000 + b2 * 0x100 + b3
  {
    hide Pow2, ShiftLeft, Or;
    Powers();
    ShiftsOfByte(b0);
    ShiftsOfByte(b1);
    ShiftsOfByte(b2);
    OrOfParts(b0, 24, b1 * 0x1_0000);
    OrOfParts(b0 * 0x100 + b1, 16, b2 * 0x100);
    OrOfParts(b0 * 0x1_0000 + b1 * 0x100 + b2, 8, b3);
  }
}
