/**
 SHA-1 on a machine with words of 32 bits.  Its functions agree with those of Sha1Spec, which are
 defined on numbers, for all words.
 */
module Sha1Machine {
  import opened Words
  import opened WordBits
  import opened Sha1Spec

  // ----- the functions of SHA-1 on a 32-bit machine

  datatype Chain32 = Chain32(a: bv32, b: bv32, c: bv32, d: bv32, e: bv32)

  function Rot5(x: bv32): bv32 { (x << 5) | (x >> 27) }

  function Rot30(x: bv32): bv32 { (x << 30) | (x >> 2) }

  function Ch32(x: bv32, y: bv32, z: bv32): bv32 { Xor32(And32(x, y), And32(Xor32(x, 0xFFFF_FFFF), z)) }

  function Maj32(x: bv32, y: bv32, z: bv32): bv32 { Xor32(Xor32(And32(x, y), And32(x, z)), And32(y, z)) }

  function Parity32(x: bv32, y: bv32, z: bv32): bv32 { Xor32(Xor32(x, y), z) }

  function F32(t: nat, x: bv32, y: bv32, z: bv32): bv32 {
    if t < 20 then Ch32(x, y, z) else if 40 <= t < 60 then Maj32(x, y, z) else Parity32(x, y, z)
  }

  function K32(t: nat): bv32 {
    if t < 20 then 0x5A82_7999 else if t < 40 then 0x6ED9_EBA1 else if t < 60 then 0x8F1B_BCDC else 0xCA62_C1D6
  }

  function Sum5(v: bv32, w: bv32, x: bv32, y: bv32, z: bv32): bv32 {
    Add32(Add32(Add32(Add32(v, w), x), y), z)
  }

  function XorFour(x: bv32, y: bv32, z: bv32, w: bv32): bv32 { Xor32(Xor32(Xor32(x, y), z), w) }

  function Round32(t: nat, w: bv32, s: Chain32): Chain32 {
    Chain32(Sum5(Rot5(s.a), F32(t, s.b, s.c, s.d), s.e, K32(t), w), s.a, Rot30(s.b), s.c, s.d)
  }

  function Plus32(x: Chain32, y: Chain32): Chain32 {
    Chain32(Add32(x.a, y.a), Add32(x.b, y.b), Add32(x.c, y.c), Add32(x.d, y.d), Add32(x.e, y.e))
  }

  // ----- they agree with the specification on all words

  function Values(s: Chain32): Chain {
    Chain(Value(s.a), Value(s.b), Value(s.c), Value(s.d), Value(s.e))
  }

  lemma Rot5Steps(x: bv32)
    ensures Rot5(x) == Rot1(Rot1(Rot1(Rot1(Rot1(x)))))
  {
  }

  /** The top digit of x, which one rotation brings to the bottom. */
  lemma TopDigit(x: Word) returns (d: nat)
    ensures d < 2 && 0 <= x - 0x8000_0000 * d < 0x8000_0000
    ensures RotL(1, x) == 2 * (x - 0x8000_0000 * d) + d
  {
    d := x / 0x8000_0000;
  }

  lemma RotL5Steps(x: Word)
    ensures RotL(5, x) == RotL(1, RotL(1, RotL(1, RotL(1, RotL(1, x)))))
  {
    var x1: int := RotL(1, x);
    var x2: int := RotL(1, x1);
    var x3: int := RotL(1, x2);
    var x4: int := RotL(1, x3);
    var d1 := TopDigit(x);
    var d2 := TopDigit(x1);
    var d3 := TopDigit(x2);
    var d4 := TopDigit(x3);
    var d5 := TopDigit(x4);
    FiveDigits(x, x1, x2, x3, x4, RotL(1, x4), d1, d2, d3, d4, d5);
  }

  lemma FiveDigits(x: Word, x1: int, x2: int, x3: int, x4: int, x5: Word, d1: nat, d2: nat, d3: nat, d4: nat, d5: nat)
    requires d1 < 2 && d2 < 2 && d3 < 2 && d4 < 2 && d5 < 2
    requires x1 == 2 * (x - 0x8000_0000 * d1) + d1 && x2 == 2 * (x1 - 0x8000_0000 * d2) + d2
    requires x3 == 2 * (x2 - 0x8000_0000 * d3) + d3 && x4 == 2 * (x3 - 0x8000_0000 * d4) + d4
    requires x5 == 2 * (x4 - 0x8000_0000 * d5) + d5
    ensures RotL(5, x) == x5
  {
    var q := 16 * d1 + 8 * d2 + 4 * d3 + 2 * d4 + d5;
    assert x5 == 32 * (x - 0x800_0000 * q) + q;
    DivisionUnique(x, 0x800_0000, q, x - 0x800_0000 * q);
  }

  lemma Rot30Undone(x: bv32)
    ensures Rot1(Rot1(Rot30(x))) == x
  {
  }

  lemma RotL30Undone(x: Word)
    ensures RotL(30, RotL(1, RotL(1, x))) == x
  {
    var x1: int := RotL(1, x);
    var x2: int := RotL(1, x1);
    var d1 := TopDigit(x);
    var d2 := TopDigit(x1);
    var q := 2 * d1 + d2;
    assert x2 == 4 * (x - 0x4000_0000 * q) + q;
    DivisionUnique(x2, 4, x - 0x4000_0000 * q, q);
  }

  lemma ValueRot(x: bv32)
    ensures Value(Rot5(x)) == RotL(5, Value(x)) && Value(Rot30(x)) == RotL(30, Value(x))
  {
    hide Value, Rot1, Rot5, Rot30, RotL;
    Rot5Steps(x);
    ValueRotate(x);
    ValueRotate(Rot1(x));
    ValueRotate(Rot1(Rot1(x)));
    ValueRotate(Rot1(Rot1(Rot1(x))));
    ValueRotate(Rot1(Rot1(Rot1(Rot1(x)))));
    RotL5Steps(Value(x));
    Rot30Undone(x);
    ValueRotate(Rot30(x));
    ValueRotate(Rot1(Rot30(x)));
    RotL30Undone(Value(Rot30(x)));
  }

  lemma ValueCh(x: bv32, y: bv32, z: bv32)
    ensures Value(Ch32(x, y, z)) == Ch(Value(x), Value(y), Value(z))
  {
    hide Value, And, Xor, And32, Xor32;
    var not := Xor32(x, 0xFFFF_FFFF);
    ValueNot(x);
    ValueOps(x, y);
    ValueOps(not, z);
    ValueOps(And32(x, y), And32(not, z));
  }

  lemma ValueParity(x: bv32, y: bv32, z: bv32)
    ensures Value(Parity32(x, y, z)) == Parity(Value(x), Value(y), Value(z))
  {
    hide Value, Xor, Xor32;
    ValueOps(x, y);
    ValueOps(Xor32(x, y), z);
  }

  lemma ValueMaj(x: bv32, y: bv32, z: bv32)
    ensures Value(Maj32(x, y, z)) == Maj(Value(x), Value(y), Value(z))
  {
    hide Value, And, Xor, And32, Xor32;
    ValueOps(x, y);
    ValueOps(x, z);
    ValueOps(y, z);
    ValueOps(And32(x, y), And32(x, z));
    ValueOps(Xor32(And32(x, y), And32(x, z)), And32(y, z));
  }

  lemma ValueF(t: nat, x: bv32, y: bv32, z: bv32)
    requires t < 80
    ensures Value(F32(t, x, y, z)) == F(t, Value(x), Value(y), Value(z))
  {
    hide Value, Ch, Maj, Parity, Ch32, Maj32, Parity32;
    ValueCh(x, y, z);
    ValueMaj(x, y, z);
    ValueParity(x, y, z);
  }

  lemma ValueK(t: nat)
    requires t < 80
    ensures Value(K32(t)) == K(t)
  {
  }

  lemma ValueSum5(v: bv32, w: bv32, x: bv32, y: bv32, z: bv32)
    ensures Value(Sum5(v, w, x, y, z)) == (Value(v) + Value(w) + Value(x) + Value(y) + Value(z)) % 0x1_0000_0000
  {
    hide Value, Add32;
    ValueSum(v, w);
    ValueSumOf(Add32(v, w), Value(v) + Value(w), x);
    ValueSumOf(Add32(Add32(v, w), x), Value(v) + Value(w) + Value(x), y);
    ValueSumOf(Add32(Add32(Add32(v, w), x), y), Value(v) + Value(w) + Value(x) + Value(y), z);
  }

  lemma ValueAdd(x: bv32, y: bv32)
    ensures Value(Add32(x, y)) == Add(Value(x), Value(y))
  {
    hide Value, Add32;
    ValueSum(x, y);
  }

  lemma ValueSumOf(x: bv32, n: nat, y: bv32)
    requires Value(x) == n % 0x1_0000_0000
    ensures Value(Add32(x, y)) == (n + Value(y)) % 0x1_0000_0000
  {
    hide Value, Add32;
    ValueSum(x, y);
  }

  /** A round of the machine is a round of the specification. */
  lemma ValueRound(t: nat, w: bv32, s: Chain32)
    requires t < 80
    ensures Values(Round32(t, w, s)) == Round(t, Value(w), Values(s))
  {
    hide Value, F, F32, K, K32, Rot5, Rot30, RotL, Sum5;
    ValueF(t, s.b, s.c, s.d);
    ValueK(t);
    ValueRot(s.a);
    ValueRot(s.b);
    ValueSum5(Rot5(s.a), F32(t, s.b, s.c, s.d), s.e, K32(t), w);
  }

  lemma ValueXor4(x: bv32, y: bv32, z: bv32, w: bv32)
    ensures Value(XorFour(x, y, z, w)) == Xor4(Value(x), Value(y), Value(z), Value(w))
  {
    hide Value, Xor, Xor32;
    ValueOps(x, y);
    ValueOps(Xor32(x, y), z);
    ValueOps(Xor32(Xor32(x, y), z), w);
  }

  lemma ValuePlus(x: Chain32, y: Chain32)
    ensures Values(Plus32(x, y)) == Plus(Values(x), Values(y))
  {
    hide Value, Add32, Add;
    ValueAdd(x.a, y.a);
    ValueAdd(x.b, y.b);
    ValueAdd(x.c, y.c);
    ValueAdd(x.d, y.d);
    ValueAdd(x.e, y.e);
  }
}
