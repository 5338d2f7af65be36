/**
 Words as bit-vectors: the operators of Words, which work digit by digit on numbers, agree with
 those of a 32-bit machine, so that concrete hash values can be calculated.
 */
module WordBits {
  import opened Words
  import opened WordBytes
  import opened Sha1Spec

  function Digit(u: bv32, mask: bv32, n: nat): nat {
    if u & mask == 0 then 0 else n
  }

  /** The number that the lowest nine digits stand for. */
  function Number(u: bv32): nat {
    Digit(u, 1, 1) + Digit(u, 2, 2) + Digit(u, 4, 4) + Digit(u, 8, 8) + Digit(u, 0x10, 0x10)
      + Digit(u, 0x20, 0x20) + Digit(u, 0x40, 0x40) + Digit(u, 0x80, 0x80) + Digit(u, 0x100, 0x100)
  }

  /** The number that a bit-vector stands for. */
  function Value(x: bv32): Word {
    Bytes(x);
    0x100_0000 * Number(B3(x)) + 0x1_0000 * Number(B2(x)) + 0x100 * Number(B1(x)) + Number(B0(x))
  }

  // ----- nine bits

  lemma Half(u: bv32)
    requires u < 512
    ensures Number(u) == 2 * Number(Rest(u)) + Low(u) && Low(u) < 2
  {
  }

  lemma Zero(u: bv32)
    requires u < 512
    ensures u == 0 <==> Number(u) == 0
  {
  }

  /** What a byte, its rest and the sum of two bytes have below 512. */
  lemma Sizes(u: bv32, v: bv32, c: bv32, sum: bv32)
    requires ByteSum(u, v, c, sum)
    ensures u < 512 && v < 512 && sum < 512 && (u == 0 && v == 0 ==> sum == c) && (c == 0 || c == 1)
  {
  }

  lemma Small()
    ensures Number(0) == 0 && Number(1) == 1 && Low(0) == 0 && Low(1) == 1
  {
  }

  lemma Unfolded(x: nat, y: nat)
    ensures And(x, y) == if x == 0
      || y == 0 then 0 else 2 * And(x / 2, y / 2) + (if x % 2 == 1 && y % 2 == 1 then 1 else 0)
    ensures Xor(x, y) == if x == 0 && y == 0 then 0 else 2 * Xor(x / 2, y / 2) + (if x % 2 != y % 2 then 1 else 0)
  {
  }

  /** The operators on bytes. */
  lemma {:induction false} OpsOf(u: bv32, v: bv32, both: bv32, differ: bv32)
    requires ByteOps(u, v, both, differ)
    ensures And(Number(u), Number(v)) == Number(both) && Xor(Number(u), Number(v)) == Number(differ)
    decreases Number(u) + Number(v)
  {
    hide Number, And, Xor, Rest, Low, ByteOps;
    OpSizes(u, v, both, differ);
    Half(u);
    Half(v);
    Half(both);
    Half(differ);
    Zero(u);
    Zero(v);
    Small();
    Unfolded(Number(u), Number(v));
    if Number(u) != 0 || Number(v) != 0 {
      OpsOfDigit(u, v, both, differ);
      OpsOf(Rest(u), Rest(v), Rest(both), Rest(differ));
      Unfolded(Number(Rest(u)), Number(Rest(v)));
    }
  }

  lemma OpSizes(u: bv32, v: bv32, both: bv32, differ: bv32)
    requires ByteOps(u, v, both, differ)
    ensures u < 512 && v < 512 && both < 512 && differ < 512
    ensures (u == 0 || v == 0 ==> both == 0) && (u == 0 && v == 0 ==> differ == 0)
  {
  }

  /** The sum of two bytes and a carry. */
  lemma {:induction false} SumOf(u: bv32, v: bv32, c: bv32, sum: bv32)
    requires ByteSum(u, v, c, sum)
    ensures Number(sum) == Number(u) + Number(v) + Number(c)
    decreases Number(u) + Number(v)
  {
    hide Number, Rest, Low, Carry, ByteSum;
    Sizes(u, v, c, sum);
    Half(u);
    Half(v);
    Half(sum);
    Zero(u);
    Zero(v);
    Small();
    if Number(u) != 0 || Number(v) != 0 {
      SumOfDigit(u, v, c, sum);
      SumOfRest(u, v, c, sum);
      SumOf(Rest(u), Rest(v), Carry(u, v, c), Rest(sum));
      Sizes(Rest(u), Rest(v), Carry(u, v, c), Rest(sum));
    }
  }

  // ----- words

  lemma Bytes(x: bv32)
    ensures Number(B0(x)) < 256 && Number(B1(x)) < 256 && Number(B2(x)) < 256 && Number(B3(x)) < 256
  {
    hide Number, B0, B1, B2, B3;
    BytesAreSmall(x);
    BelowByte(B0(x));
    BelowByte(B1(x));
    BelowByte(B2(x));
    BelowByte(B3(x));
  }

  lemma BelowByte(u: bv32)
    requires u < 512
    ensures u < 256 <==> Number(u) < 256
  {
  }

  /** The operators work on parts of a number alone: one digit, and then two, four and eight. */
  lemma Split1(a: nat, b: nat, c: nat, d: nat)
    requires b < 2 && d < 2
    ensures And(2 * a + b, 2 * c + d) == 2 * And(a, c) + And(b, d)
    ensures Xor(2 * a + b, 2 * c + d) == 2 * Xor(a, c) + Xor(b, d)
  {
    hide And, Xor;
    Unfolded(2 * a + b, 2 * c + d);
    Unfolded(a, c);
    Unfolded(b, d);
    Unfolded(0, 0);
  }

  lemma Split2(a: nat, b: nat, c: nat, d: nat)
    requires b < 4 && d < 4
    ensures And(4 * a + b, 4 * c + d) == 4 * And(a, c) + And(b, d)
    ensures Xor(4 * a + b, 4 * c + d) == 4 * Xor(a, c) + Xor(b, d)
  {
    hide And, Xor;
    Split1(2 * a + b / 2, b % 2, 2 * c + d / 2, d % 2);
    Split1(a, b / 2, c, d / 2);
    Split1(b / 2, b % 2, d / 2, d % 2);
  }

  lemma Split4(a: nat, b: nat, c: nat, d: nat)
    requires b < 16 && d < 16
    ensures And(16 * a + b, 16 * c + d) == 16 * And(a, c) + And(b, d)
    ensures Xor(16 * a + b, 16 * c + d) == 16 * Xor(a, c) + Xor(b, d)
  {
    hide And, Xor;
    Split2(4 * a + b / 4, b % 4, 4 * c + d / 4, d % 4);
    Split2(a, b / 4, c, d / 4);
    Split2(b / 4, b % 4, d / 4, d % 4);
  }

  lemma Split8(a: nat, b: nat, c: nat, d: nat)
    requires b < 256 && d < 256
    ensures And(256 * a + b, 256 * c + d) == 256 * And(a, c) + And(b, d)
    ensures Xor(256 * a + b, 256 * c + d) == 256 * Xor(a, c) + Xor(b, d)
  {
    hide And, Xor;
    Split4(16 * a + b / 16, b % 16, 16 * c + d / 16, d % 16);
    Split4(a, b / 16, c, d / 16);
    Split4(b / 16, b % 16, d / 16, d % 16);
  }

  lemma ValueSplit(x: bv32)
    ensures Value(x) == 0x100 * (0x100 * (0x100 * Number(B3(x)) + Number(B2(x))) + Number(B1(x))) + Number(B0(x))
  {
    hide Number, B0, B1, B2, B3;
    Bytes(x);
  }

  lemma SplitWord(x3: nat, x2: nat, x1: nat, x0: nat, y3: nat, y2: nat, y1: nat, y0: nat)
    requires x2 < 256 && x1 < 256 && x0 < 256 && y2 < 256 && y1 < 256 && y0 < 256
    ensures And(0x100 * (0x100 * (0x100 * x3 + x2) + x1) + x0, 0x100 * (0x100 * (0x100 * y3 + y2) + y1) + y0)
         == 0x100 * (0x100 * (0x100 * And(x3, y3) + And(x2, y2)) + And(x1, y1)) + And(x0, y0)
    ensures Xor(0x100 * (0x100 * (0x100 * x3 + x2) + x1) + x0, 0x100 * (0x100 * (0x100 * y3 + y2) + y1) + y0)
         == 0x100 * (0x100 * (0x100 * Xor(x3, y3) + Xor(x2, y2)) + Xor(x1, y1)) + Xor(x0, y0)
  {
    hide And, Xor;
    Split8(x3, x2, y3, y2);
    Split8(0x100 * x3 + x2, x1, 0x100 * y3 + y2, y1);
    Split8(0x100 * (0x100 * x3 + x2) + x1, x0, 0x100 * (0x100 * y3 + y2) + y1, y0);
  }

  // ----- the operators of the machine

  function And32(x: bv32, y: bv32): bv32 { x & y }

  function Xor32(x: bv32, y: bv32): bv32 { x ^ y }

  function Add32(x: bv32, y: bv32): bv32 { x + y }

  lemma ValueOps(x: bv32, y: bv32)
    ensures And(Value(x), Value(y)) == Value(And32(x, y)) && Xor(Value(x), Value(y)) == Value(Xor32(x, y))
  {
    hide Number, And, Xor, B0, B1, B2, B3, Value;
    ValueSplit(x);
    ValueSplit(y);
    ValueSplit(x & y);
    ValueSplit(x ^ y);
    OpParts(x, y, x & y, x ^ y);
    Bytes(x);
    Bytes(y);
    SplitWord(Number(B3(x)), Number(B2(x)), Number(B1(x)), Number(B0(x)),
              Number(B3(y)), Number(B2(y)), Number(B1(y)), Number(B0(y)));
  }

  lemma OpParts(x: bv32, y: bv32, both: bv32, differ: bv32)
    requires both == x & y && differ == x ^ y
    ensures And(Number(B0(x)), Number(B0(y))) == Number(B0(both))
      && Xor(Number(B0(x)), Number(B0(y))) == Number(B0(differ))
    ensures And(Number(B1(x)), Number(B1(y))) == Number(B1(both))
      && Xor(Number(B1(x)), Number(B1(y))) == Number(B1(differ))
    ensures And(Number(B2(x)), Number(B2(y))) == Number(B2(both))
      && Xor(Number(B2(x)), Number(B2(y))) == Number(B2(differ))
    ensures And(Number(B3(x)), Number(B3(y))) == Number(B3(both))
      && Xor(Number(B3(x)), Number(B3(y))) == Number(B3(differ))
  {
    hide Number, And, Xor, B0, B1, B2, B3, ByteOps;
    OpsOfBytes(x, y);
    OpsOf(B0(x), B0(y), B0(both), B0(differ));
    OpsOf(B1(x), B1(y), B1(both), B1(differ));
    OpsOf(B2(x), B2(y), B2(both), B2(differ));
    OpsOf(B3(x), B3(y), B3(both), B3(differ));
  }

  lemma CarryOf(u: bv32, c: bv32)
    requires u < 256 && c < 2
    ensures Number(Joined(c, u)) == Number(u) + 256 * Number(c) && Number(c) < 2
  {
    if c == 0 {
      assert Joined(c, u) == u;
    } else {
      assert c == 1;
    }
  }

  /** One byte of a sum. */
  lemma ByteOfSum(u: bv32, v: bv32, c: bv32, r: bv32, d: bv32)
    requires ByteSum(u, v, c, Joined(d, r)) && r < 256 && d < 2
    ensures Number(u) + Number(v) + Number(c) == Number(r) + 256 * Number(d) && Number(d) < 2
  {
    hide Number, ByteSum, Joined;
    SumOf(u, v, c, Joined(d, r));
    CarryOf(r, d);
  }

  lemma SumParts(x: bv32, y: bv32, r: bv32)
    requires r == x + y
    ensures Number(B0(x)) + Number(B0(y)) == Number(B0(r)) + 256 * Number(C1(x, y))
    ensures Number(B1(x)) + Number(B1(y)) + Number(C1(x, y)) == Number(B1(r)) + 256 * Number(C2(x, y))
    ensures Number(B2(x)) + Number(B2(y)) + Number(C2(x, y)) == Number(B2(r)) + 256 * Number(C3(x, y))
    ensures Number(B3(x)) + Number(B3(y)) + Number(C3(x, y)) == Number(B3(r)) + 256 * Number(C4(x, y))
    ensures Number(C4(x, y)) < 2
  {
    hide Number, B0, B1, B2, B3, C1, C2, C3, C4, ByteSum, Joined;
    Sum0(x, y);
    Sum1(x, y);
    Sum2(x, y);
    Sum3(x, y);
    BytesAreSmall(r);
    Small();
    ByteOfSum(B0(x), B0(y), 0, B0(r), C1(x, y));
    ByteOfSum(B1(x), B1(y), C1(x, y), B1(r), C2(x, y));
    ByteOfSum(B2(x), B2(y), C2(x, y), B2(r), C3(x, y));
    ByteOfSum(B3(x), B3(y), C3(x, y), B3(r), C4(x, y));
  }

  /** Addition wraps. */
  lemma ValueSum(x: bv32, y: bv32)
    ensures Value(Add32(x, y)) == (Value(x) + Value(y)) % 0x1_0000_0000
  {
    hide Value, Number, B0, B1, B2, B3, C1, C2, C3, C4;
    SumParts(x, y, x + y);
    ValueSplit(x);
    ValueSplit(y);
    ValueSplit(x + y);
    Wraps(Value(x) + Value(y), Value(x + y), Number(C4(x, y)));
  }

  lemma Wraps(sum: nat, r: nat, carry: nat)
    requires sum == r + 0x1_0000_0000 * carry && carry < 2 && r < 0x1_0000_0000
    ensures r == sum % 0x1_0000_0000
  {
  }

  /** The top digit of a byte. */
  function Top(u: bv32): nat { Digit(u, 0x80, 1) }

  /** The number without the top digit. */
  function Below(u: bv32): nat { Number(u & 0x7f) }

  lemma TopApart(u: bv32)
    requires u < 256
    ensures Number(u) == Below(u) + 128 * Top(u) && Below(u) < 128 && Top(u) < 2
  {
  }

  lemma TopsApart(x: bv32)
    ensures Number(B3(x)) == Below(B3(x)) + 128 * Top(B3(x)) && Below(B3(x)) < 128 && Top(B3(x)) < 2
    ensures Number(B2(x)) == Below(B2(x)) + 128 * Top(B2(x)) && Below(B2(x)) < 128 && Top(B2(x)) < 2
    ensures Number(B1(x)) == Below(B1(x)) + 128 * Top(B1(x)) && Below(B1(x)) < 128 && Top(B1(x)) < 2
    ensures Number(B0(x)) == Below(B0(x)) + 128 * Top(B0(x)) && Below(B0(x)) < 128 && Top(B0(x)) < 2
  {
    hide Number, B0, B1, B2, B3, Top, Below;
    BytesAreSmall(x);
    TopApart(B3(x));
    TopApart(B2(x));
    TopApart(B1(x));
    TopApart(B0(x));
  }

  lemma Shifted(u: bv32, v: bv32)
    requires u < 256 && v < 256
    ensures Number(((u << 1) & 0xff) | (v >> 7)) == 2 * Below(u) + Top(v)
  {
  }

  function Rot1(x: bv32): bv32 { (x << 1) | (x >> 31) }

  lemma RotateParts(x: bv32)
    ensures var r := Rot1(x);
      && Number(B0(r)) == 2 * Below(B0(x)) + Top(B3(x)) && Number(B1(r)) == 2 * Below(B1(x)) + Top(B0(x))
      && Number(B2(r)) == 2 * Below(B2(x)) + Top(B1(x)) && Number(B3(r)) == 2 * Below(B3(x)) + Top(B2(x))
  {
    hide Number, B0, B1, B2, B3, Top, Below;
    RotatedBytes(x);
    BytesAreSmall(x);
    Shifted(B0(x), B3(x));
    Shifted(B1(x), B0(x));
    Shifted(B2(x), B1(x));
    Shifted(B3(x), B2(x));
  }

  /** One digit to the left, and the top digit to the bottom. */
  lemma ValueRotate(x: bv32)
    ensures Value(Rot1(x)) == RotL(1, Value(x))
  {
    hide Number, B0, B1, B2, B3, Top, Below, Value, Rot1, RotL;
    var r := Rot1(x);
    RotateParts(x);
    TopsApart(x);
    ValueSplit(x);
    ValueSplit(r);
    RotateNumber(Value(x), Value(r), Below(B3(x)), Below(B2(x)), Below(B1(x)), Below(B0(x)),
                 Top(B3(x)), Top(B2(x)), Top(B1(x)), Top(B0(x)));
  }

  /** The complement. */
  lemma ValueNot(x: bv32)
    ensures Value(Xor32(x, 0xFFFF_FFFF)) == BitNot(Value(x))
  {
    hide Number, B0, B1, B2, B3, Value, Xor32;
    NotParts(x);
    ValueSplit(x);
    ValueSplit(Xor32(x, 0xFFFF_FFFF));
  }

  lemma NotParts(x: bv32)
    ensures var r := Xor32(x, 0xFFFF_FFFF);
      && Number(B0(r)) == 255 - Number(B0(x)) && Number(B1(r)) == 255 - Number(B1(x))
      && Number(B2(r)) == 255 - Number(B2(x)) && Number(B3(r)) == 255 - Number(B3(x))
  {
    hide Number, B0, B1, B2, B3, ByteNot;
    var r := Xor32(x, 0xFFFF_FFFF);
    NotBytes(x);
    NotOf(B0(x), B0(r));
    NotOf(B1(x), B1(r));
    NotOf(B2(x), B2(r));
    NotOf(B3(x), B3(r));
  }

  lemma NotOf(u: bv32, r: bv32)
    requires ByteNot(u, r)
    ensures Number(r) == 255 - Number(u)
  {
  }

  lemma RotateNumber(n: nat, r: nat, l3: nat, l2: nat, l1: nat, l0: nat, t3: nat, t2: nat, t1: nat, t0: nat)
    requires l3 < 128 && l2 < 128 && l1 < 128 && l0 < 128 && t3 < 2 && t2 < 2 && t1 < 2 && t0 < 2
    requires n == 0x100 * (0x100 * (0x100 * (l3 + 128 * t3) + (l2 + 128 * t2)) + (l1 + 128 * t1)) + (l0 + 128 * t0)
    requires r == 0x100 * (0x100 * (0x100 * (2 * l3 + t2) + (2 * l2 + t1)) + (2 * l1 + t0)) + (2 * l0 + t3)
    ensures r == RotL(1, n)
  {
    DivisionUnique(n, 0x8000_0000, t3, n - 0x8000_0000 * t3);
  }
}
