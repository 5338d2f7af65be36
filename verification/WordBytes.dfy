/**
 Bit-vectors of 32 bits and their bytes: how the operators of a 32-bit machine work on the parts.
 */
module WordBytes {
  /** The bytes of a word, the lowest first. */
  function B0(x: bv32): bv32 { x & 0xff }

  function B1(x: bv32): bv32 { (x >> 8) & 0xff }

  function B2(x: bv32): bv32 { (x >> 16) & 0xff }

  function B3(x: bv32): bv32 { x >> 24 }

  lemma BytesAreSmall(x: bv32)
    ensures B0(x) < 256 && B1(x) < 256 && B2(x) < 256 && B3(x) < 256
  {
  }

  // ----- the bitwise operators

  predicate ByteOps(u: bv32, v: bv32, both: bv32, differ: bv32) {
    u < 256 && v < 256 && both == u & v && differ == u ^ v
  }

  /** The operators work on each byte apart. */
  lemma OpsOfBytes(x: bv32, y: bv32)
    ensures ByteOps(B0(x), B0(y), B0(x & y), B0(x ^ y)) && ByteOps(B1(x), B1(y), B1(x & y), B1(x ^ y))
    ensures ByteOps(B2(x), B2(y), B2(x & y), B2(x ^ y)) && ByteOps(B3(x), B3(y), B3(x & y), B3(x ^ y))
  {
  }

  predicate ByteNot(u: bv32, r: bv32) {
    u < 256 && r == u ^ 255
  }

  lemma NotBytes(x: bv32)
    ensures var r := x ^ 0xFFFF_FFFF;
      ByteNot(B0(x), B0(r)) && ByteNot(B1(x), B1(r)) && ByteNot(B2(x), B2(r)) && ByteNot(B3(x), B3(r))
  {
  }

  /** A rotation by one digit: each byte is shifted, and takes the top digit of the byte below. */
  lemma RotatedBytes(x: bv32)
    ensures var r := (x << 1) | (x >> 31);
      && B0(r) == ((B0(x) << 1) & 0xff) | (B3(x) >> 7) && B1(r) == ((B1(x) << 1) & 0xff) | (B0(x) >> 7)
      && B2(r) == ((B2(x) << 1) & 0xff) | (B1(x) >> 7) && B3(r) == ((B3(x) << 1) & 0xff) | (B2(x) >> 7)
  {
  }

  // ----- addition, from the lowest byte on

  /** Two bytes and a carry, and their sum. */
  predicate ByteSum(u: bv32, v: bv32, c: bv32, sum: bv32) {
    u < 256 && v < 256 && c < 2 && sum == u + v + c
  }

  /** The carry out of each byte. */
  function C1(x: bv32, y: bv32): bv32 { (B0(x) + B0(y)) >> 8 }

  function C2(x: bv32, y: bv32): bv32 { ((x & 0xffff) + (y & 0xffff)) >> 16 }

  function C3(x: bv32, y: bv32): bv32 { ((x & 0xff_ffff) + (y & 0xff_ffff)) >> 24 }

  function C4(x: bv32, y: bv32): bv32 { (B3(x) + B3(y) + C3(x, y)) >> 8 }

  /** A carry before a byte. */
  function Joined(carry: bv32, u: bv32): bv32 { (carry << 8) | u }

  lemma Sum0(x: bv32, y: bv32)
    ensures ByteSum(B0(x), B0(y), 0, Joined(C1(x, y), B0(x + y))) && C1(x, y) < 2
  {
    hide B1, B2, B3, C2, C3, C4;
  }

  lemma Sum1(x: bv32, y: bv32)
    ensures ByteSum(B1(x), B1(y), C1(x, y), Joined(C2(x, y), B1(x + y))) && C2(x, y) < 2
  {
    hide B2, B3, C3, C4;
  }

  lemma Sum2(x: bv32, y: bv32)
    ensures ByteSum(B2(x), B2(y), C2(x, y), Joined(C3(x, y), B2(x + y))) && C3(x, y) < 2
  {
    hide B0, B1, B3, C1, C4;
  }

  lemma Sum3(x: bv32, y: bv32)
    ensures ByteSum(B3(x), B3(y), C3(x, y), Joined(C4(x, y), B3(x + y))) && C4(x, y) < 2
  {
    hide B0, B1, B2, C1, C2;
  }

  // ----- one digit

  /** The digits but the lowest. */
  function Rest(u: bv32): bv32 { u >> 1 }

  /** The lowest digit. */
  function Low(u: bv32): nat { if u & 1 == 1 then 1 else 0 }

  lemma OpsOfDigit(u: bv32, v: bv32, both: bv32, differ: bv32)
    requires ByteOps(u, v, both, differ)
    ensures ByteOps(Rest(u), Rest(v), Rest(both), Rest(differ))
    ensures Low(both) == (if Low(u) == 1 && Low(v) == 1 then 1 else 0)
    ensures Low(differ) == (if Low(u) != Low(v) then 1 else 0)
  {
  }

  /** The next carry: two of three digits. */
  function Carry(u: bv32, v: bv32, c: bv32): bv32 { (u & v & 1) | (u & c) | (v & c) }

  lemma Halved(u: bv32, v: bv32, c: bv32)
    requires u < 256 && v < 256 && c < 2
    ensures (u + v + c) >> 1 == (u >> 1) + (v >> 1) + ((u & v & 1) | (u & c) | (v & c))
    ensures u >> 1 < 256 && v >> 1 < 256 && ((u & v & 1) | (u & c) | (v & c)) < 2
  {
  }

  lemma SumOfRest(u: bv32, v: bv32, c: bv32, sum: bv32)
    requires ByteSum(u, v, c, sum)
    ensures ByteSum(Rest(u), Rest(v), Carry(u, v, c), Rest(sum))
  {
    Halved(u, v, c);
  }

  /** The lowest digits of two bytes and a carry make a digit and the next carry. */
  lemma SumOfDigit(u: bv32, v: bv32, c: bv32, sum: bv32)
    requires ByteSum(u, v, c, sum)
    ensures Low(sum) + 2 * Low(Carry(u, v, c)) == Low(u) + Low(v) + Low(c)
  {
  }
}
