/**
 SHA-1 as FIPS 180-4 defines it: the functions of section 4.1.1, the constants of
 section 4.2.1, the padding of section 5.1.1, the initial value of section 5.3.1 and
 the block computation of section 6.1.2.  Nothing here knows about buffers or calls.
 */
module Sha1Spec {
  import opened Words
  import opened Blocks

  /** The five working variables a to e, and equally the five words of a hash value. */
  datatype Chain = Chain(a: Word, b: Word, c: Word, d: Word, e: Word)

  // ----- sections 3.2 and 4.1.1: rotation and the three round functions

  /** Circular left shift, by the three amounts that SHA-1 uses: the top n bits become the lowest. */
  function RotL(n: nat, x: Word): Word
    requires n == 1 || n == 5 || n == 30
  {
    if n == 1 then x % 0x8000_0000 * 2 + x / 0x8000_0000
    else if n == 5 then x % 0x800_0000 * 0x20 + x / 0x800_0000
    else x % 4 * 0x4000_0000 + x / 4
  }

  function Ch(x: Word, y: Word, z: Word): Word { BitXor(BitAnd(x, y), BitAnd(BitNot(x), z)) }

  function Parity(x: Word, y: Word, z: Word): Word { BitXor(BitXor(x, y), z) }

  function Maj(x: Word, y: Word, z: Word): Word { BitXor(BitXor(BitAnd(x, y), BitAnd(x, z)), BitAnd(y, z)) }

  function F(t: nat, x: Word, y: Word, z: Word): Word
    requires t < 80
  {
    if t < 20 then Ch(x, y, z)
    else if t < 40 then Parity(x, y, z)
    else if t < 60 then Maj(x, y, z)
    else Parity(x, y, z)
  }

  // ----- section 4.2.1

  function K(t: nat): Word
    requires t < 80
  {
    if t < 20 then 0x5A827999
    else if t < 40 then 0x6ED9EBA1
    else if t < 60 then 0x8F1BBCDC
    else 0xCA62C1D6
  }

  // ----- section 5.3.1

  const H0 := Chain(0x67452301, 0xEFCDAB89, 0x98BADCFE, 0x10325476, 0xC3D2E1F0)

  // ----- section 6.1.2

  function WordAt(bytes: seq<Byte>, i: nat): Word
    requires i + 4 <= |bytes|
  {
    var b0: int, b1: int, b2: int := bytes[i], bytes[i + 1], bytes[i + 2];
    b0 * 0x100_0000 + b1 * 0x1_0000 + b2 * 0x100 + bytes[i + 3]
  }

  function Xor4(x: Word, y: Word, z: Word, w: Word): Word {
    BitXor(BitXor(BitXor(x, y), z), w)
  }

  function Schedule(block: Block, t: nat): Word
    requires t < 80
  {
    if t < 16 then WordAt(block, 4 * t)
    else RotL(1, Xor4(Schedule(block, t - 3), Schedule(block, t - 8), Schedule(block, t - 14), Schedule(block, t - 16)))
  }

  /** The sum T of step 3. */
  function Temp(t: nat, w: Word, s: Chain): Word
    requires t < 80
  {
    (RotL(5, s.a) + F(t, s.b, s.c, s.d) + s.e + K(t) + w) % 0x1_0000_0000
  }

  function Round(t: nat, w: Word, s: Chain): Chain
    requires t < 80
  {
    Chain(Temp(t, w, s), s.a, RotL(30, s.b), s.c, s.d)
  }

  function Expand(block: Block): (words: seq<Word>)
    ensures |words| == 80
  {
    seq(80, t requires 0 <= t < 80 => Schedule(block, t))
  }

  /** The working variables after the first n rounds. */
  function Rounds(words: seq<Word>, s: Chain, n: nat): Chain
    requires n <= |words| <= 80
    decreases |words[..n]|
  {
    if n == 0 then s
    else Round(n - 1, words[n - 1], Rounds(words, s, n - 1))
  }

  function Plus(x: Chain, y: Chain): Chain {
    Chain(Add(x.a, y.a), Add(x.b, y.b), Add(x.c, y.c), Add(x.d, y.d), Add(x.e, y.e))
  }

  function Compress(h: Chain, block: Block): Chain
  {
    var words := Expand(block);
    Plus(h, Rounds(words, h, |words|))
  }

  // ----- section 5.1.1

  function Zeros(n: nat): (z: seq<Byte>) {
    seq(n, _ => 0)
  }

  /** How many zero bytes follow the byte that holds the bit "1". */
  function ZeroCount(n: nat): nat {
    (55 - n) % 64
  }

  /** Byte i, most significant first, of a number below 2^64. */
  function LengthByte(bits: nat, i: nat): Byte
    requires i < 8
  {
    if i == 0 then bits / 0x100_0000_0000_0000 % 0x100
    else if i == 1 then bits / 0x1_0000_0000_0000 % 0x100
    else if i == 2 then bits / 0x100_0000_0000 % 0x100
    else if i == 3 then bits / 0x1_0000_0000 % 0x100
    else if i == 4 then bits / 0x100_0000 % 0x100
    else if i == 5 then bits / 0x1_0000 % 0x100
    else if i == 6 then bits / 0x100 % 0x100
    else bits % 0x100
  }

  function LengthField(bits: nat): seq<Byte> {
    seq(8, i requires 0 <= i < 8 => LengthByte(bits, i))
  }

  function Padding(n: nat): seq<Byte> {
    [0x80] + Zeros(ZeroCount(n)) + LengthField(8 * n)
  }

  function Pad(message: seq<Byte>): (padded: seq<Byte>)
    ensures |padded| == 64 * ((|message| + 8) / 64 + 1)
  {
    message + Padding(|message|)
  }

  /** The hash value after the whole blocks of a message: section 6.1.2 before the padding matters. */
  function WholeBlocks(n: nat): (m: nat)
    ensures m <= n < m + 64 && m % 64 == 0
  {
    n - n % 64
  }

  function Sha1(message: seq<Byte>): Chain {
    Fold(Compress, H0, Pad(message))
  }
}
