/**
 The streaming SHA-1 engine: a context that is reset, fed byte by byte through a 64-byte
 buffer, and padded and finished on demand, proved to compute Sha1Spec.Sha1.
 */
module Sha1Engine {
  import opened Words
  import opened Blocks
  import opened Sha1Spec
  import opened Sha1Lemmas
  import opened Sha1Stream

  // ----- the operators as the engine writes them

  function CircularShift(bits: nat, word: Word): Word
    requires bits <= 32
  {
    BitOr(ShiftLeft(word, bits), ShiftRight(word, 32 - bits))
  }

  /** The shift-and-or macro is the rotation of the standard, for the amounts used. */
  lemma CircularShiftIsRotL(bits: nat, word: Word)
    requires bits == 1 || bits == 5 || bits == 30
    ensures CircularShift(bits, word) == RotL(bits, word)
  {
    Powers();
    hide Pow2, Or;
    var rest := if bits == 1 then 0x8000_0000 else if bits == 5 then 0x800_0000 else 4;
    assert ShiftRight(word, 32 - bits) == word / rest;
    ShiftLeftTruncates(bits, rest, word);
    OrOfParts(word % rest, bits, word / rest);
  }

  lemma ShiftLeftTruncates(bits: nat, rest: nat, word: Word)
    requires (bits == 1 && rest == 0x8000_0000) || (bits == 5 && rest == 0x800_0000) || (bits == 30 && rest == 4)
    ensures ShiftLeft(word, bits) == word % rest * Pow2(bits)
    ensures word / rest < Pow2(bits)
  {
    Powers();
    hide Pow2;
    if bits == 1 {
      assert word * 2 % 0x1_0000_0000 == word % 0x8000_0000 * 2;
    } else if bits == 5 {
      assert word * 32 % 0x1_0000_0000 == word % 0x800_0000 * 32;
    } else {
      assert word * 0x4000_0000 % 0x1_0000_0000 == word % 4 * 0x4000_0000;
    }
  }

  function ChOr(b: Word, c: Word, d: Word): Word {
    BitOr(BitAnd(b, c), BitAnd(BitNot(b), d))
  }

  function MajOr(b: Word, c: Word, d: Word): Word {
    BitOr(BitOr(BitAnd(b, c), BitAnd(b, d)), BitAnd(c, d))
  }

  lemma ChOrIsCh(b: Word, c: Word, d: Word)
    ensures ChOr(b, c, d) == Ch(b, c, d)
  {
    Pow2Of32();
    ChoiceForms(32, b, c, d);
  }

  lemma MajOrIsMaj(b: Word, c: Word, d: Word)
    ensures MajOr(b, c, d) == Maj(b, c, d)
  {
    MajorityForms(b, c, d);
  }

  /** One pass of a round loop: shifting the five locals down is the standard's round. */
  lemma RoundStep(words: seq<Word>, h: Chain, t: nat, s: Chain, f: Word, temp: Word)
    requires t < |words| == 80 && s == Rounds(words, h, t)
    requires f == F(t, s.b, s.c, s.d)
    requires temp == (CircularShift(5, s.a) + f + s.e + words[t] + K(t)) % 0x1_0000_0000
    ensures Chain(temp, s.a, CircularShift(30, s.b), s.c, s.d) == Rounds(words, h, t + 1)
  {
    hide CircularShift, RotL, F, K;
    CircularShiftIsRotL(5, s.a);
    CircularShiftIsRotL(30, s.b);
  }

  /** One pass of the schedule's second loop. */
  lemma ScheduleWord(block: Block, t: nat)
    requires 16 <= t < 80
    ensures CircularShift(1, Xor4(Schedule(block, t - 3), Schedule(block, t - 8), Schedule(block, t - 14),
      Schedule(block, t - 16)))
         == Schedule(block, t)
  {
    hide CircularShift, RotL, Xor4;
    CircularShiftIsRotL(1, Xor4(Schedule(block, t - 3), Schedule(block, t - 8), Schedule(block, t - 14),
      Schedule(block, t - 16)));
  }

  class Sha1Context {
    const messageDigest: array<Word>
    const messageBlock: array<Byte>
    var lengthLow: Word
    var lengthHigh: Word
    var messageBlockIndex: int
    var computed: bool
    var corrupted: bool

    /** The bytes taken since the last reset, and the block computations made since then. */
    ghost var absorbed: seq<Byte>
    ghost var blocks: nat

    /** The fixed array sizes of the record. */
    ghost predicate Shape() {
      messageDigest.Length == 5 && messageBlock.Length == 64
    }

    ghost function Digest(): Chain
      requires Shape()
      reads messageDigest
    {
      Chain(messageDigest[0], messageDigest[1], messageDigest[2], messageDigest[3], messageDigest[4])
    }

    constructor ()
      ensures Shape() && fresh(messageDigest) && fresh(messageBlock)
    {
      messageDigest := new Word[5];
      messageBlock := new Byte[64];
    }

    /** The block function computes section 6.1.2 of FIPS 180-4 on the buffered block. */
    method ProcessMessageBlock()
      requires Shape()
      modifies messageDigest, this`messageBlockIndex, this`blocks
      ensures Digest() == Compress(old(Digest()), old(messageBlock[..]))
      ensures messageBlockIndex == 0 && blocks == old(blocks) + 1
    {
      hide Round, Schedule, F, K, RotL, CircularShift, Xor4, WordAt, ChOr, MajOr, Ch, Maj, Parity, ShiftLeft, BitOr;
      ghost var block: Block := messageBlock[..];
      ghost var words := Expand(block);
      ghost var h := Digest();
      var w := ExpandBlock();
      var a: Word, b: Word, c: Word, d: Word, e: Word := messageDigest[0], messageDigest[1], messageDigest[2],
        messageDigest[3], messageDigest[4];
      for t := 0 to 20
        invariant Chain(a, b, c, d, e) == Rounds(words, h, t)
        modifies {}
      {
        var temp: Word := (CircularShift(5, a) + ChOr(b, c, d) + e + w[t] + 0x5A827999) % 0x1_0000_0000;
        FirstQuarter(t, b, c, d);
        RoundStep(words, h, t, Chain(a, b, c, d, e), ChOr(b, c, d), temp);
        e, d, c, b, a := d, c, CircularShift(30, b), a, temp;
      }
      for t := 20 to 40
        invariant Chain(a, b, c, d, e) == Rounds(words, h, t)
        modifies {}
      {
        var temp: Word := (CircularShift(5, a) + Parity(b, c, d) + e + w[t] + 0x6ED9EBA1) % 0x1_0000_0000;
        SecondQuarter(t, b, c, d);
        RoundStep(words, h, t, Chain(a, b, c, d, e), Parity(b, c, d), temp);
        e, d, c, b, a := d, c, CircularShift(30, b), a, temp;
      }
      for t := 40 to 60
        invariant Chain(a, b, c, d, e) == Rounds(words, h, t)
        modifies {}
      {
        var temp: Word := (CircularShift(5, a) + MajOr(b, c, d) + e + w[t] + 0x8F1BBCDC) % 0x1_0000_0000;
        ThirdQuarter(t, b, c, d);
        RoundStep(words, h, t, Chain(a, b, c, d, e), MajOr(b, c, d), temp);
        e, d, c, b, a := d, c, CircularShift(30, b), a, temp;
      }
      for t := 60 to 80
        invariant Chain(a, b, c, d, e) == Rounds(words, h, t)
        modifies {}
      {
        var temp: Word := (CircularShift(5, a) + Parity(b, c, d) + e + w[t] + 0xCA62C1D6) % 0x1_0000_0000;
        LastQuarter(t, b, c, d);
        RoundStep(words, h, t, Chain(a, b, c, d, e), Parity(b, c, d), temp);
        e, d, c, b, a := d, c, CircularShift(30, b), a, temp;
      }
      messageDigest[0] := Add(messageDigest[0], a);
      messageDigest[1] := Add(messageDigest[1], b);
      messageDigest[2] := Add(messageDigest[2], c);
      messageDigest[3] := Add(messageDigest[3], d);
      messageDigest[4] := Add(messageDigest[4], e);
      messageBlockIndex := 0;
      blocks := blocks + 1;
    }

    /** The two loops that fill the schedule. */
    method ExpandBlock() returns (w: array<Word>)
      requires Shape()
      ensures fresh(w) && w[..] == Expand(messageBlock[..])
    {
      hide Schedule, CircularShift, Xor4, ShiftLeft, BitOr;
      ghost var block: Block := messageBlock[..];
      w := new Word[80];
      for t := 0 to 16
        invariant forall i | 0 <= i < t :: w[i] == Schedule(block, i)
      {
        w[t] := ShiftLeft(messageBlock[t * 4], 24);
        w[t] := BitOr(w[t], ShiftLeft(messageBlock[t * 4 + 1], 16));
        w[t] := BitOr(w[t], ShiftLeft(messageBlock[t * 4 + 2], 8));
        w[t] := BitOr(w[t], messageBlock[t * 4 + 3]);
        FirstWords(block, t);
      }
      for t := 16 to 80
        invariant forall i | 0 <= i < t :: w[i] == Schedule(block, i)
      {
        w[t] := CircularShift(1, Xor4(w[t - 3], w[t - 8], w[t - 14], w[t - 16]));
        ScheduleWord(block, t);
      }
    }

    ghost function Model(): Stream
      reads this
    {
      Stream(absorbed, computed, corrupted)
    }

    /** The two halves of the length counter, read together. */
    ghost function BitCount(): nat
      reads this
    {
      var high: int := lengthHigh;
      high * 0x1_0000_0000 + lengthLow
    }

    /**
     What the fields say about the bytes taken: before the final padding the digest covers the
     whole blocks and the buffer holds the rest; afterwards the digest is the hash.
     */
    ghost predicate Valid()
      reads this, messageDigest, messageBlock
    {
      && Shape()
      && Model().Valid()
      && BitCount() == 8 * |absorbed| % 0x1_0000_0000_0000_0000
      && (if computed then
            && messageBlockIndex == 0
            && Digest() == Sha1(absorbed)
            && blocks == (|absorbed| + 8) / 64 + 1
          else
            && messageBlockIndex == |absorbed| % 64
            && messageBlock[..messageBlockIndex] == Tail(absorbed)
            && Digest() == Absorbed(absorbed)
            && blocks == |absorbed| / 64)
    }

    /** Nothing of the previous state survives, stale block bytes and flags included. */
    method Reset()
      requires Shape()
      modifies this, messageDigest
      ensures Valid() && Model() == FRESH
      ensures messageDigest[..] == [0x67452301, 0xEFCDAB89, 0x98BADCFE, 0x10325476, 0xC3D2E1F0]
    {
      hide Compress, Sha1, Absorbed, Tail;
      NothingAbsorbed();
      lengthLow, lengthHigh, messageBlockIndex := 0, 0, 0;
      messageDigest[0] := 0x67452301;
      messageDigest[1] := 0xEFCDAB89;
      messageDigest[2] := 0x98BADCFE;
      messageDigest[3] := 0x10325476;
      messageDigest[4] := 0xC3D2E1F0;
      computed, corrupted := false, false;
      absorbed, blocks := [], 0;
    }

    method Input(message: seq<Byte>)
      requires Valid()
      modifies this, messageDigest, messageBlock
      ensures Valid() && Model() == old(Model()).Input(message)
    {
      hide Compress, Sha1, Absorbed, Tail;
      if |message| == 0 {
        return;
      }
      if computed || corrupted {
        corrupted := true;
        return;
      }
      ghost var before := absorbed;
      var i := 0;
      while i < |message| && !corrupted
        invariant 0 <= i <= |message| && Valid() && !computed
        invariant absorbed == before + message[..i]
      {
        InputByte(message[i]);
        assert message[..i + 1] == message[..i] + [message[i]];
        i := i + 1;
      }
      assert message[..|message|] == message;
    }

    /** One pass of the input loop. */
    method InputByte(b: Byte)
      requires Valid() && !computed && !corrupted
      modifies this, messageDigest, messageBlock
      ensures Valid() && !computed && absorbed == old(absorbed) + [b]
    {
      hide Compress, Sha1, Absorbed, Tail;
      AbsorbedNext(absorbed, b);
      messageBlock[messageBlockIndex] := b;
      messageBlockIndex := messageBlockIndex + 1;
      CountByte();
      absorbed := absorbed + [b];
      assert messageBlock[..messageBlockIndex] == old(Tail(absorbed)) + [b];
      if messageBlockIndex == 64 {
        assert messageBlock[..] == messageBlock[..64];
        ProcessMessageBlock();
      }
    }

    /** Eight more bits; the carry out of the upper half is the only corruption while bytes are taken. */
    method CountByte()
      requires |absorbed| < LIMIT && BitCount() == 8 * |absorbed| % 0x1_0000_0000_0000_0000
      modifies this`lengthLow, this`lengthHigh, this`corrupted
      ensures BitCount() == 8 * (|absorbed| + 1) % 0x1_0000_0000_0000_0000
      ensures corrupted == (old(corrupted) || |absorbed| + 1 == LIMIT)
    {
      CounterStep(lengthHigh, lengthLow, |absorbed|);
      lengthLow := (lengthLow + 8) % 0x1_0000_0000;
      if lengthLow == 0 {
        lengthHigh := (lengthHigh + 1) % 0x1_0000_0000;
        if lengthHigh == 0 {
          corrupted := true;
        }
      }
    }

    method Result() returns (ok: bool)
      requires Valid()
      modifies this, messageDigest, messageBlock
      ensures Valid() && Model() == old(Model()).Result()
      ensures ok == !old(corrupted)
      ensures old(computed) || old(corrupted) ==> Digest() == old(Digest())
    {
      hide Compress, Sha1, Absorbed, Tail;
      if corrupted {
        return false;
      }
      if !computed {
        PadMessage();
        computed := true;
      }
      return true;
    }

    /** The last one or two blocks, as section 5.1.1 of FIPS 180-4 lays them out. */
    method PadMessage()
      requires Valid() && !computed && !corrupted
      modifies messageDigest, messageBlock, this`messageBlockIndex, this`blocks
      ensures Digest() == Sha1(absorbed)
      ensures messageBlockIndex == 0 && blocks == (|absorbed| + 8) / 64 + 1
    {
      hide Compress, Sha1, Absorbed, LengthByte, Tail;
      if messageBlockIndex > 55 {
        FillFirstBlock();
        ghost var first: Block := messageBlock[..];
        ProcessMessageBlock();
        ZeroUntil(56);
        WriteLength();
        TwoBlockEnding(absorbed, first, messageBlock[..]);
      } else {
        AppendOne(56);
        WriteLength();
        OneBlockEnding(absorbed, messageBlock[..]);
      }
      ProcessMessageBlock();
    }

    method FillFirstBlock()
      requires Shape() && 55 < messageBlockIndex < 64
      modifies messageBlock, this`messageBlockIndex
      ensures messageBlock[..] == old(messageBlock[..messageBlockIndex]) + [0x80] + Zeros(63 - old(messageBlockIndex))
      ensures messageBlockIndex == 64
    {
      AppendOne(64);
      assert messageBlock[..] == messageBlock[..64];
    }

    /** The byte that holds the bit "1", and zeros after it. */
    method AppendOne(end: nat)
      requires Shape() && 0 <= messageBlockIndex < end <= 64
      modifies messageBlock, this`messageBlockIndex
      ensures messageBlockIndex == end
      ensures messageBlock[..end] == old(messageBlock[..messageBlockIndex]) + [0x80] + Zeros(end - old(messageBlockIndex) - 1)
    {
      messageBlock[messageBlockIndex] := 0x80;
      messageBlockIndex := messageBlockIndex + 1;
      ZeroUntil(end);
    }

    /** The zero-filling loops. */
    method ZeroUntil(end: nat)
      requires Shape() && 0 <= messageBlockIndex <= end <= 64
      modifies messageBlock, this`messageBlockIndex
      ensures messageBlockIndex == end
      ensures messageBlock[..end] == old(messageBlock[..messageBlockIndex]) + Zeros(end - old(messageBlockIndex))
    {
      while messageBlockIndex < end
        invariant old(messageBlockIndex) <= messageBlockIndex <= end
        invariant messageBlock[..messageBlockIndex]
               == old(messageBlock[..messageBlockIndex]) + Zeros(messageBlockIndex - old(messageBlockIndex))
      {
        messageBlock[messageBlockIndex] := 0;
        messageBlockIndex := messageBlockIndex + 1;
      }
    }

    method WriteLength()
      requires Shape() && BitCount() == 8 * |absorbed|
      modifies messageBlock
      ensures messageBlock[..] == old(messageBlock[..56]) + LengthField(8 * |absorbed|)
    {
      hide LengthByte, ShiftRight;
      CounterBytes(lengthHigh, lengthLow, 8 * |absorbed|);
      messageBlock[56] := LowByte(ShiftRight(lengthHigh, 24));
      messageBlock[57] := LowByte(ShiftRight(lengthHigh, 16));
      messageBlock[58] := LowByte(ShiftRight(lengthHigh, 8));
      messageBlock[59] := LowByte(lengthHigh);
      messageBlock[60] := LowByte(ShiftRight(lengthLow, 24));
      messageBlock[61] := LowByte(ShiftRight(lengthLow, 16));
      messageBlock[62] := LowByte(ShiftRight(lengthLow, 8));
      messageBlock[63] := LowByte(lengthLow);
    }

    /** The one-shot entry point: with an int for the length it cannot fail. */
    method Hash(source: seq<Byte>) returns (result: int)
      requires Shape() && |source| < 0x8000_0000
      modifies this, messageDigest, messageBlock
      ensures Valid() && result == 0 && Digest() == Sha1(source)
    {
      hide Compress, Sha1, Absorbed, Tail;
      Reset();
      Input(source);
      assert [] + source == source;
      var ok := Result();
      result := if ok then 0 else -1;
    }

    /** The number whose eight bytes, most significant first, are the first eight of the digest. */
    method ConvertHashToNumber() returns (number: nat)
      requires Shape()
      ensures number < 0x1_0000_0000_0000_0000 && LengthField(number) == HashBytes(Digest())[..8]
      ensures var high: int := messageDigest[0]; number == high * 0x1_0000_0000 + messageDigest[1] == LeadingBits(Digest())
    {
      LeadingBytes(Digest());
      var high: int := messageDigest[0];
      number := high * 0x1_0000_0000 + messageDigest[1];
    }

    /** The identifier of a file: 1 when it cannot be opened, otherwise taken from its first 300000 bytes. */
    method HashFile(found: bool, content: seq<Byte>) returns (number: nat)
      requires Shape()
      modifies this, messageDigest, messageBlock
      ensures if found then number == LeadingBits(Sha1(if |content| < 300000 then content else content[..300000]))
              else number == 1
    {
      if !found {
        return 1;
      }
      var read := if |content| < MAX_FILE_LENGTH then content else content[..MAX_FILE_LENGTH];
      var result := Hash(read);
      number := ConvertHashToNumber();
    }

    /** The number of a C string: the bytes before the first zero byte. */
    method HashString(memory: seq<Byte>) returns (number: nat)
      requires Shape() && 0 in memory && |memory| < 0x8000_0000
      modifies this, messageDigest, messageBlock
      ensures exists n | 0 <= n < |memory| ::
                memory[n] == 0 && 0 !in memory[..n] && number == LeadingBits(Sha1(memory[..n]))
    {
      var n := 0;
      while memory[n] != 0
        invariant 0 <= n < |memory| && 0 !in memory[..n] && 0 in memory[n..]
        decreases |memory| - n
      {
        assert memory[n..] == [memory[n]] + memory[n + 1..];
        assert memory[..n + 1] == memory[..n] + [memory[n]];
        n := n + 1;
      }
      var result := Hash(memory[..n]);
      number := ConvertHashToNumber();
    }
  }

  const MAX_FILE_LENGTH := 300000

  /** The first 64 bits of a hash value, as a number. */
  function LeadingBits(h: Chain): (number: nat)
    ensures number < 0x1_0000_0000_0000_0000
  {
    var a: int := h.a;
    a * 0x1_0000_0000 + h.b
  }

  lemma LeadingBytes(h: Chain)
    ensures LengthField(LeadingBits(h)) == HashBytes(h)[..8]
  {
    hide ShiftRight, LengthByte;
    var bits := LeadingBits(h);
    HighBytes(h.a, h.b, bits);
    LowBytes(h.a, h.b, bits);
    ShiftRightBytes(h.a);
    ShiftRightBytes(h.b);
    forall i | 0 <= i < 8
      ensures LengthField(bits)[i] == HashBytes(h)[i]
    {
    }
  }

  /** Bytes, most significant first, determine the number. */
  lemma NumberFromBytes(m: nat, n: nat)
    requires m < 0x1_0000_0000_0000_0000 && n < 0x1_0000_0000_0000_0000 && LengthField(m) == LengthField(n)
    ensures m == n
  {
    hide LengthByte;
    forall i | 0 <= i < 8
      ensures LengthByte(m, i) == LengthByte(n, i)
    {
      assert LengthField(m)[i] == LengthField(n)[i];
    }
    HalvesFromBytes(m);
    HalvesFromBytes(n);
  }

  lemma HalvesFromBytes(n: nat)
    requires n < 0x1_0000_0000_0000_0000
    ensures n == 0x1_0000_0000 * UpperBytes(n) + LowerBytes(n)
  {
    hide LengthByte, ShiftRight;
    var high: Word, low: Word := n / 0x1_0000_0000, n % 0x1_0000_0000;
    HighBytes(high, low, n);
    LowBytes(high, low, n);
    ShiftRightBytes(high);
    ShiftRightBytes(low);
    WordFromBytes(high);
    WordFromBytes(low);
  }

  lemma WordFromBytes(w: Word)
    ensures var x: int := w;
      x == 0x100_0000 * (x / 0x100_0000 % 0x100) + 0x1_0000 * (x / 0x1_0000 % 0x100) + 0x100 * (x / 0x100 % 0x100) + x % 0x100
  {
    var x: int := w;
    var q1, q2, q3 := x / 0x100, x / 0x1_0000, x / 0x100_0000;
    assert q2 == q1 / 0x100 && q3 == q2 / 0x100;
  }

  function UpperBytes(n: nat): int {
    var b0: int, b1: int, b2: int, b3: int := LengthByte(n, 0), LengthByte(n, 1), LengthByte(n, 2), LengthByte(n, 3);
    0x100_0000 * b0 + 0x1_0000 * b1 + 0x100 * b2 + b3
  }

  function LowerBytes(n: nat): int {
    var b4: int, b5: int, b6: int, b7: int := LengthByte(n, 4), LengthByte(n, 5), LengthByte(n, 6), LengthByte(n, 7);
    0x100_0000 * b4 + 0x1_0000 * b5 + 0x100 * b6 + b7
  }

  /** The length field is the number to the base 256, most significant digit first. */
  lemma FieldReadsBack(n: nat)
    requires n < 0x1_0000_0000_0000_0000
    ensures var f: seq<int> := LengthField(n);
      n == ((((((f[0] * 0x100 + f[1]) * 0x100 + f[2]) * 0x100 + f[3]) * 0x100 + f[4]) * 0x100 + f[5]) * 0x100 + f[6]) * 0x100 + f[7]
  {
    HalvesFromBytes(n);
    hide LengthByte;
  }

  // ----- the length counter and the last blocks

  function LowByte(x: Word): Byte {
    x % 0x100
  }

  lemma NothingAbsorbed()
    ensures Absorbed([]) == H0 && Tail([]) == []
  {
    hide Compress;
  }

  /** Counting one more byte; both halves are zero again exactly at 2^64 bits. */
  lemma CounterStep(high: int, low: int, n: nat)
    requires 0 <= high < 0x1_0000_0000 && 0 <= low < 0x1_0000_0000 && n < LIMIT
    requires high * 0x1_0000_0000 + low == 8 * n % 0x1_0000_0000_0000_0000
    ensures var low' := (low + 8) % 0x1_0000_0000;
      var high' := if low' == 0 then (high + 1) % 0x1_0000_0000 else high;
      && high' * 0x1_0000_0000 + low' == 8 * (n + 1) % 0x1_0000_0000_0000_0000
      && (low' == 0 && high' == 0 <==> n + 1 == LIMIT)
  {
    assert high * 0x1_0000_0000 + low == 8 * n;
    assert low % 8 == 0;
  }

  /** The eight bytes that the engine cuts out of its two counters are the length field. */
  lemma CounterBytes(high: Word, low: Word, bits: nat)
    requires var h: int := high; bits == h * 0x1_0000_0000 + low
    ensures LengthField(bits) ==
      [LowByte(ShiftRight(high, 24)), LowByte(ShiftRight(high, 16)), LowByte(ShiftRight(high, 8)), LowByte(high),
       LowByte(ShiftRight(low, 24)), LowByte(ShiftRight(low, 16)), LowByte(ShiftRight(low, 8)), LowByte(low)]
  {
    HighBytes(high, low, bits);
    LowBytes(high, low, bits);
    hide LengthByte, ShiftRight;
  }

  lemma HighBytes(high: Word, low: Word, bits: nat)
    requires var h: int := high; bits == h * 0x1_0000_0000 + low
    ensures LengthByte(bits, 0) == LowByte(ShiftRight(high, 24)) && LengthByte(bits, 1) == LowByte(ShiftRight(high, 16))
    ensures LengthByte(bits, 2) == LowByte(ShiftRight(high, 8)) && LengthByte(bits, 3) == LowByte(high)
  {
    ShiftRightBytes(high);
    hide ShiftRight;
    var h: int := high;
    assert bits / 0x100_0000_0000_0000 == h / 0x100_0000;
    assert bits / 0x1_0000_0000_0000 == h / 0x1_0000;
    assert bits / 0x100_0000_0000 == h / 0x100;
    assert bits / 0x1_0000_0000 == h;
  }

  lemma LowBytes(high: Word, low: Word, bits: nat)
    requires var h: int := high; bits == h * 0x1_0000_0000 + low
    ensures LengthByte(bits, 4) == LowByte(ShiftRight(low, 24)) && LengthByte(bits, 5) == LowByte(ShiftRight(low, 16))
    ensures LengthByte(bits, 6) == LowByte(ShiftRight(low, 8)) && LengthByte(bits, 7) == LowByte(low)
  {
    hide ShiftRight, LengthByte;
    ShiftRightBytes(low);
    Byte4(high, low, bits);
    Byte5(high, low, bits);
    Byte6(high, low, bits);
    Byte7(high, low, bits);
  }

  lemma Byte4(h: int, low: nat, bits: nat)
    requires bits == h * 0x1_0000_0000 + low
    ensures LengthByte(bits, 4) == low / 0x100_0000 % 0x100
  {
    var q, r := low / 0x100_0000, low % 0x100_0000;
    var p := h * 0x100 + q;
    DivisionUnique(bits, 0x100_0000, p, r);
    DivisionUnique(p, 0x100, h * 1 + q / 0x100, q % 0x100);
  }

  lemma Byte5(h: int, low: nat, bits: nat)
    requires bits == h * 0x1_0000_0000 + low
    ensures LengthByte(bits, 5) == low / 0x1_0000 % 0x100
  {
    var q, r := low / 0x1_0000, low % 0x1_0000;
    var p := h * 0x1_0000 + q;
    DivisionUnique(bits, 0x1_0000, p, r);
    DivisionUnique(p, 0x100, h * 0x100 + q / 0x100, q % 0x100);
  }

  lemma Byte6(h: int, low: nat, bits: nat)
    requires bits == h * 0x1_0000_0000 + low
    ensures LengthByte(bits, 6) == low / 0x100 % 0x100
  {
    var q, r := low / 0x100, low % 0x100;
    var p := h * 0x100_0000 + q;
    DivisionUnique(bits, 0x100, p, r);
    DivisionUnique(p, 0x100, h * 0x1_0000 + q / 0x100, q % 0x100);
  }

  lemma Byte7(h: int, low: nat, bits: nat)
    requires bits == h * 0x1_0000_0000 + low
    ensures LengthByte(bits, 7) == low % 0x100
  {
  }

  lemma OneBlockEnding(message: seq<Byte>, last: Block)
    requires var tail, n := Tail(message), |message|;
      |tail| <= 55 && last == tail + [0x80] + Zeros(55 - |tail|) + LengthField(8 * n)
    ensures Sha1(message) == Compress(Absorbed(message), last)
  {
    hide Compress, LengthByte, Sha1, Absorbed;
    assert Ending(Tail(message), |message|) == last;
    Sha1FromTail(message);
    FoldOne(Compress, Absorbed(message), last);
  }

  lemma TwoBlockEnding(message: seq<Byte>, first: Block, second: Block)
    requires var tail, n := Tail(message), |message|;
      |tail| > 55 && first == tail + [0x80] + Zeros(63 - |tail|) && second == Zeros(56) + LengthField(8 * n)
    ensures Sha1(message) == Compress(Compress(Absorbed(message), first), second)
  {
    hide Compress, LengthByte, Sha1, Absorbed;
    var h := Absorbed(message);
    assert Ending(Tail(message), |message|) == first + second;
    Sha1FromTail(message);
    FoldConcat(Compress, h, first, second);
    FoldOne(Compress, h, first);
    FoldOne(Compress, Compress(h, first), second);
  }

  /**
   Streaming refinement: however the message was cut into Input calls, after Result the context
   holds the FIPS 180-4 hash of the concatenation, provided the counter did not wrap.
   */
  lemma StreamingRefinement(context: Sha1Context, chunks: seq<seq<Byte>>)
    requires context.Valid()
    requires context.Model() == Run(FRESH, Inputs(chunks) + [Call.Result])
    ensures context.corrupted <==> |Flatten(chunks)| >= LIMIT
    ensures !context.corrupted ==> context.Digest() == Sha1(Flatten(chunks))
    ensures !context.corrupted ==> context.blocks == (|Flatten(chunks)| + 8) / 64 + 1
  {
    hide Compress, Sha1;
    var calls := Inputs(chunks) + [Call.Result];
    assert calls[..|calls| - 1] == Inputs(chunks);
    ChunkingNeverMatters(chunks);
    assert [] + Flatten(chunks) == Flatten(chunks);
  }

  /** A whole use of the streaming interface, from any context: the pieces of a message, one after the other. */
  method HashChunks(context: Sha1Context, chunks: seq<seq<Byte>>) returns (ok: bool)
    requires context.Shape()
    modifies context, context.messageDigest, context.messageBlock
    ensures context.Valid() && (ok <==> |Flatten(chunks)| < LIMIT)
    ensures ok ==> context.Digest() == Sha1(Flatten(chunks)) && context.blocks == (|Flatten(chunks)| + 8) / 64 + 1
  {
    hide Compress, Sha1, Absorbed, Tail, Flatten;
    context.Reset();
    assert Inputs(chunks[..0]) == [];
    for i := 0 to |chunks|
      invariant context.Valid() && context.Model() == Run(FRESH, Inputs(chunks[..i]))
    {
      context.Input(chunks[i]);
      assert Inputs(chunks[..i + 1])[..i] == Inputs(chunks[..i]);
    }
    assert chunks[..|chunks|] == chunks;
    ok := context.Result();
    assert (Inputs(chunks) + [Call.Result])[..|chunks|] == Inputs(chunks);
    StreamingRefinement(context, chunks);
  }

  lemma FirstWords(block: Block, t: nat)
    requires t < 16
    ensures BitOr(BitOr(BitOr(ShiftLeft(block[t * 4], 24), ShiftLeft(block[t * 4 + 1], 16)),
      ShiftLeft(block[t * 4 + 2], 8)), block[t * 4 + 3])
         == Schedule(block, t)
  {
    hide ShiftLeft, BitOr;
    BytesToWord(block[t * 4], block[t * 4 + 1], block[t * 4 + 2], block[t * 4 + 3]);
  }

  lemma FirstQuarter(t: nat, b: Word, c: Word, d: Word)
    requires t < 20
    ensures F(t, b, c, d) == ChOr(b, c, d) && K(t) == 0x5A827999
  {
    ChOrIsCh(b, c, d);
    hide ChOr, Ch;
  }

  lemma SecondQuarter(t: nat, b: Word, c: Word, d: Word)
    requires 20 <= t < 40
    ensures F(t, b, c, d) == Parity(b, c, d) && K(t) == 0x6ED9EBA1
  {
  }

  lemma ThirdQuarter(t: nat, b: Word, c: Word, d: Word)
    requires 40 <= t < 60
    ensures F(t, b, c, d) == MajOr(b, c, d) && K(t) == 0x8F1BBCDC
  {
    MajOrIsMaj(b, c, d);
    hide MajOr, Maj;
  }

  lemma LastQuarter(t: nat, b: Word, c: Word, d: Word)
    requires 60 <= t < 80
    ensures F(t, b, c, d) == Parity(b, c, d) && K(t) == 0xCA62C1D6
  {
  }
}
