/**
 Facts about the specification alone: how padding and block folding compose, that
 padding loses nothing, and that neither the rounds nor the schedule lose anything.
 */
module Sha1Lemmas {
  import opened Words
  import opened Blocks
  import opened Sha1Spec

  /** The hash value of the whole blocks of a message, and what is left over. */
  function Absorbed(message: seq<Byte>): Chain {
    Fold(Compress, H0, message[..WholeBlocks(|message|)])
  }

  function Tail(message: seq<Byte>): (tail: seq<Byte>)
    ensures |tail| == |message| % 64
  {
    message[WholeBlocks(|message|)..]
  }

  /** The last block or two of an n-byte message. */
  function Ending(tail: seq<Byte>, n: nat): (ending: seq<Byte>)
    requires |tail| == n % 64
    ensures |ending| == (if n % 64 < 56 then 64 else 128) && |ending| % 64 == 0
  {
    tail + Padding(n)
  }

  lemma Sha1FromTail(message: seq<Byte>)
    ensures Sha1(message) == Fold(Compress, Absorbed(message), Ending(Tail(message), |message|))
  {
    hide Compress, LengthField, Zeros;
    var m := WholeBlocks(|message|);
    assert Pad(message) == message[..m] + Ending(Tail(message), |message|);
    FoldConcat(Compress, H0, message[..m], Ending(Tail(message), |message|));
  }

  /** Taking one more byte either lengthens the tail or completes a block. */
  lemma AbsorbedNext(message: seq<Byte>, b: Byte)
    ensures |Tail(message)| < 63 ==> Absorbed(message + [b]) == Absorbed(message) && Tail(message + [b]) == Tail(message) + [b]
    ensures |Tail(message)| == 63 ==>
      Absorbed(message + [b]) == Compress(Absorbed(message), Tail(message) + [b]) && Tail(message + [b]) == []
  {
    hide Compress;
    var m := WholeBlocks(|message|);
    if |Tail(message)| < 63 {
      assert WholeBlocks(|message| + 1) == m;
      assert (message + [b])[..m] == message[..m];
    } else {
      var block: Block := Tail(message) + [b];
      assert (message + [b])[..m + 64] == message[..m] + block;
      FoldConcat(Compress, H0, message[..m], block);
      FoldOne(Compress, Absorbed(message), block);
    }
  }

  // ----- padding

  /**
   The number of "0" bits appended is the least one that section 5.1.1 allows:
   with an 8n-bit message, 8n + 1 + k is congruent to 448 modulo 512.
   */
  lemma ZeroCountIsLeast(n: nat, k: nat)
    ensures (8 * n + 1 + (7 + 8 * ZeroCount(n))) % 512 == 448
    ensures (8 * n + 1 + k) % 512 == 448 ==> 7 + 8 * ZeroCount(n) <= k
  {
    var z := ZeroCount(n);
    var i := (n + z) / 64;
    assert n + z == 64 * i + 55 by {
      var j := (55 - n) / 64;
      assert 55 - n == 64 * j + z;
      DivisionUnique(n + z, 64, -j, 55);
    }
    DivisionUnique(8 * n + 1 + (7 + 8 * z), 512, i, 448);
    if (8 * n + 1 + k) % 512 == 448 {
      var j := (8 * n + 1 + k) / 512;
      assert k - (7 + 8 * z) == 512 * (j - i);
    }
  }

  /** A longer message has its "1" bit where the shorter one has a zero byte, or more blocks. */
  lemma PaddingDiffers(x: seq<Byte>, y: seq<Byte>)
    requires |x| < |y|
    ensures Pad(x) != Pad(y)
  {
    if |Pad(x)| == |Pad(y)| {
      assert Pad(y)[|y|] == 0x80;
      assert |y| < |Pad(x)| - 8;
      assert Pad(x)[|y|] == Zeros(ZeroCount(|x|))[|y| - |x| - 1] == 0;
    }
  }

  lemma PaddingInjective(x: seq<Byte>, y: seq<Byte>)
    requires x != y
    ensures Pad(x) != Pad(y)
  {
    if |x| < |y| {
      PaddingDiffers(x, y);
    } else if |y| < |x| {
      PaddingDiffers(y, x);
    } else {
      var i :| 0 <= i < |x| && x[i] != y[i];
      assert Pad(x)[i] == x[i] && Pad(y)[i] == y[i];
    }
  }

  /** Different messages are hashed from different block sequences. */
  lemma DistinctMessagesDistinctBlocks(x: seq<Byte>, y: seq<Byte>)
    requires x != y
    ensures Cut(Pad(x)) != Cut(Pad(y))
  {
    PaddingInjective(x, y);
    CutInjective(Pad(x), Pad(y));
  }

  // ----- the rounds are a permutation of the working variables

  /** The inverse of rotating left by 30 and by 1. */
  function Unrotate30(x: Word): Word { x / 0x4000_0000 + (x % 0x4000_0000) * 4 }

  function Unrotate1(x: Word): Word { x / 2 + (x % 2) * 0x8000_0000 }

  /** The working variables before a round, from those after it. */
  function Unround(t: nat, w: Word, s: Chain): Chain
    requires t < 80
  {
    var s0 := Chain(s.b, Unrotate30(s.c), s.d, s.e, 0);
    s0.(e := Sub(s.a, Temp(t, w, s0)))
  }

  lemma Rotate30Cancels(x: Word)
    ensures Unrotate30(RotL(30, x)) == x
  {
  }

  lemma Unrotate30Cancels(x: Word)
    ensures RotL(30, Unrotate30(x)) == x
  {
  }

  /** The sum T is linear in the variable e that it drops. */
  lemma TempSplits(t: nat, w: Word, s: Chain)
    requires t < 80
    ensures Temp(t, w, s) == Add(Temp(t, w, s.(e := 0)), s.e)
  {
    hide F, K, RotL;
  }

  lemma UnroundInverse(t: nat, w: Word, s: Chain)
    requires t < 80
    ensures Unround(t, w, Round(t, w, s)) == s
    ensures Round(t, w, Unround(t, w, s)) == s
  {
    hide Temp, RotL, Unrotate30;
    Rotate30Cancels(s.b);
    Unrotate30Cancels(s.c);
    TempSplits(t, w, s);
    TempSplits(t, w, Unround(t, w, s));
  }

  /** Undoes the first n rounds, the last one first. */
  function Unrounds(words: seq<Word>, s: Chain, n: nat): Chain
    requires n <= |words| <= 80
    decreases |words[..n]|
  {
    if n == 0 then s
    else Unrounds(words, Unround(n - 1, words[n - 1], s), n - 1)
  }

  /** The rounds before the feed-forward are a bijection, with Unrounds as its inverse. */
  lemma {:induction false} RoundsInvertible(words: seq<Word>, s: Chain, n: nat)
    requires n <= |words| <= 80
    ensures Unrounds(words, Rounds(words, s, n), n) == s
    ensures Rounds(words, Unrounds(words, s, n), n) == s
    decreases n
  {
    hide Round, Unround;
    if n > 0 {
      var w := words[n - 1];
      RoundsInvertible(words, s, n - 1);
      UnroundInverse(n - 1, w, Rounds(words, s, n - 1));
      RoundsInvertible(words, Unround(n - 1, w, s), n - 1);
      UnroundInverse(n - 1, w, s);
    }
  }

  // ----- the schedule can be run backwards

  /** Schedule word t, given the sixteen words tail of indices base to base + 15, with t below base + 16. */
  function Unschedule(tail: seq<Word>, base: nat, t: nat): Word
    requires |tail| == 16 && t < base + 16
    decreases base + 16 - t
  {
    if base <= t then tail[t - base]
    else Xor4(Unschedule(tail, base, t + 13), Unschedule(tail, base, t + 8), Unschedule(tail, base, t + 2),
              Unrotate1(Unschedule(tail, base, t + 16)))
  }

  /** The last sixteen words of the schedule. */
  function LastWords(block: Block): (words: seq<Word>)
    ensures |words| == 16
  {
    seq(16, i requires 0 <= i < 16 => Schedule(block, 64 + i))
  }

  lemma Rotate1Cancels(x: Word)
    ensures Unrotate1(RotL(1, x)) == x
  {
  }

  lemma BitXorCancels(x: Word, y: Word)
    ensures BitXor(BitXor(x, y), x) == y
    ensures BitXor(x, y) == BitXor(y, x)
  {
    XorCancels(x, y);
  }

  lemma Xor4Cancels(x: Word, y: Word, z: Word, w: Word)
    ensures Xor4(x, y, z, Xor4(x, y, z, w)) == w
  {
    var v := BitXor(BitXor(x, y), z);
    hide BitXor;
    BitXorCancels(v, w);
    BitXorCancels(v, BitXor(v, w));
  }

  lemma ScheduleStep(block: Block, t: nat)
    requires t < 64
    ensures Schedule(block, t + 16) == RotL(1, Xor4(Schedule(block, t + 13), Schedule(block, t + 8), Schedule(block, t + 2), Schedule(block, t)))
  {
    hide Xor4, RotL;
  }

  lemma {:induction false} UnscheduleCorrect(block: Block, t: nat)
    requires t < 80
    ensures Unschedule(LastWords(block), 64, t) == Schedule(block, t)
    decreases 80 - t
  {
    hide Xor4, RotL, Unrotate1, Schedule;
    if t < 64 {
      UnscheduleCorrect(block, t + 16);
      UnscheduleCorrect(block, t + 13);
      UnscheduleCorrect(block, t + 8);
      UnscheduleCorrect(block, t + 2);
      var x, y, z, w := Schedule(block, t + 13), Schedule(block, t + 8), Schedule(block, t + 2), Schedule(block, t);
      ScheduleStep(block, t);
      Rotate1Cancels(Xor4(x, y, z, w));
      Xor4Cancels(x, y, z, w);
    }
  }

  function ByteOf(w: Word, i: nat): Byte
    requires i < 4
  {
    w / [0x100_0000, 0x1_0000, 0x100, 1][i] % 0x100
  }

  /** The twenty bytes of a hash value, most significant first. */
  function HashBytes(h: Chain): (bytes: seq<Byte>)
    ensures |bytes| == 20
  {
    seq(20, i requires 0 <= i < 20 => ByteOf([h.a, h.b, h.c, h.d, h.e][i / 4], i % 4))
  }

  /** The block, from the last sixteen words of its schedule. */
  function Unexpand(tail: seq<Word>): seq<Byte>
    requires |tail| == 16
  {
    seq(64, i requires 0 <= i < 64 => ByteOf(Unschedule(tail, 64, i / 4), i % 4))
  }

  lemma BytesOfWord(block: Block, t: nat)
    requires t < 16
    ensures forall j | 0 <= j < 4 :: ByteOf(Schedule(block, t), j) == block[4 * t + j]
  {
    var w := Schedule(block, t);
    var b0: int, b1: int, b2: int, b3: int := block[4 * t], block[4 * t + 1], block[4 * t + 2], block[4 * t + 3];
    assert w == b0 * 0x100_0000 + b1 * 0x1_0000 + b2 * 0x100 + b3;
    hide Schedule, WordAt;
    var b01, b012 := b0 * 0x100 + b1, (b0 * 0x100 + b1) * 0x100 + b2;
    DivisionUnique(w, 0x100_0000, b0, b1 * 0x1_0000 + b2 * 0x100 + b3);
    DivisionUnique(w, 0x1_0000, b01, b2 * 0x100 + b3);
    DivisionUnique(b01, 0x100, b0, b1);
    DivisionUnique(w, 0x100, b012, b3);
    DivisionUnique(b012, 0x100, b01, b2);
  }

  /** The last sixteen words of the schedule determine the block. */
  lemma ScheduleDeterminesBlock(block: Block)
    ensures Unexpand(LastWords(block)) == block
  {
    hide Unschedule, Schedule, ByteOf;
    var back := Unexpand(LastWords(block));
    forall i | 0 <= i < 64
      ensures back[i] == block[i]
    {
      UnscheduleCorrect(block, i / 4);
      BytesOfWord(block, i / 4);
      assert i == 4 * (i / 4) + i % 4;
    }
  }
}
