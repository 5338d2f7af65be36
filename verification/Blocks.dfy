/**
 Byte strings cut into 64-byte blocks, and the iteration of a compression function over them.
 The compression function is a parameter: nothing here depends on what it computes.
 */
module Blocks {
  import opened Words

  type Block = bytes: seq<Byte> | |bytes| == 64 witness seq(64, _ => 0)

  /** Feeds whole blocks to f, the first one first. */
  function Fold<S>(f: (S, Block) -> S, s: S, bytes: seq<Byte>): S
    requires |bytes| % 64 == 0
    decreases |bytes|
  {
    if |bytes| == 0 then s
    else Fold(f, f(s, bytes[..64]), bytes[64..])
  }

  lemma {:induction false} FoldConcat<S>(f: (S, Block) -> S, s: S, x: seq<Byte>, y: seq<Byte>)
    requires |x| % 64 == 0 && |y| % 64 == 0
    ensures |x + y| % 64 == 0
    ensures Fold(f, s, x + y) == Fold(f, Fold(f, s, x), y)
    decreases |x|
  {
    if |x| == 0 {
      assert x + y == y;
    } else {
      var z := x + y;
      assert |z| >= 64 && |z| % 64 == 0;
      assert z[..64] == x[..64];
      assert z[64..] == x[64..] + y;
      FoldConcat(f, f(s, x[..64]), x[64..], y);
    }
  }

  lemma FoldOne<S>(f: (S, Block) -> S, s: S, block: Block)
    ensures Fold(f, s, block) == f(s, block)
  {
    assert block[..64] == block && |block[64..]| == 0;
  }

  /** The blocks that a byte string is cut into. */
  function Cut(bytes: seq<Byte>): (blocks: seq<Block>)
    requires |bytes| % 64 == 0
    ensures |blocks| == |bytes| / 64
    decreases |bytes|
  {
    if |bytes| == 0 then [] else [bytes[..64]] + Cut(bytes[64..])
  }

  lemma {:induction false} CutInjective(x: seq<Byte>, y: seq<Byte>)
    requires |x| % 64 == 0 && |y| % 64 == 0
    ensures Cut(x) == Cut(y) ==> x == y
    decreases |x|
  {
    if |x| != 0 && |y| != 0 {
      CutInjective(x[64..], y[64..]);
      assert Cut(x)[0] == x[..64] && Cut(x)[1..] == Cut(x[64..]);
      assert Cut(y)[0] == y[..64] && Cut(y)[1..] == Cut(y[64..]);
      assert x == x[..64] + x[64..];
      assert y == y[..64] + y[64..];
    }
  }
}
