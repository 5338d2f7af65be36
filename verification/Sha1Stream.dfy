/**
 What a caller of the streaming interface can observe, as a value: the bytes taken
 since the last reset and the two flags.  The class Sha1Context refines these
 transitions; the lemmas here speak of arbitrary sequences of calls.
 */
module Sha1Stream {
  import opened Words

  /** 2^64 bits, in bytes: where the 64-bit length counter wraps. */
  const LIMIT := 0x2000_0000_0000_0000

  datatype Stream = Stream(absorbed: seq<Byte>, computed: bool, corrupted: bool) {
    ghost predicate Valid() {
      && |absorbed| <= LIMIT
      && (computed ==> |absorbed| < LIMIT)
      && (!computed ==> (corrupted <==> |absorbed| == LIMIT))
    }

    function Input(message: seq<Byte>): (s: Stream)
      requires Valid()
      ensures s.Valid()
    {
      if message == [] then this
      else if computed || corrupted then this.(corrupted := true)
      else if |absorbed| + |message| < LIMIT then this.(absorbed := absorbed + message)
      else Stream(absorbed + message[..LIMIT - |absorbed|], false, true)
    }

    function Result(): (s: Stream)
      requires Valid()
      ensures s.Valid()
    {
      if corrupted then this else this.(computed := true)
    }
  }

  const FRESH := Stream([], false, false)

  datatype Call = Reset | Input(message: seq<Byte>) | Result

  function Perform(s: Stream, call: Call): (s': Stream)
    requires s.Valid()
    ensures s'.Valid()
  {
    match call
    case Reset => FRESH
    case Input(message) => s.Input(message)
    case Result => s.Result()
  }

  function Run(s: Stream, calls: seq<Call>): (s': Stream)
    requires s.Valid()
    ensures s'.Valid()
    decreases |calls|
  {
    if calls == [] then s
    else Perform(Run(s, calls[..|calls| - 1]), calls[|calls| - 1])
  }

  /** The bytes of all Input calls made before the first Result call. */
  function Offered(calls: seq<Call>): seq<Byte>
    decreases |calls|
  {
    if calls == [] || calls[0].Result? then []
    else (if calls[0].Input? then calls[0].message else []) + Offered(calls[1..])
  }

  function Inputs(chunks: seq<seq<Byte>>): seq<Call> {
    seq(|chunks|, i requires 0 <= i < |chunks| => Input(chunks[i]))
  }

  function Flatten(chunks: seq<seq<Byte>>): seq<Byte> {
    if chunks == [] then [] else Flatten(chunks[..|chunks| - 1]) + chunks[|chunks| - 1]
  }

  /** A non-empty Input somewhere after a Result. */
  ghost predicate LateInput(calls: seq<Call>) {
    exists i, j :: 0 <= i < j < |calls| && calls[i].Result? && calls[j].Input? && calls[j].message != []
  }

  /** Cutting a message differently gives the same state, even past the counter's limit. */
  lemma {:induction false} ChunkingNeverMatters(chunks: seq<seq<Byte>>)
    ensures Run(FRESH, Inputs(chunks)) == FRESH.Input(Flatten(chunks))
  {
    if chunks != [] {
      var last := |chunks| - 1;
      assert Inputs(chunks)[..last] == Inputs(chunks[..last]);
      ChunkingNeverMatters(chunks[..last]);
      InputTwice(Flatten(chunks[..last]), chunks[last]);
    }
  }

  lemma InputTwice(x: seq<Byte>, y: seq<Byte>)
    ensures FRESH.Input(x).Input(y) == FRESH.Input(x + y)
  {
    if x == [] {
      assert x + y == y;
    } else if y == [] {
      assert x + y == x;
    } else if |x| < LIMIT {
      assert [] + x == x && [] + (x + y) == x + y;
      if |x| + |y| >= LIMIT {
        assert (x + y)[..LIMIT] == x + y[..LIMIT - |x|];
      }
    } else {
      assert (x + y)[..LIMIT] == x[..LIMIT];
    }
  }

  /**
   The context is corrupted in exactly two ways: the bytes offered before the first
   Result reach the counter's limit, or a non-empty Input follows a Result.
   */
  lemma {:induction false} CorruptedExactly(calls: seq<Call>)
    requires forall c :: c in calls ==> !c.Reset?
    ensures var s := Run(FRESH, calls);
      && (s.corrupted <==> |Offered(calls)| >= LIMIT || LateInput(calls))
      && (s.computed <==> Result in calls && |Offered(calls)| < LIMIT)
      && s.absorbed == FRESH.Input(Offered(calls)).absorbed
  {
    if calls != [] {
      var last := |calls| - 1;
      var before := calls[..last];
      CorruptedExactly(before);
      OfferedLast(calls);
      LateInputLast(calls);
      InputTwice(Offered(before), if calls[last].Input? then calls[last].message else []);
    }
  }

  lemma {:induction false} OfferedLast(calls: seq<Call>)
    requires calls != []
    ensures var last := |calls| - 1;
      Offered(calls) == Offered(calls[..last]) +
        (if Result !in calls[..last] && calls[last].Input? then calls[last].message else [])
    decreases |calls|
  {
    var last := |calls| - 1;
    if last > 0 && !calls[0].Result? {
      OfferedLast(calls[1..]);
      assert calls[1..][..last - 1] == calls[..last][1..];
      assert calls[..last] == [calls[0]] + calls[..last][1..];
    }
  }

  lemma LateInputLast(calls: seq<Call>)
    requires calls != []
    ensures var last := |calls| - 1;
      LateInput(calls) <==>
        LateInput(calls[..last]) || (Result in calls[..last] && calls[last].Input? && calls[last].message != [])
  {
    var last := |calls| - 1;
    var before := calls[..last];
    if LateInput(before) {
      var i, j :| 0 <= i < j < last && before[i].Result? && before[j].Input? && before[j].message != [];
      assert calls[i] == before[i] && calls[j] == before[j];
    }
    if LateInput(calls) {
      var i, j :| 0 <= i < j < |calls| && calls[i].Result? && calls[j].Input? && calls[j].message != [];
      assert before[i] == calls[i];
      if j < last {
        assert before[j] == calls[j];
      }
    }
    if Result in before && calls[last].Input? && calls[last].message != [] {
      var i :| 0 <= i < last && before[i] == Result;
      assert calls[i].Result?;
    }
  }
}
