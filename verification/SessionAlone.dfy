/**
 Exactly when a CANCEL ends without help from outside: for some replies of the app, and for all.
 */
module SessionAlone {
  import opened Protocol
  import opened Session
  import opened SessionSafety
  import opened SessionProgress
  import opened SessionRuns
  import opened SessionEnding
  import opened SessionReplies

  /** A start that will, or still can, create a worker. */
  ghost predicate StartUnderway(s: System, sure: bool) {
    exists j | 0 <= j < |s.threads| ::
      s.threads[j].Starter? && (s.threads[j].spc.Spawn? || (!sure && s.threads[j].spc.Init?))
  }

  ghost predicate SignalUnderway(s: System) {
    exists w, j | 0 <= w < |s.threads| && 0 <= j < |s.threads| :: Sleepy(s.threads[w], s.signal) && Signaller(s.threads[j])
  }

  /** What the state must hold for IDLE to be written whatever the replies. */
  ghost predicate EndsSurely(s: System) {
    || (exists i | 0 <= i < |s.threads| :: Sure(s, s.threads[i]))
    || StartUnderway(s, true)
    || SignalUnderway(s)
  }

  /** And for it to be written for some replies. */
  ghost predicate EndsAlone(s: System) {
    || (exists i | 0 <= i < |s.threads| ::
          Live(s.threads[i]) && !Sleepy(s.threads[i], s.signal) && (s.threads[i].pc.NoticeLock? ==> !FullTable(s)))
    || StartUnderway(s, false)
    || SignalUnderway(s)
  }

  ghost predicate SomeRunEnds(s: System, outside: Outside) {
    exists labels, s' :: Reaches(s, labels, s') && Alone(s, labels, outside) && s'.state == Idle
  }

  /** A worker that reports, and waits for a lock that a full table keeps, or is about to. */
  ghost predicate Held(t: Thread, i: nat, outside: Outside, anyReply: bool)
  {
    t.Worker? &&
    (|| t.pc.NoticeLock?
     || (!anyReply && MayReport(t.pc) && outside(i, t.steps).reply == Bad(t.pc).reply && outside(i, t.steps).bit
         && forall n | n > t.steps :: outside(i, n) == Input(Rejected, true, 0)))
  }

  /** A start that creates a worker with these inputs, or with any. */
  predicate Starting(t: Thread, j: nat, outside: Outside, anyReply: bool) {
    t.Starter? && (t.spc.Spawn? || (t.spc.Init? && (anyReply || outside(j, 0).bit)))
  }

  /** Nothing that is there can end the CANCEL, if the workers get these inputs, or any. */
  ghost predicate Lost(s: System, outside: Outside, anyReply: bool) {
    && s.state == Cancel && !SignalUnderway(s)
    && (forall j | 0 <= j < |s.threads| :: !Starting(s.threads[j], j, outside, anyReply))
    && forall i | 0 <= i < |s.threads| && Live(s.threads[i]) ::
         Sleepy(s.threads[i], s.signal) || (FullTable(s) && Held(s.threads[i], i, outside, anyReply))
  }

  // ----- a lost CANCEL stays lost

  lemma IdleWriters(t: Thread)
    ensures ActionOf(t) == Write(Idle) ==>
      Live(t) && !Sleepy(t, true) && !Sleepy(t, false) && !MayReport(t.pc) && !t.pc.NoticeLock?
  {
  }

  /** Who sleeps, or will signal, after a step under CANCEL did before. */
  lemma SleepBack(t: Thread, o: Observed, cancels: nat)
    requires o.value == Cancel
    ensures var t' := Advance(t, o, cancels);
      Sleepy(t', true) || Sleepy(t', false) ==> Sleepy(t, o.signal)
  {
  }

  lemma SignalBack(t: Thread, o: Observed, cancels: nat)
    requires o.value == Cancel
    ensures Signaller(Advance(t, o, cancels)) ==> Signaller(t)
    ensures ActionOf(t).Notify? ==> Signaller(t)
  {
    hide WorkerNext, StarterNext;
  }

  lemma NewcomersNeither(t: Thread)
    ensures ActionOf(t).Create? ==>
      !Sleepy(ActionOf(t).child, true) && !Sleepy(ActionOf(t).child, false) && !Signaller(ActionOf(t).child)
  {
  }

  /** A worker on its way to sleep stays on it. */
  lemma SleepKept(t: Thread, o: Observed, cancels: nat)
    requires Sleepy(t, o.signal) && !IsAsleep(t)
    ensures Sleepy(Advance(t, o, cancels), true) && Sleepy(Advance(t, o, cancels), false)
  {
  }

  /** The flag does not change under a worker that is about to test it. */
  lemma SleepyOthers(s: System, l: Label, k: nat)
    requires Invariant(s) && Allowed(s, l) && l.Run? && k < |s.threads| && k != l.i
    ensures Sleepy(s.threads[k], After(s, l).signal) == Sleepy(s.threads[k], s.signal)
  {
    hide Advance;
  }

  lemma NoStartFrom(s: System, l: Label, outside: Outside, anyReply: bool)
    requires Invariant(s) && Allowed(s, l) && l.Run? && s.state == Cancel && NoneCommitted(s)
    requires forall j | 0 <= j < |s.threads| :: !Starting(s.threads[j], j, outside, anyReply)
    requires !anyReply ==> Gets(s.threads[l.i], l, outside)
    ensures |After(s, l).threads| >= |s.threads|
    ensures forall j | 0 <= j < |After(s, l).threads| :: !Starting(After(s, l).threads[j], j, outside, anyReply)
    ensures forall k | |s.threads| <= k < |After(s, l).threads| :: !After(s, l).threads[k].Worker?
  {
    hide Advance;
    var s', t, o := After(s, l), s.threads[l.i], SeenBy(s, l.input);
    NobodyCommitted(s);
    OnlyTheLiveWriteIdle(t, o, s.cancels);
    if t.Starter? && t.spc.Init? && !o.bit {
      FailedInit(t, o, s.cancels);
    }
    assert !Starting(t, l.i, outside, anyReply);
    forall j | 0 <= j < |s'.threads|
      ensures !Starting(s'.threads[j], j, outside, anyReply)
    {
      assert j < |s.threads| ==> !Starting(s.threads[j], j, outside, anyReply);
    }
  }

  lemma FailedInit(t: Thread, o: Observed, cancels: nat)
    requires t.Starter? && t.spc.Init? && !o.bit
    ensures var t' := Advance(t, o, cancels); t'.Starter? && t'.spc.UnlockDevice?
  {
  }

  lemma NoSignalFrom(s: System, l: Label)
    requires Invariant(s) && Allowed(s, l) && l.Run? && s.state == Cancel && !SignalUnderway(s)
    ensures !SignalUnderway(After(s, l))
  {
    hide Invariant, Advance, ActionOf, Signaller, Sleepy, IsAsleep;
    var s' := After(s, l);
    if SignalUnderway(s') {
      var w, j :| 0 <= w < |s'.threads| && 0 <= j < |s'.threads| && Sleepy(s'.threads[w], s'.signal)
        && Signaller(s'.threads[j]);
      SleepyBefore(s, l, w);
      SignallerBefore(s, l, j);
    }
  }

  lemma SleepyBefore(s: System, l: Label, w: nat)
    requires Invariant(s) && Allowed(s, l) && l.Run? && s.state == Cancel
    requires w < |After(s, l).threads| && Sleepy(After(s, l).threads[w], After(s, l).signal)
    ensures w < |s.threads| && Sleepy(s.threads[w], s.signal)
  {
    hide Invariant, Advance, ActionOf;
    SleepBack(s.threads[l.i], SeenBy(s, l.input), s.cancels);
    NewcomersNeither(s.threads[l.i]);
    if w < |s.threads| && w != l.i {
      OthersKept(s, l, w);
      SleepyOthers(s, l, w);
    }
  }

  lemma SignallerBefore(s: System, l: Label, j: nat)
    requires Allowed(s, l) && l.Run? && s.state == Cancel && j < |After(s, l).threads|
      && Signaller(After(s, l).threads[j])
    ensures j < |s.threads| && Signaller(s.threads[j])
  {
    hide Advance, ActionOf;
    SignalBack(s.threads[l.i], SeenBy(s, l.input), s.cancels);
    NewcomersNeither(s.threads[l.i]);
    if j < |s.threads| && j != l.i {
      OthersKept(s, l, j);
    }
  }

  /** The mover of a lost state, if it is a live worker, stays asleep or held. */
  lemma MoverStaysLost(t: Thread, i: nat, o: Observed, cancels: nat, outside: Outside, anyReply: bool)
    requires Live(t) && o.value == Cancel && !t.pc.NoticeLock? && !IsAsleep(t) && !ActionOf(t).Write?
    requires Sleepy(t, o.signal) || Held(t, i, outside, anyReply)
    requires !anyReply ==> o.reply == outside(i, t.steps).reply && o.bit == outside(i, t.steps).bit
    ensures var t' := Advance(t, o, cancels);
      t'.Worker? && if Sleepy(t, o.signal) then Sleepy(t', true)
        && Sleepy(t', false) else Held(t', i, outside, anyReply)
  {
    hide WorkerNext, MayReport, WorkerAction;
    if Sleepy(t, o.signal) {
      SleepKept(t, o, cancels);
    } else {
      BadStep(t.kind, t.pc, o);
      BadAfterwards(WorkerNext(t.kind, t.pc, o));
    }
  }

  lemma BadAfterwards(pc: WorkerPc)
    ensures pc != ReadData ==> Bad(pc) == Input(Rejected, true, 0)
  {
  }

  lemma LostStep(s: System, l: Label, outside: Outside, anyReply: bool)
    requires Invariant(s) && NoneCommitted(s) && Lost(s, outside, anyReply)
    requires Allowed(s, l) && l.Run? && !IsAsleep(s.threads[l.i])
    requires !anyReply ==> Gets(s.threads[l.i], l, outside)
    ensures var s' := After(s, l); Invariant(s') && NoneCommitted(s') && Lost(s', outside, anyReply)
  {
    hide Invariant, NoneCommitted, After, Advance, ActionOf, LivePc, Held, Sleepy, Signaller, FullTable,
         Starting, SignalUnderway, IsAsleep;
    var s' := After(s, l);
    InvariantKept(s, l);
    CancelKept(s, l);
    NoStartFrom(s, l, outside, anyReply);
    NoSignalFrom(s, l);
    LostWritesNothing(s, l, outside, anyReply);
    if FullTable(s) {
      FullTableStays(s, l);
    }
    forall k | 0 <= k < |s'.threads| && Live(s'.threads[k])
      ensures Sleepy(s'.threads[k], s'.signal) || (FullTable(s') && Held(s'.threads[k], k, outside, anyReply))
    {
      assert k < |s.threads|;
      if k == l.i {
        MoverIsLost(s, l, outside, anyReply);
      } else {
        OtherIsLost(s, l, k);
      }
    }
  }

  lemma LostWritesNothing(s: System, l: Label, outside: Outside, anyReply: bool)
    requires Invariant(s) && NoneCommitted(s) && Lost(s, outside, anyReply) && Allowed(s, l) && l.Run?
    ensures After(s, l).state == Cancel
  {
    hide Invariant, Advance, ActionOf, Live, MayReport, FullTable, Starting, SignalUnderway;
    CancelKept(s, l);
    OnlyWritesChange(s, l);
    IdleWriters(s.threads[l.i]);
  }

  lemma MoverIsLost(s: System, l: Label, outside: Outside, anyReply: bool)
    requires Invariant(s) && NoneCommitted(s) && Lost(s, outside, anyReply)
    requires Allowed(s, l) && l.Run? && !IsAsleep(s.threads[l.i])
    requires !anyReply ==> Gets(s.threads[l.i], l, outside)
    requires l.i < |After(s, l).threads| && Live(After(s, l).threads[l.i])
    ensures var s' := After(s, l);
      || Sleepy(s'.threads[l.i], s'.signal)
      || (FullTable(s) && Held(s'.threads[l.i], l.i, outside, anyReply))
  {
    hide Invariant, NoneCommitted, Advance, ActionOf, LivePc, Held, Sleepy, FullTable, StartUnderway, SignalUnderway,
      IsAsleep;
    var t, o := s.threads[l.i], SeenBy(s, l.input);
    OwnStep(s, l);
    NobodyCommitted(s);
    OnlyTheLiveWriteIdle(t, o, s.cancels);
    LostWritesNothing(s, l, outside, anyReply);
    WorkersWriteIdle(t);
    HeldReportersWait(s, l);
    MoverStaysLost(t, l.i, o, s.cancels, outside, anyReply);
  }

  lemma WorkersWriteIdle(t: Thread)
    ensures t.Worker? && ActionOf(t).Write? ==> ActionOf(t) == Write(Idle)
    ensures Sleepy(t, true) || Sleepy(t, false) ==> !t.pc.NoticeLock?
  {
  }

  lemma HeldReportersWait(s: System, l: Label)
    requires Invariant(s) && Allowed(s, l) && l.Run?
    ensures FullTable(s) && s.threads[l.i].Worker? ==> !s.threads[l.i].pc.NoticeLock?
  {
    hide Invariant, Allowed, FullTable;
    if FullTable(s) {
      FullTableStays(s, l);
    }
  }

  lemma OtherIsLost(s: System, l: Label, k: nat)
    requires Invariant(s) && Allowed(s, l) && l.Run? && k < |s.threads| && k != l.i && !SignalUnderway(s)
    ensures k < |After(s, l).threads| && After(s, l).threads[k] == s.threads[k]
    ensures Sleepy(s.threads[k], s.signal) == Sleepy(s.threads[k], After(s, l).signal)
  {
    hide Invariant, After, Advance, ActionOf, Signaller;
    OthersKept(s, l, k);
    SleepyOthers(s, l, k);
    SignalBack(s.threads[l.i], Observed(Cancel, false, None, Rejected, false), 0);
  }

  lemma {:induction false} LostForAnyReply(s: System, labels: seq<Label>, s': System, outside: Outside)
    requires Invariant(s) && NoneCommitted(s) && Lost(s, outside, true)
    requires Reaches(s, labels, s') && Unaided(s, labels)
    ensures s'.state == Cancel
    decreases |labels|
  {
    hide Invariant, NoneCommitted, Allowed, After, IsAsleep;
    if labels != [] {
      LostStep(s, labels[0], outside, true);
      LostForAnyReply(After(s, labels[0]), labels[1..], s', outside);
    }
  }

  lemma {:induction false} LostForTheseReplies(s: System, labels: seq<Label>, s': System, outside: Outside)
    requires Invariant(s) && NoneCommitted(s) && Lost(s, outside, false)
    requires Reaches(s, labels, s') && Alone(s, labels, outside)
    ensures s'.state == Cancel
    decreases |labels|
  {
    hide Invariant, NoneCommitted, Allowed, After, IsAsleep;
    if labels != [] {
      LostStep(s, labels[0], outside, false);
      LostForTheseReplies(After(s, labels[0]), labels[1..], s', outside);
    }
  }

  /** Replies that hold every worker that any replies can hold. */
  function Trap(s: System): Outside {
    (i: nat, n: nat) =>
      if i < |s.threads| && s.threads[i].Worker? && n == s.threads[i].steps then Bad(s.threads[i].pc)
      else Input(Rejected, i >= |s.threads| || !s.threads[i].Starter?, 0)
  }

  lemma TrapHolds(s: System, i: nat)
    requires i < |s.threads| && s.threads[i].Worker? && MayReport(s.threads[i].pc)
    ensures Held(s.threads[i], i, Trap(s), false)
  {
  }

  /**
   A standing CANCEL that is not about to be overwritten ends without new calls and without
   spurious returns, for some replies of the app, if and only if there is a live worker that is not
   bound to sleep and not held up in its notice by a full table, or a start that can still create a
   worker, or a sleeper with a signal on its way.
   */
  lemma EndsAloneExactly(s: System)
    requires Invariant(s) && s.state == Cancel && NoneCommitted(s)
    ensures (exists labels, s' :: Reaches(s, labels, s') && Unaided(s, labels) && s'.state == Idle) <==> EndsAlone(s)
  {
    hide Invariant, NoneCommitted, Reaches, Unaided, Alone, FullTable, Live, Sleepy, Signaller, MayReport;
    var outside: Outside := (i, n) => Input(Rejected, true, 0);
    if EndsAlone(s) {
      var labels, s' := EndAlone(s, outside);
    } else {
      LostAlone(s, outside);
      if labels, s' :| Reaches(s, labels, s') && Unaided(s, labels) && s'.state == Idle {
        LostForAnyReply(s, labels, s', outside);
      }
    }
  }

  lemma LostAlone(s: System, outside: Outside)
    requires s.state == Cancel && !EndsAlone(s)
    ensures Lost(s, outside, true)
  {
    hide FullTable, LivePc, MayReport, SignalUnderway;
  }

  lemma EndAlone(s: System, outside: Outside) returns (labels: seq<Label>, s': System)
    requires Invariant(s) && s.state == Cancel && NoneCommitted(s) && EndsAlone(s)
    requires forall j :: outside(j, 0).bit
    ensures Reaches(s, labels, s') && Unaided(s, labels) && s'.state == Idle
  {
    hide Invariant, NoneCommitted, Reaches, Unaided, Alone, FullTable, LivePc, Signaller, MayReport;
    if StartUnderway(s, false) || SignalUnderway(s) {
      labels, s' := EndUnderway(s, outside, false);
      AloneIsUnaided(s, labels, outside);
    } else {
      var i :| 0 <= i < |s.threads| && Live(s.threads[i]) && !Sleepy(s.threads[i], s.signal)
               && (s.threads[i].pc.NoticeLock? ==> !FullTable(s));
      if Sure(s, s.threads[i]) {
        labels, s' := IdleForEveryReply(s, i, outside);
        AloneIsUnaided(s, labels, outside);
      } else {
        ReportersAreAwake(s.threads[i]);
        labels, s' := IdleIsWritten(s, i);
      }
    }
  }

  lemma ReportersAreAwake(t: Thread)
    ensures t.Worker? && MayReport(t.pc) ==> !Drowsy(t)
  {
  }

  /** What is underway ends the CANCEL for every sequence of replies. */
  lemma EndUnderway(s: System, outside: Outside, sure: bool) returns (labels: seq<Label>, s': System)
    requires Invariant(s) && s.state == Cancel && NoneCommitted(s) && (StartUnderway(s, sure) || SignalUnderway(s))
    requires sure || forall j :: outside(j, 0).bit
    ensures Reaches(s, labels, s') && Alone(s, labels, outside) && s'.state == Idle
  {
    hide Invariant, NoneCommitted, Reaches, Alone, FullTable, Live, Sleepy, Signaller, MayReport;
    if StartUnderway(s, sure) {
      var j :| 0 <= j < |s.threads| && s.threads[j].Starter?
               && (s.threads[j].spc.Spawn? || (!sure && s.threads[j].spc.Init?));
      var m, i, more;
      labels, m, i := StartCreates(s, j, outside);
      BeginnerIsSure(m, i);
      more, s' := IdleForEveryReply(m, i, outside);
      ReachesJoin(s, labels, m, more, s');
      AloneJoin(s, labels, m, more, outside);
      labels := labels + more;
    } else {
      var w, j :| 0 <= w < |s.threads| && 0 <= j < |s.threads| && Sleepy(s.threads[w], s.signal)
        && Signaller(s.threads[j]);
      labels, s' := IdleAfterSignal(s, w, j, outside);
    }
  }

  lemma BeginnerIsSure(s: System, i: nat)
    requires i < |s.threads| && Live(s.threads[i]) && s.threads[i].pc == Begin
    ensures Sure(s, s.threads[i])
  {
    WokenIsSure(s, s.threads[i]);
  }

  /**
   It ends for every sequence of replies, and whether or not vcs_init succeeds in the starts, if and
   only if there is a live worker that is not bound to sleep and, with a full table, that no reply
   leads to a notice; or a start past its vcs_init; or a sleeper with a signal on its way.
   */
  lemma EndsSurelyExactly(s: System)
    requires Invariant(s) && s.state == Cancel && NoneCommitted(s)
    ensures (forall outside :: SomeRunEnds(s, outside)) <==> EndsSurely(s)
  {
    hide Invariant, NoneCommitted, Reaches, Alone, Sure, StartUnderway, SignalUnderway, Lost;
    if EndsSurely(s) {
      forall outside
        ensures SomeRunEnds(s, outside)
      {
        if StartUnderway(s, true) || SignalUnderway(s) {
          var labels, s' := EndUnderway(s, outside, true);
        } else {
          var i :| 0 <= i < |s.threads| && Sure(s, s.threads[i]);
          var labels, s' := IdleForEveryReply(s, i, outside);
        }
      }
    } else {
      LostInTheTrap(s);
      if SomeRunEnds(s, Trap(s)) {
        var labels, s' :| Reaches(s, labels, s') && Alone(s, labels, Trap(s)) && s'.state == Idle;
        LostForTheseReplies(s, labels, s', Trap(s));
      }
    }
  }

  lemma LostInTheTrap(s: System)
    requires s.state == Cancel && !EndsSurely(s)
    ensures Lost(s, Trap(s), false)
  {
    hide FullTable, LivePc, MayReport, SignalUnderway, Held, Sleepy;
    forall i | 0 <= i < |s.threads| && Live(s.threads[i])
      ensures Sleepy(s.threads[i], s.signal) || (FullTable(s) && Held(s.threads[i], i, Trap(s), false))
    {
      assert !Sure(s, s.threads[i]);
      if MayReport(s.threads[i].pc) {
        TrapHolds(s, i);
      }
    }
  }
}
