/**
 The other direction of the bound: wherever two workers can both answer a standing CANCEL, there is
 a run in which both do, before IDLE is written and before CANCEL is written again.
 */
module SessionTwoAborts {
  import opened Protocol
  import opened Session
  import opened SessionSafety
  import opened SessionRuns
  import opened SessionAborts

  /** Inputs that take a capturing worker to its next reading of the state word, and no further. */
  function ToTest(t: Thread): Input
    requires t.Worker?
  {
    Input(if t.pc == CaptureStart then Accepted(true) else Rejected, IsAsleep(t), 0)
  }

  /** Own steps, at most, to the answer. */
  function Distance(pc: WorkerPc): nat {
    match pc
    case CheckSecond(_) => 1
    case CheckFirst(_) => 2
    case WaitUnlock | ClearUnlock | ReadData | Woken | WaitLock => 3
    case ClearSignal | ArmUnlock | Asleep => 4
    case ClearLock | ArmLock | Doze => 5
    case UpdateCal | TestSignal => 6
    case CaptureStart => 7
    case NoticeUnlock(_) => 8
    case NoticeLock(_) => 9
    case ProcessData => 10
    case _ => 0
  }

  /** One own step towards the answer. */
  lemma ToTestStep(t: Thread, o: Observed, cancels: nat, sensor: bool, device: bool)
    requires t.Worker? && CanAnswerAt(t.pc, sensor, device) && !IsAnswering(t)
    requires o.value == Cancel && o.reply == ToTest(t).reply && o.bit == ToTest(t).bit
    ensures var t' := Advance(t, o, cancels);
      t'.Worker? && Distance(t'.pc) < Distance(t.pc) && AbortsOf(t') == AbortsOf(t)
    ensures !ActionOf(t).Write? && !ActionOf(t).Create? && !ActionOf(t).Notify? && !ActionOf(t).Join?
      && !ActionOf(t).Halt?
  {
  }

  /** What an answer must not lose while others move: workers that can answer still can. */
  ghost predicate Keeps(s: System, s': System) {
    && s'.state == Cancel && s'.cancels == s.cancels && |s'.threads| == |s.threads|
    && Aborts(s'.threads) == Aborts(s.threads)
    && Invariant(s')
  }

  /** Worker x can still answer, and if it is answering it is as it was. */
  ghost predicate KeepsAnswerer(s: System, s': System, x: nat) {
    && x < |s.threads| == |s'.threads|
    && (CanAnswer(s, s.threads[x]) ==> CanAnswer(s', s'.threads[x]))
    && (IsAnswering(s.threads[x]) ==> s'.threads[x] == s.threads[x])
  }

  lemma QuietEffect(s: System, l: Label)
    requires Allowed(s, l) && l.Run?
    requires var action := ActionOf(s.threads[l.i]); !action.Write? && !action.Create? && !action.Notify?
    ensures After(s, l).threads == s.threads[l.i := Advance(s.threads[l.i], SeenBy(s, l.input), s.cancels)]
    ensures After(s, l).state == s.state && After(s, l).cancels == s.cancels
  {
    hide ActionOf, Advance;
  }

  /** A step of a capturing worker that no lock holds up. */
  lemma AnswererMoves(s: System, j: nat) returns (l: Label)
    requires Invariant(s) && s.state == Cancel && j < |s.threads|
    requires CanAnswer(s, s.threads[j]) && !IsAnswering(s.threads[j])
    requires ActionOf(s.threads[j]).Acquire? ==> Owner(s, ActionOf(s.threads[j]).lock) == None
    ensures Allowed(s, l)
    ensures var s' := After(s, l);
      && Keeps(s, s')
      && s'.threads == s.threads[j := s'.threads[j]]
      && CanAnswer(s', s'.threads[j]) && Distance(s'.threads[j].pc) < Distance(s.threads[j].pc)
      && AnswersInGuard(s'.threads[j], s'.signal) == AnswersInGuard(s.threads[j], s.signal)
      && forall x | 0 <= x < |s.threads| && x != j
        && (IsAnswering(s.threads[x]) || !AnswersInGuard(s.threads[j], s.signal)) ::
           KeepsAnswerer(s, s', x)
  {
    hide Invariant, Allowed, After, Advance, ActionOf, CanAnswerAt, AnswersInGuard, Distance, IsAnswering, AbortsOf,
      Aborts, SensorTaken, DeviceTaken;
    var t := s.threads[j];
    l := Run(j, ToTest(t));
    var o := SeenBy(s, l.input);
    ToTestStep(t, o, s.cancels, !SensorTaken(s), !DeviceTaken(s));
    AnswererIsAllowed(s, j);
    var s' := After(s, l);
    QuietEffect(s, l);
    InvariantKept(s, l);
    AnswersUpdate(s.threads, j, s'.threads[j]);
    AfterAnswerer(s, l);
    forall x | 0 <= x < |s.threads| && x != j && (IsAnswering(s.threads[x]) || !AnswersInGuard(t, s.signal))
      ensures KeepsAnswerer(s, s', x)
    {
      AnsweringCanAnswer(s', s'.threads[x]);
      if s.threads[x].Worker? {
        AnswerMonotone(s.threads[x], !SensorTaken(s), !DeviceTaken(s), !SensorTaken(s'), !DeviceTaken(s'));
      }
    }
  }

  lemma AnswererIsAllowed(s: System, j: nat)
    requires j < |s.threads| && CanAnswer(s, s.threads[j]) && !IsAnswering(s.threads[j])
    requires ActionOf(s.threads[j]).Acquire? ==> Owner(s, ActionOf(s.threads[j]).lock) == None
    ensures Allowed(s, Run(j, ToTest(s.threads[j])))
  {
    hide SensorTaken, DeviceTaken;
  }

  /** The step keeps the worker on its way, in the guard or out of it. */
  lemma ToTestWay(t: Thread, o: Observed, cancels: nat, sensor: bool, device: bool)
    requires t.Worker? && CanAnswerAt(t.pc, sensor, device) && !IsAnswering(t)
    requires o.value == Cancel && o.reply == ToTest(t).reply && o.bit == ToTest(t).bit
    requires Holds(t, Sensor) && !InGuard(t) ==> sensor
    ensures var t' := Advance(t, o, cancels); InGuard(t') || CanAnswerAt(t'.pc, sensor, device)
  {
  }

  lemma ToTestGuard(t: Thread, o: Observed, cancels: nat, sensor: bool, device: bool)
    requires t.Worker? && CanAnswerAt(t.pc, sensor, device) && !IsAnswering(t)
    requires o.value == Cancel && o.reply == ToTest(t).reply && o.bit == ToTest(t).bit
    ensures var t' := Advance(t, o, cancels);
      && t'.Worker?
      && AnswersInGuard(t', o.signal) == AnswersInGuard(t, o.signal)
      && (t'.pc == TestSignal ==> ActionOf(t).PutSignal?)
      && (!AnswersInGuard(t, o.signal) ==> !InGuard(t') && !InGuard(t))
      && (InGuard(t') ==> CanAnswerAt(t'.pc, false, false))
  {
  }

  /** The locks that are out of reach after the step are those that were before, if not the worker's own. */
  lemma TakenBack(s: System, l: Label)
    requires Invariant(s) && Allowed(s, l) && l.Run? && s.threads[l.i].Worker?
    requires After(s, l).threads == s.threads[l.i := Advance(s.threads[l.i], SeenBy(s, l.input), s.cancels)]
    ensures !InGuard(After(s, l).threads[l.i]) && SensorTaken(After(s, l)) ==> SensorTaken(s)
    ensures DeviceTaken(After(s, l)) ==> DeviceTaken(s)
    ensures Holds(s.threads[l.i], Sensor) && !InGuard(s.threads[l.i]) ==> !SensorTaken(s)
  {
    hide Advance, ActionOf, InGuard, Holds;
    WorkersDoNotCling(s, l);
  }

  lemma WorkersDoNotCling(s: System, l: Label)
    requires Allowed(s, l) && l.Run? && s.threads[l.i].Worker?
    ensures !Clings(Advance(s.threads[l.i], SeenBy(s, l.input), s.cancels))
  {
    hide WorkerNext;
  }

  lemma AfterAnswerer(s: System, l: Label)
    requires Invariant(s) && Allowed(s, l) && l.Run? && s.state == Cancel && l.i < |s.threads|
    requires s.threads[l.i].Worker? && CanAnswer(s, s.threads[l.i]) && !IsAnswering(s.threads[l.i])
    requires l.input == ToTest(s.threads[l.i])
    requires After(s, l).threads == s.threads[l.i := Advance(s.threads[l.i], SeenBy(s, l.input), s.cancels)]
    ensures var t, s' := s.threads[l.i], After(s, l);
      && CanAnswer(s', s'.threads[l.i])
      && AnswersInGuard(s'.threads[l.i], s'.signal) == AnswersInGuard(t, s.signal)
      && (!AnswersInGuard(t, s.signal) ==> (SensorTaken(s') ==> SensorTaken(s)) && (DeviceTaken(s') ==> DeviceTaken(s)))
  {
    hide Invariant, Allowed, After, Advance, Holds, InGuard, AnswersInGuard, SensorTaken, DeviceTaken;
    var t, o := s.threads[l.i], SeenBy(s, l.input);
    TakenBack(s, l);
    ToTestWay(t, o, s.cancels, !SensorTaken(s), !DeviceTaken(s));
    ToTestGuard(t, o, s.cancels, !SensorTaken(s), !DeviceTaken(s));
    SignalAfter(s, l);
    AnswerMonotone(Advance(t, o, s.cancels), !SensorTaken(s), !DeviceTaken(s), !SensorTaken(After(s, l)),
      !DeviceTaken(After(s, l)));
    AnswerMonotone(Advance(t, o, s.cancels), false, false, !SensorTaken(After(s, l)), !DeviceTaken(After(s, l)));
  }

  lemma SignalAfter(s: System, l: Label)
    requires Allowed(s, l) && l.Run? && s.threads[l.i].Worker?
    ensures var t' := Advance(s.threads[l.i], SeenBy(s, l.input), s.cancels);
      t'.Worker? && AnswersInGuard(t', After(s, l).signal) == AnswersInGuard(t', s.signal)
  {
  }

  lemma AnswerMonotone(t: Thread, sensor: bool, device: bool, sensor': bool, device': bool)
    requires t.Worker?
    ensures (sensor ==> sensor') && (device ==> device') && CanAnswerAt(t.pc, sensor, device) ==>
      CanAnswerAt(t.pc, sensor', device')
  {
  }

  // ----- letting the holder of a lock go first

  lemma HolderHarmless(t: Thread, lock: Lock, o: Observed, cancels: nat, device: bool)
    requires Holds(t, lock) && !InGuard(t) && !Clings(t) && o.value == Cancel
    requires t.Starter? && t.spc.LookForSlot? ==> o.bit
    ensures var t' := Advance(t, o, cancels);
      && !InGuard(t') && !Clings(t') && AbortsOf(t') == AbortsOf(t) && !ActionOf(t).Write? && !IsAnswering(t)
      && (t.Worker? <==> t'.Worker?)
      && (t.Worker? && CanAnswerAt(t.pc, true, device) ==> CanAnswerAt(t'.pc, true, device))
    ensures !ActionOf(t).Acquire?
  {
  }

  lemma {:induction false} AbortsSame(a: seq<Thread>, b: seq<Thread>)
    requires |a| == |b| && forall k | 0 <= k < |a| :: AbortsOf(a[k]) == AbortsOf(b[k])
    ensures Aborts(a) == Aborts(b)
  {
    if a != [] {
      AbortsSame(a[..|a| - 1], b[..|b| - 1]);
    }
  }

  /** The holder of a lock, outside the guard, moves and takes nothing from those that can answer. */
  lemma HolderKeeps(s: System, lock: Lock) returns (l: Label)
    requires Invariant(s) && s.state == Cancel && !SensorTaken(s) && Owner(s, lock).Some?
    requires lock == Lock.Device ==> !DeviceTaken(s)
    ensures Allowed(s, l)
    ensures var s' := After(s, l);
      && Keeps(s, s') && !SensorTaken(s') && (DeviceTaken(s') ==> DeviceTaken(s))
      && (forall x | 0 <= x < |s.threads| :: KeepsAnswerer(s, s', x))
      && (forall x | 0 <= x < |s.threads| && Owner(s, lock) != Some(x) :: Undisturbed(s, s', x))
      && (|| Owner(s', lock) == None
          || (Owner(s', lock) == Owner(s, lock)
              && ReleaseIn(s'.threads[Owner(s, lock).value], lock) < ReleaseIn(s.threads[Owner(s, lock).value], lock)))
  {
    hide Invariant, Allowed, After, Advance, ActionOf, CanAnswerAt, InGuard, Clings, ReleaseIn, AbortsOf, Aborts,
      IsAnswering, IsAsleep;
    OwnerIsThread(s, lock);
    var o := Owner(s, lock).value;
    var t := s.threads[o];
    HolderIsFree(s, lock);
    l := HolderStep(s, lock, (i, n) => Input(Rejected, false, 0));
    HolderHarmless(t, lock, SeenBy(s, l.input), s.cancels, !DeviceTaken(s));
    var s' := After(s, l);
    StateKept(s, l);
    TakenAfterHolder(s, l, lock);
    forall x | 0 <= x < |s.threads|
      ensures KeepsAnswerer(s, s', x) && AbortsOf(s'.threads[x]) == AbortsOf(s.threads[x])
    {
      if x != o {
        assert Undisturbed(s, s', x);
        WokenAnswers(s.threads[x], !SensorTaken(s), !DeviceTaken(s), !SensorTaken(s'), !DeviceTaken(s'));
      } else if t.Worker? {
        AnswerMonotone(s'.threads[x], true, !DeviceTaken(s), !SensorTaken(s'), !DeviceTaken(s'));
      }
    }
    AbortsSame(s.threads, s'.threads);
  }

  lemma HolderIsFree(s: System, lock: Lock)
    requires Invariant(s) && !SensorTaken(s) && Owner(s, lock).Some? && (lock == Lock.Device ==> !DeviceTaken(s))
    ensures Owner(s, lock).value < |s.threads|
    ensures var t := s.threads[Owner(s, lock).value]; Holds(t, lock) && !InGuard(t) && !Clings(t)
  {
    assert Holds(s.threads[Owner(s, lock).value], lock);
  }

  lemma TakenAfterHolder(s: System, l: Label, lock: Lock)
    requires Invariant(s) && Allowed(s, l) && l.Run? && l.i < |s.threads| == |After(s, l).threads|
    requires After(s, l).threads[l.i] == Advance(s.threads[l.i], SeenBy(s, l.input), s.cancels)
    requires !InGuard(After(s, l).threads[l.i]) && !Clings(After(s, l).threads[l.i])
      && !ActionOf(s.threads[l.i]).Acquire?
    requires forall k | 0 <= k < |s.threads| && k != l.i :: Undisturbed(s, After(s, l), k)
    ensures SensorTaken(After(s, l)) ==> SensorTaken(s)
    ensures DeviceTaken(After(s, l)) ==> DeviceTaken(s)
  {
    hide Invariant, Advance, ActionOf, InGuard, Clings, Holds, IsAsleep;
    var s' := After(s, l);
    OwnerAfter(s, l.i, ActionOf(s.threads[l.i]), l.input, Sensor);
    OwnerAfter(s, l.i, ActionOf(s.threads[l.i]), l.input, Lock.Device);
    if SensorTaken(s') {
      var o := s'.sensorOwner.value;
      assert Undisturbed(s, s', o);
      SleeperNeither(s.threads[o]);
    }
    if DeviceTaken(s') {
      var o := s'.deviceOwner.value;
      assert Undisturbed(s, s', o);
      SleeperNeither(s.threads[o]);
    }
  }

  lemma SleeperNeither(t: Thread)
    ensures IsAsleep(t) ==> !InGuard(t.(pc := Woken)) && !Clings(t.(pc := Woken))
  {
  }

  lemma WokenAnswers(t: Thread, sensor: bool, device: bool, sensor': bool, device': bool)
    requires (sensor ==> sensor') && (device ==> device')
    ensures t.Worker? && CanAnswerAt(t.pc, sensor, device) ==> CanAnswerAt(t.pc, sensor', device')
    ensures IsAsleep(t) ==> (CanAnswerAt(t.pc, sensor, device) ==> CanAnswerAt(Woken, sensor', device'))
    ensures IsAsleep(t) ==> !IsAnswering(t) && AbortsOf(t.(pc := Woken)) == AbortsOf(t)
  {
  }

  // ----- both answers

  /** What the worker still has to do, its own steps counting more than those of a lock holder. */
  ghost function ToDo(s: System, j: nat): nat
    requires j < |s.threads| && s.threads[j].Worker?
  {
    var t := s.threads[j];
    8 * Distance(t.pc) +
      if !ActionOf(t).Acquire? || Owner(s, ActionOf(t).lock) == None
        || Owner(s, ActionOf(t).lock).value >= |s.threads| then 0
      else ReleaseIn(s.threads[Owner(s, ActionOf(t).lock).value], ActionOf(t).lock)
  }

  /** One step that brings worker j nearer to its answer, while worker x keeps what it has. */
  lemma Nearer(s: System, j: nat, x: nat) returns (l: Label)
    requires Invariant(s) && s.state == Cancel && j < |s.threads| && x < |s.threads| && x != j
    requires CanAnswer(s, s.threads[j]) && !IsAnswering(s.threads[j])
    requires IsAnswering(s.threads[x]) || !AnswersInGuard(s.threads[j], s.signal)
    ensures Allowed(s, l)
    ensures var s' := After(s, l);
      && Keeps(s, s') && KeepsAnswerer(s, s', x) && CanAnswer(s', s'.threads[j])
      && AnswersInGuard(s'.threads[j], s'.signal) == AnswersInGuard(s.threads[j], s.signal)
      && ToDo(s', j) < ToDo(s, j)
  {
    hide Invariant, Allowed, After, Advance, ActionOf, CanAnswerAt, InGuard, ReleaseIn, IsAnswering, Aborts, Distance,
      SensorTaken, DeviceTaken, AnswersInGuard;
    var t := s.threads[j];
    if ActionOf(t).Acquire? && Owner(s, ActionOf(t).lock).Some? {
      var lock := ActionOf(t).lock;
      WaitersNeedLocks(t, lock, !SensorTaken(s), !DeviceTaken(s));
      OwnerIsThread(s, lock);
      l := HolderKeeps(s, lock);
      ReleaseBounds(s.threads[Owner(s, lock).value], lock);
      assert Undisturbed(s, After(s, l), j) && KeepsAnswerer(s, After(s, l), j);
      WaitersIgnoreSignal(t, s.signal, After(s, l).signal);
    } else {
      l := AnswererMoves(s, j);
      ReleaseBound(After(s, l), j);
    }
  }

  lemma WaitersNeedLocks(t: Thread, lock: Lock, sensor: bool, device: bool)
    requires t.Worker? && CanAnswerAt(t.pc, sensor, device) && ActionOf(t) == Acquire(lock)
    ensures sensor && (lock == Lock.Device ==> device) && !IsAsleep(t) && !Holds(t, lock)
  {
  }

  lemma WaitersIgnoreSignal(t: Thread, signal: bool, signal': bool)
    requires t.Worker? && ActionOf(t).Acquire?
    ensures AnswersInGuard(t, signal) == AnswersInGuard(t, signal')
  {
  }

  lemma ReleaseBound(s: System, j: nat)
    requires Invariant(s) && s.state == Cancel && j < |s.threads| && s.threads[j].Worker? && CanAnswer(s, s.threads[j])
    ensures ToDo(s, j) <= 8 * Distance(s.threads[j].pc) + 6
  {
    hide Distance, SensorTaken, DeviceTaken, Holds, ReleaseIn, CanAnswerAt;
    var t := s.threads[j];
    if ActionOf(t).Acquire? && Owner(s, ActionOf(t).lock).Some? {
      var lock := ActionOf(t).lock;
      OwnerIsThread(s, lock);
      var holder := s.threads[Owner(s, lock).value];
      ReleaseBounds(holder, lock);
    }
  }

  lemma ReleaseBounds(t: Thread, lock: Lock)
    ensures ReleaseIn(t, lock) <= 6 && (Holds(t, lock) ==> ReleaseIn(t, lock) >= 1)
  {
  }

  /** Worker j is brought to its answer, and worker x keeps what it has. */
  lemma {:induction false} BringToAnswer(s: System, j: nat, x: nat) returns (labels: seq<Label>, s': System)
    requires Invariant(s) && s.state == Cancel && j < |s.threads| && x < |s.threads| && x != j
    requires CanAnswer(s, s.threads[j]) && (IsAnswering(s.threads[x]) || !AnswersInGuard(s.threads[j], s.signal))
    ensures Reaches(s, labels, s') && Keeps(s, s') && KeepsAnswerer(s, s', x) && IsAnswering(s'.threads[j])
    decreases ToDo(s, j)
  {
    hide Invariant, Allowed, After, CanAnswer, AnswersInGuard, ToDo, IsAnswering, Aborts;
    if IsAnswering(s.threads[j]) {
      labels, s' := [], s;
    } else {
      var l := Nearer(s, j, x);
      var m := After(s, l);
      StillAnswering(s, m, x);
      labels, s' := BringToAnswer(m, j, x);
      ReachesOne(s, l);
      ReachesJoin(s, [l], m, labels, s');
      StillAnswering(m, s', x);
      labels := [l] + labels;
    }
  }

  lemma StillAnswering(s: System, s': System, x: nat)
    requires KeepsAnswerer(s, s', x)
    ensures IsAnswering(s.threads[x]) ==> IsAnswering(s'.threads[x])
  {
  }

  /** A worker that is answering sends its CaptureAbort. */
  lemma SendAbort(s: System, i: nat)
    requires i < |s.threads| && IsAnswering(s.threads[i])
    ensures var l := Run(i, Input(Rejected, false, 0));
      && Allowed(s, l)
      && After(s, l).cancels == s.cancels && |After(s, l).threads| == |s.threads|
      && (forall k | 0 <= k < |s.threads| && k != i :: After(s, l).threads[k] == s.threads[k])
      && Aborts(After(s, l).threads) == Aborts(s.threads) + 1
  {
    hide Aborts;
    var l := Run(i, Input(Rejected, false, 0));
    AnswersUpdate(s.threads, i, Advance(s.threads[i], SeenBy(s, l.input), s.cancels));
  }

  /** A run in which one CANCEL gets two answers. */
  lemma BothAnswer(s: System, i: nat, j: nat) returns (labels: seq<Label>, s': System)
    requires Invariant(s) && s.state == Cancel && Both(s, i, j)
    ensures Reaches(s, labels, s') && s'.cancels == s.cancels && Aborts(s'.threads) == Aborts(s.threads) + 2
  {
    hide Invariant, Allowed, After, CanAnswer, AnswersInGuard, IsAnswering, Aborts, Reaches;
    var first, m := BringToAnswer(s, i, j);
    var second, n := BringToAnswer(m, j, i);
    StillAnswering(m, n, i);
    ReachesJoin(s, first, m, second, n);
    var l := Run(i, Input(Rejected, false, 0));
    SendAbort(n, i);
    var o := After(n, l);
    ReachesOne(n, l);
    ReachesJoin(s, first + second, n, [l], o);
    var l' := Run(j, Input(Rejected, false, 0));
    SendAbort(o, j);
    ReachesOne(o, l');
    labels, s' := first + second + [l] + [l'], After(o, l');
    ReachesJoin(s, first + second + [l], o, [l'], s');
  }

  /**
   Exactly when one CANCEL gets at most one answer: from a reachable state in which it stands, no
   run without another CANCEL sends more than one CaptureAbort, if and only if no two workers can
   both still answer it.
   */
  lemma OneAnswerExactly(s: System)
    requires Invariant(s) && s.state == Cancel
    ensures !TwoCanAnswer(s) <==>
      forall labels, s' | Reaches(s, labels, s') && s'.cancels == s.cancels :: Aborts(s'.threads) <= Aborts(s.threads) + 1
  {
    hide Invariant, Reaches, Aborts, Answers, Both;
    if TwoCanAnswer(s) {
      var i, j :| Both(s, i, j);
      var labels, s' := BothAnswer(s, i, j);
    } else {
      forall labels, s' | Reaches(s, labels, s') && s'.cancels == s.cancels
        ensures Aborts(s'.threads) <= Aborts(s.threads) + 1
      {
        AnswersUntilNextCancel(s, labels, s');
        OneAnswerLeft(s);
        AbortsBelowAnswers(s'.threads);
      }
    }
  }
}
