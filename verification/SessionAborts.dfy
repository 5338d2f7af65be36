/**
 How many workers answer one CANCEL.  A worker answers with CaptureAbort when it reads CANCEL in a
 capture; it is told here, from the program counters and the lock holders alone, which workers can
 still answer a standing CANCEL before IDLE is written, and which two can both do so.
 */
module SessionAborts {
  import opened Protocol
  import opened Session
  import opened SessionSafety
  import opened SessionProgress
  import opened SessionRuns

  // ----- counting

  function AbortsOf(t: Thread): nat {
    if t.Worker? then t.aborts else 0
  }

  predicate IsAnswering(t: Thread) {
    t.Worker? && t.pc.CheckAbort?
  }

  /** CaptureAbort commands that a thread has sent, and the one that it is about to send. */
  function AnswersOf(t: Thread): nat {
    AbortsOf(t) + if IsAnswering(t) then 1 else 0
  }

  /** The CaptureAbort commands of all workers. */
  function Aborts(threads: seq<Thread>): nat {
    if threads == [] then 0
    else Aborts(threads[..|threads| - 1]) + AbortsOf(threads[|threads| - 1])
  }

  function Answers(threads: seq<Thread>): nat {
    if threads == [] then 0
    else Answers(threads[..|threads| - 1]) + AnswersOf(threads[|threads| - 1])
  }

  lemma {:induction false} AbortsBelowAnswers(threads: seq<Thread>)
    ensures Aborts(threads) <= Answers(threads)
  {
    if threads != [] {
      AbortsBelowAnswers(threads[..|threads| - 1]);
    }
  }

  lemma {:induction false} AnswersUpdate(threads: seq<Thread>, i: nat, t: Thread)
    requires i < |threads|
    ensures Answers(threads[i := t]) == Answers(threads) - AnswersOf(threads[i]) + AnswersOf(t)
    ensures Aborts(threads[i := t]) == Aborts(threads) - AbortsOf(threads[i]) + AbortsOf(t)
  {
    hide AnswersOf, AbortsOf;
    var last := |threads| - 1;
    if i < last {
      AnswersUpdate(threads[..last], i, t);
      assert threads[i := t][..last] == threads[..last][i := t];
    } else {
      assert threads[i := t][..last] == threads[..last];
    }
  }

  lemma AnswersAppend(threads: seq<Thread>, t: Thread)
    ensures Answers(threads + [t]) == Answers(threads) + AnswersOf(t)
    ensures Aborts(threads + [t]) == Aborts(threads) + AbortsOf(t)
  {
    assert (threads + [t])[..|threads|] == threads;
  }

  // ----- who can answer

  /** A worker in the guard of the wait, which under CANCEL leaves it only by writing IDLE. */
  predicate InGuard(t: Thread) {
    t.Worker? &&
    match t.pc
    case CheckFirst(site) => site.Guard?
    case CheckSecond(site) => site.Guard?
    case CheckAbort(site) => site.Guard?
    case CheckIdle(site) => site.Guard?
    case _ => false
  }

  /** The sensor's lock will not be free before IDLE is written. */
  predicate SensorTaken(s: System) {
    s.sensorOwner.Some? && s.sensorOwner.value < |s.threads| && InGuard(s.threads[s.sensorOwner.value])
  }

  /** The device lock will not be free while the CANCEL stands. */
  predicate DeviceTaken(s: System) {
    s.deviceOwner.Some? && s.deviceOwner.value < |s.threads| && Clings(s.threads[s.deviceOwner.value])
  }

  /** Whether a worker at this point can still answer a CANCEL that stands, given which locks it can get. */
  predicate CanAnswerAt(pc: WorkerPc, sensor: bool, device: bool) {
    match pc
    case CheckAbort(_) | CheckFirst(_) | CheckSecond(_) => true
    case WaitUnlock | ClearSignal | ClearUnlock | ReadData | TestSignal | Doze | ArmUnlock => true
    case CaptureStart | UpdateCal | ArmLock | WaitLock | Asleep | Woken | ClearLock => sensor
    case NoticeUnlock(next) => next == ToCapture && sensor
    case NoticeLock(next) => next == ToCapture && sensor && device
    case ProcessData => sensor && device
    case _ => false
  }

  predicate CanAnswer(s: System, t: Thread) {
    t.Worker? && CanAnswerAt(t.pc, !SensorTaken(s), !DeviceTaken(s))
  }

  /** Whether it would hold the sensor's lock then. */
  predicate AnswersInGuard(t: Thread, signal: bool)
    requires t.Worker?
  {
    match t.pc
    case CheckAbort(site) => site.Guard?
    case CheckFirst(site) => site.Guard?
    case CheckSecond(site) => site.Guard?
    case TestSignal => !signal
    case WaitUnlock | ClearLock | ClearSignal | ClearUnlock | ReadData => false
    case _ => true
  }

  /** Two workers that can both answer the standing CANCEL, i not in the guard. */
  ghost predicate Both(s: System, i: nat, j: nat) {
    && i < |s.threads| && j < |s.threads| && i != j
    && CanAnswer(s, s.threads[i]) && CanAnswer(s, s.threads[j])
    && !AnswersInGuard(s.threads[i], s.signal)
  }

  ghost predicate TwoCanAnswer(s: System) {
    exists i, j :: Both(s, i, j)
  }

  /** A standing CANCEL that a worker can still begin to answer. */
  ghost predicate Awaited(s: System) {
    s.state == Cancel && exists i | 0 <= i < |s.threads| :: CanAnswer(s, s.threads[i]) && !IsAnswering(s.threads[i])
  }

  // ----- steps under a standing CANCEL

  lemma GuardStays(t: Thread, o: Observed, cancels: nat)
    requires InGuard(t) && o.value == Cancel && !ActionOf(t).Write?
    ensures InGuard(Advance(t, o, cancels)) && Holds(t, Sensor)
    ensures ActionOf(t).Read? || ActionOf(t).Send?
  {
  }

  lemma TakenStays(s: System, l: Label)
    requires Invariant(s) && Allowed(s, l) && s.state == Cancel && After(s, l).state == Cancel
    ensures SensorTaken(s) ==> SensorTaken(After(s, l))
    ensures DeviceTaken(s) ==> DeviceTaken(After(s, l))
  {
    hide Advance, InGuard, Clings, ActionOf, Holds;
    if l.Run? {
      OwnStep(s, l);
      OwnersAfter(s, l);
      ClingersStay(s.threads[l.i]);
      if SensorTaken(s) {
        var o := s.sensorOwner.value;
        assert Holds(s.threads[o], Sensor);
        if l.i == o {
          IdleOnly(s.threads[o]);
          GuardStays(s.threads[o], SeenBy(s, l.input), s.cancels);
        } else {
          OthersKept(s, l, o);
          NotAsleepInGuard(s.threads[o]);
        }
      }
      if DeviceTaken(s) {
        var o := s.deviceOwner.value;
        assert Holds(s.threads[o], Lock.Device);
        assert l.i != o;
        OthersKept(s, l, o);
        NotAsleepInGuard(s.threads[o]);
      }
    }
  }

  lemma NotAsleepInGuard(t: Thread)
    ensures InGuard(t) || Clings(t) ==> !IsAsleep(t)
  {
  }

  lemma IdleOnly(t: Thread)
    ensures InGuard(t) && ActionOf(t).Write? ==> ActionOf(t) == Write(Idle)
  {
  }

  lemma ClingersStay(t: Thread)
    ensures Clings(t) ==> ActionOf(t) == Acquire(Lock.Device) || ActionOf(t) == Write(Mark(t.starts))
  {
  }

  /** Only the holder of a lock changes its owner. */
  lemma OwnersAfter(s: System, l: Label)
    requires Invariant(s) && Allowed(s, l) && l.Run?
    ensures forall lock | Owner(s, lock).Some? && Owner(s, lock) != Some(l.i) :: Owner(After(s, l), lock) == Owner(s, lock)
    ensures ActionOf(s.threads[l.i]).Read? || ActionOf(s.threads[l.i]).Send? ==>
      After(s, l).sensorOwner == s.sensorOwner && After(s, l).deviceOwner == s.deviceOwner
    ensures ActionOf(s.threads[l.i]).Write? ==> After(s, l).state == ActionOf(s.threads[l.i]).value
  {
    hide Advance, ActionOf, Holds;
    forall lock | Owner(s, lock).Some? && Owner(s, lock) != Some(l.i)
      ensures Owner(After(s, l), lock) == Owner(s, lock)
    {
      assert !Holds(s.threads[l.i], lock);
      LockDiscipline(s.threads[l.i], SeenBy(s, l.input), s.cancels, lock);
      OwnerAfter(s, l.i, ActionOf(s.threads[l.i]), l.input, lock);
    }
  }

  /** Under CANCEL a worker that can answer after its step could before, and only that makes an answer. */
  lemma OwnStepBack(t: Thread, o: Observed, cancels: nat, sensor: bool, device: bool, sensor': bool, device': bool)
    requires t.Worker? && o.value == Cancel && !ActionOf(t).Write? && (sensor' ==> sensor) && (device' ==> device)
    requires (ActionOf(t) == Acquire(Sensor) ==> sensor) && (ActionOf(t) == Acquire(Lock.Device) ==> device)
    ensures var t' := Advance(t, o, cancels);
      t'.Worker? && (CanAnswerAt(t'.pc, sensor', device') ==> CanAnswerAt(t.pc, sensor, device) && !IsAnswering(t))
  {
  }

  /** The number of answers grows only when a worker reads CANCEL for the second time, and then by one. */
  lemma AnswersAdvance(t: Thread, o: Observed, cancels: nat)
    ensures var t' := Advance(t, o, cancels);
      && AbortsOf(t') <= AnswersOf(t)
      && if t.Worker? && t.pc.CheckSecond? && o.value == Cancel then AnswersOf(t') == AnswersOf(t) + 1
        && IsAnswering(t')
         else AnswersOf(t') == AnswersOf(t)
  {
  }

  lemma NewcomersAnswerNothing(s: System, l: Label, k: nat)
    requires Allowed(s, l) && |s.threads| <= k < |After(s, l).threads|
    ensures AnswersOf(After(s, l).threads[k]) == 0 && !CanAnswer(After(s, l), After(s, l).threads[k])
  {
    hide Advance, SensorTaken, DeviceTaken;
  }

  /** The workers that can answer are among those that could a step ago, as long as CANCEL stands. */
  lemma AnswerersBack(s: System, l: Label, k: nat)
    requires Invariant(s) && Allowed(s, l) && s.state == Cancel && After(s, l).state == Cancel
    requires k < |After(s, l).threads| && CanAnswer(After(s, l), After(s, l).threads[k])
    ensures k < |s.threads| && CanAnswer(s, s.threads[k])
    ensures IsAnswering(s.threads[k]) ==> IsAnswering(After(s, l).threads[k])
    ensures !AnswersInGuard(After(s, l).threads[k], After(s, l).signal) ==> !AnswersInGuard(s.threads[k], s.signal)
  {
    hide Advance, ActionOf, Holds, SensorTaken, DeviceTaken, CanAnswerAt, AnswersInGuard, Invariant;
    var s' := After(s, l);
    TakenStays(s, l);
    if k >= |s.threads| {
      NewcomersAnswerNothing(s, l, k);
    } else if l.Run? && l.i == k {
      OwnStep(s, l);
      var t, o := s.threads[k], SeenBy(s, l.input);
      WritersLeaveCancel(t, o, s.cancels);
      FreeWhenAcquired(s, l);
      OwnStepBack(t, o, s.cancels, !SensorTaken(s), !DeviceTaken(s), !SensorTaken(s'), !DeviceTaken(s'));
      GuardBackHere(s, l);
    } else {
      if l.Run? {
        OthersKept(s, l, k);
        OtherGuardBack(s, l, k);
      }
      WakingChangesNothing(s.threads[k], s'.signal, !SensorTaken(s), !DeviceTaken(s), !SensorTaken(s'),
        !DeviceTaken(s'));
    }
  }

  lemma WritersLeaveCancel(t: Thread, o: Observed, cancels: nat)
    ensures t.Worker? && ActionOf(t).Write? ==> ActionOf(t) == Write(Idle)
    ensures t.Worker? <==> Advance(t, o, cancels).Worker?
  {
  }

  lemma FreeWhenAcquired(s: System, l: Label)
    requires Invariant(s) && Allowed(s, l) && l.Run?
    ensures ActionOf(s.threads[l.i]) == Acquire(Sensor) ==> !SensorTaken(s)
    ensures ActionOf(s.threads[l.i]) == Acquire(Lock.Device) ==> !DeviceTaken(s)
    ensures ActionOf(s.threads[l.i]).Write? ==> After(s, l).state == ActionOf(s.threads[l.i]).value
  {
    hide Advance, ActionOf, Holds;
  }

  lemma WakingChangesNothing(t: Thread, signal: bool, sensor: bool, device: bool, sensor': bool, device': bool)
    requires t.Worker? && (sensor' ==> sensor) && (device' ==> device)
    ensures CanAnswerAt(t.pc, sensor', device') ==> CanAnswerAt(t.pc, sensor, device)
    ensures IsAsleep(t) && CanAnswerAt(Woken, sensor', device') ==> CanAnswerAt(t.pc, sensor, device)
    ensures IsAsleep(t) ==> !IsAnswering(t) && AnswersInGuard(t.(pc := Woken), signal)
  {
  }

  lemma GuardBackHere(s: System, l: Label)
    requires Allowed(s, l) && l.Run? && s.state == Cancel && s.threads[l.i].Worker? && !ActionOf(s.threads[l.i]).Write?
    requires CanAnswer(After(s, l), Advance(s.threads[l.i], SeenBy(s, l.input), s.cancels))
    ensures !AnswersInGuard(Advance(s.threads[l.i], SeenBy(s, l.input), s.cancels), After(s, l).signal) ==>
              !AnswersInGuard(s.threads[l.i], s.signal)
  {
  }

  lemma OtherGuardBack(s: System, l: Label, k: nat)
    requires Invariant(s) && Allowed(s, l) && l.Run? && k < |s.threads| && k != l.i && s.threads[k].Worker?
    ensures AnswersInGuard(s.threads[k], After(s, l).signal) == AnswersInGuard(s.threads[k], s.signal)
  {
  }

  // ----- the bound

  ghost function Unspent(s: System): nat {
    if Awaited(s) then 1 else 0
  }

  /** Counting one step: who moved, and what the others keep. */
  lemma AnswersAfter(s: System, l: Label)
    requires Allowed(s, l)
    ensures var grows := l.Run? && s.threads[l.i].Worker? && s.threads[l.i].pc.CheckSecond? && s.state == Cancel;
      && Answers(After(s, l).threads) == Answers(s.threads) + (if grows then 1 else 0)
      && (grows ==> After(s, l).state == Cancel && After(s, l).cancels == s.cancels
                    && l.i < |After(s, l).threads| && IsAnswering(After(s, l).threads[l.i]))
    ensures After(s, l).cancels >= s.cancels
  {
    hide Advance, ActionOf, AnswersOf, AbortsOf, IsAnswering;
    if l.Run? {
      var t := s.threads[l.i];
      var mid := Effect(s, l.i, ActionOf(t), l.input);
      EffectAnswers(s, l);
      AnswersAdvance(t, SeenBy(s, l.input), s.cancels);
      AnswersUpdate(mid.threads, l.i, Advance(t, SeenBy(s, l.input), s.cancels));
      CheckSecondReads(t);
    } else {
      AnswersAppend(s.threads, l.caller);
      CallsAnswerNothing(l.caller);
    }
  }

  lemma CheckSecondReads(t: Thread)
    ensures t.Worker? && t.pc.CheckSecond? ==> ActionOf(t) == Read
  {
  }

  lemma CallsAnswerNothing(t: Thread)
    ensures IsCall(t) ==> AnswersOf(t) == 0 && AbortsOf(t) == 0
  {
  }

  lemma EffectAnswers(s: System, l: Label)
    requires Allowed(s, l) && l.Run?
    ensures var mid := Effect(s, l.i, ActionOf(s.threads[l.i]), l.input);
      && l.i < |mid.threads| && mid.threads[l.i] == s.threads[l.i]
      && Answers(mid.threads) == Answers(s.threads) && Aborts(mid.threads) == Aborts(s.threads)
  {
    hide ActionOf, Answers, Aborts;
    var action := ActionOf(s.threads[l.i]);
    if action.Notify? && l.input.waiter < |s.threads| && IsAsleep(s.threads[l.input.waiter]) {
      NotifiersAreAwake(s.threads[l.i]);
      AnswersUpdate(s.threads, l.input.waiter, s.threads[l.input.waiter].(pc := Woken));
    } else if action.Create? && l.input.bit {
      ChildrenAnswerNothing(s.threads[l.i]);
      AnswersAppend(s.threads, action.child);
    }
  }

  lemma NotifiersAreAwake(t: Thread)
    ensures ActionOf(t).Notify? ==> !IsAsleep(t)
  {
  }

  lemma ChildrenAnswerNothing(t: Thread)
    ensures ActionOf(t).Create? ==> AnswersOf(ActionOf(t).child) == 0 && AbortsOf(ActionOf(t).child) == 0
  {
  }

  /** Under CANCEL a worker that can answer besides one that has just begun to makes a pair with it. */
  lemma SecondAnswerer(s: System, i: nat, k: nat)
    requires Invariant(s) && i < |s.threads| && k < |s.threads| && i != k
    requires IsAnswering(s.threads[i]) && CanAnswer(s, s.threads[k])
    ensures TwoCanAnswer(s)
  {
    if InGuard(s.threads[i]) {
      assert Holds(s.threads[i], Sensor) && !Holds(s.threads[k], Sensor);
      assert SensorTaken(s);
      assert Both(s, k, i);
    } else {
      assert Both(s, i, k);
    }
  }

  /** As long as CANCEL stands, a pair of answerers was one a step ago. */
  lemma PairsBack(s: System, l: Label)
    requires Invariant(s) && Allowed(s, l) && s.state == Cancel && After(s, l).state == Cancel
      && TwoCanAnswer(After(s, l))
    ensures TwoCanAnswer(s)
  {
    hide Invariant, Allowed, After, CanAnswer, AnswersInGuard, IsAnswering;
    var i, j :| Both(After(s, l), i, j);
    AnswerersBack(s, l, i);
    AnswerersBack(s, l, j);
    assert Both(s, i, j);
  }

  /**
   A step makes at most one more answer out of a CANCEL that was waiting for one, and a CANCEL
   waits for an answer only from when it is written.
   */
  lemma AnswersSpend(s: System, l: Label)
    requires Invariant(s) && Allowed(s, l) && (s.state == Cancel ==> !TwoCanAnswer(s))
    ensures var s' := After(s, l);
      Answers(s'.threads) + Unspent(s') <= Answers(s.threads) + Unspent(s) + (s'.cancels - s.cancels)
        && s.cancels <= s'.cancels
  {
    hide Invariant, Allowed, After, CanAnswer, AnswersInGuard, IsAnswering, TwoCanAnswer;
    var s' := After(s, l);
    AnswersAfter(s, l);
    StateAfter(s, l);
    InvariantKept(s, l);
    if Awaited(s') && s'.cancels == s.cancels {
      var k :| 0 <= k < |s'.threads| && CanAnswer(s', s'.threads[k]) && !IsAnswering(s'.threads[k]);
      AnswerersBack(s, l, k);
      if Answers(s'.threads) > Answers(s.threads) {
        SecondAnswerer(s', l.i, k);
        PairsBack(s, l);
      }
    } else if Answers(s'.threads) > Answers(s.threads) {
      ReaderWasAwaited(s, l);
    }
  }

  lemma ReaderWasAwaited(s: System, l: Label)
    requires Allowed(s, l) && l.Run? && s.state == Cancel && s.threads[l.i].Worker? && s.threads[l.i].pc.CheckSecond?
    ensures Awaited(s)
  {
    assert CanAnswer(s, s.threads[l.i]) && !IsAnswering(s.threads[l.i]);
  }

  /**
   The bound for the whole system: as long as no standing CANCEL ever has two workers that can both
   answer it, all workers together send at most one CaptureAbort for each CANCEL written.
   */
  lemma {:induction false} TotalAbortsBounded(states: seq<System>, labels: seq<Label>, k: nat)
    requires Execution(states, labels) && states[0] == INITIAL && k < |states|
    requires forall m | 0 <= m < k :: states[m].state == Cancel ==> !TwoCanAnswer(states[m])
    ensures Aborts(states[k].threads) <= Answers(states[k].threads) <= states[k].cancels
    ensures Answers(states[k].threads) + Unspent(states[k]) <= states[k].cancels
  {
    hide Allowed, After, TwoCanAnswer, Invariant;
    AbortsBelowAnswers(states[k].threads);
    if k > 0 {
      TotalAbortsBounded(states, labels, k - 1);
      InvariantAlong(states, labels, k - 1) by { InitialInvariant(); }
      AnswersSpend(states[k - 1], labels[k - 1]);
    }
  }

  lemma InitialInvariant()
    ensures Invariant(INITIAL)
  {
  }

  // ----- one CANCEL

  /** Until CANCEL is written again, no more answers are begun than the one it waits for. */
  lemma {:induction false} AnswersUntilNextCancel(s: System, labels: seq<Label>, s': System)
    requires Invariant(s) && Reaches(s, labels, s') && s'.cancels == s.cancels
    requires s.state == Cancel ==> !TwoCanAnswer(s)
    ensures Answers(s'.threads) <= Answers(s.threads) + Unspent(s)
    ensures s.cancels <= s'.cancels
    decreases |labels|
  {
    hide Allowed, After, TwoCanAnswer, Invariant, Awaited;
    if labels != [] {
      var l := labels[0];
      var m := After(s, l);
      AnswersSpend(s, l);
      CancelsGrow(m, labels[1..], s');
      InvariantKept(s, l);
      StateAfter(s, l);
      if m.state == Cancel && TwoCanAnswer(m) {
        PairsBack(s, l);
      }
      AnswersUntilNextCancel(m, labels[1..], s');
    }
  }

  lemma {:induction false} CancelsGrow(s: System, labels: seq<Label>, s': System)
    requires Reaches(s, labels, s')
    ensures s.cancels <= s'.cancels
    decreases |labels|
  {
    hide Allowed, After;
    if labels != [] {
      StateAfter(s, labels[0]);
      CancelsGrow(After(s, labels[0]), labels[1..], s');
    }
  }

  /** At most one thread is answering. */
  lemma {:induction false} FewAnswers(threads: seq<Thread>)
    requires forall i, j | 0 <= i < |threads| && 0 <= j < |threads| && IsAnswering(threads[i])
      && IsAnswering(threads[j]) :: i == j
    ensures Answers(threads) <= Aborts(threads) + 1
    ensures (forall i | 0 <= i < |threads| :: !IsAnswering(threads[i])) ==> Answers(threads) == Aborts(threads)
  {
    if threads != [] {
      FewAnswers(threads[..|threads| - 1]);
    }
  }

  /** Without a pair of answerers a standing CANCEL has at most one answer, begun or to come. */
  lemma OneAnswerLeft(s: System)
    requires Invariant(s) && s.state == Cancel && !TwoCanAnswer(s)
    ensures Answers(s.threads) + Unspent(s) <= Aborts(s.threads) + 1
  {
    hide Invariant, TwoCanAnswer, CanAnswer;
    forall i, j | 0 <= i < |s.threads| && 0 <= j < |s.threads| && IsAnswering(s.threads[i]) && IsAnswering(s.threads[j])
      ensures i == j
    {
      AnsweringCanAnswer(s, s.threads[j]);
      if i != j {
        SecondAnswerer(s, i, j);
      }
    }
    FewAnswers(s.threads);
    if Awaited(s) {
      var k :| 0 <= k < |s.threads| && CanAnswer(s, s.threads[k]) && !IsAnswering(s.threads[k]);
      forall i | 0 <= i < |s.threads|
        ensures !IsAnswering(s.threads[i])
      {
        if IsAnswering(s.threads[i]) {
          SecondAnswerer(s, i, k);
        }
      }
    }
  }

  lemma AnsweringCanAnswer(s: System, t: Thread)
    ensures IsAnswering(t) ==> CanAnswer(s, t)
  {
  }
}
