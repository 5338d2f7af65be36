/**
 How a CANCEL ends when nothing comes in any more: no new calls, no spurious return of a wait.  Two
 questions have exact answers in terms of the state alone: whether IDLE can be written for some
 replies of the app, and whether it can for every sequence of replies.
 */
module SessionReplies {
  import opened Protocol
  import opened Session
  import opened SessionSafety
  import opened SessionProgress
  import opened SessionRuns

  // ----- workers, and what can become of them

  /** A worker that is asleep, or that goes to sleep before it reads the state word again. */
  predicate Sleepy(t: Thread, signal: bool) {
    t.Worker? && (t.pc == Doze || t.pc == Asleep || (t.pc == TestSignal && !signal))
  }

  /** A thread that will still signal the sensor's condition variable. */
  predicate Signaller(t: Thread) {
    || (t.Canceller? && (t.cpc.SetCancel? || t.cpc.LockSensor? || t.cpc.SignalSensor?))
    || (t.Handler? && !t.hpc.HandlerUnlock? && !t.hpc.HandlerOver?)
  }

  /** The points from which some reply leads to a notice before IDLE is written. */
  predicate MayReport(pc: WorkerPc) {
    match pc
    case CaptureStart | ReadData | ProcessData | Match | AddImage | EnrollNotice(_) => true
    case NoticeLock(next) => next != ToDone && next != ToSecondNotice
    case NoticeUnlock(next) => next == ToCapture
    case _ => false
  }

  /** Some n replies lead there from this point, with CANCEL read throughout. */
  ghost predicate LeadsToReport(kind: Kind, pc: WorkerPc, n: nat)
    decreases n
  {
    || (pc.NoticeLock? && LivePc(pc))
    || (n > 0 && LivePc(pc) && !WorkerAction(pc).Write?
        && exists o: Observed | o.value == Cancel :: LeadsToReport(kind, WorkerNext(kind, pc, o), n - 1))
  }

  /** A step under CANCEL leads to such a point only from such a point, and never into sleep. */
  lemma ReportsBack(kind: Kind, pc: WorkerPc, o: Observed)
    requires o.value == Cancel && LivePc(pc) && !WorkerAction(pc).Write?
    ensures MayReport(WorkerNext(kind, pc, o)) ==> MayReport(pc)
  {
  }

  lemma {:induction false} OnlyTheseReport(kind: Kind, pc: WorkerPc, n: nat)
    requires LeadsToReport(kind, pc, n)
    ensures MayReport(pc)
    decreases n
  {
    hide WorkerNext, WorkerAction;
    if !(pc.NoticeLock? && LivePc(pc)) {
      var o: Observed :| o.value == Cancel && LeadsToReport(kind, WorkerNext(kind, pc, o), n - 1);
      OnlyTheseReport(kind, WorkerNext(kind, pc, o), n - 1);
      ReportsBack(kind, pc, o);
    }
  }

  /** The reply that takes such a point nearer to its notice. */
  function Bad(pc: WorkerPc): Input {
    Input(if pc == ReadData then Accepted(true) else Rejected, true, 0)
  }

  function ToReport(pc: WorkerPc): nat {
    match pc
    case ProcessData | Match | AddImage | EnrollNotice(_) => 1
    case ReadData | CaptureStart => 2
    case NoticeUnlock(_) => 3
    case _ => 0
  }

  lemma BadStep(kind: Kind, pc: WorkerPc, o: Observed)
    requires MayReport(pc) && !pc.NoticeLock? && o.value == Cancel && o.reply == Bad(pc).reply && o.bit == Bad(pc).bit
    ensures LivePc(pc) && !WorkerAction(pc).Write? && MayReport(WorkerNext(kind, pc, o))
    ensures ToReport(WorkerNext(kind, pc, o)) == ToReport(pc) - 1 && (WorkerNext(kind, pc, o) != ReadData)
  {
  }

  lemma {:induction false} TheseReport(kind: Kind, pc: WorkerPc)
    requires MayReport(pc)
    ensures LeadsToReport(kind, pc, ToReport(pc))
    decreases ToReport(pc)
  {
    hide WorkerNext, WorkerAction;
    if !pc.NoticeLock? {
      var o := Observed(Cancel, false, None, Bad(pc).reply, Bad(pc).bit);
      BadStep(kind, pc, o);
      TheseReport(kind, WorkerNext(kind, pc, o));
    } else {
      LiveNotices(pc);
    }
  }

  lemma LiveNotices(pc: WorkerPc)
    requires MayReport(pc) && pc.NoticeLock?
    ensures LivePc(pc) && ToReport(pc) == 0
  {
  }

  /** Some replies make the worker report before it ends the session, exactly at these points. */
  lemma ReportsExactly(kind: Kind, pc: WorkerPc)
    ensures (exists n :: LeadsToReport(kind, pc, n)) <==> MayReport(pc)
  {
    if MayReport(pc) {
      TheseReport(kind, pc);
    }
    if n :| LeadsToReport(kind, pc, n) {
      OnlyTheseReport(kind, pc, n);
    }
  }

  // ----- for every sequence of replies

  /** A live worker that gets to IDLE on its own, whatever the replies. */
  ghost predicate Sure(s: System, t: Thread) {
    Live(t) && !Sleepy(t, s.signal) && (FullTable(s) ==> !MayReport(t.pc))
  }

  /** With any input a live worker under CANCEL stays out of sleep, and away from reports if it was. */
  lemma SureStep(t: Thread, o: Observed, cancels: nat)
    requires Live(t) && o.value == Cancel && !ActionOf(t).Write? && !Sleepy(t, o.signal)
    ensures var t' := Advance(t, o, cancels);
      && t'.Worker? && !Sleepy(t', true) && !Sleepy(t', false)
      && (MayReport(t'.pc) ==> MayReport(t.pc))
  {
  }

  lemma WorkerIsFree(s: System, i: nat, input: Input)
    requires i < |s.threads| && Live(s.threads[i]) && (s.threads[i].pc == Asleep ==> input.bit)
    requires ActionOf(s.threads[i]).Acquire? ==> Owner(s, ActionOf(s.threads[i]).lock) == None
    ensures Allowed(s, Run(i, input))
  {
  }

  /** One step of such a worker, with the input that it gets. */
  lemma SureMoves(s: System, i: nat, l: Label)
    requires Invariant(s) && s.state == Cancel && NoneCommitted(s)
    requires i < |s.threads| && Sure(s, s.threads[i]) && l.Run? && l.i == i
    requires ActionOf(s.threads[i]).Acquire? ==> Owner(s, ActionOf(s.threads[i]).lock) == None
    ensures Allowed(s, l) && !IsAsleep(s.threads[i])
    ensures var s', t := After(s, l), s.threads[i];
      && Invariant(s') && NoneCommitted(s') && i < |s'.threads|
      && (|| s'.state == Idle
          || (s'.state == Cancel && Sure(s', s'.threads[i]) && s'.threads[i].kind == t.kind
              && StepsLeft(t.kind, s'.threads[i].pc) < StepsLeft(t.kind, t.pc)))
  {
    hide Invariant, NoneCommitted, Advance, StepsLeft, CommandsLeft, FullTable, MayReport;
    var t := s.threads[i];
    WorkerIsFree(s, i, l.input);
    OwnStep(s, l);
    InvariantKept(s, l);
    CancelKept(s, l);
    Budget(t);
    if FullTable(After(s, l)) {
      FullTableBack(s, l);
    }
    if !ActionOf(t).Write? {
      StepSpends(t, SeenBy(s, l.input), s.cancels);
      SureStep(t, SeenBy(s, l.input), s.cancels);
      StateKept(s, l);
    }
  }

  /** The lock that such a worker needs next gets free. */
  lemma LockForSure(s: System, i: nat, outside: Outside) returns (labels: seq<Label>, s': System)
    requires Invariant(s) && s.state == Cancel && NoneCommitted(s) && i < |s.threads| && Sure(s, s.threads[i])
    ensures Reaches(s, labels, s') && Alone(s, labels, outside) && |labels| <= 6
    ensures Invariant(s') && NoneCommitted(s')
    ensures s'.state == Idle
      || (&& s'.state == Cancel && i < |s'.threads| && s'.threads[i] == s.threads[i] && Sure(s', s.threads[i])
          && (ActionOf(s.threads[i]).Acquire? ==> Owner(s', ActionOf(s.threads[i]).lock) == None))
  {
    hide NoneCommitted, Reaches, Alone, FullTable;
    var t := s.threads[i];
    labels, s' := [], s;
    assert Reaches(s, [], s) && Alone(s, [], outside) by { Nothing(s, outside); }
    if ActionOf(t).Acquire? && Owner(s, ActionOf(t).lock).Some? {
      var lock := ActionOf(t).lock;
      SureWaiter(t, lock, s.signal);
      HolderLetsGo(s, lock);
      var holder := s.threads[Owner(s, lock).value];
      HolderReleases(holder, lock, SeenBy(s, Input(Rejected, true, 0)), 0);
      labels, s' := FreeLock(s, lock, outside);
      assert Undisturbed(s, s', i);
    }
  }

  lemma Nothing(s: System, outside: Outside)
    ensures Reaches(s, [], s) && Alone(s, [], outside)
  {
  }

  lemma SureWaiter(t: Thread, lock: Lock, signal: bool)
    requires Live(t) && ActionOf(t) == Acquire(lock)
    ensures !Holds(t, lock) && !IsAsleep(t) && (lock == Lock.Device ==> MayReport(t.pc))
    ensures !Sleepy(t, true) && !Sleepy(t, false)
  {
  }

  lemma HolderLetsGo(s: System, lock: Lock)
    requires Invariant(s) && NoneCommitted(s) && Owner(s, lock).Some?
    requires lock == Lock.Device ==> !FullTable(s)
    ensures Owner(s, lock).value < |s.threads|
    ensures var holder := s.threads[Owner(s, lock).value]; Holds(holder, lock) && !Clings(holder)
  {
    var o := Owner(s, lock).value;
    assert Holds(s.threads[o], lock);
    assert !Committed(s.threads[o]);
  }

  /**
   Progress for every sequence of replies: a live worker that is not bound to sleep gets to IDLE, or
   somebody else does before it, within a bounded number of steps of threads already there.  With an
   enrolment stuck on a full table that needs a point from which no reply leads to a notice.
   */
  lemma {:induction false} IdleForEveryReply(s: System, i: nat, outside: Outside)
    returns (labels: seq<Label>, s': System)
    requires Invariant(s) && s.state == Cancel && NoneCommitted(s) && i < |s.threads| && Sure(s, s.threads[i])
    ensures Reaches(s, labels, s') && Alone(s, labels, outside) && s'.state == Idle
    ensures |labels| <= 7 * StepsLeft(s.threads[i].kind, s.threads[i].pc)
    decreases StepsLeft(s.threads[i].kind, s.threads[i].pc)
  {
    hide Invariant, NoneCommitted, Allowed, After, StepsLeft, LivePc, Sleepy, FullTable, MayReport;
    var t := s.threads[i];
    Budget(t);
    labels, s' := LockForSure(s, i, outside);
    if s'.state == Cancel {
      var m := s';
      var l := Run(i, outside(i, t.steps));
      SureMoves(m, i, l);
      var next := After(m, l);
      ReachesOne(m, l);
      AloneOne(m, l, outside);
      ReachesJoin(s, labels, m, [l], next);
      AloneJoin(s, labels, m, [l], outside);
      labels, s' := labels + [l], next;
      if next.state == Cancel {
        var more;
        more, s' := IdleForEveryReply(next, i, outside);
        ReachesJoin(s, labels, next, more, s');
        AloneJoin(s, labels, next, more, outside);
        labels := labels + more;
      }
    }
  }

  // ----- waking a sleeper

  /** Own steps of a signaller up to its signal. */
  function SignalIn(t: Thread): nat {
    match t
    case Canceller(pc) => if pc.SetCancel? then 3 else if pc.LockSensor? then 2 else 1
    case Handler(pc) =>
      (match pc
       case HandlerHandshake => 7
       case HandlerDrop => 6
       case HandlerLock => 5
       case HandlerFirst => 4
       case HandlerSecond => 3
       case HandlerSet => 2
       case _ => 1)
    case _ => 0
  }

  lemma SignalStep(t: Thread, o: Observed, cancels: nat)
    requires Signaller(t) && o.value == Cancel
    ensures !t.Worker? && !t.Starter? && !IsAsleep(t) && !ActionOf(t).Create?
    ensures ActionOf(t).Write? ==> ActionOf(t) == Write(Cancel)
    ensures ActionOf(t).Acquire? ==> ActionOf(t) == Acquire(Sensor) && !Holds(t, Sensor)
    ensures !ActionOf(t).Join? && !ActionOf(t).Halt? && !ActionOf(t).Sleeping?
    ensures !ActionOf(t).Notify? ==> Signaller(Advance(t, o, cancels)) && SignalIn(Advance(t, o, cancels)) < SignalIn(t)
  {
  }

  /** One step of the signaller, towards a signal for worker w. */
  lemma SignallerMoves(s: System, w: nat, j: nat) returns (l: Label)
    requires Invariant(s) && s.state == Cancel && NoneCommitted(s) && w < |s.threads| && IsAsleep(s.threads[w])
    requires j < |s.threads| && Signaller(s.threads[j])
    requires ActionOf(s.threads[j]) == Acquire(Sensor) ==> s.sensorOwner == None
    ensures Allowed(s, l) && l.Run? && l.i == j && !IsAsleep(s.threads[j])
    ensures !s.threads[j].Worker? && !s.threads[j].Starter?
    ensures var s' := After(s, l);
      && Invariant(s') && NoneCommitted(s') && s'.state == Cancel && |s'.threads| == |s.threads|
      && (|| s'.threads[w] == s.threads[w].(pc := Woken)
          || (s'.threads[w] == s.threads[w] && Signaller(s'.threads[j]) && SignalIn(s'.threads[j]) < SignalIn(s.threads[j])))
  {
    hide Invariant, NoneCommitted, Advance, ActionOf, SignalIn, Signaller;
    l := Run(j, Input(Rejected, false, w));
    SignalStep(s.threads[j], SeenBy(s, l.input), s.cancels);
    OwnStep(s, l);
    InvariantKept(s, l);
    CancelKept(s, l);
    OthersKept(s, l, w);
    SignalKeepsState(s, l);
  }

  lemma SignalKeepsState(s: System, l: Label)
    requires Allowed(s, l) && l.Run? && s.state == Cancel && !ActionOf(s.threads[l.i]).Create?
    requires ActionOf(s.threads[l.i]).Write? ==> ActionOf(s.threads[l.i]) == Write(Cancel)
    ensures After(s, l).state == Cancel && |After(s, l).threads| == |s.threads|
    ensures ActionOf(s.threads[l.i]).Notify? && l.input.waiter < |s.threads| && IsAsleep(s.threads[l.input.waiter])
              && l.input.waiter != l.i ==>
      After(s, l).threads[l.input.waiter] == s.threads[l.input.waiter].(pc := Woken)
  {
    hide Advance, ActionOf;
  }

  /** The signaller, after whoever has the sensor's lock, wakes the sleeper, or IDLE is written on the way. */
  lemma {:induction false} Rouse(s: System, w: nat, j: nat, outside: Outside) returns (labels: seq<Label>, s': System)
    requires Invariant(s) && s.state == Cancel && NoneCommitted(s) && w < |s.threads| && IsAsleep(s.threads[w])
    requires j < |s.threads| && Signaller(s.threads[j])
    ensures Reaches(s, labels, s') && Alone(s, labels, outside) && Invariant(s') && NoneCommitted(s')
    ensures s'.state == Idle
      || (s'.state == Cancel && w < |s'.threads| && s'.threads[w] == s.threads[w].(pc := Woken))
    decreases SignalIn(s.threads[j])
  {
    hide Invariant, NoneCommitted, Allowed, After, SignalIn, Signaller, ActionOf, Advance;
    labels, s' := LockForSignaller(s, w, j, outside);
    if s'.state == Cancel && IsAsleep(s'.threads[w]) {
      var m := s';
      var l := SignallerMoves(m, w, j);
      var next := After(m, l);
      ReachesOne(m, l);
      AloneOne(m, l, outside);
      ReachesJoin(s, labels, m, [l], next);
      AloneJoin(s, labels, m, [l], outside);
      labels, s' := labels + [l], next;
      if IsAsleep(next.threads[w]) {
        var more;
        more, s' := Rouse(next, w, j, outside);
        ReachesJoin(s, labels, next, more, s');
        AloneJoin(s, labels, next, more, outside);
        labels := labels + more;
      }
    }
  }

  lemma LockForSignaller(s: System, w: nat, j: nat, outside: Outside) returns (labels: seq<Label>, s': System)
    requires Invariant(s) && s.state == Cancel && NoneCommitted(s) && w < |s.threads| && IsAsleep(s.threads[w])
    requires j < |s.threads| && Signaller(s.threads[j])
    ensures Reaches(s, labels, s') && Alone(s, labels, outside) && Invariant(s') && NoneCommitted(s')
    ensures s'.state == Idle
      || (&& s'.state == Cancel && |s'.threads| == |s.threads|
          && s'.threads[j] == s.threads[j]
            && (s'.threads[w] == s.threads[w] || s'.threads[w] == s.threads[w].(pc := Woken))
          && (ActionOf(s.threads[j]) == Acquire(Sensor) ==> s'.sensorOwner == None))
  {
    hide NoneCommitted, Reaches, Alone, Signaller, ActionOf;
    labels, s' := [], s;
    assert Reaches(s, [], s) && Alone(s, [], outside) by { Nothing(s, outside); }
    SignalStep(s.threads[j], SeenBy(s, Input(Rejected, false, 0)), 0);
    if ActionOf(s.threads[j]) == Acquire(Sensor) && s.sensorOwner.Some? {
      HolderLetsGo(s, Sensor);
      AsleepHoldsNothing(s.threads[w]);
      labels, s' := FreeLock(s, Sensor, outside);
      assert Undisturbed(s, s', j) && Undisturbed(s, s', w);
    }
  }

  lemma AsleepHoldsNothing(t: Thread)
    ensures IsAsleep(t) ==> !Holds(t, Sensor)
  {
  }

  /** A worker on its way to sleep gets there in at most two steps. */
  lemma {:induction false} FallAsleep(s: System, w: nat, j: nat, outside: Outside)
    returns (labels: seq<Label>, s': System)
    requires Invariant(s) && s.state == Cancel && NoneCommitted(s)
    requires w < |s.threads| && Sleepy(s.threads[w], s.signal) && j < |s.threads| && Signaller(s.threads[j])
    ensures Reaches(s, labels, s') && Alone(s, labels, outside)
    ensures Invariant(s') && s'.state == Cancel && NoneCommitted(s')
    ensures |s'.threads| == |s.threads| && IsAsleep(s'.threads[w]) && s'.threads[j] == s.threads[j]
    decreases StepsLeft(s.threads[w].kind, s.threads[w].pc)
  {
    hide Invariant, NoneCommitted, Allowed, After, Signaller;
    if IsAsleep(s.threads[w]) {
      labels, s' := [], s;
    } else {
      var l := Run(w, outside(w, s.threads[w].steps));
      SleepyMoves(s, w, l);
      SignallersAreNoWorkers(s.threads[j]);
      var m := After(s, l);
      ReachesOne(s, l);
      AloneOne(s, l, outside);
      labels, s' := FallAsleep(m, w, j, outside);
      ReachesJoin(s, [l], m, labels, s');
      AloneJoin(s, [l], m, labels, outside);
      labels := [l] + labels;
    }
  }

  lemma SignallersAreNoWorkers(t: Thread)
    ensures Signaller(t) ==> !t.Worker?
  {
  }

  lemma SleepyMoves(s: System, w: nat, l: Label)
    requires Invariant(s) && s.state == Cancel && NoneCommitted(s) && l.Run? && l.i == w
    requires w < |s.threads| && Sleepy(s.threads[w], s.signal) && !IsAsleep(s.threads[w])
    ensures Allowed(s, l)
    ensures var s' := After(s, l);
      && Invariant(s') && s'.state == Cancel && NoneCommitted(s') && |s'.threads| == |s.threads|
      && s'.threads[w].Worker? && Sleepy(s'.threads[w], s'.signal) && s'.threads[w].kind == s.threads[w].kind
      && (forall k | 0 <= k < |s.threads| && k != w :: s'.threads[k] == s.threads[k])
      && StepsLeft(s.threads[w].kind, s'.threads[w].pc) < StepsLeft(s.threads[w].kind, s.threads[w].pc)
  {
    hide Invariant, NoneCommitted;
    InvariantKept(s, l);
    CancelKept(s, l);
  }

  /** A sleeper and a signaller together end the session, whatever the replies. */
  lemma IdleAfterSignal(s: System, w: nat, j: nat, outside: Outside) returns (labels: seq<Label>, s': System)
    requires Invariant(s) && s.state == Cancel && NoneCommitted(s)
    requires w < |s.threads| && Sleepy(s.threads[w], s.signal) && j < |s.threads| && Signaller(s.threads[j])
    ensures Reaches(s, labels, s') && Alone(s, labels, outside) && s'.state == Idle
  {
    hide Invariant, NoneCommitted, Signaller, Reaches, Alone;
    var m, more;
    labels, m := FallAsleep(s, w, j, outside);
    more, s' := Rouse(m, w, j, outside);
    ReachesJoin(s, labels, m, more, s');
    AloneJoin(s, labels, m, more, outside);
    labels := labels + more;
    if s'.state == Cancel {
      m := s';
      WokenIsSure(m, m.threads[w]);
      more, s' := IdleForEveryReply(m, w, outside);
      ReachesJoin(s, labels, m, more, s');
      AloneJoin(s, labels, m, more, outside);
      labels := labels + more;
    }
  }

  lemma WokenIsSure(s: System, t: Thread)
    ensures t.Worker? && (t.pc == Woken || t.pc == Begin) ==> Sure(s, t)
  {
  }
}
